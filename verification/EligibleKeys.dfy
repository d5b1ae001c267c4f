/**
 From groups to audit records in app/competitors_v22/candidates.py: the keys written into the records, and why the
 records handed to the suppression of shared websites are keyed the way it needs.
 */
module EligibleKeys {
  import opened Base
  import opened IdentityGroups
  import opened IdentityPartition
  import opened IdentityKeys
  import opened Ranking

  /** The text of an identity key. */
  function KeyText(key: IdentityKey): string {
    match key
    case StrongKey(id) => id
    case DomainKey(domain) => "domain:" + domain
    case NameAddressKey(name, address) => "name-address:" + name + "|" + address
  }

  predicate HasPrefix(id: string, prefix: string) {
    |prefix| <= |id| && id[..|prefix|] == prefix
  }

  /** Strong ids are built with one of three prefixes. */
  predicate IsStrongId(id: string) {
    HasPrefix(id, "place:") || HasPrefix(id, "data:") || HasPrefix(id, "cid:")
  }

  ghost predicate StrongIdsPrefixed(obs: seq<Observation>) {
    forall i, id | 0 <= i < |obs| && id in obs[i].strongIds :: IsStrongId(id)
  }

  lemma PrefixLetters(id: string)
    requires IsStrongId(id)
    ensures |id| >= 2 && id[0] != 'n' && !(id[0] == 'd' && id[1] == 'o')
  {
    if HasPrefix(id, "place:") {
      assert id[..6][0] == 'p';
    } else if HasPrefix(id, "data:") {
      assert id[..5][0] == 'd' && id[..5][1] == 'a';
    } else {
      assert id[..4][0] == 'c';
    }
  }

  lemma NameAddressLetter(key: IdentityKey)
    ensures key.NameAddressKey? ==> KeyText(key) != "" && KeyText(key)[0] == 'n'
  {
  }

  /** A provider id or a website key can be read off its text. */
  lemma KeyTextInjective(a: IdentityKey, b: IdentityKey)
    requires a.StrongKey? ==> IsStrongId(a.id)
    requires b.StrongKey? ==> IsStrongId(b.id)
    requires !a.NameAddressKey? && KeyText(a) == KeyText(b)
    ensures a == b
    ensures KeyText(a) == if a.StrongKey? then a.id else "domain:" + a.domain
  {
    if a.StrongKey? {
      PrefixLetters(a.id);
    }
    if b.StrongKey? {
      PrefixLetters(b.id);
    }
    if a.DomainKey? {
      assert KeyText(a)[0] == 'd' && KeyText(a)[1] == 'o' && KeyText(a)[7..] == a.domain;
    }
    if b.DomainKey? {
      assert KeyText(b)[0] == 'd' && KeyText(b)[1] == 'o' && KeyText(b)[7..] == b.domain;
    }
    NameAddressLetter(b);
  }

  /** One record for each group, under the group's identity key; only a group with a website becomes eligible. */
  ghost predicate RecordsOf(obs: seq<Observation>, groups: seq<Group>, keys: seq<IdentityKey>,
                            names: seq<string>, addresses: seq<string>, records: seq<AuditRecord>) {
    && |groups| == |keys| == |names| == |addresses| == |records|
    && (forall g | 0 <= g < |groups| :: RecordOf(obs, groups[g], keys[g], names[g], addresses[g], records[g]))
  }

  ghost predicate RecordOf(obs: seq<Observation>, group: Group, key: IdentityKey, name: string, address: string,
        record: AuditRecord) {
    && MembersInRange(obs, group.members)
    && IsIdentityKey(obs, group.members, name, address, key)
    && record.identityKey == KeyText(key)
    && (IsEligible(record) ==> MostCommon(Domains(obs, group.members)) != "")
  }

  lemma RecordKey(obs: seq<Observation>, group: Group, key: IdentityKey, name: string, address: string,
          record: AuditRecord)
    requires RecordOf(obs, group, key, name, address, record) && StrongIdsPrefixed(obs)
    ensures key.StrongKey? ==> IsStrongId(key.id)
    ensures IsEligible(record) ==> !key.NameAddressKey?
  {
    hide MostCommon, Domains, IsStrongId;
    if key.StrongKey? {
      assert HasStrongId(obs, group.members, key.id);
    }
  }

  /** Competitor ids are digests of identity keys, which do not collide. */
  ghost predicate IdsFollowKeys(records: seq<AuditRecord>) {
    forall i, j | 0 <= i < |records| && 0 <= j < |records| && IsEligible(records[i]) && IsEligible(records[j]) ::
      records[i].candidate.value.competitorId == records[j].candidate.value.competitorId ==>
        records[i].identityKey == records[j].identityKey
  }

  /** The records of a partition are keyed as the suppression of shared websites requires. */
  lemma PartitionGivesWellKeyed(obs: seq<Observation>, groups: seq<Group>, keys: seq<IdentityKey>,
                                names: seq<string>, addresses: seq<string>, records: seq<AuditRecord>)
    requires IsPartition(obs, groups) && StrongIdsPrefixed(obs)
    requires RecordsOf(obs, groups, keys, names, addresses, records) && IdsFollowKeys(records)
    ensures WellKeyed(records)
  {
    forall i: nat, j: nat | i < |records| && j < |records| && i != j && IsEligible(records[i])
      ensures records[i].identityKey != records[j].identityKey
    {
      DifferentGroupsDifferentKeys(obs, groups, keys, names, addresses, records, i, j);
    }
    hide RecordsOf, IsPartition, StrongIdsPrefixed;
  }

  lemma DifferentGroupsDifferentKeys(obs: seq<Observation>, groups: seq<Group>, keys: seq<IdentityKey>,
                                     names: seq<string>, addresses: seq<string>, records: seq<AuditRecord>,
                                     i: nat, j: nat)
    requires IsPartition(obs, groups) && StrongIdsPrefixed(obs)
    requires RecordsOf(obs, groups, keys, names, addresses, records)
    requires i < |records| && j < |records| && i != j && IsEligible(records[i])
    ensures records[i].identityKey != records[j].identityKey
  {
    hide IsPartition, StrongIdsPrefixed, IsEligible;
    assert RecordOf(obs, groups[i], keys[i], names[i], addresses[i], records[i]);
    assert RecordOf(obs, groups[j], keys[j], names[j], addresses[j], records[j]);
    RecordKey(obs, groups[i], keys[i], names[i], addresses[i], records[i]);
    RecordKey(obs, groups[j], keys[j], names[j], addresses[j], records[j]);
    hide IsIdentityKey, KeyText, IsStrongId, MostCommon, Domains;
    if records[i].identityKey == records[j].identityKey {
      KeyTextInjective(keys[i], keys[j]);
      KeysSingleOutGroups(obs, groups, i, j, names[i], addresses[i], names[j], addresses[j], keys[i]);
      assert false;
    }
  }
}
