/**
 `_most_common` and `_identity_key` of app/competitors_v22/candidates.py, and why suppression may use identity
 keys as dictionary keys: the groups that can become eligible never share one.
 */
module IdentityKeys {
  import opened Base
  import opened Lexicographic
  import opened IdentityGroups
  import opened IdentityPartition

  // ---------------------------------------------------------------- _most_common

  /** More occurrences first, then the smaller value. */
  predicate Preferred(values: seq<string>, a: string, b: string) {
    || multiset(values)[a] > multiset(values)[b]
    || (multiset(values)[a] == multiset(values)[b] && StringLess(a, b))
  }

  /** The preferred value among the first `k` that are not empty. */
  function BestOf(values: seq<string>, k: nat): string
    requires k <= |values|
  {
    if k == 0 then ""
    else
      var best, v := BestOf(values, k - 1), values[k - 1];
      if v != "" && (best == "" || Preferred(values, v, best)) then v else best
  }

  function MostCommon(values: seq<string>): string {
    BestOf(values, |values|)
  }

  lemma PreferredTransitive(values: seq<string>, a: string, b: string, c: string)
    requires Preferred(values, a, b) && Preferred(values, b, c)
    ensures Preferred(values, a, c)
  {
    if StringLess(a, b) && StringLess(b, c) {
      LexTransitive(Codes(a), Codes(b), Codes(c));
    }
  }

  ghost predicate IsMostCommon(values: seq<string>, k: nat, best: string)
    requires k <= |values|
  {
    if best == "" then forall i | 0 <= i < k :: values[i] == ""
    else
      best in values[..k] &&
      forall i | 0 <= i < k && values[i] != "" :: values[i] == best || Preferred(values, best, values[i])
  }

  lemma {:induction false} MostCommonIs(values: seq<string>, k: nat)
    requires k <= |values|
    ensures IsMostCommon(values, k, BestOf(values, k))
  {
    if k > 0 {
      MostCommonIs(values, k - 1);
      var best, v := BestOf(values, k - 1), values[k - 1];
      assert values[..k] == values[..k - 1] + [v];
      if v != "" && best != "" {
        StringLessTotal(best, v);
        if Preferred(values, v, best) {
          forall i | 0 <= i < k && values[i] != "" ensures values[i] == v || Preferred(values, v, values[i]) {
            if i < k - 1 && values[i] != best {
              PreferredTransitive(values, v, best, values[i]);
            }
          }
        }
      }
    }
  }

  /** The most common value depends on how often values occur, not on their order. */
  lemma MostCommonIgnoresOrder(values: seq<string>, others: seq<string>)
    requires multiset(values) == multiset(others)
    ensures MostCommon(values) == MostCommon(others)
  {
    MostCommonIs(values, |values|);
    MostCommonIs(others, |others|);
    assert values[..|values|] == values && others[..|others|] == others;
    var a, b := MostCommon(values), MostCommon(others);
    forall v ensures v in values <==> v in others {
      assert v in multiset(values) <==> v in multiset(others);
    }
    if a != "" {
      Listed(others, a);
    }
    if b != "" {
      Listed(values, b);
    }
    if a != b && a != "" && b != "" {
      assert Preferred(values, a, b) && Preferred(values, b, a);
      PreferredTransitive(values, a, b, a);
      LexIrreflexive(Codes(a));
      assert false;
    }
  }

  /**
   The most common value is empty only where all are; otherwise any other value occurs less often, or as often and is
   the greater text.
   */
  lemma MostCommonLeads(values: seq<string>, v: string)
    requires v in values && v != "" && v != MostCommon(values)
    ensures MostCommon(values) in values && MostCommon(values) != ""
    ensures var best := MostCommon(values);
      || multiset(values)[best] > multiset(values)[v]
      || (multiset(values)[best] == multiset(values)[v] && TextBefore(best, v))
  {
    MostCommonIs(values, |values|);
    assert values[..|values|] == values;
    Listed(values, v);
    StringLessIs(MostCommon(values), v);
  }

  lemma Listed(values: seq<string>, v: string)
    requires v in values
    ensures exists i :: 0 <= i < |values| && values[i] == v
  {
  }

  // ---------------------------------------------------------------- _identity_key

  datatype IdentityKey =
    | StrongKey(id: string)
    | DomainKey(domain: string)
    | NameAddressKey(name: string, address: string)

  ghost predicate HasStrongId(obs: seq<Observation>, members: seq<nat>, id: string) {
    exists x :: x in members && x < |obs| && id in obs[x].strongIds
  }

  predicate MembersInRange(obs: seq<Observation>, members: seq<nat>) {
    forall i | 0 <= i < |members| :: members[i] < |obs|
  }

  /** The members' websites, without the missing and empty ones. */
  function Domains(obs: seq<Observation>, members: seq<nat>): seq<string>
    requires MembersInRange(obs, members)
  {
    if members == [] then []
    else
      var o := obs[members[|members| - 1]];
      Domains(obs, members[..|members| - 1]) + if HasDomain(o) then [o.domain.value] else []
  }

  lemma {:induction false} DomainsAre(obs: seq<Observation>, members: seq<nat>, d: string)
    requires MembersInRange(obs, members)
    requires d in Domains(obs, members)
    ensures d != "" && exists x :: x in members && obs[x].domain == Some(d)
  {
    if members != [] {
      var front, last := members[..|members| - 1], members[|members| - 1];
      if d in Domains(obs, front) {
        DomainsAre(obs, front, d);
      } else {
        assert last in members && obs[last].domain == Some(d);
      }
    }
  }

  /** Where the members that show a website stand. */
  ghost function Showing(obs: seq<Observation>, members: seq<nat>, d: string): set<nat>
    requires MembersInRange(obs, members)
  {
    set i: nat | i < |members| && obs[members[i]].domain == Some(d)
  }

  /** A website is listed as often as members show it. */
  lemma {:induction false} DomainsCount(obs: seq<Observation>, members: seq<nat>, d: string)
    requires MembersInRange(obs, members) && d != ""
    ensures multiset(Domains(obs, members))[d] == |Showing(obs, members, d)|
  {
    if members == [] {
      hide Domains;
      assert Showing(obs, members, d) == {};
      assert Domains(obs, members) == [] by { NoDomains(obs, members); }
    } else {
      var n := |members| - 1;
      var front, last := members[..n], obs[members[n]];
      DomainsCount(obs, front, d);
      ShowingLast(obs, members, d);
      hide Showing;
      assert Domains(obs, members) == Domains(obs, front) + if HasDomain(last) then [last.domain.value] else [];
    }
  }

  lemma NoDomains(obs: seq<Observation>, members: seq<nat>)
    requires members == []
    ensures Domains(obs, members) == []
  {
  }

  lemma ShowingLast(obs: seq<Observation>, members: seq<nat>, d: string)
    requires MembersInRange(obs, members) && members != []
    ensures var n := |members| - 1;
      && n !in Showing(obs, members[..n], d)
      && Showing(obs, members, d) ==
         Showing(obs, members[..n], d) + if obs[members[n]].domain == Some(d) then {n} else {}
  {
    var n := |members| - 1;
    forall i: nat ensures i in Showing(obs, members, d) <==>
        i in Showing(obs, members[..n], d) || (i == n && obs[members[n]].domain == Some(d))
    {
      if i < n {
        assert members[..n][i] == members[i];
      }
    }
  }

  /** Any other website is shown by fewer members, or by as many and is the greater text. */
  ghost predicate LeadingWebsite(obs: seq<Observation>, members: seq<nat>, d: string)
    requires MembersInRange(obs, members)
  {
    && d != "" && Showing(obs, members, d) != {}
    && forall e | e != "" && e != d && Showing(obs, members, e) != {} ::
         || |Showing(obs, members, d)| > |Showing(obs, members, e)|
         || (|Showing(obs, members, d)| == |Showing(obs, members, e)| && TextBefore(d, e))
  }

  lemma MostCommonWebsite(obs: seq<Observation>, members: seq<nat>)
    requires MembersInRange(obs, members)
    ensures var d := MostCommon(Domains(obs, members));
      if d != "" then LeadingWebsite(obs, members, d)
      else forall x | x in members :: obs[x].domain == None || obs[x].domain == Some("")
  {
    var values := Domains(obs, members);
    var d := MostCommon(values);
    hide Showing, MostCommon, Domains;
    forall e | e != "" ensures (e in values <==> Showing(obs, members, e) != {}) &&
          multiset(values)[e] == |Showing(obs, members, e)|
    {
      DomainsCount(obs, members, e);
      assert e in values <==> e in multiset(values);
    }
    forall e | e != "" && e != d && e in values
      ensures d != "" && d in values && (multiset(values)[d] > multiset(values)[e] ||
              (multiset(values)[d] == multiset(values)[e] && TextBefore(d, e)))
    {
      MostCommonLeads(values, e);
    }
    if d != "" {
      MostCommonListed(values);
    } else {
      forall x | x in members ensures obs[x].domain == None || obs[x].domain == Some("") {
        if obs[x].domain.Some? && obs[x].domain.value != "" {
          ShownAt(obs, members, x);
        }
      }
    }
  }

  lemma MostCommonListed(values: seq<string>)
    requires MostCommon(values) != ""
    ensures MostCommon(values) in values
  {
    MostCommonIs(values, |values|);
    assert values[..|values|] == values;
  }

  lemma ShownAt(obs: seq<Observation>, members: seq<nat>, x: nat)
    requires MembersInRange(obs, members) && x in members && obs[x].domain.Some?
    ensures Showing(obs, members, obs[x].domain.value) != {}
  {
    var i: nat :| i < |members| && members[i] == x;
    assert i in Showing(obs, members, obs[x].domain.value);
  }

  ghost predicate IsIdentityKey(obs: seq<Observation>, members: seq<nat>, name: string, address: string,
          key: IdentityKey)
    requires MembersInRange(obs, members)
  {
    match key
    case StrongKey(id) =>
      && HasStrongId(obs, members, id)
      && forall other | HasStrongId(obs, members, other) :: other == id || StringLess(id, other)
    case DomainKey(d) =>
      && (forall x | x in members :: obs[x].strongIds == {})
      && d == MostCommon(Domains(obs, members)) != ""
    case NameAddressKey(n, a) =>
      && (forall x | x in members :: obs[x].strongIds == {})
      && MostCommon(Domains(obs, members)) == ""
      && n == name && a == address
  }

  /** The least of `best` and `ids`. */
  method LeastOf(ids: set<string>, best: Option<string>) returns (least: Option<string>)
    ensures least.None? <==> ids == {} && best.None?
    ensures least.Some? ==> least.value in ids || least == best
    ensures forall id | id in ids :: id == least.value || StringLess(least.value, id)
    ensures best.Some? ==> best == least || StringLess(least.value, best.value)
  {
    least := best;
    var rest := ids;
    while rest != {}
      invariant rest <= ids
      invariant least.None? <==> ids == rest && best.None?
      invariant least.Some? ==> least.value in ids || least == best
      invariant forall id | id in ids && id !in rest ::
                  least.Some? && (id == least.value || StringLess(least.value, id))
      invariant best.Some? ==> least.Some? && (best == least || StringLess(least.value, best.value))
    {
      ghost var before := least;
      var id :| id in rest;
      rest := rest - {id};
      if least.None? || StringLess(id, least.value) {
        least := Some(id);
        SmallerStill(before, id);
      } else {
        StringLessTotal(id, least.value);
      }
    }
  }

  lemma SmallerStill(before: Option<string>, id: string)
    requires before.None? || StringLess(id, before.value)
    ensures before.Some? ==> forall other | StringLess(before.value, other) :: StringLess(id, other)
  {
    if before.Some? {
      forall other | StringLess(before.value, other) ensures StringLess(id, other) {
        LexTransitive(Codes(id), Codes(before.value), Codes(other));
      }
    }
  }

  method IdentityKeyOf(obs: seq<Observation>, members: seq<nat>, name: string, address: string)
    returns (key: IdentityKey)
    requires MembersInRange(obs, members)
    ensures IsIdentityKey(obs, members, name, address, key)
    ensures key.DomainKey? ==> LeadingWebsite(obs, members, key.domain)
    ensures key.NameAddressKey? ==>
              forall x | x in members :: obs[x].domain == None || obs[x].domain == Some("")
  {
    MostCommonWebsite(obs, members);
    var least: Option<string> := None;
    var k: nat := 0;
    while k < |members|
      invariant k <= |members|
      invariant LeastStrongId(obs, members, k, least)
    {
      assert members[k] in members;
      var next := LeastOf(obs[members[k]].strongIds, least);
      NextMember(obs, members, k, least, next);
      least := next;
      k := k + 1;
    }
    assert members[..|members|] == members;
    if least.Some? {
      return StrongKey(least.value);
    }
    forall x | x in members ensures obs[x].strongIds == {} {
      if id :| id in obs[x].strongIds {
        assert HasStrongId(obs, members, id);
      }
    }
    var domain := MostCommon(Domains(obs, members));
    key := if domain != "" then DomainKey(domain) else NameAddressKey(name, address);
  }

  ghost predicate LeastStrongId(obs: seq<Observation>, members: seq<nat>, k: nat, least: Option<string>)
    requires k <= |members|
  {
    && (least.Some? ==> HasStrongId(obs, members[..k], least.value))
    && forall id | HasStrongId(obs, members[..k], id) ::
         least.Some? && (id == least.value || StringLess(least.value, id))
  }

  lemma NextMember(obs: seq<Observation>, members: seq<nat>, k: nat, least: Option<string>, next: Option<string>)
    requires k < |members| && members[k] < |obs| && LeastStrongId(obs, members, k, least)
    requires next.None? <==> obs[members[k]].strongIds == {} && least.None?
    requires next.Some? ==> next.value in obs[members[k]].strongIds || next == least
    requires forall id | id in obs[members[k]].strongIds :: id == next.value || StringLess(next.value, id)
    requires least.Some? ==> least == next || StringLess(next.value, least.value)
    ensures LeastStrongId(obs, members, k + 1, next)
  {
    var longer := members[..k + 1];
    assert longer == members[..k] + [members[k]];
    forall id | HasStrongId(obs, longer, id) ensures next.Some? && (id == next.value || StringLess(next.value, id)) {
      var x :| x in longer && x < |obs| && id in obs[x].strongIds;
      if x in members[..k] {
        assert HasStrongId(obs, members[..k], id);
        if least != next && id != least.value {
          LexTransitive(Codes(next.value), Codes(least.value), Codes(id));
        }
      }
    }
    if next.Some? {
      if next.value in obs[members[k]].strongIds {
        assert members[k] in longer;
      } else {
        var x :| x in members[..k] && x < |obs| && next.value in obs[x].strongIds;
        assert x in longer;
      }
    }
  }

  // ---------------------------------------------------------------- keys single out groups

  /** What `Groups` promises. */
  ghost predicate IsPartition(obs: seq<Observation>, groups: seq<Group>) {
    && ExactCover(obs, groups)
    && forall g: nat, x: nat, y: nat | x < |obs| && y < |obs| && InGroup(groups, g, x) ::
         InGroup(groups, g, y) <==> SameGroup(obs, x, y)
  }

  /** Two groups with the same provider id or website key are the same group, so keys of eligible groups are unique. */
  lemma KeysSingleOutGroups(obs: seq<Observation>, groups: seq<Group>, g: nat, h: nat,
                            name: string, address: string, otherName: string, otherAddress: string, key: IdentityKey)
    requires IsPartition(obs, groups) && g < |groups| && h < |groups|
    requires MembersInRange(obs, groups[g].members) && MembersInRange(obs, groups[h].members)
    requires IsIdentityKey(obs, groups[g].members, name, address, key)
    requires IsIdentityKey(obs, groups[h].members, otherName, otherAddress, key)
    requires !key.NameAddressKey?
    ensures g == h
  {
    var x, y := SharedEvidence(obs, groups[g].members, groups[h].members, name, address, otherName, otherAddress, key);
    assert InGroup(groups, g, x) && InGroup(groups, h, y);
    assert InGroup(groups, g, y);
  }

  lemma SharedEvidence(obs: seq<Observation>, p: seq<nat>, q: seq<nat>,
                       name: string, address: string, otherName: string, otherAddress: string,
                             key: IdentityKey) returns (x: nat, y: nat)
    requires MembersInRange(obs, p) && MembersInRange(obs, q)
    requires IsIdentityKey(obs, p, name, address, key) && IsIdentityKey(obs, q, otherName, otherAddress, key)
    requires !key.NameAddressKey?
    ensures x in p && y in q && x < |obs| && y < |obs| && SameGroup(obs, x, y)
  {
    if key.StrongKey? {
      x :| x in p && x < |obs| && key.id in obs[x].strongIds;
      y :| y in q && y < |obs| && key.id in obs[y].strongIds;
      assert key.id in obs[x].strongIds * obs[y].strongIds;
      LinkedEdge(obs, true, x, y);
    } else {
      x := MemberWithDomain(obs, p, key.domain);
      y := MemberWithDomain(obs, q, key.domain);
      LinkedEdge(obs, false, x, y);
    }
  }

  lemma MemberWithDomain(obs: seq<Observation>, members: seq<nat>, d: string) returns (x: nat)
    requires MembersInRange(obs, members)
    requires d == MostCommon(Domains(obs, members)) != ""
    ensures x in members && obs[x].domain == Some(d)
  {
    var values := Domains(obs, members);
    MostCommonIs(values, |values|);
    assert values[..|values|] == values;
    DomainsAre(obs, members, d);
    x :| x in members && obs[x].domain == Some(d);
  }
}
