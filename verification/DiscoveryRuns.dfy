/**
 Any number of clients on the keys of `CompetitorDiscoveryStore` (app/competitors_v22/store.py): each watches its
 keys, reads them one after the other, and commits only if none of them was written since.
 */
module DiscoveryRuns {
  import opened Base
  import opened DiscoveryModels
  import opened DiscoveryStore

  /** What a client saw of the versions of its two keys when it began to watch them. */
  datatype Watch = Watch(call: Call, identityVersion: nat, stateVersion: nat)

  datatype Client =
    | Idle
    | Watching(watch: Watch)
    | ReadIdentity(watch: Watch, identity: Option<Identity>)
    | ReadBoth(watch: Watch, identity: Option<Identity>, state: Option<State>)

  /** The database and the number of writes each watched key has seen. */
  datatype System = System(db: Db, identityVersions: map<IdemKey, nat>, stateVersions: map<JobId, nat>,
          clients: seq<Client>)

  datatype Event = Begin(client: nat, call: Call) | Read(client: nat) | Execute(client: nat)

  function Version<K>(m: map<K, nat>, k: K): nat {
    if k in m then m[k] else 0
  }

  function IdentityVersion(s: System, call: Call): nat {
    var k := IdemKeyOf(call);
    if k.None? then 0 else Version(s.identityVersions, k.value)
  }

  function StateVersion(s: System, call: Call): nat {
    Version(s.stateVersions, call.job)
  }

  predicate Unchanged(s: System, w: Watch) {
    IdentityVersion(s, w.call) == w.identityVersion && StateVersion(s, w.call) == w.stateVersion
  }

  predicate Writes(decided: Result<Decision, Error>) {
    decided.Ok? && !decided.value.Keep?
  }

  /** The keys a write bumps. */
  function Bumped(s: System, call: Call, decision: Decision): (t: System)
    ensures t.clients == s.clients && t.db == s.db
  {
    var k := IdemKeyOf(call);
    s.(stateVersions := s.stateVersions[call.job := StateVersion(s, call) + 1],
       identityVersions := if k.None? || !decision.Create? then s.identityVersions
                           else s.identityVersions[k.value := IdentityVersion(s, call) + 1])
  }

  function Step(s: System, e: Event): System {
    if e.client >= |s.clients| then s
    else
      var i, c := e.client, s.clients[e.client];
      match e
      case Begin(_, call) =>
        var w := Watch(call, IdentityVersion(s, call), StateVersion(s, call));
        s.(clients := s.clients[i := Watching(w)])
      case Read(_) =>
        (match c
         case Watching(w) => s.(clients := s.clients[i := ReadIdentity(w, IdentityOf(s.db, w.call))])
         case ReadIdentity(w, identity) =>
           s.(clients := s.clients[i := ReadBoth(w, identity, Get(s.db.states, w.call.job))])
         case _ => s)
      case Execute(_) => if c.ReadBoth? then Executed(s.(clients := s.clients[i := Idle]), c) else s
  }

  function Executed(s: System, c: Client): System
    requires c.ReadBoth?
  {
    var decided := Decide(c.watch.call, c.identity, c.state);
    if Writes(decided) && Unchanged(s, c.watch)
    then Bumped(s, c.watch.call, decided.value).(db := Committed(s.db, c.watch.call, decided.value))
    else s
  }

  /** What a client read is still what is stored, unless the key has been written since it was watched. */
  ghost predicate Fresh(s: System, c: Client) {
    c.Idle? ||
    (&& c.watch.identityVersion <= IdentityVersion(s, c.watch.call)
     && c.watch.stateVersion <= StateVersion(s, c.watch.call)
     && (!c.Watching? && c.watch.identityVersion == IdentityVersion(s, c.watch.call) ==>
           c.identity == IdentityOf(s.db, c.watch.call))
     && (c.ReadBoth? && c.watch.stateVersion == StateVersion(s, c.watch.call) ==>
           c.state == Get(s.db.states, c.watch.call.job)))
  }

  ghost predicate AllFresh(s: System) {
    forall i | 0 <= i < |s.clients| :: Fresh(s, s.clients[i])
  }

  /** A write leaves the other clients' readings fresh or visibly outdated. */
  lemma WriteKeepsFresh(s: System, call: Call, decision: Decision, c: Client)
    requires Fresh(s, c) && !decision.Keep? && (decision.Create? ==> call.Register?)
    ensures Fresh(Bumped(s, call, decision).(db := Committed(s.db, call, decision)), c)
  {
    hide Decide, Terminal, Initial;
  }

  lemma ClientKeepsFresh(s: System, i: nat, c: Client)
    requires AllFresh(s) && i < |s.clients| && Fresh(s, c)
    ensures AllFresh(s.(clients := s.clients[i := c]))
  {
    var t := s.(clients := s.clients[i := c]);
    forall k | 0 <= k < |t.clients| ensures Fresh(t, t.clients[k]) {
      assert Fresh(s, s.clients[k]);
    }
  }

  lemma ExecutedKeepsFresh(s: System, c: Client)
    requires AllFresh(s) && c.ReadBoth?
    ensures AllFresh(Executed(s, c))
  {
    hide Decide, Committed, Bumped, Fresh, Unchanged;
    var call := c.watch.call;
    var decided := Decide(call, c.identity, c.state);
    if Writes(decided) && Unchanged(s, c.watch) {
      if decided.value.Create? {
        CreateIsInitial(call, c.identity, c.state);
      }
      forall k | 0 <= k < |s.clients| ensures Fresh(Executed(s, c), s.clients[k]) {
        WriteKeepsFresh(s, call, decided.value, s.clients[k]);
      }
    }
  }

  lemma StepKeepsFresh(s: System, e: Event)
    requires AllFresh(s)
    ensures AllFresh(Step(s, e))
  {
    if e.client < |s.clients| {
      assert Fresh(s, s.clients[e.client]);
      hide AllFresh, Decide, Executed;
      match e
      case Begin(i, call) =>
        ClientKeepsFresh(s, i, Watching(Watch(call, IdentityVersion(s, call), StateVersion(s, call))));
      case Read(i) =>
        var c := s.clients[i];
        if c.Watching? {
          ClientKeepsFresh(s, i, ReadIdentity(c.watch, IdentityOf(s.db, c.watch.call)));
        } else if c.ReadIdentity? {
          ClientKeepsFresh(s, i, ReadBoth(c.watch, c.identity, Get(s.db.states, c.watch.call.job)));
        }
      case Execute(i) =>
        if s.clients[i].ReadBoth? {
          ClientKeepsFresh(s, i, Idle);
          ExecutedKeepsFresh(s.(clients := s.clients[i := Idle]), s.clients[i]);
        }
    }
  }

  /** Every step leaves the database alone or makes one call on what is stored at that moment. */
  lemma StepIsAtomic(s: System, e: Event)
    requires AllFresh(s)
    ensures Step(s, e).db == s.db ||
            (e.Execute? && e.client < |s.clients| && s.clients[e.client].ReadBoth? &&
             Step(s, e).db == Next(s.db, s.clients[e.client].watch.call))
  {
    hide Decide, Committed;
    if e.client < |s.clients| {
      assert Fresh(s, s.clients[e.client]);
    }
  }

  function Run(s: System, events: seq<Event>): System
    decreases |events|
  {
    if events == [] then s else Run(Step(s, events[0]), events[1..])
  }

  lemma FollowSelf(db: Db)
    ensures JobsFollow(db, db)
  {
  }

  lemma FollowTransitive(a: Db, b: Db, c: Db)
    requires JobsFollow(a, b) && JobsFollow(b, c)
    ensures JobsFollow(a, c)
  {
    forall job | job in a.states ensures job in c.states && Follows(a.states[job], c.states[job]) {
      FollowsTransitive(a.states[job], b.states[job], c.states[job]);
    }
    hide Follows;
  }

  /**
   In every run of every number of clients the indexes keep agreeing with the states (active set, idempotency
   entries, requests), no entry or request is lost or changed, and each job only moves forward: its revision and
   generation never fall, equal revisions mean an equal state, and a succeeded job never changes.
   */
  lemma {:induction false} EveryRunKeeps(s: System, events: seq<Event>)
    requires AllFresh(s) && Consistent(s.db)
    ensures Consistent(Run(s, events).db) && AllFresh(Run(s, events))
    ensures JobsFollow(s.db, Run(s, events).db)
    decreases |events|
  {
    hide Consistent, JobsFollow, Next, Step, AllFresh;
    if events == [] {
      FollowSelf(s.db);
    } else {
      var t := Step(s, events[0]);
      StepKeepsFresh(s, events[0]);
      StepIsAtomic(s, events[0]);
      FollowSelf(s.db);
      if t.db != s.db {
        var call := s.clients[events[0].client].watch.call;
        NextKeepsConsistent(s.db, call);
        NextFollows(s.db, call);
      }
      EveryRunKeeps(t, events[1..]);
      FollowTransitive(s.db, t.db, Run(s, events).db);
    }
  }

  /** Each write in a run changes one job, by one revision, along an allowed edge of its life cycle. */
  lemma EveryWriteIsOneStep(s: System, e: Event)
    requires AllFresh(s) && Consistent(s.db) && Step(s, e).db != s.db
    ensures e.client < |s.clients| && s.clients[e.client].ReadBoth?
    ensures OneStep(s.db, s.clients[e.client].watch.call, Step(s, e).db)
  {
    hide Consistent, OneStep, JobsFollow, Next, Step, AllFresh;
    StepIsAtomic(s, e);
    NextFollows(s.db, s.clients[e.client].watch.call);
  }
}
