/**
 WATCH / GET / MULTI-EXEC retry loops on one Redis key, with any number of clients, as in
 `JobCostLedger._mutate` of app/jobs_v22/cost_ledger.py. A write of an equal value still counts as a write, so it
 fails the other clients that are watching. `apply` is the client's computation: `None` when it raises before EXEC.
 */
module Optimistic {
  import opened Base

  datatype Key<V> = Key(value: V, version: nat)

  datatype Client<V> =
    | Idle
    | Watching(version: nat)
    | Loaded(version: nat, seen: V, now: int)

  datatype System<V> = System(key: Key<V>, clients: seq<Client<V>>)

  /** One client's next command. Clients are interleaved arbitrarily; clocks show arbitrary times. */
  datatype Event<C> =
    | Watch(client: nat)
    | Load(client: nat, now: int)
    | Execute(client: nat, call: C)

  /** A write that took effect: who asked for what, at which time. */
  datatype Commit<C> = Commit(call: C, now: int)

  function Step<V, C>(s: System<V>, e: Event<C>, apply: (C, V, int) -> Option<V>): System<V> {
    if e.client >= |s.clients| then s
    else
      var i, c := e.client, s.clients[e.client];
      match e
      case Watch(_) => s.(clients := s.clients[i := Watching(s.key.version)])
      case Load(_, now) => if c.Watching? then s.(clients := s.clients[i := Loaded(c.version, s.key.value, now)]) else s
      case Execute(_, call) =>
        if !c.Loaded? then s
        else
          var after := s.(clients := s.clients[i := Idle]);
          var result := apply(call, c.seen, c.now);
          if result.None? || c.version != s.key.version then after
          else after.(key := Key(result.value, s.key.version + 1))
  }

  /** The write the event performs, if any. */
  function Written<V, C>(s: System<V>, e: Event<C>, apply: (C, V, int) -> Option<V>): seq<Commit<C>> {
    if e.Execute? && e.client < |s.clients| && s.clients[e.client].Loaded? &&
       apply(e.call, s.clients[e.client].seen, s.clients[e.client].now).Some? &&
           s.clients[e.client].version == s.key.version
    then [Commit(e.call, s.clients[e.client].now)]
    else []
  }

  function Run<V, C>(s: System<V>, events: seq<Event<C>>, apply: (C, V, int) -> Option<V>): System<V>
    decreases |events|
  {
    if events == [] then s else Run(Step(s, events[0], apply), events[1..], apply)
  }

  lemma {:induction false} RunAppend<V, C>(s: System<V>, a: seq<Event<C>>, b: seq<Event<C>>,
          apply: (C, V, int) -> Option<V>)
    ensures Run(s, a + b, apply) == Run(Run(s, a, apply), b, apply)
    decreases |a|
  {
    if a == [] {
      assert a + b == b;
    } else {
      assert (a + b)[0] == a[0] && (a + b)[1..] == a[1..] + b;
      RunAppend(Step(s, a[0], apply), a[1..], b, apply);
    }
  }

  /** The commands of one call of client 0. */
  function CallOf<C>(call: C, now: int): seq<Event<C>> {
    [Watch(0), Load(0, now), Execute(0, call)]
  }

  /** A call with nobody else around takes effect, unless its computation raises. */
  lemma CallAlone<V, C>(s: System<V>, call: C, now: int, apply: (C, V, int) -> Option<V>)
    requires s.clients == [Idle] && apply(call, s.key.value, now).Some?
    ensures Run(s, CallOf(call, now), apply) ==
            System(Key(apply(call, s.key.value, now).value, s.key.version + 1), [Idle])
  {
    var events := CallOf<C>(call, now);
    var s1 := Step(s, events[0], apply);
    var s2 := Step(s1, events[1], apply);
    var s3 := Step(s2, events[2], apply);
    assert Run(s3, events[3..], apply) == s3;
    assert Run(s2, events[2..], apply) == s3 by { assert events[2..][1..] == events[3..]; }
    assert Run(s1, events[1..], apply) == s3 by { assert events[1..][1..] == events[2..]; }
    assert s3.clients == [Idle];
  }

  function Commits<V, C>(s: System<V>, events: seq<Event<C>>, apply: (C, V, int) -> Option<V>): seq<Commit<C>>
    decreases |events|
  {
    if events == [] then [] else Written(s, events[0], apply) + Commits(Step(s, events[0], apply), events[1..], apply)
  }

  /** The same calls made one after the other, with nobody else around. */
  function Sequential<V, C>(value: V, commits: seq<Commit<C>>, apply: (C, V, int) -> Option<V>): Option<V> {
    if commits == [] then Some(value)
    else
      match apply(commits[0].call, value, commits[0].now) {
        case None => None
        case Some(next) => Sequential(next, commits[1..], apply)
      }
  }

  /** A client whose watched version is current has read the current value. */
  ghost predicate Consistent<V>(s: System<V>) {
    forall i | 0 <= i < |s.clients| :: Fresh(s.key, s.clients[i])
  }

  ghost predicate Fresh<V>(key: Key<V>, c: Client<V>) {
    match c
    case Idle => true
    case Watching(version) => version <= key.version
    case Loaded(version, seen, _) => version <= key.version && (version == key.version ==> seen == key.value)
  }

  lemma StepKeepsConsistent<V, C>(s: System<V>, e: Event<C>, apply: (C, V, int) -> Option<V>)
    requires Consistent(s)
    ensures Consistent(Step(s, e, apply))
  {
    var t := Step(s, e, apply);
    forall i | 0 <= i < |t.clients| ensures Fresh(t.key, t.clients[i]) {
      assert Fresh(s.key, s.clients[i]);
      if e.client < |s.clients| {
        assert Fresh(s.key, s.clients[e.client]);
      }
    }
  }

  /** A write applies the call to the value it replaces, whatever happened since the client read it. */
  lemma WriteIsAtomic<V, C>(s: System<V>, e: Event<C>, apply: (C, V, int) -> Option<V>)
    requires Consistent(s)
    ensures Sequential(s.key.value, Written(s, e, apply), apply) == Some(Step(s, e, apply).key.value)
  {
    if e.client < |s.clients| {
      assert Fresh(s.key, s.clients[e.client]);
    }
  }

  lemma {:induction false} SequentialAppend<V, C>(value: V, a: seq<Commit<C>>, b: seq<Commit<C>>,
          apply: (C, V, int) -> Option<V>)
    requires Sequential(value, a, apply).Some?
    ensures Sequential(value, a + b, apply) == Sequential(Sequential(value, a, apply).value, b, apply)
  {
    if a == [] {
      assert a + b == b;
    } else {
      assert (a + b)[0] == a[0] && (a + b)[1..] == a[1..] + b;
      SequentialAppend(apply(a[0].call, value, a[0].now).value, a[1..], b, apply);
    }
  }

  /**
   However the clients interleave, the stored value is what the committed calls give when made one after the other.
   */
  lemma {:induction false} RunIsSequential<V, C>(s: System<V>, events: seq<Event<C>>, apply: (C, V, int) -> Option<V>)
    requires Consistent(s)
    ensures Consistent(Run(s, events, apply))
    ensures Sequential(s.key.value, Commits(s, events, apply), apply) == Some(Run(s, events, apply).key.value)
    decreases |events|
  {
    if events != [] {
      var t := Step(s, events[0], apply);
      StepKeepsConsistent(s, events[0], apply);
      WriteIsAtomic(s, events[0], apply);
      RunIsSequential(t, events[1..], apply);
      SequentialAppend(s.key.value, Written(s, events[0], apply), Commits(t, events[1..], apply), apply);
    }
  }

  // ---------------------------------------------------------------- progress

  /** Some other client's write took effect during the run. */
  ghost predicate OtherCommitted<V, C>(s: System<V>, events: seq<Event<C>>, apply: (C, V, int) -> Option<V>, i: nat) {
    exists n | 0 <= n < |events| :: events[n].client != i && Written(Run(s, events[..n], apply), events[n], apply) != []
  }

  predicate NoWatch<C>(events: seq<Event<C>>, i: nat) {
    forall n | 0 <= n < |events| :: !(events[n].Watch? && events[n].client == i)
  }

  /** The version moves with every write and with nothing else; without a new watch a client keeps its version. */
  lemma VersionMoves<V, C>(s: System<V>, e: Event<C>, apply: (C, V, int) -> Option<V>, i: nat)
    requires i < |s.clients| && !(e.Watch? && e.client == i)
    ensures Step(s, e, apply).key.version == s.key.version + |Written(s, e, apply)|
    ensures |Step(s, e, apply).clients| == |s.clients|
    ensures var c := Step(s, e, apply).clients[i];
      c.Idle? || (!s.clients[i].Idle? && c.version == s.clients[i].version)
    ensures e.client == i && Written(s, e, apply) != [] ==> Step(s, e, apply).clients[i].Idle?
  {
  }

  lemma {:induction false} IdleStays<V, C>(s: System<V>, events: seq<Event<C>>, apply: (C, V, int) -> Option<V>, i: nat)
    requires i < |s.clients| && s.clients[i].Idle? && NoWatch(events, i)
    ensures i < |Run(s, events, apply).clients| && Run(s, events, apply).clients[i].Idle?
    decreases |events|
  {
    if events != [] {
      hide Step, Written;
      VersionMoves(s, events[0], apply, i);
      IdleStays(Step(s, events[0], apply), events[1..], apply, i);
    }
  }

  lemma OtherCommittedLater<V, C>(s: System<V>, events: seq<Event<C>>, apply: (C, V, int) -> Option<V>, i: nat)
    requires events != [] && OtherCommitted(Step(s, events[0], apply), events[1..], apply, i)
    ensures OtherCommitted(s, events, apply, i)
  {
    hide Step, Written;
    var t, rest := Step(s, events[0], apply), events[1..];
    var n :| 0 <= n < |rest| && rest[n].client != i && Written(Run(t, rest[..n], apply), rest[n], apply) != [];
    assert events[..n + 1][0] == events[0] && events[..n + 1][1..] == rest[..n];
    assert Run(s, events[..n + 1], apply) == Run(t, rest[..n], apply);
  }

  /** The version a client watches falls behind only by another client's write. */
  lemma {:induction false} BehindMeansCommit<V, C>(s: System<V>, events: seq<Event<C>>, apply: (C, V, int) -> Option<V>,
        i: nat)
    requires i < |s.clients| && !s.clients[i].Idle? && s.clients[i].version == s.key.version && NoWatch(events, i)
    ensures var t := Run(s, events, apply);
      && i < |t.clients|
      && (!t.clients[i].Idle? && t.clients[i].version != t.key.version ==> OtherCommitted(s, events, apply, i))
    decreases |events|
  {
    if events != [] {
      hide Step, Written, OtherCommitted;
      var e := events[0];
      var t := Step(s, e, apply);
      VersionMoves(s, e, apply, i);
      if t.clients[i].Idle? {
        IdleStays(t, events[1..], apply, i);
      } else if Written(s, e, apply) != [] {
        CommittedNow(s, events, apply, i);
        ClientsStay(t, events[1..], apply);
      } else {
        BehindMeansCommit(t, events[1..], apply, i);
        if OtherCommitted(t, events[1..], apply, i) {
          OtherCommittedLater(s, events, apply, i);
        }
      }
    }
  }

  lemma CommittedNow<V, C>(s: System<V>, events: seq<Event<C>>, apply: (C, V, int) -> Option<V>, i: nat)
    requires events != [] && events[0].client != i && Written(s, events[0], apply) != []
    ensures OtherCommitted(s, events, apply, i)
  {
    hide Written;
    assert Run(s, events[..0], apply) == s;
  }

  lemma {:induction false} ClientsStay<V, C>(s: System<V>, events: seq<Event<C>>, apply: (C, V, int) -> Option<V>)
    ensures |Run(s, events, apply).clients| == |s.clients|
    decreases |events|
  {
    if events != [] {
      ClientsStay(Step(s, events[0], apply), events[1..], apply);
    }
  }

  /**
   The retry loop is lock-free: when a client's computation succeeds but its transaction fails, another client has
   committed since the first one began to watch.
   */
  lemma FailureMeansCommit<V, C>(s: System<V>, i: nat, events: seq<Event<C>>, call: C, apply: (C, V, int) -> Option<V>)
    requires i < |s.clients| && NoWatch(events, i)
    requires var t := Run(Step(s, Watch(i), apply), events, apply);
      && i < |t.clients| && t.clients[i].Loaded? && apply(call, t.clients[i].seen, t.clients[i].now).Some?
      && Written(t, Execute(i, call), apply) == []
    ensures OtherCommitted(Step(s, Watch(i), apply), events, apply, i)
  {
    BehindMeansCommit(Step(s, Watch(i), apply), events, apply, i);
    hide OtherCommitted, Run;
  }
}
