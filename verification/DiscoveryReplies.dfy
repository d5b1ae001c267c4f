/**
 What the clients of `CompetitorDiscoveryStore` (app/competitors_v22/store.py) are told. A registration reads its
 idempotency entry and the job's state at two moments and may return without a transaction, so a reply is not always
 about a single moment.
 */
module DiscoveryReplies {
  import opened Base
  import opened DiscoveryModels
  import opened DiscoveryStore
  import opened DiscoveryRuns

  /** The answer of a call that has read both keys; none when its transaction fails and the call starts over. */
  function Reply(s: System, e: Event): Option<Result<State, Error>> {
    if !e.Execute? || e.client >= |s.clients| || !s.clients[e.client].ReadBoth? then None
    else
      var c := s.clients[e.client];
      match Decide(c.watch.call, c.identity, c.state)
      case Err(error) => Some(Err(error))
      case Ok(decision) => if decision.Keep? || Unchanged(s, c.watch) then Some(Ok(decision.state)) else None
  }

  // ---------------------------------------------------------------- readings age, but stay true

  /** What a client read is still stored, or has been followed by later states of the same job. */
  ghost predicate Remembered(db: Db, c: Client) {
    && ((c.ReadIdentity? || c.ReadBoth?) && c.identity.Some? ==> c.identity == IdentityOf(db, c.watch.call))
    && (c.ReadBoth? && c.state.Some? ==>
          c.watch.call.job in db.states && Follows(c.state.value, db.states[c.watch.call.job]))
  }

  /** The standing assumption of this module; it holds when nobody has begun and the store is empty. */
  ghost predicate Sound(s: System) {
    AllFresh(s) && Consistent(s.db) && forall i | 0 <= i < |s.clients| :: Remembered(s.db, s.clients[i])
  }

  lemma RememberedStays(db: Db, after: Db, c: Client)
    requires Remembered(db, c) && JobsFollow(db, after)
    ensures Remembered(after, c)
  {
    hide Terminal;
    if c.ReadBoth? && c.state.Some? {
      var job := c.watch.call.job;
      FollowsTransitive(c.state.value, db.states[job], after.states[job]);
    }
    hide Follows;
  }

  /** A step leaves a client as it is, starts or ends its call, or is one of its reads. */
  lemma ClientAfter(s: System, e: Event, i: nat)
    requires i < |s.clients|
    ensures |Step(s, e).clients| == |s.clients|
    ensures var c := Step(s, e).clients[i];
      c == s.clients[i] || c.Idle? || c.Watching? || (e == Read(i) && Step(s, e).db == s.db)
  {
    hide Decide, Committed;
  }

  lemma ReadingIsRemembered(s: System, i: nat)
    requires i < |s.clients| && Remembered(s.db, s.clients[i])
    ensures Remembered(s.db, Step(s, Read(i)).clients[i])
  {
    hide Terminal, Decide, Committed;
  }

  lemma StepFollows(s: System, e: Event)
    requires AllFresh(s) && Consistent(s.db)
    ensures AllFresh(Step(s, e)) && Consistent(Step(s, e).db) && JobsFollow(s.db, Step(s, e).db)
  {
    hide Consistent, JobsFollow, Next, Step, AllFresh;
    StepKeepsFresh(s, e);
    StepIsAtomic(s, e);
    FollowSelf(s.db);
    if Step(s, e).db != s.db {
      NextKeepsConsistent(s.db, s.clients[e.client].watch.call);
      NextFollows(s.db, s.clients[e.client].watch.call);
    }
  }

  lemma StepKeepsSound(s: System, e: Event)
    requires Sound(s)
    ensures Sound(Step(s, e)) && JobsFollow(s.db, Step(s, e).db)
  {
    StepFollows(s, e);
    var t := Step(s, e);
    hide Consistent, JobsFollow, AllFresh, Step, Remembered;
    forall i | 0 <= i < |t.clients| ensures Remembered(t.db, t.clients[i]) {
      ClientCount(s, e);
      ClientAfter(s, e, i);
      if t.clients[i] == s.clients[i] {
        RememberedStays(s.db, t.db, s.clients[i]);
      } else if e == Read(i) {
        ReadingIsRemembered(s, i);
        RememberedStays(s.db, t.db, t.clients[i]);
      } else {
        NothingToRemember(t.db, t.clients[i]);
      }
    }
  }

  lemma ClientCount(s: System, e: Event)
    ensures |Step(s, e).clients| == |s.clients|
  {
    hide Decide, Committed;
  }

  lemma NothingToRemember(db: Db, c: Client)
    requires c.Idle? || c.Watching?
    ensures Remembered(db, c)
  {
  }

  lemma {:induction false} RunKeepsSound(s: System, events: seq<Event>)
    requires Sound(s)
    ensures Sound(Run(s, events)) && JobsFollow(s.db, Run(s, events).db)
    decreases |events|
  {
    hide Sound, Step, JobsFollow;
    if events == [] {
      FollowSelf(s.db);
    } else {
      StepKeepsSound(s, events[0]);
      RunKeepsSound(Step(s, events[0]), events[1..]);
      FollowTransitive(s.db, Step(s, events[0]).db, Run(s, events).db);
    }
  }

  // ---------------------------------------------------------------- one key, one job

  lemma KeptIsOwned(db: Db, c: Client)
    requires Consistent(db) && Remembered(db, c) && c.ReadBoth? && c.watch.call.Register?
    requires var decided := DecideRegister(c.watch.call, c.identity, c.state); decided.Ok? && decided.value.Keep?
    ensures IdentityOf(db, c.watch.call) == Some(EntryOf(c.watch.call))
    ensures c.state.Some? && c.state.value.job == c.watch.call.job
  {
    var call := c.watch.call;
    KeepIsRead(call, c.identity, c.state);
    assert StateFits(db, call.job);
    hide ValidState, Unfinished, Initial;
    if c.identity.Some? {
      assert Agrees(db, IdemKeyOf(call).value);
    } else {
      assert Follows(c.state.value, db.states[call.job]);
      OwnJobIsRegistered(db, call);
    }
  }

  lemma CreatedIsOwned(db: Db, call: Call, s: State)
    requires call.Register?
    ensures IdentityOf(Committed(db, call, Create(s)), call) == Some(EntryOf(call))
  {
  }

  lemma InitialJob(call: Call)
    requires call.Register?
    ensures Initial(call).job == call.job
  {
  }

  lemma ExecutedDb(s: System, i: nat)
    requires i < |s.clients| && s.clients[i].ReadBoth?
    ensures var c := s.clients[i];
      var decided := Decide(c.watch.call, c.identity, c.state);
      Step(s, Execute(i)).db ==
        if Writes(decided) && Unchanged(s, c.watch) then Committed(s.db, c.watch.call, decided.value) else s.db
  {
    hide Decide, Committed;
  }

  /** A successful registration leaves its own entry under its key, whichever of its branches it took. */
  lemma RegistrationOwns(s: System, e: Event)
    requires Sound(s) && Reply(s, e).Some? && Reply(s, e).value.Ok? && s.clients[e.client].watch.call.Register?
    ensures var call := s.clients[e.client].watch.call;
      && IdentityOf(Step(s, e).db, call) == Some(EntryOf(call))
      && Reply(s, e).value.value.job == call.job
  {
    hide Step, IdentityOf, Committed, Remembered, Consistent, AllFresh, EntryOf, Initial, ValidState;
    var c := s.clients[e.client];
    var call := c.watch.call;
    assert Remembered(s.db, c);
    ExecutedDb(s, e.client);
    hide Sound;
    var decision := DecideRegister(call, c.identity, c.state).value;
    if decision.Keep? {
      KeptIsOwned(s.db, c);
      KeepIsRead(call, c.identity, c.state);
    } else {
      CreateIsInitial(call, c.identity, c.state);
      InitialJob(call);
      hide DecideRegister;
      CreatedIsOwned(s.db, call, decision.state);
    }
  }

  /** Two successful registrations of one key, at any two moments of any run, name one job and one request. */
  lemma OneKeyOneJob(s: System, e: Event, events: seq<Event>, f: Event)
    requires Sound(s) && Reply(s, e).Some? && Reply(s, e).value.Ok? && s.clients[e.client].watch.call.Register?
    requires var t := Run(Step(s, e), events);
      Reply(t, f).Some? && Reply(t, f).value.Ok? && t.clients[f.client].watch.call.Register?
    requires var t := Run(Step(s, e), events);
      IdemKeyOf(s.clients[e.client].watch.call) == IdemKeyOf(t.clients[f.client].watch.call)
    ensures var t := Run(Step(s, e), events);
      var a, b := s.clients[e.client].watch.call, t.clients[f.client].watch.call;
      && a.job == b.job && a.payload == b.payload
      && Reply(s, e).value.value.job == Reply(t, f).value.value.job
  {
    var t := Run(Step(s, e), events);
    RegistrationOwns(s, e);
    StepKeepsSound(s, e);
    RunKeepsSound(Step(s, e), events);
    RegistrationOwns(t, f);
    StepKeepsSound(t, f);
    hide Sound, Step, Run, Decide;
  }

  // ---------------------------------------------------------------- a reply was stored during its call

  /** Some moment of the run found this state under the job's key. */
  ghost predicate StoredDuring(s: System, events: seq<Event>, job: JobId, state: State) {
    exists n | 0 <= n <= |events| :: Get(Run(s, events[..n]).db.states, job) == Some(state)
  }

  lemma StoredLater(s: System, events: seq<Event>, job: JobId, state: State)
    requires events != [] && StoredDuring(Step(s, events[0]), events[1..], job, state)
    ensures StoredDuring(s, events, job, state)
  {
    var n :| 0 <= n <= |events[1..]| && Get(Run(Step(s, events[0]), events[1..][..n]).db.states, job) == Some(state);
    var prefix := events[..n + 1];
    assert prefix[0] == events[0] && prefix[1..] == events[1..][..n];
    assert Run(s, prefix) == Run(Step(s, events[0]), prefix[1..]);
  }

  lemma StoredNow(s: System, events: seq<Event>, job: JobId, state: State)
    requires Get(s.db.states, job) == Some(state)
    ensures StoredDuring(s, events, job, state)
  {
    assert Run(s, events[..0]) == s;
  }

  predicate NoBegin(events: seq<Event>, i: nat) {
    forall k | 0 <= k < |events| :: !(events[k].Begin? && events[k].client == i)
  }

  /** Without a new call a client that has read both keys keeps what it read until it is done. */
  lemma {:induction false} ReadingStays(s: System, events: seq<Event>, i: nat)
    requires i < |s.clients| && (s.clients[i].ReadBoth? || s.clients[i].Idle?) && NoBegin(events, i)
    ensures i < |Run(s, events).clients|
    ensures Run(s, events).clients[i] == s.clients[i] || Run(s, events).clients[i].Idle?
    decreases |events|
  {
    if events != [] {
      hide Decide, Committed;
      ReadingStays(Step(s, events[0]), events[1..], i);
    }
  }

  lemma {:induction false} ReadingWasStored(s: System, events: seq<Event>, i: nat)
    requires i < |s.clients| && (s.clients[i].Watching? || s.clients[i].ReadIdentity?) && NoBegin(events, i)
    ensures i < |Run(s, events).clients|
    ensures var c := Run(s, events).clients[i];
      c.ReadBoth? ==> c.watch == s.clients[i].watch &&
                      (c.state.Some? ==> StoredDuring(s, events, c.watch.call.job, c.state.value))
    decreases |events|
  {
    if events != [] {
      var t := Step(s, events[0]);
      OneReading(s, events[0], i);
      var c := Run(t, events[1..]).clients;
      if t.clients[i].ReadBoth? {
        ReadingStays(t, events[1..], i);
        if t.clients[i].state.Some? {
          StoredNow(s, events, t.clients[i].watch.call.job, t.clients[i].state.value);
        }
      } else {
        ReadingWasStored(t, events[1..], i);
        hide Step;
        if c[i].ReadBoth? && c[i].state.Some? {
          StoredLater(s, events, c[i].watch.call.job, c[i].state.value);
        }
      }
    }
  }

  lemma OneReading(s: System, e: Event, i: nat)
    requires i < |s.clients| && (s.clients[i].Watching? || s.clients[i].ReadIdentity?) && !(e.Begin? && e.client == i)
    ensures |Step(s, e).clients| == |s.clients|
    ensures var c := Step(s, e).clients[i];
      && (c.Watching? || c.ReadIdentity? || c.ReadBoth?) && c.watch == s.clients[i].watch
      && (c.ReadBoth? ==> c.state == Get(s.db.states, c.watch.call.job))
  {
    hide Decide, Committed;
  }

  /** Every successful reply is a state that was stored under the job's key at some moment of the call. */
  lemma ReplyWasStored(s: System, events: seq<Event>, i: nat)
    requires Sound(s) && i < |s.clients| && s.clients[i].Watching? && NoBegin(events, i)
    requires var reply := Reply(Run(s, events), Execute(i)); reply.Some? && reply.value.Ok?
    ensures StoredDuring(s, events + [Execute(i)], s.clients[i].watch.call.job,
                         Reply(Run(s, events), Execute(i)).value.value)
  {
    var t, e := Run(s, events), Execute(i);
    var c := t.clients[i];
    ReadingWasStored(s, events, i);
    hide Sound, Decide, Committed, Run, Step;
    var decision := Decide(c.watch.call, c.identity, c.state).value;
    if decision.Keep? {
      KeepIsRead(c.watch.call, c.identity, c.state);
      StoredBefore(s, events, e, c.watch.call.job, decision.state);
    } else {
      WrittenIsStored(t, i);
      RunAppend(s, events, e);
      assert (events + [e])[..|events| + 1] == events + [e];
    }
  }

  lemma WrittenIsStored(s: System, i: nat)
    requires i < |s.clients| && s.clients[i].ReadBoth? && Unchanged(s, s.clients[i].watch)
    requires Writes(Decide(s.clients[i].watch.call, s.clients[i].identity, s.clients[i].state))
    ensures var c := s.clients[i];
      Get(Step(s, Execute(i)).db.states, c.watch.call.job) ==
          Some(Decide(c.watch.call, c.identity, c.state).value.state)
  {
    hide Initial, ValidState, Updated, Reopened, Terminal;
  }

  lemma StoredBefore(s: System, events: seq<Event>, e: Event, job: JobId, state: State)
    requires StoredDuring(s, events, job, state)
    ensures StoredDuring(s, events + [e], job, state)
  {
    var n :| 0 <= n <= |events| && Get(Run(s, events[..n]).db.states, job) == Some(state);
    assert (events + [e])[..n] == events[..n];
  }

  lemma {:induction false} RunAppend(s: System, events: seq<Event>, e: Event)
    ensures Run(s, events + [e]) == Step(Run(s, events), e)
    decreases |events|
  {
    hide Step;
    if events == [] {
      assert Run(s, [e]) == Run(Step(s, e), []);
    } else {
      assert (events + [e])[0] == events[0] && (events + [e])[1..] == events[1..] + [e];
      RunAppend(Step(s, events[0]), events[1..], e);
    }
  }

  // ---------------------------------------------------------------- the replay without an idempotency entry

  /** The branch of a registration that found no entry but a state of its own job. */
  predicate ReplaysLate(c: Client) {
    && c.ReadBoth? && c.watch.call.Register? && c.identity.None?
    && Decide(c.watch.call, c.identity, c.state).Ok? && Decide(c.watch.call, c.identity, c.state).value.Keep?
  }

  /** A client's step that enters the same key for the same job and request. */
  predicate Registers(s: System, e: Event, call: Call) {
    && call.Register? && e.Execute? && e.client < |s.clients| && s.clients[e.client].ReadBoth?
    && var other := s.clients[e.client].watch.call;
       && other.Register? && IdemKeyOf(other) == IdemKeyOf(call) && other.job == call.job &&
          other.payload == call.payload
       && IdentityOf(s.db, call).None? && IdentityOf(Step(s, e).db, call).Some?
  }

  ghost predicate RegisteredDuring(s: System, events: seq<Event>, call: Call) {
    exists n | 0 <= n < |events| :: Registers(Run(s, events[..n]), events[n], call)
  }

  predicate NotBy(events: seq<Event>, i: nat) {
    forall k | 0 <= k < |events| :: events[k].client != i
  }

  lemma {:induction false} OthersLeaveClient(s: System, events: seq<Event>, i: nat)
    requires i < |s.clients| && NotBy(events, i)
    ensures i < |Run(s, events).clients| && Run(s, events).clients[i] == s.clients[i]
    decreases |events|
  {
    if events != [] {
      hide Decide, Committed;
      OthersLeaveClient(Step(s, events[0]), events[1..], i);
    }
  }

  /**
   A step that brings an entry under the call's key enters the call's own job and request exactly if it registers them.
   */
  lemma EntryComesFrom(s: System, e: Event, call: Call)
    requires Sound(s) && call.Register? && IdentityOf(s.db, call).None?
    ensures IdentityOf(Step(s, e).db, call) == Some(EntryOf(call)) <==> Registers(s, e, call)
  {
    StepIsAtomic(s, e);
    if IdentityOf(Step(s, e).db, call).Some? {
      EntryOfNext(s.db, s.clients[e.client].watch.call, IdemKeyOf(call).value);
    }
    hide Sound, Next, Step;
  }

  lemma EntryOfNext(db: Db, call: Call, k: IdemKey)
    requires k !in db.identities && k in Next(db, call).identities
    ensures call.Register? && IdemKeyOf(call) == Some(k) && Next(db, call).identities[k] == EntryOf(call)
  {
    hide Initial, Terminal, ValidState, Updated, Reopened;
  }

  lemma EntryStays(s: System, events: seq<Event>, call: Call)
    requires Sound(s) && call.Register? && IdentityOf(s.db, call).Some?
    ensures IdentityOf(Run(s, events).db, call) == IdentityOf(s.db, call)
  {
    RunKeepsSound(s, events);
    hide Run, Sound;
  }

  lemma NotRegisteredAgain(s: System, events: seq<Event>, call: Call)
    requires Sound(s) && call.Register? && IdentityOf(s.db, call).Some?
    ensures !RegisteredDuring(s, events, call)
  {
    forall n | 0 <= n < |events| ensures !Registers(Run(s, events[..n]), events[n], call) {
      EntryStays(s, events[..n], call);
    }
  }

  lemma RegisteredFrom(s: System, events: seq<Event>, call: Call)
    requires events != []
    ensures RegisteredDuring(s, events, call) <==>
            Registers(s, events[0], call) || RegisteredDuring(Step(s, events[0]), events[1..], call)
  {
    var t, rest := Step(s, events[0]), events[1..];
    hide Step, Registers;
    forall n | 0 < n <= |events| ensures Run(s, events[..n]) == Run(t, rest[..n - 1]) {
      assert events[..n][0] == events[0] && events[..n][1..] == rest[..n - 1];
    }
    assert Run(s, events[..0]) == s;
    if RegisteredDuring(s, events, call) {
      var n :| 0 <= n < |events| && Registers(Run(s, events[..n]), events[n], call);
      assert n == 0 || Registers(Run(t, rest[..n - 1]), rest[n - 1], call);
    }
    if RegisteredDuring(t, rest, call) {
      var n :| 0 <= n < |rest| && Registers(Run(t, rest[..n]), rest[n], call);
      assert Registers(Run(s, events[..n + 1]), events[n + 1], call);
    }
    if Registers(s, events[0], call) {
      assert Registers(Run(s, events[..0]), events[0], call);
    }
  }

  /**
   An entry of the call's own was made during a run exactly if some client registered the same key, job and request.
   */
  lemma {:induction false} EntryHasOrigin(s: System, events: seq<Event>, call: Call)
    requires Sound(s) && call.Register? && IdentityOf(s.db, call).None?
    ensures IdentityOf(Run(s, events).db, call) == Some(EntryOf(call)) <==> RegisteredDuring(s, events, call)
    decreases |events|
  {
    hide Sound, Step, Registers;
    if events == [] {
      assert !RegisteredDuring(s, events, call);
    } else {
      var t, rest := Step(s, events[0]), events[1..];
      StepKeepsSound(s, events[0]);
      RegisteredFrom(s, events, call);
      EntryComesFrom(s, events[0], call);
      hide RegisteredDuring;
      if IdentityOf(t.db, call).None? {
        EntryHasOrigin(t, rest, call);
      } else {
        NotRegisteredAgain(t, rest, call);
        EntryStays(t, rest, call);
      }
    }
  }

  /**
   A registration is answered from a state without an entry of its own exactly when it read no entry and somebody
   registered the same key for the same job and request before it read the state. Its reply is then that job's state,
   and by then the entry is the caller's own.
   */
  lemma LateReplayIff(s: System, i: nat, events: seq<Event>)
    requires Sound(s) && i < |s.clients| && s.clients[i].Watching? && s.clients[i].watch.call.Register? &&
             NotBy(events, i)
    ensures var call, first := s.clients[i].watch.call, Step(s, Read(i));
      var t := Run(first, events);
      var u := Step(t, Read(i));
      && |u.clients| > i && u.clients[i].ReadBoth? && u.clients[i].watch.call == call
      && (ReplaysLate(u.clients[i]) <==> IdentityOf(s.db, call).None? && RegisteredDuring(first, events, call))
      && (ReplaysLate(u.clients[i]) ==>
            && call.job in t.db.states
            && Reply(u, Execute(i)) == Some(Ok(t.db.states[call.job]))
            && IdentityOf(t.db, call) == Some(EntryOf(call)))
  {
    var call, first := s.clients[i].watch.call, Step(s, Read(i));
    var t := Run(first, events);
    StepKeepsSound(s, Read(i));
    RunKeepsSound(first, events);
    OthersLeaveClient(first, events, i);
    FirstRead(s, i);
    SecondRead(t, i);
    var u := Step(t, Read(i));
    LateReading(t, u.clients[i]);
    hide Sound, Run, Step, RegisteredDuring, IdentityOf, Decide, EntryOf, ReplaysLate, Reply;
    if IdentityOf(s.db, call).None? {
      EntryHasOrigin(first, events, call);
    }
    if ReplaysLate(u.clients[i]) {
      KeptIsReply(u, i);
    }
  }

  lemma FirstRead(s: System, i: nat)
    requires i < |s.clients| && s.clients[i].Watching?
    ensures |Step(s, Read(i)).clients| == |s.clients| && Step(s, Read(i)).db == s.db
    ensures Step(s, Read(i)).clients[i] == ReadIdentity(s.clients[i].watch, IdentityOf(s.db, s.clients[i].watch.call))
  {
    hide Decide, Committed;
  }

  lemma SecondRead(s: System, i: nat)
    requires i < |s.clients| && s.clients[i].ReadIdentity?
    ensures |Step(s, Read(i)).clients| == |s.clients| && Step(s, Read(i)).db == s.db
    ensures var c := s.clients[i];
      Step(s, Read(i)).clients[i] == ReadBoth(c.watch, c.identity, Get(s.db.states, c.watch.call.job))
  {
    hide Decide, Committed;
  }

  /** A client that read the state just now goes by the entry its call has now, although it read no entry before. */
  lemma LateReading(s: System, c: Client)
    requires Sound(s) && c.ReadBoth? && c.watch.call.Register? && c.state == Get(s.db.states, c.watch.call.job)
    ensures var call := c.watch.call;
      && (ReplaysLate(c) <==> c.identity.None? && IdentityOf(s.db, call) == Some(EntryOf(call)))
      && (ReplaysLate(c) ==>
            call.job in s.db.states && Decide(call, c.identity, c.state) == Ok(Keep(s.db.states[call.job])))
  {
    hide Initial, ValidState;
    var call := c.watch.call;
    if call.job in s.db.states {
      OwnJobIsRegistered(s.db, call);
    } else if IdemKeyOf(call).value in s.db.identities {
      assert Agrees(s.db, IdemKeyOf(call).value);
    }
  }

  lemma KeptIsReply(s: System, i: nat)
    requires i < |s.clients| && ReplaysLate(s.clients[i])
    ensures var c := s.clients[i];
      Reply(s, Execute(i)) == Some(Ok(Decide(c.watch.call, c.identity, c.state).value.state))
  {
    hide Decide;
  }

  /** It does happen: two clients make the same call, and the second one reads in between. */
  lemma LateReplayHappens(call: Call)
    requires call.Register?
    ensures var start := System(EMPTY, map[], map[], [Idle, Idle]);
      var u := Run(start, [Begin(0, call), Read(0), Begin(1, call), Read(1), Read(1), Execute(1), Read(0)]);
      Sound(start) && |u.clients| == 2 && ReplaysLate(u.clients[0]) && Reply(u, Execute(0)) == Some(Ok(Initial(call)))
  {
    var start := System(EMPTY, map[], map[], [Idle, Idle]);
    var events := [Begin(0, call), Read(0), Begin(1, call), Read(1), Read(1), Execute(1), Read(0)];
    EmptyIsConsistent();
    var w := Watch(call, 0, 0);
    var s2 := start.(clients := [ReadIdentity(w, None), Idle]);
    var s5 := start.(clients := [ReadIdentity(w, None), ReadBoth(w, None, None)]);
    hide Consistent, Committed;
    BothRead(call);
    var s6 := Step(s5, events[5]);
    var s7 := Step(s6, events[6]);
    SecondRegisters(call);
    SecondRead(s6, 0);
    OwnInitialIsKept(call);
    hide Decide, Initial;
    KeptIsReply(s7, 0);
    hide Reply, Step;
    assert Run(start, events) == s7 by {
      hide Step;
      assert Run(s7, events[7..]) == s7;
      assert events[6..][1..] == events[7..] && Run(s6, events[6..]) == s7;
      assert events[5..][1..] == events[6..] && Run(s5, events[5..]) == s7;
      RunFive(start, events);
    }
  }

  lemma RunFive(s: System, e: seq<Event>)
    requires |e| >= 5
    ensures Run(s, e) == Run(Step(Step(Step(Step(Step(s, e[0]), e[1]), e[2]), e[3]), e[4]), e[5..])
  {
    hide Step;
    var s1 := Step(s, e[0]);
    var s2 := Step(s1, e[1]);
    var s3 := Step(s2, e[2]);
    var s4 := Step(s3, e[3]);
    assert e[1..][1..] == e[2..] && e[2..][1..] == e[3..] && e[3..][1..] == e[4..] && e[4..][1..] == e[5..];
    assert Run(s1, e[1..]) == Run(s2, e[2..]);
    assert Run(s2, e[2..]) == Run(s3, e[3..]);
    assert Run(s3, e[3..]) == Run(s4, e[4..]);
    assert Run(s4, e[4..]) == Run(Step(s4, e[4]), e[5..]);
  }

  lemma BothRead(call: Call)
    requires call.Register?
    ensures var w := Watch(call, 0, 0);
      Step(Step(Step(Step(Step(System(EMPTY, map[], map[], [Idle, Idle]), Begin(0, call)), Read(0)), Begin(1, call)),
                Read(1)), Read(1))
      == System(EMPTY, map[], map[], [ReadIdentity(w, None), ReadBoth(w, None, None)])
  {
    hide Decide, Committed;
    var w := Watch(call, 0, 0);
    var start := System(EMPTY, map[], map[], [Idle, Idle]);
    assert Step(Step(start, Begin(0, call)), Read(0)) == start.(clients := [ReadIdentity(w, None), Idle]);
  }

  lemma SecondRegisters(call: Call)
    requires call.Register?
    ensures var w := Watch(call, 0, 0);
      var s := System(EMPTY, map[], map[], [ReadIdentity(w, None), ReadBoth(w, None, None)]);
      var t := Step(s, Execute(1));
      t.clients == [ReadIdentity(w, None), Idle] && Get(t.db.states, call.job) == Some(Initial(call))
  {
    hide Initial;
    var w := Watch(call, 0, 0);
    var s := System(EMPTY, map[], map[], [ReadIdentity(w, None), ReadBoth(w, None, None)]);
    assert Decide(call, None, None) == Ok(Create(Initial(call)));
    ExecutedDb(s, 1);
    FirstStillReads(s, call);
    hide Step, Decide;
  }

  lemma FirstStillReads(s: System, call: Call)
    requires s.clients == [ReadIdentity(Watch(call, 0, 0), None), ReadBoth(Watch(call, 0, 0), None, None)]
    ensures Step(s, Execute(1)).clients == [ReadIdentity(Watch(call, 0, 0), None), Idle]
  {
    hide Decide, Committed;
  }

  lemma OwnInitialIsKept(call: Call)
    requires call.Register?
    ensures Decide(call, None, Some(Initial(call))) == Ok(Keep(Initial(call)))
  {
  }
}
