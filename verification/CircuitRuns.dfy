/**
 `RedisCircuitBreaker` of app/jobs_v22/circuit_breaker.py under any number of callers, command by command: what one
 reads may be outdated when it writes, and one may delete the probe key that another has set. Key expiry is left out.
 */
module CircuitRuns {
  import opened Base
  import opened CircuitBreaker

  datatype Failure = Failure(now: real, immediate: bool, requested: Option<int>)

  /** Where a caller stands: asking, holding a permit, or between two commands of `record_failure`. */
  datatype Caller =
    | Idle
    | Claiming
    | Permitted(permit: Permit)
    | Counting(permit: Permit, failure: Failure)
    | Looking(permit: Permit, failure: Failure, count: nat)
    | Opening(permit: Permit, failure: Failure, earlier: nat)
    | Releasing(permit: Permit)

  /**
   The keys, the callers and the clock; besides, all failures and openings since the last success, and all openings
   ever made.
   */
  datatype System = System(
    redis: Redis,
    callers: seq<Caller>,
    clock: real,
    history: seq<real>,
    openings: nat,
    everOpened: nat)

  datatype Event =
    | Ask(caller: nat, now: real)
    | Proceed(caller: nat)
    | Succeed(caller: nat)
    | Fail(caller: nat, failure: Failure)
    | GiveBack(caller: nat)

  function At(s: System, i: nat, c: Caller): System
    requires i < |s.callers|
  {
    s.(callers := s.callers[i := c])
  }

  /** The next command of a caller that is in the middle of a method. */
  function Proceeded(settings: Settings, s: System, i: nat): System
    requires Usable(settings) && i < |s.callers|
  {
    match s.callers[i]
    case Claiming =>
      if s.redis.probe then At(s, i, Idle) else At(s, i, Permitted(Permit(true))).(redis := s.redis.(probe := true))
    case Counting(permit, failure) => At(s, i, Looking(permit, failure, |s.redis.failures|))
    case Looking(permit, failure, count) =>
      if ShouldOpen(settings, permit, failure.immediate, failure.requested, count)
      then At(s, i, Opening(permit, failure, OpenCount(s.redis)))
      else At(s, i, Idle)
    case Opening(permit, failure, earlier) =>
      At(s, i, Releasing(permit)).(
        redis := s.redis.(circuit := Some(Opened(settings, earlier + 1, failure.now))),
        openings := s.openings + 1,
        everOpened := s.everOpened + 1)
    case Releasing(_) => At(s, i, Idle).(redis := s.redis.(probe := false))
    case _ => s
  }

  function Step(settings: Settings, s: System, e: Event): System
    requires Usable(settings)
  {
    var i := e.caller;
    if i >= |s.callers| then s
    else
      match e
      case Ask(_, now) =>
        if !s.callers[i].Idle? then s
        else
          var t := s.(clock := now);
          if s.redis.circuit.None? then At(t, i, Permitted(Permit(false)))
          else if now < s.redis.circuit.value.openUntil then t
          else At(t, i, Claiming)
      case Proceed(_) => Proceeded(settings, s, i)
      case Succeed(_) =>
        if !s.callers[i].Permitted? then s
        else At(s, i, Idle).(redis := Redis(None, false, []), history := [], openings := 0)
      case Fail(_, failure) =>
        if s.callers[i].Permitted?
        then At(s, i, Counting(s.callers[i].permit, failure)).(
          redis := WithFailure(settings, s.redis, failure.now),
          clock := failure.now,
          history := s.history + [failure.now])
        else s
      case GiveBack(_) =>
        if !s.callers[i].Permitted? then s
        else if s.callers[i].permit.probe then At(s, i, Idle).(redis := s.redis.(probe := false))
        else At(s, i, Idle)
  }

  /** The clock never goes back. */
  predicate Possible(s: System, e: Event) {
    match e
    case Ask(_, now) => s.clock <= now
    case Fail(_, failure) => s.clock <= failure.now
    case _ => true
  }

  function Run(settings: Settings, s: System, events: seq<Event>): System
    requires Usable(settings)
    decreases |events|
  {
    if events == [] then s else Run(settings, Step(settings, s, events[0]), events[1..])
  }

  predicate AllPossible(settings: Settings, s: System, events: seq<Event>)
    requires Usable(settings)
    decreases |events|
  {
    events != [] ==> Possible(s, events[0]) && AllPossible(settings, Step(settings, s, events[0]), events[1..])
  }

  function Start(n: nat): System {
    System(Redis(None, false, []), seq(n, _ => Idle), 0.0, [], 0, 0)
  }

  lemma {:induction false} RunAppend(settings: Settings, s: System, a: seq<Event>, b: seq<Event>)
    requires Usable(settings)
    ensures Run(settings, s, a + b) == Run(settings, Run(settings, s, a), b)
    ensures AllPossible(settings, s, a) && AllPossible(settings, Run(settings, s, a), b) ==>
              AllPossible(settings, s, a + b)
    decreases |a|
  {
    hide Step, Possible;
    if a == [] {
      assert a + b == b;
    } else {
      assert (a + b)[0] == a[0] && (a + b)[1..] == a[1..] + b;
      RunAppend(settings, Step(settings, s, a[0]), a[1..], b);
    }
  }

  lemma RunOne(settings: Settings, s: System, e: Event)
    requires Usable(settings)
    ensures Run(settings, s, [e]) == Step(settings, s, e) && (AllPossible(settings, s, [e]) <==> Possible(s, e))
  {
    hide Step, Possible;
    assert [e][1..] == [];
    assert Run(settings, Step(settings, s, e), []) == Step(settings, s, e);
    assert AllPossible(settings, Step(settings, s, e), []);
  }

  lemma RunTwo(settings: Settings, s: System, e: Event, f: Event)
    requires Usable(settings)
    ensures Run(settings, s, [e, f]) == Step(settings, Step(settings, s, e), f)
    ensures AllPossible(settings, s, [e, f]) <==> Possible(s, e) && Possible(Step(settings, s, e), f)
  {
    hide Step, Possible;
    assert [e, f][1..] == [f];
    RunOne(settings, Step(settings, s, e), f);
  }

  // ---------------------------------------------------------------- calls with nobody in between

  /** The commands of `before_call` alone are the method of the object. */
  lemma AskAlone(settings: Settings, s: System, i: nat, now: real)
    requires Usable(settings) && i < |s.callers| && s.callers[i].Idle? && s.clock <= now
    ensures var (redis, permit) := Asked(s.redis, now);
      Run(settings, s, [Ask(i, now), Proceed(i)]) ==
        At(s, i, if permit.None? then Idle else Permitted(permit.value)).(redis := redis, clock := now)
    ensures AllPossible(settings, s, [Ask(i, now), Proceed(i)])
  {
    RunTwo(settings, s, Ask(i, now), Proceed(i));
    assert s.callers[i := Idle] == s.callers;
    hide Run, AllPossible;
  }

  function FailureCommands(i: nat, failure: Failure): seq<Event> {
    [Fail(i, failure), Proceed(i)] + [Proceed(i), Proceed(i)] + [Proceed(i)]
  }

  /** The commands of `record_failure` alone are the method of the object. */
  lemma FailAlone(settings: Settings, s: System, i: nat, failure: Failure)
    requires Usable(settings) && i < |s.callers| && s.callers[i].Permitted? && Possible(s, Fail(i, failure))
    ensures AllPossible(settings, s, FailureCommands(i, failure))
    ensures var t := Run(settings, s, FailureCommands(i, failure));
      && t.redis == Failed(settings, s.redis, s.callers[i].permit, failure.now, failure.immediate, failure.requested)
      && t.callers == s.callers[i := Idle] && t.clock == failure.now && t.history == s.history + [failure.now]
  {
    var t2 := Step(settings, Step(settings, s, Fail(i, failure)), Proceed(i));
    var t4 := Step(settings, Step(settings, t2, Proceed(i)), Proceed(i));
    RunTwo(settings, s, Fail(i, failure), Proceed(i));
    RunTwo(settings, t2, Proceed(i), Proceed(i));
    RunOne(settings, t4, Proceed(i));
    RunAppend(settings, s, [Fail(i, failure), Proceed(i)], [Proceed(i), Proceed(i)]);
    RunAppend(settings, s, [Fail(i, failure), Proceed(i)] + [Proceed(i), Proceed(i)], [Proceed(i)]);
    hide Run, AllPossible, Recent, Cooldown, Threshold;
  }

  // ---------------------------------------------------------------- the failure window

  /** The failure set is the history since the last success cut to the window, and the history is past. */
  ghost predicate KeepsWindow(settings: Settings, s: System) {
    && s.redis.failures == InWindow(s.history, settings.window)
    && (s.history != [] ==> s.history[|s.history| - 1] <= s.clock)
  }

  /** However the callers interleave, the failure set stays the history since the last success, cut to the window. */
  lemma {:induction false} EveryRunKeepsWindow(settings: Settings, s: System, events: seq<Event>)
    requires Usable(settings) && AllPossible(settings, s, events) && KeepsWindow(settings, s)
    ensures KeepsWindow(settings, Run(settings, s, events))
    decreases |events|
  {
    if events != [] {
      WindowStep(settings, s, events[0]);
      hide KeepsWindow, Step, Possible;
      EveryRunKeepsWindow(settings, Step(settings, s, events[0]), events[1..]);
    }
  }

  lemma WindowStep(settings: Settings, s: System, e: Event)
    requires Usable(settings) && Possible(s, e) && KeepsWindow(settings, s)
    ensures KeepsWindow(settings, Step(settings, s, e))
  {
    FailuresAfter(settings, s, e);
    hide Step;
    if e.Fail? {
      FailureJoins(s.history, settings.window, e.failure.now);
    }
    WindowOfNone(settings.window, 0.0);
    hide InWindow, Recent;
  }

  /** Failures are recorded by `Fail` and forgotten by `Succeed`. */
  lemma FailuresAfter(settings: Settings, s: System, e: Event)
    requires Usable(settings)
    ensures Possible(s, e) ==> s.clock <= Step(settings, s, e).clock
    ensures var t := Step(settings, s, e);
      || (t.redis.failures == s.redis.failures && t.history == s.history)
      || (t.redis.failures == [] && t.history == [])
      || (e.Fail? && t.history == s.history + [e.failure.now] && t.clock == e.failure.now
          && t.redis.failures == Recent(s.redis.failures, e.failure.now - settings.window) + [e.failure.now])
  {
    hide Recent, Cooldown, Threshold, ShouldOpen;
  }

  // ---------------------------------------------------------------- the open count

  /** The stored count is the number of openings since the last success; without any the circuit is closed. */
  predicate RightCount(s: System) {
    OpenCount(s.redis) == s.openings && (s.redis.circuit.None? <==> s.openings == 0)
  }

  /** The count is right, and whoever is about to write the circuit would leave it right. */
  ghost predicate StaysRight(settings: Settings, s: System)
    requires Usable(settings)
  {
    && RightCount(s)
    && forall j: nat | j < |s.callers| && s.callers[j].Opening? :: RightCount(Step(settings, s, Proceed(j)))
  }

  /** What a caller between reading the circuit and writing it has read. */
  predicate Pending(c: Caller, openings: nat) {
    c.Opening? ==> c.earlier == openings
  }

  /** The stored count is right, and everybody about to open has read it. */
  ghost predicate Exact(s: System) {
    RightCount(s) && forall i | 0 <= i < |s.callers| :: Pending(s.callers[i], s.openings)
  }

  /** A caller leaves the count right exactly when it has read the present count. */
  lemma OpeningIsRight(settings: Settings, s: System, j: nat)
    requires Usable(settings) && j < |s.callers| && s.callers[j].Opening?
    ensures RightCount(Step(settings, s, Proceed(j))) <==> Pending(s.callers[j], s.openings)
  {
    hide Cooldown;
  }

  lemma ExactStaysRight(settings: Settings, s: System)
    requires Usable(settings)
    ensures Exact(s) <==> StaysRight(settings, s)
  {
    hide Step, RightCount;
    forall j: nat | j < |s.callers| && s.callers[j].Opening?
      ensures RightCount(Step(settings, s, Proceed(j))) <==> Pending(s.callers[j], s.openings)
    {
      OpeningIsRight(settings, s, j);
    }
  }

  ghost predicate OtherOpening(s: System, i: nat) {
    exists j | 0 <= j < |s.callers| :: j != i && s.callers[j].Opening?
  }

  /** The event writes the circuit, or deletes an open one, while another caller is about to open it. */
  ghost predicate Disturbs(s: System, e: Event) {
    && e.caller < |s.callers| && OtherOpening(s, e.caller)
    && ((e.Proceed? && s.callers[e.caller].Opening?) ||
        (e.Succeed? && s.callers[e.caller].Permitted? && s.redis.circuit.Some?))
  }

  lemma ExactAfter(settings: Settings, s: System, e: Event)
    requires Usable(settings) && Exact(s)
    ensures Exact(Step(settings, s, e)) <==> !Disturbs(s, e)
  {
    hide Cooldown, Recent, Threshold;
    var t := Step(settings, s, e);
    if e.caller < |s.callers| {
      assert Pending(s.callers[e.caller], s.openings);
    }
    if Disturbs(s, e) {
      var j :| 0 <= j < |s.callers| && j != e.caller && s.callers[j].Opening?;
      assert Pending(s.callers[j], s.openings);
      assert t.callers[j] == s.callers[j];
      assert !Pending(t.callers[j], t.openings);
    } else {
      forall j | 0 <= j < |t.callers| ensures Pending(t.callers[j], t.openings) {
        assert j < |s.callers| && Pending(s.callers[j], s.openings);
      }
    }
  }

  /**
   A count that stays right keeps doing so in precisely the steps that do not write the circuit, or delete an open one,
   between another caller's reading and writing it. After such a step the count is still right, but some caller's next
   command makes it wrong.
   */
  lemma CountStepIff(settings: Settings, s: System, e: Event)
    requires Usable(settings) && StaysRight(settings, s)
    ensures StaysRight(settings, Step(settings, s, e)) <==> !Disturbs(s, e)
    ensures RightCount(Step(settings, s, e))
    ensures Disturbs(s, e) ==>
              exists j: nat :: j < |s.callers| && !RightCount(Step(settings, Step(settings, s, e), Proceed(j)))
  {
    ExactStaysRight(settings, s);
    ExactStaysRight(settings, Step(settings, s, e));
    ExactAfter(settings, s, e);
    StillRight(settings, s, e);
    CallersStay(settings, s, e);
    hide Step, Exact, RightCount, Disturbs;
  }

  lemma CallersStay(settings: Settings, s: System, e: Event)
    requires Usable(settings)
    ensures |Step(settings, s, e).callers| == |s.callers|
  {
    hide Cooldown, Recent, Threshold;
  }

  lemma StillRight(settings: Settings, s: System, e: Event)
    requires Usable(settings) && Exact(s)
    ensures RightCount(Step(settings, s, e))
  {
    hide Cooldown, Recent, Threshold;
    if e.caller < |s.callers| {
      assert Pending(s.callers[e.caller], s.openings);
    }
  }

  ghost predicate Undisturbed(settings: Settings, s: System, events: seq<Event>)
    requires Usable(settings)
    decreases |events|
  {
    events != [] ==> !Disturbs(s, events[0]) && Undisturbed(settings, Step(settings, s, events[0]), events[1..])
  }

  lemma {:induction false} UndisturbedRunStaysRight(settings: Settings, s: System, events: seq<Event>)
    requires Usable(settings) && StaysRight(settings, s) && Undisturbed(settings, s, events)
    ensures StaysRight(settings, Run(settings, s, events))
    decreases |events|
  {
    hide StaysRight, RightCount, Step, Disturbs;
    if events != [] {
      CountStepIff(settings, s, events[0]);
      UndisturbedRunStaysRight(settings, Step(settings, s, events[0]), events[1..]);
    }
  }

  /** Nobody counts more openings than there have ever been. */
  ghost predicate Bounded(s: System) {
    && OpenCount(s.redis) <= s.everOpened
    && forall i | 0 <= i < |s.callers| && s.callers[i].Opening? :: s.callers[i].earlier <= s.everOpened
  }

  /** In every run the stored count is at most the number of openings ever made. */
  lemma {:induction false} EveryRunIsBounded(settings: Settings, s: System, events: seq<Event>)
    requires Usable(settings) && Bounded(s)
    ensures Bounded(Run(settings, s, events))
    decreases |events|
  {
    if events != [] {
      BoundedStep(settings, s, events[0]);
      hide Bounded, Step;
      EveryRunIsBounded(settings, Step(settings, s, events[0]), events[1..]);
    }
  }

  lemma BoundedStep(settings: Settings, s: System, e: Event)
    requires Usable(settings) && Bounded(s)
    ensures Bounded(Step(settings, s, e))
  {
    hide Cooldown, Recent, Threshold;
  }

  // ---------------------------------------------------------------- the probe

  /** A caller that was given the probe and has not reported yet. */
  predicate Probing(c: Caller) {
    (c.Permitted? || c.Counting? || c.Looking? || c.Opening? || c.Releasing?) && c.permit.probe
  }

  /** At most one caller is probing, and the probe key is set as long as one is. */
  ghost predicate SingleProbe(s: System) {
    && (forall i | 0 <= i < |s.callers| && Probing(s.callers[i]) :: s.redis.probe)
    && (forall i, j | 0 <= i < |s.callers| && 0 <= j < |s.callers| && Probing(s.callers[i]) && Probing(s.callers[j]) ::
          i == j)
  }

  /** The step deletes the probe key. */
  predicate Releases(s: System, e: Event) {
    && e.caller < |s.callers|
    && match e
       case Succeed(i) => s.callers[i].Permitted?
       case GiveBack(i) => s.callers[i].Permitted? && s.callers[i].permit.probe
       case Proceed(i) => s.callers[i].Releasing?
       case _ => false
  }

  /** The step deletes the probe key while somebody else is probing. */
  ghost predicate TakesProbeKey(s: System, e: Event) {
    Releases(s, e) && exists j | 0 <= j < |s.callers| :: j != e.caller && Probing(s.callers[j])
  }

  lemma OthersStay(settings: Settings, s: System, e: Event, j: nat)
    requires Usable(settings) && j < |s.callers| && j != e.caller
    ensures |Step(settings, s, e).callers| == |s.callers| && Step(settings, s, e).callers[j] == s.callers[j]
  {
    hide Cooldown, Recent, Threshold;
  }

  /** What the acting caller and the key can become. */
  lemma ActorAfter(settings: Settings, s: System, e: Event)
    requires Usable(settings) && e.caller < |s.callers|
    ensures var t := Step(settings, s, e);
      && |t.callers| == |s.callers|
      && (Releases(s, e) ==> !t.redis.probe && !Probing(t.callers[e.caller]))
      && (!Releases(s, e) ==>
            if Probing(t.callers[e.caller]) && !Probing(s.callers[e.caller]) then !s.redis.probe && t.redis.probe
            else t.redis.probe == s.redis.probe)
  {
    hide Cooldown, Recent, Threshold;
  }

  /** The probe stays single in precisely the steps that do not delete the probe key under somebody else's probe. */
  lemma ProbeStepIff(settings: Settings, s: System, e: Event)
    requires Usable(settings) && SingleProbe(s)
    ensures SingleProbe(Step(settings, s, e)) <==> !TakesProbeKey(s, e)
  {
    var t := Step(settings, s, e);
    if e.caller < |s.callers| {
      ActorAfter(settings, s, e);
      forall j: nat | j < |s.callers| && j != e.caller ensures t.callers[j] == s.callers[j] {
        OthersStay(settings, s, e, j);
      }
      hide Step, Releases, Probing;
    }
  }

  ghost predicate ProbeKeyKept(settings: Settings, s: System, events: seq<Event>)
    requires Usable(settings)
    decreases |events|
  {
    events != [] ==> !TakesProbeKey(s, events[0]) && ProbeKeyKept(settings, Step(settings, s, events[0]), events[1..])
  }

  /** As long as nobody deletes the key under another's probe, there is at most one probe at a time. */
  lemma {:induction false} ProbeStaysSingle(settings: Settings, s: System, events: seq<Event>)
    requires Usable(settings) && SingleProbe(s) && ProbeKeyKept(settings, s, events)
    ensures SingleProbe(Run(settings, s, events))
    decreases |events|
  {
    hide SingleProbe, Step, TakesProbeKey;
    if events != [] {
      ProbeStepIff(settings, s, events[0]);
      ProbeStaysSingle(settings, Step(settings, s, events[0]), events[1..]);
    }
  }

  predicate OnlyBy(events: seq<Event>, j: nat) {
    forall k | 0 <= k < |events| :: events[k].caller == j
  }

  ghost predicate BothProbing(s: System, h: nat, j: nat) {
    h != j && h < |s.callers| && j < |s.callers| && Probing(s.callers[h]) && Probing(s.callers[j])
  }

  /** A run of caller `j` alone after which it and `h` are probing. */
  ghost predicate GetsProbe(settings: Settings, s: System, h: nat, j: nat, events: seq<Event>)
    requires Usable(settings)
  {
    OnlyBy(events, j) && AllPossible(settings, s, events) && BothProbing(Run(settings, s, events), h, j)
  }

  /** An open circuit whose probe key is set refuses. */
  lemma {:induction false} KeptOut(settings: Settings, s: System, h: nat, j: nat, events: seq<Event>)
    requires Usable(settings) && j < |s.callers| && (s.callers[j].Idle? || s.callers[j].Claiming?)
    requires s.redis.probe && s.redis.circuit.Some? && OnlyBy(events, j)
    ensures !GetsProbe(settings, s, h, j, events)
    decreases |events|
  {
    if events != [] {
      var t := Step(settings, s, events[0]);
      assert events[0].caller == j;
      assert t.redis == s.redis && |t.callers| == |s.callers| && (t.callers[j].Idle? || t.callers[j].Claiming?);
      hide Step, Probing;
      KeptOut(settings, t, h, j, events[1..]);
    }
  }

  lemma OpenGivesProbe(settings: Settings, s: System, h: nat, j: nat) returns (events: seq<Event>)
    requires Usable(settings) && h < |s.callers| && Probing(s.callers[h])
    requires j < |s.callers| && s.callers[j].Idle? && !s.redis.probe && s.redis.circuit.Some?
    ensures GetsProbe(settings, s, h, j, events)
  {
    var now := Latest(s.clock, s.redis.circuit.value.openUntil);
    events := [Ask(j, now), Proceed(j)];
    AskAlone(settings, s, j, now);
    hide Run, AllPossible;
  }

  /** A caller let through a closed circuit opens it and deletes the probe key on the way. */
  lemma ClosedOpens(settings: Settings, s: System, j: nat) returns (events: seq<Event>)
    requires Usable(settings) && j < |s.callers| && s.callers[j].Idle? && s.redis.circuit.None?
    ensures OnlyBy(events, j) && AllPossible(settings, s, events)
    ensures var t := Run(settings, s, events);
      t.callers == s.callers && !t.redis.probe && t.redis.circuit.Some?
  {
    AskAlone(settings, s, j, s.clock);
    var ask := [Ask(j, s.clock), Proceed(j)];
    var t := Run(settings, s, ask);
    assert t.callers == s.callers[j := Permitted(Permit(false))];
    var failure := Failure(s.clock, true, None);
    FailAlone(settings, t, j, failure);
    RunAppend(settings, s, ask, FailureCommands(j, failure));
    events := ask + FailureCommands(j, failure);
    assert t.callers[j := Idle] == s.callers;
    hide Run, AllPossible, Recent, Cooldown;
  }

  /**
   While somebody is probing, another caller can, without anybody else's help, become a second probe if and only if
   the probe key has been deleted or the circuit has been closed in the meantime.
   */
  lemma SecondProbeIff(settings: Settings, s: System, h: nat, j: nat)
    requires Usable(settings) && h < |s.callers| && j < |s.callers| && Probing(s.callers[h]) && s.callers[j].Idle?
    ensures (exists events :: GetsProbe(settings, s, h, j, events)) <==> !s.redis.probe || s.redis.circuit.None?
  {
    hide GetsProbe;
    if s.redis.probe && s.redis.circuit.Some? {
      forall events ensures !GetsProbe(settings, s, h, j, events) {
        NotKeptIn(settings, s, h, j, events);
      }
    } else if s.redis.circuit.Some? {
      var events := OpenGivesProbe(settings, s, h, j);
      assert GetsProbe(settings, s, h, j, events);
    } else {
      var events := ClosedGivesProbe(settings, s, h, j);
      assert GetsProbe(settings, s, h, j, events);
    }
  }

  lemma NotKeptIn(settings: Settings, s: System, h: nat, j: nat, events: seq<Event>)
    requires Usable(settings) && j < |s.callers| && s.callers[j].Idle? && s.redis.probe && s.redis.circuit.Some?
    ensures !GetsProbe(settings, s, h, j, events)
  {
    if OnlyBy(events, j) {
      KeptOut(settings, s, h, j, events);
    }
  }

  lemma ClosedGivesProbe(settings: Settings, s: System, h: nat, j: nat) returns (events: seq<Event>)
    requires Usable(settings) && h < |s.callers| && Probing(s.callers[h])
    requires j < |s.callers| && s.callers[j].Idle? && s.redis.circuit.None?
    ensures GetsProbe(settings, s, h, j, events)
  {
    var first := ClosedOpens(settings, s, j);
    var second := OpenGivesProbe(settings, Run(settings, s, first), h, j);
    RunAppend(settings, s, first, second);
    events := first + second;
    hide Run, AllPossible, Probing;
  }

  // ---------------------------------------------------------------- runs in which calls overlap

  /** A longer run in which caller `i` asks next, with nobody in between. */
  lemma ThenAsks(settings: Settings, s: System, before: seq<Event>, i: nat, now: real) returns (events: seq<Event>)
    requires Usable(settings) && AllPossible(settings, s, before)
    requires var t := Run(settings, s, before); i < |t.callers| && t.callers[i].Idle? && t.clock <= now
    ensures AllPossible(settings, s, events)
    ensures var t := Run(settings, s, before);
      var (redis, permit) := Asked(t.redis, now);
      Run(settings, s, events) ==
        At(t, i, if permit.None? then Idle else Permitted(permit.value)).(redis := redis, clock := now)
  {
    events := before + [Ask(i, now), Proceed(i)];
    AskAlone(settings, Run(settings, s, before), i, now);
    RunAppend(settings, s, before, [Ask(i, now), Proceed(i)]);
    hide Run, AllPossible, Asked;
  }

  /** A longer run in which caller `i` reports an immediate failure next, with nobody in between. */
  lemma ThenFails(settings: Settings, s: System, before: seq<Event>, i: nat) returns (events: seq<Event>)
    requires Usable(settings) && AllPossible(settings, s, before)
    requires var t := Run(settings, s, before); i < |t.callers| && t.callers[i].Permitted?
    ensures AllPossible(settings, s, events)
    ensures var t, u := Run(settings, s, before), Run(settings, s, events);
      u.redis.circuit.Some? && !u.redis.probe && u.callers == t.callers[i := Idle] && u.clock == t.clock
  {
    var failure := Failure(Run(settings, s, before).clock, true, None);
    events := before + FailureCommands(i, failure);
    FailAlone(settings, Run(settings, s, before), i, failure);
    RunAppend(settings, s, before, FailureCommands(i, failure));
    hide Run, AllPossible, FailureCommands, Recent, Cooldown;
  }

  /** Caller 0 is let through the closed circuit, caller 1 opens it, caller 2 gets the probe after the cooldown. */
  lemma ProbeAndOldPermit(settings: Settings) returns (events: seq<Event>)
    requires Usable(settings)
    ensures AllPossible(settings, Start(3), events)
    ensures Run(settings, Start(3), events).callers == [Permitted(Permit(false)), Idle, Permitted(Permit(true))]
  {
    var s0 := Start(3);
    events := [];
    assert Run(settings, s0, []) == s0;
    hide Run, AllPossible;
    events := ThenAsks(settings, s0, events, 0, 0.0);
    events := ThenAsks(settings, s0, events, 1, 0.0);
    events := ThenFails(settings, s0, events, 1);
    var s3 := Run(settings, s0, events);
    assert s3.callers == [Permitted(Permit(false)), Idle, Idle];
    events := ThenAsks(settings, s0, events, 2, Latest(s3.clock, s3.redis.circuit.value.openUntil));
  }

  /** Then the late failure of caller 0 deletes the probe key, and caller 1 gets a second probe. */
  lemma TwoProbesHappen(settings: Settings) returns (events: seq<Event>)
    requires Usable(settings)
    ensures AllPossible(settings, Start(3), events) && BothProbing(Run(settings, Start(3), events), 2, 1)
  {
    events := ProbeAndOldPermit(settings);
    hide Run, AllPossible, Start;
    events := ThenFails(settings, Start(3), events, 0);
    var s := Run(settings, Start(3), events);
    events := ThenAsks(settings, Start(3), events, 1, Latest(s.clock, s.redis.circuit.value.openUntil));
  }

  /**
   A longer run in which caller `i` reports an immediate failure and reads the circuit, but has not written it yet.
   */
  lemma ThenReads(settings: Settings, s: System, before: seq<Event>, i: nat) returns (events: seq<Event>)
    requires Usable(settings) && AllPossible(settings, s, before)
    requires var t := Run(settings, s, before); i < |t.callers| && t.callers[i].Permitted?
    ensures AllPossible(settings, s, events)
    ensures var t, u := Run(settings, s, before), Run(settings, s, events);
      && u == t.(redis := u.redis, callers := u.callers, history := u.history) && u.redis.circuit == t.redis.circuit
      && u.callers ==
         t.callers[i := Opening(t.callers[i].permit, Failure(t.clock, true, None), OpenCount(t.redis))]
  {
    var t := Run(settings, s, before);
    var failure := Failure(t.clock, true, None);
    var t2 := Step(settings, Step(settings, t, Fail(i, failure)), Proceed(i));
    RunTwo(settings, t, Fail(i, failure), Proceed(i));
    RunOne(settings, t2, Proceed(i));
    events := before + ([Fail(i, failure), Proceed(i)] + [Proceed(i)]);
    RunAppend(settings, t, [Fail(i, failure), Proceed(i)], [Proceed(i)]);
    RunAppend(settings, s, before, [Fail(i, failure), Proceed(i)] + [Proceed(i)]);
    hide Run, AllPossible, Recent, Cooldown, Threshold;
  }

  /** Two failures at the same time open the circuit twice, but it is counted as opened once. */
  lemma TwoOpeningsCountOnce(settings: Settings) returns (events: seq<Event>)
    requires Usable(settings)
    ensures AllPossible(settings, Start(2), events)
    ensures var t := Run(settings, Start(2), events); t.openings == 2 && OpenCount(t.redis) == 1
  {
    events := TwoRead(settings);
    var t := Run(settings, Start(2), events);
    RunTwo(settings, t, Proceed(0), Proceed(1));
    RunAppend(settings, Start(2), events, [Proceed(0), Proceed(1)]);
    hide Run, AllPossible, Cooldown, Start;
    events := events + [Proceed(0), Proceed(1)];
  }

  lemma TwoRead(settings: Settings) returns (events: seq<Event>)
    requires Usable(settings)
    ensures AllPossible(settings, Start(2), events)
    ensures var t, c := Run(settings, Start(2), events), Opening(Permit(false), Failure(0.0, true, None), 0);
      t.callers == [c, c] && t.openings == 0
  {
    var s0 := Start(2);
    events := [];
    assert Run(settings, s0, []) == s0;
    hide Run, AllPossible;
    events := ThenAsks(settings, s0, events, 0, 0.0);
    events := ThenAsks(settings, s0, events, 1, 0.0);
    events := ThenReads(settings, s0, events, 0);
    events := ThenReads(settings, s0, events, 1);
  }
}
