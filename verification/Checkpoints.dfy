/**
 `JobCheckpoints.get`, `save` and `run_once` (app/jobs_v22/checkpoints.py) for one job and one checkpoint key, with
 any number of executions interleaved command by command. Key expiry is left out.
 */
module Checkpoints {
  import opened Base

  /** A JSON result; `null` is stored like any other but read back as "nothing". */
  datatype Value = Null | Json(text: string)

  /** What a fenced save reads of the job's state key. */
  datatype Job = Job(generation: int, terminal: bool)

  /** Two Redis keys with the number of writes each has seen. */
  datatype Store = Store(checkpoint: Option<Value>, checkpointVersion: nat, job: Option<Job>, jobVersion: nat)

  /** Where an execution of `run_once` stands; `own` and `result` are what its own operation gave. */
  datatype Stage =
    | Starting
    | Operating
    | Saving(own: Value)
    | Watching(own: Value, checkpointVersion: nat, jobVersion: nat)
    | Admitted(own: Value, checkpointVersion: nat, jobVersion: nat)
    | Clear(own: Value, checkpointVersion: nat, jobVersion: nat)
    | Rereading(own: Value)
    | Returned(result: Option<Value>, value: Value)

  /** `fence` is the run generation of the worker, if it has one. */
  datatype Execution = Execution(fence: Option<int>, stage: Stage)

  datatype System = System(store: Store, executions: seq<Execution>)

  datatype Event =
    | Advance(execution: nat, operationResult: Value)
    | SetJob(job: Option<Job>)
    | DeleteCheckpoint

  /** `get`: a missing checkpoint and a stored null look the same. */
  function Read(store: Store): Option<Value> {
    if store.checkpoint == Some(Null) then None else store.checkpoint
  }

  /** `state.get("run_generation") != self.run_generation or state.get("status") in {...}`. */
  predicate Admits(job: Option<Job>, fence: Option<int>) {
    job.Some? && fence == Some(job.value.generation) && !job.value.terminal
  }

  function Stored(store: Store, value: Value): Store {
    store.(checkpoint := Some(value), checkpointVersion := store.checkpointVersion + 1)
  }

  /** The next command of one execution: the store and the stage after it. */
  function Next(store: Store, e: Execution, operationResult: Value): (Store, Stage) {
    match e.stage
    case Starting =>
      var existing := Read(store);
      if existing.Some? then (store, Returned(None, existing.value)) else (store, Operating)
    case Operating => (store, Saving(operationResult))
    case Saving(own) =>
      if e.fence.Some? then (store, Watching(own, store.checkpointVersion, store.jobVersion))
      else if store.checkpoint.None? then (Stored(store, own), Returned(Some(own), own))
      else (store, Rereading(own))
    case Watching(own, c, j) =>
      if Admits(store.job, e.fence) then (store, Admitted(own, c, j)) else (store, Rereading(own))
    case Admitted(own, c, j) =>
      if store.checkpoint.Some? then (store, Rereading(own)) else (store, Clear(own, c, j))
    case Clear(own, c, j) =>
      if c == store.checkpointVersion && j == store.jobVersion then (Stored(store, own), Returned(Some(own), own))
      else (store, Saving(own))
    case Rereading(own) =>
      var persisted := Read(store);
      (store, Returned(Some(own), if persisted.Some? then persisted.value else own))
    case Returned(_, _) => (store, e.stage)
  }

  function Step(s: System, event: Event): System {
    match event
    case Advance(i, result) =>
      if i >= |s.executions| then s
      else
        var (store, stage) := Next(s.store, s.executions[i], result);
        System(store, s.executions[i := Execution(s.executions[i].fence, stage)])
    case SetJob(job) => s.(store := s.store.(job := job, jobVersion := s.store.jobVersion + 1))
    case DeleteCheckpoint =>
      s.(store := s.store.(checkpoint := None, checkpointVersion := s.store.checkpointVersion + 1))
  }

  function Run(s: System, events: seq<Event>): System
    decreases |events|
  {
    if events == [] then s else Run(Step(s, events[0]), events[1..])
  }

  /** Only the manual retry of a failed job deletes a checkpoint. */
  predicate NoDeletion(events: seq<Event>) {
    forall k | 0 <= k < |events| :: events[k] != DeleteCheckpoint
  }

  // ---------------------------------------------------------------- write once

  lemma NextKeepsStored(store: Store, e: Execution, result: Value)
    requires Sound(store, e)
    ensures store.checkpoint.Some? ==> Next(store, e, result).0.checkpoint == store.checkpoint
  {
  }

  /** What an execution knows of the store while it has not been overtaken. */
  ghost predicate Sound(store: Store, e: Execution) {
    match e.stage
    case Watching(_, c, j) => c <= store.checkpointVersion && j <= store.jobVersion
    case Admitted(_, c, j) =>
      c <= store.checkpointVersion && j <= store.jobVersion && (j == store.jobVersion ==> Admits(store.job, e.fence))
    case Clear(_, c, j) =>
      && c <= store.checkpointVersion && j <= store.jobVersion
      && (j == store.jobVersion ==> Admits(store.job, e.fence))
      && (c == store.checkpointVersion ==> store.checkpoint.None?)
    case _ => true
  }

  ghost predicate AllSound(s: System) {
    forall i | 0 <= i < |s.executions| :: Sound(s.store, s.executions[i])
  }

  /** Every write of a key raises its version. */
  ghost predicate Progresses(a: Store, b: Store) {
    && a.checkpointVersion <= b.checkpointVersion && a.jobVersion <= b.jobVersion
    && (a.checkpointVersion == b.checkpointVersion ==> a.checkpoint == b.checkpoint)
    && (a.jobVersion == b.jobVersion ==> a.job == b.job)
  }

  lemma SoundStays(a: Store, b: Store, e: Execution)
    requires Progresses(a, b) && Sound(a, e)
    ensures Sound(b, e)
  {
  }

  lemma StepKeepsSound(s: System, event: Event)
    requires AllSound(s)
    ensures AllSound(Step(s, event)) && Progresses(s.store, Step(s, event).store)
  {
    var t := Step(s, event);
    if event.Advance? && event.execution < |s.executions| {
      assert Sound(s.store, s.executions[event.execution]);
      AdvanceKeepsSound(s.store, s.executions[event.execution], event.operationResult);
    }
    hide Sound, Next, Progresses;
    assert Progresses(s.store, t.store) by { ProgressOf(s, event); }
    forall i | 0 <= i < |t.executions| ensures Sound(t.store, t.executions[i]) {
      if t.executions[i] == s.executions[i] {
        SoundStays(s.store, t.store, s.executions[i]);
      }
    }
  }

  lemma ProgressOf(s: System, event: Event)
    ensures Progresses(s.store, Step(s, event).store)
  {
  }

  lemma AdvanceKeepsSound(store: Store, e: Execution, result: Value)
    requires Sound(store, e)
    ensures var (after, stage) := Next(store, e, result); Sound(after, Execution(e.fence, stage))
  {
  }

  /** Without a deletion, a stored value is never replaced. */
  lemma {:induction false} StoredForever(s: System, events: seq<Event>)
    requires AllSound(s) && NoDeletion(events)
    ensures AllSound(Run(s, events))
    ensures s.store.checkpoint.Some? ==> Run(s, events).store.checkpoint == s.store.checkpoint
    decreases |events|
  {
    if events != [] {
      StepKeepsSound(s, events[0]);
      if events[0].Advance? && events[0].execution < |s.executions| {
        assert Sound(s.store, s.executions[events[0].execution]);
        NextKeepsStored(s.store, s.executions[events[0].execution], events[0].operationResult);
      }
      assert s.store.checkpoint.Some? ==> Step(s, events[0]).store.checkpoint == s.store.checkpoint;
      hide Step, AllSound;
      StoredForever(Step(s, events[0]), events[1..]);
    }
  }

  // ---------------------------------------------------------------- what is returned

  /** The step in which execution `i` returns. */
  predicate Returns(s: System, event: Event, i: nat) {
    && i < |s.executions| && event.Advance? && event.execution == i
    && !s.executions[i].stage.Returned? && Step(s, event).executions[i].stage.Returned?
  }

  /** Whatever is returned while a value is stored equals that value; deletions and fences do not matter. */
  lemma ReturnsStored(s: System, event: Event, i: nat, stored: Value)
    requires Returns(s, event, i) && Step(s, event).store.checkpoint == Some(stored) && stored != Null
    ensures Step(s, event).executions[i].stage.value == stored
  {
  }

  /** A fenced execution writes only while the job's current generation is its own and the job is not terminal. */
  lemma FencedWriteIsCurrent(s: System, event: Event)
    requires AllSound(s) && event.Advance? && event.execution < |s.executions|
    requires s.executions[event.execution].fence.Some? && Step(s, event).store.checkpoint != s.store.checkpoint
    ensures s.store.job.Some? && s.executions[event.execution].fence == Some(s.store.job.value.generation)
    ensures !s.store.job.value.terminal && s.store.checkpoint.None?
  {
    assert Sound(s.store, s.executions[event.execution]);
  }

  /** An execution whose generation is superseded, or whose job is terminal or gone, does not write. */
  lemma SupersededNeverWrites(s: System, event: Event)
    requires AllSound(s) && event.Advance? && event.execution < |s.executions|
    requires s.executions[event.execution].fence.Some?
    requires s.store.job.Some? ==>
               s.executions[event.execution].fence.value != s.store.job.value.generation || s.store.job.value.terminal
    ensures Step(s, event).store == s.store
  {
    assert Sound(s.store, s.executions[event.execution]);
  }

  predicate GivesUp(s: System, event: Event, i: nat) {
    && i < |s.executions| && event.Advance? && event.execution == i
    && !s.executions[i].stage.Rereading? && Step(s, event).executions[i].stage.Rereading?
  }

  /**
   A save is abandoned only because something is stored, or because the worker's generation is not that of an unfinished
   job; a mere conflict of the transaction makes it try again.
   */
  lemma GivesUpForReason(s: System, event: Event, i: nat)
    requires GivesUp(s, event, i)
    ensures var fence, job := s.executions[i].fence, s.store.job;
      || s.store.checkpoint.Some?
      || job.None? || fence != Some(job.value.generation) || job.value.terminal
    ensures s.executions[i].stage.Saving? ==> s.store.checkpoint.Some?
    ensures Step(s, event).store == s.store
  {
  }

  // ---------------------------------------------------------------- agreement of unfenced executions

  /** What an unfenced execution has brought about, as long as nothing is deleted. */
  ghost predicate Settled(store: Store, e: Execution) {
    e.fence.None? ==>
      match e.stage
      case Watching(_, _, _) => false
      case Admitted(_, _, _) => false
      case Clear(_, _, _) => false
      case Rereading(_) => store.checkpoint.Some?
      case Returned(result, value) =>
        && store.checkpoint.Some?
        && (if store.checkpoint == Some(Null) then result == Some(value) else store.checkpoint == Some(value))
      case _ => true
  }

  ghost predicate AllSettled(s: System) {
    forall i | 0 <= i < |s.executions| :: Settled(s.store, s.executions[i])
  }

  lemma AdvanceSettles(store: Store, e: Execution, result: Value)
    requires Settled(store, e)
    ensures var (after, stage) := Next(store, e, result); Settled(after, Execution(e.fence, stage))
  {
  }

  lemma SettledStays(a: Store, b: Store, e: Execution)
    requires Settled(a, e) && (a.checkpoint.Some? ==> b.checkpoint == a.checkpoint)
    ensures Settled(b, e)
  {
  }

  lemma StepSettles(s: System, event: Event)
    requires AllSound(s) && AllSettled(s) && event != DeleteCheckpoint
    ensures AllSettled(Step(s, event))
  {
    var t := Step(s, event);
    if event.Advance? && event.execution < |s.executions| {
      var e := s.executions[event.execution];
      assert Sound(s.store, e) && Settled(s.store, e);
      AdvanceSettles(s.store, e, event.operationResult);
      NextKeepsStored(s.store, e, event.operationResult);
    }
    assert s.store.checkpoint.Some? ==> t.store.checkpoint == s.store.checkpoint;
    hide Sound, Next, Settled;
    forall i | 0 <= i < |t.executions| ensures Settled(t.store, t.executions[i]) {
      if t.executions[i] == s.executions[i] {
        SettledStays(s.store, t.store, s.executions[i]);
      }
    }
  }

  /**
   Every unfenced execution that has returned, in any run without a deletion, has left a stored value, and returned
   exactly that value unless it is null, in which case it returned its own result.
   */
  lemma {:induction false} UnfencedReturnsStored(s: System, events: seq<Event>)
    requires AllSound(s) && AllSettled(s) && NoDeletion(events)
    ensures AllSettled(Run(s, events)) && AllSound(Run(s, events))
    decreases |events|
  {
    hide AllSound, AllSettled, Step;
    if events != [] {
      StepKeepsSound(s, events[0]);
      StepSettles(s, events[0]);
      UnfencedReturnsStored(Step(s, events[0]), events[1..]);
    }
  }

  /** Nobody has started yet. */
  predicate Fresh(s: System) {
    forall i | 0 <= i < |s.executions| :: s.executions[i].stage == Starting
  }

  // ---------------------------------------------------------------- when agreement is certain

  /** Each execution's operation gives its own result, whenever it is called. */
  predicate Gives(events: seq<Event>, results: seq<Value>) {
    forall k | 0 <= k < |events| && events[k].Advance? && events[k].execution < |results| ::
      events[k].operationResult == results[events[k].execution]
  }

  ghost predicate Agree(s: System) {
    forall i, j | 0 <= i < |s.executions| && 0 <= j < |s.executions| &&
                  s.executions[i].fence.None? && s.executions[i].stage.Returned? &&
                  s.executions[j].fence.None? && s.executions[j].stage.Returned? ::
      s.executions[i].stage.value == s.executions[j].stage.value
  }

  ghost predicate AgreesAfter(s: System, results: seq<Value>, events: seq<Event>) {
    NoDeletion(events) && Gives(events, results) ==> Agree(Run(s, events))
  }

  ghost predicate AlwaysAgree(s: System, results: seq<Value>) {
    forall events :: AgreesAfter(s, results, events)
  }

  /** Null is not stored, and cannot come to be. */
  predicate NullFree(store: Store, results: seq<Value>) {
    match store.checkpoint
    case Some(v) => v != Null
    case None => Null !in results
  }

  predicate SameResults(s: System, results: seq<Value>)
    requires |results| == |s.executions|
  {
    forall i, j | 0 <= i < |results| && 0 <= j < |results| &&
                  s.executions[i].fence.None? && s.executions[j].fence.None? ::
      results[i] == results[j]
  }

  /** What an execution carries as its own result is what its operation gives. */
  predicate Carries(stage: Stage, result: Value) {
    match stage
    case Starting => true
    case Operating => true
    case Saving(own) => own == result
    case Watching(own, _, _) => own == result
    case Admitted(own, _, _) => own == result
    case Clear(own, _, _) => own == result
    case Rereading(own) => own == result
    case Returned(own, _) => own.Some? ==> own.value == result
  }

  ghost predicate AllCarry(s: System, results: seq<Value>) {
    |results| == |s.executions| && forall i | 0 <= i < |results| :: Carries(s.executions[i].stage, results[i])
  }

  lemma NextCarries(store: Store, e: Execution, result: Value)
    requires Carries(e.stage, result)
    ensures Carries(Next(store, e, result).1, result)
    ensures Next(store, e, result).0.checkpoint == store.checkpoint ||
            Next(store, e, result).0.checkpoint == Some(result)
  {
  }

  lemma StepCarries(s: System, event: Event, results: seq<Value>)
    requires AllSound(s) && AllCarry(s, results) && event != DeleteCheckpoint && Gives([event], results)
    ensures AllCarry(Step(s, event), results)
    ensures NullFree(s.store, results) ==> NullFree(Step(s, event).store, results)
  {
    if event.Advance? && event.execution < |s.executions| {
      var i := event.execution;
      assert [event][0] == event && Carries(s.executions[i].stage, results[i]) && Sound(s.store, s.executions[i]);
      NextCarries(s.store, s.executions[i], results[i]);
      NextKeepsStored(s.store, s.executions[i], results[i]);
      hide Next, Carries, AllSound;
      assert results[i] in results;
    }
  }

  lemma {:induction false} RunCarries(s: System, events: seq<Event>, results: seq<Value>)
    requires AllSound(s) && AllCarry(s, results) && NoDeletion(events) && Gives(events, results)
    ensures AllCarry(Run(s, events), results)
    ensures NullFree(s.store, results) ==> NullFree(Run(s, events).store, results)
    decreases |events|
  {
    hide AllSound, AllCarry, NullFree, Step;
    if events != [] {
      assert [events[0]][0] == events[0];
      StepKeepsSound(s, events[0]);
      StepCarries(s, events[0], results);
      RunCarries(Step(s, events[0]), events[1..], results);
    }
  }

  /** No null, or nothing to tell apart: then all unfenced executions agree. */
  lemma SureToAgree(s: System, results: seq<Value>, events: seq<Event>)
    requires Fresh(s) && |results| == |s.executions| && (NullFree(s.store, results) || SameResults(s, results))
    requires NoDeletion(events) && Gives(events, results)
    ensures Agree(Run(s, events))
  {
    UnfencedReturnsStored(s, events);
    RunCarries(s, events, results);
    FencesStay(s, events);
    var t := Run(s, events);
    hide Run;
    forall i, j | 0 <= i < |t.executions| && 0 <= j < |t.executions| &&
                  t.executions[i].fence.None? && t.executions[i].stage.Returned? &&
                  t.executions[j].fence.None? && t.executions[j].stage.Returned?
      ensures t.executions[i].stage.value == t.executions[j].stage.value
    {
      assert Settled(t.store, t.executions[i]) && Settled(t.store, t.executions[j]);
      assert Carries(t.executions[i].stage, results[i]) && Carries(t.executions[j].stage, results[j]);
    }
  }

  lemma {:induction false} FencesStay(s: System, events: seq<Event>)
    ensures |Run(s, events).executions| == |s.executions|
    ensures forall i | 0 <= i < |s.executions| :: Run(s, events).executions[i].fence == s.executions[i].fence
    decreases |events|
  {
    if events != [] {
      hide Next;
      FencesStay(Step(s, events[0]), events[1..]);
    }
  }

  // ---------------------------------------------------------------- one execution after the other

  /** `n` commands of one execution. */
  function Alone(i: nat, result: Value, n: nat): seq<Event> {
    seq(n, _ => Advance(i, result))
  }

  /** Where `n` commands with nobody in between take an execution. */
  function Ahead(store: Store, e: Execution, result: Value, n: nat): (Store, Stage)
    decreases n
  {
    if n == 0 then (store, e.stage)
    else
      var (after, stage) := Next(store, e, result);
      Ahead(after, Execution(e.fence, stage), result, n - 1)
  }

  lemma {:induction false} RunAlone(s: System, i: nat, result: Value, n: nat)
    requires i < |s.executions|
    ensures var (store, stage) := Ahead(s.store, s.executions[i], result, n);
      Run(s, Alone(i, result, n)) == System(store, s.executions[i := Execution(s.executions[i].fence, stage)])
    decreases n
  {
    if n > 0 {
      var t := Step(s, Advance(i, result));
      assert Alone(i, result, n)[1..] == Alone(i, result, n - 1);
      RunAlone(t, i, result, n - 1);
      hide Next, Run;
    }
  }

  /** A whole execution takes at most six commands; afterwards it only repeats itself. */
  lemma AheadOfSix(store: Store, e: Execution, result: Value)
    ensures var r1 := Next(store, e, result);
      var r2 := Next(r1.0, Execution(e.fence, r1.1), result);
      var r3 := Next(r2.0, Execution(e.fence, r2.1), result);
      var r4 := Next(r3.0, Execution(e.fence, r3.1), result);
      var r5 := Next(r4.0, Execution(e.fence, r4.1), result);
      Ahead(store, e, result, 6) == Next(r5.0, Execution(e.fence, r5.1), result)
  {
    hide Next;
    var r1 := Next(store, e, result);
    var r2 := Next(r1.0, Execution(e.fence, r1.1), result);
    var r3 := Next(r2.0, Execution(e.fence, r2.1), result);
    assert Ahead(store, e, result, 6) == Ahead(r3.0, Execution(e.fence, r3.1), result, 3);
  }

  /**
   One execution with nobody in between. A stored value other than null is returned without calling the operation.
   Otherwise the operation's own result is returned, and stored if the key is still missing and the worker has no
   generation or the one of a job that is not finished.
   */
  lemma RunOnceAlone(s: System, i: nat, result: Value)
    requires i < |s.executions| && s.executions[i].stage == Starting
    ensures var t := Run(s, Alone(i, result, 6));
      var seen, fence := s.store.checkpoint, s.executions[i].fence;
      && |t.executions| == |s.executions|
      && if seen.Some? && seen.value != Null
         then t.store == s.store && t.executions[i].stage == Returned(None, seen.value)
         else
           && t.executions[i].stage == Returned(Some(result), result)
           && t.store.checkpoint ==
              if seen.None? && (fence.None? || (s.store.job.Some? && s.store.job.value.generation == fence.value &&
                                                !s.store.job.value.terminal))
              then Some(result) else seen
  {
    RunAlone(s, i, result, 6);
    AheadAlone(s.store, s.executions[i], result);
    hide Run, Ahead, Next;
  }

  lemma AheadAlone(store: Store, e: Execution, result: Value)
    requires e.stage == Starting
    ensures var (after, stage) := Ahead(store, e, result, 6);
      if store.checkpoint.Some? && store.checkpoint.value != Null
      then after == store && stage == Returned(None, store.checkpoint.value)
      else
        && stage == Returned(Some(result), result)
        && after.checkpoint == if store.checkpoint.None? && (e.fence.None? || Admits(store.job, e.fence))
                               then Some(result) else store.checkpoint
  {
    AheadOfSix(store, e, result);
    hide Ahead;
  }

  /** The first to finish stores its result; a fenced one only while it is admitted. */
  lemma StoresAlone(store: Store, e: Execution, result: Value)
    requires e.stage == Starting && store.checkpoint.None? && (e.fence.Some? ==> Admits(store.job, e.fence))
    ensures Ahead(store, e, result, 6) == (Stored(store, result), Returned(Some(result), result))
  {
    AheadOfSix(store, e, result);
  }

  /** With null stored, an unfenced execution returns its own result. */
  lemma ReturnsOwnAlone(store: Store, e: Execution, result: Value)
    requires e.stage == Starting && store.checkpoint == Some(Null) && e.fence.None?
    ensures Ahead(store, e, result, 6) == (store, Returned(Some(result), result))
  {
    AheadOfSix(store, e, result);
  }

  lemma {:induction false} RunAppend(s: System, a: seq<Event>, b: seq<Event>)
    ensures Run(s, a + b) == Run(Run(s, a), b)
    decreases |a|
  {
    hide Step;
    if a == [] {
      assert a + b == b;
    } else {
      assert (a + b)[0] == a[0] && (a + b)[1..] == a[1..] + b;
      RunAppend(Step(s, a[0]), a[1..], b);
    }
  }

  /** With null stored, two unfenced executions one after the other return their own results. */
  lemma BothReturnOwn(s: System, results: seq<Value>, i: nat, j: nat) returns (events: seq<Event>)
    requires |results| == |s.executions| && s.store.checkpoint == Some(Null) && i < |results| && j < |results| && i != j
    requires s.executions[j] == Execution(None, Starting)
    requires s.executions[i].fence.None?
    requires s.executions[i].stage == Starting || s.executions[i].stage == Returned(Some(results[i]), results[i])
    ensures NoDeletion(events) && Gives(events, results) && |Run(s, events).executions| == |results|
    ensures Run(s, events).executions[i] == Execution(None, Returned(Some(results[i]), results[i]))
    ensures Run(s, events).executions[j] == Execution(None, Returned(Some(results[j]), results[j]))
  {
    var first := if s.executions[i].stage == Starting then Alone(i, results[i], 6) else [];
    var second := Alone(j, results[j], 6);
    events := first + second;
    RunAppend(s, first, second);
    var t := Run(s, first);
    if first != [] {
      RunAlone(s, i, results[i], 6);
      ReturnsOwnAlone(s.store, s.executions[i], results[i]);
    }
    assert t.store == s.store && t.executions[j] == s.executions[j];
    RunAlone(t, j, results[j], 6);
    ReturnsOwnAlone(t.store, t.executions[j], results[j]);
    hide Run, Ahead;
  }

  /** An execution whose operation gives null comes first and stores it. */
  lemma StoresNull(s: System, results: seq<Value>, i: nat) returns (events: seq<Event>)
    requires |results| == |s.executions| && s.store.checkpoint.None?
    requires i < |results| && results[i] == Null && s.executions[i].stage == Starting
    ensures NoDeletion(events) && Gives(events, results) && Run(s, events).store.checkpoint == Some(Null)
    ensures Run(s, events).executions == s.executions[i := Execution(s.executions[i].fence, Returned(Some(Null), Null))]
  {
    var fence := s.executions[i].fence;
    var admit := if fence.Some? then [SetJob(Some(Job(fence.value, false)))] else [];
    var t := Run(s, admit);
    assert t.executions == s.executions && t.store.checkpoint.None? && (fence.Some? ==> Admits(t.store.job, fence)) by {
      if fence.Some? {
        assert Run(s, admit) == Run(Step(s, admit[0]), []);
      }
    }
    events := admit + Alone(i, Null, 6);
    RunAppend(s, admit, Alone(i, Null, 6));
    RunAlone(t, i, Null, 6);
    StoresAlone(t.store, t.executions[i], Null);
    hide Run, Ahead;
  }

  /** Otherwise some run has two unfenced executions that return different values. */
  lemma CanDisagree(s: System, results: seq<Value>) returns (events: seq<Event>)
    requires Fresh(s) && |results| == |s.executions| && !NullFree(s.store, results) && !SameResults(s, results)
    ensures NoDeletion(events) && Gives(events, results) && !Agree(Run(s, events))
  {
    var i: nat, j: nat :| i < |results| && j < |results| &&
                          s.executions[i].fence.None? && s.executions[j].fence.None? &&
                          results[i] != results[j];
    if s.store.checkpoint.Some? {
      events := BothReturnOwn(s, results, i, j);
    } else {
      var n: nat :| n < |results| && results[n] == Null;
      var before := StoresNull(s, results, n);
      var t := Run(s, before);
      var after;
      if s.executions[n].fence.Some? {
        after := BothReturnOwn(t, results, i, j);
      } else {
        after := BothReturnOwn(t, results, n, if results[i] == Null then j else i);
      }
      RunAppend(s, before, after);
      events := before + after;
    }
    hide Run, Gives;
  }

  /**
   Whatever the interleaving, unfenced executions return the same value if and only if a value other than null is
   stored already, or nothing is stored and no operation gives null, or their own results are all equal.
   */
  lemma UnfencedAgreeIff(s: System, results: seq<Value>)
    requires Fresh(s) && |results| == |s.executions|
    ensures AlwaysAgree(s, results) <==> NullFree(s.store, results) || SameResults(s, results)
  {
    if NullFree(s.store, results) || SameResults(s, results) {
      forall events ensures AgreesAfter(s, results, events) {
        if NoDeletion(events) && Gives(events, results) {
          SureToAgree(s, results, events);
        }
      }
    } else {
      var events := CanDisagree(s, results);
      assert !AgreesAfter(s, results, events);
    }
  }

  /** The smallest case: one operation gives null, the other something else. */
  lemma NullBreaksAgreement(x: Value)
    requires x != Null
    ensures var e := Execution(None, Starting); !AlwaysAgree(System(Store(None, 0, None, 0), [e, e]), [Null, x])
  {
    var e := Execution(None, Starting);
    var s, results := System(Store(None, 0, None, 0), [e, e]), [Null, x];
    assert results[0] in results && s.executions[0] == s.executions[1] == e && results[0] != results[1];
    UnfencedAgreeIff(s, results);
  }
}
