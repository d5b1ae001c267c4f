/**
 The operations of `JobCostLedger` (app/jobs_v22/cost_ledger.py) as computations on the stored ledger, and what
 holds in every run of any number of clients. `Optimistic` supplies the retry loop of `_mutate`.
 */
module CostLedger {
  import opened Base
  import opened CostModels
  import opened Optimistic

  datatype Error = ClaimConflict | RecoveryRequired | LedgerUnavailable | InvalidLedger | BadArgument

  /** What a completion reports about a provider call. */
  datatype Report = Report(
    outcome: Outcome,
    durationMs: int,
    billableUnits: int,
    usageKnown: bool,
    inputTokens: Option<int>,
    outputTokens: Option<int>,
    totalTokens: Option<int>)

  datatype Action =
    | Ensure
    | ClaimAttempt(operation: Operation, id: ClaimId)
    | Complete(id: ClaimId, report: Report)
    | CheckpointHit(count: int)
    | JobAttempt(elapsedMs: int, phase: AttemptPhase)

  /** A worker's own settings; workers of different generations may disagree. */
  datatype Worker = Worker(pricing: Pricing, createdAt: int, requireExisting: bool)

  datatype Call = Call(worker: Worker, action: Action)

  datatype Reply = Done | Claimed(claim: Claim) | LimitExceeded(operation: Operation)

  datatype Effect = Effect(next: Ledger, reply: Reply)

  // ---------------------------------------------------------------- the operations

  function NewLedger(worker: Worker, now: int): Ledger {
    Ledger(LedgerV1, 1, worker.pricing, worker.createdAt, if now < worker.createdAt then worker.createdAt else now,
           [], map[], 0, 0, Some(map[]), 0)
  }

  function Decode(worker: Worker, raw: Option<Ledger>, now: int): Result<Ledger, Error> {
    match raw
    case None => if worker.requireExisting then Err(RecoveryRequired) else Ok(NewLedger(worker, now))
    case Some(s) => if ValidLedger(s) then Ok(s) else Err(LedgerUnavailable)
  }

  /** The position of a claim; `|claims|` when there is none. */
  function Find(claims: seq<Claim>, id: ClaimId): (i: nat)
    ensures i <= |claims| && (i < |claims| ==> claims[i].id == id)
    ensures i == |claims| ==> forall j | 0 <= j < |claims| :: claims[j].id != id
  {
    if claims == [] then 0 else if claims[0].id == id then 0 else 1 + Find(claims[1..], id)
  }

  function NewClaim(operation: Operation, id: ClaimId, now: int): Claim {
    Claim(id, operation, ProviderOf(operation), now, None, None, None, 1, false, None, None, None)
  }

  function Touched(s: Ledger, now: int): Ledger {
    s.(revision := s.revision + 1, updatedAt := now)
  }

  function ClaimEffect(s: Ledger, operation: Operation, id: ClaimId, now: int): Result<Effect, Error> {
    var i := Find(s.claims, id);
    if i < |s.claims| then
      if s.claims[i].operation != operation then Err(ClaimConflict) else Ok(Effect(s, Claimed(s.claims[i])))
    else if Used(s.claims, operation) >= LimitOf(operation) then
      Ok(Effect(Touched(s, now).(denials := s.denials[operation := Denials(s, operation) + 1]),
                LimitExceeded(operation)))
    else
      var claim := NewClaim(operation, id, now);
      var schema := if operation == FirecrawlScrape then LedgerV2 else s.schema;
      Ok(Effect(Touched(s, now).(claims := s.claims + [claim], schema := schema), Claimed(claim)))
  }

  function Reported(c: Claim, report: Report, now: int): Claim {
    c.(completedAt := Some(now), outcome := Some(report.outcome), durationMs := Some(report.durationMs),
       billableUnits := report.billableUnits, usageKnown := report.usageKnown,
       inputTokens := report.inputTokens, outputTokens := report.outputTokens, totalTokens := report.totalTokens)
  }

  function CompleteEffect(s: Ledger, id: ClaimId, report: Report, now: int): Result<Effect, Error> {
    var i := Find(s.claims, id);
    if i == |s.claims| then Err(ClaimConflict)
    else
      var current := s.claims[i];
      var completed := Reported(current, report, now);
      if !ValidClaim(completed) then Err(InvalidLedger)
      else if Completed(current) then
        if current.(completedAt := completed.completedAt) != completed then Err(ClaimConflict)
        else Ok(Effect(s, Claimed(current)))
      else Ok(Effect(Touched(s, now).(claims := s.claims[i := completed]), Claimed(completed)))
  }

  function HitEffect(s: Ledger, count: int, now: int): Result<Effect, Error> {
    if !(1 <= count <= 10_000) then Err(BadArgument)
    else Ok(Effect(Touched(s, now).(checkpointHits := s.checkpointHits + count), Done))
  }

  function AttemptEffect(s: Ledger, elapsedMs: int, phase: AttemptPhase, now: int): Result<Effect, Error> {
    if !(0 <= elapsedMs <= 86_400_000) then Err(BadArgument)
    else
      var before := s.phaseAttempts;
      var phases := if before.None? then None else Some(before.value[phase := PhaseCount(before.value, phase) + 1]);
      Ok(Effect(Touched(s, now).(jobAttempts := s.jobAttempts + 1, phaseAttempts := phases,
                                 activeElapsedMs := s.activeElapsedMs + elapsedMs), Done))
  }

  function Mutation(s: Ledger, action: Action, now: int): Result<Effect, Error> {
    match action
    case Ensure => Ok(Effect(s, Done))
    case ClaimAttempt(operation, id) => ClaimEffect(s, operation, id, now)
    case Complete(id, report) => CompleteEffect(s, id, report, now)
    case CheckpointHit(count) => HitEffect(s, count, now)
    case JobAttempt(elapsedMs, phase) => AttemptEffect(s, elapsedMs, phase, now)
  }

  /** The computation inside `_mutate`: decode, change, validate the whole ledger again. */
  function Perform(s: Ledger, action: Action, now: int): Result<Effect, Error> {
    var r := Mutation(s, action, now);
    if r.Ok? && !ValidLedger(r.value.next) then Err(InvalidLedger) else r
  }

  function Answer(call: Call, raw: Option<Ledger>, now: int): Result<Effect, Error> {
    var decoded := Decode(call.worker, raw, now);
    if decoded.Err? then Err(decoded.error) else Perform(decoded.value, call.action, now)
  }

  function Write(call: Call, raw: Option<Ledger>, now: int): Option<Option<Ledger>> {
    var answer := Answer(call, raw, now);
    if answer.Err? then None else Some(Some(answer.value.next))
  }

  // ---------------------------------------------------------------- invariants

  ghost predicate WithinLimits(claims: seq<Claim>) {
    forall operation :: Used(claims, operation) <= LimitOf(operation)
  }

  /** A claim without an outcome still carries one unit and no token usage. */
  predicate Unreported(c: Claim) {
    !Completed(c) ==> c.billableUnits == 1 && !c.usageKnown && NoTokens(c)
  }

  ghost predicate Safe(s: Ledger) {
    && ValidLedger(s)
    && WithinLimits(s.claims)
    && forall i | 0 <= i < |s.claims| :: Unreported(s.claims[i])
  }

  ghost predicate SafeStore(v: Option<Ledger>) {
    v.Some? ==> Safe(v.value)
  }

  /** What the revision counts beyond claims, completions, denials and attempts. */
  function Balance(s: Ledger): int {
    s.revision - |s.claims| - CompletedCount(s.claims) - TotalDenials(s) - s.jobAttempts
  }

  function BalanceOf(v: Option<Ledger>): int {
    if v.None? then 1 else Balance(v.value)
  }

  function HitCalls(commits: seq<Commit<Call>>): nat {
    if commits == [] then 0
    else (if commits[0].call.action.CheckpointHit? then 1 else 0) + HitCalls(commits[1..])
  }

  lemma UsedOfAppend(claims: seq<Claim>, c: Claim, operation: Operation)
    ensures Used(claims + [c], operation) == Used(claims, operation) + if c.operation == operation then 1 else 0
  {
    assert (claims + [c])[..|claims|] == claims;
  }

  lemma {:induction false} UsedOfUpdate(claims: seq<Claim>, i: nat, c: Claim, operation: Operation)
    requires i < |claims| && c.operation == claims[i].operation
    ensures Used(claims[i := c], operation) == Used(claims, operation)
  {
    var n := |claims| - 1;
    if i == n {
      assert claims[i := c][..n] == claims[..n];
    } else {
      assert claims[i := c][..n] == claims[..n][i := c];
      UsedOfUpdate(claims[..n], i, c, operation);
    }
  }

  lemma CompletedOfAppend(claims: seq<Claim>, c: Claim)
    ensures CompletedCount(claims + [c]) == CompletedCount(claims) + if Completed(c) then 1 else 0
  {
    assert (claims + [c])[..|claims|] == claims;
  }

  lemma {:induction false} CompletedOfUpdate(claims: seq<Claim>, i: nat, c: Claim)
    requires i < |claims| && Completed(c) && !Completed(claims[i])
    ensures CompletedCount(claims[i := c]) == CompletedCount(claims) + 1
  {
    var n := |claims| - 1;
    if i == n {
      assert claims[i := c][..n] == claims[..n];
    } else {
      assert claims[i := c][..n] == claims[..n][i := c];
      CompletedOfUpdate(claims[..n], i, c);
    }
  }

  lemma {:induction false} DenialsOfIncrement(denials: map<Operation, int>, operations: seq<Operation>,
        operation: Operation, count: int)
    requires Distinct(operations)
    requires count == (if operation in denials then denials[operation] else 0) + 1
    ensures DenialsOf(denials[operation := count], operations) == DenialsOf(denials, operations) +
          if operation in operations then 1 else 0
  {
    if operations != [] {
      DenialsOfIncrement(denials, operations[1..], operation, count);
      assert operations == [operations[0]] + operations[1..];
      if operations[0] == operation {
        assert operation !in operations[1..];
      }
    }
  }

  lemma OperationsDistinct()
    ensures Distinct(OPERATIONS)
  {
  }

  /** Each committed call keeps every limit and leaves unreported claims unreported. */
  lemma PerformKeepsSafe(s: Ledger, action: Action, now: int)
    requires Safe(s) && Perform(s, action, now).Ok?
    ensures Safe(Perform(s, action, now).value.next)
  {
    hide ValidLedger, ValidClaim, TotalDenials;
    var t := Perform(s, action, now).value.next;
    if action.ClaimAttempt? && |t.claims| > |s.claims| {
      forall operation ensures Used(t.claims, operation) <= LimitOf(operation) {
        UsedOfAppend(s.claims, NewClaim(action.operation, action.id, now), operation);
      }
    } else if action.Complete? && t != s {
      var i := Find(s.claims, action.id);
      forall operation ensures Used(t.claims, operation) <= LimitOf(operation) {
        UsedOfUpdate(s.claims, i, Reported(s.claims[i], action.report, now), operation);
      }
    }
  }

  lemma ClaimBalances(s: Ledger, operation: Operation, id: ClaimId, now: int)
    requires ClaimEffect(s, operation, id, now).Ok?
    ensures Balance(ClaimEffect(s, operation, id, now).value.next) == Balance(s)
  {
    hide Used, LimitOf, ProviderOf, Find, CompletedCount, DenialsOf, OPERATIONS, Distinct;
    CompletedOfAppend(s.claims, NewClaim(operation, id, now));
    OperationsDistinct();
    EveryOperationListed(operation);
    DenialsOfIncrement(s.denials, OPERATIONS, operation, Denials(s, operation) + 1);
  }

  lemma CompletionBalances(s: Ledger, id: ClaimId, report: Report, now: int)
    requires CompleteEffect(s, id, report, now).Ok?
    ensures Balance(CompleteEffect(s, id, report, now).value.next) == Balance(s)
  {
    hide ValidClaim, Find, CompletedCount, DenialsOf;
    var i := Find(s.claims, id);
    if !Completed(s.claims[i]) {
      CompletedOfUpdate(s.claims, i, Reported(s.claims[i], report, now));
    }
  }

  /** The revision moves by one per claim, completion, denial, attempt and hit, and by nothing else. */
  lemma PerformBalances(s: Ledger, action: Action, now: int)
    requires ValidLedger(s) && Perform(s, action, now).Ok?
    ensures Balance(Perform(s, action, now).value.next) == Balance(s) + if action.CheckpointHit? then 1 else 0
  {
    match action
    case Ensure =>
      hide ValidLedger;
    case ClaimAttempt(operation, id) =>
      hide ValidLedger, ClaimEffect, Balance;
      ClaimBalances(s, operation, id, now);
    case Complete(id, report) =>
      hide ValidLedger, CompleteEffect, Balance;
      CompletionBalances(s, id, report, now);
    case CheckpointHit(count) =>
      hide ValidLedger, CompletedCount, DenialsOf;
    case JobAttempt(elapsedMs, phase) =>
      hide ValidLedger, CompletedCount, DenialsOf;
  }

  // ---------------------------------------------------------------- growth

  /** `d` is `c` later on: the same claim, and the very same value once it was completed. */
  predicate Later(c: Claim, d: Claim) {
    && d.id == c.id && d.operation == c.operation && d.provider == c.provider && d.claimedAt == c.claimedAt
    && (Completed(c) ==> d == c)
  }

  /** `t` can be reached from `s`: nothing recorded is ever lost or changed. */
  ghost predicate Extends(s: Ledger, t: Ledger) {
    && t.pricing == s.pricing && t.createdAt == s.createdAt
    && s.revision <= t.revision
    && |s.claims| <= |t.claims|
    && (forall i | 0 <= i < |s.claims| :: Later(s.claims[i], t.claims[i]))
    && (forall operation :: Denials(s, operation) <= Denials(t, operation))
    && s.checkpointHits <= t.checkpointHits && s.jobAttempts <= t.jobAttempts && s.activeElapsedMs <= t.activeElapsedMs
  }

  ghost predicate Grows(v: Option<Ledger>, w: Option<Ledger>) {
    v.Some? ==> w.Some? && Extends(v.value, w.value)
  }

  lemma ExtendsTransitive(s: Ledger, t: Ledger, u: Ledger)
    requires Extends(s, t) && Extends(t, u)
    ensures Extends(s, u)
  {
    forall i | 0 <= i < |s.claims| ensures Later(s.claims[i], u.claims[i]) {
      assert Later(s.claims[i], t.claims[i]) && Later(t.claims[i], u.claims[i]);
    }
    forall operation ensures Denials(s, operation) <= Denials(u, operation) {
      assert Denials(s, operation) <= Denials(t, operation);
    }
  }

  lemma PerformExtends(s: Ledger, action: Action, now: int)
    requires Perform(s, action, now).Ok?
    ensures Extends(s, Perform(s, action, now).value.next)
  {
    hide ValidLedger, ValidClaim, Used, LimitOf, ProviderOf, BUDGET;
  }

  /** The revision moves exactly when the ledger changes, so equal revisions along a run mean equal ledgers. */
  lemma RevisionMovesWithState(s: Ledger, action: Action, now: int)
    requires Perform(s, action, now).Ok?
    ensures var t := Perform(s, action, now).value.next; t.revision == s.revision + if t == s then 0 else 1
  {
    hide ValidLedger, ValidClaim;
  }

  // ---------------------------------------------------------------- every run of every number of clients

  /** What one committed call does to the stored value. */
  lemma WriteKeeps(call: Call, v: Option<Ledger>, now: int)
    requires SafeStore(v) && ValidPricing(call.worker.pricing) && Write(call, v, now).Some?
    ensures var w := Write(call, v, now).value;
      && SafeStore(w) && w.Some? && Grows(v, w)
      && BalanceOf(w) == BalanceOf(v) + if call.action.CheckpointHit? then 1 else 0
  {
    hide Safe, Perform, Balance, Extends;
    var s := Decode(call.worker, v, now).value;
    NewLedgerIsSafe(call.worker, now);
    PerformKeepsSafe(s, call.action, now);
    SafeIsValid(s);
    PerformBalances(s, call.action, now);
    PerformExtends(s, call.action, now);
  }

  lemma SafeIsValid(s: Ledger)
    requires Safe(s)
    ensures ValidLedger(s)
  {
  }

  lemma NewLedgerIsSafe(worker: Worker, now: int)
    requires ValidPricing(worker.pricing)
    ensures Safe(NewLedger(worker, now)) && Balance(NewLedger(worker, now)) == 1
  {
    hide Balance, TotalDenials, LimitOf, ValidClaim, ValidPricing;
    NewLedgerBalance(worker, now);
    NothingUsed();
    var s := NewLedger(worker, now);
    assert UniqueIds(s.claims) && |s.claims| == 0;
  }

  lemma NothingUsed()
    ensures WithinLimits([])
  {
    hide LimitOf;
  }

  lemma NewLedgerBalance(worker: Worker, now: int)
    ensures Balance(NewLedger(worker, now)) == 1
  {
    NoDenials(OPERATIONS);
  }

  lemma {:induction false} NoDenials(operations: seq<Operation>)
    ensures DenialsOf(map[], operations) == 0
  {
    if operations != [] {
      NoDenials(operations[1..]);
    }
  }

  ghost predicate ValidWorkers(commits: seq<Commit<Call>>) {
    forall k | 0 <= k < |commits| :: ValidPricing(commits[k].call.worker.pricing)
  }

  lemma {:induction false} SequenceKeeps(v: Option<Ledger>, commits: seq<Commit<Call>>)
    requires SafeStore(v) && ValidWorkers(commits) && Sequential(v, commits, Write).Some?
    ensures var w := Sequential(v, commits, Write).value;
      && SafeStore(w) && Grows(v, w) && BalanceOf(w) == BalanceOf(v) + HitCalls(commits)
      && (commits != [] ==> w.Some?)
    decreases |commits|
  {
    if commits == [] {
      if v.Some? {
        PerformExtends(v.value, Ensure, 0);
      }
    } else {
      hide Safe, Balance, Extends, Write;
      var first := Write(commits[0].call, v, commits[0].now).value;
      WriteKeeps(commits[0].call, v, commits[0].now);
      assert ValidWorkers(commits[1..]);
      SequenceKeeps(first, commits[1..]);
      var w := Sequential(v, commits, Write).value;
      if v.Some? {
        ExtendsTransitive(v.value, first.value, w.value);
      }
    }
  }

  ghost predicate ValidCalls(events: seq<Event<Call>>) {
    forall k | 0 <= k < |events| && events[k].Execute? :: ValidPricing(events[k].call.worker.pricing)
  }

  lemma {:induction false} CommitsAreValid(s: System<Option<Ledger>>, events: seq<Event<Call>>)
    requires ValidCalls(events)
    ensures ValidWorkers(Commits(s, events, Write))
    decreases |events|
  {
    if events != [] {
      hide Write;
      CommitsAreValid(Optimistic.Step(s, events[0], Write), events[1..]);
    }
  }

  /**
   For any number of clients and any interleaving of their commands, starting without a ledger: the stored ledger
   is valid (unique claim ids, at most 100 claims, phase attempts summing to the job attempts), no operation has
   more claims than its limit, and the revision accounts for everything that happened.
   */
  lemma EveryRunIsSafe(s: System<Option<Ledger>>, events: seq<Event<Call>>, ledger: Ledger)
    requires Consistent(s) && s.key.value.None? && ValidCalls(events)
    requires Run(s, events, Write).key.value == Some(ledger)
    ensures ValidLedger(ledger) && |ledger.claims| <= 100
    ensures forall operation | operation in BUDGET ::
              |ClaimsOf(ledger.claims, operation)| <= BUDGET[operation].1
    ensures ledger.phaseAttempts.Some? ==> PhaseTotal(ledger.phaseAttempts.value) == ledger.jobAttempts
    ensures ledger.revision ==
            1 + |ledger.claims| + CompletedCount(ledger.claims) + TotalDenials(ledger) + ledger.jobAttempts
                               + HitCalls(Commits(s, events, Write))
  {
    hide Write, ValidLedger, WithinLimits, TotalDenials;
    RunIsSequential(s, events, Write);
    CommitsAreValid(s, events);
    SequenceKeeps(s.key.value, Commits(s, events, Write));
    SafeKeepsPhases(ledger);
    SafeKeepsBudget(ledger);
  }

  /** No operation has more claims than its number allows. */
  lemma SafeKeepsBudget(s: Ledger)
    requires Safe(s)
    ensures |s.claims| <= 100
    ensures forall operation | operation in BUDGET :: |ClaimsOf(s.claims, operation)| <= BUDGET[operation].1
  {
    hide ValidClaim, Used, ClaimsOf, BUDGET, LimitOf;
    forall operation | operation in BUDGET ensures |ClaimsOf(s.claims, operation)| <= BUDGET[operation].1 {
      UsedIsSize(s.claims, operation);
      BudgetIs(operation);
    }
  }

  lemma SafeKeepsPhases(s: Ledger)
    requires Safe(s)
    ensures ValidLedger(s)
    ensures s.phaseAttempts.Some? ==> PhaseTotal(s.phaseAttempts.value) == s.jobAttempts
  {
  }

  /**
   From any stored ledger on, no interleaving loses a claim, changes a completed one, or touches the price catalog.
   */
  lemma EveryRunExtends(s: System<Option<Ledger>>, events: seq<Event<Call>>, before: Ledger)
    requires Consistent(s) && s.key.value == Some(before) && Safe(before) && ValidCalls(events)
    ensures var after := Run(s, events, Write).key.value;
      after.Some? && Safe(after.value) && Extends(before, after.value)
  {
    hide Write, Safe, Extends;
    RunIsSequential(s, events, Write);
    CommitsAreValid(s, events);
    SequenceKeeps(s.key.value, Commits(s, events, Write));
  }

  // ---------------------------------------------------------------- replays

  lemma FoundAt(claims: seq<Claim>, i: nat)
    requires UniqueIds(claims) && i < |claims|
    ensures Find(claims, claims[i].id) == i
  {
  }

  /** Claiming a used id again, at any later point of any run, gives the recorded claim and changes nothing. */
  lemma ClaimReplays(s: Ledger, i: nat, t: Ledger, operation: Operation, now: int)
    requires i < |s.claims| && Extends(s, t) && ValidLedger(t)
    ensures Perform(t, ClaimAttempt(operation, s.claims[i].id), now) ==
            if operation == s.claims[i].operation then Ok(Effect(t, Claimed(t.claims[i]))) else Err(ClaimConflict)
  {
    assert Later(s.claims[i], t.claims[i]);
    FoundAt(t.claims, i);
    hide ValidLedger;
  }

  predicate Matches(c: Claim, report: Report) {
    && Completed(c) && c == Reported(c, report, if c.completedAt.Some? then c.completedAt.value else 0)
  }

  /** A committed completion has recorded its report. */
  lemma CompletionRecords(s: Ledger, id: ClaimId, report: Report, now: int)
    requires ValidLedger(s) && Perform(s, Complete(id, report), now).Ok?
    ensures var t := Perform(s, Complete(id, report), now).value.next;
      Find(s.claims, id) < |t.claims| && t.claims[Find(s.claims, id)].id == id &&
          Matches(t.claims[Find(s.claims, id)], report)
  {
    hide ValidLedger;
    ValidCompletion(s, Find(s.claims, id));
  }

  lemma ValidCompletion(s: Ledger, i: nat)
    requires ValidLedger(s) && i <= |s.claims|
    ensures i < |s.claims| ==> ValidClaim(s.claims[i])
  {
  }

  /**
   Completing a completed claim again, at any later point of any run, never changes the ledger: the same report
   gives the recorded claim back (unless the clock runs before the claim), another report is refused.
   */
  lemma CompletionReplays(s: Ledger, i: nat, report: Report, t: Ledger, again: Report, now: int)
    requires i < |s.claims| && Matches(s.claims[i], report) && Extends(s, t) && ValidLedger(t)
    ensures t.claims[i] == s.claims[i]
    ensures var r := Perform(t, Complete(s.claims[i].id, again), now);
      if again == report && s.claims[i].claimedAt <= now then r == Ok(Effect(t, Claimed(s.claims[i]))) else r.Err?
  {
    assert Later(s.claims[i], t.claims[i]);
    FoundAt(t.claims, i);
    ValidCompletion(t, i);
    hide ValidLedger;
  }

  // ---------------------------------------------------------------- the 101st claim

  lemma {:induction false} UsedOfEmpty(operations: seq<Operation>)
    ensures UsedOf([], operations) == 0
  {
    if operations != [] {
      UsedOfEmpty(operations[1..]);
    }
  }

  lemma {:induction false} UsedOfLast(claims: seq<Claim>, operations: seq<Operation>)
    requires claims != [] && Distinct(operations)
    ensures UsedOf(claims, operations) ==
            UsedOf(claims[..|claims| - 1], operations) + if claims[|claims| - 1].operation in operations then 1 else 0
  {
    if operations != [] {
      UsedOfLast(claims, operations[1..]);
      assert operations == [operations[0]] + operations[1..];
    }
  }

  /** The claims are the claims of all operations together. */
  lemma {:induction false} UsedTotals(claims: seq<Claim>)
    ensures UsedOf(claims, OPERATIONS) == |claims|
  {
    if claims == [] {
      UsedOfEmpty(OPERATIONS);
    } else {
      UsedTotals(claims[..|claims| - 1]);
      OperationsDistinct();
      UsedOfLast(claims, OPERATIONS);
      EveryOperationListed(claims[|claims| - 1].operation);
    }
  }

  lemma {:induction false} SomeBelowLimit(claims: seq<Claim>, operations: seq<Operation>) returns (operation: Operation)
    requires UsedOf(claims, operations) < LimitsOf(operations)
    ensures Used(claims, operation) < LimitOf(operation)
  {
    if Used(claims, operations[0]) < LimitOf(operations[0]) {
      operation := operations[0];
    } else {
      operation := SomeBelowLimit(claims, operations[1..]);
    }
  }

  /**
   When a fresh claim below its operation's limit goes through: exactly while the ledger has room for it and the clock
   is not before the ledger's creation.
   */
  lemma FreshClaimCommits(s: Ledger, operation: Operation, id: ClaimId, now: int)
    requires Safe(s) && Find(s.claims, id) == |s.claims| && Used(s.claims, operation) < LimitOf(operation)
    ensures Perform(s, ClaimAttempt(operation, id), now).Ok? <==>
            |s.claims| < 100 && s.createdAt <= now
  {
    var t := ClaimEffect(s, operation, id, now).value.next;
    assert t == Touched(s, now).(claims := s.claims + [NewClaim(operation, id, now)], schema := t.schema);
    assert Perform(s, ClaimAttempt(operation, id), now).Ok? <==>
          ValidLedger(t) by { hide ValidLedger, Used, LimitOf, Safe, Find; }
    OneMoreClaim(s, t, NewClaim(operation, id, now), now);
  }

  /** A new claim keeps the ledger valid exactly while there is room and the clock is right. */
  lemma OneMoreClaim(s: Ledger, t: Ledger, claim: Claim, now: int)
    requires ValidLedger(s) && ValidClaim(claim)
    requires forall j | 0 <= j < |s.claims| :: s.claims[j].id != claim.id
    requires t == Touched(s, now).(claims := s.claims + [claim], schema := t.schema)
    ensures ValidLedger(t) <==> |s.claims| < MAX_LEDGER_CLAIMS && s.createdAt <= now
  {
    hide ValidClaim, ValidPricing, PhaseTotal, LimitOf, ProviderOf;
    assert UniqueIds(t.claims);
  }

  /** A full ledger refuses, without a write, some operation that is still below its own limit. */
  lemma FullLedgerRefuses(s: Ledger, id: ClaimId, now: int) returns (operation: Operation)
    requires Safe(s) && |s.claims| == 100 && Find(s.claims, id) == |s.claims|
    ensures operation in BUDGET && |ClaimsOf(s.claims, operation)| < BUDGET[operation].1
    ensures Perform(s, ClaimAttempt(operation, id), now) == Err(InvalidLedger)
  {
    operation := RoomSomewhere(s.claims);
    BudgetIs(operation);
    UsedIsSize(s.claims, operation);
    hide ValidClaim, TotalDenials, WithinLimits, Used, ClaimsOf, BUDGET, LimitOf;
    var t := ClaimEffect(s, operation, id, now).value.next;
    assert |t.claims| > MAX_LEDGER_CLAIMS;
  }

  const NOTHING_STORED: System<Option<Ledger>> := System(Key(None, 0), [Idle])

  /** Any number of claims up to 100 is reached by a run: one client, one claim after the other. */
  lemma {:induction false} LedgerFillsUp(worker: Worker, now: int, n: nat)
    returns (events: seq<Event<Call>>, ledger: Ledger)
    requires ValidPricing(worker.pricing) && !worker.requireExisting && worker.createdAt <= now && n <= 100
    ensures ValidCalls(events)
    ensures Run(NOTHING_STORED, events, Write).clients == [Idle]
    ensures Run(NOTHING_STORED, events, Write).key.value == Some(ledger)
    ensures Safe(ledger) && |ledger.claims| == n && ledger.createdAt == worker.createdAt
    ensures forall i | 0 <= i < n :: |ledger.claims[i].id.text| == i
  {
    hide Write, Safe, ValidLedger, Perform, Run, ValidPricing, Used, LimitOf, Find;
    if n == 0 {
      events := CallOf(Call(worker, Ensure), now);
      ledger := LedgerCreated(worker, now);
    } else {
      var before, s := LedgerFillsUp(worker, now, n - 1);
      var operation := RoomSomewhere(s.claims);
      var id := ClaimId(seq(n - 1, _ => 'a'));
      var call := Call(worker, ClaimAttempt(operation, id));
      ledger := ClaimedOnce(s, operation, id, worker, now);
      events := before + CallOf(call, now);
      CallAlone(Run(NOTHING_STORED, before, Write), call, now, Write);
      RunAppend(NOTHING_STORED, before, CallOf(call, now), Write);
    }
  }

  lemma LedgerCreated(worker: Worker, now: int) returns (ledger: Ledger)
    requires ValidPricing(worker.pricing) && !worker.requireExisting
    ensures ledger == NewLedger(worker, now) && Safe(ledger)
    ensures var t := Run(NOTHING_STORED, CallOf(Call(worker, Ensure), now), Write);
      t.clients == [Idle] && t.key.value == Some(ledger)
  {
    hide Write, Safe, ValidLedger, Run, NewLedger;
    ledger := NewLedger(worker, now);
    NewLedgerIsSafe(worker, now);
    EnsureWrites(worker, now);
    CallAlone(NOTHING_STORED, Call(worker, Ensure), now, Write);
  }

  lemma EnsureWrites(worker: Worker, now: int)
    requires Safe(NewLedger(worker, now)) && !worker.requireExisting
    ensures Write(Call(worker, Ensure), None, now) == Some(Some(NewLedger(worker, now)))
  {
    SafeIsValid(NewLedger(worker, now));
    hide Safe, ValidLedger, NewLedger;
  }

  /** A fresh claim with room for it is written. */
  lemma ClaimedOnce(s: Ledger, operation: Operation, id: ClaimId, worker: Worker, now: int) returns (t: Ledger)
    requires Safe(s) && (forall i | 0 <= i < |s.claims| :: s.claims[i].id != id)
    requires Used(s.claims, operation) < LimitOf(operation) && s.createdAt <= now && |s.claims| < MAX_LEDGER_CLAIMS
    ensures Write(Call(worker, ClaimAttempt(operation, id)), Some(s), now) == Some(Some(t))
    ensures Safe(t) && t.claims == s.claims + [NewClaim(operation, id, now)] && t.createdAt == s.createdAt
  {
    FreshClaimCommits(s, operation, id, now);
    PerformKeepsSafe(s, ClaimAttempt(operation, id), now);
    SafeIsValid(s);
    hide Safe, ValidLedger, Used, LimitOf;
    t := Perform(s, ClaimAttempt(operation, id), now).value.next;
  }

  /** A full ledger does come about, and the next claim of some operation is refused although it is below its limit. */
  lemma FullLedgerIsReached(worker: Worker, now: int)
    returns (events: seq<Event<Call>>, ledger: Ledger, operation: Operation, id: ClaimId)
    requires ValidPricing(worker.pricing) && !worker.requireExisting && worker.createdAt <= now
    ensures ValidCalls(events) && Run(NOTHING_STORED, events, Write).key.value == Some(ledger)
    ensures |ledger.claims| == 100
    ensures operation in BUDGET && |ClaimsOf(ledger.claims, operation)| < BUDGET[operation].1
    ensures Write(Call(worker, ClaimAttempt(operation, id)), Some(ledger), now) == None
  {
    events, ledger := LedgerFillsUp(worker, now, MAX_LEDGER_CLAIMS);
    id := ClaimId(seq(MAX_LEDGER_CLAIMS, _ => 'a'));
    assert Find(ledger.claims, id) == |ledger.claims|;
    operation := FullLedgerRefuses(ledger, id, now);
    hide Safe, ValidLedger, Run, Perform, ClaimsOf, BUDGET;
  }

  /** The limits add up to 115, so fewer claims leave some operation below its limit. */
  lemma RoomSomewhere(claims: seq<Claim>) returns (operation: Operation)
    requires |claims| < 115
    ensures Used(claims, operation) < LimitOf(operation)
  {
    UsedTotals(claims);
    LimitsTotal();
    operation := SomeBelowLimit(claims, OPERATIONS);
  }
}
