/** What the ledger of app/jobs_v22/cost_ledger.py has counted is what was committed, call by call. */
module LedgerAccounts {
  import opened Base
  import opened CostModels
  import opened Optimistic
  import opened CostLedger

  function HitAmount(action: Action): int {
    if action.CheckpointHit? then action.count else 0
  }

  function AttemptAmount(action: Action): int {
    if action.JobAttempt? then 1 else 0
  }

  function ElapsedAmount(action: Action): int {
    if action.JobAttempt? then action.elapsedMs else 0
  }

  function PhaseAmount(action: Action, phase: AttemptPhase): int {
    if action.JobAttempt? && action.phase == phase then 1 else 0
  }

  /** The counts of the committed checkpoint hits, added up; likewise below. */
  function HitTotal(commits: seq<Commit<Call>>): int {
    if commits == [] then 0 else HitAmount(commits[0].call.action) + HitTotal(commits[1..])
  }

  function AttemptTotal(commits: seq<Commit<Call>>): int {
    if commits == [] then 0 else AttemptAmount(commits[0].call.action) + AttemptTotal(commits[1..])
  }

  function ElapsedTotal(commits: seq<Commit<Call>>): int {
    if commits == [] then 0 else ElapsedAmount(commits[0].call.action) + ElapsedTotal(commits[1..])
  }

  function PhaseCommits(commits: seq<Commit<Call>>, phase: AttemptPhase): int {
    if commits == [] then 0 else PhaseAmount(commits[0].call.action, phase) + PhaseCommits(commits[1..], phase)
  }

  function PhasesOf(s: Ledger, phase: AttemptPhase): int {
    if s.phaseAttempts.None? then 0 else PhaseCount(s.phaseAttempts.value, phase)
  }

  /** `t` has counted exactly this much more than `s`. */
  ghost predicate Counted(s: Ledger, t: Ledger, hits: int, attempts: int, elapsed: int, phases: AttemptPhase -> int) {
    && t.checkpointHits == s.checkpointHits + hits
    && t.jobAttempts == s.jobAttempts + attempts
    && t.activeElapsedMs == s.activeElapsedMs + elapsed
    && t.phaseAttempts.Some? == s.phaseAttempts.Some?
    && (s.phaseAttempts.Some? ==> forall phase :: PhasesOf(t, phase) == PhasesOf(s, phase) + phases(phase))
  }

  lemma PerformCounts(s: Ledger, action: Action, now: int)
    requires Perform(s, action, now).Ok?
    ensures Counted(s, Perform(s, action, now).value.next, HitAmount(action), AttemptAmount(action),
                    ElapsedAmount(action), phase => PhaseAmount(action, phase))
  {
    hide ValidLedger, ValidClaim;
  }

  /** What the stored value had counted; a missing ledger has counted nothing. */
  ghost predicate CountedFrom(v: Option<Ledger>, t: Ledger, hits: int, attempts: int, elapsed: int,
          phases: AttemptPhase -> int)
  {
    match v
    case Some(s) => Counted(s, t, hits, attempts, elapsed, phases)
    case None =>
      && t.checkpointHits == hits && t.jobAttempts == attempts && t.activeElapsedMs == elapsed
      && t.phaseAttempts.Some? && forall phase :: PhasesOf(t, phase) == phases(phase)
  }

  lemma WriteCounts(call: Call, v: Option<Ledger>, now: int)
    requires Write(call, v, now).Some?
    ensures Write(call, v, now).value.Some?
    ensures CountedFrom(v, Write(call, v, now).value.value, HitAmount(call.action), AttemptAmount(call.action),
                        ElapsedAmount(call.action), phase => PhaseAmount(call.action, phase))
  {
    PerformCounts(Decode(call.worker, v, now).value, call.action, now);
    hide Perform, ValidLedger;
  }

  lemma {:induction false} SequenceCounts(v: Option<Ledger>, commits: seq<Commit<Call>>)
    requires commits != [] && Sequential(v, commits, Write).Some?
    ensures var w := Sequential(v, commits, Write).value;
      w.Some? && CountedFrom(v, w.value, HitTotal(commits), AttemptTotal(commits), ElapsedTotal(commits),
                             phase => PhaseCommits(commits, phase))
    decreases |commits|
  {
    hide Write, PhasesOf, HitAmount, AttemptAmount, ElapsedAmount, PhaseAmount;
    WriteCounts(commits[0].call, v, commits[0].now);
    var first := Write(commits[0].call, v, commits[0].now).value;
    if |commits| > 1 {
      SequenceCounts(first, commits[1..]);
      var w := Sequential(first, commits[1..], Write).value;
      forall phase ensures PhaseCommits(commits, phase) == PhaseAmount(commits[0].call.action, phase) +
            PhaseCommits(commits[1..], phase) {
      }
      assert CountedFrom(first, w.value, HitTotal(commits[1..]), AttemptTotal(commits[1..]), ElapsedTotal(commits[1..]),
                         phase => PhaseCommits(commits[1..], phase));
    } else {
      assert commits[1..] == [];
      forall phase ensures PhaseCommits(commits, phase) == PhaseAmount(commits[0].call.action, phase) {
        assert PhaseCommits(commits[1..], phase) == 0;
      }
    }
  }

  /**
   In every run of any number of clients that starts without a ledger, the checkpoint hits, job attempts, attempts
   of each phase and active time in the stored ledger are those of the committed calls, each counted once.
   */
  lemma EveryRunCounts(s: System<Option<Ledger>>, events: seq<Event<Call>>, ledger: Ledger)
    requires Consistent(s) && s.key.value.None?
    requires Run(s, events, Write).key.value == Some(ledger)
    ensures var commits := Commits(s, events, Write);
      && ledger.checkpointHits == HitTotal(commits) && ledger.jobAttempts == AttemptTotal(commits)
      && ledger.activeElapsedMs == ElapsedTotal(commits)
      && ledger.phaseAttempts.Some? && forall phase :: PhasesOf(ledger, phase) == PhaseCommits(commits, phase)
  {
    hide Write;
    RunIsSequential(s, events, Write);
    SequenceCounts(s.key.value, Commits(s, events, Write));
  }

  /** A claim call adds one fresh claim, or one denial of its operation at the limit, or changes nothing. */
  lemma ClaimOutcomes(s: Ledger, operation: Operation, id: ClaimId, now: int)
    requires ValidLedger(s) && Perform(s, ClaimAttempt(operation, id), now).Ok?
    ensures var e := Perform(s, ClaimAttempt(operation, id), now).value;
      var known := exists i :: 0 <= i < |s.claims| && s.claims[i].id == id;
      && (known ==> e.next == s && e.reply.Claimed? && e.reply.claim in s.claims)
      && operation in BUDGET
      && (!known && |ClaimsOf(s.claims, operation)| >= BUDGET[operation].1 ==>
            && e.reply == LimitExceeded(operation) && e.next.claims == s.claims
            && forall o :: Denials(e.next, o) == Denials(s, o) + if o == operation then 1 else 0)
      && (!known && |ClaimsOf(s.claims, operation)| < BUDGET[operation].1 ==>
            && e.reply.Claimed? && e.next.claims == s.claims + [e.reply.claim]
            && e.reply.claim.id == id && e.reply.claim.operation == operation && !Completed(e.reply.claim)
            && forall o :: Denials(e.next, o) == Denials(s, o))
  {
    BudgetIs(operation);
    UsedIsSize(s.claims, operation);
    hide ValidLedger, ValidClaim, LimitOf, Used, BUDGET, ClaimsOf;
    var i := Find(s.claims, id);
    if i < |s.claims| {
      assert s.claims[i] in s.claims;
    }
  }
}
