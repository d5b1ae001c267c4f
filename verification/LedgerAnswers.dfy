/**
 What each call of app/jobs_v22/cost_ledger.py answers and stores, with every number the source fixes: the budget of
 each operation and the bounds of the validators that run again before a write.
 */
module LedgerAnswers {
  import opened Base
  import opened CostModels
  import opened CostLedger

  ghost predicate Fresh(s: Ledger, id: ClaimId) {
    forall i | 0 <= i < |s.claims| :: s.claims[i].id != id
  }

  /** The ledger's answer to a fresh claim, from the number of claims its operation already has. */
  lemma FreshClaimAnswer(s: Ledger, operation: Operation, id: ClaimId, now: int)
    requires Safe(s) && Fresh(s, id)
    ensures operation in BUDGET && |ClaimsOf(s.claims, operation)| <= BUDGET[operation].1
    ensures var r := Perform(s, ClaimAttempt(operation, id), now);
      if |ClaimsOf(s.claims, operation)| == BUDGET[operation].1 then
        var denied := if operation in s.denials then s.denials[operation] else 0;
        if s.createdAt <= now && denied < 1_000_000 then
          r == Ok(Effect(s.(revision := s.revision + 1, updatedAt := now,
                            denials := s.denials[operation := denied + 1]),
                         LimitExceeded(operation)))
        else r == Err(InvalidLedger)
      else if s.createdAt <= now && |s.claims| < 100 then
        var claim := Claim(id, operation, BUDGET[operation].0, now, None, None, None, 1, false, None, None, None);
        r == Ok(Effect(s.(revision := s.revision + 1, updatedAt := now, claims := s.claims + [claim],
                          schema := if operation == FirecrawlScrape then LedgerV2 else s.schema),
                       Claimed(claim)))
      else r == Err(InvalidLedger)
  {
    BudgetIs(operation);
    UsedIsSize(s.claims, operation);
    assert Used(s.claims, operation) <= LimitOf(operation);
    hide ValidLedger, Used, LimitOf, ClaimsOf, BUDGET, Perform, Safe, ProviderOf, Find, Fresh;
    if Used(s.claims, operation) < LimitOf(operation) {
      Granted(s, operation, id, now);
    } else {
      Denied(s, operation, id, now);
    }
  }

  lemma Granted(s: Ledger, operation: Operation, id: ClaimId, now: int)
    requires Safe(s) && Fresh(s, id) && Used(s.claims, operation) < LimitOf(operation)
    ensures var claim := Claim(id, operation, ProviderOf(operation), now, None, None, None, 1, false, None, None, None);
      Perform(s, ClaimAttempt(operation, id), now) ==
        if s.createdAt <= now && |s.claims| < 100 then
          Ok(Effect(s.(revision := s.revision + 1, updatedAt := now, claims := s.claims + [claim],
                       schema := if operation == FirecrawlScrape then LedgerV2 else s.schema),
                    Claimed(claim)))
        else Err(InvalidLedger)
  {
    assert Find(s.claims, id) == |s.claims|;
    hide ValidLedger, Used, LimitOf, Safe, ProviderOf;
    FreshClaimCommits(s, operation, id, now);
  }

  lemma Denied(s: Ledger, operation: Operation, id: ClaimId, now: int)
    requires Safe(s) && Fresh(s, id) && Used(s.claims, operation) >= LimitOf(operation)
    ensures var denied := if operation in s.denials then s.denials[operation] else 0;
      Perform(s, ClaimAttempt(operation, id), now) ==
        if s.createdAt <= now && denied < 1_000_000 then
          Ok(Effect(s.(revision := s.revision + 1, updatedAt := now, denials := s.denials[operation := denied + 1]),
                    LimitExceeded(operation)))
        else Err(InvalidLedger)
  {
    SafeIsValid(s);
    assert Find(s.claims, id) == |s.claims|;
    OneMoreDenial(s, operation, now);
    hide ValidLedger, Used, LimitOf, Safe;
  }

  lemma OneMoreDenial(s: Ledger, operation: Operation, now: int)
    requires ValidLedger(s)
    ensures ValidLedger(Touched(s, now).(denials := s.denials[operation := Denials(s, operation) + 1])) <==>
            s.createdAt <= now && Denials(s, operation) < 1_000_000
  {
    hide ValidClaim, ValidPricing, PhaseTotal;
    var t := Touched(s, now).(denials := s.denials[operation := Denials(s, operation) + 1]);
    assert t.denials[operation] == Denials(s, operation) + 1;
  }

  /** A hit is counted exactly for a count from 1 to 10 000 that keeps the total within a million. */
  lemma HitAnswer(s: Ledger, count: int, now: int)
    requires ValidLedger(s)
    ensures Perform(s, CheckpointHit(count), now) ==
            if count < 1 || count > 10_000 then Err(BadArgument)
            else if s.checkpointHits + count <= 1_000_000 && s.createdAt <= now then
              Ok(Effect(s.(revision := s.revision + 1, updatedAt := now,
                           checkpointHits := s.checkpointHits + count), Done))
            else Err(InvalidLedger)
  {
    hide ValidClaim, ValidPricing, PhaseTotal;
  }

  /** An attempt is counted, in total and in its phase, below a hundred attempts and within the time that fits. */
  lemma AttemptAnswer(s: Ledger, elapsedMs: int, phase: AttemptPhase, now: int)
    requires ValidLedger(s)
    ensures Perform(s, JobAttempt(elapsedMs, phase), now) ==
            if elapsedMs < 0 || elapsedMs > 86_400_000 then Err(BadArgument)
            else if s.jobAttempts < 100 && s.activeElapsedMs + elapsedMs <= 1_000_000_000_000_000 &&
                    s.createdAt <= now then
              Ok(Effect(s.(revision := s.revision + 1, updatedAt := now, jobAttempts := s.jobAttempts + 1,
                           activeElapsedMs := s.activeElapsedMs + elapsedMs,
                           phaseAttempts := OneMore(s.phaseAttempts, phase)), Done))
            else Err(InvalidLedger)
  {
    hide ValidClaim, ValidPricing;
  }

  ghost function OneMore(phases: Option<map<AttemptPhase, int>>, phase: AttemptPhase): Option<map<AttemptPhase, int>> {
    if phases.None? then None
    else Some(phases.value[phase := if phase in phases.value then phases.value[phase] + 1 else 1])
  }

  /** What a report must look like for a claim made at `claimedAt` to a provider. */
  ghost predicate ReportFits(report: Report, provider: Provider, claimedAt: int, now: int) {
    && claimedAt <= now
    && 0 <= report.durationMs <= 86_400_000 && 1 <= report.billableUnits <= 1_000_000
    && match (report.inputTokens, report.outputTokens, report.totalTokens)
       case (None, None, None) => !report.usageKnown
       case (Some(input), Some(output), Some(total)) =>
         && report.usageKnown && provider == Dify && total == input + output
         && 0 <= input <= 100_000_000 && 0 <= output <= 100_000_000
       case _ => false
  }

  /** The claim with the report written into it. */
  ghost predicate HasReport(c: Claim, report: Report) {
    && c.outcome == Some(report.outcome) && c.durationMs == Some(report.durationMs)
    && c.billableUnits == report.billableUnits && c.usageKnown == report.usageKnown
    && c.inputTokens == report.inputTokens && c.outputTokens == report.outputTokens
    && c.totalTokens == report.totalTokens
  }

  /** Completing an unknown claim. */
  lemma UnknownClaimAnswer(s: Ledger, id: ClaimId, report: Report, now: int)
    requires Fresh(s, id)
    ensures Perform(s, Complete(id, report), now) == Err(ClaimConflict)
  {
  }

  /** Completing claim `i`: a fitting first report is written into it and into nothing else. */
  lemma CompletionAnswer(s: Ledger, i: nat, report: Report, now: int)
    requires ValidLedger(s) && i < |s.claims|
    ensures var c := s.claims[i];
      var r := Perform(s, Complete(c.id, report), now);
      if !ReportFits(report, c.provider, c.claimedAt, now) then r == Err(InvalidLedger)
      else if c.outcome.Some? then
        r == if HasReport(c, report) then Ok(Effect(s, Claimed(c))) else Err(ClaimConflict)
      else if s.createdAt > now then r == Err(InvalidLedger)
      else r.Ok? && FirstReport(s, i, report, now, r.value)
  {
    FoundAt(s.claims, i);
    ValidCompletion(s, i);
    FitIsValid(s.claims[i], report, now);
    if !Completed(s.claims[i]) && ValidClaim(Reported(s.claims[i], report, now)) {
      OneCompletion(s, i, Reported(s.claims[i], report, now), now);
    }
    hide ValidLedger, ValidClaim, ReportFits;
  }

  ghost predicate FirstReport(s: Ledger, i: nat, report: Report, now: int, e: Effect)
    requires i < |s.claims|
  {
    && |e.next.claims| == |s.claims|
    && var c, d := s.claims[i], e.next.claims[i];
    && HasReport(d, report) && d.completedAt == Some(now)
    && d.id == c.id && d.operation == c.operation && d.provider == c.provider && d.claimedAt == c.claimedAt
    && e.next == s.(revision := s.revision + 1, updatedAt := now, claims := s.claims[i := d])
    && e.reply == Claimed(d)
  }

  lemma FitIsValid(c: Claim, report: Report, now: int)
    requires ValidClaim(c)
    ensures ValidClaim(Reported(c, report, now)) <==> ReportFits(report, c.provider, c.claimedAt, now)
  {
  }

  lemma OneCompletion(s: Ledger, i: nat, d: Claim, now: int)
    requires ValidLedger(s) && i < |s.claims| && ValidClaim(d) && d.id == s.claims[i].id
    ensures ValidLedger(Touched(s, now).(claims := s.claims[i := d])) <==> s.createdAt <= now
  {
    hide ValidClaim, ValidPricing, PhaseTotal;
  }

  /**
   The first call creates a ledger exactly where none is required and the worker's catalog is complete and in range.
   */
  lemma FirstCallAnswer(worker: Worker, now: int)
    ensures var r := Answer(Call(worker, Ensure), None, now);
      var prices := worker.pricing;
      (r.Ok? <==>
         && !worker.requireExisting && 1 <= prices.revision <= 1_000_000 &&
            (forall provider :: provider in prices.request)
         && (prices.inputRate.Some? ==> 0 <= prices.inputRate.value <= 1_000_000_000_000_000)
         && (prices.outputRate.Some? ==> 0 <= prices.outputRate.value <= 1_000_000_000_000_000))
  {
    StartingLedger(worker, None, now);
  }

  /** What a call starts from: the stored ledger if it is valid, a new one where none is stored and none is required. */
  lemma StartingLedger(worker: Worker, raw: Option<Ledger>, now: int)
    ensures Decode(worker, raw, now) ==
            if raw.Some? then (if ValidLedger(raw.value) then Ok(raw.value) else Err(LedgerUnavailable))
            else if worker.requireExisting then Err(RecoveryRequired)
            else Ok(Ledger(LedgerV1, 1, worker.pricing, worker.createdAt,
                           if worker.createdAt <= now then now else worker.createdAt,
                           [], map[], 0, 0, Some(map[]), 0))
  {
  }
}
