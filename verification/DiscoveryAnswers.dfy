/**
 What the calls of app/competitors_v22/store.py answer to what they have read, field by field: which calls are
 refused and how, and what exactly is stored otherwise.
 */
module DiscoveryAnswers {
  import opened Base
  import opened DiscoveryModels

  /** What the validator asks of the values of a transition. */
  ghost predicate UpdateFits(s: State, u: Update, now: int) {
    && 0 <= u.progress <= 100 && 1 <= |u.message| <= 500 && (u.attemptCount.Some? ==> u.attemptCount.value >= 0)
    && s.createdAt <= now
    && (u.status == Succeeded ==>
          && u.result.Some? && u.error.None? && u.stage == StageCompleted && u.progress == 100
          && u.result.value.discoveryId == s.job && u.result.value.caseId == s.caseId)
    && (u.status == Failed ==> u.error.Some? && u.result.None? && u.stage == StageFailed)
    && (u.status == Queued || u.status == Running ==> u.result.None? && u.error.None?)
  }

  /** What an applied transition leaves of a job: the update's values, the job's identity, and the times. */
  ghost predicate IsUpdate(before: State, after: State, update: Update, now: int) {
    && after.status == update.status && after.stage == update.stage && after.progress == update.progress
    && after.message == update.message && after.result == update.result && after.error == update.error
    && after.job == before.job && after.caseId == before.caseId && after.createdAt == before.createdAt
    && after.requestDigest == before.requestDigest && after.keyDigest == before.keyDigest
    && after.generation == before.generation && after.revision == before.revision + 1 && after.updatedAt == now
    && (update.status == Succeeded || update.status == Failed ==> after.completedAt == Some(now))
    && (update.status == Queued || update.status == Running ==> after.completedAt == None)
    && (update.attemptCount.None? ==> after.attemptCount == before.attemptCount)
    && (update.attemptCount.Some? ==> after.attemptCount == update.attemptCount.value)
    && (update.heartbeatAt.Some? ==> after.heartbeatAt == update.heartbeatAt)
    && (update.heartbeatAt.None? && update.status == Running ==> after.heartbeatAt == Some(now))
    && (update.heartbeatAt.None? && update.status != Running ==> after.heartbeatAt == before.heartbeatAt)
  }

  /** A finished job stays as it is; otherwise the edge and then the values decide. */
  lemma TransitionAnswer(call: Call, s: State)
    requires call.Transition? && ValidState(s)
    ensures var r := DecideTransition(call, Some(s));
      if s.status == Succeeded || s.status == Failed then r == Ok(Keep(s))
      else if (s.status, call.update.status) !in EDGES then r == Err(InvalidTransition)
      else if !UpdateFits(s, call.update, call.now) then r == Err(InvalidState)
      else r.Ok? && r.value.Store? && IsUpdate(s, r.value.state, call.update, call.now)
  {
  }

  lemma NoJobAnswer(call: Call)
    requires call.Transition? || call.Retry?
    ensures Decide(call, None, None) == Err(JobNotFound)
  {
  }

  /** A retryable failure is queued again, under the next generation, unless the clock is before its creation. */
  lemma RetryAnswer(call: Call, s: State)
    requires call.Retry? && ValidState(s)
    ensures DecideRetry(call, Some(s)) ==
            if s.status != Failed || !s.error.value.retryable then Err(NotRetryable)
            else if call.now < s.createdAt then Err(InvalidState)
            else Ok(Store(Requeued(s, call.now)))
  {
  }

  ghost function Requeued(s: State, now: int): State {
    State(s.job, s.caseId, Queued, StageQueued, 0, "Queued for a manual retry.", s.attemptCount, s.generation + 1,
          s.revision + 1, s.requestDigest, s.keyDigest, None, s.createdAt, now, None, None, None)
  }

  /** The state belongs to the case, the request and the key of the registration. */
  ghost predicate SameRequest(call: Call, s: State)
    requires call.Register?
  {
    s.caseId == call.caseId && s.requestDigest.of == call.payload && s.keyDigest.of == call.key
  }

  /** A registration replays, conflicts, or creates a queued job with these values. */
  lemma RegistrationAnswer(call: Call, identity: Option<Identity>, state: Option<State>)
    requires call.Register?
    ensures var r := DecideRegister(call, identity, state);
      if identity.Some? && identity.value.requestDigest.of != call.payload then r == Err(IdempotencyConflict)
      else if identity.Some? then
        r == if identity.value.job == call.job && state.Some? then Ok(Keep(state.value)) else Err(JobIdentityConflict)
      else if state.Some? then
        r == if SameRequest(call, state.value) then Ok(Keep(state.value)) else Err(JobIdentityConflict)
      else r == Ok(Create(State(
        call.job, call.caseId, Queued, StageQueued, 0, "Queued. Competitor discovery will begin shortly.", 0, 1, 1,
        RequestDigest(call.payload), KeyDigest(call.key), None, call.now, call.now, None, None, None)))
  {
  }
}
