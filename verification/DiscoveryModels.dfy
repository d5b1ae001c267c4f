/**
 The stored state of a competitor-discovery job and its validator (app/competitors_v22/models.py), and the
 computations of `CompetitorDiscoveryStore` on what it has read (app/competitors_v22/store.py). Ids are opaque and
 digests are injective. Cost counters, diagnostics and the body of a result are left to their own validators.
 */
module DiscoveryModels {
  import opened Base

  datatype JobId = JobId(text: string)

  datatype CaseId = CaseId(text: string)

  /** `canonical_json_bytes` of a request, and its digest. */
  datatype Payload = Payload(text: string)

  datatype RequestDigest = RequestDigest(of: Payload)

  datatype KeyDigest = KeyDigest(of: string)

  datatype Status = Queued | Running | Succeeded | Failed

  datatype Stage = StageQueued | CollectingMarket | RankingCandidates | ValidatingSupplements | StageCompleted
      | StageFailed

  datatype DiscoveryResult = DiscoveryResult(discoveryId: JobId, caseId: CaseId)

  datatype DiscoveryError = DiscoveryError(code: string, retryable: bool)

  datatype State = State(
    job: JobId,
    caseId: CaseId,
    status: Status,
    stage: Stage,
    progress: int,
    message: string,
    attemptCount: int,
    generation: int,
    revision: int,
    requestDigest: RequestDigest,
    keyDigest: KeyDigest,
    heartbeatAt: Option<int>,
    createdAt: int,
    updatedAt: int,
    completedAt: Option<int>,
    result: Option<DiscoveryResult>,
    error: Option<DiscoveryError>)

  predicate Terminal(s: State) {
    s.status == Succeeded || s.status == Failed
  }

  /** `validate_lifecycle` and the field ranges. */
  predicate ValidState(s: State) {
    && 0 <= s.progress <= 100 && 1 <= |s.message| <= 500
    && s.attemptCount >= 0 && s.generation >= 1 && s.revision >= 1
    && s.createdAt <= s.updatedAt
    && (s.completedAt.Some? ==> s.createdAt <= s.completedAt.value)
    && match s.status {
         case Succeeded =>
           && s.result.Some? && s.error.None? && s.stage == StageCompleted && s.progress == 100 && s.completedAt.Some?
           && s.result.value.discoveryId == s.job && s.result.value.caseId == s.caseId
         case Failed => s.error.Some? && s.result.None? && s.stage == StageFailed && s.completedAt.Some?
         case _ => s.result.None? && s.error.None? && s.completedAt.None?
       }
  }

  /** The value of an idempotency key. */
  datatype Identity = Identity(job: JobId, caseId: CaseId, requestDigest: RequestDigest)

  /** The Redis key of an idempotency entry. */
  datatype IdemKey = IdemKey(caseId: CaseId, digest: KeyDigest)

  datatype Error = IdempotencyConflict | JobIdentityConflict | JobNotFound | InvalidTransition | InvalidState
      | NotRetryable

  datatype Update = Update(
    status: Status,
    stage: Stage,
    progress: int,
    message: string,
    attemptCount: Option<int>,
    heartbeatAt: Option<int>,
    result: Option<DiscoveryResult>,
    error: Option<DiscoveryError>)

  datatype Call =
    | Register(job: JobId, caseId: CaseId, key: string, payload: Payload, now: int)
    | Transition(job: JobId, update: Update, now: int)
    | Retry(job: JobId, now: int)

  /** What a call decides from what it read: keep the state it found, create a job, or store a new state. */
  datatype Decision = Keep(state: State) | Create(state: State) | Store(state: State)

  /** The ways a transition may go; nothing leads out of a finished job. */
  const EDGES: set<(Status, Status)> := {
    (Queued, Queued), (Queued, Running), (Queued, Failed),
    (Running, Running), (Running, Queued), (Running, Succeeded), (Running, Failed)}

  predicate Allowed(from: Status, to: Status) {
    match from
    case Queued => to == Queued || to == Running || to == Failed
    case Running => true
    case Succeeded => false
    case Failed => false
  }

  function Initial(call: Call): State
    requires call.Register?
  {
    State(call.job, call.caseId, Queued, StageQueued, 0, "Queued. Competitor discovery will begin shortly.", 0, 1, 1,
          RequestDigest(call.payload), KeyDigest(call.key), None, call.now, call.now, None, None, None)
  }

  function DecideRegister(call: Call, identity: Option<Identity>, state: Option<State>): Result<Decision, Error>
    requires call.Register?
  {
    if identity.Some? then
      if identity.value.requestDigest != RequestDigest(call.payload) then Err(IdempotencyConflict)
      else if identity.value.job != call.job then Err(JobIdentityConflict)
      else if state.None? then Err(JobIdentityConflict)
      else Ok(Keep(state.value))
    else if state.Some? then
      if state.value.caseId != call.caseId || state.value.requestDigest != RequestDigest(call.payload) ||
         state.value.keyDigest != KeyDigest(call.key)
      then Err(JobIdentityConflict)
      else Ok(Keep(state.value))
    else Ok(Create(Initial(call)))
  }

  function Updated(s: State, u: Update, now: int): State {
    s.(status := u.status, stage := u.stage, progress := u.progress, message := u.message,
       attemptCount := if u.attemptCount.None? then s.attemptCount else u.attemptCount.value,
       revision := s.revision + 1,
       heartbeatAt := if u.heartbeatAt.Some? then u.heartbeatAt
                      else if u.status == Running then Some(now)
                      else s.heartbeatAt,
       updatedAt := now,
       completedAt := if u.status == Succeeded || u.status == Failed then Some(now) else None,
       result := u.result, error := u.error)
  }

  function DecideTransition(call: Call, state: Option<State>): Result<Decision, Error>
    requires call.Transition?
  {
    if state.None? then Err(JobNotFound)
    else if Terminal(state.value) then Ok(Keep(state.value))
    else if !Allowed(state.value.status, call.update.status) then Err(InvalidTransition)
    else
      var next := Updated(state.value, call.update, call.now);
      if ValidState(next) then Ok(Store(next)) else Err(InvalidState)
  }

  predicate Retryable(s: State) {
    s.status == Failed && s.error.Some? && s.error.value.retryable
  }

  function Reopened(s: State, now: int): State {
    s.(status := Queued, stage := StageQueued, progress := 0, message := "Queued for a manual retry.",
       generation := s.generation + 1, revision := s.revision + 1, heartbeatAt := None, updatedAt := now,
       completedAt := None, result := None, error := None)
  }

  function DecideRetry(call: Call, state: Option<State>): Result<Decision, Error>
    requires call.Retry?
  {
    if state.None? then Err(JobNotFound)
    else if !Retryable(state.value) then Err(NotRetryable)
    else
      var next := Reopened(state.value, call.now);
      if ValidState(next) then Ok(Store(next)) else Err(InvalidState)
  }

  function Decide(call: Call, identity: Option<Identity>, state: Option<State>): Result<Decision, Error> {
    match call
    case Register(_, _, _, _, _) => DecideRegister(call, identity, state)
    case Transition(_, _, _) => DecideTransition(call, state)
    case Retry(_, _) => DecideRetry(call, state)
  }

  // ---------------------------------------------------------------- the life of one job

  /** `t` can follow `s` later in the job's life. */
  predicate Follows(s: State, t: State) {
    && t.job == s.job && t.caseId == s.caseId && t.requestDigest == s.requestDigest && t.keyDigest == s.keyDigest
    && t.createdAt == s.createdAt
    && s.revision <= t.revision && s.generation <= t.generation
    && (s.revision == t.revision ==> s == t)
    && (s.status == Succeeded ==> s == t)
    && (s.status == Failed && s.generation == t.generation ==> s == t)
  }

  /**
   One write: the revision rises by one, the status moves as allowed, and only a retry of a failed job raises the
   generation.
   */
  predicate OneWrite(call: Call, s: State, t: State) {
    && t.revision == s.revision + 1
    && (if call.Retry?
        then s.status == Failed && s.error.Some? && s.error.value.retryable && t.status == Queued &&
             t.generation == s.generation + 1
        else call.Transition? && (s.status, t.status) in EDGES && t.generation == s.generation)
  }

  lemma FollowsTransitive(s: State, t: State, u: State)
    requires Follows(s, t) && Follows(t, u)
    ensures Follows(s, u)
  {
  }

  /** What a decision to store leaves behind is valid, follows what was read, and is one write away from it. */
  lemma StoreFollows(call: Call, identity: Option<Identity>, state: Option<State>)
    requires Decide(call, identity, state).Ok? && Decide(call, identity, state).value.Store?
    ensures state.Some?
    ensures var t := Decide(call, identity, state).value.state;
      ValidState(t) && Follows(state.value, t) && OneWrite(call, state.value, t) && t.updatedAt == call.now
  {
  }
}
