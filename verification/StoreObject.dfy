/** The store object of app/competitors_v22/store.py as one client uses it, between two conflicts. */
module StoreObject {
  import opened Base
  import opened DiscoveryModels
  import opened DiscoveryStore
  import opened DiscoveryAnswers

  class CompetitorDiscoveryStore {
    var states: map<JobId, State>
    var identities: map<IdemKey, Identity>
    var requests: map<JobId, Payload>
    var active: map<JobId, int>

    ghost function Contents(): Db
      reads this
    {
      Db(states, identities, requests, active)
    }

    ghost predicate Valid()
      reads this
    {
      DiscoveryStore.Consistent(Contents())
    }

    constructor ()
      ensures Valid() && Contents() == EMPTY
    {
      states, identities, requests, active := map[], map[], map[], map[];
      new;
      EmptyIsConsistent();
    }

    method RegisterJob(call: Call) returns (reply: Result<State, Error>)
      requires Valid() && call.Register?
      modifies this
      ensures Valid() && Contents() == Next(old(Contents()), call)
      ensures reply.Ok? ==> call.job in states && reply.value == states[call.job]
      ensures reply.Err? ==> Contents() == old(Contents())
      ensures Registered(call, Get(old(identities), IdemKey(call.caseId, KeyDigest(call.key))),
                         Get(old(states), call.job), reply)
    {
      hide DiscoveryStore.Consistent, DecideRegister, Initial, ValidState, Terminal, Registered;
      ghost var before := Contents();
      var identity, state := Get(identities, IdemKey(call.caseId, KeyDigest(call.key))), Get(states, call.job);
      var decided := DecideRegister(call, identity, state);
      NextKeepsConsistent(before, call);
      RegisterDecides(call, identity, state);
      if decided.Err? {
        return Err(decided.error);
      }
      if decided.value.Create? {
        Put(decided.value.state, call);
      }
      return Ok(decided.value.state);
    }

    /** The transaction of a new job. */
    method Put(s: State, call: Call)
      requires call.Register?
      modifies this
      ensures Contents() == Committed(old(Contents()), call, Create(s))
    {
      identities := identities[IdemKey(call.caseId, KeyDigest(call.key)) := EntryOf(call)];
      requests := requests[call.job := call.payload];
      states := states[call.job := s];
      active := active[call.job := call.now];
    }

    /** The second result says whether the transition was applied; a terminal job is left as it is. */
    method Transition(call: Call) returns (reply: Result<State, Error>, applied: bool)
      requires Valid() && call.Transition?
      modifies this`states, this`active
      ensures Valid() && Contents() == Next(old(Contents()), call)
      ensures reply.Ok? ==> call.job in states && reply.value == states[call.job]
      ensures !applied ==> Contents() == old(Contents())
      ensures reply == Err(JobNotFound) <==> call.job !in old(states)
      ensures call.job in old(states) ==> Transitioned(call, old(states)[call.job], reply, applied)
    {
      hide DiscoveryStore.Consistent, ValidState, DecideTransition, Terminal, IsUpdate, UpdateFits, EDGES, Transitioned;
      ghost var before := Contents();
      var decided := DecideTransition(call, Get(states, call.job));
      NextKeepsConsistent(before, call);
      TransitionDecides(call, before);
      if decided.Err? {
        return Err(decided.error), false;
      }
      applied := decided.value.Store?;
      if applied {
        Save(decided.value.state, call);
      }
      return Ok(decided.value.state), applied;
    }

    method RetryFailed(call: Call) returns (reply: Result<State, Error>)
      requires Valid() && call.Retry?
      modifies this`states, this`active
      ensures Valid() && Contents() == Next(old(Contents()), call)
      ensures reply == Err(JobNotFound) <==> call.job !in old(states)
      ensures call.job in old(states) ==> var s := old(states)[call.job];
              reply.Ok? <==> s.status == Failed && s.error.Some? && s.error.value.retryable && s.createdAt <= call.now
      ensures reply.Ok? ==> call.job in old(states) && call.job in states &&
                            reply.value == states[call.job] == Requeued(old(states)[call.job], call.now)
    {
      hide DiscoveryStore.Consistent, ValidState, Reopened, DecideRetry, Requeued, Terminal;
      ghost var before := Contents();
      var decided := DecideRetry(call, Get(states, call.job));
      NextKeepsConsistent(before, call);
      RetryDecides(call, before);
      if decided.Err? {
        return Err(decided.error);
      }
      Save(decided.value.state, call);
      return Ok(decided.value.state);
    }

    /** The transaction that stores a new state and keeps the active set in step. */
    method Save(s: State, call: Call)
      modifies this`states, this`active
      ensures Contents() == Committed(old(Contents()), call, Store(s))
    {
      states := states[call.job := s];
      if Terminal(s) {
        active := active - {call.job};
      } else {
        active := active[call.job := call.now];
      }
    }
  }

  /** A registration that read this entry and this state: it replays, conflicts, or creates a queued job. */
  ghost predicate Registered(call: Call, identity: Option<Identity>, state: Option<State>, reply: Result<State, Error>)
    requires call.Register?
  {
    if identity.Some? && identity.value.requestDigest.of != call.payload then reply == Err(IdempotencyConflict)
    else if identity.Some? then
      reply == if identity.value.job == call.job && state.Some? then Ok(state.value) else Err(JobIdentityConflict)
    else if state.Some? then
      reply == if SameRequest(call, state.value) then Ok(state.value) else Err(JobIdentityConflict)
    else reply.Ok? && reply.value.status == Queued && reply.value.createdAt == call.now && reply.value.revision == 1 &&
         SameRequest(call, reply.value)
  }

  lemma RegisterDecides(call: Call, identity: Option<Identity>, state: Option<State>)
    requires call.Register?
    ensures var r := DecideRegister(call, identity, state);
      && (r.Ok? ==> r.value.Create? || (r.value.Keep? && state == Some(r.value.state)))
      && Registered(call, identity, state, if r.Err? then Err(r.error) else Ok(r.value.state))
  {
    hide DecideRegister;
    RegistrationAnswer(call, identity, state);
  }

  /** A transition of a stored job: ignored, refused for its edge or its values, or applied. */
  ghost predicate Transitioned(call: Call, s: State, reply: Result<State, Error>, applied: bool)
    requires call.Transition?
  {
    if s.status == Succeeded || s.status == Failed then reply == Ok(s) && !applied
    else if (s.status, call.update.status) !in EDGES then reply == Err(InvalidTransition) && !applied
    else if !UpdateFits(s, call.update, call.now) then reply == Err(InvalidState) && !applied
    else reply.Ok? && applied && IsUpdate(s, reply.value, call.update, call.now)
  }

  lemma TransitionDecides(call: Call, db: Db)
    requires call.Transition? && DiscoveryStore.Consistent(db)
    ensures var r := DecideTransition(call, Get(db.states, call.job));
      && (r == Err(JobNotFound) <==> call.job !in db.states)
      && (r.Ok? ==> call.job in db.states && (r.value.Store? || r.value == Keep(db.states[call.job])))
      && (call.job in db.states ==>
            Transitioned(call, db.states[call.job], if r.Err? then Err(r.error) else Ok(r.value.state),
                         r.Ok? && r.value.Store?))
  {
    if call.job in db.states {
      assert StateFits(db, call.job);
      TransitionAnswer(call, db.states[call.job]);
    } else {
      NoJobAnswer(call);
    }
    hide DiscoveryStore.Consistent, DecideTransition, ValidState, UpdateFits, IsUpdate, EDGES;
  }

  lemma RetryDecides(call: Call, db: Db)
    requires call.Retry? && DiscoveryStore.Consistent(db)
    ensures var r := DecideRetry(call, Get(db.states, call.job));
      && (r == Err(JobNotFound) <==> call.job !in db.states)
      && (r.Ok? ==> r.value.Store? && call.job in db.states &&
                    r.value.state == Requeued(db.states[call.job], call.now))
      && (call.job in db.states ==> var s := db.states[call.job];
            (r.Ok? <==> s.status == Failed && s.error.Some? && s.error.value.retryable && s.createdAt <= call.now))
  {
    if call.job in db.states {
      assert StateFits(db, call.job);
      RetryAnswer(call, db.states[call.job]);
    } else {
      NoJobAnswer(call);
    }
    hide DiscoveryStore.Consistent, DecideRetry, Requeued;
  }
}
