/**
 The Redis keys of `CompetitorDiscoveryStore` (app/competitors_v22/store.py) under any number of clients, each
 watching its keys, reading them one by one and committing a transaction. Key expiry and events are left out.
 */
module DiscoveryStore {
  import opened Base
  import opened Lexicographic
  import opened DiscoveryModels

  /** The keys of all jobs; `active` is the sorted set of job ids by score. */
  datatype Db = Db(
    states: map<JobId, State>,
    identities: map<IdemKey, Identity>,
    requests: map<JobId, Payload>,
    active: map<JobId, int>)

  const EMPTY: Db := Db(map[], map[], map[], map[])

  function Get<K, V>(m: map<K, V>, k: K): Option<V> {
    if k in m then Some(m[k]) else None
  }

  /** The idempotency key a registration watches. */
  function IdemKeyOf(call: Call): Option<IdemKey> {
    if call.Register? then Some(IdemKey(call.caseId, KeyDigest(call.key))) else None
  }

  /** What a registration enters under its idempotency key. */
  function EntryOf(call: Call): Identity
    requires call.Register?
  {
    Identity(call.job, call.caseId, RequestDigest(call.payload))
  }

  function IdentityOf(db: Db, call: Call): Option<Identity> {
    var k := IdemKeyOf(call);
    if k.None? then None else Get(db.identities, k.value)
  }

  /** The queued commands between MULTI and EXEC. */
  function Committed(db: Db, call: Call, decision: Decision): Db {
    match decision
    case Keep(_) => db
    case Create(s) =>
      if call.Register? then
        Db(db.states[call.job := s],
           db.identities[IdemKeyOf(call).value := EntryOf(call)],
           db.requests[call.job := call.payload],
           db.active[call.job := call.now])
      else db
    case Store(s) =>
      db.(states := db.states[call.job := s],
          active := if Terminal(s) then db.active - {call.job} else db.active[call.job := call.now])
  }

  /** A call made with nobody else around. */
  function Next(db: Db, call: Call): Db {
    var decided := Decide(call, IdentityOf(db, call), Get(db.states, call.job));
    if decided.Err? then db else Committed(db, call, decided.value)
  }

  // ---------------------------------------------------------------- indexes agree with states

  /** The jobs that should be active, with their scores. */
  function Unfinished(states: map<JobId, State>): map<JobId, int> {
    map job | job in states && !Terminal(states[job]) :: states[job].updatedAt
  }

  /** The entry, the state and the request it leads to tell the same story. */
  ghost predicate Agrees(db: Db, k: IdemKey) {
    && k in db.identities
    && var e := db.identities[k];
       && e.job in db.states && e.job in db.requests
       && e.caseId == k.caseId == db.states[e.job].caseId
       && e.requestDigest == db.states[e.job].requestDigest == RequestDigest(db.requests[e.job])
       && k.digest == db.states[e.job].keyDigest
  }

  /** Some idempotency entry owns the job. */
  ghost predicate Owned(db: Db, job: JobId) {
    exists k :: k in db.identities && db.identities[k].job == job
  }

  ghost predicate StateFits(db: Db, job: JobId) {
    job in db.states && db.states[job].job == job && ValidState(db.states[job]) && job in db.requests && Owned(db, job)
  }

  ghost predicate Consistent(db: Db) {
    && db.active == Unfinished(db.states)
    && (forall job | job in db.states :: StateFits(db, job))
    && (forall k | k in db.identities :: Agrees(db, k))
    && (forall job | job in db.requests :: job in db.states)
  }

  /** No job is owned by two idempotency keys. */
  lemma OneOwner(db: Db, k: IdemKey, l: IdemKey)
    requires Consistent(db) && k in db.identities && l in db.identities && db.identities[k].job == db.identities[l].job
    ensures k == l
  {
    assert Agrees(db, k) && Agrees(db, l);
  }

  lemma EmptyIsConsistent()
    ensures Consistent(EMPTY)
  {
  }

  lemma UnfinishedAfter(states: map<JobId, State>, job: JobId, s: State)
    ensures Unfinished(states[job := s]) ==
            if Terminal(s) then Unfinished(states) - {job} else Unfinished(states)[job := s.updatedAt]
  {
    hide Terminal;
  }

  lemma CreateFits(db: Db, call: Call, s: State)
    requires Consistent(db) && call.Register? && call.job !in db.states && IdemKeyOf(call).value !in db.identities
    requires s.job == call.job && s.caseId == call.caseId && ValidState(s)
    requires s.requestDigest == RequestDigest(call.payload) && s.keyDigest == KeyDigest(call.key)
    ensures var after := Committed(db, call, Create(s));
      && (forall k | k in after.identities :: Agrees(after, k))
      && (forall job | job in after.states :: StateFits(after, job))
  {
    hide ValidState, Unfinished, Terminal, StateFits, Agrees;
    var after := Committed(db, call, Create(s));
    forall k | k in after.identities ensures Agrees(after, k) {
      CreateAgrees(db, call, s, k);
    }
    forall job | job in after.states ensures StateFits(after, job) {
      CreateFitsOne(db, call, s, job);
    }
  }

  lemma CreateAgrees(db: Db, call: Call, s: State, k: IdemKey)
    requires Consistent(db) && call.Register? && call.job !in db.states && IdemKeyOf(call).value !in db.identities
    requires s.caseId == call.caseId && s.requestDigest == RequestDigest(call.payload) &&
             s.keyDigest == KeyDigest(call.key)
    requires k in Committed(db, call, Create(s)).identities
    ensures Agrees(Committed(db, call, Create(s)), k)
  {
    hide ValidState, Unfinished, Terminal, StateFits;
    if k != IdemKeyOf(call).value {
      assert Agrees(db, k);
    }
  }

  lemma CreateFitsOne(db: Db, call: Call, s: State, job: JobId)
    requires Consistent(db) && call.Register? && call.job !in db.states && IdemKeyOf(call).value !in db.identities
    requires s.job == call.job && ValidState(s)
    requires job in Committed(db, call, Create(s)).states
    ensures StateFits(Committed(db, call, Create(s)), job)
  {
    hide ValidState, Unfinished, Terminal, Agrees;
    var after := Committed(db, call, Create(s));
    if job == call.job {
      assert after.identities[IdemKeyOf(call).value].job == job;
    } else {
      StillOwned(db, after, job);
    }
  }

  lemma StillOwned(db: Db, after: Db, job: JobId)
    requires Consistent(db) && job in db.states
    requires forall k | k in db.identities :: k in after.identities && after.identities[k] == db.identities[k]
    ensures StateFits(db, job) && Owned(after, job)
  {
    hide ValidState, Unfinished, Agrees;
    assert StateFits(db, job);
    var k :| k in db.identities && db.identities[k].job == job;
    assert after.identities[k].job == job;
  }

  lemma CreateKeepsConsistent(db: Db, call: Call)
    requires Consistent(db) && call.Register? && call.job !in db.states
    requires IdemKeyOf(call).value !in db.identities
    ensures Consistent(Committed(db, call, Create(Initial(call))))
  {
    var s := Initial(call);
    assert ValidState(s) && !Terminal(s);
    assert s.job == call.job && s.caseId == call.caseId && s.updatedAt == call.now;
    assert s.requestDigest == RequestDigest(call.payload) && s.keyDigest == KeyDigest(call.key);
    hide Initial, ValidState, Terminal, Unfinished, Agrees, StateFits;
    CreateFits(db, call, s);
    UnfinishedAfter(db.states, call.job, s);
  }

  lemma StoreFits(db: Db, call: Call, s: State)
    requires Consistent(db) && call.job in db.states && ValidState(s)
    requires s.job == call.job && s.caseId == db.states[call.job].caseId
    requires s.requestDigest == db.states[call.job].requestDigest && s.keyDigest == db.states[call.job].keyDigest
    ensures var after := Committed(db, call, Store(s));
      && (forall k | k in after.identities :: Agrees(after, k))
      && (forall job | job in after.states :: StateFits(after, job))
  {
    hide ValidState, Unfinished, Terminal;
    var after := Committed(db, call, Store(s));
    forall k | k in after.identities ensures Agrees(after, k) {
      hide StateFits;
      assert Agrees(db, k);
    }
    hide Agrees, StateFits;
    forall job | job in after.states ensures StateFits(after, job) {
      StoreFitsOne(db, call, s, job);
    }
  }

  lemma StoreFitsOne(db: Db, call: Call, s: State, job: JobId)
    requires Consistent(db) && call.job in db.states && ValidState(s) && s.job == call.job && job in db.states
    ensures StateFits(Committed(db, call, Store(s)), job)
  {
    hide ValidState, Unfinished, Terminal, Agrees;
    StillOwned(db, Committed(db, call, Store(s)), job);
    hide Consistent;
  }

  lemma OwnJob(db: Db, job: JobId)
    requires Consistent(db) && job in db.states
    ensures db.states[job].job == job && ValidState(db.states[job])
  {
    assert StateFits(db, job);
  }

  lemma StoreKeepsConsistent(db: Db, call: Call, s: State)
    requires Consistent(db) && call.job in db.states
    requires ValidState(s) && Follows(db.states[call.job], s) && s.updatedAt == call.now
    ensures Consistent(Committed(db, call, Store(s)))
  {
    hide ValidState, Terminal, Unfinished, Agrees, StateFits, OneWrite;
    OwnJob(db, call.job);
    StoreFits(db, call, s);
    UnfinishedAfter(db.states, call.job, s);
  }

  /** Every call keeps the indexes in agreement. */
  lemma NextKeepsConsistent(db: Db, call: Call)
    requires Consistent(db)
    ensures Consistent(Next(db, call))
  {
    hide Consistent, Decide, Committed, ValidState, Follows, OneWrite, Initial, IdemKeyOf;
    var identity, state := IdentityOf(db, call), Get(db.states, call.job);
    var decided := Decide(call, identity, state);
    if decided.Ok? && decided.value.Store? {
      StoreFollows(call, identity, state);
      StoreKeepsConsistent(db, call, decided.value.state);
    } else if decided.Ok? && decided.value.Create? {
      CreateIsInitial(call, identity, state);
      NoIdentity(db, call);
      CreateKeepsConsistent(db, call);
    } else if decided.Ok? {
      KeepsDb(db, call, decided.value);
    }
  }

  lemma NoIdentity(db: Db, call: Call)
    requires call.Register? && IdentityOf(db, call).None?
    ensures IdemKeyOf(call).value !in db.identities
  {
  }

  lemma NoRequest(db: Db, job: JobId)
    requires Consistent(db) && job !in db.states
    ensures job !in db.requests
  {
  }

  lemma KeepsDb(db: Db, call: Call, decision: Decision)
    requires decision.Keep?
    ensures Committed(db, call, decision) == db
  {
  }

  lemma CreateIsInitial(call: Call, identity: Option<Identity>, state: Option<State>)
    requires Decide(call, identity, state).Ok? && Decide(call, identity, state).value.Create?
    ensures call.Register? && identity.None? && state.None? &&
            Decide(call, identity, state).value.state == Initial(call)
  {
    hide Initial, Updated, Reopened, ValidState;
  }

  lemma KeepIsRead(call: Call, identity: Option<Identity>, state: Option<State>)
    requires Decide(call, identity, state).Ok? && Decide(call, identity, state).value.Keep?
    ensures state == Some(Decide(call, identity, state).value.state)
  {
    hide Initial, Updated, Reopened, ValidState;
  }

  // ---------------------------------------------------------------- the life of the jobs

  /** Every job of `db` is still there in `after`, at the same or a later point of its life. */
  ghost predicate JobsFollow(db: Db, after: Db) {
    && (forall job | job in db.states :: job in after.states && Follows(db.states[job], after.states[job]))
    && (forall k | k in db.identities :: k in after.identities && after.identities[k] == db.identities[k])
    && (forall job | job in db.requests :: job in after.requests && after.requests[job] == db.requests[job])
  }

  /** Only the called job changes, by a single write; a new job starts at revision and generation 1. */
  ghost predicate OneStep(db: Db, call: Call, after: Db) {
    && (forall job | job in db.states && job != call.job :: job in after.states && after.states[job] == db.states[job])
    && (forall job | job in after.states && job != call.job :: job in db.states)
    && match Get(after.states, call.job) {
         case None => call.job !in db.states
         case Some(t) =>
           if call.job in db.states then t == db.states[call.job] || OneWrite(call, db.states[call.job], t)
           else call.Register? && t == Initial(call)
       }
  }

  lemma StoreStep(db: Db, call: Call, s: State)
    requires call.job in db.states && Follows(db.states[call.job], s) && OneWrite(call, db.states[call.job], s)
    ensures JobsFollow(db, Committed(db, call, Store(s))) && OneStep(db, call, Committed(db, call, Store(s)))
  {
    hide OneWrite, Initial, Terminal;
    var after := Committed(db, call, Store(s));
    assert forall job | job in db.states && job != call.job :: after.states[job] == db.states[job];
    forall job | job in db.states ensures job in after.states && Follows(db.states[job], after.states[job]) {
    }
  }

  lemma CreateStep(db: Db, call: Call)
    requires call.Register? && call.job !in db.states && IdemKeyOf(call).value !in db.identities &&
             call.job !in db.requests
    ensures JobsFollow(db, Committed(db, call, Create(Initial(call)))) &&
          OneStep(db, call, Committed(db, call, Create(Initial(call))))
  {
    hide OneWrite, Initial;
  }

  lemma SameStep(db: Db, call: Call)
    ensures JobsFollow(db, db) && OneStep(db, call, db)
  {
    hide OneWrite, Initial;
  }

  /** A call writes one job once and loses nothing. */
  lemma NextFollows(db: Db, call: Call)
    requires Consistent(db)
    ensures JobsFollow(db, Next(db, call)) && OneStep(db, call, Next(db, call))
  {
    hide Consistent, Decide, Committed, ValidState, Follows, OneWrite, Initial;
    hide IdemKeyOf, IdentityOf, JobsFollow, OneStep;
    var identity, state := IdentityOf(db, call), Get(db.states, call.job);
    var decided := Decide(call, identity, state);
    SameStep(db, call);
    if decided.Ok? && decided.value.Store? {
      StoreFollows(call, identity, state);
      StoreStep(db, call, decided.value.state);
    } else if decided.Ok? && decided.value.Create? {
      CreateIsInitial(call, identity, state);
      NoIdentity(db, call);
      NoRequest(db, call.job);
      CreateStep(db, call);
    } else if decided.Ok? {
      KeepsDb(db, call, decided.value);
    }
  }

  /** A stored job looks like the call's own exactly when the call's key was registered for it with this request. */
  lemma OwnJobIsRegistered(db: Db, call: Call)
    requires Consistent(db) && call.Register? && call.job in db.states
    ensures DecideRegister(call, None, Get(db.states, call.job)) ==
            if IdentityOf(db, call) == Some(EntryOf(call)) then Ok(Keep(db.states[call.job]))
            else Err(JobIdentityConflict)
  {
    assert StateFits(db, call.job);
    var k :| k in db.identities && db.identities[k].job == call.job;
    assert Agrees(db, k);
    if IdemKeyOf(call).value in db.identities {
      assert Agrees(db, IdemKeyOf(call).value);
    }
    hide ValidState, Unfinished, Initial;
  }

  /**
   Registering twice gives the stored job, whatever happened to it in between; any other reuse of the key is a
   conflict.
   */
  lemma RegistrationReplays(db: Db, k: IdemKey, call: Call)
    requires Consistent(db) && k in db.identities && call.Register? && IdemKeyOf(call) == Some(k)
    ensures Decide(call, IdentityOf(db, call), Get(db.states, call.job)) ==
            if RequestDigest(call.payload) != db.identities[k].requestDigest then Err(IdempotencyConflict)
            else if call.job != db.identities[k].job then Err(JobIdentityConflict)
            else Ok(Keep(db.states[call.job]))
    ensures Next(db, call) == db
  {
    assert Agrees(db, k);
    hide ValidState, Unfinished, Initial;
  }

  // ---------------------------------------------------------------- list_stale_jobs

  /** Order of the sorted set: by score, then by id. */
  predicate Sooner(active: map<JobId, int>, a: JobId, b: JobId)
    requires a in active && b in active
  {
    active[a] < active[b] || (active[a] == active[b] && StringLess(a.text, b.text))
  }

  /** ZRANGEBYSCORE from minus infinity to the cutoff, at most `limit` members. */
  ghost predicate IsStaleList(active: map<JobId, int>, cutoff: int, limit: nat, jobs: seq<JobId>) {
    && |jobs| <= limit
    && (forall i | 0 <= i < |jobs| :: jobs[i] in active && active[jobs[i]] <= cutoff)
    && (forall i, j | 0 <= i < j < |jobs| :: Sooner(active, jobs[i], jobs[j]))
    && (forall job | job in active && active[job] <= cutoff && job !in jobs ::
          |jobs| == limit && forall i | 0 <= i < |jobs| :: Sooner(active, jobs[i], job))
  }

  /** A job is due when it is unfinished and was last updated at the cutoff or before. */
  predicate Due(db: Db, cutoff: int, job: JobId) {
    job in db.states && !Terminal(db.states[job]) && db.states[job].updatedAt <= cutoff
  }

  /**
   The stale list is a scan of the states: only due jobs, the longest waiting first, and all of them up to the limit.
   */
  lemma StaleListIsScan(db: Db, cutoff: int, limit: nat, jobs: seq<JobId>)
    requires Consistent(db) && IsStaleList(db.active, cutoff, limit, jobs)
    ensures forall i | 0 <= i < |jobs| :: Due(db, cutoff, jobs[i])
    ensures forall i, j | 0 <= i < j < |jobs| :: db.states[jobs[i]].updatedAt <= db.states[jobs[j]].updatedAt
    ensures forall i, j | 0 <= i < j < |jobs| && db.states[jobs[i]].updatedAt == db.states[jobs[j]].updatedAt ::
              TextBefore(jobs[i].text, jobs[j].text)
    ensures forall job | Due(db, cutoff, job) && job !in jobs ::
              |jobs| == limit && forall i | 0 <= i < |jobs| :: db.states[jobs[i]].updatedAt <= db.states[job].updatedAt
  {
    assert db.active == Unfinished(db.states);
    hide Consistent, StringLess, TextBefore;
    forall job | Due(db, cutoff, job) && job !in jobs
      ensures |jobs| == limit && forall i | 0 <= i < |jobs| :: db.states[jobs[i]].updatedAt <= db.states[job].updatedAt
    {
      assert job in db.active;
    }
    forall i, j | 0 <= i < j < |jobs|
      ensures db.states[jobs[i]].updatedAt <= db.states[jobs[j]].updatedAt
      ensures db.states[jobs[i]].updatedAt == db.states[jobs[j]].updatedAt ==> TextBefore(jobs[i].text, jobs[j].text)
    {
      assert Sooner(db.active, jobs[i], jobs[j]);
      StringLessIs(jobs[i].text, jobs[j].text);
    }
  }
}
