/** The ledger object of app/jobs_v22/cost_ledger.py as one worker uses it, between two conflicts. */
module LedgerObject {
  import opened Base
  import opened CostModels
  import opened CostLedger
  import opened LedgerAnswers

  class JobCostLedger {
    const worker: Worker
    /** The value of the job's Redis key. */
    var stored: Option<Ledger>

    constructor (w: Worker, initial: Option<Ledger>)
      ensures worker == w && stored == initial
    {
      worker, stored := w, initial;
    }

    /** `_mutate` on an attempt that meets no conflict: nothing is written when the computation raises. */
    method Mutate(action: Action, now: int) returns (reply: Result<Reply, Error>)
      modifies this
      ensures var answer := Answer(Call(worker, action), old(stored), now);
        if answer.Err? then stored == old(stored) && reply == Err(answer.error)
        else stored == Some(answer.value.next) && reply == Ok(answer.value.reply)
    {
      var current := Decode(worker, stored, now);
      if current.Err? {
        return Err(current.error);
      }
      var effect := Perform(current.value, action, now);
      if effect.Err? {
        return Err(effect.error);
      }
      stored := Some(effect.value.next);
      return Ok(effect.value.reply);
    }

    /** A provider call may start exactly when a claim comes back: never beyond the operation's limit. */
    method ClaimOperation(operation: Operation, id: ClaimId, now: int) returns (claim: Option<Claim>)
      requires SafeStore(stored) && ValidPricing(worker.pricing)
      modifies this
      ensures SafeStore(stored) && Grows(old(stored), stored)
      ensures claim.Some? ==> stored.Some? && claim.value in stored.value.claims
      ensures claim.Some? ==> claim.value.id == id && claim.value.operation == operation
      ensures old(stored).Some? && Fresh(old(stored).value, id) ==>
                (claim.Some? <==> Room(old(stored).value, operation, now))
      ensures old(stored).None? ==>
                (claim.Some? <==> !worker.requireExisting && operation != JinaFetch && worker.createdAt <= now)
    {
      ClaimComesBack(worker, operation, id, stored, now);
      ghost var before := stored;
      var reply := Mutate(ClaimAttempt(operation, id), now);
      if Answer(Call(worker, ClaimAttempt(operation, id)), before, now).Ok? {
        WriteKeeps(Call(worker, ClaimAttempt(operation, id)), before, now);
        ClaimIsStored(worker, operation, id, before, now);
      } else {
        SelfGrows(before);
      }
      claim := if reply.Ok? && reply.value.Claimed? then Some(reply.value.claim) else None;
    }
  }

  /** The operation has claims left in its budget, the ledger in its hundred, and the clock is right. */
  ghost predicate Room(s: Ledger, operation: Operation, now: int) {
    && operation in BUDGET && |ClaimsOf(s.claims, operation)| < BUDGET[operation].1
    && |s.claims| < 100 && s.createdAt <= now
  }

  lemma ClaimComesBack(worker: Worker, operation: Operation, id: ClaimId, v: Option<Ledger>, now: int)
    requires SafeStore(v) && ValidPricing(worker.pricing)
    ensures var r := Answer(Call(worker, ClaimAttempt(operation, id)), v, now);
      var claimed := r.Ok? && r.value.reply.Claimed?;
      && (v.Some? && Fresh(v.value, id) ==> (claimed <==> Room(v.value, operation, now)))
      && (v.None? ==> (claimed <==> !worker.requireExisting && operation != JinaFetch && worker.createdAt <= now))
  {
    hide Safe, Perform, ValidLedger, BUDGET, ClaimsOf, NewLedger, Fresh, Room;
    if v.Some? {
      SafeIsValid(v.value);
      if Fresh(v.value, id) {
        FreshComesBack(v.value, operation, id, now);
      }
    } else if !worker.requireExisting {
      FirstComesBack(worker, operation, id, now);
    }
  }

  lemma FreshComesBack(s: Ledger, operation: Operation, id: ClaimId, now: int)
    requires Safe(s) && Fresh(s, id)
    ensures var r := Perform(s, ClaimAttempt(operation, id), now);
      r.Ok? && r.value.reply.Claimed? <==> Room(s, operation, now)
  {
    hide Safe, Perform, ValidLedger, BUDGET, ClaimsOf, Fresh;
    FreshClaimAnswer(s, operation, id, now);
  }

  lemma FirstComesBack(worker: Worker, operation: Operation, id: ClaimId, now: int)
    requires ValidPricing(worker.pricing)
    ensures var r := Perform(NewLedger(worker, now), ClaimAttempt(operation, id), now);
      r.Ok? && r.value.reply.Claimed? <==> operation != JinaFetch && worker.createdAt <= now
  {
    hide Safe, Perform, ValidLedger, BUDGET, ClaimsOf;
    var s := NewLedger(worker, now);
    NewLedgerIsSafe(worker, now);
    NothingClaimed(operation);
    BudgetOfJina(operation);
    FreshComesBack(s, operation, id, now);
  }

  lemma NothingClaimed(operation: Operation)
    ensures ClaimsOf([], operation) == {}
  {
  }

  /** Every operation but one may be called at least once. */
  lemma BudgetOfJina(operation: Operation)
    ensures operation in BUDGET && (BUDGET[operation].1 == 0 <==> operation == JinaFetch)
  {
  }

  lemma SelfGrows(v: Option<Ledger>)
    ensures Grows(v, v)
  {
  }

  lemma ClaimIsStored(worker: Worker, operation: Operation, id: ClaimId, v: Option<Ledger>, now: int)
    requires Answer(Call(worker, ClaimAttempt(operation, id)), v, now).Ok?
    ensures var e := Answer(Call(worker, ClaimAttempt(operation, id)), v, now).value;
      e.reply.Claimed? ==>
          e.reply.claim in e.next.claims && e.reply.claim.id == id && e.reply.claim.operation == operation
  {
    hide ValidLedger, NewLedger;
    var s := Decode(worker, v, now).value;
    var e := Answer(Call(worker, ClaimAttempt(operation, id)), v, now).value;
    var i := Find(s.claims, id);
    if i < |s.claims| {
      assert e.next.claims[i] in e.next.claims;
    } else if e.reply.Claimed? {
      assert e.next.claims[|s.claims|] == NewClaim(operation, id, now);
    }
  }
}
