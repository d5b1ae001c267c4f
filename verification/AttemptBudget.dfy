/**
 `SharedProviderAttemptBudget` of app/competitors_v22/public_profile_stage.py: numbered slots taken with
 set-if-absent commands by any number of concurrent claims. Key expiry is left out.
 */
module AttemptBudget {
  import opened Base

  const COMPETITOR_PROVIDER_ATTEMPT_LIMIT: int := 15

  function Capped(limit: int): int {
    if limit < COMPETITOR_PROVIDER_ATTEMPT_LIMIT then limit else COMPETITOR_PROVIDER_ATTEMPT_LIMIT
  }

  datatype Stage = Scanning(slot: nat) | Won(slot: nat) | Exhausted

  /** One call of `claim`, by a budget object with its own limit. */
  datatype Claim = Claim(limit: int, stage: Stage)

  datatype System = System(taken: set<nat>, claims: seq<Claim>)

  datatype Event = Arrive(limit: int) | Try(claim: nat)

  function Attempt(taken: set<nat>, c: Claim): (set<nat>, Stage) {
    match c.stage
    case Scanning(slot) =>
      if slot > c.limit then (taken, Exhausted)
      else if slot in taken then (taken, Scanning(slot + 1))
      else (taken + {slot}, Won(slot))
    case _ => (taken, c.stage)
  }

  function Step(s: System, e: Event): System {
    match e
    case Arrive(limit) => s.(claims := s.claims + [Claim(Capped(limit), Scanning(1))])
    case Try(i) =>
      if i >= |s.claims| then s
      else
        var (taken, stage) := Attempt(s.taken, s.claims[i]);
        System(taken, s.claims[i := s.claims[i].(stage := stage)])
  }

  function Run(s: System, events: seq<Event>): System
    decreases |events|
  {
    if events == [] then s else Run(Step(s, events[0]), events[1..])
  }

  const START: System := System({}, [])

  /** Slots 1 to n. */
  function Prefix(n: nat): (p: set<nat>)
    ensures |p| == n && forall k: nat :: k in p <==> 1 <= k <= n
  {
    if n == 0 then {} else Prefix(n - 1) + {n}
  }

  function Winners(claims: seq<Claim>): nat {
    if claims == [] then 0
    else Winners(claims[..|claims| - 1]) + if claims[|claims| - 1].stage.Won? then 1 else 0
  }

  /** What a claim's progress says about the first `n` slots, which are the taken ones. */
  predicate Fits(c: Claim, n: nat) {
    && c.limit <= COMPETITOR_PROVIDER_ATTEMPT_LIMIT
    && match c.stage {
         case Scanning(slot) => 1 <= slot <= n + 1
         case Won(slot) => 1 <= slot <= n && slot <= c.limit
         case Exhausted => c.limit <= n
       }
  }

  ghost predicate Orderly(s: System) {
    && s.taken == Prefix(|s.taken|)
    && Winners(s.claims) == |s.taken|
    && (forall i | 0 <= i < |s.claims| :: Fits(s.claims[i], |s.taken|))
    && (forall i, j | 0 <= i < j < |s.claims| && s.claims[i].stage.Won? && s.claims[j].stage.Won? ::
          s.claims[i].stage.slot != s.claims[j].stage.slot)
  }

  lemma {:induction false} WinnersUpdate(claims: seq<Claim>, i: nat, c: Claim)
    requires i < |claims| && !claims[i].stage.Won?
    ensures Winners(claims[i := c]) == Winners(claims) + if c.stage.Won? then 1 else 0
  {
    var n := |claims| - 1;
    if i == n {
      assert claims[i := c][..n] == claims[..n];
    } else {
      assert claims[i := c][..n] == claims[..n][i := c];
      WinnersUpdate(claims[..n], i, c);
    }
  }

  /** A won slot is the first free one. */
  lemma WonSlotIsNext(s: System, c: Claim)
    requires Orderly(s) && Fits(c, |s.taken|) && Attempt(s.taken, c).1.Won? && !c.stage.Won?
    ensures c.stage == Scanning(|s.taken| + 1) && Attempt(s.taken, c).0 == Prefix(|s.taken| + 1)
    ensures |Attempt(s.taken, c).0| == |s.taken| + 1
  {
    assert c.stage.slot in s.taken <==> 1 <= c.stage.slot <= |s.taken|;
    assert Prefix(|s.taken| + 1) == Prefix(|s.taken|) + {|s.taken| + 1};
  }

  lemma ArriveKeepsOrderly(s: System, c: Claim)
    requires Orderly(s) && c.stage == Scanning(1) && c.limit <= COMPETITOR_PROVIDER_ATTEMPT_LIMIT
    ensures Orderly(s.(claims := s.claims + [c]))
  {
    assert (s.claims + [c])[..|s.claims|] == s.claims;
    hide Prefix;
  }

  lemma MoveKeepsOrderly(s: System, i: nat, c: Claim)
    requires Orderly(s) && i < |s.claims| && !s.claims[i].stage.Won? && !c.stage.Won? && Fits(c, |s.taken|)
    ensures Orderly(s.(claims := s.claims[i := c]))
  {
    WinnersUpdate(s.claims, i, c);
    hide Prefix, Winners;
  }

  lemma FitsMore(c: Claim, n: nat)
    requires Fits(c, n)
    ensures Fits(c, n + 1)
  {
  }

  lemma WinKeepsOrderly(s: System, i: nat, c: Claim)
    requires Orderly(s) && i < |s.claims| && !s.claims[i].stage.Won?
    requires c.stage == Won(|s.taken| + 1) && |s.taken| + 1 <= c.limit <= COMPETITOR_PROVIDER_ATTEMPT_LIMIT
    ensures Orderly(System(Prefix(|s.taken| + 1), s.claims[i := c]))
  {
    WinnersUpdate(s.claims, i, c);
    hide Prefix, Winners;
    var t := System(Prefix(|s.taken| + 1), s.claims[i := c]);
    forall k | 0 <= k < |t.claims| ensures Fits(t.claims[k], |t.taken|) {
      if k != i {
        FitsMore(s.claims[k], |s.taken|);
      }
    }
    forall k | 0 <= k < |s.claims| && s.claims[k].stage.Won? ensures s.claims[k].stage.slot <= |s.taken| {
      assert Fits(s.claims[k], |s.taken|);
    }
  }

  lemma StepKeepsOrderly(s: System, e: Event)
    requires Orderly(s)
    ensures Orderly(Step(s, e)) && |s.taken| <= |Step(s, e).taken|
  {
    match e
    case Arrive(limit) =>
      ArriveKeepsOrderly(s, Claim(Capped(limit), Scanning(1)));
    case Try(i) =>
      if i < |s.claims| {
        var c := s.claims[i];
        assert Fits(c, |s.taken|);
        var after := c.(stage := Attempt(s.taken, c).1);
        if !c.stage.Scanning? {
          assert s.claims[i := c] == s.claims;
        } else if after.stage.Won? {
          WonSlotIsNext(s, c);
          WinKeepsOrderly(s, i, after);
        } else {
          TakenIsPrefix(s);
          MoveKeepsOrderly(s, i, after);
        }
      }
  }

  lemma TakenIsPrefix(s: System)
    requires Orderly(s)
    ensures forall k: nat :: k in s.taken <==> 1 <= k <= |s.taken|
  {
  }

  lemma {:induction false} RunKeepsOrderly(s: System, events: seq<Event>)
    requires Orderly(s)
    ensures Orderly(Run(s, events)) && |s.taken| <= |Run(s, events).taken|
    decreases |events|
  {
    if events != [] {
      hide Orderly, Step;
      StepKeepsOrderly(s, events[0]);
      RunKeepsOrderly(Step(s, events[0]), events[1..]);
    }
  }

  /**
   However the claims interleave: the taken slots are 1 to n, where n is the number of successful claims; a claim
   that has come to slot k has found slots 1 to k-1 taken; and a claim fails only with all slots of its limit taken.
   */
  lemma EveryRunIsOrderly(events: seq<Event>)
    ensures var s := Run(START, events);
      && s.taken == Prefix(Winners(s.claims)) && Winners(s.claims) <= 15
      && forall i | 0 <= i < |s.claims| ::
           s.claims[i].limit <= 15 && match s.claims[i].stage {
             case Scanning(slot) => forall k: nat | 1 <= k < slot :: k in s.taken
             case Won(slot) => slot in s.taken && slot <= s.claims[i].limit
             case Exhausted => forall k: nat | 1 <= k <= s.claims[i].limit :: k in s.taken
           }
  {
    assert Orderly(START);
    RunKeepsOrderly(START, events);
    var s := Run(START, events);
    hide Run;
    if Winners(s.claims) > 0 {
      var last := LastWinner(s, Winners(s.claims));
      assert Fits(s.claims[last], |s.taken|);
    }
    forall i | 0 <= i < |s.claims|
      ensures s.claims[i].limit <= 15 && match s.claims[i].stage {
             case Scanning(slot) => forall k: nat | 1 <= k < slot :: k in s.taken
             case Won(slot) => slot in s.taken && slot <= s.claims[i].limit
             case Exhausted => forall k: nat | 1 <= k <= s.claims[i].limit :: k in s.taken
           }
    {
      assert Fits(s.claims[i], |s.taken|);
    }
  }

  /** `count`: how many of the slots 1 to `limit` are taken. */
  function Count(taken: set<nat>, limit: int): nat {
    if limit <= 0 then 0 else Count(taken, limit - 1) + if limit in taken then 1 else 0
  }

  lemma {:induction false} CountOfPrefix(n: nat, limit: int)
    ensures Count(Prefix(n), limit) == if limit <= 0 then 0 else if limit < n then limit else n
    decreases if limit < 0 then 0 else limit
  {
    if limit > 0 {
      CountOfPrefix(n, limit - 1);
      assert limit in Prefix(n) <==> limit <= n;
    }
  }

  /** With one limit for all claims, `count` is the number of successful claims, and never more than the limit. */
  lemma CountIsWinners(events: seq<Event>, limit: int)
    requires forall k | 0 <= k < |events| && events[k].Arrive? :: events[k].limit == limit
    ensures var s := Run(START, events);
      var capped := if limit < 15 then limit else 15;
      && Count(s.taken, capped) == Winners(s.claims) && (Winners(s.claims) > 0 ==> Winners(s.claims) <= capped)
      && forall i | 0 <= i < |s.claims| :: s.claims[i].limit == capped
  {
    RunKeepsOrderly(START, events);
    LimitsAgree(START, events, Capped(limit));
    var s := Run(START, events);
    hide Run;
    CountOfPrefix(|s.taken|, Capped(limit));
    if Winners(s.claims) > 0 {
      var i := LastWinner(s, Winners(s.claims));
      assert Fits(s.claims[i], |s.taken|);
    }
  }

  lemma {:induction false} LimitsAgree(s: System, events: seq<Event>, limit: int)
    requires forall k | 0 <= k < |events| && events[k].Arrive? :: Capped(events[k].limit) == limit
    requires forall i | 0 <= i < |s.claims| :: s.claims[i].limit == limit
    ensures forall i | 0 <= i < |Run(s, events).claims| :: Run(s, events).claims[i].limit == limit
    decreases |events|
  {
    if events != [] {
      LimitsAgree(Step(s, events[0]), events[1..], limit);
    }
  }

  /** Distinct winners on slots 1 to n, one for each slot: somebody holds slot n. */
  lemma LastWinner(s: System, n: nat) returns (i: nat)
    requires Orderly(s) && n == Winners(s.claims) > 0
    ensures i < |s.claims| && s.claims[i].stage == Won(n)
  {
    var slots := WonSlots(s.claims);
    WonSlotsCount(s);
    assert slots <= Prefix(n) by {
      forall k | k in slots ensures k in Prefix(n) {
        var j :| 0 <= j < |s.claims| && s.claims[j].stage == Won(k);
        assert Fits(s.claims[j], |s.taken|);
      }
    }
    SameSizeSubset(slots, Prefix(n));
    assert n in slots;
    i :| 0 <= i < |s.claims| && s.claims[i].stage == Won(n);
  }

  function WonSlots(claims: seq<Claim>): set<nat> {
    set i | 0 <= i < |claims| && claims[i].stage.Won? :: claims[i].stage.slot
  }

  lemma WonSlotsCount(s: System)
    requires Orderly(s)
    ensures |WonSlots(s.claims)| == Winners(s.claims)
    ensures forall k | k in WonSlots(s.claims) :: exists j :: 0 <= j < |s.claims| && s.claims[j].stage == Won(k)
  {
    SlotsOfPrefix(s.claims, |s.claims|);
    assert s.claims[..|s.claims|] == s.claims;
  }

  lemma {:induction false} SlotsOfPrefix(claims: seq<Claim>, n: nat)
    requires n <= |claims|
    requires forall i, j | 0 <= i < j < |claims| && claims[i].stage.Won? && claims[j].stage.Won? ::
               claims[i].stage.slot != claims[j].stage.slot
    ensures |WonSlots(claims[..n])| == Winners(claims[..n])
  {
    if n > 0 {
      SlotsOfPrefix(claims, n - 1);
      assert claims[..n][..n - 1] == claims[..n - 1] && claims[..n][n - 1] == claims[n - 1];
      WonSlotsLast(claims[..n]);
      if claims[n - 1].stage.Won? {
        NewSlot(claims, n - 1);
      }
      hide WonSlots;
    }
  }

  lemma WonSlotsLast(claims: seq<Claim>)
    requires claims != []
    ensures var front, last := claims[..|claims| - 1], claims[|claims| - 1];
      WonSlots(claims) == if last.stage.Won? then WonSlots(front) + {last.stage.slot} else WonSlots(front)
  {
  }

  lemma NewSlot(claims: seq<Claim>, n: nat)
    requires n < |claims| && claims[n].stage.Won?
    requires forall i, j | 0 <= i < j < |claims| && claims[i].stage.Won? && claims[j].stage.Won? ::
               claims[i].stage.slot != claims[j].stage.slot
    ensures claims[n].stage.slot !in WonSlots(claims[..n])
  {
  }

  // ---------------------------------------------------------------- one budget, one claim at a time

  class SharedProviderAttemptBudget {
    const limit: int
    var taken: set<nat>

    constructor (requested: int)
      ensures limit == (if requested < 15 then requested else 15) && taken == {}
    {
      limit, taken := Capped(requested), {};
    }

    /** Takes the first free slot; raises, and changes nothing, exactly when all are taken. */
    method Claim() returns (claimed: bool)
      requires taken == Prefix(|taken|)
      modifies this`taken
      ensures claimed <==> old(|taken|) < limit
      ensures taken == if claimed then Prefix(old(|taken|) + 1) else old(taken)
    {
      var slot: nat := 1;
      while slot <= limit
        invariant 1 <= slot <= |taken| + 1
        invariant taken == old(taken)
      {
        if slot !in taken {
          assert slot == |taken| + 1;
          assert Prefix(slot) == Prefix(slot - 1) + {slot};
          taken := taken + {slot};
          return true;
        }
        slot := slot + 1;
      }
      claimed := false;
    }
  }
}
