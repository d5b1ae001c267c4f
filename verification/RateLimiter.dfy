/**
 `AsyncRateLimiter` of app/collectors/site_inventory_fetcher.py, in real time. `wait` holds a lock, so grants never
 overlap, but `apply_minimum_delay` takes no lock and may run while a waiter sleeps. The clock never goes back and a
 sleep never ends early.
 */
module RateLimiter {
  import opened Base

  datatype Limiter = Limiter(interval: real, nextAllowed: real)

  /** The assignment at the end of `wait`. */
  function Granted(l: Limiter, now: real): Limiter {
    l.(nextAllowed := Latest(now, l.nextAllowed) + l.interval)
  }

  function Delayed(l: Limiter, seconds: real, now: real): Limiter {
    if seconds > 0.0 then
      var interval := Latest(l.interval, seconds);
      Limiter(interval, Latest(l.nextAllowed, now + interval))
    else l
  }

  /** The object; a `wait` that has to sleep is split where it gives up control. */
  class AsyncRateLimiter {
    var interval: real
    var nextAllowed: real

    ghost function Value(): Limiter
      reads this
    {
      Limiter(interval, nextAllowed)
    }

    constructor (requestsPerSecond: real)
      requires requestsPerSecond > 0.0
      ensures Value() == Limiter(1.0 / requestsPerSecond, 0.0)
    {
      interval, nextAllowed := 1.0 / requestsPerSecond, 0.0;
    }

    /** `wait` up to its sleep: without a delay the request is granted on the spot. */
    method BeginWait(now: real) returns (delay: real)
      modifies this
      ensures delay >= 0.0 && (delay == 0.0 <==> old(nextAllowed) <= now)
      ensures delay == 0.0 ==> nextAllowed == now + interval && interval == old(interval)
      ensures delay > 0.0 ==> now + delay == nextAllowed && Value() == old(Value())
      ensures delay == 0.0 ==> Value() == Granted(old(Value()), now)
    {
      delay := Latest(0.0, nextAllowed - now);
      if delay <= 0.0 {
        nextAllowed := Latest(now, nextAllowed) + interval;
      }
    }

    /** The rest of `wait`, when the sleep is over. */
    method EndWait(now: real)
      modifies this
      ensures nextAllowed >= now + interval && nextAllowed >= old(nextAllowed) + interval && interval == old(interval)
      ensures old(nextAllowed) <= now ==> nextAllowed == now + interval
      ensures Value() == Granted(old(Value()), now)
    {
      nextAllowed := Latest(now, nextAllowed) + interval;
    }

    method ApplyMinimumDelay(seconds: real, now: real)
      modifies this
      ensures interval >= old(interval) && nextAllowed >= old(nextAllowed)
      ensures seconds > 0.0 ==> interval >= seconds && nextAllowed >= now + seconds
      ensures nextAllowed > old(nextAllowed) ==> nextAllowed == now + interval
      ensures Value() == Delayed(old(Value()), seconds, now)
    {
      if seconds > 0.0 {
        interval := Latest(interval, seconds);
        nextAllowed := Latest(nextAllowed, now + interval);
      }
    }
  }

  // ---------------------------------------------------------------- runs

  datatype Event = Begin(now: real) | Finish(now: real) | Raise(seconds: real, now: real)

  /** A grant, and the interval that was in force when it was made. */
  datatype Grant = Grant(time: real, interval: real)

  /** `wakeAt` is set while a waiter sleeps with the lock. */
  datatype Timeline = Timeline(limiter: Limiter, wakeAt: Option<real>, clock: real, grants: seq<Grant>)

  /** The events the lock, the clock and the sleep allow. */
  predicate Possible(t: Timeline, e: Event) {
    && t.clock <= e.now
    && (e.Begin? ==> t.wakeAt.None?)
    && (e.Finish? ==> t.wakeAt.Some? && t.wakeAt.value <= e.now)
  }

  function GrantAt(t: Timeline, now: real): Timeline {
    Timeline(Granted(t.limiter, now), None, now, t.grants + [Grant(now, t.limiter.interval)])
  }

  function Step(t: Timeline, e: Event): Timeline {
    match e
    case Begin(now) =>
      var delay := Latest(0.0, t.limiter.nextAllowed - now);
      if delay > 0.0 then t.(wakeAt := Some(now + delay), clock := now) else GrantAt(t, now)
    case Finish(now) => GrantAt(t, now)
    case Raise(seconds, now) => t.(limiter := Delayed(t.limiter, seconds, now), clock := now)
  }

  predicate AllPossible(t: Timeline, events: seq<Event>)
    decreases |events|
  {
    events != [] ==> Possible(t, events[0]) && AllPossible(Step(t, events[0]), events[1..])
  }

  function Run(t: Timeline, events: seq<Event>): Timeline
    decreases |events|
  {
    if events == [] then t else Run(Step(t, events[0]), events[1..])
  }

  function Start(interval: real, clock: real): Timeline {
    Timeline(Limiter(interval, 0.0), None, clock, [])
  }

  predicate SpacedAt(grants: seq<Grant>, k: nat) {
    k + 1 < |grants| ==>
        grants[k].time + grants[k].interval <= grants[k + 1].time && grants[k].interval <= grants[k + 1].interval
  }

  /** The next grant, and the sleeper if there is one, must keep the last grant's distance. */
  ghost predicate Spaced(t: Timeline, least: real) {
    && 0.0 < least <= t.limiter.interval
    && (forall k: nat :: SpacedAt(t.grants, k))
    && (forall k | 0 <= k < |t.grants| :: least <= t.grants[k].interval)
    && (t.grants != [] ==>
          var last := t.grants[|t.grants| - 1];
          && last.time + last.interval <= t.limiter.nextAllowed
          && (t.wakeAt.Some? ==> last.time + last.interval <= t.wakeAt.value)
          && last.interval <= t.limiter.interval)
  }

  lemma GrantKeepsSpaced(t: Timeline, least: real, now: real)
    requires Spaced(t, least)
    requires t.grants != [] ==> t.grants[|t.grants| - 1].time + t.grants[|t.grants| - 1].interval <= now
    ensures Spaced(GrantAt(t, now), least)
  {
    var u := GrantAt(t, now);
    forall k: nat ensures SpacedAt(u.grants, k) {
      assert SpacedAt(t.grants, k);
    }
  }

  lemma StepKeepsSpaced(t: Timeline, e: Event, least: real)
    requires Spaced(t, least) && Possible(t, e)
    ensures Spaced(Step(t, e), least)
  {
    if e.Begin? && t.limiter.nextAllowed <= e.now {
      GrantKeepsSpaced(t, least, e.now);
    } else if e.Finish? {
      GrantKeepsSpaced(t, least, e.now);
    }
  }

  lemma {:induction false} RunKeepsSpaced(t: Timeline, events: seq<Event>, least: real)
    requires Spaced(t, least) && AllPossible(t, events)
    ensures Spaced(Run(t, events), least)
    decreases |events|
  {
    hide Spaced, Step;
    if events != [] {
      StepKeepsSpaced(t, events[0], least);
      RunKeepsSpaced(Step(t, events[0]), events[1..], least);
    }
  }

  /** The intervals in force at grants `i` to `j - 1`, added up. */
  function IntervalsBetween(grants: seq<Grant>, i: nat, j: nat): real
    requires i <= j <= |grants|
  {
    if i == j then 0.0 else IntervalsBetween(grants, i, j - 1) + grants[j - 1].interval
  }

  lemma {:induction false} DistanceGrows(t: Timeline, least: real, i: nat, j: nat)
    requires Spaced(t, least) && i <= j < |t.grants|
    ensures (j - i) as real * least <= IntervalsBetween(t.grants, i, j) <= t.grants[j].time - t.grants[i].time
    decreases j - i
  {
    if i < j {
      DistanceGrows(t, least, i, j - 1);
      assert SpacedAt(t.grants, j - 1);
      OneMore(j - i, least);
    }
  }

  lemma OneMore(n: nat, x: real)
    requires n > 0
    ensures n as real * x == (n - 1) as real * x + x
  {
    assert n as real == (n - 1) as real + 1.0;
  }

  /**
   In every run, with minimum delays raised at any moment, the distance between two grants is at least the sum of
   the intervals in force in between, hence at least the initial interval times the number of grants in between.
   */
  lemma EveryRunIsSpaced(interval: real, clock: real, events: seq<Event>, i: nat, j: nat)
    requires interval > 0.0 && AllPossible(Start(interval, clock), events)
    requires i <= j < |Run(Start(interval, clock), events).grants|
    ensures var grants := Run(Start(interval, clock), events).grants;
      (j - i) as real * interval <= IntervalsBetween(grants, i, j) <= grants[j].time - grants[i].time
  {
    assert Spaced(Start(interval, clock), interval);
    RunKeepsSpaced(Start(interval, clock), events, interval);
    DistanceGrows(Run(Start(interval, clock), events), interval, i, j);
  }

  /**
   A run in which a delay raised while a waiter sleeps does not hold that waiter back: it is granted at its old
   wake-up time, before the raised one.
   */
  lemma SleeperIgnoresRaise(interval: real, raised: real)
    requires 0.0 < interval < raised
    ensures var events := [Begin(0.0), Begin(0.0), Raise(raised, 0.0), Finish(interval)];
      var t := Run(Start(interval, 0.0), events);
      && AllPossible(Start(interval, 0.0), events)
      && |t.grants| == 2 && t.grants[1].time - t.grants[0].time == interval < raised == t.limiter.interval
  {
    var events := [Begin(0.0), Begin(0.0), Raise(raised, 0.0), Finish(interval)];
    var t0 := Start(interval, 0.0);
    var t1 := Step(t0, events[0]);
    var t2 := Step(t1, events[1]);
    var t3 := Step(t2, events[2]);
    var t4 := Step(t3, events[3]);
    var rest1, rest2, rest3 := events[1..], events[2..], events[3..];
    assert rest1[1..] == rest2 && rest2[1..] == rest3 && rest3[1..] == [];
    assert Run(t3, rest3) == Run(t4, []) && Run(t2, rest2) == Run(t3, rest3) && Run(t1, rest1) == Run(t2, rest2);
    assert AllPossible(t4, []);
    assert AllPossible(t3, rest3);
    assert AllPossible(t2, rest2);
    assert AllPossible(t1, rest1);
  }

  /** From grant number `n` on, nothing is granted before `from`, and grants are at least `least` apart. */
  ghost predicate HeldBack(t: Timeline, n: nat, from: real, least: real) {
    && n <= |t.grants| && least <= t.limiter.interval && from <= t.limiter.nextAllowed
    && (t.wakeAt.Some? ==> from <= t.wakeAt.value)
    && (forall k | n <= k < |t.grants| :: from <= t.grants[k].time && least <= t.grants[k].interval)
  }

  lemma StepHoldsBack(t: Timeline, e: Event, n: nat, from: real, least: real)
    requires HeldBack(t, n, from, least) && 0.0 < least && Possible(t, e)
    ensures HeldBack(Step(t, e), n, from, least)
  {
  }

  lemma {:induction false} RunHoldsBack(t: Timeline, events: seq<Event>, n: nat, from: real, least: real)
    requires HeldBack(t, n, from, least) && 0.0 < least && AllPossible(t, events)
    ensures HeldBack(Run(t, events), n, from, least)
    decreases |events|
  {
    hide HeldBack, Step;
    if events != [] {
      StepHoldsBack(t, events[0], n, from, least);
      RunHoldsBack(Step(t, events[0]), events[1..], n, from, least);
    }
  }

  /**
   Grants made after a minimum delay was raised keep at least that distance, whether or not somebody slept meanwhile.
   */
  lemma RaiseSpacesOut(t: Timeline, seconds: real, now: real, events: seq<Event>, least: real, i: nat, j: nat)
    requires Spaced(t, least) && seconds > 0.0 && Possible(t, Raise(seconds, now))
    requires AllPossible(Step(t, Raise(seconds, now)), events)
    requires |t.grants| <= i < j < |Run(Step(t, Raise(seconds, now)), events).grants|
    ensures var grants := Run(Step(t, Raise(seconds, now)), events).grants; grants[i].time + seconds <= grants[j].time
  {
    var u := Step(t, Raise(seconds, now));
    KeepsInterval(u, events, |t.grants|, seconds);
    StepKeepsSpaced(t, Raise(seconds, now), least);
    RunKeepsSpaced(u, events, least);
    var v := Run(u, events);
    hide Run;
    LaterGrant(v, least, i, j);
  }

  /** From grant number `n` on the interval in force is at least `least`. */
  lemma {:induction false} KeepsInterval(t: Timeline, events: seq<Event>, n: nat, least: real)
    requires n <= |t.grants| && least <= t.limiter.interval
    requires forall k | n <= k < |t.grants| :: least <= t.grants[k].interval
    ensures forall k | n <= k < |Run(t, events).grants| :: least <= Run(t, events).grants[k].interval
    decreases |events|
  {
    if events != [] {
      KeepsInterval(Step(t, events[0]), events[1..], n, least);
    }
  }

  /** Every grant after the first `n` comes at `from` or later in this run, if the run is possible. */
  ghost predicate ComeLater(t: Timeline, events: seq<Event>, n: nat, from: real) {
    AllPossible(t, events) ==> forall k | n <= k < |Run(t, events).grants| :: from <= Run(t, events).grants[k].time
  }

  /** In every possible run. */
  ghost predicate AllComeLater(t: Timeline, n: nat, from: real) {
    forall events :: ComeLater(t, events, n, from)
  }

  /**
   Raising the minimum delay holds back every later grant of every run by that delay if and only if nobody sleeps,
   or the sleeper would not wake up before then anyway.
   */
  lemma RaiseHoldsBackIff(t: Timeline, seconds: real, now: real, least: real)
    requires Spaced(t, least) && seconds > 0.0 && Possible(t, Raise(seconds, now))
    ensures AllComeLater(Step(t, Raise(seconds, now)), |t.grants|, now + seconds) <==>
            t.wakeAt.None? || now + seconds <= t.wakeAt.value
  {
    var u, n, from := Step(t, Raise(seconds, now)), |t.grants|, now + seconds;
    if t.wakeAt.None? || now + seconds <= t.wakeAt.value {
      forall events ensures ComeLater(u, events, n, from) {
        if AllPossible(u, events) {
          RunHoldsBack(u, events, n, from, seconds);
        }
      }
    } else {
      var early := Latest(now, t.wakeAt.value);
      var wake := [Finish(early)];
      assert wake[1..] == [];
      assert AllPossible(Step(u, wake[0]), wake[1..]) && Run(u, wake) == Run(Step(u, wake[0]), wake[1..]);
      assert Run(u, wake).grants[n].time == early;
      assert !ComeLater(u, wake, n, from);
    }
  }

  lemma {:induction false} LaterGrant(t: Timeline, least: real, i: nat, j: nat)
    requires Spaced(t, least) && i < j < |t.grants|
    ensures t.grants[i].time + t.grants[i].interval <= t.grants[j].time
    decreases j - i
  {
    assert SpacedAt(t.grants, j - 1);
    if i < j - 1 {
      LaterGrant(t, least, i, j - 1);
    }
  }
}
