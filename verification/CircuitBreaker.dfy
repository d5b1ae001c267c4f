/**
 `RedisCircuitBreaker` of app/jobs_v22/circuit_breaker.py for one provider and operation: the failure window, and the
 object as one client uses it, each call uninterrupted. Calls of several clients, command by command, are the subject
 of `CircuitRuns`. Key expiry is left out.
 */
module CircuitBreaker {
  import opened Base

  /** The stored circuit; a missing key means closed. */
  datatype Circuit = Circuit(openCount: nat, openUntil: real)

  datatype Permit = Permit(probe: bool)

  datatype Settings = Settings(threshold: int, window: real, cooldowns: seq<real>)

  predicate Usable(s: Settings) {
    s.cooldowns != []
  }

  /** Failure times after the cutoff. */
  function Recent(times: seq<real>, cutoff: real): (r: seq<real>)
    ensures |r| <= |times|
  {
    if times == [] then []
    else
      var last := times[|times| - 1];
      Recent(times[..|times| - 1], cutoff) + if last > cutoff then [last] else []
  }

  /** Pruning twice is pruning at the later cutoff. */
  lemma {:induction false} RecentOfRecent(times: seq<real>, early: real, late: real)
    requires early <= late
    ensures Recent(Recent(times, early), late) == Recent(times, late)
  {
    if times != [] {
      var front, last := times[..|times| - 1], times[|times| - 1];
      RecentOfRecent(front, early, late);
      var kept := Recent(front, early);
      if last > early {
        assert (kept + [last])[..|kept|] == kept;
      } else {
        assert kept + [] == kept;
      }
    }
  }

  lemma RecentAppend(times: seq<real>, t: real, cutoff: real)
    ensures Recent(times + [t], cutoff) == Recent(times, cutoff) + if t > cutoff then [t] else []
  {
    assert (times + [t])[..|times|] == times;
  }

  /** The failures a threshold is compared with: the latest one, and the earlier ones inside the window before it. */
  function InWindow(times: seq<real>, window: real): seq<real> {
    if times == [] then []
    else
      var last := times[|times| - 1];
      Recent(times[..|times| - 1], last - window) + [last]
  }

  /** Pruning the kept failures and adding one more gives the window before that one. */
  lemma FailureJoins(times: seq<real>, window: real, now: real)
    requires times != [] ==> times[|times| - 1] <= now
    ensures Recent(InWindow(times, window), now - window) + [now] == InWindow(times + [now], window)
  {
    hide Recent, InWindow;
    WindowOfAppend(times, window, now);
    if times == [] {
      WindowOfNone(window, now);
    } else {
      var front, last := times[..|times| - 1], times[|times| - 1];
      assert times == front + [last];
      WindowOfAppend(front, window, last);
      RecentAppend(Recent(front, last - window), last, now - window);
      RecentAppend(front, last, now - window);
      RecentOfRecent(front, last - window, now - window);
    }
  }

  lemma WindowOfNone(window: real, now: real)
    ensures InWindow([], window) == [] && Recent([], now - window) == []
  {
  }

  lemma WindowOfAppend(times: seq<real>, window: real, now: real)
    ensures InWindow(times + [now], window) == Recent(times, now - window) + [now]
  {
    hide Recent;
    assert (times + [now])[..|times|] == times;
  }

  /** The k-th opening in a row waits for the k-th cooldown, and from the last one on always for that. */
  function Cooldown(s: Settings, openCount: nat): real
    requires Usable(s) && openCount > 0
  {
    s.cooldowns[if openCount - 1 < |s.cooldowns| - 1 then openCount - 1 else |s.cooldowns| - 1]
  }

  /** `failure_threshold or self.failure_threshold`. */
  function Threshold(s: Settings, requested: Option<int>): int {
    if requested.Some? && requested.value != 0 then requested.value else s.threshold
  }

  /** The three Redis keys. */
  datatype Redis = Redis(circuit: Option<Circuit>, probe: bool, failures: seq<real>)

  function OpenCount(r: Redis): nat {
    if r.circuit.None? then 0 else r.circuit.value.openCount
  }

  /** What `before_call` does to the keys when nobody comes in between, and what it answers. */
  function Asked(r: Redis, now: real): (Redis, Option<Permit>) {
    if r.circuit.None? then (r, Some(Permit(false)))
    else if now < r.circuit.value.openUntil || r.probe then (r, None)
    else (r.(probe := true), Some(Permit(true)))
  }

  /** The transaction that prunes the failure set and adds a failure. */
  function WithFailure(s: Settings, r: Redis, now: real): Redis {
    r.(failures := Recent(r.failures, now - s.window) + [now])
  }

  /** `should_open`: an ordinary failure needs a full window. */
  predicate ShouldOpen(s: Settings, permit: Permit, immediate: bool, requested: Option<int>, count: int) {
    immediate || permit.probe || count >= Threshold(s, requested)
  }

  function Opened(s: Settings, openCount: nat, now: real): Circuit
    requires Usable(s) && openCount > 0
  {
    Circuit(openCount, now + Cooldown(s, openCount))
  }

  /** What `record_failure` makes of the keys when nobody comes in between. */
  function Failed(s: Settings, r: Redis, permit: Permit, now: real, immediate: bool, requested: Option<int>): Redis
    requires Usable(s)
  {
    var after := WithFailure(s, r, now);
    if ShouldOpen(s, permit, immediate, requested, |after.failures|)
    then Redis(Some(Opened(s, OpenCount(r) + 1, now)), false, after.failures)
    else after
  }

  /**
   Opened for the `n`-th time in a row: for the `n`-th of the cooldowns, or for the last one where there are fewer.
   */
  ghost predicate OpenFor(cooldowns: seq<real>, circuit: Option<Circuit>, n: nat, now: real) {
    && circuit.Some? && circuit.value.openCount == n
    && (1 <= n <= |cooldowns| ==> circuit.value.openUntil == now + cooldowns[n - 1])
    && (n > |cooldowns| > 0 ==> circuit.value.openUntil == now + cooldowns[|cooldowns| - 1])
  }

  /** The object between the calls of a single client. */
  class RedisCircuitBreaker {
    const settings: Settings
    var circuit: Option<Circuit>
    var probe: bool
    var failures: seq<real>
    /** All eligible failures since the last success, and how often the circuit was opened since then. */
    ghost var history: seq<real>
    ghost var openings: nat

    ghost function Contents(): Redis
      reads this
    {
      Redis(circuit, probe, failures)
    }

    /**
     The pruned failure set is the whole history cut to the window before the latest failure, and the stored open
     count is the number of openings since the last success.
     */
    ghost predicate Valid()
      reads this
    {
      && Usable(settings)
      && failures == InWindow(history, settings.window)
      && OpenCount(Contents()) == openings && (circuit.None? <==> openings == 0)
    }

    /** The clock has not gone back behind a recorded failure. */
    ghost predicate InOrder(now: real)
      reads this
    {
      history != [] ==> history[|history| - 1] <= now
    }

    constructor (s: Settings)
      requires Usable(s)
      ensures Valid() && settings == s && circuit == None && !probe && history == []
    {
      settings, circuit, probe, failures := s, None, false, [];
      history, openings := [], 0;
    }

    /**
     Closed: go ahead. Open: refused until the cooldown is over, then only a caller that finds no probe key goes ahead.
     */
    method BeforeCall(now: real) returns (permit: Option<Permit>)
      requires Valid()
      modifies this`probe
      ensures Valid() && (Contents(), permit) == Asked(old(Contents()), now)
      ensures circuit.None? ==> permit == Some(Permit(false)) && probe == old(probe)
      ensures circuit.Some? ==> (permit.Some? <==> circuit.value.openUntil <= now && !old(probe))
      ensures circuit.Some? && permit.Some? ==> permit == Some(Permit(true)) && probe
      ensures circuit.Some? && permit.None? ==> probe == old(probe)
    {
      if circuit.None? {
        return Some(Permit(false));
      }
      if now < circuit.value.openUntil || probe {
        return None;
      }
      probe := true;
      return Some(Permit(true));
    }

    /** A success forgets everything. */
    method RecordSuccess(permit: Permit)
      requires Valid()
      modifies this
      ensures Valid() && circuit == None && !probe && failures == [] && history == []
    {
      circuit, probe, failures := None, false, [];
      history, openings := [], 0;
    }

    /** A failure that does not count only gives the probe back. */
    method RecordIneligible(permit: Permit) returns (opens: bool)
      requires Valid()
      modifies this`probe
      ensures Valid() && !opens && probe == (old(probe) && !permit.probe)
    {
      if permit.probe {
        probe := false;
      }
      opens := false;
    }

    /** The transaction that prunes the failure set and adds this failure. */
    method AddFailure(now: real)
      requires Valid() && InOrder(now)
      modifies this`failures, this`history
      ensures Valid() && history == old(history) + [now]
      ensures Contents() == WithFailure(settings, old(Contents()), now)
    {
      hide Recent, InWindow;
      FailureJoins(history, settings.window, now);
      failures := Recent(failures, now - settings.window) + [now];
      history := history + [now];
    }

    /** An ordinary failure opens the circuit exactly when its window is full. */
    method RecordFailure(permit: Permit, now: real, immediate: bool, requested: Option<int>) returns (opens: bool)
      requires Valid() && InOrder(now)
      modifies this
      ensures Valid() && history == old(history) + [now]
      ensures Contents() == Failed(settings, old(Contents()), permit, now, immediate, requested)
      ensures opens <==> immediate || permit.probe ||
                         |InWindow(old(history) + [now], settings.window)| >=
                         (if requested.Some? && requested.value != 0 then requested.value else settings.threshold)
      ensures !opens ==> circuit == old(circuit) && probe == old(probe)
      ensures opens ==> openings == old(openings) + 1 && !probe && OpenFor(settings.cooldowns, circuit, openings, now)
    {
      hide InWindow, Recent, WithFailure;
      AddFailure(now);
      var count := |failures|;
      var openCount := if circuit.None? then 0 else circuit.value.openCount;
      opens := ShouldOpen(settings, permit, immediate, requested, count);
      if opens {
        openCount := openCount + 1;
        circuit := Some(Circuit(openCount, now + Cooldown(settings, openCount)));
        openings := openings + 1;
        probe := false;
      }
    }
  }

  // ---------------------------------------------------------------- what the window contains

  /** The positions of the failures after the cutoff. */
  ghost function After(times: seq<real>, cutoff: real): set<int> {
    set i | 0 <= i < |times| && times[i] > cutoff
  }

  /** What is kept is as many as the failures after the cutoff are. */
  lemma {:induction false} RecentCounts(times: seq<real>, cutoff: real)
    ensures |Recent(times, cutoff)| == |After(times, cutoff)|
  {
    if times != [] {
      var n := |times| - 1;
      var front := times[..n];
      RecentCounts(front, cutoff);
      assert After(times, cutoff) == if times[n] > cutoff then After(front, cutoff) + {n} else After(front, cutoff);
    }
  }

  /**
   With a positive window and times in order, the count compared with the threshold is the number of failures
   recorded since the last success that lie inside the window before the latest one.
   */
  lemma WindowCounts(times: seq<real>, window: real)
    requires times != [] && window > 0.0
    ensures |InWindow(times, window)| == |After(times, times[|times| - 1] - window)|
  {
    var n := |times| - 1;
    var cutoff := times[n] - window;
    RecentCounts(times[..n], cutoff);
    assert After(times, cutoff) == After(times[..n], cutoff) + {n};
  }
}
