/**
 The counter projection `cost_counters_from_state` and the price arithmetic of app/jobs_v22/cost_models.py.
 The wall clock enters as the number of elapsed milliseconds.
 */
module CostCounters {
  import opened Base
  import opened CostModels
  import opened CostLedger

  /** The counters kept both per provider and in total, and those only kept per provider. */
  datatype Metric = Attempts | Successes | Failures | OutcomeUnknown | LocalDenials | DurationMs | BillableUnits
    | EstimatedCost | PricingUnknown

  datatype CounterKey =
    | Of(provider: Provider, metric: Metric)
    | Total(metric: Metric)
    | InputTokens | OutputTokens | TotalTokens | UsageUnknownCalls
    | SchemaVersion | LedgerRevision | PricingRevision | WallElapsedMs | ActiveElapsedMs | JobAttempts | JobRetries
    | CheckpointHits

  /** Duration and billable units have no total counter. */
  predicate Totalled(metric: Metric) {
    metric != DurationMs && metric != BillableUnits
  }

  predicate IsCounter(key: CounterKey) {
    key.Total? ==> Totalled(key.metric)
  }

  // ---------------------------------------------------------------- prices

  /** A rate per million tokens, rounded upward to whole microdollars. */
  function Microdollars(tokens: int, rate: int): Result<int, Error> {
    if tokens < 0 || rate < 0 then Err(BadArgument)
    else if tokens == 0 || rate == 0 then Ok(0)
    else Ok((tokens * rate + 999_999) / 1_000_000)
  }

  /** Rounded up by less than one microdollar; negative inputs are refused. */
  lemma MicrodollarsRoundUp(tokens: int, rate: int)
    ensures Microdollars(tokens, rate).Ok? <==> tokens >= 0 && rate >= 0
    ensures Microdollars(tokens, rate).Ok? ==>
              0 <= 1_000_000 * Microdollars(tokens, rate).value - tokens * rate <= 999_999
  {
    if tokens == 0 || rate == 0 {
      assert tokens * rate == 0;
    } else {
      var product := tokens * rate;
      RoundUp(product);
    }
  }

  lemma RoundUp(product: int)
    ensures 0 <= 1_000_000 * ((product + 999_999) / 1_000_000) - product <= 999_999
  {
  }

  function OrZero(x: Option<int>): int {
    if x.None? then 0 else x.value
  }

  /** The priced part of one kind of tokens. */
  function TokenCost(tokens: int, rate: Option<int>): int {
    if tokens == 0 || rate.None? then 0
    else
      var cost := Microdollars(tokens, rate.value);
      if cost.Ok? then cost.value else 0
  }

  function TokensUnpriced(tokens: int, rate: Option<int>): int {
    if rate.None? then tokens else 0
  }

  function ReportsTokens(c: Claim): bool {
    c.provider == Dify && c.usageKnown
  }

  function RequestRate(p: Pricing, provider: Provider): Option<int> {
    if provider in p.request then p.request[provider] else None
  }

  function ClaimCost(p: Pricing, c: Claim): int {
    var rate := RequestRate(p, c.provider);
    (if rate.None? then 0 else rate.value * c.billableUnits) +
    (if ReportsTokens(c) then TokenCost(OrZero(c.inputTokens), p.inputRate) +
          TokenCost(OrZero(c.outputTokens), p.outputRate) else 0)
  }

  function ClaimUnknown(p: Pricing, c: Claim): int {
    (if RequestRate(p, c.provider).None? then c.billableUnits else 0) +
    (if ReportsTokens(c)
     then TokensUnpriced(OrZero(c.inputTokens), p.inputRate) + TokensUnpriced(OrZero(c.outputTokens), p.outputRate)
     else 0)
  }

  // ---------------------------------------------------------------- what each counter counts

  function If(condition: bool): int {
    if condition then 1 else 0
  }

  function MetricOf(p: Pricing, metric: Metric, c: Claim): int {
    match metric
    case Attempts => 1
    case Successes => If(c.outcome == Some(Success))
    case Failures => If(c.outcome == Some(Failure))
    case OutcomeUnknown => If(c.outcome == None)
    case LocalDenials => 0
    case DurationMs => OrZero(c.durationMs)
    case BillableUnits => c.billableUnits
    case EstimatedCost => ClaimCost(p, c)
    case PricingUnknown => ClaimUnknown(p, c)
  }

  /** What one claim adds to a counter. */
  function Share(p: Pricing, key: CounterKey, c: Claim): int {
    match key
    case Of(provider, metric) => if provider == c.provider then MetricOf(p, metric, c) else 0
    case Total(metric) => MetricOf(p, metric, c)
    case InputTokens => if ReportsTokens(c) then OrZero(c.inputTokens) else 0
    case OutputTokens => if ReportsTokens(c) then OrZero(c.outputTokens) else 0
    case TotalTokens => if ReportsTokens(c) then OrZero(c.totalTokens) else 0
    case UsageUnknownCalls => If(c.provider == Dify && !c.usageKnown)
    case _ => 0
  }

  function Sum(p: Pricing, key: CounterKey, claims: seq<Claim>): int {
    if claims == [] then 0 else Sum(p, key, claims[..|claims| - 1]) + Share(p, key, claims[|claims| - 1])
  }

  /** What the denials of one operation add. */
  function DenialShare(key: CounterKey, operation: Operation, count: int): int {
    match key
    case Of(provider, LocalDenials) => if provider == ProviderOf(operation) then count else 0
    case Total(LocalDenials) => count
    case _ => 0
  }

  function DenialSum(key: CounterKey, denials: map<Operation, int>, operations: seq<Operation>): int {
    if operations == [] then 0
    else
      var last := operations[|operations| - 1];
      var share := if last in denials then DenialShare(key, last, denials[last]) else 0;
      DenialSum(key, denials, operations[..|operations| - 1]) + share
  }

  function Retries(s: Ledger): int {
    match s.phaseAttempts
    case None => if s.jobAttempts > 1 then s.jobAttempts - 1 else 0
    case Some(phases) => PhaseTotal(phases) - |phases|
  }

  function Fixed(s: Ledger, wallMs: nat, key: CounterKey): int {
    match key
    case SchemaVersion => 1
    case LedgerRevision => s.revision
    case PricingRevision => s.pricing.revision
    case WallElapsedMs => wallMs
    case ActiveElapsedMs => s.activeElapsedMs
    case JobAttempts => s.jobAttempts
    case JobRetries => Retries(s)
    case CheckpointHits => s.checkpointHits
    case _ => 0
  }

  /** The value of a counter, independent of any order of claims. */
  function Expected(s: Ledger, wallMs: nat, key: CounterKey): int {
    Fixed(s, wallMs, key) + DenialSum(key, s.denials, OPERATIONS) + Sum(s.pricing, key, s.claims)
  }

  // ---------------------------------------------------------------- the projection

  /** A counter that was never added to is still zero. */
  function At(counters: map<CounterKey, int>, key: CounterKey): int {
    if key in counters then counters[key] else 0
  }

  /** `counters[key] += amount`. */
  function Plus(counters: map<CounterKey, int>, key: CounterKey, amount: int): (after: map<CounterKey, int>)
    ensures forall k :: At(after, k) == At(counters, k) + if k == key then amount else 0
  {
    counters[key := At(counters, key) + amount]
  }

  /** One turn of the loop over the denials. */
  method AddDenials(operation: Operation, count: int, counters: map<CounterKey, int>)
    returns (after: map<CounterKey, int>)
    ensures forall key :: At(after, key) == At(counters, key) + DenialShare(key, operation, count)
  {
    hide Plus, At;
    after := Plus(counters, Of(ProviderOf(operation), LocalDenials), count);
    after := Plus(after, Total(LocalDenials), count);
  }

  method AddOutcome(c: Claim, counters: map<CounterKey, int>) returns (after: map<CounterKey, int>)
    ensures forall key :: At(after, key) == At(counters, key) + OutcomeShare(key, c)
  {
    hide Plus, At;
    after := Plus(counters, Of(c.provider, Attempts), 1);
    after := Plus(after, Total(Attempts), 1);
    after := Plus(after, Of(c.provider, BillableUnits), c.billableUnits);
    match c.outcome {
      case Some(Success) =>
        after := Plus(after, Of(c.provider, Successes), 1);
        after := Plus(after, Total(Successes), 1);
      case Some(Failure) =>
        after := Plus(after, Of(c.provider, Failures), 1);
        after := Plus(after, Total(Failures), 1);
      case None =>
        after := Plus(after, Of(c.provider, OutcomeUnknown), 1);
        after := Plus(after, Total(OutcomeUnknown), 1);
    }
    after := Plus(after, Of(c.provider, DurationMs), OrZero(c.durationMs));
  }

  ghost function MetricOfOutcome(c: Claim): Metric {
    match c.outcome
    case Some(Success) => Successes
    case Some(Failure) => Failures
    case None => OutcomeUnknown
  }

  ghost function OutcomeShare(key: CounterKey, c: Claim): int {
    (if key == Of(c.provider, Attempts) || key == Total(Attempts) then 1 else 0) +
    (if key == Of(c.provider, BillableUnits) then c.billableUnits else 0) +
    (if key == Of(c.provider, MetricOfOutcome(c)) || key == Total(MetricOfOutcome(c)) then 1 else 0) +
    (if key == Of(c.provider, DurationMs) then OrZero(c.durationMs) else 0)
  }

  /** The token counters and the cost of one claim. */
  method AddUsage(p: Pricing, c: Claim, counters: map<CounterKey, int>)
    returns (after: map<CounterKey, int>, cost: int, unknown: int)
    requires ValidPricing(p) && ValidClaim(c)
    ensures cost == ClaimCost(p, c) && unknown == ClaimUnknown(p, c)
    ensures forall key :: At(after, key) == At(counters, key) + UsageShare(key, c)
  {
    hide Plus, At;
    after, cost, unknown := counters, 0, 0;
    var rate := p.request[c.provider];
    if rate.None? {
      unknown := unknown + c.billableUnits;
    } else {
      cost := cost + rate.value * c.billableUnits;
    }
    if c.provider == Dify {
      if c.usageKnown {
        var input, output := OrZero(c.inputTokens), OrZero(c.outputTokens);
        after := Plus(after, InputTokens, input);
        after := Plus(after, OutputTokens, output);
        after := Plus(after, TotalTokens, OrZero(c.totalTokens));
        cost, unknown := AddTokens(input, p.inputRate, cost, unknown);
        cost, unknown := AddTokens(output, p.outputRate, cost, unknown);
      } else {
        after := Plus(after, UsageUnknownCalls, 1);
      }
    }
  }

  ghost function UsageShare(key: CounterKey, c: Claim): int {
    if key.InputTokens? then (if ReportsTokens(c) then OrZero(c.inputTokens) else 0)
    else if key.OutputTokens? then (if ReportsTokens(c) then OrZero(c.outputTokens) else 0)
    else if key.TotalTokens? then (if ReportsTokens(c) then OrZero(c.totalTokens) else 0)
    else if key.UsageUnknownCalls? then If(c.provider == Dify && !c.usageKnown)
    else 0
  }

  /** `if tokens: ...` for one kind of tokens. */
  method AddTokens(tokens: int, rate: Option<int>, cost: int, unknown: int) returns (newCost: int, newUnknown: int)
    requires tokens >= 0 && (rate.Some? ==> rate.value >= 0)
    ensures newCost == cost + TokenCost(tokens, rate) && newUnknown == unknown + TokensUnpriced(tokens, rate)
  {
    newCost, newUnknown := cost, unknown;
    if tokens != 0 {
      if rate.None? {
        newUnknown := newUnknown + tokens;
      } else {
        newCost := newCost + Microdollars(tokens, rate.value).value;
      }
    }
  }

  /** One turn of the loop over the claims. */
  method AddClaim(p: Pricing, c: Claim, counters: map<CounterKey, int>) returns (after: map<CounterKey, int>)
    requires ValidPricing(p) && ValidClaim(c)
    ensures forall key | IsCounter(key) :: At(after, key) == At(counters, key) + Share(p, key, c)
  {
    hide Plus, At, ClaimCost, ClaimUnknown, ValidPricing, ValidClaim;
    after := AddOutcome(c, counters);
    var cost: int, unknown: int;
    after, cost, unknown := AddUsage(p, c, after);
    after := Plus(after, Of(c.provider, EstimatedCost), cost);
    after := Plus(after, Of(c.provider, PricingUnknown), unknown);
    after := Plus(after, Total(EstimatedCost), cost);
    after := Plus(after, Total(PricingUnknown), unknown);
    forall key | IsCounter(key)
      ensures Share(p, key, c) == OutcomeShare(key, c) + UsageShare(key, c) +
              (if key == Of(c.provider, EstimatedCost) || key == Total(EstimatedCost) then ClaimCost(p, c) else 0) +
              (if key == Of(c.provider, PricingUnknown) || key == Total(PricingUnknown) then ClaimUnknown(p, c) else 0)
    {
      ShareSplits(p, key, c);
    }
  }

  lemma ShareSplits(p: Pricing, key: CounterKey, c: Claim)
    requires IsCounter(key)
    ensures Share(p, key, c) == OutcomeShare(key, c) + UsageShare(key, c) +
            (if key == Of(c.provider, EstimatedCost) || key == Total(EstimatedCost) then ClaimCost(p, c) else 0) +
            (if key == Of(c.provider, PricingUnknown) || key == Total(PricingUnknown) then ClaimUnknown(p, c) else 0)
  {
    hide ClaimCost, ClaimUnknown;
  }

  method AddAllDenials(s: Ledger, counters: map<CounterKey, int>) returns (after: map<CounterKey, int>)
    ensures forall key :: At(after, key) == At(counters, key) + DenialSum(key, s.denials, OPERATIONS)
  {
    hide At, ProviderOf;
    after := counters;
    var i: nat := 0;
    while i < |OPERATIONS|
      invariant i <= |OPERATIONS|
      invariant forall key :: At(after, key) == At(counters, key) + DenialSum(key, s.denials, OPERATIONS[..i])
    {
      var operation := OPERATIONS[i];
      assert OPERATIONS[..i + 1][..i] == OPERATIONS[..i] && OPERATIONS[..i + 1][i] == operation;
      if operation in s.denials {
        after := AddDenials(operation, s.denials[operation], after);
      }
      i := i + 1;
    }
    assert OPERATIONS[..|OPERATIONS|] == OPERATIONS;
  }

  method AddAllClaims(s: Ledger, counters: map<CounterKey, int>) returns (after: map<CounterKey, int>)
    requires ValidLedger(s)
    ensures forall key | IsCounter(key) :: At(after, key) == At(counters, key) + Sum(s.pricing, key, s.claims)
  {
    hide Share, At, ValidClaim, ValidPricing;
    after := counters;
    var i: nat := 0;
    while i < |s.claims|
      invariant i <= |s.claims|
      invariant forall key | IsCounter(key) :: At(after, key) == At(counters, key) + Sum(s.pricing, key, s.claims[..i])
    {
      assert s.claims[..i + 1][..i] == s.claims[..i] && s.claims[..i + 1][i] == s.claims[i];
      after := AddClaim(s.pricing, s.claims[i], after);
      i := i + 1;
    }
    assert s.claims[..|s.claims|] == s.claims;
  }

  predicate InRange(n: int) {
    0 <= n <= MAX_COUNTER_VALUE
  }

  /**
   `cost_counters_from_state`: every counter has the value `Expected` gives it; the projection raises exactly when
   one of them is outside the safe range.
   */
  method CountersFromState(s: Ledger, wallMs: nat) returns (result: Result<map<CounterKey, int>, Error>)
    requires ValidLedger(s)
    ensures result.Ok? ==> forall key | key != Total(DurationMs) && key != Total(BillableUnits) ::
              At(result.value, key) == Expected(s, wallMs, key)
    ensures result.Ok? <==> forall key | key != Total(DurationMs) && key != Total(BillableUnits) ::
              0 <= Expected(s, wallMs, key) <= 1_000_000_000_000_000
  {
    hide At, Sum, DenialSum, ValidLedger, Retries, InRange;
    var counters: map<CounterKey, int> := map[
      SchemaVersion := 1, LedgerRevision := s.revision, PricingRevision := s.pricing.revision, WallElapsedMs := wallMs,
      ActiveElapsedMs := s.activeElapsedMs, JobAttempts := s.jobAttempts, JobRetries := Retries(s),
            CheckpointHits := s.checkpointHits];
    StartsFixed(s, wallMs, counters);
    counters := AddAllDenials(s, counters);
    counters := AddAllClaims(s, counters);
    if forall key | key in counters && IsCounter(key) :: InRange(counters[key]) {
      result := Ok(counters);
      RangeOfKeys(counters);
    } else {
      result := Err(InvalidLedger);
      RangeOfKeys(counters);
    }
    RangesAre(s, wallMs);
  }

  /** All counters but the two totals that are not kept, and the range of each. */
  lemma RangesAre(s: Ledger, wallMs: nat)
    ensures forall key :: IsCounter(key) <==> key != Total(DurationMs) && key != Total(BillableUnits)
    ensures (forall key | IsCounter(key) :: InRange(Expected(s, wallMs, key))) <==>
            forall key | key != Total(DurationMs) && key != Total(BillableUnits) ::
              0 <= Expected(s, wallMs, key) <= 1_000_000_000_000_000
  {
    hide Expected;
    forall key ensures IsCounter(key) <==> key != Total(DurationMs) && key != Total(BillableUnits) {
    }
    if forall key | IsCounter(key) :: InRange(Expected(s, wallMs, key)) {
      forall key | key != Total(DurationMs) && key != Total(BillableUnits)
        ensures 0 <= Expected(s, wallMs, key) <= 1_000_000_000_000_000
      {
        assert InRange(Expected(s, wallMs, key));
      }
    }
  }

  lemma StartsFixed(s: Ledger, wallMs: nat, counters: map<CounterKey, int>)
    requires counters == map[
      SchemaVersion := 1, LedgerRevision := s.revision, PricingRevision := s.pricing.revision, WallElapsedMs := wallMs,
      ActiveElapsedMs := s.activeElapsedMs, JobAttempts := s.jobAttempts, JobRetries := Retries(s),
            CheckpointHits := s.checkpointHits]
    ensures forall key :: At(counters, key) == Fixed(s, wallMs, key)
  {
    hide Retries;
  }

  lemma RangeOfKeys(counters: map<CounterKey, int>)
    ensures (forall key | key in counters && IsCounter(key) :: InRange(counters[key])) <==>
            (forall key | IsCounter(key) :: InRange(At(counters, key)))
  {
    if forall key | IsCounter(key) :: InRange(At(counters, key)) {
      forall key | key in counters && IsCounter(key) ensures InRange(counters[key]) {
        assert At(counters, key) == counters[key];
      }
    }
  }
}
