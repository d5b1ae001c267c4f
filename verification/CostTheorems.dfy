/** What the counter projection of app/jobs_v22/cost_models.py conserves, bounds and never lets fall. */
module CostTheorems {
  import opened Base
  import opened CostModels
  import opened Optimistic
  import opened CostLedger
  import opened CostCounters

  // ---------------------------------------------------------------- order of claims

  lemma WithoutLast(claims: seq<Claim>, j: nat)
    requires j < |claims| - 1
    ensures var n := |claims| - 1;
      var without := claims[..j] + claims[j + 1..];
      |without| == n && without[..n - 1] == claims[..n][..j] + claims[..n][j + 1..] && without[n - 1] == claims[n]
  {
  }

  lemma {:induction false} SumRemove(p: Pricing, key: CounterKey, claims: seq<Claim>, j: nat)
    requires j < |claims|
    ensures Sum(p, key, claims) == Sum(p, key, claims[..j] + claims[j + 1..]) + Share(p, key, claims[j])
  {
    hide Share, MetricOf;
    var n := |claims| - 1;
    var without := claims[..j] + claims[j + 1..];
    if j == n {
      assert without == claims[..n];
    } else {
      var front := claims[..n];
      SumRemove(p, key, front, j);
      WithoutLast(claims, j);
    }
  }

  lemma MultisetWithout(claims: seq<Claim>, j: nat)
    requires j < |claims|
    ensures multiset(claims[..j] + claims[j + 1..]) == multiset(claims) - multiset{claims[j]}
  {
    assert claims == claims[..j] + ([claims[j]] + claims[j + 1..]);
  }

  /** Every counter is the same for every order of the claims. */
  lemma {:induction false} SumIgnoresOrder(p: Pricing, key: CounterKey, a: seq<Claim>, b: seq<Claim>)
    requires multiset(a) == multiset(b)
    ensures Sum(p, key, a) == Sum(p, key, b)
    decreases |a|
  {
    hide Sum;
    assert |a| == |multiset(a)| == |multiset(b)| == |b|;
    if a != [] {
      var n := |a| - 1;
      assert a[n] in a && multiset(a)[a[n]] > 0;
      var j := PositionOf(b, a[n]);
      MultisetWithout(b, j);
      MultisetWithout(a, n);
      assert a[..n] + a[n + 1..] == a[..n];
      SumIgnoresOrder(p, key, a[..n], b[..j] + b[j + 1..]);
      SumRemove(p, key, b, j);
      SumRemove(p, key, a, n);
    } else {
      assert b == [];
    }
  }

  lemma PositionOf(claims: seq<Claim>, c: Claim) returns (j: nat)
    requires multiset(claims)[c] > 0 || c in claims
    ensures j < |claims| && claims[j] == c
  {
    assert c in multiset(claims) <==> c in claims;
    j :| 0 <= j < |claims| && claims[j] == c;
  }

  lemma CountersIgnoreOrder(s: Ledger, claims: seq<Claim>, wallMs: nat, key: CounterKey)
    requires multiset(s.claims) == multiset(claims)
    ensures Expected(s.(claims := claims), wallMs, key) == Expected(s, wallMs, key)
  {
    SumIgnoresOrder(s.pricing, key, s.claims, claims);
    hide Sum, DenialSum;
  }

  // ---------------------------------------------------------------- conservation

  lemma OneOutcome(c: Claim)
    ensures If(c.outcome == Some(Success)) + If(c.outcome == Some(Failure)) + If(c.outcome == None) == 1
  {
    match c.outcome
    case None =>
    case Some(Success) =>
    case Some(Failure) =>
  }

  /** A provider's attempts are its successes, failures and unknown outcomes. */
  lemma {:induction false} AttemptsSplit(p: Pricing, provider: Provider, claims: seq<Claim>)
    ensures Sum(p, Of(provider, Attempts), claims) ==
            Sum(p, Of(provider, Successes), claims) + Sum(p, Of(provider, Failures), claims) +
                  Sum(p, Of(provider, OutcomeUnknown), claims)
  {
    if claims != [] {
      AttemptsSplit(p, provider, claims[..|claims| - 1]);
      OneOutcome(claims[|claims| - 1]);
    }
  }

  function OverProviders(p: Pricing, metric: Metric, claims: seq<Claim>, providers: seq<Provider>): int {
    if providers == [] then 0
    else Sum(p, Of(providers[0], metric), claims) + OverProviders(p, metric, claims, providers[1..])
  }

  lemma {:induction false} OverProvidersLast(p: Pricing, metric: Metric, claims: seq<Claim>, providers: seq<Provider>)
    requires claims != [] && Distinct(providers)
    ensures OverProviders(p, metric, claims, providers) ==
            OverProviders(p, metric, claims[..|claims| - 1], providers) +
            if claims[|claims| - 1].provider in providers then MetricOf(p, metric, claims[|claims| - 1]) else 0
  {
    hide MetricOf;
    if providers != [] {
      OverProvidersLast(p, metric, claims, providers[1..]);
      assert providers == [providers[0]] + providers[1..];
    }
  }

  lemma {:induction false} OverProvidersEmpty(p: Pricing, metric: Metric, providers: seq<Provider>)
    ensures OverProviders(p, metric, [], providers) == 0
  {
    if providers != [] {
      OverProvidersEmpty(p, metric, providers[1..]);
    }
  }

  lemma EveryProviderListed(provider: Provider)
    ensures provider in PROVIDERS && Distinct(PROVIDERS)
  {
    assert PROVIDERS[0] == SerpApi && PROVIDERS[1] == Firecrawl && PROVIDERS[2] == Jina && PROVIDERS[3] == PageSpeed;
    assert PROVIDERS[4] == Gsc && PROVIDERS[5] == Ga4 && PROVIDERS[6] == Gbp && PROVIDERS[7] == Dify;
  }

  /** Over the claims, each total is the sum of the providers' counters. */
  lemma {:induction false} TotalsAddUp(p: Pricing, metric: Metric, claims: seq<Claim>)
    ensures Sum(p, Total(metric), claims) == OverProviders(p, metric, claims, PROVIDERS)
  {
    hide MetricOf, OverProviders;
    if claims == [] {
      OverProvidersEmpty(p, metric, PROVIDERS);
    } else {
      var last := claims[|claims| - 1];
      TotalsAddUp(p, metric, claims[..|claims| - 1]);
      EveryProviderListed(last.provider);
      OverProvidersLast(p, metric, claims, PROVIDERS);
    }
  }

  function DenialsOverProviders(denials: map<Operation, int>, operations: seq<Operation>,
          providers: seq<Provider>): int
  {
    if providers == [] then 0
    else DenialSum(Of(providers[0], LocalDenials), denials, operations) +
          DenialsOverProviders(denials, operations, providers[1..])
  }

  lemma {:induction false} DenialsOverProvidersLast(denials: map<Operation, int>, operations: seq<Operation>,
        providers: seq<Provider>)
    requires operations != [] && Distinct(providers)
    ensures var last := operations[|operations| - 1];
      DenialsOverProviders(denials, operations, providers) ==
      DenialsOverProviders(denials, operations[..|operations| - 1], providers) +
      if last in denials && ProviderOf(last) in providers then denials[last] else 0
  {
    hide ProviderOf;
    if providers != [] {
      DenialsOverProvidersLast(denials, operations, providers[1..]);
      assert providers == [providers[0]] + providers[1..];
    }
  }

  lemma {:induction false} NoDenialsOverProviders(denials: map<Operation, int>, providers: seq<Provider>)
    ensures DenialsOverProviders(denials, [], providers) == 0
  {
    if providers != [] {
      NoDenialsOverProviders(denials, providers[1..]);
    }
  }

  /** The denial total is the sum of the providers' denials. */
  lemma {:induction false} DenialTotalsAddUp(denials: map<Operation, int>, operations: seq<Operation>)
    ensures DenialSum(Total(LocalDenials), denials, operations) == DenialsOverProviders(denials, operations, PROVIDERS)
  {
    hide ProviderOf, DenialsOverProviders;
    if operations == [] {
      NoDenialsOverProviders(denials, PROVIDERS);
    } else {
      var last := operations[|operations| - 1];
      DenialTotalsAddUp(denials, operations[..|operations| - 1]);
      EveryProviderListed(ProviderOf(last));
      DenialsOverProvidersLast(denials, operations, PROVIDERS);
    }
  }

  function CounterOverProviders(s: Ledger, wallMs: nat, metric: Metric, providers: seq<Provider>): int {
    if providers == [] then 0
    else Expected(s, wallMs, Of(providers[0], metric)) + CounterOverProviders(s, wallMs, metric, providers[1..])
  }

  lemma {:induction false} CounterOverProvidersSplits(s: Ledger, wallMs: nat, metric: Metric, providers: seq<Provider>)
    ensures CounterOverProviders(s, wallMs, metric, providers) ==
            OverProviders(s.pricing, metric, s.claims, providers) +
            if metric == LocalDenials then DenialsOverProviders(s.denials, OPERATIONS, providers) else 0
  {
    if providers != [] {
      CounterOverProvidersSplits(s, wallMs, metric, providers[1..]);
      OtherMetricsIgnoreDenials(Of(providers[0], metric), s.denials, OPERATIONS);
      hide DenialSum, Sum;
    }
  }

  lemma {:induction false} OtherMetricsIgnoreDenials(key: CounterKey, denials: map<Operation, int>,
          operations: seq<Operation>)
    ensures !((key.Of? || key.Total?) && key.metric == LocalDenials) ==> DenialSum(key, denials, operations) == 0
  {
    if operations != [] {
      OtherMetricsIgnoreDenials(key, denials, operations[..|operations| - 1]);
    }
  }

  /** Every total counter is the sum of the providers' counters of its kind. */
  lemma TotalIsSumOverProviders(s: Ledger, wallMs: nat, metric: Metric)
    requires Totalled(metric)
    ensures Expected(s, wallMs, Total(metric)) == CounterOverProviders(s, wallMs, metric, PROVIDERS)
  {
    hide Sum, DenialSum, OverProviders, DenialsOverProviders, CounterOverProviders;
    CounterOverProvidersSplits(s, wallMs, metric, PROVIDERS);
    TotalsAddUp(s.pricing, metric, s.claims);
    DenialTotalsAddUp(s.denials, OPERATIONS);
    OtherMetricsIgnoreDenials(Total(metric), s.denials, OPERATIONS);
  }

  lemma ProviderAttemptsSplit(s: Ledger, wallMs: nat, provider: Provider)
    ensures Expected(s, wallMs, Of(provider, Attempts)) ==
            Expected(s, wallMs, Of(provider, Successes)) + Expected(s, wallMs, Of(provider, Failures)) +
            Expected(s, wallMs, Of(provider, OutcomeUnknown))
  {
    hide Sum, DenialSum;
    AttemptsSplit(s.pricing, provider, s.claims);
    OtherMetricsIgnoreDenials(Of(provider, Attempts), s.denials, OPERATIONS);
    OtherMetricsIgnoreDenials(Of(provider, Successes), s.denials, OPERATIONS);
    OtherMetricsIgnoreDenials(Of(provider, Failures), s.denials, OPERATIONS);
    OtherMetricsIgnoreDenials(Of(provider, OutcomeUnknown), s.denials, OPERATIONS);
  }

  lemma {:induction false} TokensSplit(p: Pricing, claims: seq<Claim>)
    requires forall i | 0 <= i < |claims| :: ValidClaim(claims[i])
    ensures Sum(p, TotalTokens, claims) == Sum(p, InputTokens, claims) + Sum(p, OutputTokens, claims)
  {
    if claims != [] {
      TokensSplit(p, claims[..|claims| - 1]);
      assert ValidClaim(claims[|claims| - 1]);
    }
  }

  /** Dify's total tokens are its input and output tokens. */
  lemma DifyTokensSplit(s: Ledger, wallMs: nat)
    requires ValidLedger(s)
    ensures Expected(s, wallMs, TotalTokens) == Expected(s, wallMs, InputTokens) + Expected(s, wallMs, OutputTokens)
  {
    TokensSplit(s.pricing, s.claims);
    OtherMetricsIgnoreDenials(TotalTokens, s.denials, OPERATIONS);
    OtherMetricsIgnoreDenials(InputTokens, s.denials, OPERATIONS);
    OtherMetricsIgnoreDenials(OutputTokens, s.denials, OPERATIONS);
    hide Sum, DenialSum;
  }

  // ---------------------------------------------------------------- rounding

  /** One million times the exact cost of one priced token term. */
  function ExactTokens(tokens: int, rate: Option<int>): int {
    if rate.None? then 0 else tokens * rate.value
  }

  function Terms(tokens: int, rate: Option<int>): nat {
    if rate.None? || tokens == 0 then 0 else 1
  }

  /** One million times the exact cost of a claim's priced parts. */
  function ExactClaim(p: Pricing, c: Claim): int {
    (if c.provider in p.request && p.request[c.provider].Some?
     then 1_000_000 * p.request[c.provider].value * c.billableUnits else 0) +
    (if c.provider == Dify && c.usageKnown && c.inputTokens.Some? && p.inputRate.Some?
     then c.inputTokens.value * p.inputRate.value else 0) +
    (if c.provider == Dify && c.usageKnown && c.outputTokens.Some? && p.outputRate.Some?
     then c.outputTokens.value * p.outputRate.value else 0)
  }

  function ClaimTerms(p: Pricing, c: Claim): (n: nat)
    ensures n <= if c.provider == Dify then 2 else 0
  {
    if !ReportsTokens(c) then 0
    else Terms(OrZero(c.inputTokens), p.inputRate) + Terms(OrZero(c.outputTokens), p.outputRate)
  }

  function ExactCost(p: Pricing, claims: seq<Claim>): int {
    if claims == [] then 0 else ExactCost(p, claims[..|claims| - 1]) + ExactClaim(p, claims[|claims| - 1])
  }

  function TermCount(p: Pricing, claims: seq<Claim>): nat {
    if claims == [] then 0 else TermCount(p, claims[..|claims| - 1]) + ClaimTerms(p, claims[|claims| - 1])
  }

  lemma TokenCostRoundsUp(tokens: int, rate: Option<int>)
    requires tokens >= 0 && (rate.Some? ==> rate.value >= 0)
    ensures 0 <= 1_000_000 * TokenCost(tokens, rate) - ExactTokens(tokens, rate) <= 999_999 * Terms(tokens, rate)
  {
    if rate.Some? {
      MicrodollarsRoundUp(tokens, rate.value);
      if tokens == 0 {
        assert tokens * rate.value == 0;
      }
    }
    hide Microdollars;
  }

  lemma ClaimCostRoundsUp(p: Pricing, c: Claim)
    requires ValidPricing(p) && ValidClaim(c)
    ensures 0 <= 1_000_000 * ClaimCost(p, c) - ExactClaim(p, c) <= 999_999 * ClaimTerms(p, c)
  {
    if ReportsTokens(c) {
      TokenCostRoundsUp(OrZero(c.inputTokens), p.inputRate);
      TokenCostRoundsUp(OrZero(c.outputTokens), p.outputRate);
    }
    hide TokenCost, ExactTokens;
  }

  /**
   The estimate is never below the exact cost of what is priced, and exceeds it by less than one microdollar for
   each priced token term; only Dify claims have such terms, at most two each.
   */
  lemma {:induction false} EstimateRoundsUp(p: Pricing, claims: seq<Claim>)
    requires ValidPricing(p) && forall i | 0 <= i < |claims| :: ValidClaim(claims[i])
    ensures 0 <= 1_000_000 * Sum(p, Total(EstimatedCost), claims) - ExactCost(p, claims)
              <= 999_999 * TermCount(p, claims)
    ensures TermCount(p, claims) <= 2 * Sum(p, Of(Dify, Attempts), claims)
  {
    hide ClaimCost, ExactClaim, ValidPricing, ValidClaim;
    if claims != [] {
      EstimateRoundsUp(p, claims[..|claims| - 1]);
      ClaimCostRoundsUp(p, claims[|claims| - 1]);
    }
  }

  // ---------------------------------------------------------------- monotone cost

  /** No operation that may be claimed at all has a negative request price. */
  ghost predicate NonNegativePrices(p: Pricing) {
    forall operation | LimitOf(operation) > 0 && RequestRate(p, ProviderOf(operation)).Some? ::
      RequestRate(p, ProviderOf(operation)).value >= 0
  }

  lemma TokenCostNonNegative(tokens: int, rate: Option<int>)
    ensures TokenCost(tokens, rate) >= 0
  {
    if rate.Some? && tokens > 0 && rate.value > 0 {
      assert tokens * rate.value >= 0;
    }
  }

  /** A claim's cost and unpriced units only grow when it is reported. */
  lemma ClaimCostGrows(p: Pricing, c: Claim, d: Claim)
    requires ValidPricing(p) && ValidClaim(c) && ValidClaim(d) && Unreported(c) && Later(c, d)
    ensures ClaimUnknown(p, c) <= ClaimUnknown(p, d)
    ensures (RequestRate(p, c.provider).Some? ==> RequestRate(p, c.provider).value >= 0) ==>
              ClaimCost(p, c) <= ClaimCost(p, d)
  {
    TokenCostNonNegative(OrZero(d.inputTokens), p.inputRate);
    TokenCostNonNegative(OrZero(d.outputTokens), p.outputRate);
    hide TokenCost;
    var rate := RequestRate(p, c.provider);
    if rate.Some? && rate.value >= 0 {
      AtLeastOnce(rate.value, d.billableUnits);
    }
  }

  lemma AtLeastOnce(rate: int, units: int)
    requires rate >= 0 && units >= 1
    ensures rate * 1 <= rate * units
  {
  }

  lemma ClaimCostNonNegative(p: Pricing, c: Claim)
    requires ValidPricing(p) && ValidClaim(c)
    ensures ClaimUnknown(p, c) >= 0
    ensures (RequestRate(p, c.provider).Some? ==> RequestRate(p, c.provider).value >= 0) ==> ClaimCost(p, c) >= 0
  {
    TokenCostNonNegative(OrZero(c.inputTokens), p.inputRate);
    TokenCostNonNegative(OrZero(c.outputTokens), p.outputRate);
    hide TokenCost;
    var rate := RequestRate(p, c.provider);
    if rate.Some? && rate.value >= 0 {
      AtLeastOnce(rate.value, c.billableUnits);
    }
  }

  /** Every claim of a safe ledger is for an operation with a positive limit. */
  lemma {:induction false} ClaimedIsAllowed(claims: seq<Claim>, i: nat)
    requires i < |claims|
    ensures Used(claims, claims[i].operation) > 0
  {
    if i < |claims| - 1 {
      ClaimedIsAllowed(claims[..|claims| - 1], i);
    }
  }

  ghost predicate PricedWell(p: Pricing, claims: seq<Claim>) {
    forall i | 0 <= i < |claims| :: PricedAt(p, claims[i])
  }

  predicate PricedAt(p: Pricing, c: Claim) {
    RequestRate(p, c.provider).Some? ==> RequestRate(p, c.provider).value >= 0
  }

  lemma SafeIsPricedWell(s: Ledger)
    requires Safe(s) && NonNegativePrices(s.pricing)
    ensures PricedWell(s.pricing, s.claims)
  {
    forall i | 0 <= i < |s.claims| ensures PricedAt(s.pricing, s.claims[i]) {
      ClaimedIsAllowed(s.claims, i);
      assert ValidClaim(s.claims[i]);
    }
  }

  lemma {:induction false} CostGrowsWithClaims(p: Pricing, a: seq<Claim>, b: seq<Claim>)
    requires ValidPricing(p) && |a| <= |b|
    requires forall i | 0 <= i < |a| :: ValidClaim(a[i]) && Unreported(a[i]) && Later(a[i], b[i])
    requires forall i | 0 <= i < |b| :: ValidClaim(b[i])
    ensures Sum(p, Total(PricingUnknown), a) <= Sum(p, Total(PricingUnknown), b)
    ensures PricedWell(p, b) ==> Sum(p, Total(EstimatedCost), a) <= Sum(p, Total(EstimatedCost), b)
  {
    hide ValidPricing, ValidClaim, Unreported, ClaimCost, ClaimUnknown;
    if b != [] {
      var n := |b| - 1;
      assert PricedWell(p, b) ==> PricedAt(p, b[n]);
      ClaimCostNonNegative(p, b[n]);
      if |a| == |b| {
        CostGrowsWithClaims(p, a[..n], b[..n]);
        ClaimCostGrows(p, a[n], b[n]);
      } else {
        CostGrowsWithClaims(p, a, b[..n]);
      }
    }
  }

  function Estimate(s: Ledger): int {
    Sum(s.pricing, Total(EstimatedCost), s.claims)
  }

  function Unpriced(s: Ledger): int {
    Sum(s.pricing, Total(PricingUnknown), s.claims)
  }

  lemma ExtensionCostsMore(s: Ledger, t: Ledger)
    requires Safe(s) && Safe(t) && Extends(s, t)
    ensures Unpriced(s) <= Unpriced(t)
    ensures NonNegativePrices(s.pricing) ==> Estimate(s) <= Estimate(t)
  {
    if NonNegativePrices(t.pricing) {
      SafeIsPricedWell(t);
    }
    CostGrowsWithClaims(s.pricing, s.claims, t.claims);
    hide Sum;
  }

  /**
   Along every run of every number of clients, unpriced units never fall, and neither does the estimate at non-negative
   prices.
   */
  lemma EveryRunCostsMore(s: System<Option<Ledger>>, events: seq<Event<Call>>, before: Ledger)
    requires Consistent(s) && s.key.value == Some(before) && Safe(before) && ValidCalls(events)
    ensures var after := Run(s, events, Write).key.value;
      && after.Some?
      && Unpriced(before) <= Unpriced(after.value)
      && (NonNegativePrices(before.pricing) ==> Estimate(before) <= Estimate(after.value))
  {
    hide Write, Safe, Extends, Unpriced, Estimate, NonNegativePrices;
    EveryRunExtends(s, events, before);
    ExtensionCostsMore(before, Run(s, events, Write).key.value.value);
  }

  /** No committed call lowers the estimate. */
  ghost predicate EstimateNeverFalls(p: Pricing) {
    forall s: Ledger, action: Action, now: int | Safe(s) && s.pricing == p && Perform(s, action, now).Ok? ::
      Estimate(s) <= Estimate(Perform(s, action, now).value.next)
  }

  /**
   The estimate is monotone exactly for catalogs without a negative price, which the catalog's own check does not
   exclude.
   */
  lemma EstimateNeverFallsIff(p: Pricing)
    requires ValidPricing(p)
    ensures EstimateNeverFalls(p) <==> NonNegativePrices(p)
  {
    if NonNegativePrices(p) {
      forall s: Ledger, action: Action, now: int | Safe(s) && s.pricing == p && Perform(s, action, now).Ok?
        ensures Estimate(s) <= Estimate(Perform(s, action, now).value.next)
      {
        PerformKeepsSafe(s, action, now);
        PerformExtends(s, action, now);
        ExtensionCostsMore(s, Perform(s, action, now).value.next);
      }
    } else {
      var operation :| LimitOf(operation) > 0 && RequestRate(p, ProviderOf(operation)).Some? &&
                       RequestRate(p, ProviderOf(operation)).value < 0;
      NegativePriceLowersEstimate(p, operation);
    }
  }

  /** One claim at a negative price makes the estimate of an empty ledger negative. */
  lemma NegativePriceLowersEstimate(p: Pricing, operation: Operation)
    requires ValidPricing(p) && LimitOf(operation) > 0
    requires RequestRate(p, ProviderOf(operation)).Some? && RequestRate(p, ProviderOf(operation)).value < 0
    ensures !EstimateNeverFalls(p)
  {
    hide Safe, Estimate, ValidPricing, RequestRate, Perform;
    var id := ClaimId([]);
    var s, t := FirstClaim(p, operation, id);
    FirstClaimCosts(p, operation, id);
    OneClaimCosts(s, t, NewClaim(operation, id, 0));
  }

  /** The first claim of a new ledger. */
  lemma FirstClaim(p: Pricing, operation: Operation, id: ClaimId) returns (s: Ledger, t: Ledger)
    requires ValidPricing(p) && LimitOf(operation) > 0
    ensures Safe(s) && s.pricing == p == t.pricing && s.claims == [] && t.claims == [NewClaim(operation, id, 0)]
    ensures Perform(s, ClaimAttempt(operation, id), 0).Ok? && t == Perform(s, ClaimAttempt(operation, id), 0).value.next
  {
    hide Safe, ValidLedger, ValidPricing, Balance, TotalDenials, LimitOf, ProviderOf;
    s := NewLedger(Worker(p, 0, false), 0);
    NewLedgerIsSafe(Worker(p, 0, false), 0);
    FreshClaimCommits(s, operation, id, 0);
    t := Perform(s, ClaimAttempt(operation, id), 0).value.next;
  }

  lemma FirstClaimCosts(p: Pricing, operation: Operation, id: ClaimId)
    requires RequestRate(p, ProviderOf(operation)).Some? && RequestRate(p, ProviderOf(operation)).value < 0
    ensures ClaimCost(p, NewClaim(operation, id, 0)) < 0
  {
  }

  lemma OneClaimCosts(s: Ledger, t: Ledger, c: Claim)
    requires s.claims == [] && t.claims == [c]
    ensures Estimate(s) == 0 && Estimate(t) == ClaimCost(t.pricing, c)
  {
    assert t.claims[..0] == [];
    assert Sum(t.pricing, Total(EstimatedCost), t.claims[..0]) == 0;
  }

  // ---------------------------------------------------------------- retries

  /** The attempts of a phase beyond its first one. */
  function Repeats(phases: map<AttemptPhase, int>, phase: AttemptPhase): int {
    if phase in phases then phases[phase] - 1 else 0
  }

  lemma PhasesUsed(phases: map<AttemptPhase, int>)
    ensures |phases| == (if JobPhase in phases then 1 else 0) + (if Preparation in phases then 1 else 0) +
          (if Execution in phases then 1 else 0)
  {
    var keys := phases.Keys;
    WithoutPhase(keys, JobPhase);
    WithoutPhase(keys - {JobPhase}, Preparation);
    WithoutPhase(keys - {JobPhase} - {Preparation}, Execution);
    NoPhaseLeft(keys);
  }

  lemma WithoutPhase(keys: set<AttemptPhase>, phase: AttemptPhase)
    ensures |keys| == |keys - {phase}| + if phase in keys then 1 else 0
  {
    if phase !in keys {
      assert keys - {phase} == keys;
    }
  }

  lemma NoPhaseLeft(keys: set<AttemptPhase>)
    ensures keys - {JobPhase} - {Preparation} - {Execution} == {}
  {
    forall x ensures x !in keys - {JobPhase} - {Preparation} - {Execution} {
      match x
      case JobPhase =>
      case Preparation =>
      case Execution =>
    }
  }

  /** Retries are counted phase by phase; a ledger without phases counts all attempts but the first. */
  lemma RetriesPerPhase(s: Ledger)
    requires ValidLedger(s)
    ensures 0 <= Retries(s) <= s.jobAttempts
    ensures match s.phaseAttempts {
      case Some(phases) =>
        Retries(s) == Repeats(phases, JobPhase) + Repeats(phases, Preparation) + Repeats(phases, Execution)
      case None => s.jobAttempts > 0 ==> Retries(s) == s.jobAttempts - 1
    }
  {
    hide ValidClaim, ValidPricing;
    match s.phaseAttempts
    case None =>
    case Some(phases) => PhasesUsed(phases);
  }
}
