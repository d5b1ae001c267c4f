/**
 Every counter of `cost_counters_from_state` (app/jobs_v22/cost_models.py), said of the claims, denials and prices
 themselves: counts are sizes of sets of claims, amounts are sums over the claims.
 */
module CounterMeaning {
  import opened Base
  import opened CostModels
  import opened CostCounters
  import opened CostTheorems

  function SumOf(amounts: seq<int>): int {
    if amounts == [] then 0 else SumOf(amounts[..|amounts| - 1]) + amounts[|amounts| - 1]
  }

  /** A counter to which each chosen claim adds one is the number of chosen claims. */
  lemma {:induction false} SumIsSize(p: Pricing, key: CounterKey, claims: seq<Claim>, chosen: set<nat>)
    requires forall i | i in chosen :: i < |claims|
    requires forall i | 0 <= i < |claims| :: Share(p, key, claims[i]) == if i in chosen then 1 else 0
    ensures Sum(p, key, claims) == |chosen|
  {
    hide Share;
    if claims == [] {
      assert chosen == {};
    } else {
      var n := |claims| - 1;
      SumIsSize(p, key, claims[..n], chosen - {n});
      if n in chosen {
        assert chosen == (chosen - {n}) + {n};
      } else {
        assert chosen - {n} == chosen;
      }
    }
  }

  lemma {:induction false} SumIsSumOf(p: Pricing, key: CounterKey, claims: seq<Claim>, amounts: seq<int>)
    requires |amounts| == |claims| && forall i | 0 <= i < |claims| :: Share(p, key, claims[i]) == amounts[i]
    ensures Sum(p, key, claims) == SumOf(amounts)
  {
    hide Share;
    if claims != [] {
      SumIsSumOf(p, key, claims[..|claims| - 1], amounts[..|claims| - 1]);
    }
  }

  /** Neither a fixed value nor a denial goes into this counter. */
  lemma OnlyClaimsCount(s: Ledger, wallMs: nat, key: CounterKey)
    requires (key.Of? || key.Total? ==> key.metric != LocalDenials)
    requires key.Of? || key.Total? || key.InputTokens? || key.OutputTokens? || key.TotalTokens? ||
             key.UsageUnknownCalls?
    ensures Expected(s, wallMs, key) == Sum(s.pricing, key, s.claims)
  {
    OtherMetricsIgnoreDenials(key, s.denials, OPERATIONS);
    hide Sum, DenialSum;
  }

  ghost function With(claims: seq<Claim>, provider: Provider): set<nat> {
    set i: nat | i < |claims| && claims[i].provider == provider
  }

  ghost function Ended(claims: seq<Claim>, outcome: Option<Outcome>): set<nat> {
    set i: nat | i < |claims| && claims[i].outcome == outcome
  }

  /** Attempts are claims; successes, failures and unknown outcomes are the claims that ended so. */
  lemma OutcomesAreCounts(s: Ledger, wallMs: nat, provider: Provider)
    ensures Expected(s, wallMs, Of(provider, Attempts)) == |With(s.claims, provider)|
    ensures Expected(s, wallMs, Of(provider, Successes)) == |With(s.claims, provider) * Ended(s.claims, Some(Success))|
    ensures Expected(s, wallMs, Of(provider, Failures)) == |With(s.claims, provider) * Ended(s.claims, Some(Failure))|
    ensures Expected(s, wallMs, Of(provider, OutcomeUnknown)) == |With(s.claims, provider) * Ended(s.claims, None)|
  {
    hide Expected, Sum;
    var p, mine := s.pricing, With(s.claims, provider);
    forall metric | metric in {Attempts, Successes, Failures, OutcomeUnknown}
      ensures Expected(s, wallMs, Of(provider, metric)) == Sum(p, Of(provider, metric), s.claims)
    {
      OnlyClaimsCount(s, wallMs, Of(provider, metric));
    }
    SumIsSize(p, Of(provider, Attempts), s.claims, mine);
    SumIsSize(p, Of(provider, Successes), s.claims, mine * Ended(s.claims, Some(Success)));
    SumIsSize(p, Of(provider, Failures), s.claims, mine * Ended(s.claims, Some(Failure)));
    SumIsSize(p, Of(provider, OutcomeUnknown), s.claims, mine * Ended(s.claims, None));
  }

  /** The same over all providers. */
  lemma TotalOutcomesAreCounts(s: Ledger, wallMs: nat)
    ensures Expected(s, wallMs, Total(Attempts)) == |s.claims|
    ensures Expected(s, wallMs, Total(Successes)) == |Ended(s.claims, Some(Success))|
    ensures Expected(s, wallMs, Total(Failures)) == |Ended(s.claims, Some(Failure))|
    ensures Expected(s, wallMs, Total(OutcomeUnknown)) == |Ended(s.claims, None)|
  {
    hide Expected, Sum;
    var p := s.pricing;
    forall metric | metric in {Attempts, Successes, Failures, OutcomeUnknown}
      ensures Expected(s, wallMs, Total(metric)) == Sum(p, Total(metric), s.claims)
    {
      OnlyClaimsCount(s, wallMs, Total(metric));
    }
    AttemptsAreClaims(p, s.claims);
    SumIsSize(p, Total(Successes), s.claims, Ended(s.claims, Some(Success)));
    SumIsSize(p, Total(Failures), s.claims, Ended(s.claims, Some(Failure)));
    SumIsSize(p, Total(OutcomeUnknown), s.claims, Ended(s.claims, None));
  }

  lemma {:induction false} AttemptsAreClaims(p: Pricing, claims: seq<Claim>)
    ensures Sum(p, Total(Attempts), claims) == |claims|
  {
    if claims != [] {
      AttemptsAreClaims(p, claims[..|claims| - 1]);
    }
  }

  /** A provider's duration is that of its completed claims; its units are those of all its claims. */
  lemma UnitsAreSums(s: Ledger, wallMs: nat, provider: Provider, durations: seq<int>, units: seq<int>)
    requires |durations| == |s.claims| == |units|
    requires forall i | 0 <= i < |s.claims| :: durations[i] ==
               if s.claims[i].provider == provider && s.claims[i].durationMs.Some? then s.claims[i].durationMs.value
               else 0
    requires forall i | 0 <= i < |s.claims| :: units[i] ==
               if s.claims[i].provider == provider then s.claims[i].billableUnits else 0
    ensures Expected(s, wallMs, Of(provider, DurationMs)) == SumOf(durations)
    ensures Expected(s, wallMs, Of(provider, BillableUnits)) == SumOf(units)
  {
    OnlyClaimsCount(s, wallMs, Of(provider, DurationMs));
    OnlyClaimsCount(s, wallMs, Of(provider, BillableUnits));
    hide Expected, Sum, SumOf;
    SumIsSumOf(s.pricing, Of(provider, DurationMs), s.claims, durations);
    SumIsSumOf(s.pricing, Of(provider, BillableUnits), s.claims, units);
  }

  /** What a Dify claim has reported of one kind of tokens. */
  ghost function Tokens(c: Claim, tokens: Option<int>): int {
    if c.provider == Dify && c.usageKnown && tokens.Some? then tokens.value else 0
  }

  /** The token counters, and the Dify claims without known usage. */
  lemma TokensAreSums(s: Ledger, wallMs: nat, input: seq<int>, output: seq<int>, total: seq<int>)
    requires |input| == |output| == |total| == |s.claims|
    requires forall i | 0 <= i < |s.claims| :: input[i] == Tokens(s.claims[i], s.claims[i].inputTokens)
    requires forall i | 0 <= i < |s.claims| :: output[i] == Tokens(s.claims[i], s.claims[i].outputTokens)
    requires forall i | 0 <= i < |s.claims| :: total[i] == Tokens(s.claims[i], s.claims[i].totalTokens)
    ensures Expected(s, wallMs, InputTokens) == SumOf(input)
    ensures Expected(s, wallMs, OutputTokens) == SumOf(output)
    ensures Expected(s, wallMs, TotalTokens) == SumOf(total)
    ensures Expected(s, wallMs, UsageUnknownCalls) ==
            |set i: nat | i < |s.claims| && s.claims[i].provider == Dify && !s.claims[i].usageKnown|
  {
    hide Expected, Sum, SumOf;
    var p, unknown := s.pricing, set i: nat | i < |s.claims| && s.claims[i].provider == Dify && !s.claims[i].usageKnown;
    OnlyClaimsCount(s, wallMs, InputTokens);
    OnlyClaimsCount(s, wallMs, OutputTokens);
    OnlyClaimsCount(s, wallMs, TotalTokens);
    OnlyClaimsCount(s, wallMs, UsageUnknownCalls);
    SumIsSumOf(p, InputTokens, s.claims, input);
    SumIsSumOf(p, OutputTokens, s.claims, output);
    SumIsSumOf(p, TotalTokens, s.claims, total);
    SumIsSize(p, UsageUnknownCalls, s.claims, unknown);
  }

  /** The whole microdollars that cover so many tokens at a rate per million. */
  ghost function Covering(tokens: int, rate: Option<int>): int {
    if rate.None? then 0 else (tokens * rate.value + 999_999) / 1_000_000
  }

  /** A claim's price: its units at the request rate, and each kind of reported tokens at its own rate. */
  ghost function Price(p: Pricing, c: Claim): int
    requires c.provider in p.request
  {
    (if p.request[c.provider].Some? then p.request[c.provider].value * c.billableUnits else 0) +
    Covering(Tokens(c, c.inputTokens), p.inputRate) + Covering(Tokens(c, c.outputTokens), p.outputRate)
  }

  /** The units and tokens of a claim for which the catalog has no rate. */
  ghost function WithoutPrice(p: Pricing, c: Claim): int
    requires c.provider in p.request
  {
    (if p.request[c.provider].None? then c.billableUnits else 0) +
    (if p.inputRate.None? then Tokens(c, c.inputTokens) else 0) +
    (if p.outputRate.None? then Tokens(c, c.outputTokens) else 0)
  }

  lemma PriceIs(p: Pricing, c: Claim)
    requires ValidPricing(p) && ValidClaim(c)
    ensures c.provider in p.request && ClaimCost(p, c) == Price(p, c) && ClaimUnknown(p, c) == WithoutPrice(p, c)
  {
  }

  /** The estimate adds up the prices of the claims, and what has no price is counted beside it. */
  lemma PricesAreSums(s: Ledger, wallMs: nat, prices: seq<int>, unpriced: seq<int>)
    requires ValidLedger(s) && |prices| == |unpriced| == |s.claims|
    requires forall i | 0 <= i < |s.claims| && s.claims[i].provider in s.pricing.request ::
               prices[i] == Price(s.pricing, s.claims[i]) && unpriced[i] == WithoutPrice(s.pricing, s.claims[i])
    ensures Expected(s, wallMs, Total(EstimatedCost)) == SumOf(prices)
    ensures Expected(s, wallMs, Total(PricingUnknown)) == SumOf(unpriced)
  {
    OnlyClaimsCount(s, wallMs, Total(EstimatedCost));
    OnlyClaimsCount(s, wallMs, Total(PricingUnknown));
    hide Expected, Sum, SumOf, ValidClaim, ValidPricing, ClaimCost, ClaimUnknown, Price, WithoutPrice;
    forall i | 0 <= i < |s.claims|
      ensures ClaimCost(s.pricing, s.claims[i]) == prices[i] && ClaimUnknown(s.pricing, s.claims[i]) == unpriced[i]
    {
      PriceIs(s.pricing, s.claims[i]);
    }
    SumIsSumOf(s.pricing, Total(EstimatedCost), s.claims, prices);
    SumIsSumOf(s.pricing, Total(PricingUnknown), s.claims, unpriced);
  }

  /** A provider's share of the estimate is the sum over its own claims. */
  lemma ProviderPricesAreSums(s: Ledger, wallMs: nat, provider: Provider, prices: seq<int>, unpriced: seq<int>)
    requires ValidLedger(s) && |prices| == |unpriced| == |s.claims|
    requires forall i | 0 <= i < |s.claims| && s.claims[i].provider in s.pricing.request ::
               if s.claims[i].provider == provider
               then prices[i] == Price(s.pricing, s.claims[i]) && unpriced[i] == WithoutPrice(s.pricing, s.claims[i])
               else prices[i] == 0 == unpriced[i]
    ensures Expected(s, wallMs, Of(provider, EstimatedCost)) == SumOf(prices)
    ensures Expected(s, wallMs, Of(provider, PricingUnknown)) == SumOf(unpriced)
  {
    OnlyClaimsCount(s, wallMs, Of(provider, EstimatedCost));
    OnlyClaimsCount(s, wallMs, Of(provider, PricingUnknown));
    hide Expected, Sum, SumOf, ValidClaim, ValidPricing, ClaimCost, ClaimUnknown, Price, WithoutPrice;
    forall i | 0 <= i < |s.claims|
      ensures Share(s.pricing, Of(provider, EstimatedCost), s.claims[i]) == prices[i]
      ensures Share(s.pricing, Of(provider, PricingUnknown), s.claims[i]) == unpriced[i]
    {
      PriceIs(s.pricing, s.claims[i]);
    }
    SumIsSumOf(s.pricing, Of(provider, EstimatedCost), s.claims, prices);
    SumIsSumOf(s.pricing, Of(provider, PricingUnknown), s.claims, unpriced);
  }

  lemma {:induction false} DenialSumIs(key: CounterKey, denials: map<Operation, int>, operations: seq<Operation>,
        amounts: seq<int>)
    requires |amounts| == |operations|
    requires forall i | 0 <= i < |operations| :: amounts[i] ==
               if operations[i] in denials then DenialShare(key, operations[i], denials[operations[i]]) else 0
    ensures DenialSum(key, denials, operations) == SumOf(amounts)
  {
    hide DenialShare;
    if operations != [] {
      DenialSumIs(key, denials, operations[..|operations| - 1], amounts[..|operations| - 1]);
    }
  }

  /** A provider's denials are those of its operations. */
  lemma DenialsAreSums(s: Ledger, wallMs: nat, provider: Provider, amounts: seq<int>, all: seq<int>)
    requires |amounts| == |all| == |OPERATIONS|
    requires forall i | 0 <= i < |OPERATIONS| && OPERATIONS[i] in BUDGET ::
               amounts[i] == if BUDGET[OPERATIONS[i]].0 == provider then all[i] else 0
    requires forall i | 0 <= i < |OPERATIONS| ::
               all[i] == if OPERATIONS[i] in s.denials then s.denials[OPERATIONS[i]] else 0
    ensures Expected(s, wallMs, Of(provider, LocalDenials)) == SumOf(amounts)
    ensures Expected(s, wallMs, Total(LocalDenials)) == SumOf(all)
  {
    forall i | 0 <= i < |OPERATIONS| ensures OPERATIONS[i] in BUDGET &&
          BUDGET[OPERATIONS[i]].0 == ProviderOf(OPERATIONS[i])
    {
      BudgetIs(OPERATIONS[i]);
    }
    NoClaimDenies(s.pricing, Of(provider, LocalDenials), s.claims);
    NoClaimDenies(s.pricing, Total(LocalDenials), s.claims);
    hide BUDGET, ProviderOf, OPERATIONS, Sum, DenialSum, SumOf;
    DenialSumIs(Of(provider, LocalDenials), s.denials, OPERATIONS, amounts);
    DenialSumIs(Total(LocalDenials), s.denials, OPERATIONS, all);
  }

  lemma {:induction false} NoClaimDenies(p: Pricing, key: CounterKey, claims: seq<Claim>)
    requires (key.Of? || key.Total?) && key.metric == LocalDenials
    ensures Sum(p, key, claims) == 0
  {
    if claims != [] {
      NoClaimDenies(p, key, claims[..|claims| - 1]);
    }
  }

  /** The counters that are read off the ledger. */
  lemma CopiedCounters(s: Ledger, wallMs: nat)
    ensures Expected(s, wallMs, SchemaVersion) == 1
    ensures Expected(s, wallMs, LedgerRevision) == s.revision
    ensures Expected(s, wallMs, PricingRevision) == s.pricing.revision
    ensures Expected(s, wallMs, WallElapsedMs) == wallMs
    ensures Expected(s, wallMs, ActiveElapsedMs) == s.activeElapsedMs
    ensures Expected(s, wallMs, JobAttempts) == s.jobAttempts
    ensures Expected(s, wallMs, CheckpointHits) == s.checkpointHits
  {
    forall key | key in {SchemaVersion, LedgerRevision, PricingRevision, WallElapsedMs, ActiveElapsedMs, JobAttempts,
                         CheckpointHits}
      ensures DenialSum(key, s.denials, OPERATIONS) == 0 && Sum(s.pricing, key, s.claims) == 0
    {
      OtherMetricsIgnoreDenials(key, s.denials, OPERATIONS);
      SumIsSize(s.pricing, key, s.claims, {});
    }
    hide Sum, DenialSum, OPERATIONS;
  }
}
