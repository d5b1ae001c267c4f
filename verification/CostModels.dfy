/**
 The cost ledger's records and their validators (app/jobs_v22/cost_models.py). Times are integers; claim ids are
 opaque. Python's optional fields are options.
 */
module CostModels {
  import opened Base

  datatype Provider = SerpApi | Firecrawl | Jina | PageSpeed | Gsc | Ga4 | Gbp | Dify

  datatype Operation =
    | SerpApiLocation | SerpApiMarketSearch | SerpApiPublicProfile | SerpApiCustomerPublicGbp
    | FirecrawlMap | FirecrawlScrape | JinaFetch | PageSpeedAnalysis | GscSearchAnalytics
    | Ga4KeyEvents | Ga4RunReport | GbpLocation | GbpPerformance | GbpKeywords | DifyWorkflow

  datatype Outcome = Success | Failure

  datatype AttemptPhase = JobPhase | Preparation | Execution

  datatype Schema = LedgerV1 | LedgerV2

  datatype ClaimId = ClaimId(text: string)

  const PROVIDERS: seq<Provider> := [SerpApi, Firecrawl, Jina, PageSpeed, Gsc, Ga4, Gbp, Dify]

  const OPERATIONS: seq<Operation> := [
    SerpApiLocation, SerpApiMarketSearch, SerpApiPublicProfile, SerpApiCustomerPublicGbp,
    FirecrawlMap, FirecrawlScrape, JinaFetch, PageSpeedAnalysis, GscSearchAnalytics,
    Ga4KeyEvents, Ga4RunReport, GbpLocation, GbpPerformance, GbpKeywords, DifyWorkflow]

  const MAX_LEDGER_CLAIMS: nat := 100
  const MAX_COUNTER_VALUE: nat := 1_000_000_000_000_000

  function ProviderOf(operation: Operation): Provider {
    match operation
    case SerpApiLocation | SerpApiMarketSearch | SerpApiPublicProfile | SerpApiCustomerPublicGbp => SerpApi
    case FirecrawlMap | FirecrawlScrape => Firecrawl
    case JinaFetch => Jina
    case PageSpeedAnalysis => PageSpeed
    case GscSearchAnalytics => Gsc
    case Ga4KeyEvents | Ga4RunReport => Ga4
    case GbpLocation | GbpPerformance | GbpKeywords => Gbp
    case DifyWorkflow => Dify
  }

  function LimitOf(operation: Operation): nat {
    match operation
    case SerpApiLocation => 1
    case SerpApiMarketSearch => 30
    case SerpApiPublicProfile => 15
    case SerpApiCustomerPublicGbp => 3
    case FirecrawlMap => 4
    case FirecrawlScrape => 2
    case JinaFetch => 0
    case PageSpeedAnalysis => 5
    case GscSearchAnalytics => 12
    case Ga4KeyEvents => 20
    case Ga4RunReport => 8
    case GbpLocation => 1
    case GbpPerformance => 1
    case GbpKeywords => 10
    case DifyWorkflow => 3
  }

  /** The provider of each operation and how often one job may call it. */
  const BUDGET: map<Operation, (Provider, nat)> := map[
    SerpApiLocation := (SerpApi, 1), SerpApiMarketSearch := (SerpApi, 30), SerpApiPublicProfile := (SerpApi, 15),
    SerpApiCustomerPublicGbp := (SerpApi, 3), FirecrawlMap := (Firecrawl, 4), FirecrawlScrape := (Firecrawl, 2),
    JinaFetch := (Jina, 0), PageSpeedAnalysis := (PageSpeed, 5), GscSearchAnalytics := (Gsc, 12),
    Ga4KeyEvents := (Ga4, 20), Ga4RunReport := (Ga4, 8), GbpLocation := (Gbp, 1), GbpPerformance := (Gbp, 1),
    GbpKeywords := (Gbp, 10), DifyWorkflow := (Dify, 3)]

  lemma BudgetIs(operation: Operation)
    ensures operation in BUDGET && BUDGET[operation] == (ProviderOf(operation), LimitOf(operation))
  {
  }

  /** Request prices are not required to be non-negative here; the token prices are. */
  datatype Pricing = Pricing(
    revision: int,
    request: map<Provider, Option<int>>,
    inputRate: Option<int>,
    outputRate: Option<int>)

  predicate Within(x: Option<int>, low: int, high: int) {
    x.Some? ==> low <= x.value <= high
  }

  predicate ValidPricing(p: Pricing) {
    && 1 <= p.revision <= 1_000_000
    && (forall provider :: provider in p.request)
    && Within(p.inputRate, 0, MAX_COUNTER_VALUE)
    && Within(p.outputRate, 0, MAX_COUNTER_VALUE)
  }

  datatype Claim = Claim(
    id: ClaimId,
    operation: Operation,
    provider: Provider,
    claimedAt: int,
    completedAt: Option<int>,
    outcome: Option<Outcome>,
    durationMs: Option<int>,
    billableUnits: int,
    usageKnown: bool,
    inputTokens: Option<int>,
    outputTokens: Option<int>,
    totalTokens: Option<int>)

  predicate Completed(c: Claim) {
    c.outcome.Some?
  }

  predicate NoTokens(c: Claim) {
    c.inputTokens.None? && c.outputTokens.None? && c.totalTokens.None?
  }

  predicate ValidClaim(c: Claim) {
    && Within(c.durationMs, 0, 86_400_000)
    && 1 <= c.billableUnits <= 1_000_000
    && Within(c.inputTokens, 0, 100_000_000)
    && Within(c.outputTokens, 0, 100_000_000)
    && Within(c.totalTokens, 0, 200_000_000)
    && ProviderOf(c.operation) == c.provider
    && (c.completedAt.None? <==> c.outcome.None?) && (c.outcome.None? <==> c.durationMs.None?)
    && (c.completedAt.Some? ==> c.claimedAt <= c.completedAt.value)
    && (c.provider != Dify ==> !c.usageKnown && NoTokens(c))
    && (if c.usageKnown
        then c.inputTokens.Some? && c.outputTokens.Some? &&
            c.totalTokens == Some(c.inputTokens.value + c.outputTokens.value)
        else NoTokens(c))
  }

  datatype Ledger = Ledger(
    schema: Schema,
    revision: int,
    pricing: Pricing,
    createdAt: int,
    updatedAt: int,
    claims: seq<Claim>,
    denials: map<Operation, int>,
    checkpointHits: int,
    jobAttempts: int,
    phaseAttempts: Option<map<AttemptPhase, int>>,
    activeElapsedMs: int)

  function PhaseCount(phases: map<AttemptPhase, int>, phase: AttemptPhase): int {
    if phase in phases then phases[phase] else 0
  }

  function PhaseTotal(phases: map<AttemptPhase, int>): int {
    PhaseCount(phases, JobPhase) + PhaseCount(phases, Preparation) + PhaseCount(phases, Execution)
  }

  predicate UniqueIds(claims: seq<Claim>) {
    forall i, j | 0 <= i < |claims| && 0 <= j < |claims| && claims[i].id == claims[j].id :: i == j
  }

  predicate ValidLedger(s: Ledger) {
    && s.revision >= 1
    && ValidPricing(s.pricing)
    && s.createdAt <= s.updatedAt
    && |s.claims| <= MAX_LEDGER_CLAIMS
    && (forall i | 0 <= i < |s.claims| :: ValidClaim(s.claims[i]))
    && UniqueIds(s.claims)
    && (forall operation | operation in s.denials :: 0 <= s.denials[operation] <= 1_000_000)
    && 0 <= s.checkpointHits <= 1_000_000
    && 0 <= s.jobAttempts <= 100
    && (s.phaseAttempts.Some? ==>
          && PhaseTotal(s.phaseAttempts.value) == s.jobAttempts
          && forall phase | phase in s.phaseAttempts.value :: 1 <= s.phaseAttempts.value[phase] <= 100)
    && 0 <= s.activeElapsedMs <= MAX_COUNTER_VALUE
  }

  // ---------------------------------------------------------------- counting

  function Denials(s: Ledger, operation: Operation): int {
    if operation in s.denials then s.denials[operation] else 0
  }

  /** The denials of the listed operations. */
  function DenialsOf(denials: map<Operation, int>, operations: seq<Operation>): int {
    if operations == [] then 0
    else (if operations[0] in denials then denials[operations[0]] else 0) + DenialsOf(denials, operations[1..])
  }

  function TotalDenials(s: Ledger): int {
    DenialsOf(s.denials, OPERATIONS)
  }

  /** Claims of one operation. */
  function Used(claims: seq<Claim>, operation: Operation): nat {
    if claims == [] then 0
    else Used(claims[..|claims| - 1], operation) + if claims[|claims| - 1].operation == operation then 1 else 0
  }

  /** Where the claims of one operation stand. */
  ghost function ClaimsOf(claims: seq<Claim>, operation: Operation): set<nat> {
    set i: nat | i < |claims| && claims[i].operation == operation
  }

  lemma ClaimsOfLast(claims: seq<Claim>, operation: Operation)
    requires claims != []
    ensures var n := |claims| - 1;
      ClaimsOf(claims, operation) ==
        ClaimsOf(claims[..n], operation) + (if claims[n].operation == operation then {n} else {}) &&
      n !in ClaimsOf(claims[..n], operation)
  {
    var n := |claims| - 1;
    forall i: nat ensures i in ClaimsOf(claims, operation) <==>
        i in ClaimsOf(claims[..n], operation) || (i == n && claims[n].operation == operation)
    {
      if i < n {
        assert claims[..n][i] == claims[i];
      }
    }
  }

  lemma {:induction false} UsedIsSize(claims: seq<Claim>, operation: Operation)
    ensures Used(claims, operation) == |ClaimsOf(claims, operation)|
  {
    if claims == [] {
      hide Used;
      assert ClaimsOf(claims, operation) == {};
    } else {
      UsedIsSize(claims[..|claims| - 1], operation);
      ClaimsOfLast(claims, operation);
    }
  }

  function CompletedCount(claims: seq<Claim>): nat {
    if claims == [] then 0
    else CompletedCount(claims[..|claims| - 1]) + if Completed(claims[|claims| - 1]) then 1 else 0
  }

  function UsedOf(claims: seq<Claim>, operations: seq<Operation>): nat {
    if operations == [] then 0 else Used(claims, operations[0]) + UsedOf(claims, operations[1..])
  }

  function LimitsOf(operations: seq<Operation>): nat {
    if operations == [] then 0 else LimitOf(operations[0]) + LimitsOf(operations[1..])
  }

  lemma LimitsTotal()
    ensures LimitsOf(OPERATIONS) == 115
    ensures forall operation :: operation in BUDGET && LimitOf(operation) == BUDGET[operation].1
  {
    forall operation ensures operation in BUDGET && LimitOf(operation) == BUDGET[operation].1 {
      BudgetIs(operation);
    }
    hide BUDGET;
    assert OPERATIONS[1..] == [
      SerpApiMarketSearch, SerpApiPublicProfile, SerpApiCustomerPublicGbp,
      FirecrawlMap, FirecrawlScrape, JinaFetch, PageSpeedAnalysis, GscSearchAnalytics,
      Ga4KeyEvents, Ga4RunReport, GbpLocation, GbpPerformance, GbpKeywords, DifyWorkflow];
    LimitsTail();
  }

  lemma LimitsTail()
    ensures LimitsOf([
      SerpApiMarketSearch, SerpApiPublicProfile, SerpApiCustomerPublicGbp,
      FirecrawlMap, FirecrawlScrape, JinaFetch, PageSpeedAnalysis, GscSearchAnalytics,
      Ga4KeyEvents, Ga4RunReport, GbpLocation, GbpPerformance, GbpKeywords, DifyWorkflow]) == 114
  {
  }

  lemma EveryOperationListed(operation: Operation)
    ensures operation in OPERATIONS
  {
    assert OPERATIONS[0] == SerpApiLocation && OPERATIONS[1] == SerpApiMarketSearch &&
           OPERATIONS[2] == SerpApiPublicProfile;
    assert OPERATIONS[3] == SerpApiCustomerPublicGbp && OPERATIONS[4] == FirecrawlMap &&
           OPERATIONS[5] == FirecrawlScrape;
    assert OPERATIONS[6] == JinaFetch && OPERATIONS[7] == PageSpeedAnalysis && OPERATIONS[8] == GscSearchAnalytics;
    assert OPERATIONS[9] == Ga4KeyEvents && OPERATIONS[10] == Ga4RunReport && OPERATIONS[11] == GbpLocation;
    assert OPERATIONS[12] == GbpPerformance && OPERATIONS[13] == GbpKeywords && OPERATIONS[14] == DifyWorkflow;
  }
}
