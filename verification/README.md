# Verified model of the job and crawl backend

This project models the parts of the backend that decide something, and proves what they promise:

* **Site crawl** (`Frontier`, `FrontierLimits`, `FrontierDepth`, `FrontierSources`, `FrontierPolicy`, `FrontierKeys`,
  `Collection`, `Crawler`): a worklist crawl in batches that merges pages under their canonical address, with a
  discovery limit. A batch leaves the tables before its records exist, so the obvious bound (records + candidates <=
  discovery_limit) does not hold; with w = min(batch_size, discovery_limit) the bound is discovery_limit + w - 1, it is
  attained on some site for all limits, and there pages are cut off although `truncated` was never set.
* **Sitemap search** (`SitemapSearch`): a bounded breadth-first search.
* **Competitor identity and ranking** (`UnionFind`, `IdentityGroups`, `IdentityPartition`, `IdentityEvidence`,
  `IdentityKeys`, `EligibleKeys`, `Ranking`, `Selection`): union-find without ranks, the two-level merge of strong and
  weak observations, suppression of shared websites and the shortlist with its in-place replacements.
* **Canonical JSON** (`DecimalText`, `Magnitudes`, `NumberLayout`, `NumberReading`, `Lexicographic`, `Utf16`,
  `JsonStrings`, `CanonicalJson`, `CanonicalEquality`): the serialization of RFC 8785, with a reader that inverts it.
* **Cost ledger** (`Optimistic`, `CostModels`, `CostLedger`, `LedgerAccounts`, `LedgerAnswers`, `LedgerObject`,
  `CostCounters`, `CounterMeaning`, `CostTheorems`): a compare-and-set object used by any number of workers, and its
  counter projection.
* **Competitor-discovery store** (`DiscoveryModels`, `DiscoveryStore`, `DiscoveryRuns`, `DiscoveryReplies`,
  `DiscoveryAnswers`, `StoreObject`), **checkpoints** (`Checkpoints`) and **attempt budget** (`AttemptBudget`): shared
  Redis keys under arbitrary interleavings.
* **Timed objects** (`RateLimiter`, `CircuitBreaker`, `CircuitRuns`).

Code that updates objects in place is modelled by classes and loops, each proved against a function of the old state;
the theorems are about those functions. Where a function is small and used everywhere (a merge test, a sort key, a table
of limits, an escape), its meaning is also stated on its own, in the fields and numbers of the program: `KeyOf`,
`SameIdentity`, `RanksAhead`, `BUDGET` and `EDGES` are such definitions. Concurrent code is modelled as a step system in which any number of clients
issue one Redis command at a time, in any order. Network answers, robots rules, address normalization, clocks and
results of provider calls are arbitrary parameters.

Promises that do not hold as one would expect are stated together with what does hold:

* `FrontierLimits.LimitIsHonestIff`: the crawl can hold more records than the limit without reporting truncation, exactly
  when a batch can hold two pages.
* `FrontierDepth.NeverRaisesIff`: the record schema rejects a crawl depth over 100, which ends the crawl with an exception;
  no site can cause it exactly when the discovery limit is at most 101.
* `CostLedger.FullLedgerIsReached`: the operation limits sum to 115 but a ledger admits 100 claims, so a full ledger, which
  some run reaches, refuses an operation below its own limit; `FreshClaimCommits` gives the exact condition.
* `CostTheorems.EstimateNeverFallsIff`: the price catalog accepts negative request prices (the settings do not), and the
  estimate is monotone exactly without them.
* `DiscoveryReplies.LateReplayIff`: a registration reads its idempotency entry and the job's state at two moments, so it
  can be answered as a replay although it found no entry; exactly when the same call was registered in between.
* `Checkpoints.UnfencedAgreeIff`: unfenced executions of `run_once` are certain to return the same value exactly when a
  value other than null is stored, or nothing is stored and no operation gives null, or their own results are all equal.
* `RateLimiter.RaiseHoldsBackIff`: a raised delay holds back all later grants exactly when nobody sleeps at that moment or
  the sleeper wakes up late enough anyway; `RaiseSpacesOut` and the spacing by the intervals in force hold in any case.
* `CircuitRuns.CountStepIff`, `ProbeStepIff` and `SecondProbeIff`: the commands of the circuit breaker are not one
  transaction. A step between another caller's reading and writing of the circuit leaves the open count right for the
  moment, but lets that caller make it wrong; the single probe survives exactly the steps that do not delete its key from
  under it. `TwoOpeningsCountOnce` and `TwoProbesHappen` are runs in which both go wrong.

`dafny verify dfyconfig.toml` checks the whole project.

## Model

| member | source | states |
|---|---|---|
| Frontier.AddedWhenTables | app/collectors/site_inventory.py:180-230 | Whatever branch an offer takes, admitted addresses stay accounted for and no record key appears or disappears |
| Frontier.OfferKeeps | app/collectors/site_inventory.py:180-230 | Offering an address between drains keeps the crawl invariant; when the offer is accepted the address is accounted for from then on |
| Frontier.FirstOfferTaken | app/collectors/site_inventory.py:195-230 | The first offer of a crawl is refused only by normalization or robots, never for lack of room |
| Frontier.EnterKeepsAllCoverage | app/collectors/site_inventory.py:429-466 | Recording a page under its canonical address, or merging it into an existing record, loses no address |
| Frontier.SettleProgress | app/collectors/site_inventory.py:429-480 | A checked page becomes exactly one new record, or is merged and then queues nothing |
| Frontier.SettleKeeps | app/collectors/site_inventory.py:429-480 | Recording one page of a batch keeps the invariant for the pages still in flight |
| Frontier.PopKeeps | app/collectors/site_inventory.py:415-423 | Popping moves a candidate from the tables into flight without losing it and without passing the bound |
| Frontier.TakeBatchKeeps | app/collectors/site_inventory.py:415-423 | Filling a batch keeps the invariant, stale queue entries included |
| Frontier.TurnKeeps | app/collectors/site_inventory.py:415-480 | One batch either adds a record or shortens the queue: the termination measure of the drain |
| Frontier.DrainCompletes | app/collectors/site_inventory.py:404-480 | For every link graph, alias map and fetch outcome the drain ends with records within discovery_limit + batch_size - 1, no candidate left, every record under its own URL, and, if the limit was never hit, every admitted link of a followed page recorded or checked under a recorded canonical address |
| FrontierLimits.DrainStaysTight | app/collectors/site_inventory.py:404-480 | For every site the records stay within discovery_limit + min(batch_size, discovery_limit) - 1 |
| FrontierLimits.PlainDrain | app/collectors/site_inventory.py:404-480 | Once the homepage is recorded and no page links or declares another address, every waiting page becomes a record of its own |
| FrontierLimits.StarReachesBound | app/collectors/site_inventory.py:180-230 | For all limits a site exists whose crawl ends with exactly that many records and truncated never set |
| FrontierLimits.LimitIsHonestIff | app/collectors/site_inventory.py:220-222 | The discovery limit is kept, or its overrun reported, on every site if and only if a batch cannot hold two pages |
| FrontierDepth.HomeStarts | app/collectors/site_inventory.py:195-230 | Offering the homepage starts a crawl in which the first recorded page has depth 0 |
| FrontierDepth.OfferKeepsStarted | app/collectors/site_inventory.py:195-230 | Offering the pages of a sitemap keeps it so |
| FrontierDepth.SettleAllStayShallow | app/collectors/site_inventory.py:429-480 | Every record is less deep than there are records, and every waiting page at most as deep |
| FrontierDepth.ChainRaises | app/collectors/site_inventory.py:429-480 | A chain of pages drives the crawl to depth 101 under every limit from 102 on, and the crawl raises |
| FrontierDepth.NeverRaisesIff | app/collectors/site_inventory.py:404-480 | The depth limit of the record schema cannot end a crawl with an exception if and only if the discovery limit is at most 101 |
| FrontierSources.AcceptedIsKept | app/collectors/site_inventory.py:180-230 | An accepted offer is remembered with its source and depth; for a recorded page only the source is new |
| FrontierSources.EnterKeepsOffers | app/collectors/site_inventory.py:429-466 | Recording or merging a page forgets no source and no depth of any address, the waiting alias included |
| FrontierSources.DrainKeepsOffers | app/collectors/site_inventory.py:404-480 | Every source under which an address was accepted is listed in the record it ends in, and that record is no deeper than the accepted offer |
| FrontierPolicy.AddKeepsUrls | app/collectors/site_inventory.py:195-230 | An offer adds at most the admitted address to the candidates, under its own name |
| FrontierPolicy.HomeOffered | app/collectors/site_inventory.py:195-230 | The accepted offer of the homepage is held until it is recorded, and everything to be fetched stays permitted |
| FrontierPolicy.DrainIsPolite | app/collectors/site_inventory.py:404-480 | A drain fetches only addresses that robots allow or that are homepages, and a homepage is recorded under its own address |
| FrontierKeys.CheckShows | app/collectors/site_inventory.py:432-543 | A checked page shows the final address, canonical address, nofollow and links of the response for its own address, of a cut-off body only the links; a homepage keeps its address, any other page goes by the canonical address of its untruncated response, or its own without one |
| FrontierKeys.EnterStaysKeyed | app/collectors/site_inventory.py:429-466 | Recording or merging a page keeps every checked address under that key and every record showing such a page |
| FrontierKeys.DrainStaysKeyed | app/collectors/site_inventory.py:404-480 | After a drain every checked address is recorded under the key that the response for it gives, and every record shows the response for an address recorded there |
| FrontierKeys.NobodyFollowed | app/collectors/site_inventory.py:473-480 | A failed page, or a whole page with nofollow, queues nothing |
| FrontierKeys.AllFollowed | app/collectors/site_inventory.py:473-480 | A new record of any other page offers exactly the links of its response |
| Crawler.SiteInventoryCollector.AddCandidate | app/collectors/site_inventory.py:180-230 | The closure add_candidate on the dictionaries and the queue computes the offer that the invariants are proved about |
| Crawler.SiteInventoryCollector.PopBatch | app/collectors/site_inventory.py:416-423 | The inner pop loop computes the batch that the invariants are proved about |
| Crawler.SiteInventoryCollector.EnterChecked | app/collectors/site_inventory.py:430-466 | The alias merge on the dictionaries, and whether the page is new, as EnterStaysKeyed and EnterKeepsOffers describe it |
| Crawler.SiteInventoryCollector.DrainCandidates | app/collectors/site_inventory.py:404-480 | The batch loop terminates for every site and leaves the dictionaries in the state DrainCompletes describes |
| Collection.OfferKeepsGoing | app/collectors/site_inventory.py:195-230 | An offer of a sitemap or the site map service keeps every guarantee; it is refused only by normalization, robots or the limit, and then truncated is set |
| Collection.HomeGoing | app/collectors/site_inventory.py:253-253 | The offer of the homepage to the empty crawl establishes every guarantee |
| Collection.DrainKeepsGoing | app/collectors/site_inventory.py:404-480 | A drain keeps every guarantee for the second one, publishes every accepted offer, loses no record and cannot raise at limits up to 101 |
| Crawler.SiteInventoryCollector.Collect | app/collectors/site_inventory.py:126-347 | A whole collection, with both drains: never more than discovery_limit + min(batch_size, discovery_limit) - 1 records, only permitted addresses fetched, the homepage recorded under its own address as the seed at depth 0, no exception at limits up to 101; every checked address recorded under the canonical address that its untruncated response declares, or its own, and every record showing a response recorded there; unless the limit was hit, every admitted page of a search or service that was due is recorded with that source (declared sitemaps at limits from 2 on, the default sitemap while fewer candidates than the limit wait, the site map service when the first drain left fewer records than the limit); the first discovery_limit records are published in insertion order |
| Crawler.SiteInventoryCollector.Supplement | app/collectors/site_inventory.py:315-336 | With room left after the first drain, the pages of the site map service are offered and drained; everything published before stays so |
| SitemapSearch.SeedsAre | app/collectors/site_inventory_discovery.py:189-193 | The seeds are the canonical forms of the given addresses |
| SitemapSearch.SeenUpToHead | app/collectors/site_inventory_discovery.py:198-231 | Everything at most as far from the seeds as the head of the queue has been visited or queued |
| SitemapSearch.NewEntryDistance | app/collectors/site_inventory_discovery.py:226-231 | An unseen child of the head is exactly one link further away than the head |
| SitemapSearch.TurnKeepsInvariant | app/collectors/site_inventory_discovery.py:198-231 | The queue stays free of duplicates and of visited sitemaps, in order of depth, with true distances |
| SitemapSearch.ExhaustedIsComplete | app/collectors/site_inventory_discovery.py:198-231 | An empty queue means that exactly the sitemaps within max_depth were fetched |
| SitemapSearch.CollectPages | app/collectors/site_inventory_discovery.py:221-225 | The page loop stops exactly at the page limit |
| SitemapSearch.DiscoverSitemapUrls | app/collectors/site_inventory_discovery.py:177-238 | Breadth-first: each sitemap at most once, nearest first, at its shortest distance, never beyond max_depth; all of them unless a limit stops the search; pages and limitation codes exactly as promised |
| UnionFind.HalvingKeepsRanks | app/competitors_v22/candidates.py:114-118 | Path halving keeps the hidden ranks that make every climb end, although parents may point either way |
| UnionFind.HalvingKeepsAllRoots | app/competitors_v22/candidates.py:114-118 | Path halving changes no representative |
| UnionFind.LinkMergesAllRoots | app/competitors_v22/candidates.py:120-124 | Linking two roots without rank merges exactly their two classes |
| UnionFind.DisjointSets.Find | app/competitors_v22/candidates.py:114-118 | find terminates, returns the representative and changes none |
| UnionFind.DisjointSets.Union | app/competitors_v22/candidates.py:120-124 | union merges exactly the two classes of its arguments |
| IdentityGroups.RootsAreComponents | app/competitors_v22/candidates.py:126-132 | Once every merging pair shares a root, equal roots mean exactly a chain of merges |
| IdentityGroups.ConnectedGroups | app/competitors_v22/candidates.py:111-136 | The groups are exactly the connected components of the merge graph; every item is in one group once, in list order |
| IdentityPartition.GrowthAttractsNobody | app/competitors_v22/candidates.py:146-156 | A strong group extended by weak records matches no further weak component than before |
| IdentityPartition.HomeIsOnlyMatch | app/competitors_v22/candidates.py:148-154 | A weak component is attached exactly to the only place it touches |
| IdentityPartition.ManyMatchesIsAmbiguous | app/competitors_v22/candidates.py:155-158 | The ambiguity flag means two places that no chain of strong ids links |
| IdentityPartition.Groups | app/competitors_v22/candidates.py:110-162 | Every observation lands in exactly one group; two share a group, and a group is ambiguous, exactly as the order-free definitions say |
| IdentityPartition.NeverBridges | app/competitors_v22/candidates.py:146-158 | Two strong observations that share a group with a weak one are linked by strong ids alone |
| IdentityPartition.JoinsOnlyMatch | app/competitors_v22/candidates.py:148-154 | A weak observation joins a place if and only if it touches one and is not ambiguous |
| IdentityPartition.OrderIndependent | app/competitors_v22/candidates.py:110-162 | Reordering the observations reorders the groups and flags and changes nothing else |
| IdentityEvidence.MergesOnEvidence | app/competitors_v22/candidates.py:95-107 | Two observations should merge if and only if they share a provider id, or one of them has none and they have the same non-empty website, or the same non-empty name at the same non-empty address |
| IdentityEvidence.PairInGroups | app/competitors_v22/candidates.py:110-162 | Two observations alone are put into one group if and only if there is that evidence |
| IdentityEvidence.GroupsFollowTrails | app/competitors_v22/candidates.py:110-162 | In any list, observations in one group are joined by a chain of observations with that evidence from each to the next |
| IdentityKeys.MostCommonIs | app/competitors_v22/candidates.py:172-174 | The chosen value is a most frequent non-empty one, the smallest among equals |
| IdentityKeys.MostCommonLeads | app/competitors_v22/candidates.py:172-174 | Any other value occurs less often, or as often and is the greater text |
| IdentityKeys.MostCommonIgnoresOrder | app/competitors_v22/candidates.py:172-174 | The chosen value does not depend on the order of the values |
| IdentityKeys.IdentityKeyOf | app/competitors_v22/candidates.py:186-192 | The key is the least strong id of the group; without one the website shown by most members, the smallest text among equals; without that name and address |
| IdentityKeys.KeysSingleOutGroups | app/competitors_v22/candidates.py:186-192 | Two groups with the same provider id or website key are the same group |
| EligibleKeys.KeyTextInjective | app/competitors_v22/candidates.py:186-192 | A provider id or website key can be read off the key text; no other kind of key has that text |
| EligibleKeys.PartitionGivesWellKeyed | app/competitors_v22/candidates.py:353-397 | The records built from the groups have unique identity keys wherever they are eligible, as suppression requires |
| Ranking.BeforeTransitive | app/competitors_v22/candidates.py:432-440 | The order of the sort key is transitive |
| Ranking.BeforeTotal | app/competitors_v22/candidates.py:432-440 | The sort key decides between any two records with different competitor ids |
| Ranking.BeforeIsAhead | app/competitors_v22/candidates.py:432-440 | The sort key puts a record first if and only if it has the higher total, or then more query appearances, or then the higher rank score, or then the higher relevance, or then the smaller id |
| Ranking.SortSorts | app/competitors_v22/candidates.py:444-444 | Sorting records with distinct ids is strict, so its outcome depends on the contents alone; every record ranks ahead of all later ones |
| Ranking.SuppressSharedWebsites | app/competitors_v22/candidates.py:443-460 | A record is suppressed, with these values, if and only if an eligible record of the same non-empty website ranks ahead of it (higher total, then the tie-breaks); all others are unchanged and in place |
| Ranking.SurvivorsHaveDistinctWebsites | app/competitors_v22/candidates.py:443-460 | After suppression no two eligible records share a website |
| Ranking.BestSurvives | app/competitors_v22/candidates.py:443-460 | Every website with an eligible record keeps one, which ranks ahead of all its others |
| Ranking.SuppressedForBetter | app/competitors_v22/candidates.py:443-460 | A suppressed record leaves an eligible survivor of its website that ranks ahead of it |
| Selection.SuppressionSuffices | app/competitors_v22/candidates.py:482-483 | Suppression followed by sorting gives the list the selection relies on |
| Selection.ReplaceIndex | app/competitors_v22/candidates.py:509-516 | The last position held by a record that was not asked for, if there is one |
| Selection.ReplacementKeeps | app/competitors_v22/candidates.py:517-519 | Replacing and re-sorting in place keeps the shortlist sorted, of the same size, with the best of the others |
| Selection.SelectCandidates | app/competitors_v22/candidates.py:484-519 | The shortlist has six records or all, in rank order; no unrequested record left out ranks ahead of an unrequested one in it; it is the one characterized by Chosen; the gaps are exactly the supplemental websites without an eligible record |
| Selection.AllRequestedFit | app/competitors_v22/candidates.py:496-519 | All eligible supplemental competitors are selected if and only if there are at most six |
| Selection.OnlyRequestedRemain | app/competitors_v22/candidates.py:496-519 | With more than six of them nothing else is selected |
| Selection.OrderOfWebsitesIsIrrelevant | app/competitors_v22/candidates.py:496-519 | With at most six of them the shortlist does not depend on the order in which websites are handled |
| Selection.RequestedThenBestIsUnique | app/competitors_v22/candidates.py:484-519 | All requested records, then the best of the others: there is only one such sorted shortlist |
| Selection.ChosenIsUnique | app/competitors_v22/candidates.py:484-519 | In every case the stated conditions determine the whole shortlist |
| DecimalText.SignedTextForm | app/jobs_v22/digest.py:55-59 | The exponent has a sign in any case and no leading zero, except the padding of repr |
| DecimalText.SignedTextReads | app/jobs_v22/digest.py:47-59 | A signed exponent, padded as repr does or not, reads back as its value |
| Magnitudes.Decade | app/jobs_v22/digest.py:48-48 | A significant digit string at a point lies in the decade the point names |
| NumberLayout.FixedByMagnitude | app/jobs_v22/digest.py:48-48 | The test 1e-6 <= magnitude < 1e21 is the standard's test on the position of the decimal point |
| NumberLayout.RenderedIsEcma | app/jobs_v22/digest.py:44-60 | From both forms of repr, unstripped leading zeros included, the rendered magnitude is the layout of section 3.2.2.3 of RFC 8785 |
| NumberLayout.VerifiedNumberIsEcmaLayout | app/jobs_v22/digest.py:28-60 | The whole text, sign and zero included, is ECMAScript's |
| NumberReading.ReadBodyDenotes | app/jobs_v22/digest.py:44-60 | A reader of number tokens gives the number whose value the text denotes as a real number |
| NumberReading.ReprDenotes | app/jobs_v22/digest.py:44-47 | The text of repr denotes the number it was made from |
| NumberReading.RenderedKeepsValue | app/jobs_v22/digest.py:44-60 | The rendered text denotes exactly the same real value as the text of repr |
| NumberReading.NumberReadsBack | app/jobs_v22/digest.py:28-60 | Reading the rendered text gives back sign, digits and point |
| NumberReading.NumberTextsDiffer | app/jobs_v22/digest.py:28-60 | Different numbers have different texts |
| Utf16.BytesCompareLikeUnits | app/jobs_v22/digest.py:91-91 | Comparing big-endian UTF-16 bytes is comparing code units, as section 3.2.3 of RFC 8785 asks |
| Utf16.UnitsDecode | app/jobs_v22/digest.py:91-91 | Decoding the code units by the rules of section 2.2 of RFC 2781 gives the code points of the key |
| Utf16.UnitsInjective | app/jobs_v22/digest.py:91-91 | Different keys have different code units, so the order of keys is total |
| Utf16.SortKeysSorted | app/jobs_v22/digest.py:91-91 | Keys come out strictly sorted by code units |
| Utf16.SortedKeysUnique | app/jobs_v22/digest.py:91-91 | A sorted key list is determined by its members |
| JsonStrings.StringReadsBack | app/jobs_v22/digest.py:78-79 | Reading an escaped literal gives the string and stops behind its closing quote, whatever follows |
| JsonStrings.EscapedIsShortest | app/jobs_v22/digest.py:78-79 | No text that, between quotes, reads back to the string is shorter than the escaped one |
| JsonStrings.EscapeForms | app/jobs_v22/digest.py:78-79 | A character stands for itself, behind a backslash and a letter, or as a lower-case hexadecimal escape |
| CanonicalJson.EncodeSucceeds | app/jobs_v22/digest.py:71-96 | The encoder succeeds exactly on values without a refused part, at any depth |
| CanonicalJson.ReadsBack | app/jobs_v22/digest.py:71-96 | A recursive-descent reader, given the canonical text and anything that may follow a value, returns the value with its members in key order and the rest of the text |
| CanonicalEquality.SameEncodesAlike | app/jobs_v22/digest.py:71-96 | Values that are equal with objects compared as maps have the same text |
| CanonicalEquality.TextIdentifiesValue | app/jobs_v22/digest.py:62-96 | Two plain values have the same canonical text if and only if they are the same JSON value |
| CanonicalEquality.InsertionOrderIsIrrelevant | app/jobs_v22/digest.py:91-92 | The insertion order of an object leaves no trace in its text |
| Optimistic.WriteIsAtomic | app/jobs_v22/cost_ledger.py:108-124 | A committed write applies the call to the value it replaces, whatever happened since the client read it |
| Optimistic.RunIsSequential | app/jobs_v22/cost_ledger.py:108-124 | However clients interleave, the stored value is what the committed calls give one after the other |
| Optimistic.FailureMeansCommit | app/jobs_v22/cost_ledger.py:108-124 | The retry loop is lock-free: when a computation succeeds but its transaction fails, another client has committed since the first began to watch |
| CostModels.LimitsTotal | app/jobs_v22/cost_models.py:82-98 | The limits are the fifteen numbers of the table BUDGET and add up to 115 |
| CostLedger.PerformKeepsSafe | app/jobs_v22/cost_ledger.py:139-217 | No committed call exceeds an operation limit or touches the usage of an unreported claim |
| CostLedger.PerformBalances | app/jobs_v22/cost_ledger.py:139-264 | The revision rises by one per claim, completion, denial, attempt and checkpoint hit, and by nothing else |
| CostLedger.RevisionMovesWithState | app/jobs_v22/cost_ledger.py:139-264 | The revision rises by one exactly when the ledger changes |
| CostLedger.EveryRunIsSafe | app/jobs_v22/cost_ledger.py:108-266 | For every number of clients and every interleaving: valid ledger, unique claim ids, at most 100 claims and for no operation more than its number in the table, phase attempts summing up, revision equal to 1 plus all recorded events |
| CostLedger.EveryRunExtends | app/jobs_v22/cost_ledger.py:108-266 | No interleaving loses a claim, changes a completed one or touches the price catalog |
| CostLedger.ClaimReplays | app/jobs_v22/cost_ledger.py:139-144 | At any later point of any run a used claim id gives its claim back unchanged, or a conflict for another operation |
| CostLedger.CompletionRecords | app/jobs_v22/cost_ledger.py:190-217 | A committed completion has recorded exactly its report |
| CostLedger.CompletionReplays | app/jobs_v22/cost_ledger.py:190-215 | At any later point a completed claim only answers the same report, without a change; any other report is refused |
| CostLedger.UsedTotals | app/jobs_v22/cost_models.py:82-98 | The claims of all operations together are all claims |
| CostLedger.FreshClaimCommits | app/jobs_v22/cost_ledger.py:145-171 | A fresh claim below its limit commits if and only if the ledger holds fewer than 100 claims and the clock is not before its creation |
| CostLedger.FullLedgerRefuses | app/jobs_v22/cost_models.py:162-189 | In every full ledger some operation below its own limit is refused, without a write |
| CostLedger.LedgerFillsUp | app/jobs_v22/cost_ledger.py:108-171 | Every number of claims up to 100 is reached by a run from an empty store |
| CostLedger.FullLedgerIsReached | app/jobs_v22/cost_ledger.py:108-171 | A run from an empty store after which a claim below its own limit is refused |
| LedgerAccounts.ClaimOutcomes | app/jobs_v22/cost_ledger.py:139-171 | A claim call adds one fresh claim, or one denial of its operation at the number in the table, or changes nothing |
| LedgerAnswers.FreshClaimAnswer | app/jobs_v22/cost_ledger.py:139-174 | A fresh claim is answered LimitExceeded exactly when as many claims of its operation are stored as the table allows, and otherwise granted; the ledger written, the counted denial and the cases without a write are given value by value |
| LedgerAnswers.FirstCallAnswer | app/jobs_v22/cost_ledger.py:86-127 | Without a stored ledger a call succeeds exactly where none is required and the worker's price catalog is complete and in range |
| LedgerAnswers.HitAnswer | app/jobs_v22/cost_ledger.py:229-243 | A hit count from 1 to 10 000 is added while the total stays within a million; otherwise nothing is written |
| LedgerAnswers.AttemptAnswer | app/jobs_v22/cost_ledger.py:245-266 | An attempt is added in total and in its phase below a hundred attempts and within the range of the active time |
| LedgerAnswers.CompletionAnswer | app/jobs_v22/cost_ledger.py:190-217 | A report that breaks a rule of the claim is refused, a repeated one replayed, another one refused; a first one is written into its claim and nowhere else |
| LedgerAccounts.EveryRunCounts | app/jobs_v22/cost_ledger.py:108-266 | In every run the checkpoint hits, attempts per phase and active time in the ledger are those of the committed calls, each counted once |
| LedgerObject.JobCostLedger.Mutate | app/jobs_v22/cost_ledger.py:108-124 | An attempt without conflict writes the computed ledger, or nothing when the computation raises |
| LedgerObject.JobCostLedger.ClaimOperation | app/jobs_v22/cost_ledger.py:129-176 | A fresh claim comes back exactly while the operation has fewer claims than the table allows, the ledger fewer than 100 and the clock is not before its creation; it is then stored, for this id and operation |
| CostCounters.MicrodollarsRoundUp | app/jobs_v22/cost_models.py:280-287 | Token prices are rounded up by less than one microdollar; negative inputs are refused |
| CostCounters.AddClaim | app/jobs_v22/cost_models.py:322-366 | One turn of the loop adds to every counter exactly the claim's share |
| CostCounters.AddAllDenials | app/jobs_v22/cost_models.py:317-320 | The denial loop adds every operation's denials to its provider and to the total |
| CostCounters.CountersFromState | app/jobs_v22/cost_models.py:290-368 | Every counter equals its order-free definition; the projection raises exactly when one is outside 0 to 10^15 |
| CounterMeaning.OutcomesAreCounts | app/jobs_v22/cost_models.py:322-335 | A provider's attempts, successes, failures and unknown outcomes are the numbers of its claims that ended so |
| CounterMeaning.TotalOutcomesAreCounts | app/jobs_v22/cost_models.py:322-335 | The same totals over all providers |
| CounterMeaning.UnitsAreSums | app/jobs_v22/cost_models.py:322-336 | Durations are summed over completed claims, billable units over all claims of the provider |
| CounterMeaning.TokensAreSums | app/jobs_v22/cost_models.py:345-359 | Token counters are sums over the Dify claims with known usage; the others are counted |
| CounterMeaning.PricesAreSums | app/jobs_v22/cost_models.py:338-366 | The estimate is the sum of the claims' prices, each kind of tokens rounded up on its own; units and tokens without a rate are summed beside it |
| CounterMeaning.ProviderPricesAreSums | app/jobs_v22/cost_models.py:338-366 | The same per provider |
| CounterMeaning.DenialsAreSums | app/jobs_v22/cost_models.py:317-320 | A provider's denials are the sum over its operations in the table |
| CounterMeaning.CopiedCounters | app/jobs_v22/cost_models.py:293-315 | The remaining counters repeat the ledger's own numbers |
| CostTheorems.CountersIgnoreOrder | app/jobs_v22/cost_models.py:322-366 | No counter depends on the order of the claims |
| CostTheorems.ProviderAttemptsSplit | app/jobs_v22/cost_models.py:322-335 | Per provider, attempts are successes plus failures plus unknown outcomes |
| CostTheorems.TotalIsSumOverProviders | app/jobs_v22/cost_models.py:317-366 | Every total is the sum of the providers' counters, denials included |
| CostTheorems.DifyTokensSplit | app/jobs_v22/cost_models.py:345-350 | Dify total tokens are input plus output tokens |
| CostTheorems.RetriesPerPhase | app/jobs_v22/cost_models.py:304-308 | Retries are the attempts of each phase beyond its first, or all attempts but one without phases; never negative, never more than the attempts |
| CostTheorems.EstimateRoundsUp | app/jobs_v22/cost_models.py:333-366 | The estimate is never below the exact cost of the priced parts and exceeds it by less than one microdollar per priced token term, at most two per Dify claim |
| CostTheorems.EveryRunCostsMore | app/jobs_v22/cost_ledger.py:108-224 | Along every run unpriced units never fall, and neither does the estimate at non-negative prices |
| CostTheorems.EstimateNeverFallsIff | app/jobs_v22/cost_models.py:107-119 | The estimate is monotone if and only if no claimable operation has a negative request price, which the catalog does not check |
| DiscoveryModels.StoreFollows | app/competitors_v22/store.py:176-264 | A stored state is valid and one write along the seven listed edges, or one retry of a retryable failure, away from the state that was read |
| DiscoveryStore.NextKeepsConsistent | app/competitors_v22/store.py:100-264 | Every call keeps the active set, idempotency entries, requests and states in agreement |
| DiscoveryStore.NextFollows | app/competitors_v22/store.py:100-264 | A call changes at most one job, by one revision, along an allowed edge; only a retry of a retryable failure raises the generation |
| DiscoveryStore.OneOwner | app/competitors_v22/store.py:100-131 | No job is owned by two idempotency keys |
| DiscoveryStore.OwnJobIsRegistered | app/competitors_v22/store.py:116-125 | A stored job passes the comparison with the call exactly when the call's key was registered for it with the same request |
| DiscoveryStore.RegistrationReplays | app/competitors_v22/store.py:104-114 | A repeated registration returns the stored job without a write; other uses of the key are conflicts |
| DiscoveryStore.StaleListIsScan | app/competitors_v22/store.py:281-289 | The stale list holds only unfinished jobs last updated by the cutoff, longest waiting first, and all of them up to its limit |
| DiscoveryRuns.StepIsAtomic | app/competitors_v22/store.py:100-136 | Every step of every client leaves the database alone or makes one call on what is stored at that moment |
| DiscoveryRuns.EveryRunKeeps | app/competitors_v22/store.py:65-276 | In every run: indexes agree with states, entries and requests are permanent, revisions and generations never fall, equal revisions mean equal states, succeeded jobs never change |
| DiscoveryRuns.EveryWriteIsOneStep | app/competitors_v22/store.py:159-276 | Each write in a run changes one job by one revision along its life cycle |
| DiscoveryReplies.LateReplayIff | app/competitors_v22/store.py:104-125 | A registration is answered from a state although it read no idempotency entry if and only if somebody registered the same key, job and request between its two reads; the answer is the state of the job that its own key owns by then |
| DiscoveryReplies.LateReplayHappens | app/competitors_v22/store.py:104-125 | A run of two clients in which that happens |
| DiscoveryReplies.EntryHasOrigin | app/competitors_v22/store.py:127-131 | An entry with the call's own contents was made during a run exactly if some client registered that key, job and request in it |
| DiscoveryReplies.RegistrationOwns | app/competitors_v22/store.py:100-137 | Every successful registration, replayed or new, leaves its own entry under its key |
| DiscoveryReplies.OneKeyOneJob | app/competitors_v22/store.py:100-137 | Two successful registrations of one key, at any two moments of any run, name one job and one request |
| DiscoveryReplies.ReplyWasStored | app/competitors_v22/store.py:100-276 | Every successful reply is a state that was stored under the job at some moment of the call |
| StoreObject.CompetitorDiscoveryStore.RegisterJob | app/competitors_v22/store.py:65-137 | Registration on the keys themselves keeps them consistent; which entry and state make it replay, conflict or create is stated case by case |
| StoreObject.CompetitorDiscoveryStore.Transition | app/competitors_v22/store.py:159-224 | A terminal job stays as it is; any other transition is refused exactly for an unlisted edge or unfitting values, and otherwise every field of the new state is given; the active set moves along |
| StoreObject.CompetitorDiscoveryStore.RetryFailed | app/competitors_v22/store.py:226-276 | A retry succeeds exactly for retryable failures whose creation is not after the clock; every field of the reopened job is given |
| Checkpoints.StoredForever | app/jobs_v22/checkpoints.py:48-77 | Without a deletion a stored checkpoint is never replaced, whoever runs |
| Checkpoints.RunOnceAlone | app/jobs_v22/checkpoints.py:79-94 | Alone: a stored value other than null is returned without the operation; otherwise its result is returned, and stored exactly when the key is missing and the worker has no generation or that of an unfinished job |
| Checkpoints.ReturnsStored | app/jobs_v22/checkpoints.py:79-94 | Whatever is returned while a non-null value is stored equals that value |
| Checkpoints.GivesUpForReason | app/jobs_v22/checkpoints.py:59-77 | A save is abandoned only because something is stored, or because the worker's generation is not that of an unfinished job; after a conflict it tries again |
| Checkpoints.FencedWriteIsCurrent | app/jobs_v22/checkpoints.py:59-77 | A fenced write happens only while the generation is current, the job is not terminal and nothing is stored |
| Checkpoints.SupersededNeverWrites | app/jobs_v22/checkpoints.py:66-70 | An execution with a superseded generation, or of a terminal or missing job, never writes |
| Checkpoints.UnfencedReturnsStored | app/jobs_v22/checkpoints.py:79-94 | Every unfenced execution that has returned left a stored value and returned it, or its own result if that value is null |
| Checkpoints.UnfencedAgreeIff | app/jobs_v22/checkpoints.py:79-94 | For given operation results, unfenced executions return the same value in every run if and only if a value other than null is stored already, or nothing is stored and no operation gives null, or their own results are all equal |
| Checkpoints.NullBreaksAgreement | app/jobs_v22/checkpoints.py:84-94 | The smallest case in which agreement is not certain: two executions, one of whose operations gives null |
| AttemptBudget.StepKeepsOrderly | app/competitors_v22/public_profile_stage.py:128-137 | Every set-if-absent command keeps the taken slots a prefix |
| AttemptBudget.EveryRunIsOrderly | app/competitors_v22/public_profile_stage.py:128-137 | Taken slots are 1 to the number of successful claims; a claim at slot k found all earlier ones taken; a claim fails only with all its slots taken; never more than 15 |
| AttemptBudget.CountIsWinners | app/competitors_v22/public_profile_stage.py:139-140 | With one limit for all, capped at 15, the count is the number of successful claims and never exceeds it |
| AttemptBudget.SharedProviderAttemptBudget.Claim | app/competitors_v22/public_profile_stage.py:128-137 | The slot loop takes the first free slot, or raises exactly when all are taken |
| RateLimiter.AsyncRateLimiter.BeginWait | app/collectors/site_inventory_fetcher.py:72-79 | A request is granted on the spot exactly when the reserved time has come, and then reserves one interval from now; otherwise it sleeps exactly until the reserved time |
| RateLimiter.AsyncRateLimiter.EndWait | app/collectors/site_inventory_fetcher.py:77-79 | The grant after a sleep moves the reserved time at least one interval beyond both now and the time reserved before |
| RateLimiter.AsyncRateLimiter.ApplyMinimumDelay | app/collectors/site_inventory_fetcher.py:81-84 | A minimum delay shortens neither the interval nor the reserved time; a positive one is a lower bound for both the interval and the distance from now to the reserved time |
| RateLimiter.StepKeepsSpaced | app/collectors/site_inventory_fetcher.py:72-84 | Grants, a sleeping waiter and the reserved time keep the distance of the last grant |
| RateLimiter.EveryRunIsSpaced | app/collectors/site_inventory_fetcher.py:72-84 | Any two grants are at least the sum of the intervals in force apart, hence n times the initial interval for n grants later |
| RateLimiter.RaiseHoldsBackIff | app/collectors/site_inventory_fetcher.py:72-84 | A raised minimum delay holds back every later grant of every run by that delay if and only if nobody sleeps or the sleeper would not wake up before then |
| RateLimiter.RaiseSpacesOut | app/collectors/site_inventory_fetcher.py:72-84 | Later grants keep at least the raised distance from each other, whether or not somebody slept |
| RateLimiter.SleeperIgnoresRaise | app/collectors/site_inventory_fetcher.py:72-84 | A run in which a delay raised while a waiter sleeps does not hold that waiter back |
| CircuitBreaker.FailureJoins | app/jobs_v22/circuit_breaker.py:101-108 | Pruning and adding keeps exactly the failures inside the window before the new one |
| CircuitBreaker.WindowCounts | app/jobs_v22/circuit_breaker.py:101-113 | The kept failures are as many as the failures since the last success inside the window |
| CircuitBreaker.RedisCircuitBreaker.BeforeCall | app/jobs_v22/circuit_breaker.py:45-71 | Uninterrupted: closed lets everyone through; open lets through exactly the calls after the cooldown that find no probe key, and sets it |
| CircuitBreaker.RedisCircuitBreaker.RecordSuccess | app/jobs_v22/circuit_breaker.py:73-79 | A success closes the circuit and forgets failures and probe |
| CircuitBreaker.RedisCircuitBreaker.RecordIneligible | app/jobs_v22/circuit_breaker.py:92-97 | A failure that does not count leaves circuit and failures alone; only a probe gives its key back |
| CircuitBreaker.RedisCircuitBreaker.AddFailure | app/jobs_v22/circuit_breaker.py:101-108 | The failure set stays the full history since the last success cut to the window |
| CircuitBreaker.RedisCircuitBreaker.RecordFailure | app/jobs_v22/circuit_breaker.py:81-125 | Uninterrupted: an ordinary failure opens the circuit exactly when the window count reaches the threshold, for the k-th cooldown at the k-th opening in a row and the last one from then on |
| CircuitRuns.AskAlone | app/jobs_v22/circuit_breaker.py:45-71 | The two commands of before_call, run with nobody in between, are the method of the object |
| CircuitRuns.FailAlone | app/jobs_v22/circuit_breaker.py:81-125 | The five commands of record_failure, run with nobody in between, are the method of the object |
| CircuitRuns.EveryRunKeepsWindow | app/jobs_v22/circuit_breaker.py:101-108 | However callers interleave, with a clock that never goes back, the failure set is the history since the last success cut to the window |
| CircuitRuns.ExactStaysRight | app/jobs_v22/circuit_breaker.py:109-122 | The count is right, and every caller about to write the circuit would leave it right, exactly when it is the number of openings since the last success and all those callers have read it |
| CircuitRuns.CountStepIff | app/jobs_v22/circuit_breaker.py:109-122 | A count that stays right keeps doing so in exactly the steps that do not write the circuit, or delete an open one, between another caller's read and write; after such a step the count is still right, but some caller's next command makes it wrong |
| CircuitRuns.UndisturbedRunStaysRight | app/jobs_v22/circuit_breaker.py:109-122 | In every run without such a step the count stays right |
| CircuitRuns.EveryRunIsBounded | app/jobs_v22/circuit_breaker.py:109-122 | In every run the stored count is at most the number of openings ever made |
| CircuitRuns.TwoOpeningsCountOnce | app/jobs_v22/circuit_breaker.py:109-122 | A run in which two failures open the circuit twice and count it once |
| CircuitRuns.ProbeStepIff | app/jobs_v22/circuit_breaker.py:59-71 | At most one probe, with its key set, is kept in exactly the steps that do not delete the key under somebody else's probe |
| CircuitRuns.ProbeStaysSingle | app/jobs_v22/circuit_breaker.py:59-71 | In every run without such a step there is at most one probe at a time |
| CircuitRuns.SecondProbeIff | app/jobs_v22/circuit_breaker.py:53-71 | While a probe is out, another caller can become a second one on its own, as time goes on, if and only if the key was deleted or the circuit closed meanwhile |
| CircuitRuns.TwoProbesHappen | app/jobs_v22/circuit_breaker.py:53-125 | A run, with a clock that never goes back, in which the late failure of an old permit deletes the probe key and a second probe is given out |

## Left out

- Frontier.DrainCompletes: says where every accepted address ends, not that `crawl_depth` is a shortest distance, which the code does not compute
- Crawler.SiteInventoryCollector.Collect: `sampling_quality` and `contact_coverage` are off; the fetch of the homepage and robots.txt, the errors raised before the crawl, deep pages, key-page selection and the other fields of the snapshot are not modelled, and whether the sitemap and site-map searches are due is a parameter
- Crawler.SiteInventoryCollector.DrainCandidates: for a batch size of at least one; with zero the loop in the code pops nothing and never ends
- Frontier.SettleKeeps: of the record schema only the range of `crawl_depth` is modelled; other field ranges cannot raise in the model
- Parsing of HTML, XML, gzip and robots.txt, and the normalization of addresses, names and domains: arbitrary functions or opaque values
- Ranking.SuppressSharedWebsites: scores are real numbers that are only compared; how relevance, rank and confidence are computed is not modelled, and the eligibility of a group is an input
- Selection.SelectCandidates: supplemental websites are given as distinct non-empty hosts; the final readiness flag and the texts of the data gaps are not modelled
- EligibleKeys.PartitionGivesWellKeyed: competitor ids are digests of identity keys and are assumed not to collide
- CanonicalJson.ReadsBack: the text before its UTF-8 encoding; Dafny characters are Unicode scalar values, so strings with lone surrogates (which the encoder cannot encode either) and cyclic values do not occur
- CanonicalJson.EncodeSucceeds: which of several exceptions is raised first is not modelled
- NumberLayout.VerifiedNumberIsEcmaLayout: starts from the shortest round-trip digits that `repr` supplies; the conversion of a binary64 value to those digits is not modelled, and the result holds for any number of digits
- The other encoding of the same module (`canonical_json_bytes`) and SHA-256: digests are injective values
- CostLedger.EveryRunIsSafe: one job's key, so a stored ledger of another job does not occur; key expiry is left out, and retries after a conflict repeat until they commit or raise
- CostCounters.CountersFromState: the elapsed wall-clock milliseconds are a parameter; summary records and their storage are not modelled
- DiscoveryRuns.EveryRunKeeps: key expiry and published events are left out, so an idempotency entry lives as long as its job; `transition` has no run-generation fence and none is claimed; the deletion of checkpoints by a retry appears only as an event in `Checkpoints`
- DiscoveryModels.StoreFollows: cost counters, diagnostics and the body of a discovery result are left to their own validators
- DiscoveryStore.StaleListIsScan: scores are the times themselves, without rounding to binary64
- Checkpoints.UnfencedReturnsStored: like UnfencedAgreeIff, about runs in which no manual retry deletes the checkpoint; ReturnsStored and SupersededNeverWrites include them
- AttemptBudget.EveryRunIsOrderly: key expiry is left out; the text stored in a slot is not modelled
- RateLimiter.EveryRunIsSpaced: real time instead of binary64
- CircuitRuns.SecondProbeIff: key expiry is left out, so a probe key lives until somebody deletes it
- CircuitRuns.EveryRunKeepsWindow: a call's time is the time at which its first command takes effect; failures with equal times are told apart, as the random part of a set member does
- HTTP, Redis, Supabase and queue clients, routes, logging, settings, scripts, and the workers whose lease protocol lives in SQL: only their abstract effect enters the model
