# AdMatch auction core: a verified model

AdMatch answers a search query with at most one advertisement. Campaigns bid on keywords; an
inverted index turns the query into campaigns with a matching keyword, filters drop those that may not
serve, a generalised second-price auction ranks and prices the rest, and the first candidate whose
daily budget still covers its price is charged and shown. All of this runs concurrently, on
snapshots that are swapped while requests are under way, against counters that are pruned as days
pass.

This project models that logic in Dafny and proves it correct. `dafny verify dfyconfig.toml` checks
everything.

## How it is organised

| file | subject |
|---|---|
| `Model`, `Sorting` | entities and machine ranges; sorting, and why a strict order fixes a list |
| `Normalization`, `Scoring` | tokens of a text; relevance and score |
| `Vocabulary`, `Corpus`, `Identity` | sets of ids for sets of words; the tokens a build reads and when they can be numbered; which repeated id is met first |
| `Matching`, `KeywordIndexing` | the brute-force matcher; the index as a class, and its refinement of the matcher |
| `Auction`, `Budgets` | ranking, prices, the payment walk; the budget store, one call at a time |
| `Specification`, `Engine`, `Guarantees`, `Reordering` | the declarative auction; the indexed engine that refines it; what it promises; that input order never shows |
| `CasCounter` | one atomic counter under any number of interleaved compare-and-swap loops |
| `Service`, `Progress` | the running system as a state machine over atomic steps; that nobody in it is ever stuck |
| `Examples`, `HiddenWinner`, `LateSpend`, `FullVocabulary` | concrete inputs on which a claim fails |
| `Privacy`, `Validation`, `State` | audience sizes, campaign validation, the shared application state |

The layers meet in one statement. `Engine.Snapshot.Run`, with index, hit counts and in-place
budgets, computes `Specification.ReferenceAuction`, which mentions neither. The theorems of
`Guarantees` and `Reordering` are about that function and its answer to an accepted query,
`Specification.Outcome`, so they hold of `Run`. And
`Service.AuctionsAreLinearizable` shows that a request interleaved step by step with other
requests, publishes and pruning returns what the same function gives when evaluated in one instant.

## Where the code and its comments differ

- `crates/admatch-core/src/engine.rs:262-263` says the winner is always visible in the debug
  ranking. It is visible exactly when one of the ten best candidates can pay
  (`Guarantees.WinnerRowIff`). `HiddenWinner.ElevenCandidatesHideTheWinner` gives eleven campaigns,
  a query and counters for which the auction returns a winner without a row.
- `crates/admatch-server/src/config.rs:136-140` says a zero reserve would let ads serve for free.
  The budget store refuses a zero price, so no ad is ever shown at price 0, whatever the reserve
  (`w.price > 0` in `Guarantees.WinnerIsFirstWhoCanPay` assumes nothing about the reserve). What a
  zero reserve does is make such candidates unable to pay.
- The reserve is tested on the single best-scoring keyword of a campaign
  (`crates/admatch-core/src/engine.rs:242`), so a campaign may be excluded although another of its
  matching keywords bids enough. `Guarantees.CandidatesAreExactly` states the rule as it is coded.
- `crates/admatch-server/src/state.rs:151-156` argues that one day of slack makes pruning safe
  because requests are short. Nothing in the code enforces that; it is the assumption
  `Service.Timely`. Without it, a counter holds all that was accepted for it exactly as long as it
  was never dropped with something on it (`Service.CounterIsTrueIff`), what was dropped accounts for
  every difference (`Service.MoneyIsConserved`), and only a charge after such a loss can overspend
  (`Service.OnlyChargesAfterALossOverspend`). `LateSpend.LateSpendOverspends` is a run in which a
  budget of 150 is charged 200.
- `crates/admatch-core/src/index.rs:172` reports a full vocabulary for more than `u32::MAX` distinct
  tokens. Because line 239 asks for a new id before looking the token up, exactly 2^32 words are
  accepted if and only if the last token read is a new one (`Corpus.NumberableIff`), so the same
  keywords may build in one order and not in another
  (`FullVocabulary.OrderDecidesWhenExactlyFull`).

## Assumptions

- Unicode lower-casing, letters-or-digits and white space are functions passed in; only the
  tokeniser round trip assumes anything about them (`Normalization.ValidTables`).
- Each atomic operation on a counter, each pointer swap, each look-up under a shard lock and each
  removal of one entry during pruning is one step. Loads are relaxed: they may return any value the
  counter has held that is not older than one the same call has seen. A spurious failure of the
  weak exchange may happen at any time. Whoever holds a counter's map guard keeps it from being
  removed.
- Days are numbered from the earliest date of the calendar, and the clock does not run backwards.
  A request reads its snapshot first and the clock second, in two steps. Its ranking is a function
  of the immutable snapshot, so computing it is not a step of its own.
- `reserve > 0`, `increment >= 0` (the ranges the configuration enforces) are preconditions only
  where a theorem needs them.

## Model

| member | source | states |
|---|---|---|
| `Normalization.TokensAreWords` | crates/admatch-core/src/normalize.rs:65-75 | every token is a non-empty run of lower-case letters and digits |
| `Normalization.SplitMeans` | crates/admatch-core/src/normalize.rs:74 | for every string, white space separates what is before it from what is after it, wherever and however often it stands, and nothing else does |
| `Normalization.TokensAreRuns` | crates/admatch-core/src/normalize.rs:65-75 | for every text, its tokens are the maximal runs of letters and digits of its lower-case form, in order |
| `Normalization.TokenizeRoundTrip` | crates/admatch-core/src/normalize.rs:59-75 | joining the tokens of a text with spaces and tokenising again gives the same tokens |
| `Normalization.RefusedQueries` | crates/admatch-core/src/normalize.rs:43-57 | a query is refused as too long iff over 200 characters, else as empty iff it has no letter or digit, else for its tokens iff over 16; otherwise its tokens are returned |
| `Normalization.AcceptedQueryIsSmall` | crates/admatch-core/src/normalize.rs:43-57 | an accepted query is its tokens, between one and sixteen distinct ones |
| `Scoring.BroadRelevanceOfAcceptedQuery` | crates/admatch-core/src/index.rs:58-73 | on every accepted query neither clamp fires: the quotient, within 437..7000, 7000 exactly at full coverage, monotone in coverage, below exact |
| `Scoring.RelevanceIsQuotient` | crates/admatch-core/src/index.rs:58-73 | for all counts that do not saturate the product, the quotient brought into 1..7000, with no query tokens read as one |
| `Scoring.RelevanceIsPositive` | crates/admatch-core/src/index.rs:55-73 | for any counts, relevance stays in 1..7000 |
| `Scoring.ScoreFitsIn95Bits` | crates/admatch-core/src/index.rs:75-82 | no score reaches 2^95 |
| `Vocabulary.HitCountMeansSubset` | crates/admatch-core/src/index.rs:26-29 | the hit count equals the token count iff every token was hit |
| `Vocabulary.EqualityByIds` | crates/admatch-core/src/index.rs:139-144 | all query words known and equal id lists, iff the word sets are equal |
| `Vocabulary.SubsetByIds` | crates/admatch-core/src/index.rs:146-149 | every id among the known ids, iff the words are a subset of the query |
| `Matching.BeatsIsStrictOrder` | crates/admatch-core/src/index.rs:116-126 | the preference between keywords is a strict order deciding between any two different ids: a higher score wins, then a higher bid, then a smaller id |
| `Matching.BestKeywordIff` | crates/admatch-core/src/index.rs:388-406 | the best-so-far fold ends with `m` iff `m` is a matching keyword and no matching keyword has a larger product of bid and relevance, at that product a larger bid, or at that bid a smaller id |
| `Matching.BestKeywordIsFirst` | crates/admatch-core/src/index.rs:388-406 | the fold's result beats every matching keyword before it, so of equal ones it keeps the first |
| `Matching.WhatMatches` | crates/admatch-core/src/index.rs:364-387 | no words match nothing; an exact keyword wants the query's words, a broad one none the query lacks; negatives block exactly the queries they would match as keywords |
| `Matching.ReferenceBestIff` | crates/admatch-core/src/index.rs:372-410 | the brute-force matcher lists exactly the best match of each matching campaign, by position |
| `Matching.ReferenceMatchIsUnblockedBest` | crates/admatch-core/src/index.rs:372-410 | blocking campaigns first or filtering their matches afterwards gives the same list |
| `KeywordIndexing.KeywordIndex.InternSet` | crates/admatch-core/src/index.rs:234-249 | ids returned stand for exactly the words of the text; the vocabulary stays a bijection, only grows, and fails exactly when a token finds no id left |
| `KeywordIndexing.KeywordIndex.Store` | crates/admatch-core/src/index.rs:200-216 | storing a keyword keeps the representation: it sits once in the bucket of its token set, or once in the posting list of each token |
| `KeywordIndexing.KeywordIndex.AddNegatives` | crates/admatch-core/src/index.rs:219-229 | the negatives kept at a campaign's position are, one for one and in order, its negative keywords that have a token |
| `KeywordIndexing.KeywordIndex.Build` | crates/admatch-core/src/index.rs:192-232 | succeeds iff every token of the corpus finds an id left for it, and then the whole representation invariant holds and the vocabulary has exactly the words of the corpus |
| `Corpus.ReadingIff` | crates/admatch-core/src/index.rs:234-249 | interning token by token succeeds iff all but the last token have at most `u32::MAX` different words, and leaves exactly the words read |
| `Corpus.NumberableIff` | crates/admatch-core/src/index.rs:172-174 | below 2^32 words always, above never, at exactly 2^32 iff the last token is new |
| `KeywordIndexing.KeywordIndex.Prepare` | crates/admatch-core/src/index.rs:256-271 | the known ids are exactly those of the query words in the vocabulary; distinct words are counted |
| `KeywordIndexing.OfferKeepsBest` | crates/admatch-core/src/index.rs:279-298 | an offer in any order keeps, per campaign, an offer that no other offer beats |
| `KeywordIndexing.KeywordIndex.CountHits` | crates/admatch-core/src/index.rs:311-319 | each broad keyword's count is the number of query tokens it holds |
| `KeywordIndexing.KeywordIndex.OfferBroad` | crates/admatch-core/src/index.rs:320-326 | whatever order the hash map yields, the best of each campaign over exactly the exact and broad keywords hit |
| `KeywordIndexing.KeywordIndex.BestMatches` | crates/admatch-core/src/index.rs:273-331 | the index answers exactly what brute force answers, before negatives |
| `KeywordIndexing.KeywordIndex.NegativeMatchesMeansBlocked` | crates/admatch-core/src/index.rs:333-344 | stored negatives match iff some negative keyword matches on word sets |
| `Auction.RankOrderIsTotal` | crates/admatch-core/src/auction.rs:40-46 | the ranking is a total preorder whose only ties are between equal campaign ids |
| `Auction.DivCeilIsLeast` | crates/admatch-core/src/auction.rs:12-14 | a bid reaches a score iff it is at least the ceiling quotient |
| `Auction.GspPriceIsFormula` | crates/admatch-core/src/auction.rs:48-82 | for all inputs the checked arithmetic never overflows and the price is the documented formula, negative money read as 0 and relevance 0 as 1 |
| `Auction.PriceWithinBounds` | crates/admatch-core/src/auction.rs:50-51 | never above the bid; not below the reserve for a bid that reaches it |
| `Auction.UncappedPriceIsMinimal` | crates/admatch-core/src/auction.rs:10-15 | a price that is neither bid nor reserve is the least bid matching the next score, plus the increment |
| `Auction.PriceChain` | crates/admatch-core/src/auction.rs:102-112 | down a whole ranking: reserve <= price <= bid, and price times relevance covers every score below and every effective price below |
| `Auction.RankIsStrict` | crates/admatch-core/src/auction.rs:7-9 | with distinct campaigns the ranking is strict by score, then bid, then smaller id, and has the same members |
| `Auction.PositionExists` | crates/admatch-core/src/auction.rs:40-46 | a bidder joins a ranking at one place without moving anybody else |
| `Auction.RaisingABid` | crates/admatch-core/src/auction.rs:40-82 | raising one bid never moves the bidder down; where it keeps its place both prices are one threshold capped at the respective bid |
| `Auction.Payer.TryPay` | crates/admatch-core/src/engine.rs:166-175 | pays iff the account exists and the positive price fits; errors read as unable to pay |
| `Auction.SelectWinner` | crates/admatch-core/src/auction.rs:96-125 | the winner is the first position that could pay before the walk began; exactly its price is charged; counters come into being exactly for the positions tried |
| `Budgets.NextTotalIsBudgetTest` | crates/admatch-core/src/budget.rs:88-99 | the overflow check never decides: the closure accepts iff the sum fits the budget |
| `Budgets.MemoryBudgets.TrySpend` | crates/admatch-core/src/budget.rs:62-86 | all or nothing: charged iff it fits, refused unchanged otherwise, an error iff the amount is not positive |
| `Budgets.MemoryBudgets.DropDaysBefore` | crates/admatch-core/src/budget.rs:110-114 | exactly the counters of earlier days go |
| `Budgets.PruneBudgetDays` | crates/admatch-server/src/state.rs:148-164 | today's and yesterday's counters stay, all older ones go |
| `Budgets.FirstPayerIsFirst` | crates/admatch-core/src/auction.rs:96-99 | the first payer can pay and nobody before it can; none iff nobody can |
| `CasCounter.StepKeepsInv` | crates/admatch-core/src/budget.rs:91-99 | every atomic operation of every call keeps the counter rising and its history that of a sequential execution |
| `CasCounter.AnyTurnIsPossible` | crates/admatch-core/src/budget.rs:19-30 | a load may meet any value held so far, a failed exchange any not older than the one read, and an exchange on the newest value may succeed |
| `CasCounter.CasLoopIsLinearizable` | crates/admatch-core/src/budget.rs:9-30 | in every interleaving, stale loads included, all answers and the stored value are those of atomic calls in the order of their deciding steps |
| `CasCounter.ExactFill` | crates/admatch-core/src/budget.rs:250-277 | equal calls against one budget: exactly min(calls, budget / amount) succeed and the counter holds that many amounts, in every completed run |
| `CasCounter.RetryShrinksRoom` | crates/admatch-core/src/budget.rs:91-99 | each retry is spurious or strictly shrinks a room that is never negative |
| `CasCounter.RetriesAreBounded` | crates/admatch-core/src/budget.rs:14-17 | each changed value met is another accepted spend; never more of them than the budget has room for |
| `CasCounter.StoredWithinLargestBudget` | crates/admatch-core/src/budget.rs:19-29 | the stored value only rises and stays within 0 and the largest budget of an accepted call |
| `Privacy.AudienceSize` | crates/admatch-core/src/privacy.rs:51-69 | depends on its lists only as sets; for counts of people, the true audience capped at `i64::MAX` |
| `Privacy.SaturatingAddMeans` | crates/admatch-core/src/privacy.rs:51-69 | sums are exact within the machine integer and otherwise stop at the nearer end, whatever the sign of the cells |
| `Privacy.TrueAudienceMeans` | crates/admatch-core/src/privacy.rs:51-69 | the true audience is one cell for a single country and bucket, adds up over countries and buckets, counts repetitions once, and covers every country and bucket |
| `Privacy.SaturationIsSafe` | crates/admatch-core/src/privacy.rs:71-81 | the capped size passes the threshold only if the true audience does, and exactly then below the cap |
| `Validation.ValidateCampaign` | crates/admatch-server/src/validate.rs:51-95 | accepted iff it has none of the seven defects, otherwise refused for the first it has in the order checked; the size returned is that of its targeting |
| `Engine.CheckIds` | crates/admatch-core/src/engine.rs:79-91 | succeeds iff no campaign or keyword id repeats anywhere; a failure names the first repetition met |
| `Identity.FirstRepeatIsUnique` | crates/admatch-core/src/engine.rs:79-91 | there is at most one such error to report, and only where some id repeats |
| `Engine.Snapshot.Build` | crates/admatch-core/src/engine.rs:77-98 | a snapshot iff ids are unique and the words can be numbered; otherwise the first repeated id, or too many words when ids are unique |
| `Engine.Snapshot.Matches` | crates/admatch-core/src/engine.rs:100-110 | exactly the brute-force matcher's answer, negatives applied |
| `Engine.Snapshot.Filter` | crates/admatch-core/src/engine.rs:149-162 | candidates and exclusions are those of the declarative filters |
| `Engine.Snapshot.Run` | crates/admatch-core/src/engine.rs:140-205 | the indexed auction is the declarative auction on the counters as they were, and charges exactly the first offer that could be paid, nothing otherwise |
| `Guarantees.MatchRelevance` | crates/admatch-core/src/index.rs:300-326 | on an accepted query a match is exact at 10000, or broad within 437..7000 by its coverage |
| `Guarantees.BestOutbidsAll` | crates/admatch-core/src/index.rs:116-126 | the keyword standing for a campaign scores highest of its matching ones, at equal scores bids highest, at equal bids has the smallest id |
| `Guarantees.CandidatesAreExactly` | crates/admatch-core/src/engine.rs:207-246 | the candidates, strictly ranked, are exactly the best matches of active, in-country, unblocked campaigns bidding the reserve that target no ages, or target the bucket of a consenting user with a known audience above the threshold |
| `Guarantees.ExcludedAreExactly` | crates/admatch-core/src/engine.rs:207-246 | the excluded, strictly ranked, are exactly the matched active campaigns that fail a filter, with the first filter failed, each spelled out |
| `Guarantees.LookupsSucceed` | crates/admatch-core/src/engine.rs:166-191 | for every candidate each defensive look-up succeeds, with the right account and price and the text, type and bid of its keyword |
| `Guarantees.WinnerIsFirstWhoCanPay` | crates/admatch-core/src/engine.rs:127-139 | an ad is shown iff somebody can pay; it is that of the first who can, field by field, at the positive price charged; everybody skipped could not pay |
| `Guarantees.MoneyFollowsTheAd` | crates/admatch-core/src/engine.rs:166-191 | an auction adds exactly the price of the ad shown to its campaign's counter for the day and nothing to any other; without an ad nothing changes |
| `Guarantees.OffersArePositive` | crates/admatch-core/src/budget.rs:72-74 | with a positive reserve no offer is an invalid amount |
| `Guarantees.RankedIsContest` | crates/admatch-core/src/auction.rs:101-107 | what the engine hands over is ranked, with relevance at least 1 and bids at least the reserve |
| `Guarantees.WinnerPaysAFairPrice` | crates/admatch-core/src/auction.rs:250-277 | the ad shown pays within reserve and bid, and covers the score of every candidate below it |
| `Guarantees.DebugOnlyAddsRanking` | crates/admatch-core/src/engine.rs:193-204 | the debug flag changes nothing but the presence of the ranking |
| `Guarantees.RankingRows` | crates/admatch-core/src/engine.rs:262-290 | every row field by field: the candidates in rank order with bid times relevance, what each would pay and whether it was skipped, then the exclusions with their reasons, cut at ten |
| `Guarantees.RankingShape` | crates/admatch-core/src/engine.rs:264-290 | at most ten rows; budget rows are exactly the skipped candidates among them; only unskipped candidates carry no reason |
| `Guarantees.WinnerRowIff` | crates/admatch-core/src/engine.rs:262-263 | the ranking shows a winner iff one of the ten best candidates can pay from the counters |
| `Guarantees.WinnersRowSaysThePrice` | crates/admatch-core/src/engine.rs:278-285 | among the candidates only the winner's own row carries its id, with the price paid and no reason |
| `HiddenWinner.ElevenCandidatesHideTheWinner` | crates/admatch-core/src/engine.rs:262-288 | eleven campaigns, a query and counters for which the auction charges and returns a winner that has no row |
| `Guarantees.UnpersonalizedIgnoresAge` | crates/admatch-core/src/engine.rs:225-236 | without consent the age bucket influences neither outcome nor charge |
| `Guarantees.TargetedCandidatesAreSafe` | crates/admatch-core/src/engine.rs:225-236 | an age-targeted candidate has a true audience above the engine's threshold and a consenting user in a targeted bucket |
| `Reordering.BestMoves` | crates/admatch-core/src/index.rs:273-331 | best match and verdict follow a campaign to its new position |
| `Reordering.ReorderedStaysUnique` | crates/admatch-core/src/engine.rs:77-91 | the duplicate check passes on the reordered campaigns iff it passes on the original ones |
| `Reordering.ReorderedStillBuilds` | crates/admatch-core/src/engine.rs:77-98 | unless the corpus has exactly 2^32 words, reordered campaigns are accepted iff the original ones are |
| `FullVocabulary.OrderDecidesWhenExactlyFull` | crates/admatch-core/src/index.rs:234-249 | with exactly 2^32 words, one order of the same keywords is accepted and another refused |
| `Reordering.OrderNeverShows` | crates/admatch-core/src/engine.rs:127-139 | reordering campaigns, keywords and negatives changes no outcome, no ranking row and no charge |
| `Service.StepKeepsInv` | crates/admatch-core/src/budget.rs:61-115 | every step of every request, publish, day change and prune keeps counters, ledger, skips and settled payments consistent |
| `Service.LedgerSafety` | crates/admatch-core/src/budget.rs:9-30 | in every interleaving, counters not yet prunable hold exactly what was accepted; no counter, prunable or not, exceeds the largest budget it was charged against; accepted spends and ads shown correspond one to one |
| `Service.MoneyIsConserved` | crates/admatch-core/src/budget.rs:61-115 | in every run, what was accepted for a campaign's day is what its counter holds plus what its dropped counters held |
| `Service.CounterIsTrueIff` | crates/admatch-server/src/state.rs:148-164 | a counter holds all that was accepted for it iff no counter of that day was dropped after something had been accepted |
| `Service.OnlyChargesAfterALossOverspend` | crates/admatch-server/src/state.rs:148-164 | a campaign's day not charged after such a loss stays within the largest budget it was charged against, timely or not |
| `Service.OnTimeIsNeverAfterALoss` | crates/admatch-server/src/state.rs:148-164 | a day all of whose spends were made before it could be pruned is never charged after a loss |
| `Service.TimelyRunsNeverOverspend` | crates/admatch-server/src/state.rs:148-164 | if no request outlives the day after it read the clock, no campaign's day is ever overspent |
| `Service.CompletionIsAtomicWalk` | crates/admatch-core/src/auction.rs:114-122 | at the step that ends an auction its winner is the first who can pay at that moment |
| `Service.EventsTellSnapshotAndDay` | crates/admatch-server/src/state.rs:58-67 | in every run what is published is the argument of the last publish, and the clock shows the first day plus the day changes |
| `Service.RequestsRememberTheirStart` | crates/admatch-server/src/routes.rs:150-164 | every request works with the snapshot published last before it began and charges the day the clock showed when it read it |
| `Service.AuctionsAreLinearizable` | crates/admatch-server/src/routes.rs:150-164 | a concurrent auction's outcome and effect are those of the sequential auction run in one instant, on the snapshot published last before it began and for the day it read |
| `Service.SkipsAreNeverStale` | crates/admatch-core/src/auction.rs:96-99 | whoever was passed over still cannot pay, during the walk and after it |
| `Progress.LeftAloneARequestEnds` | crates/admatch-core/src/budget.rs:61-99 | from any state of any run an unfinished request, left alone, ends within a bound given by the length of its ranking |
| `Progress.WorldIsFree` | crates/admatch-server/src/state.rs:58-67 | publishing, day changes and pruning are always possible; a counter is dropped iff prunable and held by nobody; a request begins iff new, accepted and a snapshot is there |
| `LateSpend.LateSpendOverspends` | crates/admatch-server/src/state.rs:151-156 | a run without the timing assumption in which a budget is charged twice |
| `State.AppState.Refresh` | crates/admatch-server/src/state.rs:97-146 | a failed load keeps the old snapshot, a good one replaces it, and in both cases exactly the days before yesterday are forgotten |
| `State.AppState.Match` | crates/admatch-server/src/routes.rs:150-164 | not ready without a snapshot; otherwise the outcome and charge of one declarative auction |

## Left out

- Budgets.MemoryBudgets.AddWithin: one atomic step here; that the compare-and-swap loop amounts to one is what `CasCounter` proves.
- KeywordIndexing.KeywordIndex.Prepare: the query's tokens lose their repeats without being sorted as strings first, because the ids are sorted afterwards and only the number of words is kept.
- Sorting.Sort: `sort_by` and `sort_unstable` are an insertion sort as a function; their own algorithms are not modelled, and no result depends on stability because nothing sorted here ties.
- Service.OnlyChargesAfterALossOverspend: that it takes a charge after a loss to overspend, not that every such charge overspends; how much is over follows from `Service.MoneyIsConserved`.
- Service.Run: finite runs; a request left alone ends (`Progress.LeftAloneARequestEnds`), but one that others keep overtaking is covered only as far as `CasCounter.RetriesAreBounded` bounds its retries.
- Reading a budget through `spent`: the value is only reported, never acted on.
- Internals of the concurrent map and of the pointer swap, and the argument that relaxed ordering suffices for other memory: only the counter's own modification order matters here.
- HTTP, JSON, error codes, metrics, logging, configuration parsing, seed files and the seed generator: plumbing and sampling.
- Conversions of countries and age buckets to and from strings: finite tables. The reported sizes (`campaign_count`, `keyword_count`, `vocabulary_size`): plain lengths.
- Redis budgets, Postgres, tap events and reports: not implemented in the repository.
