/** Relevance and score (the formulas of crates/admatch-core/src/index.rs). */
module Scoring {
  import opened Model
  import opened Normalization

  const EXACT_RELEVANCE_BP: U32 := 10_000
  const BROAD_WEIGHT_BP: U32 := 7_000
  const MIN_RELEVANCE_BP: U32 := 1

  /** `usize` counts become `u64`, the product saturates, the quotient is clamped. */
  function BroadRelevance(keywordTokens: nat, queryTokens: nat): RelevanceBp {
    var kw := Min(keywordTokens, U64_MAX);
    var q := Max(Min(queryTokens, U64_MAX), 1);
    var raw := Min(BROAD_WEIGHT_BP * kw, U64_MAX) / q;
    Max(MIN_RELEVANCE_BP, Min(raw, BROAD_WEIGHT_BP))
  }

  /** Bid times relevance; a negative bid scores 0. */
  function Score(bid: Micros, relevance: RelevanceBp): nat {
    (if bid < 0 then 0 else bid) * relevance
  }

  lemma ScoreFitsIn95Bits(bid: Micros, relevance: RelevanceBp)
    ensures Score(bid, relevance) < 0x8000_0000_0000_0000_0000_0000
  {
    var b := if bid < 0 then 0 else bid;
    assert b * relevance <= I64_MAX * relevance;
    assert I64_MAX * relevance <= I64_MAX * U32_MAX;
  }

  /** For every keyword that can match an accepted query neither clamp fires: the relevance is
      the plain quotient, within 437..7000 and below an exact match; covering more of the query
      never lowers it. */
  lemma BroadRelevanceOfAcceptedQuery(keywordTokens: nat, queryTokens: nat, fewer: nat)
    requires 1 <= keywordTokens <= queryTokens <= MAX_QUERY_TOKENS && fewer <= keywordTokens
    ensures BroadRelevance(keywordTokens, queryTokens) == 7_000 * keywordTokens / queryTokens
    ensures 437 <= BroadRelevance(keywordTokens, queryTokens) <= 7_000 < EXACT_RELEVANCE_BP
    ensures BroadRelevance(keywordTokens, queryTokens) == 7_000 <==> keywordTokens == queryTokens
    ensures BroadRelevance(fewer, queryTokens) <= BroadRelevance(keywordTokens, queryTokens)
  {
    var q, raw := queryTokens, 7_000 * keywordTokens / queryTokens;
    RelevanceIsQuotient(keywordTokens, q);
    RelevanceIsQuotient(fewer, q);
    QuotientBelow(7_000 * keywordTokens, q, 437);
    QuotientBelow(7_000 * keywordTokens, q, 7_000);
    QuotientBelow(7_000 * keywordTokens, q, 7_001);
    QuotientIsMonotone(7_000 * fewer, 7_000 * keywordTokens, q);
  }

  /** For all counts below the point where the product would saturate, some 2.6 * 10^15 tokens: the
      quotient, brought into 1..7000; no query tokens are read as one. */
  lemma RelevanceIsQuotient(keywordTokens: nat, queryTokens: nat)
    requires 7_000 * keywordTokens <= U64_MAX && queryTokens <= U64_MAX
    ensures BroadRelevance(keywordTokens, queryTokens) ==
            Max(1, Min(7_000 * keywordTokens / Max(queryTokens, 1), 7_000))
  {}

  lemma QuotientIsMonotone(a: nat, b: nat, q: nat)
    requires a <= b && q > 0
    ensures a / q <= b / q
  {
    QuotientBelow(a, q, b / q + 1);
  }

  lemma QuotientBelow(a: nat, q: nat, bound: nat)
    requires q > 0
    ensures a < bound * q <==> a / q < bound
  {
    var d, r := a / q, a % q;
    assert a == d * q + r;
    if d < bound {
      assert (d + 1) * q <= bound * q;
    } else {
      assert bound * q <= d * q;
    }
  }

  /** Relevance is at least 1 whatever the counts, so no positive bid ever scores 0. */
  lemma RelevanceIsPositive(keywordTokens: nat, queryTokens: nat)
    ensures 1 <= BroadRelevance(keywordTokens, queryTokens) <= BROAD_WEIGHT_BP
  {}
}
