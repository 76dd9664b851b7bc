/** The entities everything else speaks of (crates/admatch-core/src/model.rs). */
module Model {

  datatype Option<+T> = None | Some(value: T)

  datatype Result<+T, +E> = Success(value: T) | Failure(error: E)

  // Machine integers are ranges of the mathematical integers: every operation that
  // could leave its range is written out where it happens.
  const I64_MAX: int := 0x7FFF_FFFF_FFFF_FFFF
  const U32_MAX: int := 0xFFFF_FFFF
  const U64_MAX: int := 0xFFFF_FFFF_FFFF_FFFF
  const U128_MAX: int := 0xFFFF_FFFF_FFFF_FFFF_FFFF_FFFF_FFFF_FFFF

  type I64 = x: int | -I64_MAX - 1 <= x <= I64_MAX
  type U32 = x: int | 0 <= x <= U32_MAX

  type CampaignId = I64
  type KeywordId = I64
  type Micros = I64
  type RelevanceBp = U32

  /** A `u32` in the index; the interner keeps it in range. */
  type TokenId = nat

  /** Days are counted from the earliest date the calendar can represent. */
  type Day = nat

  datatype MatchType = Exact | Broad

  datatype CampaignStatus = Active | Paused

  datatype Country = IN | US | GB | AU | SG | AE | CA | DE | JP | NZ

  datatype AgeBucket = Age18To24 | Age25To34 | Age35To44 | Age45To54 | Age55To64 | Age65Plus

  datatype Keyword = Keyword(id: KeywordId, text: string, matchType: MatchType, maxCptBid: Micros)

  datatype NegativeKeyword = NegativeKeyword(text: string, matchType: MatchType)

  datatype Campaign = Campaign(
    id: CampaignId,
    advertiserId: I64,
    name: string,
    status: CampaignStatus,
    dailyBudget: Micros,
    countries: seq<Country>,
    ageBuckets: Option<seq<AgeBucket>>,
    audienceSize: Option<I64>,
    keywords: seq<Keyword>,
    negativeKeywords: seq<NegativeKeyword>)

  function Min(a: int, b: int): int {
    if a <= b then a else b
  }

  function Max(a: int, b: int): int {
    if a >= b then a else b
  }

  /** Three-way comparison, as `Ord::cmp`. */
  datatype Ordering = Less | Equal | Greater {
    function ThenWith(other: Ordering): Ordering {
      if this == Equal then other else this
    }
  }

  function Compare(a: int, b: int): Ordering {
    if a < b then Less else if a == b then Equal else Greater
  }
}
