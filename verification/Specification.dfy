/** One auction, stated on the campaigns themselves: no index, no loops over counters
    (the rules of crates/admatch-core/src/engine.rs). */
module Specification {
  import opened Model
  import opened Normalization
  import opened Sorting
  import opened Scoring
  import opened Budgets
  import opened Auction
  import opened Matching
  import opened Privacy

  datatype EngineConfig = EngineConfig(kTargeting: I64, reserve: Micros, increment: Micros)

  datatype AuctionRequest = AuctionRequest(
    query: string,
    country: Country,
    personalized: bool,
    ageBucket: Option<AgeBucket>,
    debug: bool)

  datatype ExclusionReason = NegativeMatch | Targeting | BelowReserve | Budget

  datatype Eligibility = PausedOut | Excluded(reason: ExclusionReason) | Eligible

  datatype Winner = Winner(
    campaignId: CampaignId,
    keywordId: KeywordId,
    keywordText: string,
    matchType: MatchType,
    maxCptBid: Micros,
    price: Micros,
    relevance: RelevanceBp)

  datatype RankedEntry = RankedEntry(
    campaignId: CampaignId,
    keywordId: KeywordId,
    bid: Micros,
    relevance: RelevanceBp,
    score: nat,
    wouldPay: Option<Micros>,
    excluded: Option<ExclusionReason>)

  datatype AuctionOutcome = AuctionOutcome(
    winner: Option<Winner>,
    candidates: nat,
    budgetSkipped: nat,
    ranking: Option<seq<RankedEntry>>)

  /** The bucket is targeted by a personalised request and the audience is large enough. */
  predicate AgeAllowed(c: Campaign, req: AuctionRequest, k: I64) {
    match c.ageBuckets
    case None => true
    case Some(buckets) =>
      && req.personalized
      && (match req.ageBucket case None => false case Some(b) => b in buckets)
      && (match c.audienceSize case None => false case Some(size) => CheckTargeting(size, k).Success?)
  }

  /** One verdict per match; a match failing several filters is excluded for the earliest. */
  function Judge(c: Campaign, m: KeywordMatch, req: AuctionRequest, cfg: EngineConfig, negativeHit: bool): Eligibility {
    if c.status != Active then PausedOut
    else if req.country !in c.countries then Excluded(Targeting)
    else if !AgeAllowed(c, req, cfg.kTargeting) then Excluded(Targeting)
    else if negativeHit then Excluded(NegativeMatch)
    else if m.bid < cfg.reserve then Excluded(BelowReserve)
    else Eligible
  }

  predicate InRange(campaigns: seq<Campaign>, ms: seq<KeywordMatch>) {
    forall m :: m in ms ==> m.campaignPos < |campaigns|
  }

  function Verdict(u: Tables, campaigns: seq<Campaign>, cfg: EngineConfig, req: AuctionRequest, q: set<string>,
                   m: KeywordMatch): Eligibility
    requires m.campaignPos < |campaigns|
  {
    Judge(campaigns[m.campaignPos], m, req, cfg, Blocked(u, campaigns[m.campaignPos], q))
  }

  function Eligibles(u: Tables, campaigns: seq<Campaign>, cfg: EngineConfig, req: AuctionRequest, q: set<string>,
                     ms: seq<KeywordMatch>): seq<KeywordMatch>
    requires InRange(campaigns, ms)
  {
    if ms == [] then []
    else
      var m := ms[|ms| - 1];
      Eligibles(u, campaigns, cfg, req, q, ms[..|ms| - 1])
        + if Verdict(u, campaigns, cfg, req, q, m) == Eligible then [m] else []
  }

  function Exclusions(u: Tables, campaigns: seq<Campaign>, cfg: EngineConfig, req: AuctionRequest, q: set<string>,
                      ms: seq<KeywordMatch>): seq<(KeywordMatch, ExclusionReason)>
    requires InRange(campaigns, ms)
  {
    if ms == [] then []
    else
      var m := ms[|ms| - 1];
      Exclusions(u, campaigns, cfg, req, q, ms[..|ms| - 1])
        + match Verdict(u, campaigns, cfg, req, q, m) case Excluded(reason) => [(m, reason)] case _ => []
  }

  lemma JudgingOneMore(u: Tables, campaigns: seq<Campaign>, cfg: EngineConfig, req: AuctionRequest, q: set<string>,
                       ms: seq<KeywordMatch>, m: KeywordMatch)
    requires InRange(campaigns, ms) && m.campaignPos < |campaigns|
    ensures Eligibles(u, campaigns, cfg, req, q, ms + [m]) == Eligibles(u, campaigns, cfg, req, q, ms)
      + if Verdict(u, campaigns, cfg, req, q, m) == Eligible then [m] else []
    ensures Exclusions(u, campaigns, cfg, req, q, ms + [m]) == Exclusions(u, campaigns, cfg, req, q, ms)
      + match Verdict(u, campaigns, cfg, req, q, m) case Excluded(reason) => [(m, reason)] case _ => []
  {}

  predicate MatchRanksNoLater(a: KeywordMatch, b: KeywordMatch) { RanksNoLater(a.Bidder(), b.Bidder()) }

  predicate MatchRanksBefore(a: KeywordMatch, b: KeywordMatch) { RanksBefore(a.Bidder(), b.Bidder()) }

  predicate ExclusionRanksNoLater(a: (KeywordMatch, ExclusionReason), b: (KeywordMatch, ExclusionReason)) {
    RanksNoLater(a.0.Bidder(), b.0.Bidder())
  }

  predicate ExclusionRanksBefore(a: (KeywordMatch, ExclusionReason), b: (KeywordMatch, ExclusionReason)) {
    RanksBefore(a.0.Bidder(), b.0.Bidder())
  }

  function Bidders(ms: seq<KeywordMatch>): seq<Bidder> {
    seq(|ms|, i requires 0 <= i < |ms| => ms[i].Bidder())
  }

  /** `get`. */
  function Get<T>(s: seq<T>, i: nat): Option<T> {
    if i < |s| then Some(s[i]) else None
  }

  function AccountOf(campaigns: seq<Campaign>, m: KeywordMatch): Option<Account> {
    match Get(campaigns, m.campaignPos)
    case None => None
    case Some(c) => Some(Account(c.id, c.dailyBudget))
  }

  function Accounts(campaigns: seq<Campaign>, ms: seq<KeywordMatch>): seq<Option<Account>> {
    seq(|ms|, i requires 0 <= i < |ms| => AccountOf(campaigns, ms[i]))
  }

  function FindKeyword(keywords: seq<Keyword>, id: KeywordId): Option<Keyword> {
    if keywords == [] then None
    else if keywords[0].id == id then Some(keywords[0])
    else FindKeyword(keywords[1..], id)
  }

  /** The winner's ad, assembled by look-ups any of which could come back empty. */
  function AssembleWinner(campaigns: seq<Campaign>, ranked: seq<KeywordMatch>, prices: seq<Micros>, i: nat): Option<Winner> {
    match (Get(ranked, i), Get(prices, i))
    case (Some(m), Some(price)) => (
      match Get(campaigns, m.campaignPos)
      case None => None
      case Some(c) => (
        match FindKeyword(c.keywords, m.keywordId)
        case None => None
        case Some(k) => Some(Winner(m.campaignId, m.keywordId, k.text, m.matchType, m.bid, price, m.relevance))))
    case _ => None
  }

  const DEBUG_RANKING_LIMIT: nat := 10

  function EntryOf(m: KeywordMatch, wouldPay: Option<Micros>, reason: Option<ExclusionReason>): RankedEntry {
    RankedEntry(m.campaignId, m.keywordId, m.bid, m.relevance, m.Score(), wouldPay, reason)
  }

  function CandidateRow(ranked: seq<KeywordMatch>, prices: seq<Micros>, skipped: nat, i: nat): RankedEntry
    requires i < |ranked|
  {
    EntryOf(ranked[i], Get(prices, i), if i < skipped then Some(Budget) else None)
  }

  function ExclusionRow(x: (KeywordMatch, ExclusionReason)): RankedEntry {
    EntryOf(x.0, None, Some(x.1))
  }

  function CandidateRows(ranked: seq<KeywordMatch>, prices: seq<Micros>, skipped: nat): seq<RankedEntry> {
    seq(|ranked|, i requires 0 <= i < |ranked| => CandidateRow(ranked, prices, skipped, i))
  }

  function ExclusionRows(excluded: seq<(KeywordMatch, ExclusionReason)>): seq<RankedEntry> {
    seq(|excluded|, i requires 0 <= i < |excluded| => ExclusionRow(excluded[i]))
  }

  /** Candidates in rank order, then the excluded in rank order, cut to ten rows. */
  function DebugRanking(ranked: seq<KeywordMatch>, prices: seq<Micros>, skipped: nat,
                        excluded: seq<(KeywordMatch, ExclusionReason)>): seq<RankedEntry> {
    var rows := CandidateRows(ranked, prices, skipped) + ExclusionRows(Sort(excluded, ExclusionRanksNoLater));
    rows[..Min(|rows|, DEBUG_RANKING_LIMIT)]
  }

  // ---------- the auction ----------

  /** The campaigns with a matching keyword, before any filter. */
  function Found(u: Tables, campaigns: seq<Campaign>, q: set<string>): (ms: seq<KeywordMatch>)
    ensures InRange(campaigns, ms)
  {
    ReferenceMatchIsUnblockedBest(u, campaigns, q, |campaigns|);
    ReferenceBest(u, campaigns, q, |campaigns|)
  }

  /** The candidates, best first. */
  function Ranked(u: Tables, campaigns: seq<Campaign>, cfg: EngineConfig, req: AuctionRequest): seq<KeywordMatch> {
    var q := TokenSet(u, req.query);
    Sort(Eligibles(u, campaigns, cfg, req, q, Found(u, campaigns, q)), MatchRanksNoLater)
  }

  function RankedPrices(u: Tables, campaigns: seq<Campaign>, cfg: EngineConfig, req: AuctionRequest): seq<Micros> {
    Prices(Bidders(Ranked(u, campaigns, cfg, req)), cfg.reserve, cfg.increment)
  }

  /** Who would be charged what, in rank order. */
  function RankedOffers(u: Tables, campaigns: seq<Campaign>, cfg: EngineConfig, req: AuctionRequest): seq<Offer> {
    Offers(Accounts(campaigns, Ranked(u, campaigns, cfg, req)), RankedPrices(u, campaigns, cfg, req))
  }

  /** The outcome when position `w` is the one that pays. */
  function OutcomeFor(u: Tables, campaigns: seq<Campaign>, cfg: EngineConfig, req: AuctionRequest, w: Option<nat>): AuctionOutcome {
    var ranked, prices := Ranked(u, campaigns, cfg, req), RankedPrices(u, campaigns, cfg, req);
    var skipped := match w case Some(i) => i case None => |ranked|;
    var q := TokenSet(u, req.query);
    AuctionOutcome(
      match w case Some(i) => AssembleWinner(campaigns, ranked, prices, i) case None => None,
      |ranked|,
      skipped,
      if req.debug
      then Some(DebugRanking(ranked, prices, skipped, Exclusions(u, campaigns, cfg, req, q, Found(u, campaigns, q))))
      else None)
  }

  /** What an accepted query gets against the counters `m`. */
  function Outcome(u: Tables, campaigns: seq<Campaign>, cfg: EngineConfig, req: AuctionRequest,
                   day: Day, m: Counters): AuctionOutcome {
    OutcomeFor(u, campaigns, cfg, req, FirstPayer(RankedOffers(u, campaigns, cfg, req), day, m, 0))
  }

  /** The declarative auction against the counters `m`. */
  function ReferenceAuction(u: Tables, campaigns: seq<Campaign>, cfg: EngineConfig, req: AuctionRequest,
                            day: Day, m: Counters): Result<AuctionOutcome, QueryError> {
    match Normalize(u, req.query)
    case Failure(e) => Failure(e)
    case Success(_) => Success(Outcome(u, campaigns, cfg, req, day, m))
  }

  /** What an auction does to the counters: exactly the first offer that can be paid is charged,
      and a counter exists for every offer tried. */
  ghost predicate Settlement(u: Tables, campaigns: seq<Campaign>, cfg: EngineConfig, req: AuctionRequest,
                             day: Day, before: Counters, after: Counters) {
    var offers := RankedOffers(u, campaigns, cfg, req);
    var winner := FirstPayer(offers, day, before, 0);
    && (winner.Some? ==> winner.value < |offers|)
    && after.Keys == before.Keys + TriedUntil(offers, day, winner)
    && match winner
       case Some(w) => Charged(before, after, day, offers[w])
       case None => SameSpend(before, after)
  }
}
