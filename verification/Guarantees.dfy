/** What the auction of `Specification`, and so `Engine.Snapshot.Run`, promises. */
module Guarantees {
  import opened Model
  import opened Normalization
  import opened Sorting
  import opened Scoring
  import opened Budgets
  import opened Auction
  import opened Matching
  import opened Privacy
  import opened Specification
  import opened Vocabulary

  // ---------- who takes part ----------

  lemma {:induction false} EligiblesIff(u: Tables, campaigns: seq<Campaign>, cfg: EngineConfig, req: AuctionRequest,
                                        q: set<string>, ms: seq<KeywordMatch>)
    requires InRange(campaigns, ms)
    ensures forall m :: m in Eligibles(u, campaigns, cfg, req, q, ms) <==>
      m in ms && Verdict(u, campaigns, cfg, req, q, m) == Eligible
  {
    if ms != [] {
      assert ms == ms[..|ms| - 1] + [ms[|ms| - 1]];
      EligiblesIff(u, campaigns, cfg, req, q, ms[..|ms| - 1]);
    }
  }

  lemma {:induction false} ExclusionsIff(u: Tables, campaigns: seq<Campaign>, cfg: EngineConfig, req: AuctionRequest,
                                         q: set<string>, ms: seq<KeywordMatch>)
    requires InRange(campaigns, ms)
    ensures forall x :: x in Exclusions(u, campaigns, cfg, req, q, ms) <==>
      x.0 in ms && Verdict(u, campaigns, cfg, req, q, x.0) == Excluded(x.1)
  {
    if ms != [] {
      assert ms == ms[..|ms| - 1] + [ms[|ms| - 1]];
      ExclusionsIff(u, campaigns, cfg, req, q, ms[..|ms| - 1]);
    }
  }

  ghost predicate ByPosition(xs: seq<(KeywordMatch, ExclusionReason)>) {
    forall i, j :: 0 <= i < j < |xs| ==> xs[i].0.campaignPos < xs[j].0.campaignPos
  }

  /** In a list by position the last comes after all the others. */
  lemma LastComesLast(ms: seq<KeywordMatch>, x: KeywordMatch)
    requires StrictlySorted(ms, PositionBefore) && ms != [] && x in ms[..|ms| - 1]
    ensures StrictlySorted(ms[..|ms| - 1], PositionBefore)
    ensures x in ms && PositionBefore(x, ms[|ms| - 1])
  {}

  lemma {:induction false} EligiblesInOrder(u: Tables, campaigns: seq<Campaign>, cfg: EngineConfig, req: AuctionRequest,
                                            q: set<string>, ms: seq<KeywordMatch>)
    requires InRange(campaigns, ms) && StrictlySorted(ms, PositionBefore)
    ensures StrictlySorted(Eligibles(u, campaigns, cfg, req, q, ms), PositionBefore)
  {
    if ms != [] {
      var rest := ms[..|ms| - 1];
      EligiblesInOrder(u, campaigns, cfg, req, q, rest);
      EligiblesIff(u, campaigns, cfg, req, q, rest);
      var before, m := Eligibles(u, campaigns, cfg, req, q, rest), ms[|ms| - 1];
      forall x | x in before ensures x.campaignPos < m.campaignPos {
        LastComesLast(ms, x);
      }
      EntryComesLast(before, if Verdict(u, campaigns, cfg, req, q, m) == Eligible then [m] else [], m.campaignPos);
    }
  }

  lemma {:induction false} ExclusionsInOrder(u: Tables, campaigns: seq<Campaign>, cfg: EngineConfig, req: AuctionRequest,
                                             q: set<string>, ms: seq<KeywordMatch>)
    requires InRange(campaigns, ms) && StrictlySorted(ms, PositionBefore)
    ensures ByPosition(Exclusions(u, campaigns, cfg, req, q, ms))
  {
    if ms != [] {
      var rest := ms[..|ms| - 1];
      ExclusionsInOrder(u, campaigns, cfg, req, q, rest);
      ExclusionsIff(u, campaigns, cfg, req, q, rest);
      forall x | x in Exclusions(u, campaigns, cfg, req, q, rest) ensures PositionBefore(x.0, ms[|ms| - 1]) {
        LastComesLast(ms, x.0);
      }
    }
  }

  /** Whom a campaign may be shown to by age: everybody if it targets no ages, otherwise consenting
      users in a targeted bucket, if the targeting is known to hold more than `k` people. */
  predicate ReachesUser(c: Campaign, req: AuctionRequest, k: I64) {
    c.ageBuckets.Some? ==>
      && req.personalized && req.ageBucket.Some? && req.ageBucket.value in c.ageBuckets.value
      && c.audienceSize.Some? && c.audienceSize.value > k
  }

  /** The filters, all of them passed. */
  predicate MayServe(u: Tables, c: Campaign, cfg: EngineConfig, req: AuctionRequest, m: KeywordMatch) {
    && c.status == Active
    && req.country in c.countries
    && ReachesUser(c, req, cfg.kTargeting)
    && !Blocked(u, c, TokenSet(u, req.query))
    && cfg.reserve <= m.bid
  }

  /** `m` is the best matching keyword of some campaign. */
  ghost predicate BestOfCampaign(u: Tables, campaigns: seq<Campaign>, req: AuctionRequest, m: KeywordMatch) {
    && m.campaignPos < |campaigns|
    && IsBest(u, m.campaignPos, campaigns[m.campaignPos], TokenSet(u, req.query), m)
  }

  lemma BestNamesItsCampaign(u: Tables, campaigns: seq<Campaign>, req: AuctionRequest, m: KeywordMatch)
    requires BestOfCampaign(u, campaigns, req, m)
    ensures m.campaignId == campaigns[m.campaignPos].id && m.relevance >= 1
  {}

  lemma FoundIsBest(u: Tables, campaigns: seq<Campaign>, req: AuctionRequest)
    requires UniqueIds(campaigns)
    ensures forall m :: m in Found(u, campaigns, TokenSet(u, req.query)) <==> BestOfCampaign(u, campaigns, req, m)
    ensures StrictlySorted(Found(u, campaigns, TokenSet(u, req.query)), PositionBefore)
  {
    ReferenceBestIff(u, campaigns, TokenSet(u, req.query), |campaigns|);
  }

  /** The keyword standing for a campaign scores highest among its matching ones; at equal scores
      it bids highest, and at equal bids it has the smallest id. */
  lemma BestOutbidsAll(u: Tables, campaigns: seq<Campaign>, req: AuctionRequest, m: KeywordMatch, k: Keyword)
    requires BestOfCampaign(u, campaigns, req, m)
    requires k in campaigns[m.campaignPos].keywords && Hits(u, k, TokenSet(u, req.query))
    ensures var relevance := if k.matchType == Exact then 10_000
                             else BroadRelevance(|TokenSet(u, k.text)|, |TokenSet(u, req.query)|);
            var score := Score(k.maxCptBid, relevance);
            && score <= m.Score()
            && (score == m.Score() ==> k.maxCptBid <= m.bid)
            && (score == m.Score() && k.maxCptBid == m.bid ==> m.keywordId <= k.id)
  {
    BestMeansTops(u, m.campaignPos, campaigns[m.campaignPos], TokenSet(u, req.query), m);
  }

  lemma BestMatchesDoNotTie(u: Tables, campaigns: seq<Campaign>, req: AuctionRequest, ms: seq<KeywordMatch>)
    requires UniqueIds(campaigns) && StrictlySorted(ms, PositionBefore)
    requires forall m :: m in ms ==> BestOfCampaign(u, campaigns, req, m)
    ensures NoTies(ms, MatchRanksNoLater)
  {
    forall i, j | 0 <= i < j < |ms|
      ensures !(MatchRanksNoLater(ms[i], ms[j]) && MatchRanksNoLater(ms[j], ms[i]))
    {
      assert PositionBefore(ms[i], ms[j]) && ms[i] in ms && ms[j] in ms;
      DifferentPlacesDoNotTie(u, campaigns, req, ms[i], ms[j]);
    }
  }

  /** Every match of an accepted query is exact at 10000, or broad between 437 and 7000 with
      relevance proportional to coverage. */
  lemma MatchRelevance(u: Tables, campaigns: seq<Campaign>, req: AuctionRequest, m: KeywordMatch)
    requires BestOfCampaign(u, campaigns, req, m) && Normalize(u, req.query).Success?
    ensures m.matchType.Exact? ==> m.relevance == EXACT_RELEVANCE_BP
    ensures m.matchType.Broad? ==> 437 <= m.relevance <= BROAD_WEIGHT_BP < EXACT_RELEVANCE_BP
    ensures m.matchType.Broad? ==>
      exists k :: k in campaigns[m.campaignPos].keywords && k.id == m.keywordId
        && m.relevance == 7_000 * |TokenSet(u, k.text)| / |TokenSet(u, req.query)|
  {
    var c, q := campaigns[m.campaignPos], TokenSet(u, req.query);
    AcceptedQueryIsSmall(u, req.query);
    var k :| FromKeyword(u, m.campaignPos, c, q, m, k);
    if k.matchType.Broad? {
      SubsetIsSmaller(TokenSet(u, k.text), q);
      BroadRelevanceOfAcceptedQuery(|TokenSet(u, k.text)|, |q|, 0);
    }
  }

  lemma EligibleMeansMayServe(u: Tables, campaigns: seq<Campaign>, cfg: EngineConfig, req: AuctionRequest, m: KeywordMatch)
    requires m.campaignPos < |campaigns|
    ensures Verdict(u, campaigns, cfg, req, TokenSet(u, req.query), m) == Eligible
            <==> MayServe(u, campaigns[m.campaignPos], cfg, req, m)
  {}

  /** The candidates are exactly the campaigns with a matching keyword that pass every filter,
      the reserve tested on the best matching keyword only. */
  lemma CandidatesAreExactly(u: Tables, campaigns: seq<Campaign>, cfg: EngineConfig, req: AuctionRequest)
    requires UniqueIds(campaigns)
    ensures forall m :: m in Ranked(u, campaigns, cfg, req) <==>
      (BestOfCampaign(u, campaigns, req, m) && MayServe(u, campaigns[m.campaignPos], cfg, req, m))
    ensures StrictlySorted(Ranked(u, campaigns, cfg, req), MatchRanksBefore)
  {
    var q := TokenSet(u, req.query);
    var found := Found(u, campaigns, q);
    var eligible := Eligibles(u, campaigns, cfg, req, q, found);
    FoundIsBest(u, campaigns, req);
    EligiblesIff(u, campaigns, cfg, req, q, found);
    EligiblesInOrder(u, campaigns, cfg, req, q, found);
    BestMatchesDoNotTie(u, campaigns, req, eligible);
    MatchRankIsTotal();
    SortWithoutTies(eligible, MatchRanksNoLater, MatchRanksBefore);
    forall m: KeywordMatch | m in found
      ensures Verdict(u, campaigns, cfg, req, q, m) == Eligible <==> MayServe(u, campaigns[m.campaignPos], cfg, req, m)
    {
      EligibleMeansMayServe(u, campaigns, cfg, req, m);
    }
  }

  lemma MatchRankIsTotal()
    ensures TotalPreorder(MatchRanksNoLater) && Asymmetric(MatchRanksBefore)
    ensures forall a, b :: MatchRanksNoLater(a, b) && !MatchRanksNoLater(b, a) ==> MatchRanksBefore(a, b)
    ensures TotalPreorder(ExclusionRanksNoLater) && Asymmetric(ExclusionRanksBefore)
    ensures forall a, b :: ExclusionRanksNoLater(a, b) && !ExclusionRanksNoLater(b, a) ==> ExclusionRanksBefore(a, b)
  {}

  lemma DifferentPlacesDoNotTie(u: Tables, campaigns: seq<Campaign>, req: AuctionRequest, a: KeywordMatch, b: KeywordMatch)
    requires UniqueIds(campaigns) && a.campaignPos != b.campaignPos
    requires BestOfCampaign(u, campaigns, req, a) && BestOfCampaign(u, campaigns, req, b)
    ensures a.campaignId != b.campaignId
    ensures !(MatchRanksNoLater(a, b) && MatchRanksNoLater(b, a))
  {}

  /** The excluded in rank order. */
  function RankedExclusions(u: Tables, campaigns: seq<Campaign>, cfg: EngineConfig, req: AuctionRequest)
      : seq<(KeywordMatch, ExclusionReason)> {
    var q := TokenSet(u, req.query);
    Sort(Exclusions(u, campaigns, cfg, req, q, Found(u, campaigns, q)), ExclusionRanksNoLater)
  }

  /** The reason names the first filter failed, in the order country and age, negatives, reserve. */
  predicate FailsFirst(u: Tables, c: Campaign, cfg: EngineConfig, req: AuctionRequest, m: KeywordMatch,
                       reason: ExclusionReason) {
    var targeted := req.country in c.countries && ReachesUser(c, req, cfg.kTargeting);
    var blocked := Blocked(u, c, TokenSet(u, req.query));
    match reason
    case Targeting => !targeted
    case NegativeMatch => targeted && blocked
    case BelowReserve => targeted && !blocked && m.bid < cfg.reserve
    case Budget => false
  }

  lemma VerdictIsFirstFailure(u: Tables, campaigns: seq<Campaign>, cfg: EngineConfig, req: AuctionRequest,
                              m: KeywordMatch, reason: ExclusionReason)
    requires m.campaignPos < |campaigns|
    ensures var c := campaigns[m.campaignPos];
            Verdict(u, campaigns, cfg, req, TokenSet(u, req.query), m) == Excluded(reason)
            <==> c.status == Active && FailsFirst(u, c, cfg, req, m, reason)
  {}

  ghost predicate IsExcluded(u: Tables, campaigns: seq<Campaign>, cfg: EngineConfig, req: AuctionRequest,
                             x: (KeywordMatch, ExclusionReason)) {
    && BestOfCampaign(u, campaigns, req, x.0)
    && campaigns[x.0.campaignPos].status == Active
    && FailsFirst(u, campaigns[x.0.campaignPos], cfg, req, x.0, x.1)
  }

  /** The excluded are exactly the matched, active campaigns that fail a filter, each with the
      first filter it fails. */
  lemma ExcludedAreExactly(u: Tables, campaigns: seq<Campaign>, cfg: EngineConfig, req: AuctionRequest)
    requires UniqueIds(campaigns)
    ensures StrictlySorted(RankedExclusions(u, campaigns, cfg, req), ExclusionRanksBefore)
    ensures forall x :: x in RankedExclusions(u, campaigns, cfg, req) <==> IsExcluded(u, campaigns, cfg, req, x)
  {
    var q := TokenSet(u, req.query);
    var found := Found(u, campaigns, q);
    var excluded := Exclusions(u, campaigns, cfg, req, q, found);
    FoundIsBest(u, campaigns, req);
    ExclusionsIff(u, campaigns, cfg, req, q, found);
    ExclusionsInOrder(u, campaigns, cfg, req, q, found);
    forall x ensures x in excluded <==> IsExcluded(u, campaigns, cfg, req, x) {
      if x.0 in found { VerdictIsFirstFailure(u, campaigns, cfg, req, x.0, x.1); }
    }
    ExclusionsDoNotTie(u, campaigns, cfg, req, excluded);
    MatchRankIsTotal();
    SortWithoutTies(excluded, ExclusionRanksNoLater, ExclusionRanksBefore);
  }

  lemma ExclusionsDoNotTie(u: Tables, campaigns: seq<Campaign>, cfg: EngineConfig, req: AuctionRequest,
                           excluded: seq<(KeywordMatch, ExclusionReason)>)
    requires UniqueIds(campaigns) && ByPosition(excluded)
    requires forall x :: x in excluded ==> IsExcluded(u, campaigns, cfg, req, x)
    ensures NoTies(excluded, ExclusionRanksNoLater)
  {
    forall i, j | 0 <= i < j < |excluded|
      ensures !(ExclusionRanksNoLater(excluded[i], excluded[j]) && ExclusionRanksNoLater(excluded[j], excluded[i]))
    {
      assert excluded[i] in excluded && excluded[j] in excluded;
      DifferentPlacesDoNotTie(u, campaigns, req, excluded[i].0, excluded[j].0);
    }
  }

  // ---------- who wins, and what it pays ----------

  lemma {:induction false} FindKeywordFinds(keywords: seq<Keyword>, k: Keyword)
    requires k in keywords
    requires forall i, j :: 0 <= i < j < |keywords| ==> keywords[i].id != keywords[j].id
    ensures FindKeyword(keywords, k.id) == Some(k)
  {
    if keywords[0] != k {
      assert k in keywords[1..];
      var i :| 0 <= i < |keywords[1..]| && keywords[1..][i] == k;
      assert keywords[i + 1] == k;
      FindKeywordFinds(keywords[1..], k);
    }
  }

  /** The ad is that of the match: its campaign, and the text, type and bid of its keyword. */
  ghost predicate AdOf(campaigns: seq<Campaign>, m: KeywordMatch, w: Winner) {
    && w.campaignId == m.campaignId && w.keywordId == m.keywordId && w.relevance == m.relevance && w.maxCptBid == m.bid
    && m.campaignPos < |campaigns|
    && exists k :: k in campaigns[m.campaignPos].keywords && k.id == m.keywordId
         && w.keywordText == k.text && w.matchType == k.matchType && w.maxCptBid == k.maxCptBid
  }

  /** Every look-up made for a candidate succeeds: its account, its price and its keyword. */
  lemma LookupsSucceed(u: Tables, campaigns: seq<Campaign>, cfg: EngineConfig, req: AuctionRequest, i: nat)
    requires UniqueIds(campaigns) && i < |Ranked(u, campaigns, cfg, req)|
    ensures var ranked, prices := Ranked(u, campaigns, cfg, req), RankedPrices(u, campaigns, cfg, req);
            var m := ranked[i];
            && m.campaignPos < |campaigns| && m.campaignId == campaigns[m.campaignPos].id
            && RankedOffers(u, campaigns, cfg, req)[i]
                 == Offer(m.campaignId, prices[i], campaigns[m.campaignPos].dailyBudget)
            && match AssembleWinner(campaigns, ranked, prices, i)
               case None => false
               case Some(w) => AdOf(campaigns, m, w) && w.price == prices[i]
  {
    CandidatesAreExactly(u, campaigns, cfg, req);
    var m := Ranked(u, campaigns, cfg, req)[i];
    assert m in Ranked(u, campaigns, cfg, req);
    var c := campaigns[m.campaignPos];
    var k :| FromKeyword(u, m.campaignPos, c, TokenSet(u, req.query), m, k);
    assert DistinctKeywords(c);
    FindKeywordFinds(c.keywords, k);
  }

  /** Nobody is charged without an ad and no ad is shown uncharged: an ad is shown iff some
      candidate can pay; it is the ad of the first candidate in rank order that can, at a
      positive price that fits its remaining budget, the same the walk charges. */
  lemma WinnerIsFirstWhoCanPay(u: Tables, campaigns: seq<Campaign>, cfg: EngineConfig, req: AuctionRequest,
                               day: Day, m: Counters)
    requires UniqueIds(campaigns)
    ensures var r := Outcome(u, campaigns, cfg, req, day, m);
            var ranked, prices := Ranked(u, campaigns, cfg, req), RankedPrices(u, campaigns, cfg, req);
            var offers := RankedOffers(u, campaigns, cfg, req);
            && r.candidates == |ranked|
            && (forall j :: 0 <= j < r.budgetSkipped ==> j < |offers| && !CanPay(m, day, offers[j]))
            && (FirstPayer(offers, day, m, 0).Some? <==> r.winner.Some?)
            && match r.winner
               case None => r.budgetSkipped == |ranked|
               case Some(w) =>
                 && FirstPayer(offers, day, m, 0) == Some(r.budgetSkipped) && r.budgetSkipped < |ranked|
                 && CanPay(m, day, offers[r.budgetSkipped])
                 && w.campaignId == offers[r.budgetSkipped].campaign
                 && w.price == prices[r.budgetSkipped] == offers[r.budgetSkipped].price
                 && w.price > 0
                 && AdOf(campaigns, ranked[r.budgetSkipped], w)
  {
    var offers := RankedOffers(u, campaigns, cfg, req);
    FirstPayerIsFirst(offers, day, m, 0);
    match FirstPayer(offers, day, m, 0) {
      case Some(i) => LookupsSucceed(u, campaigns, cfg, req, i);
      case None =>
    }
  }

  /** Money goes with the ad: the auction adds exactly the price of the ad shown to its campaign's
      counter for the day, and nothing to any other; if no ad is shown nothing changes. */
  lemma MoneyFollowsTheAd(u: Tables, campaigns: seq<Campaign>, cfg: EngineConfig, req: AuctionRequest,
                          day: Day, before: Counters, after: Counters, k: Key)
    requires UniqueIds(campaigns) && Settlement(u, campaigns, cfg, req, day, before, after)
    ensures var r := Outcome(u, campaigns, cfg, req, day, before);
            SpentOn(after, k) - SpentOn(before, k) ==
            if r.winner.Some? && k == Key(r.winner.value.campaignId, day) then r.winner.value.price else 0
  {
    WinnerIsFirstWhoCanPay(u, campaigns, cfg, req, day, before);
  }

  /** With a positive reserve every offer is positive, so the budget store never sees an amount
      it calls invalid. */
  lemma OffersArePositive(u: Tables, campaigns: seq<Campaign>, cfg: EngineConfig, req: AuctionRequest, i: nat)
    requires UniqueIds(campaigns) && cfg.reserve > 0 && i < |Ranked(u, campaigns, cfg, req)|
    ensures RankedOffers(u, campaigns, cfg, req)[i].price >= cfg.reserve
  {
    CandidatesAreExactly(u, campaigns, cfg, req);
    LookupsSucceed(u, campaigns, cfg, req, i);
    var ranked := Ranked(u, campaigns, cfg, req);
    assert ranked[i] in ranked;
    var b := Bidders(ranked);
    PriceWithinBounds(b[i], if i + 1 < |b| then Some(b[i + 1]) else None, cfg.reserve, cfg.increment);
  }

  /** What the engine hands to the auction is a proper contest. */
  lemma RankedIsContest(u: Tables, campaigns: seq<Campaign>, cfg: EngineConfig, req: AuctionRequest)
    requires UniqueIds(campaigns)
    ensures Contest(Bidders(Ranked(u, campaigns, cfg, req)), cfg.reserve)
  {
    CandidatesAreExactly(u, campaigns, cfg, req);
    var ranked := Ranked(u, campaigns, cfg, req);
    var b := Bidders(ranked);
    forall i | 0 <= i < |b| ensures b[i].relevance >= 1 && cfg.reserve <= b[i].bid {
      assert ranked[i] in ranked;
      BestNamesItsCampaign(u, campaigns, req, ranked[i]);
    }
    forall i, j | 0 <= i < j < |b| ensures RanksNoLater(b[i], b[j]) {
      assert MatchRanksBefore(ranked[i], ranked[j]);
    }
  }

  /** The ad shown pays at least the reserve, at most its bid, and enough to cover the score of
      every candidate ranked below it. */
  lemma WinnerPaysAFairPrice(u: Tables, campaigns: seq<Campaign>, cfg: EngineConfig, req: AuctionRequest,
                             day: Day, m: Counters, j: nat)
    requires UniqueIds(campaigns)
    requires cfg.reserve > 0 && cfg.increment >= 0
    ensures var r := Outcome(u, campaigns, cfg, req, day, m);
            r.winner.Some? ==>
              && cfg.reserve <= r.winner.value.price <= r.winner.value.maxCptBid
              && (r.budgetSkipped < j < |Ranked(u, campaigns, cfg, req)| ==>
                   r.winner.value.price * r.winner.value.relevance >= Ranked(u, campaigns, cfg, req)[j].Score())
  {
    WinnerIsFirstWhoCanPay(u, campaigns, cfg, req, day, m);
    RankedIsContest(u, campaigns, cfg, req);
    var r := Outcome(u, campaigns, cfg, req, day, m);
    if r.winner.None? { return; }
    var i := r.budgetSkipped;
    var bidders := Bidders(Ranked(u, campaigns, cfg, req));
    LookupsSucceed(u, campaigns, cfg, req, i);
    PriceChainStep(bidders, cfg.reserve, cfg.increment, i);
    if i < j < |bidders| {
      PriceChain(bidders, cfg.reserve, cfg.increment, i, j);
    }
  }

  // ---------- the debug ranking ----------

  /** Asking for the ranking changes nothing else: not the ad, the counts or who is charged. */
  lemma DebugOnlyAddsRanking(u: Tables, campaigns: seq<Campaign>, cfg: EngineConfig, req: AuctionRequest,
                             day: Day, m: Counters, debug: bool)
    ensures RankedOffers(u, campaigns, cfg, req.(debug := debug)) == RankedOffers(u, campaigns, cfg, req)
    ensures var r, s := ReferenceAuction(u, campaigns, cfg, req, day, m),
                        ReferenceAuction(u, campaigns, cfg, req.(debug := debug), day, m);
            if r.Failure? then s == r
            else s.Success? && s.value == r.value.(ranking := s.value.ranking) && (s.value.ranking.Some? <==> debug)
  {
    DebugDoesNotFilter(u, campaigns, cfg, req, TokenSet(u, req.query), Found(u, campaigns, TokenSet(u, req.query)), debug);
  }

  lemma {:induction false} DebugDoesNotFilter(u: Tables, campaigns: seq<Campaign>, cfg: EngineConfig, req: AuctionRequest,
                                              q: set<string>, ms: seq<KeywordMatch>, debug: bool)
    requires InRange(campaigns, ms)
    ensures Eligibles(u, campaigns, cfg, req.(debug := debug), q, ms) == Eligibles(u, campaigns, cfg, req, q, ms)
  {
    if ms != [] {
      DebugDoesNotFilter(u, campaigns, cfg, req, q, ms[..|ms| - 1], debug);
    }
  }

  /** The row shows this match, with bid times relevance as its score. */
  predicate Shows(row: RankedEntry, m: KeywordMatch) {
    && row.campaignId == m.campaignId && row.keywordId == m.keywordId
    && row.bid == m.bid && row.relevance == m.relevance
    && row.score == Max(m.bid, 0) * m.relevance
  }

  /** At most ten rows. Row `i` shows the `i`-th candidate, what it would pay, and whether it was
      skipped; after the candidates come the exclusions with their reasons. */
  ghost predicate LaidOut(r: AuctionOutcome, ranked: seq<KeywordMatch>, offers: seq<Offer>,
                          out: seq<(KeywordMatch, ExclusionReason)>, i: nat) {
    match r.ranking
    case None => false
    case Some(rows) =>
      && |rows| == Min(|ranked| + |out|, 10) && |offers| == |ranked|
      && (i < |rows| ==>
           if i < |ranked| then
             && Shows(rows[i], ranked[i])
             && rows[i].wouldPay == Some(offers[i].price)
             && rows[i].excluded == if i < r.budgetSkipped then Some(Budget) else None
           else
             && Shows(rows[i], out[i - |ranked|].0)
             && rows[i].wouldPay == None
             && rows[i].excluded == Some(out[i - |ranked|].1))
  }

  /** Every row of the ranking, field by field. */
  lemma RankingRows(u: Tables, campaigns: seq<Campaign>, cfg: EngineConfig, req: AuctionRequest, day: Day, m: Counters, i: nat)
    requires UniqueIds(campaigns) && req.debug
    ensures LaidOut(Outcome(u, campaigns, cfg, req, day, m), Ranked(u, campaigns, cfg, req),
                    RankedOffers(u, campaigns, cfg, req), RankedExclusions(u, campaigns, cfg, req), i)
  {
    var q := TokenSet(u, req.query);
    OffersCarryPrices(u, campaigns, cfg, req);
    RowsAreLaidOut(Outcome(u, campaigns, cfg, req, day, m), Ranked(u, campaigns, cfg, req),
                   RankedPrices(u, campaigns, cfg, req), RankedOffers(u, campaigns, cfg, req),
                   Exclusions(u, campaigns, cfg, req, q, Found(u, campaigns, q)), i);
  }

  ghost predicate Carry(offers: seq<Offer>, prices: seq<Micros>) {
    |offers| == |prices| && forall i :: 0 <= i < |prices| ==> offers[i].price == prices[i]
  }

  lemma OffersCarryPrices(u: Tables, campaigns: seq<Campaign>, cfg: EngineConfig, req: AuctionRequest)
    requires UniqueIds(campaigns)
    ensures Carry(RankedOffers(u, campaigns, cfg, req), RankedPrices(u, campaigns, cfg, req))
  {
    forall i | 0 <= i < |Ranked(u, campaigns, cfg, req)|
      ensures RankedOffers(u, campaigns, cfg, req)[i].price == RankedPrices(u, campaigns, cfg, req)[i]
    {
      LookupsSucceed(u, campaigns, cfg, req, i);
    }
  }

  lemma RowsAreLaidOut(r: AuctionOutcome, ranked: seq<KeywordMatch>, prices: seq<Micros>, offers: seq<Offer>,
                       excluded: seq<(KeywordMatch, ExclusionReason)>, i: nat)
    requires r.ranking == Some(DebugRanking(ranked, prices, r.budgetSkipped, excluded))
    requires |ranked| == |prices| && Carry(offers, prices)
    ensures LaidOut(r, ranked, offers, Sort(excluded, ExclusionRanksNoLater), i)
  {
    DebugRankingRow(ranked, prices, r.budgetSkipped, excluded, i);
    if i < |ranked| {
      CandidateRowShows(ranked, prices, r.budgetSkipped, i);
    }
  }

  lemma CandidateRowShows(ranked: seq<KeywordMatch>, prices: seq<Micros>, skipped: nat, i: nat)
    requires i < |ranked| == |prices|
    ensures var row := CandidateRow(ranked, prices, skipped, i);
            && Shows(row, ranked[i]) && row.wouldPay == Some(prices[i])
            && row.excluded == if i < skipped then Some(Budget) else None
  {}

  lemma DebugRankingRow(ranked: seq<KeywordMatch>, prices: seq<Micros>, skipped: nat,
                        excluded: seq<(KeywordMatch, ExclusionReason)>, i: nat)
    ensures var rows, out := DebugRanking(ranked, prices, skipped, excluded), Sort(excluded, ExclusionRanksNoLater);
            && |rows| == Min(|ranked| + |out|, 10)
            && (i < |rows| && i < |ranked| ==> rows[i] == CandidateRow(ranked, prices, skipped, i))
            && (|ranked| <= i < |rows| ==> rows[i] == ExclusionRow(out[i - |ranked|]))
  {
    var out := Sort(excluded, ExclusionRanksNoLater);
    var all := CandidateRows(ranked, prices, skipped) + ExclusionRows(out);
    assert |all| == |ranked| + |out|;
    if |ranked| <= i < |all| {
      assert all[i] == ExclusionRow(out[i - |ranked|]);
    }
  }

  ghost predicate NoneForBudget(out: seq<(KeywordMatch, ExclusionReason)>) {
    forall x :: x in out ==> x.1 != Budget
  }

  /** Nothing that failed a filter is reported as a budget skip. */
  lemma ExclusionIsNotBudget(u: Tables, campaigns: seq<Campaign>, cfg: EngineConfig, req: AuctionRequest)
    requires UniqueIds(campaigns)
    ensures NoneForBudget(RankedExclusions(u, campaigns, cfg, req))
  {
    ExcludedAreExactly(u, campaigns, cfg, req);
  }

  /** Budget rows are exactly the skipped candidates among the first ten, and only candidates not
      skipped carry no reason. */
  ghost predicate ReasonsFit(r: AuctionOutcome, ranked: seq<KeywordMatch>, i: nat) {
    match r.ranking
    case None => false
    case Some(rows) =>
      && |rows| <= DEBUG_RANKING_LIMIT
      && (i < |rows| ==>
           (rows[i].excluded == Some(Budget) <==> i < r.budgetSkipped)
           && (rows[i].excluded == None <==> r.budgetSkipped <= i < |ranked|))
  }

  lemma RowReasons(r: AuctionOutcome, ranked: seq<KeywordMatch>, offers: seq<Offer>,
                   out: seq<(KeywordMatch, ExclusionReason)>, i: nat)
    requires LaidOut(r, ranked, offers, out, i) && r.budgetSkipped <= |ranked|
    requires NoneForBudget(out)
    ensures ReasonsFit(r, ranked, i)
  {}

  lemma SkipsAreCandidates(u: Tables, campaigns: seq<Campaign>, cfg: EngineConfig, req: AuctionRequest, day: Day, m: Counters)
    ensures Outcome(u, campaigns, cfg, req, day, m).budgetSkipped <= |Ranked(u, campaigns, cfg, req)|
  {
    FirstPayerIsFirst(RankedOffers(u, campaigns, cfg, req), day, m, 0);
  }

  /** Every row of the ranking carries the right reason, or none. */
  lemma RankingShape(u: Tables, campaigns: seq<Campaign>, cfg: EngineConfig, req: AuctionRequest, day: Day, m: Counters, i: nat)
    requires UniqueIds(campaigns) && req.debug
    ensures ReasonsFit(Outcome(u, campaigns, cfg, req, day, m), Ranked(u, campaigns, cfg, req), i)
  {
    var ranked, out := Ranked(u, campaigns, cfg, req), RankedExclusions(u, campaigns, cfg, req);
    RankingRows(u, campaigns, cfg, req, day, m, i);
    SkipsAreCandidates(u, campaigns, cfg, req, day, m);
    ExclusionIsNotBudget(u, campaigns, cfg, req);
    RowReasons(Outcome(u, campaigns, cfg, req, day, m), ranked,
               RankedOffers(u, campaigns, cfg, req), out, i);
  }

  ghost predicate WinnerHasRow(r: AuctionOutcome)
    requires r.ranking.Some? && r.winner.Some?
  {
    exists i :: 0 <= i < |r.ranking.value| && r.ranking.value[i].campaignId == r.winner.value.campaignId
  }

  lemma WinnerRowByPosition(u: Tables, campaigns: seq<Campaign>, cfg: EngineConfig, req: AuctionRequest, day: Day, m: Counters)
    requires UniqueIds(campaigns) && req.debug
    ensures var r := Outcome(u, campaigns, cfg, req, day, m);
            r.ranking.Some? && (r.winner.Some? ==> (WinnerHasRow(r) <==> r.budgetSkipped < DEBUG_RANKING_LIMIT))
  {
    var r := Outcome(u, campaigns, cfg, req, day, m);
    if r.winner.None? { return; }
    var ranked, w := Ranked(u, campaigns, cfg, req), r.budgetSkipped;
    WinnerIsFirstWhoCanPay(u, campaigns, cfg, req, day, m);
    RankingRows(u, campaigns, cfg, req, day, m, w);
    if w < DEBUG_RANKING_LIMIT {
      assert r.ranking.value[w].campaignId == r.winner.value.campaignId;
    } else {
      forall n | 0 <= n < |r.ranking.value| ensures r.ranking.value[n].campaignId != r.winner.value.campaignId {
        RankingRows(u, campaigns, cfg, req, day, m, n);
        CandidatesDiffer(u, campaigns, cfg, req, n, w);
      }
    }
  }

  /** One of the first `n` offers can be paid from these counters. */
  ghost predicate SomeoneCanPay(offers: seq<Offer>, day: Day, m: Counters, n: nat) {
    exists j :: 0 <= j < |offers| && j < n && CanPay(m, day, offers[j])
  }

  /** The ranking shows the winner iff one of the ten best candidates can pay: not whenever there
      is a winner. */
  lemma WinnerRowIff(u: Tables, campaigns: seq<Campaign>, cfg: EngineConfig, req: AuctionRequest, day: Day, m: Counters)
    requires UniqueIds(campaigns) && req.debug
    ensures var r := Outcome(u, campaigns, cfg, req, day, m);
            && r.ranking.Some?
            && (r.winner.Some? && WinnerHasRow(r)
                <==> SomeoneCanPay(RankedOffers(u, campaigns, cfg, req), day, m, DEBUG_RANKING_LIMIT))
  {
    WinnerRowByPosition(u, campaigns, cfg, req, day, m);
    WinnerIsFirstWhoCanPay(u, campaigns, cfg, req, day, m);
    FirstPayerIsFirst(RankedOffers(u, campaigns, cfg, req), day, m, 0);
  }

  /** The winner's row, if shown, is its own and says what it paid. */
  lemma WinnersRowSaysThePrice(u: Tables, campaigns: seq<Campaign>, cfg: EngineConfig, req: AuctionRequest,
                               day: Day, m: Counters, i: nat)
    requires UniqueIds(campaigns) && req.debug
    ensures var r := Outcome(u, campaigns, cfg, req, day, m);
            r.ranking.Some? && (
              r.winner.Some? && i < |r.ranking.value| && i < r.candidates
              && r.ranking.value[i].campaignId == r.winner.value.campaignId ==>
                && i == r.budgetSkipped
                && r.ranking.value[i].wouldPay == Some(r.winner.value.price)
                && r.ranking.value[i].excluded == None)
  {
    RankingRows(u, campaigns, cfg, req, day, m, i);
    WinnerIsFirstWhoCanPay(u, campaigns, cfg, req, day, m);
    var r := Outcome(u, campaigns, cfg, req, day, m);
    if r.winner.Some? && i < r.candidates && i != r.budgetSkipped {
      CandidatesDiffer(u, campaigns, cfg, req, Min(i, r.budgetSkipped), Max(i, r.budgetSkipped));
    }
  }

  lemma CandidatesDiffer(u: Tables, campaigns: seq<Campaign>, cfg: EngineConfig, req: AuctionRequest, i: nat, j: nat)
    requires UniqueIds(campaigns) && i < j < |Ranked(u, campaigns, cfg, req)|
    ensures Ranked(u, campaigns, cfg, req)[i].campaignId != Ranked(u, campaigns, cfg, req)[j].campaignId
  {
    CandidatesAreExactly(u, campaigns, cfg, req);
    var ranked := Ranked(u, campaigns, cfg, req);
    var a, b := ranked[i], ranked[j];
    assert a in ranked && b in ranked && MatchRanksBefore(a, b);
    if a.campaignPos == b.campaignPos {
      BestIsUnique(u, a.campaignPos, campaigns[a.campaignPos], TokenSet(u, req.query), a, b);
      RankOrderIsTotal();
      assert false;
    }
    DifferentPlacesDoNotTie(u, campaigns, req, a, b);
  }

  // ---------- privacy ----------

  lemma {:induction false} AgeDoesNotFilter(u: Tables, campaigns: seq<Campaign>, cfg: EngineConfig, req: AuctionRequest,
                                            q: set<string>, ms: seq<KeywordMatch>, age: Option<AgeBucket>)
    requires InRange(campaigns, ms) && !req.personalized
    ensures Eligibles(u, campaigns, cfg, req.(ageBucket := age), q, ms) == Eligibles(u, campaigns, cfg, req, q, ms)
    ensures Exclusions(u, campaigns, cfg, req.(ageBucket := age), q, ms) == Exclusions(u, campaigns, cfg, req, q, ms)
  {
    if ms != [] {
      AgeDoesNotFilter(u, campaigns, cfg, req, q, ms[..|ms| - 1], age);
    }
  }

  /** Without consent the age bucket has no influence on anything: ad, price, ranking, charge. */
  lemma UnpersonalizedIgnoresAge(u: Tables, campaigns: seq<Campaign>, cfg: EngineConfig, req: AuctionRequest,
                                 day: Day, m: Counters, age: Option<AgeBucket>)
    requires !req.personalized
    ensures RankedOffers(u, campaigns, cfg, req.(ageBucket := age)) == RankedOffers(u, campaigns, cfg, req)
    ensures ReferenceAuction(u, campaigns, cfg, req.(ageBucket := age), day, m)
            == ReferenceAuction(u, campaigns, cfg, req, day, m)
  {
    AgeDoesNotFilter(u, campaigns, cfg, req, TokenSet(u, req.query), Found(u, campaigns, TokenSet(u, req.query)), age);
  }

  /** An age-targeted campaign whose stored size is the one validation computed takes part only
      for a consenting user in a targeted bucket, and only if the true audience exceeds the
      engine's threshold, whatever threshold validation used. */
  lemma TargetedCandidatesAreSafe(u: Tables, campaigns: seq<Campaign>, cfg: EngineConfig, req: AuctionRequest,
                                  m: KeywordMatch, cells: Cells)
    requires UniqueIds(campaigns) && m in Ranked(u, campaigns, cfg, req) && NoNegativeCells(cells)
    requires m.campaignPos < |campaigns| && campaigns[m.campaignPos].ageBuckets.Some?
    requires var c := campaigns[m.campaignPos];
             c.audienceSize == Some(Min(TrueAudience(cells, c.countries, c.ageBuckets.value), I64_MAX))
    ensures var c := campaigns[m.campaignPos];
            && TrueAudience(cells, c.countries, c.ageBuckets.value) > cfg.kTargeting
            && req.personalized && req.ageBucket.Some? && req.ageBucket.value in c.ageBuckets.value
  {
    CandidatesAreExactly(u, campaigns, cfg, req);
  }
}
