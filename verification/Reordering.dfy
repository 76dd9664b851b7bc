/** The order of campaigns, and of keywords within a campaign, never shows: it changes token ids
    and positions in the index, but no outcome and no charge. */
module Reordering {
  import opened Model
  import opened Normalization
  import opened Sorting
  import opened Budgets
  import opened Corpus
  import opened Identity
  import opened Auction
  import opened Matching
  import opened Specification
  import opened Guarantees

  /** The same campaign with its keywords and negative keywords in another order. */
  ghost predicate SameCampaign(c: Campaign, d: Campaign) {
    && multiset(c.keywords) == multiset(d.keywords)
    && multiset(c.negativeKeywords) == multiset(d.negativeKeywords)
    && d == c.(keywords := d.keywords, negativeKeywords := d.negativeKeywords)
  }

  /** Campaign `i` of `cs` has moved to place `to[i]` of `ds`; `from` is the way back. */
  ghost predicate Reordered(cs: seq<Campaign>, ds: seq<Campaign>, to: seq<nat>, from: seq<nat>) {
    && |to| == |cs| && |from| == |ds|
    && (forall i :: 0 <= i < |cs| ==> to[i] < |ds| && from[to[i]] == i && SameCampaign(cs[i], ds[to[i]]))
    && (forall j :: 0 <= j < |ds| ==> from[j] < |cs| && to[from[j]] == j)
  }

  function Moved(m: KeywordMatch, to: seq<nat>): KeywordMatch
    requires m.campaignPos < |to|
  {
    m.(campaignPos := to[m.campaignPos])
  }

  lemma SameElements<T>(a: seq<T>, b: seq<T>)
    requires multiset(a) == multiset(b)
    ensures forall x :: x in a <==> x in b
  {
    forall x ensures x in a <==> x in b {
      assert x in a <==> x in multiset(a);
    }
  }

  lemma SameCampaignBlocks(u: Tables, c: Campaign, d: Campaign, q: set<string>)
    requires SameCampaign(c, d)
    ensures Blocked(u, c, q) == Blocked(u, d, q)
  {
    SameElements(c.negativeKeywords, d.negativeKeywords);
  }

  lemma SameCampaignBest(u: Tables, i: nat, j: nat, c: Campaign, d: Campaign, q: set<string>, m: KeywordMatch)
    requires SameCampaign(c, d) && IsBest(u, i, c, q, m)
    ensures IsBest(u, j, d, q, m.(campaignPos := j))
  {
    SameElements(c.keywords, d.keywords);
    var n := m.(campaignPos := j);
    var k :| FromKeyword(u, i, c, q, m, k);
    assert FromKeyword(u, j, d, q, n, k);
    forall l | 0 <= l < |d.keywords| && Hits(u, d.keywords[l], q)
      ensures !Beats(MatchOf(u, j, d, d.keywords[l], q), n)
    {
      var x := d.keywords[l];
      assert x in c.keywords;
      var o :| 0 <= o < |c.keywords| && c.keywords[o] == x;
      assert !Beats(MatchOf(u, i, c, c.keywords[o], q), m);
    }
  }

  lemma WayBack(cs: seq<Campaign>, ds: seq<Campaign>, to: seq<nat>, from: seq<nat>)
    requires Reordered(cs, ds, to, from)
    ensures Reordered(ds, cs, from, to)
  {}

  /** A best match, its verdict and its charge move with the campaign. */
  lemma BestMoves(u: Tables, cs: seq<Campaign>, ds: seq<Campaign>, to: seq<nat>, from: seq<nat>,
                  cfg: EngineConfig, req: AuctionRequest, m: KeywordMatch)
    requires Reordered(cs, ds, to, from) && BestOfCampaign(u, cs, req, m)
    ensures BestOfCampaign(u, ds, req, Moved(m, to)) && Moved(Moved(m, to), from) == m
    ensures var q := TokenSet(u, req.query);
            Verdict(u, ds, cfg, req, q, Moved(m, to)) == Verdict(u, cs, cfg, req, q, m)
  {
    var i, q := m.campaignPos, TokenSet(u, req.query);
    assert SameCampaign(cs[i], ds[to[i]]);
    SameCampaignBest(u, i, to[i], cs[i], ds[to[i]], q, m);
    SameCampaignBlocks(u, cs[i], ds[to[i]], q);
  }

  ghost predicate InPlaces(ms: seq<KeywordMatch>, to: seq<nat>) {
    forall i :: 0 <= i < |ms| ==> ms[i].campaignPos < |to|
  }

  function MovedAll(ms: seq<KeywordMatch>, to: seq<nat>): seq<KeywordMatch>
    requires InPlaces(ms, to)
  {
    seq(|ms|, i requires 0 <= i < |ms| => Moved(ms[i], to))
  }

  lemma CandidateMoves(u: Tables, cs: seq<Campaign>, ds: seq<Campaign>, to: seq<nat>, from: seq<nat>,
                       cfg: EngineConfig, req: AuctionRequest, m: KeywordMatch)
    requires Reordered(cs, ds, to, from) && UniqueIds(cs) && UniqueIds(ds) && m in Ranked(u, cs, cfg, req)
    ensures m.campaignPos < |cs| && Moved(m, to) in Ranked(u, ds, cfg, req)
    ensures to[m.campaignPos] < |from| && Moved(Moved(m, to), from) == m
  {
    CandidatesAreExactly(u, cs, cfg, req);
    CandidatesAreExactly(u, ds, cfg, req);
    BestMoves(u, cs, ds, to, from, cfg, req, m);
    EligibleMeansMayServe(u, cs, cfg, req, m);
    EligibleMeansMayServe(u, ds, cfg, req, Moved(m, to));
  }

  /** Two strict rankings that map into each other are the same up to the move. */
  lemma MovedListIsList(a: seq<KeywordMatch>, b: seq<KeywordMatch>, to: seq<nat>, from: seq<nat>)
    requires StrictlySorted(a, MatchRanksBefore) && StrictlySorted(b, MatchRanksBefore)
    requires forall m :: m in a ==> m.campaignPos < |to| && Moved(m, to) in b
    requires forall m :: m in b ==>
      m.campaignPos < |from| && Moved(m, from) in a && from[m.campaignPos] < |to| && Moved(Moved(m, from), to) == m
    ensures InPlaces(a, to) && b == MovedAll(a, to)
  {
    assert InPlaces(a, to);
    var moved := MovedAll(a, to);
    forall i, j | 0 <= i < j < |moved| ensures MatchRanksBefore(moved[i], moved[j]) {
      assert MatchRanksBefore(a[i], a[j]) && moved[i].Bidder() == a[i].Bidder() && moved[j].Bidder() == a[j].Bidder();
    }
    forall m | m in b ensures m in moved {
      var n := Moved(m, from);
      var i :| 0 <= i < |a| && a[i] == n;
      assert moved[i] == m;
    }
    MatchRankIsTotal();
    StrictlySortedIsUnique(moved, b, MatchRanksBefore);
  }

  /** The candidates of the reordered campaigns are the moved candidates, in the same order. */
  lemma RankedMoves(u: Tables, cs: seq<Campaign>, ds: seq<Campaign>, to: seq<nat>, from: seq<nat>,
                    cfg: EngineConfig, req: AuctionRequest)
    requires Reordered(cs, ds, to, from) && UniqueIds(cs) && UniqueIds(ds)
    ensures InPlaces(Ranked(u, cs, cfg, req), to)
    ensures Ranked(u, ds, cfg, req) == MovedAll(Ranked(u, cs, cfg, req), to)
  {
    var a, b := Ranked(u, cs, cfg, req), Ranked(u, ds, cfg, req);
    forall m | m in a ensures m.campaignPos < |to| && Moved(m, to) in b {
      CandidateMoves(u, cs, ds, to, from, cfg, req, m);
    }
    WayBack(cs, ds, to, from);
    forall m | m in b ensures m.campaignPos < |from| && Moved(m, from) in a
      && from[m.campaignPos] < |to| && Moved(Moved(m, from), to) == m
    {
      CandidateMoves(u, ds, cs, from, to, cfg, req, m);
    }
    CandidatesAreExactly(u, cs, cfg, req);
    CandidatesAreExactly(u, ds, cfg, req);
    MovedListIsList(a, b, to, from);
  }

  function MovedExclusion(x: (KeywordMatch, ExclusionReason), to: seq<nat>): (KeywordMatch, ExclusionReason)
    requires x.0.campaignPos < |to|
  {
    (Moved(x.0, to), x.1)
  }

  lemma ExclusionMoves(u: Tables, cs: seq<Campaign>, ds: seq<Campaign>, to: seq<nat>, from: seq<nat>,
                       cfg: EngineConfig, req: AuctionRequest, x: (KeywordMatch, ExclusionReason))
    requires Reordered(cs, ds, to, from) && UniqueIds(cs) && UniqueIds(ds)
    requires x in RankedExclusions(u, cs, cfg, req)
    ensures x.0.campaignPos < |cs| && MovedExclusion(x, to) in RankedExclusions(u, ds, cfg, req)
    ensures to[x.0.campaignPos] < |from| && MovedExclusion(MovedExclusion(x, to), from) == x
  {
    ExcludedAreExactly(u, cs, cfg, req);
    ExcludedAreExactly(u, ds, cfg, req);
    assert IsExcluded(u, cs, cfg, req, x);
    VerdictIsFirstFailure(u, cs, cfg, req, x.0, x.1);
    BestMoves(u, cs, ds, to, from, cfg, req, x.0);
    VerdictIsFirstFailure(u, ds, cfg, req, Moved(x.0, to), x.1);
    assert IsExcluded(u, ds, cfg, req, MovedExclusion(x, to));
  }

  lemma MovedExclusionsAreExclusions(a: seq<(KeywordMatch, ExclusionReason)>, b: seq<(KeywordMatch, ExclusionReason)>,
                                     to: seq<nat>, from: seq<nat>)
    requires StrictlySorted(a, ExclusionRanksBefore) && StrictlySorted(b, ExclusionRanksBefore)
    requires forall x :: x in a ==> x.0.campaignPos < |to| && MovedExclusion(x, to) in b
    requires forall x :: x in b ==>
      && x.0.campaignPos < |from| && MovedExclusion(x, from) in a
      && from[x.0.campaignPos] < |to| && MovedExclusion(MovedExclusion(x, from), to) == x
    ensures ExclusionRows(a) == ExclusionRows(b)
  {
    var moved := seq(|a|, i requires 0 <= i < |a| => assert a[i] in a; MovedExclusion(a[i], to));
    forall i, j | 0 <= i < j < |moved| ensures ExclusionRanksBefore(moved[i], moved[j]) {
      assert ExclusionRanksBefore(a[i], a[j]);
      assert moved[i].0.Bidder() == a[i].0.Bidder() && moved[j].0.Bidder() == a[j].0.Bidder();
    }
    forall x | x in b ensures x in moved {
      var y := MovedExclusion(x, from);
      var i :| 0 <= i < |a| && a[i] == y;
      assert moved[i] == x;
    }
    MatchRankIsTotal();
    StrictlySortedIsUnique(moved, b, ExclusionRanksBefore);
    forall i | 0 <= i < |a| ensures ExclusionRows(a)[i] == ExclusionRows(b)[i] {
      assert b[i] == MovedExclusion(a[i], to);
    }
  }

  lemma RankedExclusionsMove(u: Tables, cs: seq<Campaign>, ds: seq<Campaign>, to: seq<nat>, from: seq<nat>,
                             cfg: EngineConfig, req: AuctionRequest)
    requires Reordered(cs, ds, to, from) && UniqueIds(cs) && UniqueIds(ds)
    ensures ExclusionRows(RankedExclusions(u, cs, cfg, req)) == ExclusionRows(RankedExclusions(u, ds, cfg, req))
  {
    var a, b := RankedExclusions(u, cs, cfg, req), RankedExclusions(u, ds, cfg, req);
    forall x | x in a ensures x.0.campaignPos < |to| && MovedExclusion(x, to) in b {
      ExclusionMoves(u, cs, ds, to, from, cfg, req, x);
    }
    WayBack(cs, ds, to, from);
    forall x | x in b ensures x.0.campaignPos < |from| && MovedExclusion(x, from) in a
      && from[x.0.campaignPos] < |to| && MovedExclusion(MovedExclusion(x, from), to) == x
    {
      ExclusionMoves(u, ds, cs, from, to, cfg, req, x);
    }
    ExcludedAreExactly(u, cs, cfg, req);
    ExcludedAreExactly(u, ds, cfg, req);
    MovedExclusionsAreExclusions(a, b, to, from);
  }

  lemma AccountsDoNotMove(cs: seq<Campaign>, ds: seq<Campaign>, to: seq<nat>, from: seq<nat>, a: seq<KeywordMatch>)
    requires Reordered(cs, ds, to, from) && InPlaces(a, to)
    ensures Bidders(MovedAll(a, to)) == Bidders(a)
    ensures Accounts(ds, MovedAll(a, to)) == Accounts(cs, a)
  {}

  /** The offers, and so every charge, are the same. */
  lemma OffersDoNotMove(u: Tables, cs: seq<Campaign>, ds: seq<Campaign>, to: seq<nat>, from: seq<nat>,
                        cfg: EngineConfig, req: AuctionRequest)
    requires Reordered(cs, ds, to, from) && UniqueIds(cs) && UniqueIds(ds)
    ensures RankedPrices(u, ds, cfg, req) == RankedPrices(u, cs, cfg, req)
    ensures RankedOffers(u, ds, cfg, req) == RankedOffers(u, cs, cfg, req)
  {
    RankedMoves(u, cs, ds, to, from, cfg, req);
    AccountsDoNotMove(cs, ds, to, from, Ranked(u, cs, cfg, req));
  }

  /** The keyword looked up for a moved match is the same. */
  lemma KeywordDoesNotMove(u: Tables, i: nat, c: Campaign, d: Campaign, q: set<string>, m: KeywordMatch)
    requires SameCampaign(c, d) && DistinctKeywords(c) && DistinctKeywords(d) && IsBest(u, i, c, q, m)
    ensures FindKeyword(c.keywords, m.keywordId) == FindKeyword(d.keywords, m.keywordId)
  {
    var k :| FromKeyword(u, i, c, q, m, k);
    SameElements(c.keywords, d.keywords);
    FindKeywordFinds(c.keywords, k);
    FindKeywordFinds(d.keywords, k);
  }

  lemma AssemblyDoesNotMove(cs: seq<Campaign>, ds: seq<Campaign>, to: seq<nat>, a: seq<KeywordMatch>,
                            prices: seq<Micros>, i: nat)
    requires InPlaces(a, to) && i < |a| && |to| == |cs|
    requires to[a[i].campaignPos] < |ds|
    requires var p := a[i].campaignPos;
             FindKeyword(cs[p].keywords, a[i].keywordId) == FindKeyword(ds[to[p]].keywords, a[i].keywordId)
    ensures AssembleWinner(ds, MovedAll(a, to), prices, i) == AssembleWinner(cs, a, prices, i)
  {}

  /** The assembled ad is the same. */
  lemma AdDoesNotMove(u: Tables, cs: seq<Campaign>, ds: seq<Campaign>, to: seq<nat>, from: seq<nat>,
                      cfg: EngineConfig, req: AuctionRequest, i: nat)
    requires Reordered(cs, ds, to, from) && UniqueIds(cs) && UniqueIds(ds)
    requires i < |Ranked(u, cs, cfg, req)|
    ensures AssembleWinner(ds, Ranked(u, ds, cfg, req), RankedPrices(u, ds, cfg, req), i)
            == AssembleWinner(cs, Ranked(u, cs, cfg, req), RankedPrices(u, cs, cfg, req), i)
  {
    RankedMoves(u, cs, ds, to, from, cfg, req);
    OffersDoNotMove(u, cs, ds, to, from, cfg, req);
    CandidatesAreExactly(u, cs, cfg, req);
    var a := Ranked(u, cs, cfg, req);
    var m := a[i];
    assert m in a && BestOfCampaign(u, cs, req, m);
    var p := m.campaignPos;
    assert SameCampaign(cs[p], ds[to[p]]) && cs[p] in cs && ds[to[p]] in ds;
    KeywordDoesNotMove(u, p, cs[p], ds[to[p]], TokenSet(u, req.query), m);
    AssemblyDoesNotMove(cs, ds, to, a, RankedPrices(u, cs, cfg, req), i);
  }

  lemma CandidateRowsDoNotMove(a: seq<KeywordMatch>, to: seq<nat>, prices: seq<Micros>, skipped: nat)
    requires InPlaces(a, to)
    ensures CandidateRows(MovedAll(a, to), prices, skipped) == CandidateRows(a, prices, skipped)
  {}

  lemma RankingDoesNotMove(u: Tables, cs: seq<Campaign>, ds: seq<Campaign>, to: seq<nat>, from: seq<nat>,
                           cfg: EngineConfig, req: AuctionRequest, w: Option<nat>)
    requires Reordered(cs, ds, to, from) && UniqueIds(cs) && UniqueIds(ds)
    ensures OutcomeFor(u, ds, cfg, req, w).ranking == OutcomeFor(u, cs, cfg, req, w).ranking
    ensures OutcomeFor(u, ds, cfg, req, w).candidates == OutcomeFor(u, cs, cfg, req, w).candidates
    ensures OutcomeFor(u, ds, cfg, req, w).budgetSkipped == OutcomeFor(u, cs, cfg, req, w).budgetSkipped
  {
    RankedMoves(u, cs, ds, to, from, cfg, req);
    RankedExclusionsMove(u, cs, ds, to, from, cfg, req);
    OffersDoNotMove(u, cs, ds, to, from, cfg, req);
    var a, prices := Ranked(u, cs, cfg, req), RankedPrices(u, cs, cfg, req);
    var skipped := match w case Some(i) => i case None => |a|;
    CandidateRowsDoNotMove(a, to, prices, skipped);
  }

  predicate IdNoLater(a: Keyword, b: Keyword) { a.id <= b.id }

  /** No id comes to repeat within the campaigns or within one of them. */
  lemma ReorderedKeepsUniqueIds(cs: seq<Campaign>, ds: seq<Campaign>, to: seq<nat>, from: seq<nat>)
    requires Reordered(cs, ds, to, from) && UniqueIds(cs)
    ensures UniqueIds(ds)
  {
    forall i, j | 0 <= i < j < |ds| ensures ds[i].id != ds[j].id {
      assert SameCampaign(cs[from[i]], ds[to[from[i]]]) && SameCampaign(cs[from[j]], ds[to[from[j]]]);
      assert from[i] != from[j];
    }
    forall d | d in ds ensures DistinctKeywords(d) {
      var j :| 0 <= j < |ds| && ds[j] == d;
      var c := cs[from[j]];
      assert c in cs && SameCampaign(c, ds[to[from[j]]]);
      assert NoTies(c.keywords, IdNoLater);
      NoTiesInAnyOrder(c.keywords, d.keywords, IdNoLater);
      forall i, j | 0 <= i < j < |d.keywords| ensures d.keywords[i].id != d.keywords[j].id {
        assert IdNoLater(d.keywords[i], d.keywords[j]) || IdNoLater(d.keywords[j], d.keywords[i]);
      }
    }
  }

  /** Where keyword `k` of a reordered campaign came from. */
  lemma OriginOf(cs: seq<Campaign>, ds: seq<Campaign>, to: seq<nat>, from: seq<nat>, o: Place) returns (x: Place)
    requires Reordered(cs, ds, to, from) && IsPlace(ds, o)
    ensures IsPlace(cs, x) && x.0 == from[o.0] && IdAt(cs, x) == IdAt(ds, o)
  {
    var c, d := cs[from[o.0]], ds[o.0];
    assert SameCampaign(c, ds[to[from[o.0]]]);
    SameElements(c.keywords, d.keywords);
    assert d.keywords[o.1] in c.keywords;
    var k :| 0 <= k < |c.keywords| && c.keywords[k] == d.keywords[o.1];
    x := (from[o.0], k);
  }

  lemma KeywordIdsStayApart(cs: seq<Campaign>, ds: seq<Campaign>, to: seq<nat>, from: seq<nat>, o: Place, x: Place)
    requires Reordered(cs, ds, to, from) && AllIdsUnique(cs) && UniqueIds(ds)
    requires IsPlace(ds, o) && IsPlace(ds, x) && o != x
    ensures IdAt(ds, o) != IdAt(ds, x)
  {
    if o.0 == x.0 {
      assert ds[o.0] in ds;
    } else {
      var a := OriginOf(cs, ds, to, from, o);
      var b := OriginOf(cs, ds, to, from, x);
      assert to[a.0] == o.0 && to[b.0] == x.0;
      assert Visited(a, |cs|, 0) && Visited(b, |cs|, 0);
    }
  }

  /** The duplicate check passes on the reordered campaigns as on the original ones. */
  lemma ReorderedStaysUnique(cs: seq<Campaign>, ds: seq<Campaign>, to: seq<nat>, from: seq<nat>)
    requires Reordered(cs, ds, to, from)
    ensures AllIdsUnique(cs) <==> AllIdsUnique(ds)
  {
    if AllIdsUnique(cs) {
      UniqueInTheOther(cs, ds, to, from);
    }
    if AllIdsUnique(ds) {
      WayBack(cs, ds, to, from);
      UniqueInTheOther(ds, cs, from, to);
    }
  }

  lemma UniqueInTheOther(cs: seq<Campaign>, ds: seq<Campaign>, to: seq<nat>, from: seq<nat>)
    requires Reordered(cs, ds, to, from) && AllIdsUnique(cs)
    ensures AllIdsUnique(ds)
  {
    UniqueEverywhereIsUniqueWithin(cs);
    ReorderedKeepsUniqueIds(cs, ds, to, from);
    forall o, x: Place | IsPlace(ds, o) && IsPlace(ds, x) && o != x ensures IdAt(ds, o) != IdAt(ds, x) {
      KeywordIdsStayApart(cs, ds, to, from, o, x);
    }
  }

  lemma WordsDoNotMove(u: Tables, cs: seq<Campaign>, ds: seq<Campaign>, to: seq<nat>, from: seq<nat>)
    requires Reordered(cs, ds, to, from)
    ensures Words(CorpusTokens(u, cs)) == Words(CorpusTokens(u, ds))
  {
    forall w ensures w in CorpusTokens(u, cs) <==> w in CorpusTokens(u, ds) {
      if w in CorpusTokens(u, cs) {
        WordMoves(u, cs, ds, to, from, w);
      }
      if w in CorpusTokens(u, ds) {
        WayBack(cs, ds, to, from);
        WordMoves(u, ds, cs, from, to, w);
      }
    }
  }

  lemma WordMoves(u: Tables, cs: seq<Campaign>, ds: seq<Campaign>, to: seq<nat>, from: seq<nat>, w: string)
    requires Reordered(cs, ds, to, from) && w in CorpusTokens(u, cs)
    ensures w in CorpusTokens(u, ds)
  {
    TokensUpToIff(u, cs, |cs|, w);
    TokensUpToIff(u, ds, |ds|, w);
    var i :| 0 <= i < |cs| && Uses(u, cs[i], w);
    assert SameCampaign(cs[i], ds[to[i]]);
    SameElements(cs[i].keywords, ds[to[i]].keywords);
    SameElements(cs[i].negativeKeywords, ds[to[i]].negativeKeywords);
    assert Uses(u, ds[to[i]], w);
  }

  /** Reordered campaigns build whenever the original ones do, except that with exactly 2^32 words
      the order may decide. */
  lemma ReorderedStillBuilds(u: Tables, cs: seq<Campaign>, ds: seq<Campaign>, to: seq<nat>, from: seq<nat>)
    requires Reordered(cs, ds, to, from)
    ensures |Words(CorpusTokens(u, cs))| != U32_MAX + 1 ==>
      (AllIdsUnique(cs) && Numberable(CorpusTokens(u, cs)) <==> AllIdsUnique(ds) && Numberable(CorpusTokens(u, ds)))
  {
    ReorderedStaysUnique(cs, ds, to, from);
    WordsDoNotMove(u, cs, ds, to, from);
    NumberableIff(CorpusTokens(u, cs));
    NumberableIff(CorpusTokens(u, ds));
  }

  /** Permutation invariance: for any request, day and counters the reordered campaigns give the
      same outcome, ranking included, and charge the same offer. */
  lemma OrderNeverShows(u: Tables, cs: seq<Campaign>, ds: seq<Campaign>, to: seq<nat>, from: seq<nat>,
                        cfg: EngineConfig, req: AuctionRequest, day: Day, m: Counters)
    requires Reordered(cs, ds, to, from) && UniqueIds(cs)
    ensures ReferenceAuction(u, ds, cfg, req, day, m) == ReferenceAuction(u, cs, cfg, req, day, m)
    ensures RankedOffers(u, ds, cfg, req) == RankedOffers(u, cs, cfg, req)
  {
    ReorderedKeepsUniqueIds(cs, ds, to, from);
    OffersDoNotMove(u, cs, ds, to, from, cfg, req);
    var offers := RankedOffers(u, cs, cfg, req);
    var w := FirstPayer(offers, day, m, 0);
    FirstPayerIsFirst(offers, day, m, 0);
    RankingDoesNotMove(u, cs, ds, to, from, cfg, req, w);
    if w.Some? {
      AdDoesNotMove(u, cs, ds, to, from, cfg, req, w.value);
    }
    assert OutcomeFor(u, ds, cfg, req, w) == OutcomeFor(u, cs, cfg, req, w);
  }
}
