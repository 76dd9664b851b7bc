/** Which campaigns match a query, stated on sets of tokens: the brute-force matcher that
    crates/admatch-core/src/index.rs keeps as the specification of its index. */
module Matching {
  import opened Model
  import opened Normalization
  import opened Scoring
  import opened Sorting
  import opened Auction

  datatype KeywordMatch = KeywordMatch(
    campaignPos: nat,
    campaignId: CampaignId,
    keywordId: KeywordId,
    matchType: MatchType,
    bid: Micros,
    relevance: RelevanceBp)
  {
    function Score(): nat {
      Scoring.Score(bid, relevance)
    }

    function Bidder(): Bidder {
      Auction.Bidder(campaignId, bid, relevance)
    }
  }

  /** Which of two keywords of a campaign stands for it: the score decides, then the bid, and at
      equal bids the smaller id. */
  predicate Beats(a: KeywordMatch, b: KeywordMatch) {
    || a.Score() > b.Score()
    || (a.Score() == b.Score() && a.bid > b.bid)
    || (a.Score() == b.Score() && a.bid == b.bid && a.keywordId < b.keywordId)
  }

  /** `Beats` is a strict order, and decides between any two different keywords. */
  lemma BeatsIsStrictOrder(a: KeywordMatch, b: KeywordMatch, c: KeywordMatch)
    ensures !(Beats(a, b) && Beats(b, a))
    ensures !Beats(a, b) && Beats(c, b) ==> !Beats(a, c)
    ensures !Beats(a, b) && !Beats(b, a) ==> a.keywordId == b.keywordId
    ensures a.Score() > b.Score() ==> Beats(a, b)
    ensures a.Score() == b.Score() && a.bid > b.bid ==> Beats(a, b)
    ensures a.Score() == b.Score() && a.bid == b.bid && a.keywordId < b.keywordId ==> Beats(a, b)
  {}

  /** An empty token set never matches. */
  predicate TokensMatch(matchType: MatchType, tokens: set<string>, q: set<string>) {
    tokens != {} && match matchType case Exact => tokens == q case Broad => tokens <= q
  }

  predicate Hits(u: Tables, k: Keyword, q: set<string>) {
    TokensMatch(k.matchType, TokenSet(u, k.text), q)
  }

  function MatchOf(u: Tables, pos: nat, c: Campaign, k: Keyword, q: set<string>): KeywordMatch {
    var relevance :=
      if k.matchType.Exact? then EXACT_RELEVANCE_BP else BroadRelevance(|TokenSet(u, k.text)|, |q|);
    KeywordMatch(pos, c.id, k.id, k.matchType, k.maxCptBid, relevance)
  }

  /** Some negative keyword of the campaign matches the query. */
  predicate Blocked(u: Tables, c: Campaign, q: set<string>) {
    exists n :: n in c.negativeKeywords && TokensMatch(n.matchType, TokenSet(u, n.text), q)
  }

  /** In terms of words: a text without words matches nothing; an exact keyword wants the same
      words, a broad one none that the query lacks; and a campaign is blocked by just the queries on
      which one of its negatives would have matched as a keyword. */
  lemma WhatMatches(u: Tables, c: Campaign, k: Keyword, q: set<string>)
    ensures Tokenize(u, k.text) == [] ==> !Hits(u, k, q)
    ensures Tokenize(u, k.text) != [] ==>
      (Hits(u, k, q) <==>
        && (forall w :: w in Tokenize(u, k.text) ==> w in q)
        && (k.matchType == Exact ==> forall w :: w in q ==> w in Tokenize(u, k.text)))
    ensures Blocked(u, c, q) <==>
      exists i :: 0 <= i < |c.negativeKeywords| && Hits(u, AsKeyword(c.negativeKeywords[i]), q)
  {
    var ts := TokenSet(u, k.text);
    assert forall w :: w in Tokenize(u, k.text) <==> w in ts;
    assert Tokenize(u, k.text) != [] ==> Tokenize(u, k.text)[0] in ts;
    if Blocked(u, c, q) {
      var n :| n in c.negativeKeywords && TokensMatch(n.matchType, TokenSet(u, n.text), q);
      var i :| 0 <= i < |c.negativeKeywords| && c.negativeKeywords[i] == n;
      assert Hits(u, AsKeyword(c.negativeKeywords[i]), q);
    }
  }

  function AsKeyword(n: NegativeKeyword): Keyword {
    Keyword(0, n.text, n.matchType, 0)
  }

  /** Best so far among the first `n` keywords: a later one replaces it only by beating it. */
  function BestKeyword(u: Tables, pos: nat, c: Campaign, q: set<string>, n: nat): Option<KeywordMatch>
    requires n <= |c.keywords|
  {
    if n == 0 then None
    else
      var best := BestKeyword(u, pos, c, q, n - 1);
      if !Hits(u, c.keywords[n - 1], q) then best
      else
        var m := MatchOf(u, pos, c, c.keywords[n - 1], q);
        if best.None? || Beats(m, best.value) then Some(m) else best
  }

  /** The entry of campaign `i`, if one of its keywords matches. */
  function BestEntry(u: Tables, campaigns: seq<Campaign>, q: set<string>, i: nat): seq<KeywordMatch>
    requires i < |campaigns|
  {
    match BestKeyword(u, i, campaigns[i], q, |campaigns[i].keywords|)
    case None => []
    case Some(m) => [m]
  }

  /** Every campaign with a matching keyword, negatives not applied. */
  function ReferenceBest(u: Tables, campaigns: seq<Campaign>, q: set<string>, n: nat): seq<KeywordMatch>
    requires n <= |campaigns|
  {
    if n == 0 then []
    else ReferenceBest(u, campaigns, q, n - 1) + BestEntry(u, campaigns, q, n - 1)
  }

  /** The reference matcher: every matching campaign no negative blocks, with its best keyword. */
  function ReferenceMatch(u: Tables, campaigns: seq<Campaign>, q: set<string>, n: nat): seq<KeywordMatch>
    requires n <= |campaigns|
  {
    if n == 0 then []
    else
      ReferenceMatch(u, campaigns, q, n - 1)
        + if Blocked(u, campaigns[n - 1], q) then [] else BestEntry(u, campaigns, q, n - 1)
  }

  // ---------- what the best match of a campaign is ----------

  ghost predicate DistinctKeywords(c: Campaign) {
    forall i, j :: 0 <= i < j < |c.keywords| ==> c.keywords[i].id != c.keywords[j].id
  }

  /** Ids repeat neither among the campaigns nor within one: less than `Snapshot::build` insists on,
      and all that matching needs. */
  ghost predicate UniqueIds(campaigns: seq<Campaign>) {
    && (forall i, j :: 0 <= i < j < |campaigns| ==> campaigns[i].id != campaigns[j].id)
    && (forall c :: c in campaigns ==> DistinctKeywords(c))
  }

  ghost predicate FromKeyword(u: Tables, pos: nat, c: Campaign, q: set<string>, m: KeywordMatch, k: Keyword) {
    k in c.keywords && Hits(u, k, q) && m == MatchOf(u, pos, c, k, q)
  }

  ghost predicate FromSomeKeyword(u: Tables, pos: nat, c: Campaign, q: set<string>, m: KeywordMatch) {
    exists k :: FromKeyword(u, pos, c, q, m, k)
  }

  /** None of the first `n` keywords that match beats `m`. */
  ghost predicate Unbeaten(u: Tables, pos: nat, c: Campaign, q: set<string>, m: KeywordMatch, n: nat)
    requires n <= |c.keywords|
  {
    forall i :: 0 <= i < n && Hits(u, c.keywords[i], q) ==> !Beats(MatchOf(u, pos, c, c.keywords[i], q), m)
  }

  /** `m` is a matching keyword of campaign `c` that no other matching keyword beats: a
      statement about the set of keywords, not their order. */
  ghost predicate IsBest(u: Tables, pos: nat, c: Campaign, q: set<string>, m: KeywordMatch) {
    FromSomeKeyword(u, pos, c, q, m) && Unbeaten(u, pos, c, q, m, |c.keywords|)
  }

  lemma BestIsUnique(u: Tables, pos: nat, c: Campaign, q: set<string>, m: KeywordMatch, n: KeywordMatch)
    requires DistinctKeywords(c) && IsBest(u, pos, c, q, m) && IsBest(u, pos, c, q, n)
    ensures m == n
  {}

  lemma {:induction false} BestKeywordIsBest(u: Tables, pos: nat, c: Campaign, q: set<string>, n: nat)
    requires n <= |c.keywords|
    ensures match BestKeyword(u, pos, c, q, n)
            case None => forall i :: 0 <= i < n ==> !Hits(u, c.keywords[i], q)
            case Some(m) => FromSomeKeyword(u, pos, c, q, m) && Unbeaten(u, pos, c, q, m, n)
  {
    if n > 0 {
      BestKeywordIsBest(u, pos, c, q, n - 1);
      var k, best := c.keywords[n - 1], BestKeyword(u, pos, c, q, n - 1);
      if Hits(u, k, q) {
        var m := MatchOf(u, pos, c, k, q);
        BeatsIsStrictOrder(m, m, m);
        assert k in c.keywords && FromKeyword(u, pos, c, q, m, k);
        assert FromSomeKeyword(u, pos, c, q, m);
        if best.Some? && Beats(m, best.value) {
          BeatingKeepsUnbeaten(u, pos, c, q, best.value, m, n - 1);
        }
      }
    }
  }

  /** `m` is that of keyword `j`, and beats every earlier one that matches. */
  ghost predicate BeatsEarlier(u: Tables, pos: nat, c: Campaign, q: set<string>, m: KeywordMatch, j: nat)
    requires j < |c.keywords|
  {
    && Hits(u, c.keywords[j], q) && m == MatchOf(u, pos, c, c.keywords[j], q)
    && forall i :: 0 <= i < j && Hits(u, c.keywords[i], q) ==> Beats(m, MatchOf(u, pos, c, c.keywords[i], q))
  }

  /** Among keywords that rank equal, which share an id, the fold keeps the first. */
  lemma {:induction false} BestKeywordIsFirst(u: Tables, pos: nat, c: Campaign, q: set<string>, n: nat) returns (j: nat)
    requires n <= |c.keywords|
    ensures match BestKeyword(u, pos, c, q, n)
            case None => true
            case Some(m) => j < n && BeatsEarlier(u, pos, c, q, m, j)
  {
    j := 0;
    if n > 0 {
      j := BestKeywordIsFirst(u, pos, c, q, n - 1);
      var k, best := c.keywords[n - 1], BestKeyword(u, pos, c, q, n - 1);
      var m := MatchOf(u, pos, c, k, q);
      if Hits(u, k, q) && (best.None? || Beats(m, best.value)) {
        j := n - 1;
        forall i | 0 <= i < n - 1 && Hits(u, c.keywords[i], q) ensures Beats(m, MatchOf(u, pos, c, c.keywords[i], q)) {
          LaterBeatsEarlier(u, pos, c, q, m, n - 1, i);
        }
      }
    }
  }

  lemma LaterBeatsEarlier(u: Tables, pos: nat, c: Campaign, q: set<string>, m: KeywordMatch, n: nat, i: nat)
    requires i < n <= |c.keywords| && Hits(u, c.keywords[i], q)
    requires var best := BestKeyword(u, pos, c, q, n); best.None? || Beats(m, best.value)
    ensures Beats(m, MatchOf(u, pos, c, c.keywords[i], q))
  {
    BestKeywordIsBest(u, pos, c, q, n);
    BeatsIsStrictOrder(MatchOf(u, pos, c, c.keywords[i], q), BestKeyword(u, pos, c, q, n).value, m);
  }

  lemma BeatingKeepsUnbeaten(u: Tables, pos: nat, c: Campaign, q: set<string>, m: KeywordMatch, better: KeywordMatch, n: nat)
    requires n <= |c.keywords| && Unbeaten(u, pos, c, q, m, n) && Beats(better, m)
    ensures Unbeaten(u, pos, c, q, better, n)
  {}

  /** No keyword of the campaign that matches scores more than `m`, bids more at that score, or has
      a smaller id at that bid. The score is the bid, if not negative, times the relevance. */
  ghost predicate Tops(u: Tables, c: Campaign, q: set<string>, m: KeywordMatch) {
    forall k :: k in c.keywords && Hits(u, k, q) ==> Concedes(k, RelevanceOf(u, k, q), m)
  }

  predicate Concedes(k: Keyword, relevance: RelevanceBp, m: KeywordMatch) {
    var theirs, ours := Max(k.maxCptBid, 0) * relevance, Max(m.bid, 0) * m.relevance;
    && theirs <= ours
    && (theirs == ours ==> k.maxCptBid <= m.bid)
    && (theirs == ours && k.maxCptBid == m.bid ==> m.keywordId <= k.id)
  }

  function RelevanceOf(u: Tables, k: Keyword, q: set<string>): RelevanceBp {
    match k.matchType
    case Exact => 10_000
    case Broad => BroadRelevance(|TokenSet(u, k.text)|, |q|)
  }

  lemma UnbeatenMeansConceded(u: Tables, pos: nat, c: Campaign, q: set<string>, m: KeywordMatch, k: Keyword)
    ensures !Beats(MatchOf(u, pos, c, k, q), m) <==> Concedes(k, RelevanceOf(u, k, q), m)
  {}

  /** The best match, without the order it was found by. */
  lemma BestMeansTops(u: Tables, pos: nat, c: Campaign, q: set<string>, m: KeywordMatch)
    ensures IsBest(u, pos, c, q, m) <==> FromSomeKeyword(u, pos, c, q, m) && Tops(u, c, q, m)
  {
    forall k ensures !Beats(MatchOf(u, pos, c, k, q), m) <==> Concedes(k, RelevanceOf(u, k, q), m) {
      UnbeatenMeansConceded(u, pos, c, q, m, k);
    }
    if Unbeaten(u, pos, c, q, m, |c.keywords|) {
      forall k | k in c.keywords && Hits(u, k, q) ensures Concedes(k, RelevanceOf(u, k, q), m) {
        var i :| 0 <= i < |c.keywords| && c.keywords[i] == k;
      }
    }
    if Tops(u, c, q, m) {
      forall i | 0 <= i < |c.keywords| && Hits(u, c.keywords[i], q)
        ensures !Beats(MatchOf(u, pos, c, c.keywords[i], q), m)
      {
        assert c.keywords[i] in c.keywords;
      }
    }
  }

  /** The fold finds the best keyword exactly when some keyword matches. */
  lemma BestKeywordIff(u: Tables, pos: nat, c: Campaign, q: set<string>, m: KeywordMatch)
    requires DistinctKeywords(c)
    ensures BestKeyword(u, pos, c, q, |c.keywords|) == Some(m) <==> IsBest(u, pos, c, q, m)
    ensures BestKeyword(u, pos, c, q, |c.keywords|) == Some(m) <==>
      FromSomeKeyword(u, pos, c, q, m) && Tops(u, c, q, m)
    ensures IsBest(u, pos, c, q, m) ==> m.campaignPos == pos && m.campaignId == c.id
  {
    BestMeansTops(u, pos, c, q, m);
    BestKeywordIsBest(u, pos, c, q, |c.keywords|);
    var best := BestKeyword(u, pos, c, q, |c.keywords|);
    if best.Some? {
      assert IsBest(u, pos, c, q, best.value);
      if IsBest(u, pos, c, q, m) { BestIsUnique(u, pos, c, q, m, best.value); }
    }
  }

  predicate PositionNoLater(a: KeywordMatch, b: KeywordMatch) { a.campaignPos <= b.campaignPos }

  predicate PositionBefore(a: KeywordMatch, b: KeywordMatch) { a.campaignPos < b.campaignPos }

  lemma BestEntryIff(u: Tables, campaigns: seq<Campaign>, q: set<string>, i: nat)
    requires UniqueIds(campaigns) && i < |campaigns|
    ensures |BestEntry(u, campaigns, q, i)| <= 1
    ensures forall m :: m in BestEntry(u, campaigns, q, i) <==> IsBest(u, i, campaigns[i], q, m)
    ensures forall m :: m in BestEntry(u, campaigns, q, i) ==> m.campaignPos == i
  {
    assert campaigns[i] in campaigns;
    forall m ensures m in BestEntry(u, campaigns, q, i) <==> IsBest(u, i, campaigns[i], q, m)
      ensures m in BestEntry(u, campaigns, q, i) ==> m.campaignPos == i
    {
      BestKeywordIff(u, i, campaigns[i], q, m);
    }
  }

  lemma EntryComesLast(before: seq<KeywordMatch>, e: seq<KeywordMatch>, i: nat)
    requires StrictlySorted(before, PositionBefore) && forall m :: m in before ==> m.campaignPos < i
    requires |e| <= 1 && forall m :: m in e ==> m.campaignPos == i
    ensures StrictlySorted(before + e, PositionBefore)
  {}

  /** One entry per matching campaign, in campaign order, each its best keyword. */
  lemma {:induction false} ReferenceBestIff(u: Tables, campaigns: seq<Campaign>, q: set<string>, n: nat)
    requires UniqueIds(campaigns) && n <= |campaigns|
    ensures StrictlySorted(ReferenceBest(u, campaigns, q, n), PositionBefore)
    ensures forall m :: m in ReferenceBest(u, campaigns, q, n) <==>
      m.campaignPos < n && IsBest(u, m.campaignPos, campaigns[m.campaignPos], q, m)
  {
    if n > 0 {
      ReferenceBestIff(u, campaigns, q, n - 1);
      BestEntryIff(u, campaigns, q, n - 1);
      EntryComesLast(ReferenceBest(u, campaigns, q, n - 1), BestEntry(u, campaigns, q, n - 1), n - 1);
    }
  }

  /** `retain`. */
  function Unblocked(u: Tables, campaigns: seq<Campaign>, q: set<string>, ms: seq<KeywordMatch>): seq<KeywordMatch>
    requires forall m :: m in ms ==> m.campaignPos < |campaigns|
  {
    if ms == [] then []
    else
      var m := ms[|ms| - 1];
      Unblocked(u, campaigns, q, ms[..|ms| - 1]) + if Blocked(u, campaigns[m.campaignPos], q) then [] else [m]
  }

  lemma UnblockedOfAppend(u: Tables, campaigns: seq<Campaign>, q: set<string>, ms: seq<KeywordMatch>, m: KeywordMatch)
    requires m.campaignPos < |campaigns| && forall x :: x in ms ==> x.campaignPos < |campaigns|
    ensures Unblocked(u, campaigns, q, ms + [m]) ==
            Unblocked(u, campaigns, q, ms) + if Blocked(u, campaigns[m.campaignPos], q) then [] else [m]
  {}

  lemma BestEntryIsInPlace(u: Tables, campaigns: seq<Campaign>, q: set<string>, i: nat)
    requires i < |campaigns|
    ensures var e := BestEntry(u, campaigns, q, i); e == [] || (|e| == 1 && e[0].campaignPos == i)
  {
    BestKeywordIsBest(u, i, campaigns[i], q, |campaigns[i].keywords|);
  }

  lemma UnblockedOfEntry(u: Tables, campaigns: seq<Campaign>, q: set<string>, before: seq<KeywordMatch>,
                         e: seq<KeywordMatch>, i: nat)
    requires i < |campaigns| && forall x :: x in before ==> x.campaignPos < |campaigns|
    requires e == [] || (|e| == 1 && e[0].campaignPos == i)
    ensures forall x :: x in before + e ==> x.campaignPos < |campaigns|
    ensures Unblocked(u, campaigns, q, before + e) ==
            Unblocked(u, campaigns, q, before) + if Blocked(u, campaigns[i], q) then [] else e
  {
    if e == [] {
      assert before + e == before;
    } else {
      assert e == [e[0]];
      UnblockedOfAppend(u, campaigns, q, before, e[0]);
    }
  }

  lemma {:induction false} BestIsInRange(u: Tables, campaigns: seq<Campaign>, q: set<string>, n: nat)
    requires n <= |campaigns|
    ensures forall m :: m in ReferenceBest(u, campaigns, q, n) ==> m.campaignPos < n
  {
    if n > 0 {
      BestIsInRange(u, campaigns, q, n - 1);
      BestEntryIsInPlace(u, campaigns, q, n - 1);
    }
  }

  lemma {:induction false} ReferenceMatchIsUnblockedBest(u: Tables, campaigns: seq<Campaign>, q: set<string>, n: nat)
    requires n <= |campaigns|
    ensures forall m :: m in ReferenceBest(u, campaigns, q, n) ==> m.campaignPos < n
    ensures ReferenceMatch(u, campaigns, q, n) == Unblocked(u, campaigns, q, ReferenceBest(u, campaigns, q, n))
  {
    BestIsInRange(u, campaigns, q, n);
    if n > 0 {
      ReferenceMatchIsUnblockedBest(u, campaigns, q, n - 1);
      BestEntryIsInPlace(u, campaigns, q, n - 1);
      UnblockedOfEntry(u, campaigns, q, ReferenceBest(u, campaigns, q, n - 1), BestEntry(u, campaigns, q, n - 1), n - 1);
    }
  }
}
