/** Concrete inputs shared by the runs that show where a claim fails: any number of campaigns all
    bidding the same on the same word. */
module Examples {
  import opened Model
  import opened Normalization
  import opened Sorting
  import opened Scoring
  import opened Budgets
  import opened Auction
  import opened Matching
  import opened Specification
  import opened Guarantees

  /** Letters are what is not a space, and already in lower case. */
  const PLAIN := Tables(s => s, c => c != ' ', c => c == ' ', c => true)

  const SETTINGS := EngineConfig(0, 100, 0)

  function Search(debug: bool): AuctionRequest {
    AuctionRequest("a", IN, false, None, debug)
  }

  /** A campaign of daily budget 150 bidding 100 on one word. */
  function Advert(id: I64): Campaign {
    Campaign(id, 1, "", Active, 150, [IN], None, None, [Keyword(id, "a", Broad, 100)], [])
  }

  function Crowd(n: U32): seq<Campaign> {
    seq(n, i requires 0 <= i < n => Advert(i))
  }

  function CrowdMatches(n: U32): seq<KeywordMatch> {
    seq(n, i requires 0 <= i < n => KeywordMatch(i, i, i, Broad, 100, 7_000))
  }

  function CrowdOffers(n: U32): seq<Offer> {
    seq(n, i requires 0 <= i < n => Offer(i, 100, 150))
  }

  lemma SearchTokens()
    ensures TokenSet(PLAIN, "a") == {"a"}
    ensures Normalize(PLAIN, "a").Success?
  {
    assert Clean(PLAIN, "a") == "a";
    assert SplitWhitespace(PLAIN, "a", "") == SplitWhitespace(PLAIN, "", "a") by {
      assert "a"[1..] == "" && "" + ['a'] == "a";
    }
    assert Tokenize(PLAIN, "a") == ["a"];
    assert forall t :: t in ["a"] <==> t == "a";
  }

  lemma OnlyKeywordIsBest(i: U32, m: KeywordMatch)
    ensures IsBest(PLAIN, i, Advert(i), {"a"}, m) <==> m == KeywordMatch(i, i, i, Broad, 100, 7_000)
  {
    SearchTokens();
    var c, expected := Advert(i), KeywordMatch(i, i, i, Broad, 100, 7_000);
    var k := c.keywords[0];
    assert Hits(PLAIN, k, {"a"}) && MatchOf(PLAIN, i, c, k, {"a"}) == expected;
    assert FromKeyword(PLAIN, i, c, {"a"}, expected, k);
    if FromSomeKeyword(PLAIN, i, c, {"a"}, m) {
      var l :| FromKeyword(PLAIN, i, c, {"a"}, m, l);
    }
  }

  lemma CrowdIsUnique(n: U32)
    ensures UniqueIds(Crowd(n))
  {}

  /** Equal bids on one word: everybody is a candidate, ranked by campaign id. */
  lemma CrowdRanking(n: U32, debug: bool)
    ensures Ranked(PLAIN, Crowd(n), SETTINGS, Search(debug)) == CrowdMatches(n)
  {
    var cs, req, expected := Crowd(n), Search(debug), CrowdMatches(n);
    var ranked := Ranked(PLAIN, cs, SETTINGS, req);
    SearchTokens();
    CrowdIsUnique(n);
    CandidatesAreExactly(PLAIN, cs, SETTINGS, req);
    forall m ensures m in ranked <==> m in expected {
      if m.campaignPos < n {
        OnlyKeywordIsBest(m.campaignPos, m);
        if m in ranked { assert expected[m.campaignPos] == m; }
      }
    }
    MatchRankIsTotal();
    StrictlySortedIsUnique(ranked, expected, MatchRanksBefore);
  }

  /** Each is priced at its bid, which is also what the next one down bids. */
  lemma CrowdHasOffers(n: U32, debug: bool)
    ensures RankedOffers(PLAIN, Crowd(n), SETTINGS, Search(debug)) == CrowdOffers(n)
  {
    CrowdRanking(n, debug);
    var bidders := Bidders(CrowdMatches(n));
    forall i | 0 <= i < n ensures PriceAt(bidders, i, 100, 0) == 100 {
      assert bidders[i] == Bidder(i, 100, 7_000);
    }
    assert Accounts(Crowd(n), CrowdMatches(n)) == seq(n, i requires 0 <= i < n => Some(Account(i, 150)));
    assert Offers(Accounts(Crowd(n), CrowdMatches(n)), Prices(bidders, 100, 0)) == CrowdOffers(n);
  }
}
