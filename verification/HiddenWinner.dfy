/** An auction whose debug ranking does not show its winner. */
module HiddenWinner {
  import opened Model
  import opened Normalization
  import opened Budgets
  import opened Specification
  import opened Guarantees
  import opened Examples

  /** The first ten of the crowd have 50 left, not enough for the price of 100. */
  const TEN_NEARLY_SPENT: Counters := map i: U32 | 0 <= i < 10 :: Key(i, 0) := 100

  lemma OnlyTheLastCanPay()
    ensures FirstPayer(CrowdOffers(11), 0, TEN_NEARLY_SPENT, 0) == Some(10)
    ensures !SomeoneCanPay(CrowdOffers(11), 0, TEN_NEARLY_SPENT, DEBUG_RANKING_LIMIT)
  {
    var offers := CrowdOffers(11);
    forall j | 0 <= j < 11 ensures CanPay(TEN_NEARLY_SPENT, 0, offers[j]) <==> j == 10 {
      assert offers[j] == Offer(j, 100, 150);
    }
    assert CanPay(TEN_NEARLY_SPENT, 0, offers[10]);
    FirstPayerIsFirst(offers, 0, TEN_NEARLY_SPENT, 0);
  }

  /** Eleven campaigns bid the same; ten are skipped, the eleventh is charged and shown, and none of
      the ten rows is its own. */
  lemma ElevenCandidatesHideTheWinner()
    ensures Normalize(PLAIN, "a").Success?
    ensures var r := ReferenceAuction(PLAIN, Crowd(11), SETTINGS, Search(true), 0, TEN_NEARLY_SPENT).value;
            && r.winner.Some? && r.winner.value.campaignId == 10 && r.winner.value.price == 100
            && r.budgetSkipped == 10 && r.ranking.Some? && !WinnerHasRow(r)
  {
    SearchTokens();
    CrowdIsUnique(11);
    CrowdHasOffers(11, true);
    OnlyTheLastCanPay();
    assert CrowdOffers(11)[10] == Offer(10, 100, 150);
    WinnerIsFirstWhoCanPay(PLAIN, Crowd(11), SETTINGS, Search(true), 0, TEN_NEARLY_SPENT);
    WinnerRowIff(PLAIN, Crowd(11), SETTINGS, Search(true), 0, TEN_NEARLY_SPENT);
  }
}
