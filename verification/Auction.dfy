/** The generalised second-price auction (crates/admatch-core/src/auction.rs). */
module Auction {
  import opened Model
  import opened Sorting
  import opened Scoring
  import opened Budgets

  datatype Bidder = Bidder(campaignId: CampaignId, bid: Micros, relevance: RelevanceBp) {
    function Score(): nat {
      Scoring.Score(bid, relevance)
    }
  }

  /** `Less` when `a` comes first in the ranking. */
  function RankOrder(a: Bidder, b: Bidder): Ordering {
    Compare(b.Score(), a.Score())
      .ThenWith(Compare(b.bid, a.bid))
      .ThenWith(Compare(a.campaignId, b.campaignId))
  }

  predicate RanksNoLater(a: Bidder, b: Bidder) { RankOrder(a, b) != Greater }

  predicate RanksBefore(a: Bidder, b: Bidder) { RankOrder(a, b) == Less }

  /** The ranking rule: the score decides, then the bid, then the smaller campaign id. */
  predicate Outranks(a: Bidder, b: Bidder) {
    || a.Score() > b.Score()
    || (a.Score() == b.Score() && a.bid > b.bid)
    || (a.Score() == b.Score() && a.bid == b.bid && a.campaignId < b.campaignId)
  }

  lemma RankOrderMeans(a: Bidder, b: Bidder)
    ensures RanksBefore(a, b) <==> Outranks(a, b)
  {}

  lemma RankOrderIsTotal()
    ensures TotalPreorder(RanksNoLater)
    ensures Asymmetric(RanksBefore) && Transitive(RanksBefore)
    ensures forall a, b :: RanksNoLater(a, b) && RanksNoLater(b, a) ==> a.campaignId == b.campaignId
    ensures forall a, b :: RanksNoLater(a, b) && !RanksNoLater(b, a) ==> RanksBefore(a, b)
  {}

  function AsU128(m: Micros): nat {
    if m < 0 then 0 else m
  }

  function DivCeil(a: nat, b: nat): nat
    requires b > 0
  {
    if a % b == 0 then a / b else a / b + 1
  }

  function CheckedAddU128(a: nat, b: nat): Option<nat> {
    if a + b <= U128_MAX then Some(a + b) else None
  }

  function GspPrice(bidder: Bidder, next: Option<Bidder>, reserve: Micros, increment: Micros): Micros {
    var raw :=
      match next
      case None => Some(AsU128(reserve))
      case Some(n) =>
        match CheckedAddU128(DivCeil(n.Score(), Max(bidder.relevance, 1)), AsU128(increment))
        case None => None
        case Some(p) => Some(Max(p, AsU128(reserve)));
    match raw
    case Some(price) => if price < AsU128(bidder.bid) then price else bidder.bid
    case None => bidder.bid
  }

  lemma CeilingBounds(a: nat, b: nat)
    requires b > 0
    ensures DivCeil(a, b) * b >= a
    ensures DivCeil(a, b) > 0 ==> (DivCeil(a, b) - 1) * b < a
  {
    var q, r := a / b, a % b;
    assert a == q * b + r;
    if r == 0 {
      assert (q - 1) * b == q * b - b;
    } else {
      assert (q + 1) * b == q * b + b;
    }
  }

  lemma ProductIsMonotone(x: nat, y: nat, z: nat)
    requires x <= y
    ensures x * z <= y * z
  {}

  /** The ceiling is the least bid that still reaches a score. */
  lemma DivCeilIsLeast(a: nat, b: nat, x: nat)
    requires b > 0
    ensures x * b >= a <==> x >= DivCeil(a, b)
  {
    CeilingBounds(a, b);
    if x >= DivCeil(a, b) {
      ProductIsMonotone(DivCeil(a, b), x, b);
    } else {
      ProductIsMonotone(x, DivCeil(a, b) - 1, b);
    }
  }

  /** For all inputs: the checked addition never fails and the price is the documented formula, with
      negative money read as 0 and relevance 0 as 1. */
  lemma GspPriceIsFormula(b: Bidder, next: Option<Bidder>, reserve: Micros, increment: Micros)
    ensures GspPrice(b, next, reserve, increment) ==
            match next
            case None => Min(b.bid, Max(reserve, 0))
            case Some(n) => Min(b.bid, Max(Max(reserve, 0), DivCeil(n.Score(), Max(b.relevance, 1)) + Max(increment, 0)))
  {
    if next.Some? {
      var n := next.value;
      ScoreFitsIn95Bits(n.bid, n.relevance);
      DivCeilIsLeast(n.Score(), Max(b.relevance, 1), n.Score());
    }
  }

  /** The winner never pays above its bid and, bidding at least the reserve, never below it. */
  lemma PriceWithinBounds(b: Bidder, next: Option<Bidder>, reserve: Micros, increment: Micros)
    ensures GspPrice(b, next, reserve, increment) <= b.bid
    ensures reserve <= b.bid ==> reserve <= GspPrice(b, next, reserve, increment)
  {}

  /** A price that is neither the bid nor the reserve is the least bid that would still reach
      the next score, plus the increment. */
  lemma UncappedPriceIsMinimal(b: Bidder, n: Bidder, reserve: Micros, increment: Micros, x: nat)
    requires reserve >= 0 && increment >= 0 && b.relevance >= 1
    requires reserve < GspPrice(b, Some(n), reserve, increment) < b.bid
    ensures Scoring.Score(GspPrice(b, Some(n), reserve, increment) - increment, b.relevance) >= n.Score()
    ensures x * b.relevance >= n.Score() <==> x >= GspPrice(b, Some(n), reserve, increment) - increment
  {
    GspPriceIsFormula(b, Some(n), reserve, increment);
    var least := DivCeil(n.Score(), b.relevance);
    DivCeilIsLeast(n.Score(), b.relevance, x);
    DivCeilIsLeast(n.Score(), b.relevance, least);
  }

  /** The price of position `i`, against the position below it. */
  function PriceAt(ranked: seq<Bidder>, i: nat, reserve: Micros, increment: Micros): Micros
    requires i < |ranked|
  {
    GspPrice(ranked[i], if i + 1 < |ranked| then Some(ranked[i + 1]) else None, reserve, increment)
  }

  function Prices(ranked: seq<Bidder>, reserve: Micros, increment: Micros): seq<Micros> {
    seq(|ranked|, i requires 0 <= i < |ranked| => PriceAt(ranked, i, reserve, increment))
  }

  /** A list the engine may hand to the auction: ranked, with every relevance at least 1 and
      every bid at least the reserve. */
  ghost predicate Contest(ranked: seq<Bidder>, reserve: Micros) {
    && Sorted(ranked, RanksNoLater)
    && forall i :: 0 <= i < |ranked| ==> ranked[i].relevance >= 1 && reserve <= ranked[i].bid
  }

  /** What position `i` effectively offers per tap if it pays its price. */
  function EffectivePrice(ranked: seq<Bidder>, prices: seq<Micros>, i: nat): int
    requires i < |ranked| == |prices|
  {
    prices[i] * ranked[i].relevance
  }

  /** A price times the payer's relevance covers the next score and stays within its own. */
  lemma PriceCoversNextScore(b: Bidder, next: Option<Bidder>, reserve: Micros, increment: Micros)
    requires 0 < reserve <= b.bid && increment >= 0 && b.relevance >= 1
    requires next.Some? ==> next.value.Score() <= b.Score()
    ensures GspPrice(b, next, reserve, increment) * b.relevance <= b.Score()
    ensures next.Some? ==> GspPrice(b, next, reserve, increment) * b.relevance >= next.value.Score()
  {
    var p := GspPrice(b, next, reserve, increment);
    PriceWithinBounds(b, next, reserve, increment);
    GspPriceIsFormula(b, next, reserve, increment);
    ProductIsMonotone(p, b.bid, b.relevance);
    if next.Some? && p < b.bid {
      DivCeilIsLeast(next.value.Score(), b.relevance, p);
    }
  }

  lemma PriceChainStep(ranked: seq<Bidder>, reserve: Micros, increment: Micros, i: nat)
    requires reserve > 0 && increment >= 0 && Contest(ranked, reserve) && i < |ranked|
    ensures reserve <= Prices(ranked, reserve, increment)[i] <= ranked[i].bid
    ensures EffectivePrice(ranked, Prices(ranked, reserve, increment), i) <= ranked[i].Score()
    ensures i + 1 < |ranked| ==>
      EffectivePrice(ranked, Prices(ranked, reserve, increment), i) >= ranked[i + 1].Score()
  {
    var next := if i + 1 < |ranked| then Some(ranked[i + 1]) else None;
    PriceWithinBounds(ranked[i], next, reserve, increment);
    if i + 1 < |ranked| {
      assert RanksNoLater(ranked[i], ranked[i + 1]);
    }
    PriceCoversNextScore(ranked[i], next, reserve, increment);
  }

  /** Down the whole ranking the price stays between reserve and bid, the effective price never
      rises, and it always covers every score below it: nobody further down would have offered
      more than the winner pays. */
  lemma {:induction false} PriceChain(ranked: seq<Bidder>, reserve: Micros, increment: Micros, i: nat, j: nat)
    requires reserve > 0 && increment >= 0 && Contest(ranked, reserve) && i < j < |ranked|
    ensures var prices := Prices(ranked, reserve, increment);
            && reserve <= prices[i] <= ranked[i].bid
            && ranked[i].Score() >= EffectivePrice(ranked, prices, i)
            && EffectivePrice(ranked, prices, i) >= ranked[j].Score()
            && ranked[j].Score() >= EffectivePrice(ranked, prices, j)
    decreases j - i
  {
    PriceChainStep(ranked, reserve, increment, i);
    PriceChainStep(ranked, reserve, increment, j);
    if i + 1 < j {
      PriceChain(ranked, reserve, increment, i + 1, j);
    }
  }

  // ---------- two rankings: one bidder raises its bid ----------

  function Rank(bidders: seq<Bidder>): seq<Bidder> {
    Sort(bidders, RanksNoLater)
  }

  ghost predicate DistinctIds(bidders: seq<Bidder>) {
    forall i, j :: 0 <= i < j < |bidders| ==> bidders[i].campaignId != bidders[j].campaignId
  }

  lemma RankOrderDecides(a: Bidder, b: Bidder)
    requires a.campaignId != b.campaignId
    ensures RanksBefore(a, b) || RanksBefore(b, a)
    ensures RanksNoLater(a, b) ==> RanksBefore(a, b)
  {}

  /** With distinct campaigns the ranking is strict, by the documented rule, hence fixed by who takes
      part. */
  lemma RankIsStrict(bidders: seq<Bidder>)
    requires DistinctIds(bidders)
    ensures StrictlySorted(Rank(bidders), RanksBefore)
    ensures StrictlySorted(Rank(bidders), Outranks)
    ensures forall b :: b in Rank(bidders) <==> b in bidders
  {
    RankOrderIsTotal();
    SortWithoutTies(bidders, RanksNoLater, RanksBefore);
    var r := Rank(bidders);
    forall i, j | 0 <= i < j < |r| ensures Outranks(r[i], r[j]) {
      RankOrderMeans(r[i], r[j]);
    }
  }

  /** `b` joins the ranking of the others at position `p`, which moves nobody else. */
  ghost predicate StandsAt(others: seq<Bidder>, b: Bidder, p: nat) {
    && p <= |others|
    && Rank(others + [b]) == Rank(others)[..p] + [b] + Rank(others)[p..]
    && (forall i :: 0 <= i < p ==> RanksBefore(Rank(others)[i], b))
    && (forall i :: p <= i < |others| ==> RanksBefore(b, Rank(others)[i]))
  }

  lemma PositionExists(others: seq<Bidder>, b: Bidder) returns (p: nat)
    requires DistinctIds(others + [b])
    ensures StandsAt(others, b, p)
  {
    var all, r := others + [b], Rank(others);
    forall i, j | 0 <= i < j < |others| ensures others[i].campaignId != others[j].campaignId {
      assert all[i] == others[i] && all[j] == others[j];
    }
    RankOrderIsTotal();
    RankIsStrict(others);
    RankIsStrict(all);
    forall x | x in r ensures RanksBefore(x, b) || RanksBefore(b, x) {
      var k :| 0 <= k < |others| && others[k] == x;
      assert all[k] == x && all[|others|] == b;
      RankOrderDecides(x, b);
    }
    p := InsertionPoint(r, b, RanksBefore);
    var merged := r[..p] + [b] + r[p..];
    forall x ensures x in merged <==> x in Rank(all) {
      assert r == r[..p] + r[p..];
      assert x in merged <==> x in r || x == b;
    }
    StrictlySortedIsUnique(merged, Rank(all), RanksBefore);
  }

  lemma HigherBidRanksNoLater(b: Bidder, bid: Micros, other: Bidder)
    requires 0 <= b.bid <= bid && RanksBefore(b, other)
    ensures RanksBefore(b.(bid := bid), other)
  {
    ProductIsMonotone(b.bid, bid, b.relevance);
  }

  /** One bidder, one threshold, two bids: the price is the same until the lower bid caps it. */
  lemma PriceUnderARaise(b: Bidder, bid: Micros, next: Option<Bidder>, reserve: Micros, increment: Micros)
    requires 0 <= b.bid <= bid && b.relevance >= 1 && reserve >= 0 && increment >= 0
    ensures SameThreshold(b, bid, GspPrice(b, next, reserve, increment),
                          GspPrice(b.(bid := bid), next, reserve, increment))
  {}

  /** Both prices are one threshold, each capped at the bid it was charged under. */
  predicate SameThreshold(b: Bidder, bid: Micros, paid: Micros, pays: Micros) {
    paid == Min(b.bid, pays) && pays <= bid
  }

  /** Who stands right below position `p` of the others. */
  function Below(others: seq<Bidder>, p: nat): Option<Bidder> {
    if p < |others| then Some(Rank(others)[p]) else None
  }

  lemma PriceWhereItStands(others: seq<Bidder>, b: Bidder, p: nat, reserve: Micros, increment: Micros)
    requires StandsAt(others, b, p)
    ensures Prices(Rank(others + [b]), reserve, increment)[p] == GspPrice(b, Below(others, p), reserve, increment)
  {}

  lemma RaiseNeverMovesDown(others: seq<Bidder>, b: Bidder, bid: Micros, before: nat, after: nat)
    requires StandsAt(others, b, before) && StandsAt(others, b.(bid := bid), after) && 0 <= b.bid <= bid
    ensures after <= before
  {
    if after > before {
      HigherBidRanksNoLater(b, bid, Rank(others)[before]);
      RankOrderIsTotal();
      assert false;
    }
  }

  /** Raising one bid with all others fixed never moves the bidder down, and where it keeps its
      place it faces the same threshold, capped at the new bid. */
  lemma RaisingABid(others: seq<Bidder>, b: Bidder, bid: Micros, reserve: Micros, increment: Micros)
      returns (before: nat, after: nat)
    requires DistinctIds(others + [b])
    requires 0 <= b.bid <= bid && b.relevance >= 1 && reserve >= 0 && increment >= 0
    ensures StandsAt(others, b, before) && StandsAt(others, b.(bid := bid), after)
    ensures after <= before
    ensures after == before ==>
      SameThreshold(b, bid, Prices(Rank(others + [b]), reserve, increment)[before],
                    Prices(Rank(others + [b.(bid := bid)]), reserve, increment)[before])
  {
    var raised := b.(bid := bid);
    StillDistinct(others, b, raised);
    before := PositionExists(others, b);
    after := PositionExists(others, raised);
    RaiseNeverMovesDown(others, b, bid, before, after);
    PriceWhereItStands(others, b, before, reserve, increment);
    PriceWhereItStands(others, raised, after, reserve, increment);
    PriceUnderARaise(b, bid, Below(others, before), reserve, increment);
  }

  lemma StillDistinct(others: seq<Bidder>, b: Bidder, raised: Bidder)
    requires DistinctIds(others + [b]) && raised.campaignId == b.campaignId
    ensures DistinctIds(others + [raised])
  {
    var all, now := others + [b], others + [raised];
    forall i, j | 0 <= i < j < |now| ensures now[i].campaignId != now[j].campaignId {
      assert all[i].campaignId == now[i].campaignId && all[j].campaignId == now[j].campaignId;
    }
  }

  // ---------- winner selection ----------

  datatype Account = Account(campaign: CampaignId, dailyBudget: Micros)

  /** The closure that charges a position: what it captured, and its call. */
  datatype Payer = Payer(budgets: MemoryBudgets, day: Day, accounts: seq<Option<Account>>) {
    /** Errors and failed lookups read as "cannot pay". */
    method TryPay(i: nat, price: Micros) returns (paid: bool)
      requires i < |accounts|
      modifies budgets
      ensures paid <==> CanPay(old(budgets.spent), day, OfferOf(accounts[i], price))
      ensures if paid then Charged(old(budgets.spent), budgets.spent, day, OfferOf(accounts[i], price))
              else SameSpend(old(budgets.spent), budgets.spent)
      ensures var o := OfferOf(accounts[i], price);
              budgets.spent.Keys == old(budgets.spent).Keys + if o.price > 0 then {Key(o.campaign, day)} else {}
    {
      match accounts[i] {
        case None => return false;
        case Some(a) =>
          var r := budgets.TrySpend(a.campaign, day, price, a.dailyBudget);
          return r == Success(true);
      }
    }
  }

  /** A position without an account offers nothing, which no counter accepts. */
  function OfferOf(account: Option<Account>, price: Micros): Offer {
    match account
    case None => Offer(0, 0, 0)
    case Some(a) => Offer(a.campaign, price, a.dailyBudget)
  }

  function Offers(accounts: seq<Option<Account>>, prices: seq<Micros>): seq<Offer>
    requires |accounts| == |prices|
  {
    seq(|prices|, i requires 0 <= i < |prices| => OfferOf(accounts[i], prices[i]))
  }

  datatype Selection = Selection(winner: Option<nat>, prices: seq<Micros>, budgetSkipped: nat)

  /** The winner is the first position that could pay its price before the walk began; the walk
      charges that price to that campaign and leaves every other counter reading the same. */
  method SelectWinner(ranked: seq<Bidder>, reserve: Micros, increment: Micros, payer: Payer)
      returns (s: Selection)
    requires |payer.accounts| == |ranked|
    modifies payer.budgets
    ensures s.prices == Prices(ranked, reserve, increment)
    ensures s.winner == FirstPayer(Offers(payer.accounts, s.prices), payer.day, old(payer.budgets.spent), 0)
    ensures s.winner.Some? ==> s.winner.value < |ranked|
    ensures s.budgetSkipped == if s.winner.Some? then s.winner.value else |ranked|
    ensures match s.winner
            case Some(w) => Charged(old(payer.budgets.spent), payer.budgets.spent, payer.day,
                                    Offers(payer.accounts, s.prices)[w])
            case None => SameSpend(old(payer.budgets.spent), payer.budgets.spent)
    ensures payer.budgets.spent.Keys ==
            old(payer.budgets.spent).Keys + TriedUntil(Offers(payer.accounts, s.prices), payer.day, s.winner)
  {
    var prices := Prices(ranked, reserve, increment);
    ghost var offers := Offers(payer.accounts, prices);
    ghost var before := payer.budgets.spent;
    var winner: Option<nat> := None;
    var i := 0;
    while i < |prices| && winner.None?
      invariant i <= |prices|
      invariant winner.Some? ==> i == winner.value + 1
      invariant Walked(before, payer.budgets.spent, offers, payer.day, i, winner)
    {
      ghost var now := payer.budgets.spent;
      var paid := payer.TryPay(i, prices[i]);
      WalkOn(before, now, payer.budgets.spent, offers, payer.day, i, paid);
      if paid {
        winner := Some(i);
      }
      i := i + 1;
    }
    WalkEnds(before, payer.budgets.spent, offers, payer.day, i, winner);
    s := Selection(winner, prices, if winner.Some? then winner.value else |ranked|);
  }

  /** The walk has tried the first `i` offers. */
  ghost predicate Walked(before: Counters, now: Counters, offers: seq<Offer>, day: Day, i: nat, winner: Option<nat>)
    requires i <= |offers|
  {
    match winner
    case Some(w) =>
      && w < |offers| && FirstPayer(offers, day, before, 0) == Some(w)
      && now.Keys == before.Keys + Tried(offers, day, i)
      && Charged(before, now, day, offers[w])
    case None =>
      && FirstPayer(offers, day, before, 0) == FirstPayer(offers, day, before, i)
      && now.Keys == before.Keys + Tried(offers, day, i)
      && SameSpend(before, now)
  }

  lemma WalkOn(before: Counters, now: Counters, after: Counters, offers: seq<Offer>, day: Day, i: nat, paid: bool)
    requires i < |offers| && Walked(before, now, offers, day, i, None)
    requires paid <==> CanPay(now, day, offers[i])
    requires if paid then Charged(now, after, day, offers[i]) else SameSpend(now, after)
    requires after.Keys == now.Keys + if offers[i].price > 0 then {Key(offers[i].campaign, day)} else {}
    ensures Walked(before, after, offers, day, i + 1, if paid then Some(i) else None)
  {}

  /** A walk that found a winner, or tried everybody. */
  lemma WalkEnds(before: Counters, now: Counters, offers: seq<Offer>, day: Day, i: nat, winner: Option<nat>)
    requires i <= |offers| && Walked(before, now, offers, day, i, winner)
    requires i == if winner.Some? then winner.value + 1 else |offers|
    ensures winner == FirstPayer(offers, day, before, 0)
    ensures now.Keys == before.Keys + TriedUntil(offers, day, winner)
  {}
}
