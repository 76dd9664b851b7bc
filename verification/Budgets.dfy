/** Per-campaign daily budgets (crates/admatch-core/src/budget.rs). One call at a time; the
    counters under concurrent calls are the subject of CasCounter and Service. */
module Budgets {
  import opened Model

  datatype Key = Key(campaign: CampaignId, day: Day)

  datatype BudgetError = InvalidAmount(amount: Micros)

  /** Counters exist only once somebody tried to spend. */
  type Counters = map<Key, I64>

  function SpentOn(m: Counters, k: Key): I64 {
    if k in m then m[k] else 0
  }

  function CheckedAdd(a: I64, b: I64): Option<I64> {
    if -I64_MAX - 1 <= a + b <= I64_MAX then Some(a + b) else None
  }

  /** The closure handed to the compare-and-swap loop: the total to store, if it may be. */
  function NextTotal(spent: I64, amount: Micros, dailyBudget: Micros): Option<I64> {
    match CheckedAdd(spent, amount)
    case None => None
    case Some(total) => if total <= dailyBudget then Some(total) else None
  }

  /** The overflow test never decides anything: a sum beyond the machine integer is beyond
      every budget as well. */
  lemma NextTotalIsBudgetTest(spent: I64, amount: Micros, dailyBudget: Micros)
    requires amount > 0
    ensures NextTotal(spent, amount, dailyBudget) ==
            if spent + amount <= dailyBudget then Some(spent + amount) else None
  {}

  /** A candidate's price and the budget it is charged against. */
  datatype Offer = Offer(campaign: CampaignId, price: Micros, dailyBudget: Micros)

  /** The offer would be accepted against these counters. */
  predicate CanPay(m: Counters, day: Day, o: Offer) {
    o.price > 0 && SpentOn(m, Key(o.campaign, day)) + o.price <= o.dailyBudget
  }

  /** Every counter reads the same. */
  ghost predicate SameSpend(m: Counters, n: Counters) {
    forall k :: SpentOn(m, k) == SpentOn(n, k)
  }

  /** Exactly this offer was charged. */
  ghost predicate Charged(m: Counters, n: Counters, day: Day, o: Offer) {
    forall k :: SpentOn(n, k) == SpentOn(m, k) + if k == Key(o.campaign, day) then o.price else 0
  }

  class MemoryBudgets {
    var spent: Counters

    constructor ()
      ensures spent == map[]
    {
      spent := map[];
    }

    /** All-or-nothing: charged in full if the day's total stays within the budget, otherwise
        every counter still reads what it did. */
    method TrySpend(campaign: CampaignId, day: Day, amount: Micros, dailyBudget: Micros)
        returns (r: Result<bool, BudgetError>)
      modifies this
      ensures r.Failure? <==> amount <= 0
      ensures r.Failure? ==> r.error == InvalidAmount(amount) && spent == old(spent)
      ensures r.Success? ==> spent.Keys == old(spent).Keys + {Key(campaign, day)}
      ensures r.Success? ==> (r.value <==> CanPay(old(spent), day, Offer(campaign, amount, dailyBudget)))
      ensures r == Success(true) ==> Charged(old(spent), spent, day, Offer(campaign, amount, dailyBudget))
      ensures r == Success(false) ==> SameSpend(old(spent), spent)
    {
      if amount <= 0 {
        return Failure(InvalidAmount(amount));
      }
      var key := Key(campaign, day);
      if key !in spent {
        spent := spent[key := 0];
      }
      var ok := AddWithin(key, amount, dailyBudget);
      return Success(ok);
    }

    method AddWithin(key: Key, amount: Micros, dailyBudget: Micros) returns (ok: bool)
      requires key in spent && amount > 0
      modifies this
      ensures ok <==> old(spent)[key] + amount <= dailyBudget
      ensures spent == if ok then old(spent)[key := old(spent)[key] + amount] else old(spent)
    {
      match NextTotal(spent[key], amount, dailyBudget) {
        case None => ok := false;
        case Some(total) =>
          spent := spent[key := total];
          ok := true;
      }
    }

    /** Forgets the counters of days before `today`, and only those. */
    method DropDaysBefore(today: Day)
      modifies this
      ensures forall k :: k in spent <==> k in old(spent) && k.day >= today
      ensures forall k :: k in spent ==> spent[k] == old(spent)[k]
    {
      spent := map k | k in spent && k.day >= today :: spent[k];
    }
  }

  /** `prune_budget_days`: today's and yesterday's counters stay, older ones go. */
  method PruneBudgetDays(budgets: MemoryBudgets, today: Day)
    modifies budgets
    ensures forall k :: k in budgets.spent <==> k in old(budgets.spent) && k.day + 1 >= today
    ensures forall k :: k in budgets.spent ==> budgets.spent[k] == old(budgets.spent)[k]
  {
    budgets.DropDaysBefore(PruneDay(today));
  }

  /** `today.pred_opt().unwrap_or(today)`. */
  function PruneDay(today: Day): Day {
    if today > 0 then today - 1 else today
  }

  // ---------- the payment walk ----------

  /** The counters a walk over the first `n` offers brings into being. */
  ghost function Tried(offers: seq<Offer>, day: Day, n: nat): set<Key>
    requires n <= |offers|
  {
    if n == 0 then {}
    else Tried(offers, day, n - 1) + if offers[n - 1].price > 0 then {Key(offers[n - 1].campaign, day)} else {}
  }

  /** ... up to and including the winner, or over all of them. */
  ghost function TriedUntil(offers: seq<Offer>, day: Day, winner: Option<nat>): set<Key>
    requires winner.Some? ==> winner.value < |offers|
  {
    Tried(offers, day, match winner case Some(w) => w + 1 case None => |offers|)
  }

  /** The first offer from position `i` on that is accepted, if any. */
  function FirstPayer(offers: seq<Offer>, day: Day, m: Counters, i: nat): Option<nat>
    requires i <= |offers|
    decreases |offers| - i
  {
    if i == |offers| then None
    else if CanPay(m, day, offers[i]) then Some(i)
    else FirstPayer(offers, day, m, i + 1)
  }

  lemma {:induction false} FirstPayerIsFirst(offers: seq<Offer>, day: Day, m: Counters, i: nat)
    requires i <= |offers|
    ensures match FirstPayer(offers, day, m, i)
            case Some(w) => i <= w < |offers| && CanPay(m, day, offers[w])
                            && forall j :: i <= j < w ==> !CanPay(m, day, offers[j])
            case None => forall j :: i <= j < |offers| ==> !CanPay(m, day, offers[j])
    decreases |offers| - i
  {
    if i < |offers| && !CanPay(m, day, offers[i]) {
      FirstPayerIsFirst(offers, day, m, i + 1);
    }
  }
}
