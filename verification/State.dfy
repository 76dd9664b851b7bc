/** What auctions and the refresh loop share
    (crates/admatch-server/src/state.rs), one action at a time; their interleavings are the
    subject of Service. */
module State {
  import opened Model
  import opened Normalization
  import opened Budgets
  import opened Corpus
  import opened Identity
  import opened KeywordIndexing
  import opened Specification
  import opened Engine

  datatype MatchError = NotReady | BadQuery(error: QueryError)

  class AppState {
    var snapshot: Option<Snapshot>
    const budgets: MemoryBudgets
    const cfg: EngineConfig

    ghost predicate Valid()
      reads this, if snapshot.Some? then {snapshot.value.index} else {}
    {
      snapshot.Some? ==> snapshot.value.Valid() && snapshot.value.cfg == cfg
    }

    constructor (cfg: EngineConfig)
      ensures Valid() && snapshot == None && budgets.spent == map[] && this.cfg == cfg && fresh(budgets)
    {
      this.cfg := cfg;
      snapshot := None;
      budgets := new MemoryBudgets();
    }

    /** One atomic pointer swap; what has been spent today is not touched. */
    method Publish(next: Snapshot)
      requires next.Valid() && next.cfg == cfg
      modifies this`snapshot
      ensures Valid() && snapshot == Some(next)
    {
      snapshot := Some(next);
    }

    /** One turn of the refresh loop on what the campaign source yielded. A failed load keeps the
        old snapshot serving; old counters are dropped either way, and no spend of today or
        yesterday is lost. */
    method Refresh(u: Tables, loaded: Option<seq<Campaign>>, today: Day)
      requires Valid()
      modifies this`snapshot, budgets
      ensures Valid()
      ensures if loaded.Some? && AllIdsUnique(loaded.value) && Numberable(CorpusTokens(u, loaded.value))
              then snapshot.Some? && snapshot.value.campaigns == loaded.value && snapshot.value.u == u
              else snapshot == old(snapshot)
      ensures forall k :: k in budgets.spent <==> k in old(budgets.spent) && k.day + 1 >= today
      ensures forall k :: k in budgets.spent ==> budgets.spent[k] == old(budgets.spent)[k]
    {
      if loaded.Some? {
        var built := Snapshot.Build(u, loaded.value, cfg);
        if built.Success? {
          Publish(built.value);
        }
      }
      PruneBudgetDays(budgets, today);
    }

    /** `POST /v1/match`: 503 until a snapshot is loaded, otherwise one auction on it. */
    method Match(req: AuctionRequest, day: Day) returns (r: Result<AuctionOutcome, MatchError>)
      requires Valid()
      modifies budgets
      ensures Valid() && snapshot == old(snapshot)
      ensures r == match snapshot
                   case None => Failure(NotReady)
                   case Some(s) => (
                     match ReferenceAuction(s.u, s.campaigns, s.cfg, req, day, old(budgets.spent))
                     case Failure(e) => Failure(BadQuery(e))
                     case Success(outcome) => Success(outcome))
      ensures r.Failure? ==> budgets.spent == old(budgets.spent)
      ensures r.Success? ==> snapshot.Some? && var s := snapshot.value;
        Settlement(s.u, s.campaigns, s.cfg, req, day, old(budgets.spent), budgets.spent)
    {
      match snapshot {
        case None => return Failure(NotReady);
        case Some(s) =>
          var ran := s.Run(req, budgets, day);
          match ran {
            case Failure(e) => return Failure(BadQuery(e));
            case Success(outcome) => return Success(outcome);
          }
      }
    }
  }
}
