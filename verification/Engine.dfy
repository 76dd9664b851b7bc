/** The immutable snapshot and its auction (crates/admatch-core/src/engine.rs): what the indexed
    implementation computes, and that it is the declarative auction of `Specification`. */
module Engine {
  import opened Model
  import opened Normalization
  import opened Sorting
  import opened Budgets
  import opened Corpus
  import opened Auction
  import opened Matching
  import opened Identity
  import opened KeywordIndexing
  import opened Specification

  /** The duplicate check of `build`, before any indexing. */
  method CheckIds(campaigns: seq<Campaign>) returns (r: Result<(), BuildError>)
    ensures r.Success? <==> AllIdsUnique(campaigns)
    ensures r.Failure? ==> NamesFirstRepeat(campaigns, r.error)
  {
    var campaignIds: set<CampaignId> := {};
    var keywordIds: set<KeywordId> := {};
    for p := 0 to |campaigns|
      invariant CampaignIdsUnique(campaigns, p) && KeywordIdsUnique(campaigns, p, 0)
      invariant forall id :: id in campaignIds <==> exists i :: 0 <= i < p && campaigns[i].id == id
      invariant SeenIds(campaigns, p, 0, keywordIds)
    {
      if campaigns[p].id in campaignIds {
        assert CampaignRepeatsAt(campaigns, p);
        FirstRepeatIsUnique(campaigns, DuplicateCampaign(campaigns[p].id), TooManyWords);
        return Failure(DuplicateCampaign(campaigns[p].id));
      }
      campaignIds := campaignIds + {campaigns[p].id};
      for k := 0 to |campaigns[p].keywords|
        invariant KeywordIdsUnique(campaigns, p, k) && SeenIds(campaigns, p, k, keywordIds)
      {
        VisitKeyword(campaigns, p, k, keywordIds);
        var id := campaigns[p].keywords[k].id;
        if id in keywordIds {
          assert KeywordRepeatsAt(campaigns, (p, k));
          FirstRepeatIsUnique(campaigns, DuplicateKeyword(id), TooManyWords);
          return Failure(DuplicateKeyword(id));
        }
        keywordIds := keywordIds + {id};
      }
      VisitNextCampaign(campaigns, p, keywordIds);
    }
    return Success(());
  }

  datatype Snapshot = Snapshot(u: Tables, campaigns: seq<Campaign>, index: KeywordIndex, cfg: EngineConfig) {

    ghost predicate Valid()
      reads index
    {
      AllIdsUnique(campaigns) && index.Represents(u, campaigns)
    }

    /** A snapshot exactly for campaigns without repeated ids whose words a `u32` can number. */
    static method Build(u: Tables, campaigns: seq<Campaign>, cfg: EngineConfig) returns (r: Result<Snapshot, BuildError>)
      ensures r.Success? <==> AllIdsUnique(campaigns) && Numberable(CorpusTokens(u, campaigns))
      ensures r.Success? ==>
        r.value.Valid() && r.value.campaigns == campaigns && r.value.cfg == cfg && r.value.u == u
      ensures r.Failure? ==>
        if AllIdsUnique(campaigns) then r.error == TooManyWords else NamesFirstRepeat(campaigns, r.error)
    {
      var ids := CheckIds(campaigns);
      if ids.Failure? { return Failure(ids.error); }
      var built := KeywordIndex.Build(u, campaigns);
      match built {
        case Failure(_) => return Failure(TooManyWords);
        case Success(index) => return Success(Snapshot(u, campaigns, index, cfg));
      }
    }

    /** The campaigns matching a query, negatives applied: exactly the brute-force matcher's. */
    method Matches(query: string) returns (r: Result<seq<KeywordMatch>, QueryError>)
      requires Valid()
      ensures r == match Normalize(u, query)
                   case Failure(e) => Failure(e)
                   case Success(_) => Success(ReferenceMatch(u, campaigns, TokenSet(u, query), |campaigns|))
    {
      match Normalize(u, query) {
        case Failure(e) => return Failure(e);
        case Success(tokens) =>
          ghost var q := TokenSet(u, query);
          UniqueEverywhereIsUniqueWithin(campaigns);
          var prepared := index.Prepare(tokens);
          assert q == set t | t in tokens;
          var found := index.BestMatches(u, campaigns, q, prepared);
          ReferenceMatchIsUnblockedBest(u, campaigns, q, |campaigns|);
          var kept := Retain(q, prepared, found);
          return Success(kept);
      }
    }

    /** Drops the matches a negative keyword blocks. */
    method Retain(ghost q: set<string>, prepared: PreparedQuery, found: seq<KeywordMatch>) returns (kept: seq<KeywordMatch>)
      requires Valid() && Prepared(index.vocab, index.words, prepared, q)
      requires forall m :: m in found ==> m.campaignPos < |campaigns|
      ensures kept == Unblocked(u, campaigns, q, found)
    {
      kept := [];
      for i := 0 to |found|
        invariant kept == Unblocked(u, campaigns, q, found[..i])
      {
        var m := found[i];
        assert found[..i + 1] == found[..i] + [m];
        UnblockedOfAppend(u, campaigns, q, found[..i], m);
        index.NegativeMatchesMeansBlocked(u, campaigns, q, prepared, m.campaignPos);
        if !index.NegativeMatches(m.campaignPos, prepared) {
          kept := kept + [m];
        }
      }
      assert found[..|found|] == found;
    }

    /** Sorts every match into candidate, excluded or silently left out. */
    method Filter(req: AuctionRequest, ghost q: set<string>, prepared: PreparedQuery, found: seq<KeywordMatch>)
        returns (eligible: seq<KeywordMatch>, excluded: seq<(KeywordMatch, ExclusionReason)>)
      requires Valid() && Prepared(index.vocab, index.words, prepared, q) && InRange(campaigns, found)
      ensures eligible == Eligibles(u, campaigns, cfg, req, q, found)
      ensures excluded == Exclusions(u, campaigns, cfg, req, q, found)
    {
      eligible, excluded := [], [];
      for i := 0 to |found|
        invariant eligible == Eligibles(u, campaigns, cfg, req, q, found[..i])
        invariant excluded == Exclusions(u, campaigns, cfg, req, q, found[..i])
      {
        var m := found[i];
        assert found[..i + 1] == found[..i] + [m];
        JudgingOneMore(u, campaigns, cfg, req, q, found[..i], m);
        index.NegativeMatchesMeansBlocked(u, campaigns, q, prepared, m.campaignPos);
        var campaign := Get(campaigns, m.campaignPos);
        if campaign.Some? {
          match Judge(campaign.value, m, req, cfg, index.NegativeMatches(m.campaignPos, prepared)) {
            case PausedOut =>
            case Excluded(reason) => excluded := excluded + [(m, reason)];
            case Eligible => eligible := eligible + [m];
          }
        }
      }
      assert found[..|found|] == found;
    }

    /** Runs one auction: the outcome is that of the declarative auction on the counters as they
        were, and exactly the winning offer is charged. */
    method Run(req: AuctionRequest, budgets: MemoryBudgets, day: Day) returns (r: Result<AuctionOutcome, QueryError>)
      requires Valid()
      modifies budgets
      ensures Valid()
      ensures r == ReferenceAuction(u, campaigns, cfg, req, day, old(budgets.spent))
      ensures r.Failure? ==> budgets.spent == old(budgets.spent)
      ensures r.Success? ==> Settlement(u, campaigns, cfg, req, day, old(budgets.spent), budgets.spent)
    {
      match Normalize(u, req.query) {
        case Failure(e) => return Failure(e);
        case Success(tokens) =>
          ghost var q := TokenSet(u, req.query);
          UniqueEverywhereIsUniqueWithin(campaigns);
          var prepared := index.Prepare(tokens);
          assert q == set t | t in tokens;
          var found := index.BestMatches(u, campaigns, q, prepared);
          assert found == Found(u, campaigns, q);
          var eligible, excluded := Filter(req, q, prepared, found);
          eligible := Sort(eligible, MatchRanksNoLater);
          var bidders := Bidders(eligible);
          var payer := Payer(budgets, day, Accounts(campaigns, eligible));
          var selection := SelectWinner(bidders, cfg.reserve, cfg.increment, payer);
          var winner := match selection.winner
            case Some(i) => AssembleWinner(campaigns, eligible, selection.prices, i)
            case None => None;
          var ranking := if req.debug
            then Some(DebugRanking(eligible, selection.prices, selection.budgetSkipped, excluded))
            else None;
          return Success(AuctionOutcome(winner, |eligible|, selection.budgetSkipped, ranking));
      }
    }
  }
}
