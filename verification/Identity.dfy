/** Ids of campaigns and keywords, and which repetition is met first when they are read in order
    (the duplicate check of crates/admatch-core/src/engine.rs). */
module Identity {
  import opened Model
  import opened Matching

  datatype BuildError =
    | DuplicateCampaign(campaign: CampaignId)
    | DuplicateKeyword(keyword: KeywordId)
    | TooManyWords

  /** Campaign position and place in its keyword list. */
  type Place = (nat, nat)

  predicate IsPlace(campaigns: seq<Campaign>, o: Place) {
    o.0 < |campaigns| && o.1 < |campaigns[o.0].keywords|
  }

  /** Already visited when the reader has reached keyword `k` of campaign `p`. */
  predicate Visited(o: Place, p: nat, k: nat) {
    o.0 < p || (o.0 == p && o.1 < k)
  }

  function IdAt(campaigns: seq<Campaign>, o: Place): KeywordId
    requires IsPlace(campaigns, o)
  {
    campaigns[o.0].keywords[o.1].id
  }

  /** Keyword ids repeat nowhere, not even across campaigns, among the places visited. */
  ghost predicate KeywordIdsUnique(campaigns: seq<Campaign>, p: nat, k: nat) {
    forall o, x: Place ::
      IsPlace(campaigns, o) && IsPlace(campaigns, x) && Visited(o, p, k) && Visited(x, p, k) && o != x ==>
        IdAt(campaigns, o) != IdAt(campaigns, x)
  }

  ghost predicate CampaignIdsUnique(campaigns: seq<Campaign>, p: nat)
    requires p <= |campaigns|
  {
    forall i, j :: 0 <= i < j < p ==> campaigns[i].id != campaigns[j].id
  }

  ghost predicate AllIdsUnique(campaigns: seq<Campaign>) {
    CampaignIdsUnique(campaigns, |campaigns|) && KeywordIdsUnique(campaigns, |campaigns|, 0)
  }

  lemma UniqueEverywhereIsUniqueWithin(campaigns: seq<Campaign>)
    requires AllIdsUnique(campaigns)
    ensures UniqueIds(campaigns)
  {
    forall c | c in campaigns ensures DistinctKeywords(c) {
      var p :| 0 <= p < |campaigns| && campaigns[p] == c;
      forall i, j | 0 <= i < j < |c.keywords| ensures c.keywords[i].id != c.keywords[j].id {
        assert IsPlace(campaigns, (p, i)) && IsPlace(campaigns, (p, j));
        assert IdAt(campaigns, (p, i)) != IdAt(campaigns, (p, j));
      }
    }
  }

  /** Some visited keyword has this id. */
  ghost predicate IdVisited(campaigns: seq<Campaign>, p: nat, k: nat, id: KeywordId) {
    exists o: Place :: IsPlace(campaigns, o) && Visited(o, p, k) && IdAt(campaigns, o) == id
  }

  ghost predicate SeenIds(campaigns: seq<Campaign>, p: nat, k: nat, seen: set<KeywordId>) {
    forall id :: id in seen <==> IdVisited(campaigns, p, k, id)
  }

  lemma VisitKeyword(campaigns: seq<Campaign>, p: nat, k: nat, seen: set<KeywordId>)
    requires IsPlace(campaigns, (p, k)) && SeenIds(campaigns, p, k, seen) && KeywordIdsUnique(campaigns, p, k)
    ensures IdAt(campaigns, (p, k)) in seen ==> IdVisited(campaigns, p, k, IdAt(campaigns, (p, k)))
    ensures IdAt(campaigns, (p, k)) !in seen ==>
      SeenIds(campaigns, p, k + 1, seen + {IdAt(campaigns, (p, k))}) && KeywordIdsUnique(campaigns, p, k + 1)
  {}

  lemma VisitNextCampaign(campaigns: seq<Campaign>, p: nat, seen: set<KeywordId>)
    requires p < |campaigns| && SeenIds(campaigns, p, |campaigns[p].keywords|, seen)
    requires KeywordIdsUnique(campaigns, p, |campaigns[p].keywords|)
    ensures SeenIds(campaigns, p + 1, 0, seen) && KeywordIdsUnique(campaigns, p + 1, 0)
  {}

  /** Campaign `p` is the first thing read whose id was read before. */
  ghost predicate CampaignRepeatsAt(campaigns: seq<Campaign>, p: nat) {
    && p < |campaigns|
    && CampaignIdsUnique(campaigns, p) && KeywordIdsUnique(campaigns, p, 0)
    && exists i :: 0 <= i < p && campaigns[i].id == campaigns[p].id
  }

  ghost predicate KeywordRepeatsAt(campaigns: seq<Campaign>, o: Place) {
    && IsPlace(campaigns, o)
    && CampaignIdsUnique(campaigns, o.0 + 1) && KeywordIdsUnique(campaigns, o.0, o.1)
    && IdVisited(campaigns, o.0, o.1, IdAt(campaigns, o))
  }

  /** The error names the first repetition. */
  ghost predicate NamesFirstRepeat(campaigns: seq<Campaign>, error: BuildError) {
    match error
    case DuplicateCampaign(id) => exists p: nat :: CampaignRepeatsAt(campaigns, p) && campaigns[p].id == id
    case DuplicateKeyword(id) => exists o: Place :: KeywordRepeatsAt(campaigns, o) && IdAt(campaigns, o) == id
    case TooManyWords => false
  }

  lemma NoneAfterCampaign(campaigns: seq<Campaign>, p: nat)
    requires CampaignRepeatsAt(campaigns, p)
    ensures !AllIdsUnique(campaigns)
    ensures forall q: nat :: CampaignRepeatsAt(campaigns, q) ==> q <= p
    ensures forall o: Place :: KeywordRepeatsAt(campaigns, o) ==> o.0 < p
  {}

  lemma NoneAfterKeyword(campaigns: seq<Campaign>, o: Place, p: nat, k: nat)
    requires KeywordRepeatsAt(campaigns, o) && Visited(o, p, k)
    ensures !KeywordIdsUnique(campaigns, p, k)
  {
    var x: Place :| IsPlace(campaigns, x) && Visited(x, o.0, o.1) && IdAt(campaigns, x) == IdAt(campaigns, o);
    assert Visited(x, p, k) && x != o;
  }

  lemma OneKeywordRepeats(campaigns: seq<Campaign>, o: Place, x: Place)
    requires KeywordRepeatsAt(campaigns, o) && KeywordRepeatsAt(campaigns, x)
    ensures o == x
  {
    if Visited(o, x.0, x.1) { NoneAfterKeyword(campaigns, o, x.0, x.1); }
    if Visited(x, o.0, o.1) { NoneAfterKeyword(campaigns, x, o.0, o.1); }
  }

  lemma CampaignOrKeyword(campaigns: seq<Campaign>, p: nat, o: Place)
    requires CampaignRepeatsAt(campaigns, p)
    ensures !KeywordRepeatsAt(campaigns, o)
  {
    if KeywordRepeatsAt(campaigns, o) {
      NoneAfterCampaign(campaigns, p);
      NoneAfterKeyword(campaigns, o, p, 0);
    }
  }

  lemma CampaignRepeatRules(campaigns: seq<Campaign>, p: nat, other: BuildError)
    requires CampaignRepeatsAt(campaigns, p)
    ensures NamesFirstRepeat(campaigns, other) ==> other == DuplicateCampaign(campaigns[p].id)
  {
    match other
    case DuplicateCampaign(_) =>
      forall q: nat | CampaignRepeatsAt(campaigns, q) ensures q == p {
        NoneAfterCampaign(campaigns, p);
        NoneAfterCampaign(campaigns, q);
      }
    case DuplicateKeyword(_) =>
      forall o: Place ensures !KeywordRepeatsAt(campaigns, o) {
        CampaignOrKeyword(campaigns, p, o);
      }
    case TooManyWords =>
  }

  lemma KeywordRepeatRules(campaigns: seq<Campaign>, o: Place, other: BuildError)
    requires KeywordRepeatsAt(campaigns, o)
    ensures !AllIdsUnique(campaigns)
    ensures NamesFirstRepeat(campaigns, other) ==> other == DuplicateKeyword(IdAt(campaigns, o))
  {
    NoneAfterKeyword(campaigns, o, |campaigns|, 0);
    match other
    case DuplicateCampaign(_) =>
      forall p: nat ensures !CampaignRepeatsAt(campaigns, p) {
        if CampaignRepeatsAt(campaigns, p) { CampaignOrKeyword(campaigns, p, o); }
      }
    case DuplicateKeyword(_) =>
      forall x: Place | KeywordRepeatsAt(campaigns, x) ensures x == o {
        OneKeywordRepeats(campaigns, o, x);
      }
    case TooManyWords =>
  }

  /** There is one error to report at most, and only where some id repeats. */
  lemma FirstRepeatIsUnique(campaigns: seq<Campaign>, error: BuildError, other: BuildError)
    requires NamesFirstRepeat(campaigns, error)
    ensures !AllIdsUnique(campaigns)
    ensures NamesFirstRepeat(campaigns, other) ==> other == error
  {
    match error {
      case DuplicateCampaign(id) =>
        var p: nat :| CampaignRepeatsAt(campaigns, p) && campaigns[p].id == id;
        NoneAfterCampaign(campaigns, p);
        CampaignRepeatRules(campaigns, p, other);
      case DuplicateKeyword(id) =>
        var o: Place :| KeywordRepeatsAt(campaigns, o) && IdAt(campaigns, o) == id;
        KeywordRepeatRules(campaigns, o, other);
    }
  }
}
