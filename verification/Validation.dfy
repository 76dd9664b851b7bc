/** Campaign validation (crates/admatch-server/src/validate.rs). */
module Validation {
  import opened Model
  import opened Normalization
  import opened Corpus
  import opened Privacy

  datatype CampaignRejection =
    | NonPositiveBudget
    | NoCountries
    | NoKeywords
    | InvalidKeywordText
    | NonPositiveBid
    | EmptyAgeBuckets
    | AudienceTooSmall

  /** The texts in the order they are checked. */
  function Texts(c: Campaign): seq<string> {
    KeywordTexts(c) + NegativeTexts(c)
  }

  /** Checking the texts one by one checks every keyword and every negative keyword. */
  lemma SomeTextInvalidIff(u: Tables, c: Campaign)
    ensures (exists i :: 0 <= i < |Texts(c)| && Normalize(u, Texts(c)[i]).Failure?) <==>
      || (exists kw :: kw in c.keywords && Normalize(u, kw.text).Failure?)
      || (exists n :: n in c.negativeKeywords && Normalize(u, n.text).Failure?)
  {
    forall kw | kw in c.keywords ensures kw.text in Texts(c) {
      var i :| 0 <= i < |c.keywords| && c.keywords[i] == kw;
      assert Texts(c)[i] == kw.text;
    }
    forall n | n in c.negativeKeywords ensures n.text in Texts(c) {
      var i :| 0 <= i < |c.negativeKeywords| && c.negativeKeywords[i] == n;
      assert Texts(c)[|c.keywords| + i] == n.text;
    }
    forall i | 0 <= i < |Texts(c)|
      ensures (i < |c.keywords| && Texts(c)[i] == c.keywords[i].text)
        || (i >= |c.keywords| && Texts(c)[i] == c.negativeKeywords[i - |c.keywords|].text)
    {}
  }

  /** The size the code counts; for counts of people it is the true audience, capped. */
  ghost function CountedAudience(cells: Cells, countries: seq<Country>, buckets: seq<AgeBucket>): I64 {
    RunningTotal(cells, set c | c in countries, set b | b in buckets, |ALL_COUNTRIES|, 0)
  }

  /** The campaign has this defect. */
  ghost predicate HasDefect(u: Tables, c: Campaign, cells: Cells, k: I64, why: CampaignRejection) {
    match why
    case NonPositiveBudget => c.dailyBudget <= 0
    case NoCountries => c.countries == []
    case NoKeywords => c.keywords == []
    case InvalidKeywordText =>
      || (exists kw :: kw in c.keywords && Normalize(u, kw.text).Failure?)
      || (exists n :: n in c.negativeKeywords && Normalize(u, n.text).Failure?)
    case NonPositiveBid => exists kw :: kw in c.keywords && kw.maxCptBid <= 0
    case EmptyAgeBuckets => c.ageBuckets == Some([])
    case AudienceTooSmall => c.ageBuckets.Some? && CountedAudience(cells, c.countries, c.ageBuckets.value) <= k
  }

  /** Which of several defects is reported: the one that comes first here. */
  function Severity(why: CampaignRejection): nat {
    match why
    case NonPositiveBudget => 0
    case NoCountries => 1
    case NoKeywords => 2
    case InvalidKeywordText => 3
    case NonPositiveBid => 4
    case EmptyAgeBuckets => 5
    case AudienceTooSmall => 6
  }

  /** A campaign is accepted exactly when it has no defect, and otherwise refused for the first one
      it has. The size handed back for storage is that of its targeting; for counts of people an
      accepted age-targeted campaign has more than `k` in it. */
  method ValidateCampaign(u: Tables, c: Campaign, counts: AudienceCounts, k: I64)
      returns (r: Result<Option<I64>, CampaignRejection>)
    ensures match r
            case Success(_) => forall why :: !HasDefect(u, c, counts.cells, k, why)
            case Failure(first) =>
              && HasDefect(u, c, counts.cells, k, first)
              && forall why :: Severity(why) < Severity(first) ==> !HasDefect(u, c, counts.cells, k, why)
    ensures r.Success? ==> (r.value.Some? <==> c.ageBuckets.Some?)
    ensures r.Success? && r.value.Some? ==>
      r.value.value == CountedAudience(counts.cells, c.countries, c.ageBuckets.value) > k
    ensures r.Success? && r.value.Some? && NoNegativeCells(counts.cells) ==>
      r.value.value == Min(TrueAudience(counts.cells, c.countries, c.ageBuckets.value), I64_MAX)
  {
    if c.dailyBudget <= 0 { return Failure(NonPositiveBudget); }
    if c.countries == [] { return Failure(NoCountries); }
    if c.keywords == [] { return Failure(NoKeywords); }
    var texts := Texts(c);
    SomeTextInvalidIff(u, c);
    for i := 0 to |texts|
      invariant forall j :: 0 <= j < i ==> Normalize(u, texts[j]).Success?
    {
      if Normalize(u, texts[i]).Failure? {
        return Failure(InvalidKeywordText);
      }
    }
    if exists bad :: bad in c.keywords && bad.maxCptBid <= 0 { return Failure(NonPositiveBid); }
    match c.ageBuckets {
      case None => return Success(None);
      case Some(buckets) =>
        if buckets == [] { return Failure(EmptyAgeBuckets); }
        var size := AudienceSize(counts, c.countries, buckets);
        match CheckTargeting(size, k) {
          case Failure(_) => return Failure(CampaignRejection.AudienceTooSmall);
          case Success(_) => return Success(Some(size));
        }
    }
  }
}
