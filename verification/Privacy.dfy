/** Audience counts and the targeting threshold (crates/admatch-core/src/privacy.rs). */
module Privacy {
  import opened Model

  const ALL_COUNTRIES: seq<Country> := [IN, US, GB, AU, SG, AE, CA, DE, JP, NZ]
  const ALL_BUCKETS: seq<AgeBucket> :=
    [Age18To24, Age25To34, Age35To44, Age45To54, Age55To64, Age65Plus]

  type Cells = map<(Country, AgeBucket), I64>

  /** Missing cells count as 0. */
  function Users(cells: Cells, country: Country, bucket: AgeBucket): I64 {
    if (country, bucket) in cells then cells[(country, bucket)] else 0
  }

  function SaturatingAdd(a: I64, b: I64): I64 {
    Max(-I64_MAX - 1, Min(a + b, I64_MAX))
  }

  class AudienceCounts {
    var cells: Cells

    constructor ()
      ensures cells == map[]
    {
      cells := map[];
    }

    method Insert(country: Country, bucket: AgeBucket, users: I64)
      modifies this
      ensures cells == old(cells)[(country, bucket) := users]
    {
      cells := cells[(country, bucket) := users];
    }

    function Get(country: Country, bucket: AgeBucket): Option<I64>
      reads this
    {
      if (country, bucket) in cells then Some(cells[(country, bucket)]) else None
    }
  }

  // ---------- the true audience, each targeted cell counted once ----------

  /** Unbounded sum of one country's targeted buckets, over the first `n` buckets. */
  ghost function RowSum(cells: Cells, country: Country, buckets: set<AgeBucket>, n: nat): int
    requires n <= |ALL_BUCKETS|
  {
    if n == 0 then 0
    else RowSum(cells, country, buckets, n - 1)
         + if ALL_BUCKETS[n - 1] in buckets then Users(cells, country, ALL_BUCKETS[n - 1]) else 0
  }

  ghost function TableSum(cells: Cells, countries: set<Country>, buckets: set<AgeBucket>, n: nat): int
    requires n <= |ALL_COUNTRIES|
  {
    if n == 0 then 0
    else TableSum(cells, countries, buckets, n - 1)
         + if ALL_COUNTRIES[n - 1] in countries then RowSum(cells, ALL_COUNTRIES[n - 1], buckets, |ALL_BUCKETS|) else 0
  }

  /** The people in the targeting: sets on both sides, so neither order nor repetition counts. */
  ghost function TrueAudience(cells: Cells, countries: seq<Country>, buckets: seq<AgeBucket>): int {
    TableSum(cells, set c | c in countries, set b | b in buckets, |ALL_COUNTRIES|)
  }

  function CountryIndex(c: Country): nat {
    match c
    case IN => 0 case US => 1 case GB => 2 case AU => 3 case SG => 4
    case AE => 5 case CA => 6 case DE => 7 case JP => 8 case NZ => 9
  }

  function BucketIndex(b: AgeBucket): nat {
    match b
    case Age18To24 => 0 case Age25To34 => 1 case Age35To44 => 2
    case Age45To54 => 3 case Age55To64 => 4 case Age65Plus => 5
  }

  /** The lists hold every country and every bucket, each once. */
  lemma ListsAreComplete(i: nat, c: Country, j: nat, b: AgeBucket)
    ensures CountryIndex(c) < |ALL_COUNTRIES| && BucketIndex(b) < |ALL_BUCKETS|
    ensures i < |ALL_COUNTRIES| ==> (ALL_COUNTRIES[i] == c <==> i == CountryIndex(c))
    ensures j < |ALL_BUCKETS| ==> (ALL_BUCKETS[j] == b <==> j == BucketIndex(b))
  {}

  lemma {:induction false} RowOfOne(cells: Cells, country: Country, b: AgeBucket, n: nat)
    requires n <= |ALL_BUCKETS|
    ensures RowSum(cells, country, {b}, n) == if BucketIndex(b) < n then Users(cells, country, b) else 0
  {
    if n > 0 {
      RowOfOne(cells, country, b, n - 1);
      ListsAreComplete(0, country, n - 1, b);
    }
  }

  lemma {:induction false} TableOfOne(cells: Cells, c: Country, buckets: set<AgeBucket>, n: nat)
    requires n <= |ALL_COUNTRIES|
    ensures TableSum(cells, {c}, buckets, n) ==
            if CountryIndex(c) < n then RowSum(cells, c, buckets, |ALL_BUCKETS|) else 0
  {
    if n > 0 {
      TableOfOne(cells, c, buckets, n - 1);
      ListsAreComplete(n - 1, c, 0, Age18To24);
    }
  }

  lemma {:induction false} RowOfMore(cells: Cells, country: Country, buckets: set<AgeBucket>, b: AgeBucket, n: nat)
    requires n <= |ALL_BUCKETS| && b !in buckets
    ensures RowSum(cells, country, buckets + {b}, n) ==
            RowSum(cells, country, buckets, n) + RowSum(cells, country, {b}, n)
  {
    if n > 0 {
      RowOfMore(cells, country, buckets, b, n - 1);
    }
  }

  lemma {:induction false} TableOfMoreBuckets(cells: Cells, countries: set<Country>, buckets: set<AgeBucket>, b: AgeBucket, n: nat)
    requires n <= |ALL_COUNTRIES| && b !in buckets
    ensures TableSum(cells, countries, buckets + {b}, n) ==
            TableSum(cells, countries, buckets, n) + TableSum(cells, countries, {b}, n)
  {
    if n > 0 {
      TableOfMoreBuckets(cells, countries, buckets, b, n - 1);
      RowOfMore(cells, ALL_COUNTRIES[n - 1], buckets, b, |ALL_BUCKETS|);
    }
  }

  lemma {:induction false} TableOfMoreCountries(cells: Cells, countries: set<Country>, c: Country, buckets: set<AgeBucket>, n: nat)
    requires n <= |ALL_COUNTRIES| && c !in countries
    ensures TableSum(cells, countries + {c}, buckets, n) ==
            TableSum(cells, countries, buckets, n) + TableSum(cells, {c}, buckets, n)
  {
    if n > 0 {
      TableOfMoreCountries(cells, countries, c, buckets, n - 1);
    }
  }

  lemma {:induction false} EmptyTargeting(cells: Cells, countries: set<Country>, buckets: set<AgeBucket>, country: Country, n: nat, m: nat)
    requires n <= |ALL_COUNTRIES| && m <= |ALL_BUCKETS| && (countries == {} || buckets == {})
    ensures buckets == {} ==> RowSum(cells, country, buckets, m) == 0
    ensures TableSum(cells, countries, buckets, n) == 0
    decreases n, m
  {
    if m > 0 {
      EmptyTargeting(cells, countries, buckets, country, n, m - 1);
    } else if n > 0 {
      EmptyTargeting(cells, countries, buckets, ALL_COUNTRIES[n - 1], n - 1, |ALL_BUCKETS|);
    }
  }

  lemma SetOfMore<T>(s: seq<T>, x: T)
    ensures (set y | y in s + [x]) == (set y | y in s) + {x}
    ensures (set y | y in [x]) == {x}
  {}

  lemma AddingACountry(cells: Cells, countries: seq<Country>, buckets: seq<AgeBucket>, c: Country)
    ensures TrueAudience(cells, countries + [c], buckets) == TrueAudience(cells, countries, buckets)
              + if c in countries then 0 else TrueAudience(cells, [c], buckets)
  {
    var cs, bs := set x | x in countries, set x | x in buckets;
    SetOfMore(countries, c);
    if c in countries { assert cs + {c} == cs; } else { TableOfMoreCountries(cells, cs, c, bs, |ALL_COUNTRIES|); }
  }

  lemma AddingABucket(cells: Cells, countries: seq<Country>, buckets: seq<AgeBucket>, b: AgeBucket)
    ensures TrueAudience(cells, countries, buckets + [b]) == TrueAudience(cells, countries, buckets)
              + if b in buckets then 0 else TrueAudience(cells, countries, [b])
  {
    var cs, bs := set x | x in countries, set x | x in buckets;
    SetOfMore(buckets, b);
    if b in buckets { assert bs + {b} == bs; } else { TableOfMoreBuckets(cells, cs, bs, b, |ALL_COUNTRIES|); }
  }

  lemma OneCell(cells: Cells, c: Country, b: AgeBucket)
    ensures TrueAudience(cells, [c], [b]) == if (c, b) in cells then cells[(c, b)] else 0
  {
    SetOfMore([], c);
    SetOfMore([], b);
    ListsAreComplete(0, c, 0, b);
    TableOfOne(cells, c, {b}, |ALL_COUNTRIES|);
    RowOfOne(cells, c, b, |ALL_BUCKETS|);
  }

  /** What the true audience is, whatever the table: nobody for no targeting, one cell for a single
      country and bucket, and the sum of the parts when a country or bucket is added, which counts
      nothing if it was there already. */
  lemma TrueAudienceMeans(cells: Cells, countries: seq<Country>, buckets: seq<AgeBucket>, c: Country, b: AgeBucket)
    ensures countries == [] || buckets == [] ==> TrueAudience(cells, countries, buckets) == 0
    ensures TrueAudience(cells, [c], [b]) == if (c, b) in cells then cells[(c, b)] else 0
    ensures TrueAudience(cells, countries + [c], buckets) == TrueAudience(cells, countries, buckets)
              + if c in countries then 0 else TrueAudience(cells, [c], buckets)
    ensures TrueAudience(cells, countries, buckets + [b]) == TrueAudience(cells, countries, buckets)
              + if b in buckets then 0 else TrueAudience(cells, countries, [b])
  {
    if countries == [] || buckets == [] {
      EmptyTargeting(cells, (set x | x in countries), (set x | x in buckets), c, |ALL_COUNTRIES|, 0);
    }
    OneCell(cells, c, b);
    AddingACountry(cells, countries, buckets, c);
    AddingABucket(cells, countries, buckets, b);
  }

  ghost predicate NoNegativeCells(cells: Cells) {
    forall k :: k in cells ==> cells[k] >= 0
  }

  /** The running total of the code, which stops at either end of the machine integer. */
  ghost function RunningTotal(cells: Cells, countries: set<Country>, buckets: set<AgeBucket>, n: nat, m: nat): I64
    requires n <= |ALL_COUNTRIES| && m <= |ALL_BUCKETS| && (m > 0 ==> n < |ALL_COUNTRIES|)
    decreases n, m
  {
    if m > 0 then
      var before := RunningTotal(cells, countries, buckets, n, m - 1);
      if ALL_COUNTRIES[n] in countries && ALL_BUCKETS[m - 1] in buckets
      then SaturatingAdd(before, Users(cells, ALL_COUNTRIES[n], ALL_BUCKETS[m - 1])) else before
    else if n > 0 then RunningTotal(cells, countries, buckets, n - 1, |ALL_BUCKETS|)
    else 0
  }

  /** Stopping at an end is the only thing saturation does. */
  lemma SaturatingAddMeans(a: I64, b: I64)
    ensures -I64_MAX - 1 <= a + b <= I64_MAX ==> SaturatingAdd(a, b) == a + b
    ensures a + b > I64_MAX ==> SaturatingAdd(a, b) == I64_MAX
    ensures a + b < -I64_MAX - 1 ==> SaturatingAdd(a, b) == -I64_MAX - 1
  {}

  /** For counts of people the running total is the true sum so far, capped where the machine
      integer ends: once reached the cap is never left. */
  lemma {:induction false} RunningTotalIsCappedSum(cells: Cells, countries: set<Country>, buckets: set<AgeBucket>, n: nat, m: nat)
    requires NoNegativeCells(cells)
    requires n <= |ALL_COUNTRIES| && m <= |ALL_BUCKETS| && (m > 0 ==> n < |ALL_COUNTRIES|)
    ensures var row := if m > 0 && ALL_COUNTRIES[n] in countries then RowSum(cells, ALL_COUNTRIES[n], buckets, m) else 0;
            var sum := TableSum(cells, countries, buckets, n) + row;
            sum >= 0 && RunningTotal(cells, countries, buckets, n, m) == Min(sum, I64_MAX)
    decreases n, m
  {
    if m > 0 {
      RunningTotalIsCappedSum(cells, countries, buckets, n, m - 1);
    } else if n > 0 {
      RunningTotalIsCappedSum(cells, countries, buckets, n - 1, |ALL_BUCKETS|);
    }
  }

  /** Walks the two ordered sets, which for these enums is declaration order. The result depends
      on the lists only as sets, and for counts of people it is the true audience, capped. */
  method AudienceSize(counts: AudienceCounts, countries: seq<Country>, buckets: seq<AgeBucket>)
      returns (total: I64)
    ensures total == RunningTotal(counts.cells, set c | c in countries, set b | b in buckets, |ALL_COUNTRIES|, 0)
    ensures NoNegativeCells(counts.cells) ==>
      total == Min(TrueAudience(counts.cells, countries, buckets), I64_MAX) && total >= 0
  {
    var countrySet, bucketSet := set c | c in countries, set b | b in buckets;
    ghost var cells := counts.cells;
    total := 0;
    for i := 0 to |ALL_COUNTRIES|
      invariant total == RunningTotal(cells, countrySet, bucketSet, i, 0)
    {
      if ALL_COUNTRIES[i] in countrySet {
        for j := 0 to |ALL_BUCKETS|
          invariant total == RunningTotal(cells, countrySet, bucketSet, i, j)
        {
          if ALL_BUCKETS[j] in bucketSet {
            var found := counts.Get(ALL_COUNTRIES[i], ALL_BUCKETS[j]);
            var users: I64 := match found case Some(n) => n case None => 0;
            total := SaturatingAdd(total, users);
          }
        }
      } else {
        UntargetedCountryAddsNothing(cells, countrySet, bucketSet, i, |ALL_BUCKETS|);
      }
    }
    if NoNegativeCells(cells) {
      RunningTotalIsCappedSum(cells, countrySet, bucketSet, |ALL_COUNTRIES|, 0);
    }
  }

  lemma {:induction false} UntargetedCountryAddsNothing(cells: Cells, countries: set<Country>, buckets: set<AgeBucket>, n: nat, m: nat)
    requires n < |ALL_COUNTRIES| && m <= |ALL_BUCKETS| && ALL_COUNTRIES[n] !in countries
    ensures RunningTotal(cells, countries, buckets, n, m) == RunningTotal(cells, countries, buckets, n, 0)
  {
    if m > 0 {
      UntargetedCountryAddsNothing(cells, countries, buckets, n, m - 1);
    }
  }

  datatype PrivacyError = AudienceTooSmall

  /** Strictly more than `k` people. */
  function CheckTargeting(size: I64, k: I64): Result<(), PrivacyError> {
    if size > k then Success(()) else Failure(AudienceTooSmall)
  }

  /** The saturated size passes the threshold exactly when the true audience does, for every
      threshold a machine integer below the cap can hold. */
  lemma SaturationIsSafe(audience: nat, k: I64)
    ensures CheckTargeting(Min(audience, I64_MAX), k).Success? ==> audience > k
    ensures k < I64_MAX ==> (CheckTargeting(Min(audience, I64_MAX), k).Success? <==> audience > k)
  {}
}
