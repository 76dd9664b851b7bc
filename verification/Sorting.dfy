/** The slice operations of the standard library that the engine relies on, and the one fact
    every determinism argument here comes down to: a strictly sorted list is fixed by its
    elements. */
module Sorting {

  ghost predicate Sorted<T>(s: seq<T>, le: (T, T) -> bool) {
    forall i, j :: 0 <= i < j < |s| ==> le(s[i], s[j])
  }

  ghost predicate TotalPreorder<T(!new)>(le: (T, T) -> bool) {
    && (forall x, y :: le(x, y) || le(y, x))
    && (forall x, y, z :: le(x, y) && le(y, z) ==> le(x, z))
  }

  /** Stable sort, as `sort_by`. */
  function Sort<T>(s: seq<T>, le: (T, T) -> bool): (r: seq<T>)
    ensures |r| == |s|
    ensures multiset(r) == multiset(s)
  {
    if s == [] then [] else
      assert s == [s[0]] + s[1..];
      Insert(s[0], Sort(s[1..], le), le)
  }

  function Insert<T>(x: T, s: seq<T>, le: (T, T) -> bool): (r: seq<T>)
    ensures |r| == |s| + 1
    ensures multiset(r) == multiset(s) + multiset{x}
  {
    if s == [] || le(x, s[0]) then [x] + s else
      assert s == [s[0]] + s[1..];
      [s[0]] + Insert(x, s[1..], le)
  }

  lemma SortKeepsElements<T>(s: seq<T>, le: (T, T) -> bool)
    ensures forall x :: x in Sort(s, le) <==> x in s
  {
    forall x ensures x in Sort(s, le) <==> x in s {
      assert x in Sort(s, le) <==> x in multiset(Sort(s, le));
    }
  }

  lemma {:induction false} InsertSorts<T(!new)>(x: T, s: seq<T>, le: (T, T) -> bool)
    requires TotalPreorder(le) && Sorted(s, le)
    ensures Sorted(Insert(x, s, le), le)
  {
    if s != [] && !le(x, s[0]) {
      InsertSorts(x, s[1..], le);
      var r := Insert(x, s[1..], le);
      forall y | y in r ensures le(s[0], y) {
        assert y in multiset(r);
      }
    } else if s != [] {
      var r := [x] + s;
      forall i, j | 0 <= i < j < |r| ensures le(r[i], r[j]) {
        assert le(s[0], s[j - 1]) || j == 1;
      }
    }
  }

  lemma {:induction false} SortSorts<T(!new)>(s: seq<T>, le: (T, T) -> bool)
    requires TotalPreorder(le)
    ensures Sorted(Sort(s, le), le)
  {
    if s != [] {
      SortSorts(s[1..], le);
      InsertSorts(s[0], Sort(s[1..], le), le);
    }
  }

  ghost predicate StrictlySorted<T>(s: seq<T>, lt: (T, T) -> bool) {
    forall i, j :: 0 <= i < j < |s| ==> lt(s[i], s[j])
  }

  ghost predicate Asymmetric<T(!new)>(lt: (T, T) -> bool) {
    forall x, y :: lt(x, y) ==> !lt(y, x)
  }

  /** Two strictly sorted lists with the same elements are the same list. */
  lemma {:induction false} StrictlySortedIsUnique<T(!new)>(a: seq<T>, b: seq<T>, lt: (T, T) -> bool)
    requires Asymmetric(lt)
    requires StrictlySorted(a, lt) && StrictlySorted(b, lt)
    requires forall x :: x in a <==> x in b
    ensures a == b
  {
    assert b != [] ==> b[0] in b;
    if a != [] {
      assert a[0] in b && b != [] && b[0] in a;
      assert a[0] == b[0];
      forall x ensures x in a[1..] <==> x in b[1..] {
        if x in a[1..] {
          assert x in a && lt(a[0], x);
          assert x in b && x != b[0];
        }
        if x in b[1..] {
          assert x in b && lt(b[0], x);
          assert x in a && x != a[0];
        }
      }
      StrictlySortedIsUnique(a[1..], b[1..], lt);
      assert a == [a[0]] + a[1..] && b == [b[0]] + b[1..];
    }
  }

  /** No two positions hold elements that rank equal. */
  ghost predicate NoTies<T>(s: seq<T>, le: (T, T) -> bool) {
    forall i, j :: 0 <= i < j < |s| ==> !(le(s[i], s[j]) && le(s[j], s[i]))
  }

  lemma {:induction false} NoTiesNoRepeats<T(!new)>(s: seq<T>, le: (T, T) -> bool, x: T)
    requires TotalPreorder(le) && NoTies(s, le)
    ensures multiset(s)[x] <= 1
  {
    if s != [] {
      NoTiesNoRepeats(s[1..], le, x);
      assert s == [s[0]] + s[1..];
      assert x in multiset(s[1..]) ==> x in s[1..];
    }
  }

  lemma NoTiesInAnyOrder<T(!new)>(s: seq<T>, r: seq<T>, le: (T, T) -> bool)
    requires TotalPreorder(le) && NoTies(s, le) && multiset(s) == multiset(r)
    ensures NoTies(r, le)
  {
    forall i, j | 0 <= i < j < |r| ensures !(le(r[i], r[j]) && le(r[j], r[i])) {
      assert r == r[..i] + [r[i]] + r[i + 1..j] + [r[j]] + r[j + 1..];
      assert r[i] in multiset(s) && r[j] in multiset(s);
      if r[i] == r[j] {
        assert multiset(r)[r[i]] >= 2;
        NoTiesNoRepeats(s, le, r[i]);
        assert false;
      }
    }
  }

  /** Sorting a list without ties ranks it strictly. */
  lemma SortWithoutTies<T(!new)>(s: seq<T>, le: (T, T) -> bool, lt: (T, T) -> bool)
    requires TotalPreorder(le) && NoTies(s, le)
    requires forall x, y :: le(x, y) && !le(y, x) ==> lt(x, y)
    ensures StrictlySorted(Sort(s, le), lt)
    ensures forall x :: x in Sort(s, le) <==> x in s
  {
    SortSorts(s, le);
    SortKeepsElements(s, le);
    NoTiesInAnyOrder(s, Sort(s, le), le);
  }

  ghost predicate Transitive<T(!new)>(lt: (T, T) -> bool) {
    forall x, y, z :: lt(x, y) && lt(y, z) ==> lt(x, z)
  }

  /** Where a new element goes into a strictly sorted list. */
  lemma InsertionPoint<T(!new)>(r: seq<T>, b: T, lt: (T, T) -> bool) returns (p: nat)
    requires Transitive(lt) && StrictlySorted(r, lt)
    requires forall x :: x in r ==> lt(x, b) || lt(b, x)
    ensures p <= |r| && StrictlySorted(r[..p] + [b] + r[p..], lt)
    ensures forall i :: 0 <= i < p ==> lt(r[i], b)
    ensures forall i :: p <= i < |r| ==> lt(b, r[i])
  {
    p := 0;
    while p < |r| && lt(r[p], b)
      invariant p <= |r|
      invariant forall i :: 0 <= i < p ==> lt(r[i], b)
    {
      p := p + 1;
    }
    forall i | p <= i < |r| ensures lt(b, r[i]) {
      assert lt(b, r[p]);
    }
  }

  // ---------- increasing lists of naturals ----------

  ghost predicate Increasing(s: seq<nat>) {
    forall i, j :: 0 <= i < j < |s| ==> s[i] < s[j]
  }

  predicate AtMost(a: nat, b: nat) { a <= b }

  /** `dedup`: drops each element equal to the one before it. */
  function Dedup(s: seq<nat>): (r: seq<nat>) {
    if |s| < 2 then s
    else if s[0] == s[1] then Dedup(s[1..])
    else [s[0]] + Dedup(s[1..])
  }

  lemma {:induction false} DedupOfSorted(s: seq<nat>)
    requires Sorted(s, AtMost)
    ensures Increasing(Dedup(s))
    ensures forall x :: x in Dedup(s) <==> x in s
    ensures s != [] ==> Dedup(s) != [] && Dedup(s)[0] == s[0]
  {
    if |s| >= 2 {
      forall i, j | 0 <= i < j < |s[1..]| ensures AtMost(s[1..][i], s[1..][j]) {}
      DedupOfSorted(s[1..]);
      assert AtMost(s[0], s[1]);
      assert s == [s[0]] + s[1..];
    }
  }

  /** `sort_unstable` then `dedup` on ids: the increasing list of the ids present. */
  function SortDedup(ids: seq<nat>): (r: seq<nat>)
    ensures Increasing(r)
    ensures forall x :: x in r <==> x in ids
  {
    var sorted := Sort(ids, AtMost);
    SortSorts(ids, AtMost);
    SortKeepsElements(ids, AtMost);
    DedupOfSorted(sorted);
    Dedup(sorted)
  }

  predicate LessThan(a: nat, b: nat) { a < b }

  lemma IncreasingIsUnique(a: seq<nat>, b: seq<nat>)
    requires Increasing(a) && Increasing(b)
    requires forall x :: x in a <==> x in b
    ensures a == b
  {
    StrictlySortedIsUnique(a, b, LessThan);
  }
}
