/** The stable sort of a library call, by a strict order given as a function. */
module Sorting {
  /** Puts `x` before the first element that is not smaller. */
  function InsertBy<T>(x: T, s: seq<T>, less: (T, T) -> bool): seq<T> {
    if s == [] || !less(s[0], x) then [x] + s else [s[0]] + InsertBy(x, s[1..], less)
  }

  function SortBy<T>(s: seq<T>, less: (T, T) -> bool): seq<T> {
    if s == [] then [] else InsertBy(s[0], SortBy(s[1..], less), less)
  }

  ghost predicate SortedBy<T>(s: seq<T>, less: (T, T) -> bool) {
    forall i, j :: 0 <= i < j < |s| ==> !less(s[j], s[i])
  }

  /** Nothing in `s` is less than `x`. */
  ghost predicate First<T>(x: T, s: seq<T>, less: (T, T) -> bool) {
    forall k :: 0 <= k < |s| ==> !less(s[k], x)
  }

  /** `less` is asymmetric, and "not less" is transitive. */
  ghost predicate Orders<T(!new)>(less: (T, T) -> bool) {
    && (forall x, y :: less(x, y) ==> !less(y, x))
    && (forall x, y, z :: !less(y, x) && !less(z, y) ==> !less(z, x))
  }

  /** Distinct elements of `s` are comparable. */
  ghost predicate Separates<T>(less: (T, T) -> bool, s: seq<T>) {
    forall i, j :: 0 <= i < |s| && 0 <= j < |s| && s[i] != s[j] ==> less(s[i], s[j]) || less(s[j], s[i])
  }

  // ---------------------------------------------------------------- a permutation

  lemma {:induction false} InsertPermutes<T>(x: T, s: seq<T>, less: (T, T) -> bool)
    ensures multiset(InsertBy(x, s, less)) == multiset(s) + multiset{x}
  {
    if s != [] && less(s[0], x) {
      InsertPermutes(x, s[1..], less);
      assert s == [s[0]] + s[1..];
    }
  }

  lemma {:induction false} SortPermutes<T>(s: seq<T>, less: (T, T) -> bool)
    ensures multiset(SortBy(s, less)) == multiset(s)
  {
    if s != [] {
      SortPermutes(s[1..], less);
      InsertPermutes(s[0], SortBy(s[1..], less), less);
      assert s == [s[0]] + s[1..];
    }
  }

  // ---------------------------------------------------------------- sorted

  lemma SortedCons<T>(x: T, s: seq<T>, less: (T, T) -> bool)
    requires First(x, s, less) && SortedBy(s, less)
    ensures SortedBy([x] + s, less)
  {
    var all := [x] + s;
    forall i, j | 0 <= i < j < |all| ensures !less(all[j], all[i]) {
      assert all[j] == s[j - 1];
      if i > 0 {
        assert all[i] == s[i - 1];
      }
    }
  }

  lemma {:induction false} InsertStaysFirst<T>(h: T, x: T, s: seq<T>, less: (T, T) -> bool)
    requires First(h, s, less) && !less(x, h)
    ensures First(h, InsertBy(x, s, less), less)
  {
    if s != [] && less(s[0], x) {
      InsertStaysFirst(h, x, s[1..], less);
    }
  }

  lemma SortedIsFirst<T(!new)>(x: T, s: seq<T>, less: (T, T) -> bool)
    requires Orders(less) && SortedBy(s, less) && (s == [] || !less(s[0], x))
    ensures First(x, s, less)
  {
    forall k | 0 <= k < |s| ensures !less(s[k], x) {
      assert k > 0 ==> !less(s[k], s[0]);
    }
  }

  lemma SortedTail<T>(s: seq<T>, less: (T, T) -> bool)
    requires s != [] && SortedBy(s, less)
    ensures SortedBy(s[1..], less) && First(s[0], s[1..], less)
  {
    forall i, j | 0 <= i < j < |s[1..]| ensures !less(s[1..][j], s[1..][i]) {
      assert s[1..][j] == s[j + 1] && s[1..][i] == s[i + 1];
    }
  }

  lemma {:induction false} InsertSorts<T(!new)>(x: T, s: seq<T>, less: (T, T) -> bool)
    requires Orders(less) && SortedBy(s, less)
    ensures SortedBy(InsertBy(x, s, less), less)
  {
    if s != [] && less(s[0], x) {
      SortedTail(s, less);
      InsertSorts(x, s[1..], less);
      InsertStaysFirst(s[0], x, s[1..], less);
      SortedCons(s[0], InsertBy(x, s[1..], less), less);
    } else {
      SortedIsFirst(x, s, less);
      SortedCons(x, s, less);
    }
  }

  lemma {:induction false} SortSorts<T(!new)>(s: seq<T>, less: (T, T) -> bool)
    requires Orders(less)
    ensures SortedBy(SortBy(s, less), less)
  {
    if s != [] {
      SortSorts(s[1..], less);
      InsertSorts(s[0], SortBy(s[1..], less), less);
    }
  }

  // ---------------------------------------------------------------- only one arrangement

  lemma SharedElement<T>(a: seq<T>, b: seq<T>, i: nat) returns (k: nat)
    requires multiset(a) == multiset(b) && i < |a|
    ensures k < |b| && b[k] == a[i]
  {
    assert a[i] in multiset(a);
    k :| 0 <= k < |b| && b[k] == a[i];
  }

  lemma SameHead<T>(a: seq<T>, b: seq<T>, less: (T, T) -> bool)
    requires multiset(a) == multiset(b) && a != [] && b != []
    requires SortedBy(a, less) && SortedBy(b, less) && Separates(less, a)
    ensures a[0] == b[0]
  {
    var k := SharedElement(a, b, 0);
    var j := SharedElement(b, a, 0);
    assert k > 0 ==> !less(b[k], b[0]);
    assert j > 0 ==> !less(a[j], a[0]);
  }

  lemma TailMultiset<T>(s: seq<T>)
    requires s != []
    ensures multiset(s[1..]) == multiset(s) - multiset{s[0]}
  {
    assert s == [s[0]] + s[1..];
  }

  /** A multiset of pairwise comparable elements has one sorted arrangement. */
  lemma {:induction false} SortedUnique<T>(a: seq<T>, b: seq<T>, less: (T, T) -> bool)
    requires multiset(a) == multiset(b) && SortedBy(a, less) && SortedBy(b, less) && Separates(less, a)
    ensures a == b
  {
    assert |a| == |multiset(a)| == |multiset(b)| == |b|;
    if a != [] {
      SameHead(a, b, less);
      TailMultiset(a);
      TailMultiset(b);
      SortedTail(a, less);
      SortedTail(b, less);
      assert forall i :: 0 <= i < |a[1..]| ==> a[1..][i] == a[i + 1];
      SortedUnique(a[1..], b[1..], less);
    }
  }
}
