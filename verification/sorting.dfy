/** Stable sorting, as `sorted` and ORDER BY do it, and facts that no order of the input can change. */
module Sorting {

  ghost predicate TotalOrder<T(!new)>(le: (T, T) -> bool) {
    && (forall a, b :: le(a, b) || le(b, a))
    && (forall a, b, c :: le(a, b) && le(b, c) ==> le(a, c))
  }

  ghost predicate SortedBy<T>(s: seq<T>, le: (T, T) -> bool) {
    forall i, j | 0 <= i < j < |s| :: le(s[i], s[j])
  }

  /** `x` goes before the first element it does not exceed. */
  function Insert<T>(x: T, s: seq<T>, le: (T, T) -> bool): (r: seq<T>)
    ensures multiset(r) == multiset{x} + multiset(s)
  {
    if s == [] || le(x, s[0]) then
      [x] + s
    else
      assert s == [s[0]] + s[1..];
      [s[0]] + Insert(x, s[1..], le)
  }

  function Sort<T>(s: seq<T>, le: (T, T) -> bool): (r: seq<T>)
    ensures multiset(r) == multiset(s)
    ensures |r| == |s|
  {
    if s == [] then []
    else
      var r := Insert(s[0], Sort(s[1..], le), le);
      assert s == [s[0]] + s[1..];
      assert |r| == |multiset(r)| && |s| == |multiset(s)|;
      r
  }

  lemma {:induction false} InsertSorted<T(!new)>(x: T, s: seq<T>, le: (T, T) -> bool)
    requires TotalOrder(le) && SortedBy(s, le)
    ensures SortedBy(Insert(x, s, le), le)
  {
    if s != [] && !le(x, s[0]) {
      InsertSorted(x, s[1..], le);
      var t := Insert(x, s[1..], le);
      forall k | 0 <= k < |t|
        ensures le(s[0], t[k])
      {
        assert t[k] in multiset(t);
        assert multiset(t) == multiset{x} + multiset(s[1..]);
        if t[k] != x {
          assert t[k] in s[1..];
        }
      }
    } else if s != [] {
      forall k | 0 <= k < |s| ensures le(x, s[k]) { assert le(s[0], s[k]); }
    }
  }

  lemma {:induction false} SortSorted<T(!new)>(s: seq<T>, le: (T, T) -> bool)
    requires TotalOrder(le)
    ensures SortedBy(Sort(s, le), le)
  {
    if s != [] {
      SortSorted(s[1..], le);
      InsertSorted(s[0], Sort(s[1..], le), le);
    }
  }

  /** Rows that are in order already stay where they are. */
  lemma {:induction false} SortKeepsSorted<T>(s: seq<T>, le: (T, T) -> bool)
    requires SortedBy(s, le)
    ensures Sort(s, le) == s
  {
    if s != [] {
      SortKeepsSorted(s[1..], le);
      assert |s| > 1 ==> le(s[0], s[1]);
    }
  }

  // ---------- Pairs ----------

  ghost predicate Pairwise<T>(s: seq<T>, r: (T, T) -> bool) {
    forall i, j | 0 <= i < |s| && 0 <= j < |s| && i != j :: r(s[i], s[j])
  }

  ghost predicate PairsOf<T(!new)>(m: multiset<T>, r: (T, T) -> bool) {
    forall x, y {:trigger r(x, y)} | multiset{x, y} <= m :: r(x, y)
  }

  lemma TwoPlaces<T>(s: seq<T>, x: T, y: T) returns (i: nat, j: nat)
    requires multiset{x, y} <= multiset(s)
    ensures i < |s| && j < |s| && i != j && s[i] == x && s[j] == y
  {
    assert multiset(s)[x] >= multiset{x, y}[x] && multiset(s)[y] >= multiset{x, y}[y];
    assert x in multiset(s) && y in multiset(s);
    i :| 0 <= i < |s| && s[i] == x;
    var rest := s[..i] + s[i + 1..];
    assert s == s[..i] + [s[i]] + s[i + 1..];
    assert multiset(s) == multiset(rest) + multiset{x};
    assert y in multiset(rest);
    var k :| 0 <= k < |rest| && rest[k] == y;
    j := if k < i then k else k + 1;
  }

  lemma TwoPlacesCount<T>(s: seq<T>, i: nat, j: nat)
    requires i < j < |s|
    ensures multiset{s[i], s[j]} <= multiset(s)
  {
    assert s == s[..i] + [s[i]] + s[i + 1..j] + [s[j]] + s[j + 1..];
    assert multiset(s) == multiset(s[..i]) + multiset{s[i]} + multiset(s[i + 1..j]) + multiset{s[j]} + multiset(s[j + 1..]);
  }

  /** A property of all pairs of places is a property of the multiset alone. */
  lemma PairwiseIsPairs<T(!new)>(s: seq<T>, r: (T, T) -> bool)
    ensures Pairwise(s, r) <==> PairsOf(multiset(s), r)
  {
    if Pairwise(s, r) {
      forall x, y | multiset{x, y} <= multiset(s) ensures r(x, y) {
        var i, j := TwoPlaces(s, x, y);
      }
    }
    if PairsOf(multiset(s), r) {
      forall i, j | 0 <= i < |s| && 0 <= j < |s| && i != j ensures r(s[i], s[j]) {
        if i < j { TwoPlacesCount(s, i, j); } else { TwoPlacesCount(s, j, i); }
        assert multiset{s[i], s[j]} == multiset{s[j], s[i]};
      }
    }
  }

  lemma PairwisePermuted<T(!new)>(s: seq<T>, t: seq<T>, r: (T, T) -> bool)
    requires multiset(s) == multiset(t)
    ensures Pairwise(s, r) <==> Pairwise(t, r)
  {
    PairwiseIsPairs(s, r);
    PairwiseIsPairs(t, r);
  }

  lemma SameElements<T>(s: seq<T>, t: seq<T>)
    requires multiset(s) == multiset(t)
    ensures |s| == |t|
    ensures forall x :: x in s <==> x in t
  {
    assert |s| == |multiset(s)| && |t| == |multiset(t)|;
    forall x ensures x in s <==> x in t {
      assert x in s <==> x in multiset(s);
      assert x in t <==> x in multiset(t);
    }
  }

  lemma WithoutOne<T>(s: seq<T>, k: nat)
    requires k < |s|
    ensures multiset(s[..k] + s[k + 1..]) == multiset(s) - multiset{s[k]}
  {
    assert s == s[..k] + [s[k]] + s[k + 1..];
    assert multiset(s) == multiset(s[..k] + s[k + 1..]) + multiset{s[k]};
  }

  /** The last element of one list taken out of both. */
  lemma RemoveBoth<T>(a: seq<T>, b: seq<T>) returns (k: nat)
    requires multiset(a) == multiset(b) && a != []
    ensures k < |b| && b[k] == a[|a| - 1]
    ensures multiset(a[..|a| - 1]) == multiset(b[..k] + b[k + 1..])
  {
    var n := |a| - 1;
    SameElements(a, b);
    assert a[n] in b;
    k :| 0 <= k < |b| && b[k] == a[n];
    WithoutOne(b, k);
    WithoutOne(a, n);
    assert a[..n] + a[n + 1..] == a[..n];
  }

  lemma SortElements<T>(s: seq<T>, le: (T, T) -> bool)
    ensures forall x :: x in Sort(s, le) <==> x in s
  {
    SameElements(Sort(s, le), s);
  }
}
