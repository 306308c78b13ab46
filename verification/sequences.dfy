/** Element-wise translation of sequences, and how it commutes with sorting. */
module Sequences {
  import opened Model
  import opened Sorting

  function MapSeq<S, T>(s: seq<S>, f: S -> T): (r: seq<T>)
    ensures |r| == |s|
    ensures forall i | 0 <= i < |s| :: r[i] == f(s[i])
  {
    if s == [] then [] else [f(s[0])] + MapSeq(s[1..], f)
  }

  lemma MapSeqAppend<S, T>(s: seq<S>, x: S, f: S -> T)
    ensures MapSeq(s + [x], f) == MapSeq(s, f) + [f(x)]
  {}

  lemma MapSeqEmpty<S, T>(s: seq<S>, f: S -> T)
    requires s == []
    ensures MapSeq(s, f) == []
  {}

  lemma MapSeqInit<S, T>(s: seq<S>, f: S -> T)
    requires s != []
    ensures MapSeq(s, f) == MapSeq(s[..|s| - 1], f) + [f(s[|s| - 1])]
    ensures MapSeq(s, f)[..|s| - 1] == MapSeq(s[..|s| - 1], f)
  {
    hide MapSeq;
    SplitLast(s);
    MapSeqAppend(s[..|s| - 1], s[|s| - 1], f);
    DropLast(MapSeq(s[..|s| - 1], f), f(s[|s| - 1]));
  }

  lemma SplitLast<S>(s: seq<S>)
    requires s != []
    ensures s == s[..|s| - 1] + [s[|s| - 1]]
  {}

  lemma DropLast<S>(s: seq<S>, x: S)
    ensures (s + [x])[..|s|] == s
  {}

  /** `tuple(decode(item) for item in items)`: stops at the first item that fails. */
  function DecodeAll<P, T>(items: seq<P>, decode: P -> Result<T>): (r: Result<seq<T>>)
    ensures r.Ok? ==> |r.value| == |items| && forall i | 0 <= i < |items| :: decode(items[i]) == Ok(r.value[i])
  {
    if items == [] then Ok([])
    else
      var head :- decode(items[0]);
      var tail :- DecodeAll(items[1..], decode);
      Ok([head] + tail)
  }

  /** A list fails with the fault of the first item that fails. */
  lemma {:induction false} DecodeAllFails<P, T>(items: seq<P>, decode: P -> Result<T>, fault: Fault)
    ensures DecodeAll(items, decode) == Err(fault) <==> (
              exists i | 0 <= i < |items| ::
                decode(items[i]) == Err(fault) && forall k | 0 <= k < i :: decode(items[k]).Ok?)
  {
    if items != [] {
      var rest := items[1..];
      DecodeAllFails(rest, decode, fault);
      if decode(items[0]).Ok? {
        if i :| 0 <= i < |rest| && decode(rest[i]) == Err(fault) && forall k | 0 <= k < i :: decode(rest[k]).Ok? {
          assert decode(items[i + 1]) == Err(fault);
          forall k | 0 <= k < i + 1 ensures decode(items[k]).Ok? {
            if k > 0 { assert items[k] == rest[k - 1]; }
          }
        }
        if i :| 0 <= i < |items| && decode(items[i]) == Err(fault) && forall k | 0 <= k < i :: decode(items[k]).Ok? {
          assert decode(rest[i - 1]) == Err(fault) && forall k | 0 <= k < i - 1 :: rest[k] == items[k + 1];
        }
      }
    }
  }

  lemma {:induction false} DecodeAllOk<P, T>(items: seq<P>, decode: P -> Result<T>, values: seq<T>)
    requires |items| == |values| && forall i | 0 <= i < |items| :: decode(items[i]) == Ok(values[i])
    ensures DecodeAll(items, decode) == Ok(values)
  {
    if items != [] {
      DecodeAllOk(items[1..], decode, values[1..]);
      assert values == [values[0]] + values[1..];
    }
  }

  // ---------- Sorting translated rows ----------

  /** Does `f` carry the order `le` of `x` against `s` over to `le'`? */
  ghost predicate CarriesHead<S, T>(x: S, s: seq<S>, f: S -> T, le: (S, S) -> bool, le': (T, T) -> bool) {
    forall a | a in s :: le'(f(x), f(a)) == le(x, a)
  }

  ghost predicate Carries<S, T>(s: seq<S>, f: S -> T, le: (S, S) -> bool, le': (T, T) -> bool) {
    forall a, b | a in s && b in s :: le'(f(a), f(b)) == le(a, b)
  }

  lemma CarriesTail<S, T>(x: S, s: seq<S>, rest: seq<S>, f: S -> T, le: (S, S) -> bool, le': (T, T) -> bool)
    requires Carries(s, f, le, le') && x in s && forall a | a in rest :: a in s
    ensures CarriesHead(x, rest, f, le, le') && Carries(rest, f, le, le')
  {}

  lemma CarriesSame<S, T>(x: S, s: seq<S>, t: seq<S>, f: S -> T, le: (S, S) -> bool, le': (T, T) -> bool)
    requires CarriesHead(x, s, f, le, le') && forall a :: a in t <==> a in s
    ensures CarriesHead(x, t, f, le, le')
  {}

  lemma CarriesParts<S, T>(s: seq<S>, f: S -> T, le: (S, S) -> bool, le': (T, T) -> bool)
    requires s != [] && Carries(s, f, le, le')
    ensures Carries(s[1..], f, le, le')
    ensures CarriesHead(s[0], Sort(s[1..], le), f, le, le')
  {
    var rest := s[1..];
    SortElements(rest, le);
    assert s[0] in s && forall a | a in rest :: a in s;
    CarriesTail(s[0], s, rest, f, le, le');
    CarriesSame(s[0], rest, Sort(rest, le), f, le, le');
  }

  lemma {:induction false} InsertMapped<S, T>(x: S, s: seq<S>, f: S -> T, le: (S, S) -> bool, le': (T, T) -> bool)
    requires CarriesHead(x, s, f, le, le')
    ensures Insert(f(x), MapSeq(s, f), le') == MapSeq(Insert(x, s, le), f)
  {
    if s == [] || le(x, s[0]) {
      assert MapSeq([x] + s, f) == [f(x)] + MapSeq(s, f);
    } else {
      InsertMapped(x, s[1..], f, le, le');
      assert MapSeq(s, f)[1..] == MapSeq(s[1..], f);
    }
  }

  lemma SortStep<T>(s: seq<T>, le: (T, T) -> bool)
    ensures s == [] ==> Sort(s, le) == []
    ensures s != [] ==> Sort(s, le) == Insert(s[0], Sort(s[1..], le), le)
  {}

  /** Sorting rows by their text is sorting the values the rows stand for. */
  lemma {:induction false} SortMapped<S, T>(s: seq<S>, f: S -> T, le: (S, S) -> bool, le': (T, T) -> bool)
    requires Carries(s, f, le, le')
    ensures Sort(MapSeq(s, f), le') == MapSeq(Sort(s, le), f)
  {
    hide Sort, Insert, Carries, CarriesHead;
    SortStep(s, le);
    SortStep(MapSeq(s, f), le');
    if s != [] {
      CarriesParts(s, f, le, le');
      SortMapped(s[1..], f, le, le');
      InsertMapped(s[0], Sort(s[1..], le), f, le, le');
      assert MapSeq(s, f)[1..] == MapSeq(s[1..], f);
    }
  }
}
