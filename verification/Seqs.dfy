// Sorting by an order and joining chunks, for any kind of row.
module Seqs {

  /** leq is total and transitive. */
  ghost predicate Orders<T(!new)>(leq: (T, T) -> bool) {
    (forall a, b :: leq(a, b) || leq(b, a)) && (forall a, b, c :: leq(a, b) && leq(b, c) ==> leq(a, c))
  }

  ghost predicate SortedBy<T(!new)>(leq: (T, T) -> bool, xs: seq<T>) {
    forall i, j :: 0 <= i < j < |xs| ==> leq(xs[i], xs[j])
  }

  function Insert<T>(leq: (T, T) -> bool, x: T, xs: seq<T>): seq<T> {
    if xs == [] || leq(x, xs[0]) then [x] + xs else [xs[0]] + Insert(leq, x, xs[1..])
  }

  /** slices.SortFunc; equal elements keep their order, one of the results Go allows. */
  function Sort<T>(leq: (T, T) -> bool, xs: seq<T>): seq<T> {
    if xs == [] then [] else Insert(leq, xs[0], Sort(leq, xs[1..]))
  }

  ghost predicate First<T(!new)>(leq: (T, T) -> bool, first: T, xs: seq<T>) {
    forall k :: 0 <= k < |xs| ==> leq(first, xs[k])
  }

  lemma {:induction false} InsertKeepsFirst<T(!new)>(leq: (T, T) -> bool, first: T, x: T, xs: seq<T>)
    requires First(leq, first, xs) && leq(first, x)
    ensures First(leq, first, Insert(leq, x, xs))
  {
    if xs != [] && !leq(x, xs[0]) { InsertKeepsFirst(leq, first, x, xs[1..]); }
  }

  lemma {:induction false} InsertSorts<T(!new)>(leq: (T, T) -> bool, x: T, xs: seq<T>)
    requires Orders(leq) && SortedBy(leq, xs)
    ensures SortedBy(leq, Insert(leq, x, xs))
  {
    if xs != [] {
      if leq(x, xs[0]) {
        forall k | 0 <= k < |xs| ensures leq(x, xs[k]) { if k > 0 { assert leq(xs[0], xs[k]); } }
      } else {
        InsertSorts(leq, x, xs[1..]);
        InsertKeepsFirst(leq, xs[0], x, xs[1..]);
      }
    }
  }

  lemma {:induction false} InsertHolds<T>(leq: (T, T) -> bool, x: T, xs: seq<T>)
    ensures multiset(Insert(leq, x, xs)) == multiset(xs) + multiset{x} && |Insert(leq, x, xs)| == |xs| + 1
  {
    if xs != [] && !leq(x, xs[0]) {
      InsertHolds(leq, x, xs[1..]);
      assert xs == [xs[0]] + xs[1..];
    }
  }

  lemma {:induction false} SortHolds<T>(leq: (T, T) -> bool, xs: seq<T>)
    ensures multiset(Sort(leq, xs)) == multiset(xs) && |Sort(leq, xs)| == |xs|
  {
    if xs != [] {
      SortHolds(leq, xs[1..]);
      InsertHolds(leq, xs[0], Sort(leq, xs[1..]));
      assert xs == [xs[0]] + xs[1..];
    }
  }

  /** Sorting gives the same elements in order. */
  lemma {:induction false} SortSorts<T(!new)>(leq: (T, T) -> bool, xs: seq<T>)
    requires Orders(leq)
    ensures SortedBy(leq, Sort(leq, xs)) && multiset(Sort(leq, xs)) == multiset(xs) && |Sort(leq, xs)| == |xs|
  {
    SortHolds(leq, xs);
    if xs != [] {
      SortSorts(leq, xs[1..]);
      InsertSorts(leq, xs[0], Sort(leq, xs[1..]));
    }
  }

  /** A list whose neighbours are in order is left as it is. */
  lemma {:induction false} SortedStays<T>(leq: (T, T) -> bool, xs: seq<T>)
    requires forall k :: 0 <= k < |xs| - 1 ==> leq(xs[k], xs[k + 1])
    ensures Sort(leq, xs) == xs
  {
    if xs != [] {
      forall k | 0 <= k < |xs[1..]| - 1 ensures leq(xs[1..][k], xs[1..][k + 1]) {
        assert leq(xs[k + 1], xs[k + 2]);
      }
      SortedStays(leq, xs[1..]);
      if |xs| > 1 { assert leq(xs[0], xs[0 + 1]); }
    }
  }

  // ---------- Chunks ----------

  function Flat<T>(chunks: seq<seq<T>>): seq<T> {
    if chunks == [] then [] else chunks[0] + Flat(chunks[1..])
  }

  lemma {:induction false} FlatSnoc<T>(chunks: seq<seq<T>>, last: seq<T>)
    ensures Flat(chunks + [last]) == Flat(chunks) + last
  {
    if chunks == [] {
      assert [last][1..] == [];
    } else {
      assert (chunks + [last])[1..] == chunks[1..] + [last];
      FlatSnoc(chunks[1..], last);
    }
  }

  lemma {:induction false} FlatAppend<T>(a: seq<seq<T>>, b: seq<seq<T>>)
    ensures Flat(a + b) == Flat(a) + Flat(b)
  {
    if a == [] {
      assert a + b == b;
    } else {
      assert (a + b)[1..] == a[1..] + b;
      FlatAppend(a[1..], b);
    }
  }

  lemma FlatNil<T>(chunks: seq<seq<T>>)
    ensures chunks == [] ==> Flat(chunks) == []
  {
  }

  predicate AllFull<T>(chunks: seq<seq<T>>) { forall k :: 0 <= k < |chunks| ==> |chunks[k]| > 0 }

  lemma {:induction false} FlatEnds<T>(chunks: seq<seq<T>>)
    requires chunks != [] && AllFull(chunks)
    ensures |Flat(chunks)| > 0 && Flat(chunks)[0] == chunks[0][0]
    ensures |chunks[|chunks| - 1]| > 0
    ensures Flat(chunks)[|Flat(chunks)| - 1] == chunks[|chunks| - 1][|chunks[|chunks| - 1]| - 1]
  {
    if |chunks| > 1 {
      var rest := chunks[1..];
      var tail := Flat(rest);
      assert forall k :: 0 <= k < |rest| ==> rest[k] == chunks[k + 1];
      FlatEnds(rest);
      assert Flat(chunks) == chunks[0] + tail;
      assert rest[|rest| - 1] == chunks[|chunks| - 1];
      hide Flat;
    } else {
      assert Flat(chunks[1..]) == [];
    }
  }

  lemma {:induction false} FlatSizes<T>(chunks: seq<seq<T>>, k: nat)
    requires k < |chunks|
    ensures |chunks[k]| <= |Flat(chunks)|
  {
    if k > 0 { FlatSizes(chunks[1..], k - 1); }
  }

  lemma {:induction false} FullCount<T>(chunks: seq<seq<T>>)
    requires AllFull(chunks)
    ensures |chunks| <= |Flat(chunks)|
  {
    if chunks != [] {
      assert forall k :: 0 <= k < |chunks[1..]| ==> chunks[1..][k] == chunks[k + 1];
      FullCount(chunks[1..]);
    }
  }

  /** Some element. */
  ghost function Any<T(!new)>(s: set<T>): (x: T)
    requires s != {}
    ensures x in s
  {
    var x :| x in s; x
  }

  lemma SumSwap<T>(a: multiset<T>, b: multiset<T>, c: multiset<T>)
    ensures a + (b + c) == b + (a + c)
  {
  }
}
