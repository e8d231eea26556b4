// Strictly ascending lists of strings, as Go keeps sorted slices and sorts map keys.
module SortedStrings {
  import opened Text
  import opened Seqs

  predicate Lt(a: string, b: string) { a != b && LexLeq(a, b) }

  ghost predicate Ascending(ks: seq<string>) { forall i, j :: 0 <= i < j < |ks| ==> Lt(ks[i], ks[j]) }

  function InsertKey(k: string, ks: seq<string>): seq<string> {
    if ks == [] || LexLeq(k, ks[0]) then [k] + ks else [ks[0]] + InsertKey(k, ks[1..])
  }

  function Elements(ks: seq<string>): set<string> { set k <- ks }

  lemma LtTransitive(a: string, b: string, c: string)
    requires Lt(a, b) && Lt(b, c)
    ensures Lt(a, c)
  {
    LexTransitive(a, b, c);
    LexTotal(a, b);
  }

  lemma {:induction false} InsertKeyElements(k: string, ks: seq<string>)
    ensures Elements(InsertKey(k, ks)) == Elements(ks) + {k}
  {
    hide LexLeq;
    if ks == [] || LexLeq(k, ks[0]) {
      assert InsertKey(k, ks) == [k] + ks;
    } else {
      InsertKeyElements(k, ks[1..]);
      assert ks == [ks[0]] + ks[1..];
      var rest := InsertKey(k, ks[1..]);
      assert InsertKey(k, ks) == [ks[0]] + rest;
      forall x ensures x in [ks[0]] + rest <==> x == ks[0] || x in Elements(rest) {}
    }
  }

  lemma {:induction false} InsertKeySorts(k: string, ks: seq<string>)
    requires Ascending(ks) && k !in ks
    ensures Ascending(InsertKey(k, ks)) && Elements(InsertKey(k, ks)) == Elements(ks) + {k}
  {
    hide LexLeq;
    InsertKeyElements(k, ks);
    if ks == [] {
    } else if LexLeq(k, ks[0]) {
      assert Lt(k, ks[0]);
      forall i | 0 < i < |ks| ensures Lt(k, ks[i]) { LtTransitive(k, ks[0], ks[i]); }
    } else {
      LexTotal(k, ks[0]);
      InsertKeySorts(k, ks[1..]);
      var rest := InsertKey(k, ks[1..]);
      forall i | 0 <= i < |rest| ensures Lt(ks[0], rest[i]) {
        assert rest[i] in Elements(rest);
        assert rest[i] == k || rest[i] in ks[1..];
      }
    }
  }

  /** An ascending list is determined by its elements. */
  lemma {:induction false} AscendingUnique(a: seq<string>, b: seq<string>)
    requires Ascending(a) && Ascending(b) && Elements(a) == Elements(b)
    ensures a == b
  {
    hide LexLeq;
    NoElements(a);
    NoElements(b);
    if a != [] {
      assert a[0] in Elements(a) && b[0] in Elements(b);
      var i :| 0 <= i < |b| && b[i] == a[0];
      var j :| 0 <= j < |a| && a[j] == b[0];
      LexTotal(a[0], b[0]);
      assert a[0] == b[0];
      forall k ensures k in Elements(a[1..]) <==> k in Elements(a) && k != a[0] { TailElements(a, k); }
      forall k ensures k in Elements(b[1..]) <==> k in Elements(b) && k != b[0] { TailElements(b, k); }
      AscendingUnique(a[1..], b[1..]);
    }
  }

  lemma NoElements(ks: seq<string>)
    ensures Elements(ks) == {} <==> ks == []
  {
    if ks != [] { assert ks[0] in Elements(ks); }
  }

  lemma TailElements(ks: seq<string>, k: string)
    requires Ascending(ks) && ks != []
    ensures k in Elements(ks[1..]) <==> k in Elements(ks) && k != ks[0]
  {
    if k in ks[1..] { var i :| 0 <= i < |ks[1..]| && ks[1..][i] == k; assert ks[i + 1] == k && Lt(ks[0], ks[i + 1]); }
    if k in ks && k != ks[0] { var i :| 0 <= i < |ks| && ks[i] == k; assert ks[1..][i - 1] == k; }
  }

  /** The keys in ascending order. */
  ghost function Sorted(keys: set<string>): (ks: seq<string>)
    ensures Ascending(ks) && Elements(ks) == keys
  {
    if keys == {} then []
    else
      var k := Any(keys);
      var rest := Sorted(keys - {k});
      assert k !in Elements(rest);
      InsertKeySorts(k, rest);
      InsertKey(k, rest)
  }

  lemma {:induction false} AscendingCount(ks: seq<string>)
    requires Ascending(ks)
    ensures |Elements(ks)| == |ks|
  {
    hide LexLeq;
    NoElements(ks);
    if ks != [] {
      forall j ensures j in Elements(ks[1..]) <==> j in Elements(ks) && j != ks[0] { TailElements(ks, j); }
      AscendingCount(ks[1..]);
      assert ks[0] in Elements(ks) && Elements(ks) == Elements(ks[1..]) + {ks[0]};
    }
  }

  /** slices.BinarySearch: where target is, or where it belongs. */
  method BinarySearch(paths: seq<string>, target: string) returns (i: nat, found: bool)
    requires Ascending(paths)
    ensures i <= |paths| && (forall j :: 0 <= j < i ==> Lt(paths[j], target))
    ensures forall j :: i <= j < |paths| ==> LexLeq(target, paths[j])
    ensures found <==> target in paths
    ensures found ==> i < |paths| && paths[i] == target
  {
    hide LexLeq;
    i := 0;
    var hi := |paths|;
    while i < hi
      invariant i <= hi <= |paths|
      invariant forall j :: 0 <= j < i ==> Lt(paths[j], target)
      invariant forall j :: hi <= j < |paths| ==> LexLeq(target, paths[j])
    {
      var mid := (i + hi) / 2;
      LexTotal(target, paths[mid]);
      if LexLeq(target, paths[mid]) {
        forall j | mid <= j < |paths| ensures LexLeq(target, paths[j]) {
          if j > mid { LexTransitive(target, paths[mid], paths[j]); }
        }
        hi := mid;
      } else {
        forall j | 0 <= j <= mid ensures Lt(paths[j], target) {
          if j < mid { LtTransitive(paths[j], paths[mid], target); }
        }
        i := mid + 1;
      }
    }
    found := i < |paths| && paths[i] == target;
    if target in paths {
      var k :| 0 <= k < |paths| && paths[k] == target;
      if i < k {
        assert LexLeq(target, paths[i]) && Lt(paths[i], paths[k]);
        LexTotal(target, paths[i]);
      }
    }
  }

  lemma InsertAt(paths: seq<string>, i: nat, p: string)
    requires Ascending(paths) && i <= |paths| && p !in paths
    requires forall j :: 0 <= j < i ==> Lt(paths[j], p)
    requires forall j :: i <= j < |paths| ==> LexLeq(p, paths[j])
    ensures Ascending(paths[..i] + [p] + paths[i..])
    ensures forall q :: q in paths[..i] + [p] + paths[i..] <==> q == p || q in paths
  {
    hide LexLeq;
    var now := paths[..i] + [p] + paths[i..];
    assert paths == paths[..i] + paths[i..];
    forall a, b | 0 <= a < b < |now| ensures Lt(now[a], now[b]) {
      if a == i { assert paths[b - 1] in paths; }
    }
  }

  lemma RemoveAt(paths: seq<string>, i: nat)
    requires Ascending(paths) && i < |paths|
    ensures Ascending(paths[..i] + paths[i + 1..])
    ensures forall q :: q in paths[..i] + paths[i + 1..] <==> q in paths && q != paths[i]
  {
    hide LexLeq;
    assert paths == paths[..i] + [paths[i]] + paths[i + 1..];
    var left := paths[..i] + paths[i + 1..];
    forall q | q in left ensures q != paths[i] {
      if q in paths[..i] {
        var a :| 0 <= a < i && paths[..i][a] == q;
        assert Lt(paths[a], paths[i]);
      } else {
        var a :| 0 <= a < |paths[i + 1..]| && paths[i + 1..][a] == q;
        assert Lt(paths[i], paths[i + 1 + a]);
      }
    }
  }
}
