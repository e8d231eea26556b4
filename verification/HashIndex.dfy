// The content-hash index of a store: protocol/store/store.go, lines 271-413.
//
// Two maps and an XOR fingerprint are updated in place, one document at a time. Whatever the
// order of updates, they must be what a fresh build over the same documents would produce.
module HashIndex {
  import opened Wrappers
  import opened Text
  import opened SortedStrings
  import opened Seqs
  import opened Sha256
  import opened StoreFmt

  datatype IndexEntry = IndexEntry(hash: string, fold: bv128)

  /** A live document as a walk reports it. */
  datatype Doc = Doc(path: string, hash: string, version: nat)

  datatype Lookup = Found(path: string) | Missing | Incomplete

  /** The first sixteen bytes of SHA-256: any function. The canonical spelling of a path: likewise. */
  const First16: string -> bv128
  const CanonicalPath: string -> string

  /** The bytes one document contributes under: path, version and hash, kept apart by NUL. */
  function FoldInput(path: string, version: nat, hash: string): string {
    path + ['\0'] + (Itoa(version) + ['\0'] + hash)
  }

  function Fold(path: string, version: nat, hash: string): bv128 { First16(FoldInput(path, version, hash)) }

  /** Different documents are hashed from different bytes. */
  lemma FoldInputUnique(path: string, version: nat, hash: string, path': string, version': nat, hash': string)
    requires '\0' !in path && '\0' !in path' && FoldInput(path, version, hash) == FoldInput(path', version', hash')
    ensures path == path' && version == version' && hash == hash'
  {
    hide Itoa;
    hide Split;
    var rest, rest' := Itoa(version) + ['\0'] + hash, Itoa(version') + ['\0'] + hash';
    NulCut(path, rest, path', rest');
    assert '\0' !in Itoa(version) && '\0' !in Itoa(version');
    NulCut(Itoa(version), hash, Itoa(version'), hash');
    ItoaValue(version);
    ItoaValue(version');
  }

  lemma NulCut(a: string, b: string, a': string, b': string)
    requires '\0' !in a && '\0' !in a' && a + ['\0'] + b == a' + ['\0'] + b'
    ensures a == a' && b == b'
  {
    CutAfter(a, "\0", b);
    CutAfter(a', "\0", b');
  }

  // ---------- The fingerprint of a set of folds ----------

  function Xor(a: bv128, b: bv128): bv128 { a ^ b }

  /** The XOR of all values. */
  ghost function XorAll(folds: map<string, bv128>): bv128
    decreases folds.Keys
  {
    if folds == map[] then 0
    else
      var k := Any(folds.Keys);
      Xor(folds[k], XorAll(folds - {k}))
  }

  lemma XorSwap(a: bv128, b: bv128, c: bv128)
    ensures Xor(a, Xor(b, c)) == Xor(b, Xor(a, c))
    ensures Xor(a, Xor(a, c)) == c
    ensures Xor(a, b) == Xor(b, a)
  {
  }

  /** Any entry can be taken out first. */
  lemma {:induction false} XorWithout(k: string, folds: map<string, bv128>)
    requires k in folds
    ensures XorAll(folds) == Xor(folds[k], XorAll(folds - {k}))
    decreases folds.Keys
  {
    hide Xor;
    var j := Any(folds.Keys);
    if j != k {
      XorWithout(k, folds - {j});
      XorWithout(j, folds - {k});
      assert folds - {j} - {k} == folds - {k} - {j};
      XorSwap(folds[j], folds[k], XorAll(folds - {k} - {j}));
    }
  }

  // ---------- What the index holds ----------

  type Live = map<string, (string, nat)>

  function Folds(live: Live): map<string, bv128> { map p | p in live :: Fold(p, live[p].1, live[p].0) }

  function Entries(live: Live): map<string, IndexEntry> {
    map p | p in live :: IndexEntry(live[p].0, Fold(p, live[p].1, live[p].0))
  }

  /** hashIdx is the inverse of live: each hash in use, with its paths in ascending order. */
  ghost predicate Inverse(hashIdx: map<string, seq<string>>, live: Live) {
    && (forall h <- hashIdx :: hashIdx[h] != [] && Ascending(hashIdx[h]))
    && (forall h, p :: h in hashIdx && p in hashIdx[h] ==> p in live && live[p].0 == h)
    && (forall p <- live :: live[p].0 in hashIdx)
    && (forall p <- live :: p in hashIdx[live[p].0])
  }

  /** Exactly one inverse exists. */
  lemma InverseUnique(a: map<string, seq<string>>, b: map<string, seq<string>>, live: Live)
    requires Inverse(a, live) && Inverse(b, live)
    ensures a == b
  {
    forall h ensures h in a ==> h in b && a[h] == b[h] { if h in a { InverseAt(a, b, live, h); } }
    forall h ensures h in b ==> h in a { if h in b { InverseAt(b, a, live, h); } }
  }

  lemma InverseAt(a: map<string, seq<string>>, b: map<string, seq<string>>, live: Live, h: string)
    requires Inverse(a, live) && Inverse(b, live) && h in a
    ensures h in b && a[h] == b[h]
  {
    hide Ascending;
    var first := a[h][0];
    assert first in a[h] && first in live && live[first].0 == h;
    forall p ensures p in Elements(a[h]) <==> p in Elements(b[h]) {
      if p in a[h] { assert p in live && live[p].0 == h; }
      if p in b[h] { assert p in live && live[p].0 == h; }
    }
    AscendingUnique(a[h], b[h]);
  }

  class Index {
    var hashIdx: map<string, seq<string>>
    var pathIdx: map<string, IndexEntry>
    var digest: bv128
    var indexed: bool
    var hashErr: bool
    /** The documents indexed: path to content hash and version. */
    ghost var live: Live

    ghost predicate Valid()
      reads this
    {
      pathIdx == Entries(live) && Inverse(hashIdx, live) && digest == XorAll(Folds(live))
    }

    constructor ()
      ensures Valid() && live == map[] && !indexed && !hashErr
    {
      hashIdx, pathIdx, digest, indexed, hashErr, live := map[], map[], 0, false, false, map[];
      new;
      assert Folds(map[]) == map[];
    }

    /** XOR is its own inverse: the same call adds a fold and takes it out. */
    method XorDigest(fold: bv128)
      modifies `digest
      ensures digest == Xor(old(digest), fold)
    {
      digest := digest ^ fold;
    }

    method Unindex(reqPath: string)
      requires Valid()
      modifies `pathIdx, `hashIdx, `digest, `live
      ensures Valid() && live == old(live) - {reqPath}
    {
      hide Ascending;
      hide Entries;
      hide Folds;
      hide XorAll;
      hide Xor;
      hide LexLeq;
      hide Inverse;
      ghost var was := live;
      EntriesAre(was);
      if reqPath !in pathIdx {
        assert live - {reqPath} == live;
        return;
      }
      var entry := pathIdx[reqPath];
      pathIdx := pathIdx - {reqPath};
      XorDigest(entry.fold);
      FoldOut(was, reqPath);
      var hash := entry.hash;
      InverseHolds(hashIdx, was);
      var paths := hashIdx[hash];
      var i, found := BinarySearch(paths, reqPath);
      if found {
        RemoveAt(paths, i);
        paths := paths[..i] + paths[i + 1..];
      }
      live := live - {reqPath};
      if |paths| == 0 {
        ghost var before := hashIdx;
        hashIdx := hashIdx - {hash};
        DroppedInverse(before, was, reqPath);
      } else {
        ghost var before := hashIdx;
        hashIdx := hashIdx[hash := paths];
        ShrunkInverse(before, was, reqPath, paths);
      }
    }

    method IndexPath(reqPath: string, hash: string, version: nat)
      requires Valid()
      modifies `pathIdx, `hashIdx, `digest, `live
      ensures Valid() && live == old(live)[reqPath := (hash, version)]
    {
      hide Ascending;
      hide Entries;
      hide Folds;
      hide XorAll;
      hide Xor;
      hide LexLeq;
      hide Inverse;
      ghost var was := live;
      Unindex(reqPath);
      ghost var rest := live;
      var paths := if hash in hashIdx then hashIdx[hash] else [];
      NothingAscending();
      InverseHolds(hashIdx, rest);
      var i, found := BinarySearch(paths, reqPath);
      InsertAt(paths, i, reqPath);
      ghost var before := hashIdx;
      hashIdx := hashIdx[hash := paths[..i] + [reqPath] + paths[i..]];
      var entry := IndexEntry(hash, Fold(reqPath, version, hash));
      pathIdx := pathIdx[reqPath := entry];
      XorDigest(entry.fold);
      live := live[reqPath := (hash, version)];
      GrownInverse(before, rest, reqPath, hash, version, hashIdx[hash]);
      FoldIn(rest, reqPath, hash, version);
      assert live == was[reqPath := (hash, version)];
    }

    /** The smallest live path with the content, and why there is none. */
    method LookupHash(hash: string) returns (r: Lookup)
      requires Valid()
      ensures r.Found? ==> r.path in live && live[r.path].0 == hash
      ensures r.Found? ==> forall p <- live :: live[p].0 == hash ==> LexLeq(r.path, p)
      ensures !r.Found? ==> forall p <- live :: live[p].0 != hash
      ensures !r.Found? ==> (r.Incomplete? <==> hashErr)
    {
      hide LexLeq;
      if hash in hashIdx {
        var paths := hashIdx[hash];
        assert paths[0] in paths;
        forall p <- live | live[p].0 == hash ensures LexLeq(paths[0], p) {
          var k :| 0 <= k < |paths| && paths[k] == p;
          LexTotal(p, p);
          if k > 0 { assert Lt(paths[0], paths[k]); }
        }
        return Found(paths[0]);
      }
      return if hashErr then Incomplete else Missing;
    }

    method UpdateHashIndex(reqPath: string, body: string, version: nat)
      requires Valid()
      modifies `pathIdx, `hashIdx, `digest, `live
      ensures Valid() && live == old(live)[CanonicalPath(reqPath) := (ContentHash(body), version)]
    {
      IndexPath(CanonicalPath(reqPath), ContentHash(body), version);
    }

    method RemoveHashEntry(reqPath: string)
      requires Valid()
      modifies `pathIdx, `hashIdx, `digest, `live
      ensures Valid() && live == old(live) - {CanonicalPath(reqPath)}
    {
      Unindex(CanonicalPath(reqPath));
    }

    /** Starts over and indexes what the walk visits; failed means it could not read everything. */
    method BuildHashIndex(docs: seq<Doc>, failed: bool)
      modifies this
      ensures Valid() && live == LiveOf(docs) && indexed && hashErr == failed
    {
      hide Inverse;
      hide Entries;
      hashIdx, pathIdx, digest, live := map[], map[], 0, map[];
      indexed, hashErr := true, false;
      NothingIndexed();
      assert docs[..0] == [];
      for i := 0 to |docs|
        invariant Valid() && live == LiveOf(docs[..i]) && indexed && !hashErr
      {
        IndexPath(docs[i].path, docs[i].hash, docs[i].version);
        assert docs[..i + 1][..i] == docs[..i];
      }
      assert docs[..|docs|] == docs;
      hashErr := failed;
    }

    /** One value for the live documents, whatever led to them; nothing until the index has been built. */
    method Fingerprint() returns (r: Option<bv128>)
      requires Valid()
      ensures r == if indexed then Some(XorAll(Folds(live))) else None
    {
      return if indexed then Some(digest) else None;
    }
  }

  /** The documents of a walk; a later report of a path replaces an earlier one. */
  function LiveOf(docs: seq<Doc>): Live {
    if docs == [] then map[]
    else
      var last := docs[|docs| - 1];
      LiveOf(docs[..|docs| - 1])[last.path := (last.hash, last.version)]
  }

  lemma {:induction false} LiveOfHolds(docs: seq<Doc>)
    requires forall i, j :: 0 <= i < j < |docs| ==> docs[i].path != docs[j].path
    ensures forall d <- docs :: d.path in LiveOf(docs) && LiveOf(docs)[d.path] == (d.hash, d.version)
    ensures forall p <- LiveOf(docs) :: exists d <- docs :: d.path == p
  {
    if docs != [] {
      var n := |docs| - 1;
      LiveOfHolds(docs[..n]);
      assert docs == docs[..n] + [docs[n]];
      forall d <- docs ensures d.path in LiveOf(docs) && LiveOf(docs)[d.path] == (d.hash, d.version) {
        if d != docs[n] {
          assert d in docs[..n];
          var i :| 0 <= i < n && docs[..n][i] == d;
          assert docs[i].path != docs[n].path;
        }
      }
    }
  }

  /** Two walks over the same documents in any order index the same. */
  lemma WalkOrder(a: seq<Doc>, b: seq<Doc>)
    requires forall i, j :: 0 <= i < j < |a| ==> a[i].path != a[j].path
    requires forall i, j :: 0 <= i < j < |b| ==> b[i].path != b[j].path
    requires forall d :: d in a <==> d in b
    ensures LiveOf(a) == LiveOf(b)
  {
    LiveOfHolds(a);
    LiveOfHolds(b);
    forall p ensures p in LiveOf(a) <==> p in LiveOf(b) {
      if p in LiveOf(a) { var d :| d in a && d.path == p; assert d in b; }
      if p in LiveOf(b) { var d :| d in b && d.path == p; assert d in a; }
    }
    forall p <- LiveOf(a) ensures LiveOf(a)[p] == LiveOf(b)[p] {
      var d :| d in a && d.path == p;
    }
  }

  /**
   * The three fields are a function of the live documents: an index kept by any run of
   * updates and removals equals the one a fresh build makes, maps and fingerprint alike.
   */
  lemma SameDocumentsSameIndex(a: Index, b: Index)
    requires a.Valid() && b.Valid() && a.live == b.live
    ensures a.hashIdx == b.hashIdx && a.pathIdx == b.pathIdx && a.digest == b.digest
  {
    InverseUnique(a.hashIdx, b.hashIdx, a.live);
  }

  /**
   * A document that gets another version or another body moves the fingerprint, unless
   * SHA-256 gives the same sixteen bytes for two different inputs; a document that comes or
   * goes moves it unless those bytes are all zero.
   */
  lemma FingerprintMoves(live: Live, path: string, hash: string, version: nat)
    requires '\0' !in path
    ensures var now := live[path := (hash, version)];
      if path in live then
        (XorAll(Folds(now)) == XorAll(Folds(live)) <==>
          First16(FoldInput(path, version, hash)) == First16(FoldInput(path, live[path].1, live[path].0))) &&
        ((hash, version) != live[path] ==> FoldInput(path, version, hash) != FoldInput(path, live[path].1, live[path].0))
      else
        XorAll(Folds(now)) == XorAll(Folds(live)) <==> First16(FoldInput(path, version, hash)) == 0
  {
    hide Xor;
    hide XorAll;
    hide Itoa;
    hide FoldInput;
    var now := live[path := (hash, version)];
    var rest := XorAll(Folds(live - {path}));
    assert now - {path} == live - {path};
    FoldOut(now, path);
    var f := Fold(path, version, hash);
    XorCancels(XorAll(Folds(now)), f, rest);
    if path in live {
      FoldOut(live, path);
      XorCancels(XorAll(Folds(live)), Fold(path, live[path].1, live[path].0), rest);
      XorSame(rest, f, Fold(path, live[path].1, live[path].0));
      if FoldInput(path, version, hash) == FoldInput(path, live[path].1, live[path].0) {
        FoldInputUnique(path, version, hash, path, live[path].1, live[path].0);
      }
    } else {
      assert live - {path} == live;
      XorSame(rest, f, 0);
    }
  }

  lemma XorCancels(a: bv128, f: bv128, rest: bv128)
    requires Xor(a, f) == rest
    ensures a == Xor(rest, f)
  {
  }

  lemma XorSame(rest: bv128, f: bv128, g: bv128)
    ensures Xor(rest, f) == Xor(rest, g) <==> f == g
    ensures Xor(rest, 0) == rest
  {
    XorZero(rest);
    hide Xor;
    XorSwap(rest, 0, f);
    XorSwap(rest, 0, g);
  }

  lemma XorZero(a: bv128)
    ensures Xor(a, 0) == a
  {
  }

  // ---------- Steps ----------

  lemma EntriesAre(live: Live)
    ensures Entries(live).Keys == live.Keys
    ensures forall p <- live :: Entries(live)[p] == IndexEntry(live[p].0, Fold(p, live[p].1, live[p].0))
  {
  }

  lemma InverseHolds(hashIdx: map<string, seq<string>>, live: Live)
    requires Inverse(hashIdx, live)
    ensures forall h <- hashIdx :: Ascending(hashIdx[h])
    ensures forall h, p :: h in hashIdx && p in hashIdx[h] ==> p in live
    ensures forall p <- live :: live[p].0 in hashIdx
    ensures forall p <- live :: p in hashIdx[live[p].0]
  {
    hide Ascending;
  }

  lemma NothingAscending()
    ensures Ascending([])
  {
  }

  lemma NothingIndexed()
    ensures Entries(map[]) == map[] && Inverse(map[], map[]) && XorAll(Folds(map[])) == 0
  {
    assert Folds(map[]) == map[];
  }

  lemma FoldOut(live: Live, p: string)
    requires p in live
    ensures Xor(XorAll(Folds(live)), Fold(p, live[p].1, live[p].0)) == XorAll(Folds(live - {p}))
    ensures Entries(live) - {p} == Entries(live - {p})
  {
    hide Xor;
    var fold := Fold(p, live[p].1, live[p].0);
    XorWithout(p, Folds(live));
    assert Folds(live) - {p} == Folds(live - {p});
    XorSwap(fold, fold, XorAll(Folds(live - {p})));
    XorSwap(XorAll(Folds(live)), fold, 0);
  }

  lemma FoldIn(live: Live, p: string, hash: string, version: nat)
    requires p !in live
    ensures Xor(XorAll(Folds(live)), Fold(p, version, hash)) == XorAll(Folds(live[p := (hash, version)]))
    ensures Entries(live)[p := IndexEntry(hash, Fold(p, version, hash))] == Entries(live[p := (hash, version)])
  {
    hide Xor;
    hide XorAll;
    var now := live[p := (hash, version)];
    FoldOut(now, p);
    assert now - {p} == live;
    XorSwap(Fold(p, version, hash), XorAll(Folds(now)), 0);
    XorSwap(Fold(p, version, hash), XorAll(Folds(live)), 0);
    XorSwap(Fold(p, version, hash), Fold(p, version, hash), XorAll(Folds(now)));
  }

  lemma DroppedInverse(hashIdx: map<string, seq<string>>, live: Live, p: string)
    requires Inverse(hashIdx, live) && p in live
    requires forall q <- hashIdx[live[p].0] :: q == p
    ensures Inverse(hashIdx - {live[p].0}, live - {p})
  {
    hide Ascending;
  }

  lemma ShrunkInverse(hashIdx: map<string, seq<string>>, live: Live, p: string, paths: seq<string>)
    requires Inverse(hashIdx, live) && p in live && paths != [] && Ascending(paths)
    requires forall q :: q in paths <==> q in hashIdx[live[p].0] && q != p
    ensures Inverse(hashIdx[live[p].0 := paths], live - {p})
  {
    hide Ascending;
  }

  lemma GrownInverse(hashIdx: map<string, seq<string>>, live: Live, p: string, hash: string, version: nat, paths: seq<string>)
    requires Inverse(hashIdx, live) && p !in live && paths != [] && Ascending(paths)
    requires forall q :: q in paths <==> q == p || (hash in hashIdx && q in hashIdx[hash])
    ensures Inverse(hashIdx[hash := paths], live[p := (hash, version)])
  {
    hide Ascending;
  }
}
