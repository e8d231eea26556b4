// The adjacency index of the graph store: client/graphstore/store.go, lines 396-423.
//
// One shared slab of edge indices is cut into a window per endpoint; each window has exactly
// the room its endpoint needs, so filling them never runs over or reallocates.
module Adjacency {
  import opened SortedStrings
  import opened Seqs

  datatype Edge = Edge(from: string, to: string, rel: string, text: string, anchor: string, count: int)

  datatype Side = Incoming | Outgoing

  /** The endpoint an index list is keyed by. */
  function End(e: Edge, side: Side): string { if side.Incoming? then e.to else e.from }

  /** slab[lo..lo+len] in use, room up to lo+cap: a Go slice of the slab. */
  datatype Window = Window(lo: nat, len: nat, cap: nat)

  type Windows = map<string, Window>

  /** The ascending indices below n of edges with endpoint u. */
  function Indices(edges: seq<Edge>, side: Side, u: string, n: nat): (r: seq<nat>)
    requires n <= |edges|
  {
    if n == 0 then []
    else Indices(edges, side, u, n - 1) + if End(edges[n - 1], side) == u then [n - 1] else []
  }

  lemma IndicesStep(edges: seq<Edge>, side: Side, u: string, n: nat)
    requires n < |edges|
    ensures End(edges[n], side) == u ==> Indices(edges, side, u, n + 1) == Indices(edges, side, u, n) + [n]
    ensures End(edges[n], side) != u ==> Indices(edges, side, u, n + 1) == Indices(edges, side, u, n)
    ensures Indices(edges, side, u, 0) == []
  {
  }

  /** Exactly the edges with that endpoint. */
  lemma {:induction false} IndicesAre(edges: seq<Edge>, side: Side, u: string, n: nat)
    requires n <= |edges|
    ensures forall i :: i in Indices(edges, side, u, n) <==> 0 <= i < n && End(edges[i], side) == u
  {
    if n > 0 {
      IndicesAre(edges, side, u, n - 1);
      IndicesStep(edges, side, u, n - 1);
      hide Indices;
      var before := Indices(edges, side, u, n - 1);
      assert forall i :: i in before + [n - 1] <==> i in before || i == n - 1;
    }
  }

  ghost predicate Rising(s: seq<nat>) { forall a, b :: 0 <= a < b < |s| ==> s[a] < s[b] }

  /** In ascending order. */
  lemma {:induction false} IndicesAscend(edges: seq<Edge>, side: Side, u: string, n: nat)
    requires n <= |edges|
    ensures Rising(Indices(edges, side, u, n))
  {
    if n > 0 {
      IndicesAscend(edges, side, u, n - 1);
      IndicesAre(edges, side, u, n - 1);
      IndicesStep(edges, side, u, n - 1);
      hide Indices;
      var before := Indices(edges, side, u, n - 1);
      forall a | 0 <= a < |before| ensures before[a] < n - 1 { assert before[a] in before; }
    }
  }

  lemma {:induction false} NoIndices(edges: seq<Edge>, side: Side, u: string, n: nat)
    requires n <= |edges| && forall i :: 0 <= i < n ==> End(edges[i], side) != u
    ensures Indices(edges, side, u, n) == []
  {
    if n > 0 { NoIndices(edges, side, u, n - 1); }
  }

  lemma {:induction false} IndicesGrow(edges: seq<Edge>, side: Side, u: string, n: nat, m: nat)
    requires n <= m <= |edges|
    ensures |Indices(edges, side, u, n)| <= |Indices(edges, side, u, m)|
  {
    if n < m { IndicesGrow(edges, side, u, n, m - 1); }
  }

  // ---------- Counting ----------

  ghost function Total(counts: map<string, nat>): nat
    decreases counts.Keys
  {
    if counts == map[] then 0
    else
      var k := Any(counts.Keys);
      counts[k] + Total(counts - {k})
  }

  lemma {:induction false} TotalWithout(counts: map<string, nat>, k: string)
    requires k in counts
    ensures Total(counts) == counts[k] + Total(counts - {k})
    decreases counts.Keys
  {
    var j := Any(counts.Keys);
    if j != k {
      TotalWithout(counts - {j}, k);
      TotalWithout(counts - {k}, j);
      assert counts - {j} - {k} == counts - {k} - {j};
    }
  }

  lemma TotalOneMore(counts: map<string, nat>, k: string)
    ensures Total(counts[k := (if k in counts then counts[k] else 0) + 1]) == Total(counts) + 1
  {
    var now := counts[k := (if k in counts then counts[k] else 0) + 1];
    TotalWithout(now, k);
    if k in counts {
      TotalWithout(counts, k);
      assert now - {k} == counts - {k};
    } else {
      assert now - {k} == counts;
    }
  }

  /** counts is the number of edges per endpoint, for every endpoint that occurs. */
  ghost predicate Counted(counts: map<string, nat>, edges: seq<Edge>, side: Side, n: nat)
    requires n <= |edges|
  {
    && (forall u <- counts :: counts[u] == |Indices(edges, side, u, n)|)
    && (forall i :: 0 <= i < n ==> End(edges[i], side) in counts)
    && Total(counts) == n
  }

  lemma CountOne(counts: map<string, nat>, edges: seq<Edge>, side: Side, i: nat)
    requires i < |edges| && Counted(counts, edges, side, i)
    ensures var u := End(edges[i], side);
      Counted(counts[u := (if u in counts then counts[u] else 0) + 1], edges, side, i + 1)
  {
    hide Total;
    hide Indices;
    var u := End(edges[i], side);
    var now := counts[u := (if u in counts then counts[u] else 0) + 1];
    TotalOneMore(counts, u);
    if u !in counts { NoIndices(edges, side, u, i); }
    forall v <- now ensures now[v] == |Indices(edges, side, v, i + 1)| { IndicesStep(edges, side, v, i); }
  }

  // ---------- Windows ----------

  /** The windows lie side by side in [base, top) without overlap. */
  ghost predicate Cut(windows: Windows, base: nat, top: nat) {
    && (forall u <- windows :: base <= windows[u].lo && windows[u].lo + windows[u].cap <= top)
    && (forall u, v :: u in windows && v in windows && u != v ==>
          windows[u].lo + windows[u].cap <= windows[v].lo || windows[v].lo + windows[v].cap <= windows[u].lo)
  }

  /** After n edges each window holds its endpoint's indices so far. */
  ghost predicate Filled(slab: seq<nat>, windows: Windows, edges: seq<Edge>, side: Side, n: nat)
    requires n <= |edges|
  {
    && (forall u <- windows :: windows[u].lo + windows[u].cap <= |slab| && windows[u].len <= windows[u].cap)
    && (forall u <- windows :: windows[u].cap == |Indices(edges, side, u, |edges|)|)
    && (forall u <- windows :: slab[windows[u].lo..windows[u].lo + windows[u].len] == Indices(edges, side, u, n))
    && (forall i :: 0 <= i < |edges| ==> End(edges[i], side) in windows)
  }

  lemma NothingCounted(edges: seq<Edge>, side: Side)
    ensures Counted(map[], edges, side, 0)
  {
  }

  method CountEnds(edges: seq<Edge>, side: Side) returns (counts: map<string, nat>)
    ensures Counted(counts, edges, side, |edges|)
  {
    hide Total;
    counts := map[];
    NothingCounted(edges, side);
    hide Counted;
    for i := 0 to |edges|
      invariant Counted(counts, edges, side, i)
    {
      var u := End(edges[i], side);
      CountOne(counts, edges, side, i);
      counts := counts[u := (if u in counts then counts[u] else 0) + 1];
    }
  }

  lemma NothingCut(base: nat)
    ensures Cut(map[], base, base)
  {
  }

  lemma NothingTotal()
    ensures Total(map[]) == 0
  {
  }

  /** A window put on top of the others does not overlap them. */
  lemma CutNext(windows: Windows, u: string, base: nat, top: nat, cap: nat)
    requires Cut(windows, base, top) && base <= top && u !in windows
    ensures Cut(windows[u := Window(top, 0, cap)], base, top + cap)
  {
  }

  /** Carves an empty window per endpoint, in any order. */
  method Carve(counts: map<string, nat>, base: nat) returns (windows: Windows, top: nat)
    ensures top == base + Total(counts) && windows.Keys == counts.Keys
    ensures forall u <- windows :: windows[u].len == 0 && windows[u].cap == counts[u]
    ensures Cut(windows, base, top)
  {
    hide Total;
    hide Cut;
    windows, top := map[], base;
    var todo := counts.Keys;
    NothingCut(base);
    assert counts - (counts.Keys - todo) == counts;
    while todo != {}
      invariant todo <= counts.Keys && windows.Keys == counts.Keys - todo
      invariant top + Total(counts - (counts.Keys - todo)) == base + Total(counts)
      invariant forall u <- windows :: windows[u].len == 0 && windows[u].cap == counts[u]
      invariant Cut(windows, base, top) && base <= top
      decreases todo
    {
      var u :| u in todo;
      ghost var left := counts - (counts.Keys - todo);
      TotalWithout(left, u);
      assert left - {u} == counts - (counts.Keys - (todo - {u}));
      CutNext(windows, u, base, top, counts[u]);
      windows := windows[u := Window(top, 0, counts[u])];
      top := top + counts[u];
      todo := todo - {u};
    }
    assert counts - (counts.Keys - todo) == map[];
    NothingTotal();
  }

  /** append(windows[u], i): in place, because the window still has room. */
  method Append(slab: array<nat>, windows: Windows, u: string, i: nat) returns (now: Windows)
    requires u in windows && windows[u].lo + windows[u].cap <= slab.Length && windows[u].len < windows[u].cap
    modifies slab
    ensures now == Longer(windows, u)
    ensures slab[..] == old(slab[..])[windows[u].lo + windows[u].len := i]
  {
    var w := windows[u];
    slab[w.lo + w.len] := i;
    return windows[u := w.(len := w.len + 1)];
  }

  /** The window one append makes. */
  function Longer(windows: Windows, u: string): Windows
    requires u in windows
  {
    windows[u := windows[u].(len := windows[u].len + 1)]
  }

  /** There is room for edge n in its endpoint's window. */
  lemma RoomForOne(slab: seq<nat>, windows: Windows, edges: seq<Edge>, side: Side, n: nat)
    requires n < |edges| && Filled(slab, windows, edges, side, n)
    ensures var u := End(edges[n], side);
      u in windows && windows[u].len < windows[u].cap && windows[u].lo + windows[u].cap <= |slab|
  {
    var u := End(edges[n], side);
    var w := windows[u];
    IndicesGrow(edges, side, u, n + 1, |edges|);
    IndicesStep(edges, side, u, n);
    hide Indices;
    assert |slab[w.lo..w.lo + w.len]| == w.len;
  }

  lemma CutLonger(windows: Windows, u: string, base: nat, top: nat)
    requires Cut(windows, base, top) && u in windows && windows[u].len < windows[u].cap
    ensures Cut(Longer(windows, u), base, top)
    ensures base <= windows[u].lo + windows[u].len < top
  {
  }

  /** Appending edge n to its endpoint's window. */
  lemma FillOne(slab: seq<nat>, windows: Windows, edges: seq<Edge>, side: Side, n: nat, base: nat, top: nat)
    requires n < |edges| && Filled(slab, windows, edges, side, n) && Cut(windows, base, top)
    requires var u := End(edges[n], side);
      u in windows && windows[u].len < windows[u].cap && windows[u].lo + windows[u].cap <= |slab|
    ensures var u := End(edges[n], side);
      Filled(slab[windows[u].lo + windows[u].len := n], Longer(windows, u), edges, side, n + 1)
  {
    hide Indices;
    hide Cut;
    var u := End(edges[n], side);
    var after := slab[windows[u].lo + windows[u].len := n];
    var now := Longer(windows, u);
    forall v <- now ensures after[now[v].lo..now[v].lo + now[v].len] == Indices(edges, side, v, n + 1) {
      FilledAfter(slab, windows, edges, side, n, base, top, v);
    }
  }

  /** Each window of now holds its indices, given that of was did before the append. */
  lemma WindowAfter(slab: seq<nat>, windows: Windows, edges: seq<Edge>, side: Side, n: nat, base: nat, top: nat, v: string)
    requires n < |edges| && Cut(windows, base, top) && v in windows
    requires windows[v].lo + windows[v].cap <= |slab| && windows[v].len <= windows[v].cap
    requires slab[windows[v].lo..windows[v].lo + windows[v].len] == Indices(edges, side, v, n)
    requires var u := End(edges[n], side);
      u in windows && windows[u].len < windows[u].cap && windows[u].lo + windows[u].cap <= |slab|
    ensures var u := End(edges[n], side); var w := Longer(windows, u)[v];
      w.lo + w.len <= |slab| && slab[windows[u].lo + windows[u].len := n][w.lo..w.lo + w.len] == Indices(edges, side, v, n + 1)
  {
    hide Indices;
    hide Cut;
    var u := End(edges[n], side);
    IndicesStep(edges, side, v, n);
    if v != u { WindowKept(slab, windows, u, v, n, base, top); }
  }

  lemma FilledAfter(slab: seq<nat>, windows: Windows, edges: seq<Edge>, side: Side, n: nat, base: nat, top: nat, v: string)
    requires n < |edges| && Filled(slab, windows, edges, side, n) && Cut(windows, base, top) && v in windows
    requires var u := End(edges[n], side);
      u in windows && windows[u].len < windows[u].cap && windows[u].lo + windows[u].cap <= |slab|
    ensures var u := End(edges[n], side); var w := Longer(windows, u)[v];
      w.lo + w.len <= |slab| && slab[windows[u].lo + windows[u].len := n][w.lo..w.lo + w.len] == Indices(edges, side, v, n + 1)
  {
    hide Indices;
    hide Cut;
    hide Longer;
    WindowAfter(slab, windows, edges, side, n, base, top, v);
  }

  lemma WindowKept(slab: seq<nat>, windows: Windows, u: string, v: string, n: nat, base: nat, top: nat)
    requires u in windows && v in windows && windows[u].len < windows[u].cap && windows[v].len <= windows[v].cap
    requires windows[u].lo + windows[u].cap <= |slab| && windows[v].lo + windows[v].cap <= |slab|
    requires Cut(windows, base, top) && u != v
    ensures slab[windows[u].lo + windows[u].len := n][windows[v].lo..windows[v].lo + windows[v].len] ==
      slab[windows[v].lo..windows[v].lo + windows[v].len]
  {
  }

  /** A write outside a table's part of the slab leaves its windows alone. */
  lemma OtherSide(slab: seq<nat>, windows: Windows, edges: seq<Edge>, side: Side, n: nat, base: nat, top: nat, k: nat, x: nat)
    requires n <= |edges| && Filled(slab, windows, edges, side, n) && Cut(windows, base, top) && k < |slab|
    requires k < base || top <= k
    ensures Filled(slab[k := x], windows, edges, side, n)
  {
    forall u <- windows
      ensures slab[k := x][windows[u].lo..windows[u].lo + windows[u].len] == slab[windows[u].lo..windows[u].lo + windows[u].len]
    {
    }
  }

  class Store {
    var edges: seq<Edge>
    var indices: array<nat>
    var incoming: Windows
    var outgoing: Windows

    constructor (edges: seq<Edge>)
      ensures this.edges == edges && Indexed()
    {
      this.edges := edges;
      indices := new nat[0];
      incoming, outgoing := map[], map[];
      new;
      RebuildAdjacency();
    }

    /** What the slice of a table holds for u; absent keys are empty. */
    function Slice(windows: Windows, u: string): seq<nat>
      reads this, indices
      requires forall v <- windows :: windows[v].lo + windows[v].len <= indices.Length
    {
      if u in windows then indices[windows[u].lo..windows[u].lo + windows[u].len] else []
    }

    /** Both tables are complete, exact and apart, and fill the slab. */
    ghost predicate Indexed()
      reads this, indices
    {
      && indices.Length == 2 * |edges|
      && Cut(incoming, 0, |edges|) && Cut(outgoing, |edges|, 2 * |edges|)
      && (forall v <- incoming :: incoming[v].lo + incoming[v].len <= indices.Length && incoming[v].len == incoming[v].cap)
      && (forall v <- outgoing :: outgoing[v].lo + outgoing[v].len <= indices.Length && outgoing[v].len == outgoing[v].cap)
      && (forall u :: Slice(incoming, u) == Indices(edges, Incoming, u, |edges|))
      && (forall u :: Slice(outgoing, u) == Indices(edges, Outgoing, u, |edges|))
    }

    method RebuildAdjacency()
      modifies this
      ensures edges == old(edges) && fresh(indices) && Indexed()
    {
      hide Filled;
      hide Cut;
      hide Indices;
      hide Counted;
      hide Total;
      hide Full;
      var incomingCounts := CountEnds(edges, Incoming);
      var outgoingCounts := CountEnds(edges, Outgoing);
      var slab := new nat[2 * |edges|];
      var into, middle := Carve(incomingCounts, 0);
      var out, end := Carve(outgoingCounts, middle);
      CountTotal(incomingCounts, edges, Incoming);
      CountTotal(outgoingCounts, edges, Outgoing);
      StartEmpty(slab[..], into, incomingCounts, edges, Incoming, 0, middle);
      StartEmpty(slab[..], out, outgoingCounts, edges, Outgoing, middle, end);
      for i := 0 to |edges|
        invariant edges == old(edges)
        invariant Filled(slab[..], into, edges, Incoming, i) && Cut(into, 0, middle)
        invariant Filled(slab[..], out, edges, Outgoing, i) && Cut(out, middle, end)
      {
        into, out := AppendEdge(slab, into, out, edges, i, middle, end);
      }
      indices, incoming, outgoing := slab, into, out;
      FullWindows(slab[..], into, edges, Incoming);
      FullWindows(slab[..], out, edges, Outgoing);
      SlicesAre();
    }

    lemma SlicesAre()
      requires indices.Length == 2 * |edges|
      requires Full(indices[..], incoming, edges, Incoming) && Full(indices[..], outgoing, edges, Outgoing)
      requires Cut(incoming, 0, |edges|) && Cut(outgoing, |edges|, 2 * |edges|)
      ensures Indexed()
    {
      hide Indices;
      forall u ensures Slice(incoming, u) == Indices(edges, Incoming, u, |edges|) {
        assert Slot(indices[..], incoming, u) == Slice(incoming, u);
      }
      forall u ensures Slice(outgoing, u) == Indices(edges, Outgoing, u, |edges|) {
        assert Slot(indices[..], outgoing, u) == Slice(outgoing, u);
      }
    }
  }

  /** One edge goes to both tables; the two parts of the slab do not touch. */
  method AppendEdge(slab: array<nat>, into: Windows, out: Windows, edges: seq<Edge>, i: nat, ghost middle: nat, ghost end: nat)
    returns (into': Windows, out': Windows)
    requires i < |edges|
    requires Filled(slab[..], into, edges, Incoming, i) && Cut(into, 0, middle)
    requires Filled(slab[..], out, edges, Outgoing, i) && Cut(out, middle, end)
    modifies slab
    ensures Filled(slab[..], into', edges, Incoming, i + 1) && Cut(into', 0, middle)
    ensures Filled(slab[..], out', edges, Outgoing, i + 1) && Cut(out', middle, end)
  {
    hide Filled;
    hide Cut;
    into' := AppendEnd(slab, into, edges, Incoming, i, 0, middle, out, Outgoing, i, middle, end);
    out' := AppendEnd(slab, out, edges, Outgoing, i, middle, end, into', Incoming, i + 1, 0, middle);
  }

  /** Edge i goes to one table; the other, in a part of its own, is not disturbed. */
  method AppendEnd(slab: array<nat>, windows: Windows, edges: seq<Edge>, side: Side, i: nat, ghost base: nat, ghost top: nat,
                   ghost other: Windows, ghost otherSide: Side, ghost n: nat, ghost otherBase: nat, ghost otherTop: nat)
    returns (now: Windows)
    requires i < |edges| && n <= |edges| && (top <= otherBase || otherTop <= base)
    requires Filled(slab[..], windows, edges, side, i) && Cut(windows, base, top)
    requires Filled(slab[..], other, edges, otherSide, n) && Cut(other, otherBase, otherTop)
    modifies slab
    ensures Filled(slab[..], now, edges, side, i + 1) && Cut(now, base, top)
    ensures Filled(slab[..], other, edges, otherSide, n)
  {
    hide Filled;
    hide Cut;
    var u := End(edges[i], side);
    RoomForOne(slab[..], windows, edges, side, i);
    FillOne(slab[..], windows, edges, side, i, base, top);
    CutLonger(windows, u, base, top);
    OtherSide(slab[..], other, edges, otherSide, n, otherBase, otherTop, windows[u].lo + windows[u].len, i);
    now := Append(slab, windows, u, i);
  }

  lemma CountTotal(counts: map<string, nat>, edges: seq<Edge>, side: Side)
    requires Counted(counts, edges, side, |edges|)
    ensures Total(counts) == |edges|
  {
  }

  lemma StartEmpty(slab: seq<nat>, windows: Windows, counts: map<string, nat>, edges: seq<Edge>, side: Side, base: nat, top: nat)
    requires Counted(counts, edges, side, |edges|) && windows.Keys == counts.Keys
    requires forall u <- windows :: windows[u].len == 0 && windows[u].cap == counts[u]
    requires Cut(windows, base, top) && top <= |slab|
    ensures Filled(slab, windows, edges, side, 0)
  {
    hide Total;
  }

  /** What the slab holds for u; absent endpoints hold nothing. */
  function Slot(slab: seq<nat>, windows: Windows, u: string): seq<nat>
    requires forall v <- windows :: windows[v].lo + windows[v].len <= |slab|
  {
    if u in windows then slab[windows[u].lo..windows[u].lo + windows[u].len] else []
  }

  ghost predicate Full(slab: seq<nat>, windows: Windows, edges: seq<Edge>, side: Side) {
    && (forall u <- windows :: windows[u].len == windows[u].cap && windows[u].lo + windows[u].len <= |slab|)
    && (forall u :: Slot(slab, windows, u) == Indices(edges, side, u, |edges|))
  }

  lemma FullWindows(slab: seq<nat>, windows: Windows, edges: seq<Edge>, side: Side)
    requires Filled(slab, windows, edges, side, |edges|)
    ensures Full(slab, windows, edges, side)
  {
    hide Indices;
    forall u <- windows ensures windows[u].len == windows[u].cap {
      assert |slab[windows[u].lo..windows[u].lo + windows[u].len]| == windows[u].len;
    }
    forall u ensures Slot(slab, windows, u) == Indices(edges, side, u, |edges|) {
      if u !in windows { NoIndices(edges, side, u, |edges|); }
    }
  }
}
