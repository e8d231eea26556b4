// Cutting a graph snapshot into shards: client/graphstore/snapshot.go, lines 183-470.
//
// Rows are sorted and packed greedily. The longest run that fits is found by doubling and
// bisection, which is right because a shard only grows when rows are added to it.
module Snapshot {
  import opened Wrappers
  import opened Text
  import opened Seqs

  datatype Kind = NodeRows | EdgeRows

  /** A node or edge: its sort key, its JSON, and whether its URLs and observation are valid. */
  datatype Row = Row(key: seq<string>, json: string, urlsValid: bool, valid: bool)

  datatype Artifact = Artifact(kind: Kind, part: nat, body: string, rows: nat, bytes: nat)

  const SHARD_FORMAT := "demarkus-graph-snapshot-shard/v2"
  const JSON_FENCE := "\n```json\n"
  const JSON_FENCE_END := "\n```\n"
  const DEFAULT_SHARD_BYTES := 768 * 1024
  const MAX_BODY_LENGTH := 1024 * 1024
  const MAX_NODES := 1_000_000
  const MAX_EDGES := 1_000_000
  const MAX_SHARDS := 4096

  /** links.CanonicalURL applied to the URLs of a row. */
  const Canonical: Row -> Row
  const ValidManifestPath: string -> bool

  // ---------- Shard text ----------

  function KindName(kind: Kind): string { if kind.NodeRows? then "nodes" else "edges" }

  function JsonList(rows: seq<Row>): string {
    if rows == [] then ""
    else if |rows| == 1 then rows[0].json
    else rows[0].json + "," + JsonList(rows[1..])
  }

  function Header(kind: Kind, part: nat, nodes: nat, edges: nat): string {
    "# Graph Snapshot Shard\n\n> Format: " + SHARD_FORMAT + "\n> Kind: " + KindName(kind) + "\n> Part: " + Itoa(part) +
    ("\n> Nodes: " + Itoa(nodes)) + ("\n> Edges: " + Itoa(edges)) + "\n"
  }

  function Body(kind: Kind, part: nat, rows: seq<Row>): string {
    var nodes := if kind.NodeRows? then |rows| else 0;
    var edges := if kind.EdgeRows? then |rows| else 0;
    Header(kind, part, nodes, edges) + (JSON_FENCE + "{\"" + KindName(kind) + "\":[") + JsonList(rows) + ("]}" + JSON_FENCE_END)
  }

  function Bytes(kind: Kind, part: nat, rows: seq<Row>): nat { Len(Body(kind, part, rows)) }

  function ShardOf(kind: Kind, part: nat, rows: seq<Row>): Artifact {
    Artifact(kind, part, Body(kind, part, rows), |rows|, Bytes(kind, part, rows))
  }

  lemma {:induction false} JsonGrows(rows: seq<Row>, n: nat)
    requires 1 <= n <= |rows|
    ensures Len(JsonList(rows[..n])) <= Len(JsonList(rows))
  {
    var some := rows[..n];
    if n > 1 {
      JsonGrows(rows[1..], n - 1);
      assert some[1..] == rows[1..][..n - 1];
      LenAppend(rows[0].json + ",", JsonList(some[1..]));
      LenAppend(rows[0].json + ",", JsonList(rows[1..]));
    } else if |rows| > 1 {
      LenAppend(rows[0].json, "," + JsonList(rows[1..]));
      assert rows[0].json + "," + JsonList(rows[1..]) == rows[0].json + ("," + JsonList(rows[1..]));
    } else {
      assert some == rows;
    }
  }

  lemma HeaderGrows(kind: Kind, part: nat, nodes: nat, edges: nat, nodes': nat, edges': nat)
    requires nodes <= nodes' && edges <= edges'
    ensures Len(Header(kind, part, nodes, edges)) <= Len(Header(kind, part, nodes', edges'))
  {
    hide Len;
    hide Itoa;
    ItoaMonotone(nodes, nodes');
    ItoaMonotone(edges, edges');
    var start := "# Graph Snapshot Shard\n\n> Format: " + SHARD_FORMAT + "\n> Kind: " + KindName(kind) + "\n> Part: " + Itoa(part);
    HeaderLen(start, nodes, edges);
    HeaderLen(start, nodes', edges');
  }

  lemma HeaderLen(start: string, nodes: nat, edges: nat)
    ensures Len(start + ("\n> Nodes: " + Itoa(nodes)) + ("\n> Edges: " + Itoa(edges)) + "\n") ==
      Len(start) + Len("\n> Nodes: ") + Len(Itoa(nodes)) + Len("\n> Edges: ") + Len(Itoa(edges)) + Len("\n")
  {
    hide Len;
    hide Itoa;
    LenAppend("\n> Nodes: ", Itoa(nodes));
    LenAppend("\n> Edges: ", Itoa(edges));
    LenAppend(start, "\n> Nodes: " + Itoa(nodes));
    LenAppend(start + ("\n> Nodes: " + Itoa(nodes)), "\n> Edges: " + Itoa(edges));
    LenAppend(start + ("\n> Nodes: " + Itoa(nodes)) + ("\n> Edges: " + Itoa(edges)), "\n");
  }

  lemma BodyLen(kind: Kind, part: nat, rows: seq<Row>)
    ensures Bytes(kind, part, rows) ==
      Len(Header(kind, part, if kind.NodeRows? then |rows| else 0, if kind.EdgeRows? then |rows| else 0)) +
      Len(JSON_FENCE + "{\"" + KindName(kind) + "\":[") + Len(JsonList(rows)) + Len("]}" + JSON_FENCE_END)
  {
    hide Len;
    hide Header;
    hide JsonList;
    var h := Header(kind, part, if kind.NodeRows? then |rows| else 0, if kind.EdgeRows? then |rows| else 0);
    var open := JSON_FENCE + "{\"" + KindName(kind) + "\":[";
    LenAppend(h, open);
    LenAppend(h + open, JsonList(rows));
    LenAppend(h + open + JsonList(rows), "]}" + JSON_FENCE_END);
  }

  /** More rows never make a shard smaller: the counts' digits and the row list both only grow. */
  lemma ShardGrows(kind: Kind, part: nat, rows: seq<Row>, n: nat)
    requires 1 <= n <= |rows|
    ensures Bytes(kind, part, rows[..n]) <= Bytes(kind, part, rows)
  {
    hide Len;
    hide Header;
    hide JsonList;
    hide Bytes;
    BodyLen(kind, part, rows[..n]);
    BodyLen(kind, part, rows);
    JsonGrows(rows, n);
    if kind.NodeRows? { HeaderGrows(kind, part, n, 0, |rows|, 0); } else { HeaderGrows(kind, part, 0, n, 0, |rows|); }
  }

  // ---------- The longest run that fits ----------

  predicate Fits(kind: Kind, part: nat, rows: seq<Row>, start: nat, end: nat, target: int)
    requires start <= end <= |rows|
  {
    Bytes(kind, part, rows[start..end]) <= target
  }

  lemma FitsDown(kind: Kind, part: nat, rows: seq<Row>, start: nat, end: nat, less: nat, target: int)
    requires start < less <= end <= |rows| && Fits(kind, part, rows, start, end, target)
    ensures Fits(kind, part, rows, start, less, target)
  {
    hide Bytes;
    ShardGrows(kind, part, rows[start..end], less - start);
    assert rows[start..end][..less - start] == rows[start..less];
  }

  predicate AllValid(rows: seq<Row>) { forall r <- rows :: r.urlsValid && r.valid }

  method BuildArtifact(kind: Kind, part: nat, rows: seq<Row>) returns (r: Result<Artifact>)
    ensures r.Ok? <==> AllValid(rows)
    ensures r.Ok? ==> r.value == ShardOf(kind, part, rows)
  {
    for i := 0 to |rows|
      invariant AllValid(rows[..i])
    {
      assert rows[i] in rows && rows[..i + 1] == rows[..i] + [rows[i]];
      if !rows[i].urlsValid || !rows[i].valid { return Err("invalid row"); }
    }
    assert rows[..|rows|] == rows;
    return Ok(ShardOf(kind, part, rows));
  }

  /** The longest run from start within target: doubling finds a range, bisection the end. */
  method LargestShard(kind: Kind, rows: seq<Row>, start: nat, part: nat, target: int)
    returns (r: Result<(nat, Artifact)>)
    requires start < |rows|
    ensures r.Ok? ==> start < r.value.0 <= |rows| && r.value.1 == ShardOf(kind, part, rows[start..r.value.0])
    ensures r.Ok? ==> AllValid(rows[start..r.value.0])
    ensures r.Ok? ==> forall e :: start < e <= |rows| ==> (Fits(kind, part, rows, start, e, target) <==> e <= r.value.0)
    ensures r.Err? ==> !AllValid(rows) || !Fits(kind, part, rows, start, start + 1, target)
  {
    hide AllValid;
    hide Bytes;
    hide Fits;
    var bestEnd := start + 1;
    var built := BuildArtifact(kind, part, rows[start..bestEnd]);
    PartValid(rows, start, bestEnd);
    if built.Err? { return Err(built.error); }
    var best := built.value;
    FitsIs(kind, part, rows, start, bestEnd, target);
    if best.bytes > target { return Err("one row exceeds shard target"); }
    var high := bestEnd;
    while bestEnd < |rows|
      invariant start < bestEnd <= |rows| && best == ShardOf(kind, part, rows[start..bestEnd])
      invariant AllValid(rows[start..bestEnd]) && Fits(kind, part, rows, start, bestEnd, target)
      invariant high <= bestEnd
    {
      var probeEnd := if start + 2 * (bestEnd - start) < |rows| then start + 2 * (bestEnd - start) else |rows|;
      built := BuildArtifact(kind, part, rows[start..probeEnd]);
      PartValid(rows, start, probeEnd);
      if built.Err? { return Err(built.error); }
      FitsIs(kind, part, rows, start, probeEnd, target);
      if built.value.bytes > target {
        high := probeEnd - 1;
        break;
      }
      bestEnd, best := probeEnd, built.value;
    }
    var low := bestEnd + 1;
    assert bestEnd == |rows| || (bestEnd <= high < |rows| && !Fits(kind, part, rows, start, high + 1, target));
    while low <= high
      invariant start < bestEnd < low && bestEnd <= |rows| && best == ShardOf(kind, part, rows[start..bestEnd])
      invariant AllValid(rows[start..bestEnd]) && Fits(kind, part, rows, start, bestEnd, target)
      invariant low == bestEnd + 1 && high <= |rows|
      invariant bestEnd == |rows| || (start < bestEnd <= high < |rows| && !Fits(kind, part, rows, start, high + 1, target))
      decreases high - low
    {
      var mid := low + (high - low) / 2;
      built := BuildArtifact(kind, part, rows[start..mid]);
      PartValid(rows, start, mid);
      if built.Err? { return Err(built.error); }
      FitsIs(kind, part, rows, start, mid, target);
      if built.value.bytes <= target {
        bestEnd, best, low := mid, built.value, mid + 1;
      } else {
        high := mid - 1;
      }
    }
    forall e | start < e <= |rows| ensures Fits(kind, part, rows, start, e, target) <==> e <= bestEnd {
      if e <= bestEnd { FitsDown(kind, part, rows, start, bestEnd, e, target); }
      else if Fits(kind, part, rows, start, e, target) { FitsDown(kind, part, rows, start, e, bestEnd + 1, target); }
    }
    return Ok((bestEnd, best));
  }

  lemma PartValid(rows: seq<Row>, start: nat, end: nat)
    requires start <= end <= |rows|
    ensures AllValid(rows) ==> AllValid(rows[start..end])
  {
    assert forall r <- rows[start..end] :: r in rows;
  }

  lemma FitsIs(kind: Kind, part: nat, rows: seq<Row>, start: nat, end: nat, target: int)
    requires start <= end <= |rows|
    ensures Fits(kind, part, rows, start, end, target) <==> ShardOf(kind, part, rows[start..end]).bytes <= target
  {
  }

  // ---------- All shards of one kind ----------

  /** Numbered from 0, within the target, tiling the rows, each as long as it can be. */
  ghost predicate IsSharding(arts: seq<Artifact>, chunks: seq<seq<Row>>, kind: Kind, rows: seq<Row>, target: int) {
    && |arts| == |chunks| && Flat(chunks) == rows && AllFull(chunks)
    && (forall k :: 0 <= k < |arts| ==>
          arts[k] == ShardOf(kind, k, chunks[k]) && arts[k].bytes <= target && AllValid(chunks[k]))
    && (forall k :: 0 <= k < |arts| - 1 ==> NoRoom(kind, k, chunks[k], chunks[k + 1], target))
  }

  /** The next shard's first row would not have fitted. */
  predicate NoRoom(kind: Kind, part: nat, chunk: seq<Row>, next: seq<Row>, target: int) {
    |next| > 0 && Bytes(kind, part, chunk + [next[0]]) > target
  }

  /** Why a build fails: an invalid row, or a row too long for the shard it would open. */
  ghost predicate Refused(kind: Kind, rows: seq<Row>, target: int) {
    !AllValid(rows) || exists r <- rows, part: nat :: Bytes(kind, part, [r]) > target
  }

  method BuildKind(kind: Kind, rows: seq<Row>, target: int) returns (r: Result<seq<Artifact>>, ghost chunks: seq<seq<Row>>)
    ensures r.Ok? ==> IsSharding(r.value, chunks, kind, rows, target)
    ensures r.Err? ==> Refused(kind, rows, target)
  {
    hide Fits;
    hide Bytes;
    hide AllValid;
    hide Flat;
    var artifacts: seq<Artifact> := [];
    chunks := [];
    var start := 0;
    FlatNil(chunks);
    while start < |rows|
      invariant 0 <= start <= |rows|
      invariant IsSharding(artifacts, chunks, kind, rows[..start], target)
      invariant artifacts != [] && start < |rows| ==>
        NoRoom(kind, |artifacts| - 1, chunks[|artifacts| - 1], rows[start..], target)
    {
      hide IsSharding;
      hide NoRoom;
      var part := |artifacts|;
      var shard := LargestShard(kind, rows, start, part, target);
      if shard.Err? {
        TooLong(kind, rows, start, part, target);
        return Err(shard.error), chunks;
      }
      var (end, artifact) := shard.value;
      NextShard(artifacts, chunks, kind, rows, start, end, target);
      if end < |rows| { FullNow(kind, part, rows, start, end, target); }
      artifacts, chunks := artifacts + [artifact], chunks + [rows[start..end]];
      start := end;
    }
    assert rows[..|rows|] == rows;
    return Ok(artifacts), chunks;
  }

  lemma TooLong(kind: Kind, rows: seq<Row>, start: nat, part: nat, target: int)
    requires start < |rows| && (!AllValid(rows) || !Fits(kind, part, rows, start, start + 1, target))
    ensures Refused(kind, rows, target)
  {
    assert rows[start] in rows && rows[start..start + 1] == [rows[start]];
  }

  lemma FullNow(kind: Kind, part: nat, rows: seq<Row>, start: nat, end: nat, target: int)
    requires start < end < |rows| && !Fits(kind, part, rows, start, end + 1, target)
    ensures NoRoom(kind, part, rows[start..end], rows[end..], target)
  {
    assert rows[start..end + 1] == rows[start..end] + [rows[end..][0]];
  }

  lemma NextShard(arts: seq<Artifact>, chunks: seq<seq<Row>>, kind: Kind, rows: seq<Row>, start: nat, end: nat, target: int)
    requires start < end <= |rows| && IsSharding(arts, chunks, kind, rows[..start], target)
    requires AllValid(rows[start..end]) && Fits(kind, |arts|, rows, start, end, target)
    requires arts != [] ==> |chunks| == |arts| && NoRoom(kind, |arts| - 1, chunks[|arts| - 1], rows[start..], target)
    ensures |arts| == |chunks|
    ensures IsSharding(arts + [ShardOf(kind, |arts|, rows[start..end])], chunks + [rows[start..end]], kind, rows[..end], target)
  {
    hide Bytes;
    hide AllValid;
    hide Flat;
    FlatSnoc(chunks, rows[start..end]);
    assert rows[..start] + rows[start..end] == rows[..end];
  }

  // ---------- The whole snapshot ----------

  /** Keys compare element by element, as the comparators do with URL, or From, To and Rel. */
  predicate KeyLeq(a: seq<string>, b: seq<string>) {
    a == [] || (b != [] && (if a[0] != b[0] then LexLeq(a[0], b[0]) else KeyLeq(a[1..], b[1..])))
  }

  predicate RowLeq(a: Row, b: Row) { KeyLeq(a.key, b.key) }

  lemma {:induction false} KeyOrder(a: seq<string>, b: seq<string>, c: seq<string>)
    ensures KeyLeq(a, b) || KeyLeq(b, a)
    ensures KeyLeq(a, b) && KeyLeq(b, c) ==> KeyLeq(a, c)
  {
    if a != [] && b != [] {
      LexTotal(a[0], b[0]);
      if c != [] {
        LexTotal(b[0], c[0]);
        if LexLeq(a[0], b[0]) && LexLeq(b[0], c[0]) { LexTransitive(a[0], b[0], c[0]); }
        KeyOrder(a[1..], b[1..], c[1..]);
      } else {
        KeyOrder(a[1..], b[1..], []);
      }
    }
  }

  lemma RowsOrdered()
    ensures Orders(RowLeq)
  {
    forall a: Row, b: Row, c: Row
      ensures RowLeq(a, b) || RowLeq(b, a)
      ensures RowLeq(a, b) && RowLeq(b, c) ==> RowLeq(a, c)
    {
      KeyOrder(a.key, b.key, c.key);
    }
  }

  /** The rows with canonical URLs. */
  function CanonicalRows(rows: seq<Row>): seq<Row> { seq(|rows|, i requires 0 <= i < |rows| => Canonical(rows[i])) }

  ghost predicate DistinctKeys(rows: seq<Row>) {
    forall i, j :: 0 <= i < j < |rows| ==> rows[i].key != rows[j].key
  }

  /** A row with an invalid URL, or two rows with one canonical key. */
  ghost predicate BadRows(rows: seq<Row>) { (exists row <- rows :: !row.urlsValid) || !DistinctKeys(CanonicalRows(rows)) }

  /** Checks URLs, makes them canonical and refuses duplicates. */
  method Prepare(rows: seq<Row>) returns (r: Result<seq<Row>>)
    ensures r.Err? <==> BadRows(rows)
    ensures r.Ok? ==> r.value == CanonicalRows(rows)
  {
    var out: seq<Row> := [];
    var seen: set<seq<string>> := {};
    ghost var all := CanonicalRows(rows);
    for i := 0 to |rows|
      invariant out == all[..i] && DistinctKeys(all[..i])
      invariant forall k :: 0 <= k < i ==> rows[k].urlsValid
      invariant forall k :: 0 <= k < i ==> all[k].key in seen
      invariant forall key <- seen :: exists k :: 0 <= k < i && all[k].key == key
    {
      if !rows[i].urlsValid {
        assert rows[i] in rows;
        return Err("invalid URL");
      }
      var row := Canonical(rows[i]);
      if row.key in seen {
        ghost var k :| 0 <= k < i && all[k].key == row.key;
        assert all[k].key == all[i].key;
        return Err("duplicate");
      }
      seen := seen + {row.key};
      assert all[..i + 1] == all[..i] + [all[i]];
      out := out + [row];
    }
    assert all[..|rows|] == all;
    return Ok(out);
  }

  function EffectiveTarget(target: int): int { if target == 0 then DEFAULT_SHARD_BYTES else target }

  predicate Buildable(manifestPath: string, slot: string, nodes: nat, edges: nat, target: int) {
    ValidManifestPath(manifestPath) && (slot == "a" || slot == "b") && 1 <= EffectiveTarget(target) <= MAX_BODY_LENGTH &&
    nodes <= MAX_NODES && edges <= MAX_EDGES
  }

  /** The rows can be cut into these chunks. */
  ghost predicate Sharded(chunks: seq<seq<Row>>, kind: Kind, rows: seq<Row>, target: int) {
    exists arts :: IsSharding(arts, chunks, kind, rows, target)
  }

  /**
   * Node shards, then edge shards. Each kind's shards are numbered from 0, hold the sorted
   * rows in order, stay within the target, and are as few as greedy packing allows. A refusal
   * has one of the listed causes; the last is more shards than a manifest may list.
   */
  method BuildSnapshotShards(manifestPath: string, slot: string, nodes: seq<Row>, edges: seq<Row>, target: int)
    returns (r: Result<seq<Artifact>>, ghost nodeChunks: seq<seq<Row>>, ghost edgeChunks: seq<seq<Row>>)
    ensures r.Ok? ==> Buildable(manifestPath, slot, |nodes|, |edges|, target) && !BadRows(nodes) && !BadRows(edges)
    ensures r.Err? ==>
      var ns, es, bytes := Sort(RowLeq, CanonicalRows(nodes)), Sort(RowLeq, CanonicalRows(edges)), EffectiveTarget(target);
      !Buildable(manifestPath, slot, |nodes|, |edges|, target) || BadRows(nodes) || BadRows(edges) ||
      Refused(NodeRows, ns, bytes) || Refused(EdgeRows, es, bytes) ||
      (|nodeChunks| + |edgeChunks| > MAX_SHARDS && Sharded(nodeChunks, NodeRows, ns, bytes) && Sharded(edgeChunks, EdgeRows, es, bytes))
    ensures r.Ok? ==> |r.value| == |nodeChunks| + |edgeChunks| <= MAX_SHARDS
    ensures r.Ok? ==>
      IsSharding(r.value[..|nodeChunks|], nodeChunks, NodeRows, Sort(RowLeq, CanonicalRows(nodes)), EffectiveTarget(target))
    ensures r.Ok? ==>
      IsSharding(r.value[|nodeChunks|..], edgeChunks, EdgeRows, Sort(RowLeq, CanonicalRows(edges)), EffectiveTarget(target))
    ensures r.Ok? ==> SortedBy(RowLeq, Flat(nodeChunks)) && SortedBy(RowLeq, Flat(edgeChunks))
    ensures r.Ok? ==> multiset(Flat(nodeChunks)) == multiset(CanonicalRows(nodes))
    ensures r.Ok? ==> multiset(Flat(edgeChunks)) == multiset(CanonicalRows(edges))
  {
    hide RowLeq;
    hide Refused;
    hide BadRows;
    hide Flat;
    hide Sort;
    hide SortedBy;
    hide AllFull;
    hide NoRoom;
    hide Bytes;
    nodeChunks, edgeChunks := [], [];
    if !ValidManifestPath(manifestPath) { return Err("invalid manifest path"), nodeChunks, edgeChunks; }
    if slot != "a" && slot != "b" { return Err("invalid snapshot slot"), nodeChunks, edgeChunks; }
    var bytes := EffectiveTarget(target);
    if bytes < 1 || bytes > MAX_BODY_LENGTH { return Err("invalid shard target"), nodeChunks, edgeChunks; }
    if |nodes| > MAX_NODES || |edges| > MAX_EDGES { return Err("graph exceeds snapshot limits"), nodeChunks, edgeChunks; }
    var preparedNodes := Prepare(nodes);
    if preparedNodes.Err? { return Err(preparedNodes.error), nodeChunks, edgeChunks; }
    var preparedEdges := Prepare(edges);
    if preparedEdges.Err? { return Err(preparedEdges.error), nodeChunks, edgeChunks; }
    RowsOrdered();
    SortSorts(RowLeq, preparedNodes.value);
    SortSorts(RowLeq, preparedEdges.value);
    var nodeShards, edgeShards;
    nodeShards, nodeChunks := BuildKind(NodeRows, Sort(RowLeq, preparedNodes.value), bytes);
    if nodeShards.Err? { return Err(nodeShards.error), nodeChunks, edgeChunks; }
    edgeShards, edgeChunks := BuildKind(EdgeRows, Sort(RowLeq, preparedEdges.value), bytes);
    if edgeShards.Err? { return Err(edgeShards.error), nodeChunks, edgeChunks; }
    var all := nodeShards.value + edgeShards.value;
    if |all| > MAX_SHARDS { return Err("too many shards"), nodeChunks, edgeChunks; }
    assert all[..|nodeChunks|] == nodeShards.value && all[|nodeChunks|..] == edgeShards.value;
    return Ok(all), nodeChunks, edgeChunks;
  }
}
