// Bounded neighbourhood pages: client/graphstore/neighborhood.go.
//
// One pass over a document's edges keeps the page's smallest URLs and counts all neighbours;
// following the cursor must visit every neighbour exactly once, in order, at any page size.
module Neighborhood {
  import opened Wrappers
  import opened Text
  import opened SortedStrings
  import opened Seqs
  import opened Sha256
  import opened Adjacency

  datatype Direction = In | Out | Both

  /** relations None matches every relation. */
  datatype Query = Query(url: string, direction: Direction, relations: Option<set<string>>, pageSize: nat)

  /** What the store knows of a document. */
  datatype Node = Node(url: string, title: string, status: string, linkCount: int, etag: string, observation: string)

  type Nodes = map<string, Node>

  /** The store files a node under its URL. */
  predicate Keyed(nodes: Nodes) { forall u <- nodes :: nodes[u].url == u }

  /** The stored node, or a bare one for a document nobody has crawled. */
  function NodeOf(nodes: Nodes, url: string): Node {
    if url in nodes then nodes[url] else Node(url, "", "", 0, "", "")
  }

  /** An edge as a row shows it: seen at least once, with a copy of its source document. */
  datatype RowEdge = RowEdge(edge: Edge, source: Node)

  function Shown(e: Edge, nodes: Nodes): RowEdge {
    RowEdge(e.(count := if e.count > 1 then e.count else 1), NodeOf(nodes, e.from))
  }

  datatype Row = Row(node: Node, edges: seq<RowEdge>, omitted: nat)

  datatype Page = Page(rows: seq<Row>, totalRows: nat, next: Option<string>)

  const DEFAULT_PAGE_SIZE := 20
  const MAX_PAGE_SIZE := 100
  const MAX_EDGES_PER_ROW := 20

  predicate RelationMatches(e: Edge, q: Query) { q.relations.None? || e.rel in q.relations.value }

  /** The edge touches the document in a wanted direction and relation. */
  predicate Matches(e: Edge, q: Query) {
    RelationMatches(e, q) &&
    ((q.direction != Out && e.to == q.url) || (q.direction != In && e.from == q.url))
  }

  /** The other end of an edge; a self-loop's other end is the document itself. */
  function NeighborOf(e: Edge, url: string): string { if e.to == url then e.from else e.to }

  function Neighbors(edges: seq<Edge>, q: Query): set<string> {
    set i | 0 <= i < |edges| && Matches(edges[i], q) :: NeighborOf(edges[i], q.url)
  }

  // ---------- Visiting every matching edge once ----------

  predicate Visits(e: Edge, q: Query, skipSelfLoops: bool) {
    !(skipSelfLoops && e.from == q.url && e.to == q.url) && RelationMatches(e, q)
  }

  function Visited(edges: seq<Edge>, q: Query, indices: seq<nat>, skipSelfLoops: bool): seq<nat>
    requires forall i <- indices :: i < |edges|
  {
    if indices == [] then []
    else
      assert indices[0] in indices && forall i <- indices[1..] :: i in indices;
      (if Visits(edges[indices[0]], q, skipSelfLoops) then [indices[0]] else []) + Visited(edges, q, indices[1..], skipSelfLoops)
  }

  lemma {:induction false} VisitedAppend(edges: seq<Edge>, q: Query, a: seq<nat>, i: nat, skip: bool)
    requires (forall j <- a :: j < |edges|) && i < |edges|
    ensures forall j <- a + [i] :: j < |edges|
    ensures Visited(edges, q, a + [i], skip) == Visited(edges, q, a, skip) + (if Visits(edges[i], q, skip) then [i] else [])
  {
    hide Visits;
    assert forall j <- a + [i] :: j in a || j == i;
    var last := if Visits(edges[i], q, skip) then [i] else [];
    if a == [] {
      assert [i][1..] == [] && a + [i] == [i];
    } else {
      assert a[0] in a && forall j <- a[1..] :: j in a;
      assert (a + [i])[1..] == a[1..] + [i] && (a + [i])[0] == a[0];
      VisitedAppend(edges, q, a[1..], i, skip);
      var first := if Visits(edges[a[0]], q, skip) then [a[0]] else [];
      var rest := Visited(edges, q, a[1..], skip);
      assert first + (rest + last) == first + rest + last;
    }
  }

  lemma {:induction false} VisitedAre(edges: seq<Edge>, q: Query, indices: seq<nat>, skip: bool)
    requires forall i <- indices :: i < |edges|
    requires Rising(indices)
    ensures forall i :: i in Visited(edges, q, indices, skip) <==> i in indices && Visits(edges[i], q, skip)
    ensures Rising(Visited(edges, q, indices, skip))
  {
    hide Visits;
    if indices != [] {
      var rest := indices[1..];
      assert indices[0] in indices && forall i <- rest :: i in indices;
      assert indices == [indices[0]] + rest;
      assert Rising(rest);
      VisitedAre(edges, q, rest, skip);
      var tail := Visited(edges, q, rest, skip);
      forall k | 0 <= k < |tail| ensures indices[0] < tail[k] {
        assert tail[k] in tail;
        var j :| 0 <= j < |rest| && rest[j] == tail[k];
        assert indices[0] < indices[j + 1];
      }
    }
  }

  function InPart(edges: seq<Edge>, q: Query): seq<nat> {
    if q.direction == Out then [] else Indices(edges, Incoming, q.url, |edges|)
  }

  function OutPart(edges: seq<Edge>, q: Query): seq<nat> {
    if q.direction == In then [] else Indices(edges, Outgoing, q.url, |edges|)
  }

  predicate InRange(visited: seq<nat>, edges: seq<Edge>) { forall j :: 0 <= j < |visited| ==> visited[j] < |edges| }

  /** Both passes together reach exactly the matching edges, each once: a self-loop too. */
  ghost predicate EachOnce(visited: seq<nat>, edges: seq<Edge>, q: Query) {
    && InRange(visited, edges)
    && (forall a, b :: 0 <= a < b < |visited| ==> visited[a] != visited[b])
    && (forall i :: 0 <= i < |edges| ==> (i in visited <==> Matches(edges[i], q)))
  }

  lemma PartsInRange(edges: seq<Edge>, q: Query)
    ensures forall i :: i in InPart(edges, q) <==> 0 <= i < |edges| && q.direction != Out && edges[i].to == q.url
    ensures forall i :: i in OutPart(edges, q) <==> 0 <= i < |edges| && q.direction != In && edges[i].from == q.url
    ensures Rising(InPart(edges, q)) && Rising(OutPart(edges, q))
  {
    IndicesAre(edges, Incoming, q.url, |edges|);
    IndicesAre(edges, Outgoing, q.url, |edges|);
    IndicesAscend(edges, Incoming, q.url, |edges|);
    IndicesAscend(edges, Outgoing, q.url, |edges|);
  }

  lemma PassesVisitOnce(edges: seq<Edge>, q: Query, into: seq<nat>, out: seq<nat>)
    requires forall i :: i in into <==> 0 <= i < |edges| && q.direction != Out && edges[i].to == q.url && RelationMatches(edges[i], q)
    requires forall i :: i in out <==>
      0 <= i < |edges| && q.direction != In && edges[i].from == q.url && Visits(edges[i], q, q.direction == Both)
    requires Rising(into) && Rising(out)
    ensures EachOnce(into + out, edges, q)
  {
    var all := into + out;
    forall j | 0 <= j < |all| ensures all[j] < |edges| {
      if j < |into| { assert into[j] in into; } else { assert out[j - |into|] in out; }
    }
    forall a, b | 0 <= a < b < |all| ensures all[a] != all[b] {
      if a < |into| && b >= |into| {
        assert into[a] in into && out[b - |into|] in out;
      }
    }
  }

  method VisitIndices(edges: seq<Edge>, q: Query, indices: seq<nat>, skipSelfLoops: bool) returns (visited: seq<nat>)
    requires forall i <- indices :: i < |edges|
    ensures visited == Visited(edges, q, indices, skipSelfLoops)
  {
    visited := [];
    for k := 0 to |indices|
      invariant forall i <- indices[..k] :: i < |edges|
      invariant visited == Visited(edges, q, indices[..k], skipSelfLoops)
    {
      var i := indices[k];
      assert i in indices;
      assert indices[..k + 1] == indices[..k] + [i];
      VisitedAppend(edges, q, indices[..k], i, skipSelfLoops);
      if !(skipSelfLoops && edges[i].from == q.url && edges[i].to == q.url) && RelationMatches(edges[i], q) {
        visited := visited + [i];
      }
    }
    assert indices[..|indices|] == indices;
  }

  /** The edges a query visits, incoming ones first. */
  method VisitEdges(s: Store, q: Query) returns (visited: seq<nat>)
    requires s.Indexed()
    ensures EachOnce(visited, s.edges, q)
  {
    hide EachOnce;
    hide Visited;
    hide Indices;
    hide Visits;
    PartsInRange(s.edges, q);
    NothingVisited(s.edges, q);
    var into, out: seq<nat> := [], [];
    if q.direction != Out { into := VisitIndices(s.edges, q, s.Slice(s.incoming, q.url), false); }
    if q.direction != In { out := VisitIndices(s.edges, q, s.Slice(s.outgoing, q.url), q.direction == Both); }
    PassesAre(s.edges, q, into, out);
    return into + out;
  }

  lemma NothingVisited(edges: seq<Edge>, q: Query)
    ensures Visited(edges, q, [], false) == [] && Visited(edges, q, [], true) == []
  {
  }

  lemma PassesAre(edges: seq<Edge>, q: Query, into: seq<nat>, out: seq<nat>)
    requires (forall i <- InPart(edges, q) :: i < |edges|) && forall i <- OutPart(edges, q) :: i < |edges|
    requires into == Visited(edges, q, InPart(edges, q), false)
    requires out == Visited(edges, q, OutPart(edges, q), q.direction == Both)
    ensures EachOnce(into + out, edges, q)
  {
    hide EachOnce;
    hide InPart;
    hide OutPart;
    PartsInRange(edges, q);
    VisitedAre(edges, q, InPart(edges, q), false);
    VisitedAre(edges, q, OutPart(edges, q), q.direction == Both);
    hide Visited;
    PassesVisitOnce(edges, q, into, out);
  }

  // ---------- The smallest URLs after the cursor ----------

  /** The neighbours past the position; None is the start. */
  function After(names: set<string>, position: Option<string>): set<string> {
    set n <- names | position.None? || Lt(position.value, n)
  }

  /** page is the k smallest of names, or all of them in order when there are fewer. */
  ghost predicate IsSmallest(page: seq<string>, names: set<string>, k: nat) {
    && Ascending(page) && Elements(page) <= names && |page| <= k
    && (|page| < k ==> Elements(page) == names)
    && (forall p, n :: p in page && n in names && n !in page ==> Lt(p, n))
  }

  lemma NoneSmallest(k: nat)
    ensures IsSmallest([], {}, k)
  {
  }

  /** Inserting one more name and cutting back to k keeps the k smallest. */
  lemma InsertSmallest(page: seq<string>, names: set<string>, k: nat, x: string, i: nat)
    requires IsSmallest(page, names, k) && x !in names && i <= |page| && k >= 1
    requires forall j :: 0 <= j < i ==> Lt(page[j], x)
    requires forall j :: i <= j < |page| ==> LexLeq(x, page[j])
    ensures |page| == k && i == k ==> IsSmallest(page, names + {x}, k)
    ensures !(|page| == k && i == k) ==>
      var longer := page[..i] + [x] + page[i..];
      IsSmallest(if |longer| > k then longer[..k] else longer, names + {x}, k)
  {
    hide LexLeq;
    assert forall p <- page :: p in Elements(page);
    if |page| == k && i == k {
      forall p, n | p in page && n in names + {x} && n !in page ensures Lt(p, n) {
        var j :| 0 <= j < |page| && page[j] == p;
      }
    } else {
      InsertAt(page, i, x);
      var longer := page[..i] + [x] + page[i..];
      assert Elements(longer) == Elements(page) + {x};
      if |longer| > k {
        CutBack(page, names, k, x, i, longer);
      } else if |longer| == k {
      }
    }
  }

  lemma CutBack(page: seq<string>, names: set<string>, k: nat, x: string, i: nat, longer: seq<string>)
    requires IsSmallest(page, names, k) && x !in names && i < |page| == k && x !in page
    requires longer == page[..i] + [x] + page[i..] && Ascending(longer)
    requires Elements(longer) == Elements(page) + {x}
    ensures IsSmallest(longer[..k], names + {x}, k)
  {
    hide LexLeq;
    var now, last := longer[..k], longer[k];
    assert last == page[k - 1] && last in page && last in Elements(page);
    assert longer == now + [last];
    assert forall p <- page :: p in Elements(page);
    forall p <- now ensures p in names + {x} && Lt(p, last) {
      var j :| 0 <= j < k && longer[j] == p;
      assert p in Elements(longer) && Lt(longer[j], longer[k]);
    }
    forall p, n | p in now && n in names + {x} && n !in now ensures Lt(p, n) {
      if n !in longer {
        assert n !in Elements(longer) && n in names && Lt(last, n);
        LtTransitive(p, last, n);
      }
    }
  }

  // ---------- One page ----------

  /** The names of the first i visited edges. */
  function Seen(edges: seq<Edge>, q: Query, visited: seq<nat>, i: nat): set<string>
    requires i <= |visited| && InRange(visited, edges)
  {
    set j | 0 <= j < i :: NeighborOf(edges[visited[j]], q.url)
  }

  lemma SeenAll(edges: seq<Edge>, q: Query, visited: seq<nat>)
    requires EachOnce(visited, edges, q)
    ensures Seen(edges, q, visited, |visited|) == Neighbors(edges, q)
  {
    forall n | n in Neighbors(edges, q) ensures n in Seen(edges, q, visited, |visited|) {
      var i :| 0 <= i < |edges| && Matches(edges[i], q) && NeighborOf(edges[i], q.url) == n;
      assert i in visited;
    }
    forall n | n in Seen(edges, q, visited, |visited|) ensures n in Neighbors(edges, q) {
      var j :| 0 <= j < |visited| && NeighborOf(edges[visited[j]], q.url) == n;
      assert visited[j] in visited;
    }
  }

  lemma AfterMore(names: set<string>, position: Option<string>, x: string)
    ensures After(names + {x}, position) ==
      if position.None? || Lt(position.value, x) then After(names, position) + {x} else After(names, position)
    ensures After({}, position) == {}
  {
  }

  /** neighbor <= position: not past the cursor. */
  lemma NotPast(x: string, after: string)
    ensures LexLeq(x, after) <==> !Lt(after, x)
  {
    LexTotal(x, after);
  }

  /** One bounded pass: all neighbours are counted, the smallest past the position are kept. */
  method PageURLs(edges: seq<Edge>, q: Query, visited: seq<nat>, position: Option<string>)
    returns (page: seq<string>, seen: set<string>)
    requires InRange(visited, edges)
    ensures seen == Seen(edges, q, visited, |visited|)
    ensures IsSmallest(page, After(seen, position), q.pageSize + 1)
  {
    hide LexLeq;
    hide IsSmallest;
    page, seen := [], {};
    NoneSmallest(q.pageSize + 1);
    AfterMore({}, position, "");
    assert Seen(edges, q, visited, 0) == {};
    for i := 0 to |visited|
      invariant seen == Seen(edges, q, visited, i)
      invariant IsSmallest(page, After(seen, position), q.pageSize + 1)
    {
      var neighbor := NeighborOf(edges[visited[i]], q.url);
      if neighbor in seen {
        assert seen + {neighbor} == seen;
        continue;
      }
      AfterMore(seen, position, neighbor);
      ghost var before := After(seen, position);
      seen := seen + {neighbor};
      if position.Some? {
        NotPast(neighbor, position.value);
        if LexLeq(neighbor, position.value) { continue; }
      }
      SmallestAscends(page, before, q.pageSize + 1);
      var index, found := BinarySearch(page, neighbor);
      InsertSmallest(page, before, q.pageSize + 1, neighbor, index);
      if |page| == q.pageSize + 1 && index == |page| { continue; }
      page := page[..index] + [neighbor] + page[index..];
      if |page| > q.pageSize + 1 { page := page[..q.pageSize + 1]; }
    }
  }

  lemma SmallestAscends(page: seq<string>, names: set<string>, k: nat)
    requires IsSmallest(page, names, k)
    ensures Ascending(page) && |page| <= k
  {
  }

  /** Cutting a page of k + 1 to k keeps the k smallest and tells whether there are more. */
  lemma CutPage(page: seq<string>, names: set<string>, k: nat)
    requires IsSmallest(page, names, k + 1)
    ensures IsSmallest(if |page| > k then page[..k] else page, names, k)
    ensures |page| > k <==> |names| > k
  {
    AscendingCount(page);
    Fewer(Elements(page), names);
    if |page| > k {
      var now := page[..k];
      assert page == now + [page[k]];
      forall p <- now ensures p in Elements(page) && Lt(p, page[k]) {
        var j :| 0 <= j < k && page[j] == p;
      }
      forall p, n | p in now && n in names && n !in now ensures Lt(p, n) {
        if n !in page { assert p in page; }
      }
    }
  }

  lemma Fewer(a: set<string>, b: set<string>)
    requires a <= b
    ensures |a| <= |b|
  {
    assert b == a + (b - a);
  }

  // ---------- Rows ----------

  /** compareNeighborhoodEdges(a, b) <= 0. */
  predicate EdgeLeq(a: RowEdge, b: RowEdge) {
    if a.edge.from != b.edge.from then LexLeq(a.edge.from, b.edge.from)
    else if a.edge.to != b.edge.to then LexLeq(a.edge.to, b.edge.to)
    else LexLeq(a.edge.rel, b.edge.rel)
  }

  lemma EdgeOrder(x: RowEdge, y: RowEdge, z: RowEdge)
    ensures EdgeLeq(x, y) || EdgeLeq(y, x)
    ensures EdgeLeq(x, y) && EdgeLeq(y, z) ==> EdgeLeq(x, z)
  {
    var a, b, c := x.edge, y.edge, z.edge;
    LexTotal(a.from, b.from);
    LexTotal(b.from, c.from);
    LexTotal(a.to, b.to);
    LexTotal(b.to, c.to);
    LexTotal(a.rel, b.rel);
    if LexLeq(a.from, b.from) && LexLeq(b.from, c.from) { LexTransitive(a.from, b.from, c.from); }
    if LexLeq(a.to, b.to) && LexLeq(b.to, c.to) { LexTransitive(a.to, b.to, c.to); }
    if LexLeq(a.rel, b.rel) && LexLeq(b.rel, c.rel) { LexTransitive(a.rel, b.rel, c.rel); }
  }

  lemma EdgesOrdered()
    ensures Orders(EdgeLeq)
  {
    forall a, b, c ensures EdgeLeq(a, b) || EdgeLeq(b, a)
      ensures EdgeLeq(a, b) && EdgeLeq(b, c) ==> EdgeLeq(a, c)
    {
      EdgeOrder(a, b, c);
    }
  }

  /** The visited edges that lead to one neighbour, as its row shows them. */
  function Evidence(edges: seq<Edge>, nodes: Nodes, q: Query, visited: seq<nat>, url: string): seq<RowEdge>
    requires InRange(visited, edges)
  {
    if visited == [] then []
    else
      (if NeighborOf(edges[visited[0]], q.url) == url then [Shown(edges[visited[0]], nodes)] else [])
      + Evidence(edges, nodes, q, visited[1..], url)
  }

  /** A document, its first edges in order, and how many are left out. */
  ghost predicate IsRow(row: Row, node: Node, evidence: seq<RowEdge>) {
    && row.node == node && |row.edges| + row.omitted == |evidence|
    && |row.edges| <= MAX_EDGES_PER_ROW && (row.omitted > 0 ==> |row.edges| == MAX_EDGES_PER_ROW)
    && SortedBy(EdgeLeq, row.edges) && multiset(row.edges) <= multiset(evidence)
    && (forall a, b :: a in multiset(row.edges) && b in multiset(evidence) - multiset(row.edges) ==> EdgeLeq(a, b))
  }

  lemma CutMultiset(sorted: seq<RowEdge>, n: nat)
    requires n <= |sorted|
    ensures multiset(sorted[..n]) <= multiset(sorted)
    ensures multiset(sorted) - multiset(sorted[..n]) == multiset(sorted[n..])
  {
    assert sorted == sorted[..n] + sorted[n..];
  }

  lemma CutRow(node: Node, evidence: seq<RowEdge>, n: nat)
    requires n <= |evidence| && (n < |evidence| ==> n == MAX_EDGES_PER_ROW) && n <= MAX_EDGES_PER_ROW
    ensures |Sort(EdgeLeq, evidence)| == |evidence|
    ensures IsRow(Row(node, Sort(EdgeLeq, evidence)[..n], |evidence| - n), node, evidence)
  {
    hide EdgeLeq;
    hide Sort;
    EdgesOrdered();
    SortSorts(EdgeLeq, evidence);
    var sorted := Sort(EdgeLeq, evidence);
    CutMultiset(sorted, n);
    hide SortedBy;
  }

  method MakeRow(edges: seq<Edge>, nodes: Nodes, q: Query, visited: seq<nat>, url: string) returns (row: Row)
    requires InRange(visited, edges)
    ensures IsRow(row, NodeOf(nodes, url), Evidence(edges, nodes, q, visited, url))
  {
    var evidence := Evidence(edges, nodes, q, visited, url);
    var n := if |evidence| > MAX_EDGES_PER_ROW then MAX_EDGES_PER_ROW else |evidence|;
    CutRow(NodeOf(nodes, url), evidence, n);
    return Row(NodeOf(nodes, url), Sort(EdgeLeq, evidence)[..n], |evidence| - n);
  }

  // ---------- Pages ----------

  /** The page a query at a position must give. */
  ghost predicate IsPage(page: Page, edges: seq<Edge>, q: Query, position: Option<string>) {
    var wanted := After(Neighbors(edges, q), position);
    && page.totalRows == |Neighbors(edges, q)|
    && IsSmallest(RowURLs(page.rows), wanted, q.pageSize)
    && (page.next.Some? <==> |wanted| > q.pageSize)
    && (page.next.Some? ==> |page.rows| == q.pageSize > 0 && page.next == Some(page.rows[q.pageSize - 1].node.url))
  }

  function RowURLs(rows: seq<Row>): (r: seq<string>)
    ensures |r| == |rows| && forall i :: 0 <= i < |r| ==> r[i] == rows[i].node.url
  {
    seq(|rows|, i requires 0 <= i < |rows| => rows[i].node.url)
  }

  method NeighborhoodPage(s: Store, nodes: Nodes, q: Query, position: Option<string>)
    returns (page: Page, ghost visited: seq<nat>)
    requires s.Indexed() && Keyed(nodes) && q.pageSize >= 1
    ensures IsPage(page, s.edges, q, position)
    ensures EachOnce(visited, s.edges, q)
    ensures forall row <- page.rows ::
      IsRow(row, NodeOf(nodes, row.node.url), Evidence(s.edges, nodes, q, visited, row.node.url))
  {
    hide IsSmallest;
    hide IsRow;
    hide Evidence;
    hide Neighbors;
    hide Seen;
    hide After;
    var found := VisitEdges(s, q);
    visited := found;
    SeenAll(s.edges, q, found);
    var urls, seen := PageURLs(s.edges, q, found, position);
    CutPage(urls, After(seen, position), q.pageSize);
    var hasMore := |urls| > q.pageSize;
    if hasMore { urls := urls[..q.pageSize]; }
    var rows: seq<Row> := [];
    for i := 0 to |urls|
      invariant |rows| == i && forall j :: 0 <= j < i ==> rows[j].node.url == urls[j]
      invariant forall row <- rows :: IsRow(row, NodeOf(nodes, row.node.url), Evidence(s.edges, nodes, q, found, row.node.url))
    {
      var row := MakeRow(s.edges, nodes, q, found, urls[i]);
      RowNamed(row, nodes, urls[i], Evidence(s.edges, nodes, q, found, urls[i]));
      rows := rows + [row];
    }
    assert RowURLs(rows) == urls;
    page := Page(rows, |seen|, if hasMore then Some(rows[|rows| - 1].node.url) else None);
  }

  lemma RowNamed(row: Row, nodes: Nodes, url: string, evidence: seq<RowEdge>)
    requires IsRow(row, NodeOf(nodes, url), evidence) && Keyed(nodes)
    ensures row.node.url == url
  {
  }

  // ---------- Requests and cursors ----------

  // links.CanonicalURL, and the JSON that a query is identified by: any total functions.
  const CanonicalURL: string -> string
  const QueryText: (string, Direction, Option<set<string>>) -> string

  function Identity(q: Query): string { Sum256(QueryText(q.url, q.direction, q.relations)) }

  /** A cursor's text by what it decodes to; bytes is the length of the text. */
  datatype Cursor = NoCursor | Cursor(query: string, after: string, bytes: nat) | Garbled

  const MAX_CURSOR_BYTES := 1024

  /** Bytes of one character inside a JSON string as encoding/json writes it. */
  function JsonBytes(c: char): nat {
    if c == '"' || c == '\\' || c == '\n' || c == '\r' || c == '\t' || c == '\U{8}' || c == '\U{c}' then 2
    else if c < ' ' || c == '<' || c == '>' || c == '&' || c == '\U{2028}' || c == '\U{2029}' then 6
    else CharBytes(c)
  }

  function JsonLen(s: string): nat { if s == "" then 0 else JsonBytes(s[0]) + JsonLen(s[1..]) }

  /** The cursor as JSON: two keys, the query and the URL, then unpadded base64 of that. */
  function CursorBytes(query: string, after: string): nat { (8 * (15 + Len(query) + JsonLen(after)) + 5) / 6 }

  function EncodeCursor(q: Query, next: Option<string>): Cursor {
    if next.None? then NoCursor else Cursor(Identity(q), next.value, CursorBytes(Identity(q), next.value))
  }

  /** Where a request with the cursor starts; an error for a cursor that is too long, unreadable or another query's. */
  function DecodeCursor(cursor: Cursor, identity: string): Result<Option<string>> {
    match cursor
    case NoCursor => Ok(None)
    case Garbled => Err("invalid neighborhood cursor")
    case Cursor(query, after, bytes) =>
      if bytes > MAX_CURSOR_BYTES || query == "" then Err("invalid neighborhood cursor")
      else if query != identity then Err("neighborhood cursor does not match query")
      else Ok(Some(after))
  }

  /** The page size a request asks for: 0 is the default, and only 1 to 100 is served. */
  function PageSize(requested: int): Option<nat> {
    var size := if requested == 0 then DEFAULT_PAGE_SIZE else requested;
    if 1 <= size <= MAX_PAGE_SIZE then Some(size) else None
  }

  function ParseDirection(direction: string): Option<Direction> {
    if direction == "" || direction == "both" then Some(Both)
    else if direction == "incoming" then Some(In)
    else if direction == "outgoing" then Some(Out)
    else None
  }

  function ParseQuery(rawURL: string, direction: string, relations: Option<set<string>>, requested: int): Option<Query> {
    match (ParseDirection(direction), PageSize(requested))
    case (Some(d), Some(size)) => Some(Query(CanonicalURL(rawURL), d, relations, size))
    case _ => None
  }

  datatype Answer = Answer(rows: seq<Row>, totalRows: nat, next: Cursor)

  /** The answer carries the page at the position. */
  ghost predicate Answers(a: Answer, edges: seq<Edge>, q: Query, position: Option<string>) {
    exists page :: IsPage(page, edges, q, position) && a == Answer(page.rows, page.totalRows, EncodeCursor(q, page.next))
  }

  /** One request: refused for its direction, its page size or its cursor, or answered with the page at its position. */
  method Neighborhood(s: Store, nodes: Nodes, rawURL: string, direction: string, relations: Option<set<string>>,
                      requested: int, cursor: Cursor) returns (r: Result<Answer>)
    requires s.Indexed() && Keyed(nodes)
    ensures var q := ParseQuery(rawURL, direction, relations, requested);
      if q.None? then r.Err?
      else match DecodeCursor(cursor, Identity(q.value))
        case Err(e) => r == Err(e)
        case Ok(position) => r.Ok? && Answers(r.value, s.edges, q.value, position)
  {
    hide IsPage;
    hide Identity;
    hide CursorBytes;
    var d := ParseDirection(direction);
    if d.None? { return Err("invalid neighborhood direction"); }
    var size := PageSize(requested);
    if size.None? { return Err("neighborhood page size"); }
    var q := Query(CanonicalURL(rawURL), d.value, relations, size.value);
    var position := DecodeCursor(cursor, Identity(q));
    if position.Err? { return Err(position.error); }
    ghost var visited;
    var page;
    page, visited := NeighborhoodPage(s, nodes, q, position.value);
    return Ok(Answer(page.rows, page.totalRows, EncodeCursor(q, page.next)));
  }

  // ---------- Following the cursor ----------

  /** n names fill whole pages of k. */
  predicate PageEnd(n: nat, k: nat)
    requires k > 0
  {
    n == 0 || (n >= k && PageEnd(n - k, k))
  }

  /** A page ends, with more to come, at a URL whose cursor is too long to be accepted. */
  ghost predicate CursorTooLong(q: Query, names: seq<string>) {
    q.pageSize > 0 &&
    exists n :: 0 < n < |names| && PageEnd(n, q.pageSize) && CursorBytes(Identity(q), names[n - 1]) > MAX_CURSOR_BYTES
  }

  /** The pages so far end where pages end, and every cursor before the last was short enough. */
  ghost predicate Passed(q: Query, names: seq<string>, n: nat)
    requires q.pageSize > 0
  {
    n <= |names| && PageEnd(n, q.pageSize) &&
    forall m :: 0 < m < n && PageEnd(m, q.pageSize) ==> CursorBytes(Identity(q), names[m - 1]) <= MAX_CURSOR_BYTES
  }

  /**
   * Over an unchanged store, following the cursor from the first page lists every distinct
   * neighbour exactly once in URL order, and every page counts them all, unless some page ends
   * at a URL whose cursor is too long: then, and only then, the server refuses its own cursor.
   */
  method AllPages(s: Store, nodes: Nodes, rawURL: string, direction: string, relations: Option<set<string>>, requested: int)
    returns (all: seq<string>, answers: seq<Answer>, stuck: bool)
    requires s.Indexed() && Keyed(nodes) && ParseQuery(rawURL, direction, relations, requested).Some?
    ensures var q := ParseQuery(rawURL, direction, relations, requested).value;
      var names := Sorted(Neighbors(s.edges, q));
      && (stuck <==> CursorTooLong(q, names))
      && (if stuck then 0 < |all| < |names| && all == names[..|all|] else all == names)
      && (forall a <- answers :: a.totalRows == |names|) && all == Listed(answers)
  {
    hide Ascending;
    hide IsSmallest;
    hide Neighbors;
    hide IsPage;
    hide After;
    hide ListedTo;
    hide Passed;
    hide CursorTooLong;
    hide CursorBytes;
    hide Identity;
    ghost var q := ParseQuery(rawURL, direction, relations, requested).value;
    ghost var names := Neighbors(s.edges, q);
    all, answers, stuck := [], [], false;
    ghost var position: Option<string> := None;
    var cursor, more := NoCursor, true;
    FromStart(names);
    AtStart(q, Sorted(names));
    SortedSize(names);
    while more
      invariant all == Listed(answers) && forall a <- answers :: a.totalRows == |names|
      invariant more ==> ListedTo(all, names, position) && Passed(q, Sorted(names), |all|) && cursor == EncodeCursor(q, position)
      invariant more ==> (position.Some? ==> 0 < |all| < |names|)
      invariant !stuck && (!more ==> !CursorTooLong(q, Sorted(names)) && all == Sorted(names))
      decreases more, |After(names, position)|
    {
      ListedPrefix(all, names, position);
      var r := Neighborhood(s, nodes, rawURL, direction, relations, requested, cursor);
      if r.Err? {
        Refused(q, names, all, position);
        return all, answers, true;
      }
      Accepted(q, names, all, position);
      ghost var page :| IsPage(page, s.edges, q, position) &&
        r.value == Answer(page.rows, page.totalRows, EncodeCursor(q, page.next));
      OnePage(q, s.edges, names, all, position, page);
      assert (answers + [r.value])[..|answers|] == answers;
      all, answers := all + RowURLs(r.value.rows), answers + [r.value];
      cursor, more := r.value.next, !r.value.next.NoCursor?;
      position := page.next;
    }
  }

  /** A page completes the list, or ends where the next one starts. */
  lemma OnePage(q: Query, edges: seq<Edge>, names: set<string>, all: seq<string>, position: Option<string>, page: Page)
    requires q.pageSize > 0 && names == Neighbors(edges, q) && IsPage(page, edges, q, position)
    requires ListedTo(all, names, position) && Passed(q, Sorted(names), |all|)
    requires position.Some? ==> all != [] && CursorBytes(Identity(q), all[|all| - 1]) <= MAX_CURSOR_BYTES
    requires |all| <= |Sorted(names)| == |names| && all == Sorted(names)[..|all|]
    ensures page.totalRows == |names|
    ensures var now := all + RowURLs(page.rows);
      if page.next.None? then !CursorTooLong(q, Sorted(names)) && now == Sorted(names)
      else ListedTo(now, names, page.next) && Passed(q, Sorted(names), |now|) && 0 < |now| < |names| &&
           |After(names, page.next)| < |After(names, position)|
  {
    hide IsSmallest;
    hide Neighbors;
    hide IsPage;
    hide After;
    hide ListedTo;
    hide Passed;
    hide CursorTooLong;
    hide CursorBytes;
    hide Identity;
    hide Ascending;
    StartIsEmpty(all, names, position);
    PageIs(page, edges, q, position);
    var urls := RowURLs(page.rows);
    NextPage(all, names, position, urls, q.pageSize, page.next);
    if page.next.None? {
      Completed(q, names, all, position);
      SortedIs(all + urls, names);
    } else {
      OnePageOn(q, names, all, position);
    }
  }

  lemma AtStart(q: Query, names: seq<string>)
    requires q.pageSize > 0
    ensures Passed(q, names, 0)
  {
  }

  lemma SortedSize(names: set<string>)
    ensures |Sorted(names)| == |names|
  {
    AscendingCount(Sorted(names));
  }

  /** What has been listed is the start of the sorted names. */
  lemma ListedPrefix(all: seq<string>, names: set<string>, position: Option<string>)
    requires ListedTo(all, names, position)
    ensures |all| <= |Sorted(names)| && all == Sorted(names)[..|all|]
  {
    hide LexLeq;
    var wanted := After(names, position);
    var rest := Sorted(wanted);
    AppendAscends(all, rest, position, wanted);
    assert Elements(all + rest) == Elements(all) + Elements(rest);
    hide Sorted;
    AscendingUnique(all + rest, Sorted(names));
  }

  /** A request at a position is refused only for the length of its cursor. */
  lemma Refused(q: Query, names: set<string>, all: seq<string>, position: Option<string>)
    requires q.pageSize > 0 && ListedTo(all, names, position) && Passed(q, Sorted(names), |all|)
    requires position.Some? ==> 0 < |all| < |names|
    requires DecodeCursor(EncodeCursor(q, position), Identity(q)).Err? && |Sorted(names)| == |names|
    requires |all| <= |Sorted(names)| && all == Sorted(names)[..|all|]
    ensures 0 < |all| < |names| && CursorTooLong(q, Sorted(names))
  {
    hide Sorted;
    hide CursorBytes;
    var n := |all|;
    assert |Identity(q)| == 64;
    assert all[n - 1] == Sorted(names)[n - 1];
  }

  lemma StartIsEmpty(all: seq<string>, names: set<string>, position: Option<string>)
    requires ListedTo(all, names, position)
    ensures position.None? <==> all == []
  {
  }

  lemma Accepted(q: Query, names: set<string>, all: seq<string>, position: Option<string>)
    requires q.pageSize > 0 && ListedTo(all, names, position)
    requires DecodeCursor(EncodeCursor(q, position), Identity(q)).Ok?
    ensures DecodeCursor(EncodeCursor(q, position), Identity(q)) == Ok(position)
    ensures position.Some? ==> all != [] && CursorBytes(Identity(q), all[|all| - 1]) <= MAX_CURSOR_BYTES
  {
  }

  /** The clauses of a page, one by one. */
  lemma PageIs(page: Page, edges: seq<Edge>, q: Query, position: Option<string>)
    requires IsPage(page, edges, q, position)
    ensures var names := Neighbors(edges, q);
      && page.totalRows == |names| && IsSmallest(RowURLs(page.rows), After(names, position), q.pageSize)
      && (page.next.Some? <==> |After(names, position)| > q.pageSize)
      && (page.next.Some? ==> |RowURLs(page.rows)| == q.pageSize > 0 && page.next == Some(RowURLs(page.rows)[q.pageSize - 1]))
  {
    hide IsSmallest;
    hide Neighbors;
    hide After;
  }

  lemma SortedIs(all: seq<string>, names: set<string>)
    requires Ascending(all) && Elements(all) == names
    ensures all == Sorted(names)
  {
    AscendingUnique(all, Sorted(names));
  }

  lemma ListedCount(all: seq<string>, names: set<string>, position: Option<string>)
    requires ListedTo(all, names, position)
    ensures |all| + |After(names, position)| == |names|
  {
    AscendingCount(all);
    var wanted := After(names, position);
    assert names == (names - wanted) + wanted && (names - wanted) !! wanted;
  }

  /** With the last page no page end is left over. */
  lemma Completed(q: Query, names: set<string>, all: seq<string>, position: Option<string>)
    requires q.pageSize > 0 && ListedTo(all, names, position) && Passed(q, Sorted(names), |all|)
    requires all != [] ==> CursorBytes(Identity(q), all[|all| - 1]) <= MAX_CURSOR_BYTES
    requires |all| <= |Sorted(names)| == |names| && all == Sorted(names)[..|all|] && |After(names, position)| <= q.pageSize
    ensures !CursorTooLong(q, Sorted(names))
  {
    hide Sorted;
    hide CursorBytes;
    hide Identity;
    ListedCount(all, names, position);
    hide ListedTo;
    hide After;
    var sorted := Sorted(names);
    forall n | 0 < n < |sorted| && PageEnd(n, q.pageSize) ensures CursorBytes(Identity(q), sorted[n - 1]) <= MAX_CURSOR_BYTES {
      PageEnds(|all|, n, q.pageSize);
      if n == |all| { assert all[n - 1] == sorted[n - 1]; }
    }
  }

  /** A full page ends where the next one starts. */
  lemma OnePageOn(q: Query, names: set<string>, all: seq<string>, position: Option<string>)
    requires q.pageSize > 0 && ListedTo(all, names, position) && Passed(q, Sorted(names), |all|)
    requires all != [] ==> CursorBytes(Identity(q), all[|all| - 1]) <= MAX_CURSOR_BYTES
    requires |all| <= |Sorted(names)| == |names| && all == Sorted(names)[..|all|] && |After(names, position)| > q.pageSize
    ensures Passed(q, Sorted(names), |all| + q.pageSize) && 0 < |all| + q.pageSize < |names|
  {
    hide Sorted;
    hide CursorBytes;
    hide Identity;
    ListedCount(all, names, position);
    hide ListedTo;
    hide After;
    var sorted, n := Sorted(names), |all|;
    PageEnds(n, n, q.pageSize);
    forall m | 0 < m < n + q.pageSize && PageEnd(m, q.pageSize) ensures CursorBytes(Identity(q), sorted[m - 1]) <= MAX_CURSOR_BYTES {
      PageEnds(n, m, q.pageSize);
      if m == n { assert all[m - 1] == sorted[m - 1]; }
    }
  }

  /** Nothing between two page ends is one. */
  lemma {:induction false} PageEnds(n: nat, m: nat, k: nat)
    requires k > 0 && PageEnd(n, k)
    ensures PageEnd(n + k, k)
    ensures n < m < n + k ==> !PageEnd(m, k)
    decreases n
  {
    if n > 0 && n < m < n + k { PageEnds(n - k, m - k, k); }
  }

  /** The URLs of the pages, one after another. */
  function Listed(answers: seq<Answer>): seq<string> {
    if answers == [] then [] else Listed(answers[..|answers| - 1]) + RowURLs(answers[|answers| - 1].rows)
  }

  /** Everything up to the position has been listed, in order. */
  ghost predicate ListedTo(all: seq<string>, names: set<string>, position: Option<string>) {
    && Ascending(all) && Elements(all) == names - After(names, position)
    && (if position.Some? then all != [] && all[|all| - 1] == position.value else all == [])
  }

  lemma FromStart(names: set<string>)
    ensures ListedTo([], names, None)
  {
  }

  /** One more page moves the position past exactly its rows, or completes the list. */
  lemma NextPage(all: seq<string>, names: set<string>, position: Option<string>, urls: seq<string>, k: nat,
                 next: Option<string>)
    requires ListedTo(all, names, position) && IsSmallest(urls, After(names, position), k)
    requires next.Some? <==> |After(names, position)| > k
    requires next.Some? ==> |urls| == k > 0 && next == Some(urls[k - 1])
    ensures next.None? ==> Ascending(all + urls) && Elements(all + urls) == names
    ensures next.Some? ==> ListedTo(all + urls, names, next) && |After(names, next)| < |After(names, position)|
  {
    hide LexLeq;
    var wanted := After(names, position);
    AppendAscends(all, urls, position, wanted);
    if next.None? {
      LastPage(all, urls, names, wanted, k);
    } else {
      PastLast(urls, names, position, k);
      FullPage(all, urls, names, wanted, After(names, next), k);
    }
  }

  lemma LastPage(all: seq<string>, urls: seq<string>, names: set<string>, wanted: set<string>, k: nat)
    requires IsSmallest(urls, wanted, k) && |wanted| <= k && wanted <= names && Elements(all) == names - wanted
    ensures Elements(all + urls) == names
  {
    AscendingCount(urls);
    if |urls| == k { SameSize(Elements(urls), wanted); }
    assert Elements(all + urls) == Elements(all) + Elements(urls);
    assert names == (names - wanted) + wanted;
  }

  lemma FullPage(all: seq<string>, urls: seq<string>, names: set<string>, wanted: set<string>, left: set<string>, k: nat)
    requires |urls| == k > 0 && Elements(urls) <= wanted <= names && Elements(all) == names - wanted
    requires left == wanted - Elements(urls)
    ensures Elements(all + urls) == names - left && |left| < |wanted|
  {
    var last := urls[k - 1];
    assert last in Elements(urls);
    assert Elements(all + urls) == Elements(all) + Elements(urls);
    Fewer(left + {last}, wanted);
  }

  lemma SameSize(a: set<string>, b: set<string>)
    requires a <= b && |a| >= |b|
    ensures a == b
  {
    assert b == a + (b - a);
  }

  lemma AppendAscends(all: seq<string>, urls: seq<string>, position: Option<string>, wanted: set<string>)
    requires Ascending(all) && Ascending(urls) && Elements(urls) <= wanted
    requires if position.Some? then all != [] && all[|all| - 1] == position.value else all == []
    requires position.Some? ==> forall n <- wanted :: Lt(position.value, n)
    ensures Ascending(all + urls)
  {
    hide LexLeq;
    var both := all + urls;
    forall i, j | 0 <= i < j < |both| ensures Lt(both[i], both[j]) {
      if i < |all| && j >= |all| {
        assert urls[j - |all|] in Elements(urls);
        if i < |all| - 1 { LtTransitive(all[i], position.value, both[j]); }
      }
    }
  }

  /** After a full page: the names past its last row are those wanted but not on it. */
  lemma PastLast(urls: seq<string>, names: set<string>, position: Option<string>, k: nat)
    requires IsSmallest(urls, After(names, position), k) && |urls| == k > 0
    ensures After(names, Some(urls[k - 1])) == After(names, position) - Elements(urls)
  {
    hide LexLeq;
    var last := urls[k - 1];
    assert last in urls && last in Elements(urls);
    forall n <- names ensures Lt(last, n) <==> n in After(names, position) && n !in urls {
      if n in urls {
        var j :| 0 <= j < k && urls[j] == n;
        NotAfterLast(urls, j);
      } else if n in After(names, position) {
        assert Lt(last, n);
      } else if Lt(last, n) && position.Some? {
        LtTransitive(position.value, last, n);
      }
    }
  }

  lemma NotAfterLast(urls: seq<string>, j: nat)
    requires Ascending(urls) && j < |urls|
    ensures !Lt(urls[|urls| - 1], urls[j])
  {
    LexTotal(urls[j], urls[|urls| - 1]);
    if j < |urls| - 1 { assert Lt(urls[j], urls[|urls| - 1]); }
  }

  // ---------- A URL too long to continue after ----------

  /** The limit in terms of the URL: 689 bytes as JSON. */
  lemma CursorLimit(q: Query, after: string)
    ensures CursorBytes(Identity(q), after) > MAX_CURSOR_BYTES <==> JsonLen(after) > 689
  {
    var id := Identity(q);
    forall c <- id ensures c < '\U{80}' { assert IsHex(c); }
    ByteLen(id);
  }

  lemma {:induction false} LettersLen(n: nat)
    ensures JsonLen(seq(n, i => 'a')) == n
  {
    if n > 0 {
      LettersLen(n - 1);
      assert seq(n, i => 'a')[1..] == seq(n - 1, i => 'a');
    }
  }

  /**
   * Two documents link to one. The first URL in order has 690 letters, so the cursor of a
   * one-row page is longer than a request may carry and the second document is never listed.
   */
  method LongUrlStuck(raw: string) returns (all: seq<string>, answers: seq<Answer>, stuck: bool)
    ensures stuck && all == [seq(690, i => 'a')]
  {
    var first, second := seq(690, i => 'a'), "b";
    var s := new Store([Edge(first, CanonicalURL(raw), "", "", "", 1), Edge(second, CanonicalURL(raw), "", "", "", 1)]);
    all, answers, stuck := AllPages(s, map[], raw, "incoming", None, 1);
    ghost var q := Query(CanonicalURL(raw), In, None, 1);
    BothLink(s.edges, q, first, second);
    LettersLen(690);
    CursorLimit(q, first);
    assert PageEnd(1, 1);
    assert |all| == 1;
  }

  lemma BothLink(edges: seq<Edge>, q: Query, first: string, second: string)
    requires q.direction == In && q.relations.None? && |edges| == 2 && Lt(first, second)
    requires edges[0].from == first && edges[1].from == second && edges[0].to == edges[1].to == q.url
    ensures Sorted(Neighbors(edges, q)) == [first, second]
  {
    hide LexLeq;
    var names := Neighbors(edges, q);
    forall n ensures n in names <==> n == first || n == second {
      if n == first { assert Matches(edges[0], q) && NeighborOf(edges[0], q.url) == n; }
      if n == second { assert Matches(edges[1], q) && NeighborOf(edges[1], q.url) == n; }
    }
    assert Elements([first, second]) == names;
    AscendingUnique([first, second], Sorted(names));
  }
}
