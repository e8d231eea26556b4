// The breadth-first link crawl: client/graph/crawl.go.
//
// Levels end at a barrier, so the first admission of a URL is at its shortest distance.
// Fetching, parsing and link extraction are one function from a URL to what came back.
module Crawl {
  import opened Seqs

  /** A link or relation of a page, with the bytes its summary costs. */
  datatype Edge = Edge(to: string, summary: nat)

  datatype Problem = NoProblem | OverBudget | ContextDone | OtherError

  /** What a fetch of a mark:// URL gives: summaries are output bytes, size is payload bytes. */
  datatype Page = Page(problem: Problem, status: string, size: nat, edges: seq<Edge>, summary: nat, brief: nat)

  /** What fetchItem hands to observe. */
  datatype Got = Skipped | External | Unparsable | Fetched(page: Page)

  /** bare gives the bytes a node costs when there is no page. */
  datatype Web = Web(isMark: string -> bool, parses: string -> bool, page: string -> Page, bare: string -> Page)

  datatype Reason = NodeCap | FrontierCap | ByteCap | OutputCap | FetchFailure | Cancelled

  datatype Item = Item(url: string, depth: nat)

  datatype Node = Node(depth: nat, incomplete: bool)

  datatype Options = Options(maxDepth: int, workers: int, maxNodes: int, maxFrontier: int, maxFetchBytes: int, maxOutputBytes: int)
  {
    function WithDefaults(): Options {
      var nodes := if maxNodes <= 0 then 1000 else maxNodes;
      var frontier := if maxFrontier <= 0 then nodes else maxFrontier;
      Options(
        if maxDepth < 0 then 2 else maxDepth,
        Min(if workers <= 0 then 5 else workers, 32),
        nodes,
        Min(frontier, nodes),
        if maxFetchBytes <= 0 then 64 * 1024 * 1024 else maxFetchBytes,
        Max(if maxOutputBytes <= 0 then 1024 * 1024 else maxOutputBytes, 1024))
    }

    predicate Usable() {
      maxDepth >= 0 && workers >= 1 && maxNodes >= 1 && 1 <= maxFrontier <= maxNodes && maxFetchBytes >= 1
    }
  }

  function Min(a: int, b: int): int { if a < b then a else b }

  function Max(a: int, b: int): int { if a < b then b else a }

  // ---------- The graph being crawled ----------

  function Tos(edges: seq<Edge>): set<string> { set e <- edges :: e.to }

  /** The pages u links to, as far as u can be read. */
  function Targets(web: Web, u: string): set<string> {
    if web.isMark(u) && web.parses(u) && web.page(u).problem.NoProblem? && web.page(u).status == "ok"
    then Tos(web.page(u).edges)
    else {}
  }

  function TargetsOf(web: Web, us: set<string>): set<string> { set u, t | u in us && t in Targets(web, u) :: t }

  /** Everything within d links of start. */
  function Within(web: Web, start: string, d: nat): set<string> {
    if d == 0 then {start} else Within(web, start, d - 1) + TargetsOf(web, Within(web, start, d - 1))
  }

  /** The URLs whose shortest path from start has d links. */
  function Ring(web: Web, start: string, d: nat): set<string> {
    if d == 0 then {start} else Within(web, start, d) - Within(web, start, d - 1)
  }

  /** Only the outermost ring can lead to anything new. */
  lemma WithinRing(web: Web, start: string, d: nat)
    ensures Within(web, start, d + 1) == Within(web, start, d) + TargetsOf(web, Ring(web, start, d))
    ensures Ring(web, start, d) <= Within(web, start, d)
  {
    var now := Within(web, start, d);
    forall t | t in TargetsOf(web, now) ensures t in now + TargetsOf(web, Ring(web, start, d)) {
      var u :| u in now && t in Targets(web, u);
      if d > 0 && u in Within(web, start, d - 1) {
        assert t in TargetsOf(web, Within(web, start, d - 1));
      } else {
        assert u in Ring(web, start, d);
      }
    }
  }

  /** A ring without members closes the graph. */
  lemma {:induction false} Closed(web: Web, start: string, d: nat, more: nat)
    requires Ring(web, start, d) == {} && d <= more
    ensures Within(web, start, more) == Within(web, start, d)
    decreases more - d
  {
    if d < more {
      hide Within;
      hide Ring;
      RingEnds(web, start, d);
      Closed(web, start, d + 1, more);
    }
  }

  lemma RingEnds(web: Web, start: string, d: nat)
    requires Ring(web, start, d) == {}
    ensures Ring(web, start, d + 1) == {} && Within(web, start, d + 1) == Within(web, start, d)
  {
    WithinRing(web, start, d);
    NoPages(web);
    hide TargetsOf;
  }

  lemma NoPages(web: Web)
    ensures TargetsOf(web, {}) == {}
  {
  }

  lemma {:induction false} WithinGrows(web: Web, start: string, d: nat, more: nat)
    requires d <= more
    ensures Within(web, start, d) <= Within(web, start, more)
  {
    if d < more { WithinGrows(web, start, d, more - 1); }
  }

  // ---------- What reading and reporting the graph costs ----------

  /** The bytes of all of us. */
  ghost function Total(cost: string -> nat, us: set<string>): nat
    decreases us
  {
    if us == {} then 0
    else
      var u := Any(us);
      cost(u) + Total(cost, us - {u})
  }

  lemma {:induction false} TotalWithout(cost: string -> nat, us: set<string>, u: string)
    requires u in us
    ensures Total(cost, us) == cost(u) + Total(cost, us - {u})
    decreases us
  {
    var w := Any(us);
    if w != u {
      TotalWithout(cost, us - {w}, u);
      TotalWithout(cost, us - {u}, w);
      assert us - {w} - {u} == us - {u} - {w};
    }
  }

  lemma {:induction false} TotalGrows(cost: string -> nat, us: set<string>, more: set<string>)
    requires us <= more
    ensures Total(cost, us) <= Total(cost, more)
    decreases more
  {
    if more - us != {} {
      var u := Any(more - us);
      TotalWithout(cost, more, u);
      TotalGrows(cost, us, more - {u});
    } else {
      forall u ensures u in us <==> u in more {
        if u !in us { assert u !in more - us; }
      }
      assert us == more;
    }
  }

  /** The room a page's edges take. */
  function EdgeCost(edges: seq<Edge>): nat {
    if edges == [] then 0 else EdgeCost(edges[..|edges| - 1]) + edges[|edges| - 1].summary + 20
  }

  lemma EdgeCostStep(edges: seq<Edge>, i: nat)
    requires i < |edges|
    ensures EdgeCost(edges[..i + 1]) == EdgeCost(edges[..i]) + edges[i].summary + 20
  {
    assert edges[..i + 1][..i] == edges[..i];
  }

  lemma {:induction false} EdgeCostGrows(edges: seq<Edge>, i: nat)
    requires i <= |edges|
    ensures EdgeCost(edges[..i]) <= EdgeCost(edges)
    decreases |edges| - i
  {
    if i < |edges| {
      EdgeCostStep(edges, i);
      EdgeCostGrows(edges, i + 1);
    } else {
      assert edges[..i] == edges;
    }
  }

  /** The payload of a URL, read or not. */
  function Sizes(web: Web): string -> nat { u => SizeOf(web, u) }

  function SizeOf(web: Web, u: string): nat {
    if web.page(u).size > web.bare(u).size then web.page(u).size else web.bare(u).size
  }

  /** The output room of a URL's node, read or not, and of its edges. */
  function Costs(web: Web): string -> nat { u => CostOf(web, u) }

  function CostOf(web: Web, u: string): nat {
    (if web.page(u).summary > web.bare(u).summary then web.page(u).summary else web.bare(u).summary) + 32 +
    EdgeCost(EdgesOf(Expected(web, u)))
  }

  /** A fetch of u ends with the transport's own byte budget used up. */
  predicate CutOff(web: Web, u: string) { web.page(u).problem.OverBudget? }

  /** What one observation adds to the two totals, and what makes it report a budget. */
  predicate Charged(web: Web, opts: Options, u: string, r0: set<Reason>, r1: set<Reason>, f0: int, f1: int, o0: int, o1: int) {
    && (ByteCap in r1 && ByteCap !in r0 ==> CutOff(web, u) || f0 + SizeOf(web, u) > opts.maxFetchBytes)
    && (ByteCap !in r1 ==> f1 <= f0 + SizeOf(web, u))
    && (OutputCap in r1 && OutputCap !in r0 ==> o0 + CostOf(web, u) > opts.maxOutputBytes)
    && (OutputCap !in r1 ==> o1 <= o0 + CostOf(web, u))
  }

  // ---------- The crawl ----------

  function Urls(items: seq<Item>): set<string> { set i <- items :: i.url }

  ghost predicate DistinctUrls(items: seq<Item>) {
    forall i, j :: 0 <= i < j < |items| ==> items[i].url != items[j].url
  }

  ghost predicate AllAt(items: seq<Item>, depth: nat) { forall i <- items :: i.depth == depth }

  class CrawlRun {
    const web: Web
    const opts: Options
    /** The URLs admitted, and those of them waiting for the next level. */
    var visited: set<string>
    var next: seq<Item>
    /** What is left of the current level. */
    var pending: nat
    var outputBytes: int
    var fetchedBytes: int
    var admitted: nat
    var peakFrontier: nat
    var reasons: set<Reason>
    /** The graph: observed pages, and the links and relations recorded between URLs. */
    var nodes: map<string, Node>
    var links: set<(string, string)>
    var cancelled: bool
    /** Output bytes taken before the first node. */
    const base: int
    /** Every URL handed to the fetcher, in number, and those observed. */
    ghost var asked: multiset<string>
    ghost var counted: set<string>

    /** The caps hold. */
    ghost predicate Bounded()
      reads `visited, `next, `pending, `admitted, `peakFrontier, `outputBytes, `fetchedBytes
    {
      && opts.Usable()
      && admitted == |visited| <= opts.maxNodes
      && pending + |next| <= opts.maxFrontier
      && peakFrontier <= opts.maxFrontier
      && outputBytes <= opts.maxOutputBytes && fetchedBytes <= opts.maxFetchBytes
      && Urls(next) <= visited && DistinctUrls(next)
    }

    constructor (web: Web, opts: Options, startBytes: nat)
      requires opts.Usable() && startBytes <= opts.maxOutputBytes - 512
      ensures Bounded() && this.web == web && this.opts == opts && base == 512 + startBytes
      ensures counted == {} && outputBytes == base && fetchedBytes == 0
      ensures visited == {} && next == [] && reasons == {} && nodes == map[] && links == {} && asked == multiset{}
      ensures pending == 0 && !cancelled
    {
      this.web, this.opts, base := web, opts, 512 + startBytes;
      visited, next, pending, outputBytes, fetchedBytes := {}, [], 0, 512 + startBytes, 0;
      admitted, peakFrontier, reasons, nodes, links, cancelled := 0, 0, {}, map[], {}, false;
      asked, counted := multiset{}, {};
    }

    /** The start URL is the first node admitted. */
    method Begin(start: string) returns (frontier: seq<Item>)
      requires Bounded() && visited == {} && next == [] && pending == 0
      modifies `visited, `admitted, `peakFrontier
      ensures Bounded() && visited == {start} && frontier == [Item(start, 0)]
    {
      visited, admitted, peakFrontier := {start}, 1, 1;
      return [Item(start, 0)];
    }

    /** The context may be cancelled between any two steps, and stays cancelled. */
    method Tick()
      modifies `cancelled
      ensures old(cancelled) ==> cancelled
      ensures old(Bounded()) ==> Bounded()
      ensures forall start: string :: old(Honest(start)) ==> Honest(start)
    {
      if * { cancelled := true; }
    }

    method ReserveOutput(bytes: int) returns (ok: bool)
      modifies `reasons, `outputBytes
      ensures ok <==> old(outputBytes) + bytes <= opts.maxOutputBytes
      ensures outputBytes == if ok then old(outputBytes) + bytes else old(outputBytes)
      ensures reasons == if ok then old(reasons) else old(reasons) + {OutputCap}
    {
      if bytes > opts.maxOutputBytes - outputBytes {
        reasons := reasons + {OutputCap};
        return false;
      }
      outputBytes := outputBytes + bytes;
      return true;
    }

    /** Queues a URL not seen before, unless it is too deep or a cap is reached. */
    method Admit(url: string, parentDepth: nat)
      requires Bounded() && parentDepth <= opts.maxDepth
      modifies `visited, `next, `admitted, `peakFrontier, `reasons
      ensures Bounded() && old(reasons) <= reasons
      ensures Grown(old(visited), old(next), visited, next, NewFrom({url}, parentDepth, opts.maxDepth), parentDepth, reasons == {})
      ensures parentDepth == opts.maxDepth || url in old(visited) ==>
        visited == old(visited) && next == old(next) && reasons == old(reasons)
      ensures parentDepth != opts.maxDepth && url !in old(visited) ==>
        if old(admitted) == opts.maxNodes || pending + |old(next)| == opts.maxFrontier
        then visited == old(visited) && next == old(next) &&
             reasons == old(reasons) + {if old(admitted) == opts.maxNodes then NodeCap else FrontierCap}
        else visited == old(visited) + {url} && next == old(next) + [Item(url, parentDepth + 1)] && reasons == old(reasons)
    {
      hide Grown;
      if parentDepth == opts.maxDepth || url in visited {
        AlreadyIn(visited, next, url, parentDepth, opts.maxDepth, reasons == {});
        return;
      }
      if admitted == opts.maxNodes {
        reasons := reasons + {NodeCap};
        TurnedAway(visited, next, url, parentDepth, opts.maxDepth);
        return;
      }
      if pending + |next| == opts.maxFrontier {
        reasons := reasons + {FrontierCap};
        TurnedAway(visited, next, url, parentDepth, opts.maxDepth);
        return;
      }
      LetIn(visited, next, url, parentDepth, opts.maxDepth, reasons == {});
      visited := visited + {url};
      next := next + [Item(url, parentDepth + 1)];
      admitted := admitted + 1;
      peakFrontier := Max(peakFrontier, pending + |next|);
    }

    /** Goes to the network once per mark:// URL; a done context skips the fetch. */
    method FetchItem(url: string) returns (got: Got)
      modifies `asked, `cancelled
      ensures old(cancelled) ==> cancelled
      ensures !cancelled ==> got == Expected(web, url)
      ensures got == Skipped || got == Expected(web, url)
      ensures asked == old(asked) || asked == old(asked) + multiset{url}
    {
      Tick();
      if cancelled { return Skipped; }
      if !web.isMark(url) { return External; }
      if !web.parses(url) { return Unparsable; }
      asked := asked + multiset{url};
      return Fetched(web.page(url));
    }

    /** Records what went wrong with a node, if anything. */
    method Classify(got: Got)
      requires got.Skipped? ==> cancelled
      modifies `reasons
      ensures old(reasons) <= reasons <= old(reasons) + {ByteCap, FetchFailure}
      ensures reasons == {} && !cancelled ==> Read(got)
      ensures FetchFailure in reasons ==> FetchFailure in old(reasons) || (!got.Skipped? && !Read(got))
      ensures ByteCap in reasons ==> ByteCap in old(reasons) || (got.Fetched? && got.page.problem.OverBudget?)
    {
      match got {
      case External => return;
      case Skipped => if cancelled { return; }
      case Unparsable =>
      case Fetched(page) =>
        if page.problem.OverBudget? {
          reasons := reasons + {ByteCap};
          return;
        }
        if page.problem.ContextDone? && cancelled { return; }
        if page.problem.NoProblem? && Observed(page.status) { return; }
      }
      reasons := reasons + {FetchFailure};
    }

    /** Counts the payload against the read budget. */
    method CountBytes(size: nat) returns (incomplete: bool)
      modifies `reasons, `fetchedBytes
      ensures incomplete <==> old(fetchedBytes) + size > opts.maxFetchBytes
      ensures fetchedBytes == if incomplete then old(fetchedBytes) else old(fetchedBytes) + size
      ensures reasons == if incomplete then old(reasons) + {ByteCap} else old(reasons)
    {
      if size > opts.maxFetchBytes - fetchedBytes {
        reasons := reasons + {ByteCap};
        return true;
      }
      fetchedBytes := fetchedBytes + size;
      return false;
    }

    /** Admits one more URL after some, which were offered from the state v0, q0, r0. */
    method Offer(url: string, depth: nat, ghost v0: set<string>, ghost q0: seq<Item>, ghost r0: set<Reason>, ghost some: set<string>,
                 ghost clean: bool)
      requires Bounded() && depth <= opts.maxDepth && (reasons == {} ==> clean)
      requires Grown(v0, q0, visited, next, some, depth, clean)
      requires CapsReal(opts, pending, r0, reasons, visited, next, some)
      modifies `visited, `next, `admitted, `peakFrontier, `reasons
      ensures Bounded() && old(reasons) <= reasons <= old(reasons) + {NodeCap, FrontierCap}
      ensures Grown(v0, q0, visited, next, some + NewFrom({url}, depth, opts.maxDepth), depth, reasons == {})
      ensures CapsReal(opts, pending, r0, reasons, visited, next, some + NewFrom({url}, depth, opts.maxDepth))
    {
      hide Grown;
      hide CapsReal;
      hide NewFrom;
      ghost var v, q, r := visited, next, reasons;
      BoundedQueue(this);
      hide Bounded;
      Admit(url, depth);
      GrownTwice(v0, q0, v, q, visited, next, some, NewFrom({url}, depth, opts.maxDepth), depth, clean, reasons == {});
      CapsTwice(opts, pending, r0, r, v, q, some, depth, url, reasons, visited, next);
    }

    /** Records each edge there is room for and admits its target, stopping when the room is used up. */
    method AdmitEdges(from: string, edges: seq<Edge>, depth: nat) returns (cut: bool)
      requires Bounded() && depth <= opts.maxDepth
      modifies `visited, `next, `admitted, `peakFrontier, `reasons, `outputBytes, `links
      ensures Bounded() && old(reasons) <= reasons <= old(reasons) + {NodeCap, FrontierCap, OutputCap}
      ensures cut ==> OutputCap in reasons
      ensures Grown(old(visited), old(next), visited, next, NewFrom(Tos(edges), depth, opts.maxDepth), depth, reasons == {})
      ensures CapsReal(opts, pending, old(reasons), reasons, visited, next, NewFrom(Tos(edges), depth, opts.maxDepth))
      ensures old(links) <= links <= old(links) + LinksFrom(from, Tos(edges))
      ensures !cut ==> links == old(links) + LinksFrom(from, Tos(edges))
      ensures OutputCap in reasons && OutputCap !in old(reasons) ==> old(outputBytes) + EdgeCost(edges) > opts.maxOutputBytes
      ensures OutputCap !in reasons ==> outputBytes == old(outputBytes) + EdgeCost(edges)
    {
      hide EdgeCost;
      NoEdgeCost();
      hide Bounded;
      hide Grown;
      hide CapsReal;
      hide NewFrom;
      hide LinksFrom;
      hide Tos;
      cut := false;
      NotGrown(visited, next, depth, reasons == {});
      NoCaps(opts, pending, reasons, visited, next, {});
      NoTargets(edges, depth, opts.maxDepth);
      NoLinks(from, edges);
      ghost var some: set<string> := {};
      for i := 0 to |edges|
        invariant Bounded() && old(reasons) <= reasons <= old(reasons) + {NodeCap, FrontierCap, OutputCap}
        invariant some == NewFrom(Tos(edges[..i]), depth, opts.maxDepth)
        invariant Grown(old(visited), old(next), visited, next, some, depth, reasons == {})
        invariant CapsReal(opts, pending, old(reasons), reasons, visited, next, some)
        invariant links == old(links) + LinksFrom(from, Tos(edges[..i]))
        invariant outputBytes == old(outputBytes) + EdgeCost(edges[..i]) && (OutputCap in reasons ==> OutputCap in old(reasons))
      {
        EdgeCostStep(edges, i);
        EdgeCostGrows(edges, i + 1);
        TosStep(edges, i, depth, opts.maxDepth);
        LinksStep(from, edges, i);
        ghost var clean, was := reasons == {}, reasons;
        var ok := Afford(edges[i].summary + 20);
        if !ok {
          Less(old(visited), old(next), visited, next, some, NewFrom(Tos(edges), depth, opts.maxDepth), depth, clean);
          CapsMore(opts, pending, old(reasons), reasons, visited, next, some, NewFrom(Tos(edges), depth, opts.maxDepth), was);
          return true;
        }
        links := links + {(from, edges[i].to)};
        Offer(edges[i].to, depth, old(visited), old(next), old(reasons), some, clean);
        some := some + NewFrom({edges[i].to}, depth, opts.maxDepth);
      }
      assert edges[..|edges|] == edges;
    }

    /** ReserveOutput leaves the queue alone. */
    method Afford(bytes: int) returns (ok: bool)
      requires Bounded()
      modifies `reasons, `outputBytes
      ensures Bounded() && reasons == if ok then old(reasons) else old(reasons) + {OutputCap}
      ensures ok <==> old(outputBytes) + bytes <= opts.maxOutputBytes
      ensures outputBytes == if ok then old(outputBytes) + bytes else old(outputBytes)
    {
      ok := ReserveOutput(bytes);
    }

    /** Room for a node with what was read, or else for a bare one. */
    method TakeRoom(page: Page) returns (whole: bool, room: bool)
      requires Bounded()
      modifies `reasons, `outputBytes
      ensures Bounded() && (whole ==> room)
      ensures reasons == if whole then old(reasons) else old(reasons) + {OutputCap}
      ensures whole <==> old(outputBytes) + page.summary + 32 <= opts.maxOutputBytes
      ensures whole ==> outputBytes == old(outputBytes) + page.summary + 32
      ensures !whole ==> outputBytes == if room then old(outputBytes) + page.brief else old(outputBytes)
    {
      whole := Afford(page.summary + 32);
      room := whole;
      if !whole { room := Afford(page.brief); }
    }

    /** What a result brings and costs: the edges to record, and whether there is room for its node. */
    method Weigh(url: string, got: Got) returns (incomplete: bool, room: bool, edges: seq<Edge>)
      requires Bounded() && (got.Skipped? ==> cancelled)
      modifies `reasons, `fetchedBytes, `outputBytes
      ensures Bounded() && old(reasons) <= reasons <= old(reasons) + {ByteCap, FetchFailure, OutputCap}
      ensures (edges == EdgesOf(got) || edges == []) && (!room ==> OutputCap in reasons)
      ensures reasons == {} ==> !incomplete && edges == EdgesOf(got) && (cancelled || Read(got))
      ensures FetchFailure in reasons ==> FetchFailure in old(reasons) || (!got.Skipped? && !Read(got))
      ensures ByteCap in reasons && ByteCap !in old(reasons) ==>
        (got.Fetched? && got.page.problem.OverBudget?) || old(fetchedBytes) + PageOf(web, url, got).size > opts.maxFetchBytes
      ensures fetchedBytes <= old(fetchedBytes) + PageOf(web, url, got).size
      ensures OutputCap in reasons && OutputCap !in old(reasons) ==>
        old(outputBytes) + PageOf(web, url, got).summary + 32 > opts.maxOutputBytes
      ensures OutputCap !in reasons ==> outputBytes == old(outputBytes) + PageOf(web, url, got).summary + 32
    {
      hide PageOf;
      hide EdgesOf;
      hide Read;
      hide Bounded;
      var page := PageOf(web, url, got);
      incomplete, edges := Inspect(url, got);
      var whole;
      whole, room := TakeRoom(page);
      incomplete := incomplete || !whole;
    }

    /** Turns one fetch result into a node, its edges and the URLs they admit. */
    method Observe(item: Item, got: Got)
      requires Bounded() && item.depth <= opts.maxDepth
      requires got == Expected(web, item.url) || (got.Skipped? && cancelled)
      modifies `visited, `next, `admitted, `peakFrontier, `reasons, `outputBytes, `fetchedBytes, `nodes, `links
      ensures Bounded() && old(reasons) <= reasons && (Cancelled in reasons ==> Cancelled in old(reasons))
      ensures Grown(old(visited), old(next), visited, next, NewFrom(Targets(web, item.url), item.depth, opts.maxDepth),
                    item.depth, reasons == {} && !cancelled)
      ensures CapsReal(opts, pending, old(reasons), reasons, visited, next,
                       NewFrom(Targets(web, item.url), item.depth, opts.maxDepth))
      ensures FetchFailure in reasons ==> FetchFailure in old(reasons) || !Read(Expected(web, item.url))
      ensures reasons == {} ==> nodes == old(nodes)[item.url := Node(item.depth, false)]
      ensures NodeAdded(old(nodes), nodes, item)
      ensures old(links) <= links <= old(links) + LinksFrom(item.url, Targets(web, item.url))
      ensures reasons == {} && !cancelled ==> links == old(links) + LinksFrom(item.url, Targets(web, item.url))
      ensures Charged(web, opts, item.url, old(reasons), reasons, old(fetchedBytes), fetchedBytes, old(outputBytes), outputBytes)
    {
      hide PageOf;
      hide Observed;
      hide NodeAdded;
      hide EdgeCost;
      hide Charged;
      hide EdgesOf;
      hide Grown;
      hide Targets;
      hide Read;
      hide Bounded;
      hide Expected;
      hide NewFrom;
      hide Tos;
      hide CapsReal;
      hide LinksFrom;
      ghost var all := NewFrom(Targets(web, item.url), item.depth, opts.maxDepth);
      var incomplete, room, edges := Weigh(item.url, got);
      EdgesAreTargets(web, item, got, edges, opts.maxDepth);
      ghost var before := reasons;
      Record(item, edges, incomplete, room, all, reasons == {} && !cancelled);
      OtherReasons(opts, pending, old(reasons), before, reasons, visited, next, all);
      Charges(web, opts, item.url, got, edges, old(reasons), reasons, old(fetchedBytes), fetchedBytes,
              old(outputBytes), outputBytes);
    }

    /** When there is room, the edges of an observed page, then its node; all is what the page could admit. */
    method Record(item: Item, edges: seq<Edge>, incomplete: bool, room: bool, ghost all: set<string>, ghost whole: bool)
      requires Bounded() && item.depth <= opts.maxDepth && (!room ==> OutputCap in reasons)
      requires NewFrom(Tos(edges), item.depth, opts.maxDepth) <= all && Tos(edges) <= Targets(web, item.url)
      requires whole ==> NewFrom(Tos(edges), item.depth, opts.maxDepth) == all && Tos(edges) == Targets(web, item.url)
      requires !whole ==> reasons != {} || cancelled
      modifies `visited, `next, `admitted, `peakFrontier, `reasons, `outputBytes, `nodes, `links
      ensures Bounded() && old(reasons) <= reasons <= old(reasons) + {NodeCap, FrontierCap, OutputCap}
      ensures Grown(old(visited), old(next), visited, next, all, item.depth, reasons == {} && !cancelled)
      ensures CapsReal(opts, pending, old(reasons), reasons, visited, next, all)
      ensures reasons == {} ==> nodes == old(nodes)[item.url := Node(item.depth, incomplete)]
      ensures NodeAdded(old(nodes), nodes, item)
      ensures old(links) <= links <= old(links) + LinksFrom(item.url, Targets(web, item.url))
      ensures reasons == {} && !cancelled ==> links == old(links) + LinksFrom(item.url, Targets(web, item.url))
      ensures OutputCap in reasons && OutputCap !in old(reasons) ==> old(outputBytes) + EdgeCost(edges) > opts.maxOutputBytes
      ensures OutputCap !in reasons ==> outputBytes == old(outputBytes) + EdgeCost(edges)
    {
      hide EdgeCost;
      hide Grown;
      hide Targets;
      hide NodeAdded;
      hide Bounded;
      hide NewFrom;
      hide Tos;
      hide CapsReal;
      if !room {
        Stopped(visited, next, all, item.depth);
        SameNodes(nodes, item);
        NoCaps(opts, pending, reasons, visited, next, all);
        return;
      }
      ghost var some := NewFrom(Tos(edges), item.depth, opts.maxDepth);
      var cut := AdmitEdges(item.url, edges, item.depth);
      if reasons != {} || cancelled { Less(old(visited), old(next), visited, next, some, all, item.depth, reasons == {}); }
      CapsMore(opts, pending, old(reasons), reasons, visited, next, some, all, reasons);
      AddNode(item, incomplete || cut);
    }

    /** Every reported reason happened, and the graph holds nothing but what was read. */
    ghost predicate Honest(start: string)
      reads this
    {
      opts.maxDepth >= 0 && HonestOk(web, opts, start, visited, nodes, links, reasons, cancelled)
    }

    /** Where a level stands: rest is not observed yet, done is. */
    ghost predicate Level(start: string, k: nat, rest: seq<Item>, done: set<string>)
      reads this
    {
      LevelOk(web, opts.maxDepth, start, k, rest, done, visited, next, nodes, reasons == {} && !cancelled)
    }

    /** The totals stand for what has been observed, each URL once, and a reported budget is really too small. */
    ghost predicate Paid(start: string, waiting: seq<Item>)
      reads this
    {
      PaidOk(web, opts, base, start, visited, next, waiting, reasons, Spent(counted, fetchedBytes, outputBytes))
    }

    /** No URL has been fetched twice, and none that still waits has been fetched. */
    ghost predicate AskedOnce(waiting: seq<Item>)
      reads this
    {
      AskedOk(asked, visited, next, waiting)
    }

    /** Fetches a batch: the results line up with the items, each skipped only by a done context. */
    method FetchBatch(batch: seq<Item>, ghost frontier: seq<Item>, ghost start: string, ghost k: nat, ghost done: set<string>)
      returns (results: seq<Got>)
      requires Bounded() && Level(start, k, batch + frontier, done) && AskedOnce(batch + frontier)
      modifies `asked, `cancelled
      ensures Bounded() && Level(start, k, batch + frontier, done) && AskedOnce(frontier)
      ensures old(Honest(start)) ==> Honest(start)
      ensures |results| == |batch|
      ensures forall i :: 0 <= i < |batch| ==> results[i] == Expected(web, batch[i].url) || (results[i].Skipped? && cancelled)
    {
      hide Expected;
      hide LevelOk;
      hide HonestOk;
      ghost var first := cancelled;
      BatchDistinct(batch, frontier, start, k, done);
      results := [];
      for i := 0 to |batch|
        invariant |results| == i && Bounded() && Level(start, k, batch + frontier, done) && (old(cancelled) ==> cancelled)
        invariant forall j :: 0 <= j < i ==> results[j] == Expected(web, batch[j].url) || (results[j].Skipped? && cancelled)
        invariant AskedOnce(batch[i..] + frontier)
      {
        ghost var was := cancelled;
        assert batch[i..] + frontier == [batch[i]] + (batch[i + 1..] + frontier);
        var got := FetchItem(batch[i].url);
        LaterCancelled(start, k, batch + frontier, done, was);
        results := results + [got];
      }
      assert batch[|batch|..] + frontier == frontier;
      HonestLater(web, opts, start, visited, nodes, links, reasons, first, cancelled);
    }

    lemma BatchDistinct(batch: seq<Item>, frontier: seq<Item>, start: string, k: nat, done: set<string>)
      requires Level(start, k, batch + frontier, done)
      ensures forall i :: 0 <= i < |batch| ==>
        batch[i].url in visited && batch[i].url !in Urls(batch[i + 1..] + frontier) && batch[i].url !in Urls(next)
    {
      var all := batch + frontier;
      forall i | 0 <= i < |batch|
        ensures batch[i].url in visited && batch[i].url !in Urls(batch[i + 1..] + frontier) && batch[i].url !in Urls(next)
      {
        assert all[i] == batch[i] && all[i].url in Urls(all);
        assert batch[i + 1..] + frontier == all[i + 1..];
      }
    }

    lemma LaterCancelled(start: string, k: nat, rest: seq<Item>, done: set<string>, was: bool)
      requires LevelOk(web, opts.maxDepth, start, k, rest, done, visited, next, nodes, reasons == {} && !was)
      requires was ==> cancelled
      ensures Level(start, k, rest, done)
    {
    }

    /** Observes the level's next item; later is what follows it in the batch. */
    method ObserveNext(item: Item, got: Got, ghost later: seq<Item>, ghost frontier: seq<Item>, ghost start: string,
                       ghost k: nat, ghost now: set<string>)
      requires Bounded() && Level(start, k, [item] + (later + frontier), now) && AskedOnce(frontier)
      requires Honest(start) && Paid(start, [item] + (later + frontier))
      requires k <= opts.maxDepth && pending == |frontier|
      requires got == Expected(web, item.url) || (got.Skipped? && cancelled)
      modifies `visited, `next, `admitted, `peakFrontier, `reasons, `outputBytes, `fetchedBytes, `nodes, `links, `counted
      ensures Bounded() && Level(start, k, later + frontier, now + {item.url}) && AskedOnce(frontier) && Honest(start)
      ensures Paid(start, later + frontier)
    {
      hide PaidOk;
      hide Charged;
      hide LevelOk;
      hide Bounded;
      hide Expected;
      hide Grown;
      hide NodeAdded;
      hide AskedOk;
      hide CapsReal;
      hide HonestOk;
      hide Within;
      hide Read;
      hide LinksFrom;
      hide NewFrom;
      ghost var rest := later + frontier;
      ghost var v, q, ns, clean, r, ls := visited, next, nodes, reasons == {} && !cancelled, reasons, links;
      ghost var s := Spent(counted, fetchedBytes, outputBytes);
      LevelDepth(web, opts.maxDepth, start, k, item, rest, now, v, q, ns, clean);
      Observe(item, got);
      ghost var clean' := reasons == {} && !cancelled;
      ObserveKeeps(web, opts.maxDepth, start, k, item, rest, now, v, q, ns, clean, visited, next, nodes, clean');
      StillAsked(asked, v, q, visited, next, frontier, NewFrom(Targets(web, item.url), item.depth, opts.maxDepth), item.depth, clean');
      StillHonest(this, start, k, item, later, frontier, now, v, q, ns, r, ls);
      ItemApart(web, opts.maxDepth, start, k, item, rest, now, v, q, ns, clean);
      FoundWithin(web, opts.maxDepth, start, k, rest, now + {item.url}, visited, next, nodes, clean');
      StillPaid(web, opts, base, start, item, rest, v, q, r, s, visited, next, reasons, fetchedBytes, outputBytes,
                NewFrom(Targets(web, item.url), item.depth, opts.maxDepth), clean');
      counted := counted + {item.url};
    }

    /** Observes a fetched batch item by item. */
    method ObserveBatch(batch: seq<Item>, results: seq<Got>, ghost frontier: seq<Item>, ghost start: string,
                        ghost k: nat, ghost done: set<string>)
      requires Bounded() && Level(start, k, batch + frontier, done) && AskedOnce(frontier) && |results| == |batch|
      requires Honest(start) && Paid(start, batch + frontier)
      requires k <= opts.maxDepth && pending == |frontier|
      requires forall i :: 0 <= i < |batch| ==>
        results[i] == Expected(web, batch[i].url) || (results[i].Skipped? && cancelled)
      modifies `visited, `next, `admitted, `peakFrontier, `reasons, `outputBytes, `fetchedBytes, `nodes, `links, `counted
      ensures Bounded() && Level(start, k, frontier, done + Urls(batch)) && AskedOnce(frontier) && Honest(start)
      ensures Paid(start, frontier)
    {
      hide PaidOk;
      hide Charged;
      hide LevelOk;
      hide Bounded;
      hide Expected;
      hide Grown;
      hide NodeAdded;
      hide AskedOk;
      hide CapsReal;
      hide HonestOk;
      assert batch[0..] + frontier == batch + frontier && Urls(batch[..0]) == {};
      assert done + {} == done;
      for i := 0 to |batch|
        invariant Bounded() && Level(start, k, batch[i..] + frontier, done + Urls(batch[..i])) && AskedOnce(frontier)
        invariant Honest(start) && Paid(start, batch[i..] + frontier)
      {
        var item := batch[i];
        ghost var now := done + Urls(batch[..i]);
        assert batch[i..] + frontier == [item] + (batch[i + 1..] + frontier);
        ObserveNext(item, results[i], batch[i + 1..], frontier, start, k, now);
        assert batch[..i + 1] == batch[..i] + [item] && Urls([item]) == {item.url};
        assert now + {item.url} == done + Urls(batch[..i + 1]);
      }
      assert batch[|batch|..] + frontier == frontier && batch[..|batch|] == batch;
    }

    /** Takes the next Workers items of the level, fetches them together and observes them in order. */
    method RunBatch(frontier: seq<Item>, ghost start: string, ghost k: nat, ghost done: set<string>)
      returns (rest: seq<Item>, ghost now: set<string>)
      requires Bounded() && Level(start, k, frontier, done) && AskedOnce(frontier)
      requires frontier != [] && |frontier| + |next| <= opts.maxFrontier && Honest(start) && Paid(start, frontier)
      modifies this
      ensures Bounded() && Level(start, k, rest, now) && AskedOnce(rest) && Honest(start) && Paid(start, rest)
      ensures |rest| + |next| <= opts.maxFrontier && |rest| < |frontier|
    {
      hide LevelOk;
      hide AskedOk;
      hide HonestOk;
      hide PaidOk;
      var batchSize := Min(|frontier|, opts.workers);
      var batch := frontier[..batchSize];
      rest := frontier[batchSize..];
      assert frontier == batch + rest;
      pending := |rest|;
      assert Level(start, k, batch + rest, done) && AskedOnce(batch + rest);
      LevelWithin(web, opts.maxDepth, start, k, frontier, done, visited, next, nodes, reasons == {} && !cancelled);
      var results := FetchBatch(batch, rest, start, k, done);
      ObserveBatch(batch, results, rest, start, k, done);
      now := done + Urls(batch);
      if ByteCap in reasons || OutputCap in reasons {
        GiveUp(rest, start, k, now);
        rest := [];
      }
    }

    /** A used-up budget abandons what waits. */
    method GiveUp(ghost rest: seq<Item>, ghost start: string, ghost k: nat, ghost done: set<string>)
      requires Bounded() && Level(start, k, rest, done) && AskedOnce(rest) && Honest(start) && Paid(start, rest) && reasons != {}
      modifies `next, `pending
      ensures Bounded() && Level(start, k, [], done) && AskedOnce([]) && Honest(start) && Paid(start, []) && next == []
    {
      hide PaidOk;
      StillOwed(web, opts, base, start, visited, next, rest, reasons, Spent(counted, fetchedBytes, outputBytes));
      hide LevelOk;
      hide AskedOk;
      hide HonestOk;
      Abandoned(web, opts.maxDepth, start, k, rest, done, visited, next, nodes);
      FewerWaiting(asked, visited, next, rest);
      next, pending := [], 0;
    }

    /** Works through one level batch by batch; only a done context leaves some of it. */
    method RunLevel(level: seq<Item>, ghost start: string, ghost k: nat) returns (ghost rest: seq<Item>, ghost done: set<string>)
      requires Bounded() && Level(start, k, level, {}) && AskedOnce(level) && next == [] && |level| <= opts.maxFrontier
      requires Honest(start) && Paid(start, level)
      modifies this
      ensures Bounded() && Level(start, k, rest, done) && AskedOnce(rest) && Honest(start) && Paid(start, rest)
      ensures rest == [] || cancelled
    {
      hide PaidOk;
      hide Bounded;
      hide LevelOk;
      hide AskedOk;
      var frontier := level;
      done := {};
      while |frontier| > 0
        invariant Bounded() && Level(start, k, frontier, done) && AskedOnce(frontier) && Honest(start) && Paid(start, frontier)
        invariant |frontier| + |next| <= opts.maxFrontier
        decreases |frontier|
      {
        ghost var was := cancelled;
        Tick();
        LaterCancelled(start, k, frontier, done, was);
        if cancelled { return frontier, done; }
        frontier, done := RunBatch(frontier, start, k, done);
      }
      return frontier, done;
    }

    /** Level after level until none is left or the context is done. */
    method RunLevels(first: seq<Item>, ghost start: string) returns (ghost k: nat, ghost rest: seq<Item>)
      requires Bounded() && Level(start, 0, first, {}) && AskedOnce(first) && next == [] && |first| <= opts.maxFrontier
      requires Honest(start) && Paid(start, first)
      modifies this
      ensures Bounded() && Level(start, k, rest, {}) && AskedOnce(rest) && next == [] && Honest(start) && Paid(start, rest)
      ensures rest == [] || cancelled
    {
      hide PaidOk;
      hide Bounded;
      hide LevelOk;
      hide AskedOk;
      k := 0;
      var frontier := first;
      while |frontier| > 0
        invariant Bounded() && Level(start, k, frontier, {}) && AskedOnce(frontier) && Honest(start) && Paid(start, frontier)
        invariant next == [] && |frontier| <= opts.maxFrontier
        decreases opts.maxDepth + 1 - k
      {
        ghost var was := cancelled;
        Tick();
        LaterCancelled(start, k, frontier, {}, was);
        if cancelled { return k, frontier; }
        LevelWithin(web, opts.maxDepth, start, k, frontier, {}, visited, next, nodes, reasons == {});
        ghost var left, done := RunLevel(frontier, start, k);
        BoundedQueue(this);
        NextLevel(web, opts.maxDepth, start, k, left, done, visited, next, nodes, reasons == {} && !cancelled);
        FewerWaiting(asked, visited, next, left);
        StillOwed(web, opts, base, start, visited, next, left, reasons, Spent(counted, fetchedBytes, outputBytes));
        frontier := TakeNext();
        k := k + 1;
      }
      return k, frontier;
    }

    /** The queue becomes the frontier. */
    method TakeNext() returns (frontier: seq<Item>)
      requires Bounded()
      modifies `next
      ensures Bounded() && next == [] && frontier == old(next) && |frontier| <= opts.maxFrontier
      ensures forall start: string :: old(Honest(start)) ==> Honest(start)
    {
      frontier := next;
      next := [];
    }

    /** A cancelled crawl says so. */
    method Finish() returns (complete: bool)
      requires Bounded()
      modifies `reasons, `cancelled
      ensures Bounded() && old(reasons) <= reasons && (old(cancelled) ==> cancelled)
      ensures complete <==> reasons == {}
      ensures complete ==> !cancelled
      ensures reasons == if cancelled then old(reasons) + {Cancelled} else old(reasons)
      ensures forall start: string :: old(Honest(start)) ==> Honest(start)
    {
      Tick();
      if cancelled { reasons := reasons + {Cancelled}; }
      return reasons == {};
    }

    /** Runs every level and sums up. */
    method Search(frontier: seq<Item>, ghost start: string) returns (complete: bool)
      requires Bounded() && Level(start, 0, frontier, {}) && AskedOnce(frontier) && next == [] && |frontier| <= opts.maxFrontier
      requires Honest(start) && Paid(start, frontier)
      modifies this
      ensures (forall u :: asked[u] <= 1) && |visited| == admitted <= opts.maxNodes && peakFrontier <= opts.maxFrontier
      ensures outputBytes <= opts.maxOutputBytes && fetchedBytes <= opts.maxFetchBytes && opts.Usable()
      ensures nodes.Keys <= visited <= Within(web, start, opts.maxDepth)
      ensures forall u <- nodes :: u in Within(web, start, nodes[u].depth)
      ensures complete ==> visited == nodes.Keys == Within(web, start, opts.maxDepth)
      ensures complete ==>
        forall u <- nodes :: nodes[u].depth <= opts.maxDepth && u in Ring(web, start, nodes[u].depth) && !nodes[u].incomplete
      ensures links <= LinksOf(web, visited) && (complete ==> links == LinksOf(web, visited))
      ensures (complete <==> reasons == {}) && Justified(web, opts, start, reasons, cancelled)
      ensures BudgetsReal(web, opts, base, start, reasons)
    {
      hide PaidOk;
      hide BudgetsReal;
      hide LevelOk;
      hide AskedOk;
      hide Within;
      hide Ring;
      hide Bounded;
      hide HonestOk;
      hide Justified;
      hide LinksOf;
      ghost var k, rest := RunLevels(frontier, start);
      FoundWithin(web, opts.maxDepth, start, k, rest, {}, visited, next, nodes, reasons == {} && !cancelled);
      AskedAtMostOnce(asked, visited, next, rest);
      StillOwed(web, opts, base, start, visited, next, rest, reasons, Spent(counted, fetchedBytes, outputBytes));
      PaidMeans(web, opts, base, start, visited, next, rest, reasons, Spent(counted, fetchedBytes, outputBytes));
      complete := Finish();
      BoundedQueue(this);
      HonestMeans(web, opts, start, visited, nodes, links, reasons, cancelled);
      if complete { AllFound(web, opts.maxDepth, start, k, visited, nodes); }
    }

    method AddNode(item: Item, incomplete: bool)
      requires Bounded()
      modifies `nodes
      ensures Bounded() && NodeAdded(old(nodes), nodes, item)
      ensures nodes == old(nodes)[item.url := Node(item.depth, incomplete)]
    {
      nodes := nodes[item.url := Node(item.depth, incomplete)];
    }

    /** Classifies a result, counts its bytes and extracts the edges of a page read whole. */
    method Inspect(url: string, got: Got) returns (incomplete: bool, edges: seq<Edge>)
      requires Bounded() && (got.Skipped? ==> cancelled)
      modifies `reasons, `fetchedBytes
      ensures Bounded() && old(reasons) <= reasons <= old(reasons) + {ByteCap, FetchFailure}
      ensures edges == if incomplete then [] else EdgesOf(got)
      ensures incomplete ==> ByteCap in reasons
      ensures reasons == {} && !cancelled ==> Read(got)
      ensures FetchFailure in reasons ==> FetchFailure in old(reasons) || (!got.Skipped? && !Read(got))
      ensures ByteCap in reasons && ByteCap !in old(reasons) ==>
        (got.Fetched? && got.page.problem.OverBudget?) || old(fetchedBytes) + PageOf(web, url, got).size > opts.maxFetchBytes
      ensures fetchedBytes <= old(fetchedBytes) + PageOf(web, url, got).size
    {
      Classify(got);
      incomplete := CountBytes(PageOf(web, url, got).size);
      edges := if incomplete then [] else EdgesOf(got);
    }
  }

  /** At most this item's node changed, to one at its depth. */
  ghost predicate NodeAdded(was: map<string, Node>, now: map<string, Node>, item: Item) {
    now == was || exists b :: now == was[item.url := Node(item.depth, b)]
  }

  lemma SameNodes(nodes: map<string, Node>, item: Item)
    ensures NodeAdded(nodes, nodes, item)
  {
  }

  lemma NoEdgeCost()
    ensures forall edges: seq<Edge> :: EdgeCost(edges[..0]) == 0
  {
  }

  /** An observation's charges, step by step. */
  lemma Charges(web: Web, opts: Options, url: string, got: Got, edges: seq<Edge>, r0: set<Reason>, r1: set<Reason>,
                f0: int, f1: int, o0: int, o1: int)
    requires (got == Expected(web, url) || got.Skipped?) && (edges == EdgesOf(got) || edges == [])
    requires var page := PageOf(web, url, got); var cost := page.summary + 32 + EdgeCost(edges);
      && (ByteCap in r1 && ByteCap !in r0 ==>
            (got.Fetched? && got.page.problem.OverBudget?) || f0 + page.size > opts.maxFetchBytes)
      && f1 <= f0 + page.size && (OutputCap in r1 && OutputCap !in r0 ==> o0 + cost > opts.maxOutputBytes)
      && (OutputCap !in r1 ==> o1 <= o0 + cost)
    ensures Charged(web, opts, url, r0, r1, f0, f1, o0, o1)
  {
    PageCosts(web, url, got, edges);
  }

  /** What came back costs no more than its URL. */
  lemma PageCosts(web: Web, url: string, got: Got, edges: seq<Edge>)
    requires (got == Expected(web, url) || got.Skipped?) && (edges == EdgesOf(got) || edges == [])
    ensures PageOf(web, url, got).size <= SizeOf(web, url)
    ensures PageOf(web, url, got).summary + 32 + EdgeCost(edges) <= CostOf(web, url)
    ensures got.Fetched? && got.page.problem.OverBudget? ==> CutOff(web, url)
  {
  }

  function PageOf(web: Web, url: string, got: Got): Page { if got.Fetched? then got.page else web.bare(url) }

  /** The links and relations of a page that was read. */
  function EdgesOf(got: Got): seq<Edge> {
    if got.Fetched? && got.page.problem.NoProblem? && got.page.status == "ok" then got.page.edges else []
  }

  /**
   * The visited set and the queue grew by URLs from new, one level below depth; exactly says
   * that all of new is visited.
   */
  ghost predicate Grown(v0: set<string>, next0: seq<Item>, v1: set<string>, next1: seq<Item>, new_: set<string>,
                        depth: nat, exactly: bool) {
    && v0 <= v1 <= v0 + new_
    && (exactly ==> v1 == v0 + new_)
    && Urls(next1) == Urls(next0) + (v1 - v0)
    && next0 <= next1 && forall i :: |next0| <= i < |next1| ==> next1[i].depth == depth + 1
  }

  function LinksFrom(from: string, tos: set<string>): set<(string, string)> { set t <- tos :: (from, t) }

  /** The links of some pages. */
  function LinksOf(web: Web, us: set<string>): set<(string, string)> { set u, t | u in us && t in Targets(web, u) :: (u, t) }

  lemma LinksOfMore(web: Web, us: set<string>, u: string)
    ensures LinksOf(web, us + {u}) == LinksOf(web, us) + LinksFrom(u, Targets(web, u))
  {
  }

  lemma LinksOfSome(web: Web, us: set<string>, more: set<string>)
    requires us <= more
    ensures LinksOf(web, us) <= LinksOf(web, more)
  {
  }

  /** What each reported reason means for the web being crawled. */
  ghost predicate Justified(web: Web, opts: Options, start: string, reasons: set<Reason>, cancelled: bool)
    requires opts.maxDepth >= 0
  {
    var all := Within(web, start, opts.maxDepth);
    && (NodeCap in reasons ==> |all| > opts.maxNodes)
    && (FrontierCap in reasons ==> |all| > opts.maxFrontier)
    && (FetchFailure in reasons ==> exists u <- all :: !Read(Expected(web, u)))
    && (Cancelled in reasons ==> cancelled)
  }

  /** A budget is reported only when the URLs within the limit take more, or a fetch used up the transport's. */
  ghost predicate BudgetsReal(web: Web, opts: Options, base: int, start: string, reasons: set<Reason>)
    requires opts.maxDepth >= 0
  {
    var all := Within(web, start, opts.maxDepth);
    && (ByteCap in reasons ==> (exists u <- all :: CutOff(web, u)) || Total(Sizes(web), all) > opts.maxFetchBytes)
    && (OutputCap in reasons ==> base + Total(Costs(web), all) > opts.maxOutputBytes)
  }

  /** The URLs observed so far, and the two totals. */
  datatype Spent = Spent(counted: set<string>, fetched: int, output: int)

  ghost predicate PaidOk(web: Web, opts: Options, base: int, start: string, visited: set<string>, next: seq<Item>,
                         waiting: seq<Item>, reasons: set<Reason>, s: Spent) {
    && opts.maxDepth >= 0 && BudgetsReal(web, opts, base, start, reasons)
    && s.counted <= visited && s.counted !! Urls(waiting) && s.counted !! Urls(next)
    && (ByteCap !in reasons ==> s.fetched <= Total(Sizes(web), s.counted))
    && (OutputCap !in reasons ==> s.output <= base + Total(Costs(web), s.counted))
  }

  lemma NothingPaid(web: Web, opts: Options, base: int, start: string, visited: set<string>, waiting: seq<Item>)
    ensures opts.maxDepth >= 0 ==> PaidOk(web, opts, base, start, visited, [], waiting, {}, Spent({}, 0, base))
  {
    NoUrls([]);
  }

  /** With fewer URLs waiting, the queue taken over, or another kind of reason, the totals stand as they did. */
  lemma StillOwed(web: Web, opts: Options, base: int, start: string, visited: set<string>, next: seq<Item>,
                  waiting: seq<Item>, reasons: set<Reason>, s: Spent)
    requires PaidOk(web, opts, base, start, visited, next, waiting, reasons, s)
    ensures PaidOk(web, opts, base, start, visited, [], [], reasons, s)
    ensures PaidOk(web, opts, base, start, visited, [], next, reasons, s)
    ensures PaidOk(web, opts, base, start, visited, next, waiting, reasons + {Cancelled}, s)
  {
    NoUrls([]);
    hide Urls;
    hide Total;
    hide Within;
    hide CutOff;
  }

  /** One more URL observed: its cost is added once, and a budget that does not hold it is too small for all. */
  lemma StillPaid(web: Web, opts: Options, base: int, start: string, item: Item, rest: seq<Item>,
                  v: set<string>, q: seq<Item>, r: set<Reason>, s: Spent,
                  v': set<string>, q': seq<Item>, r': set<Reason>, fetched: int, output: int, new_: set<string>, exactly: bool)
    requires PaidOk(web, opts, base, start, v, q, [item] + rest, r, s) && r <= r'
    requires Grown(v, q, v', q', new_, item.depth, exactly) && v' <= Within(web, start, opts.maxDepth)
    requires item.url in v && item.url !in Urls(rest) && item.url !in Urls(q)
    requires Charged(web, opts, item.url, r, r', s.fetched, fetched, s.output, output)
    ensures PaidOk(web, opts, base, start, v', q', rest, r', Spent(s.counted + {item.url}, fetched, output))
  {
    hide Within;
    hide SizeOf;
    hide CostOf;
    hide CutOff;
    var all, now := Within(web, start, opts.maxDepth), s.counted + {item.url};
    HeadCounted(item, rest);
    assert item.url in Urls([item] + rest);
    OneMore(Sizes(web), s.counted, item.url, all);
    OneMore(Costs(web), s.counted, item.url, all);
    hide Total;
    hide Urls;
  }

  lemma PaidMeans(web: Web, opts: Options, base: int, start: string, visited: set<string>, next: seq<Item>,
                  waiting: seq<Item>, reasons: set<Reason>, s: Spent)
    requires PaidOk(web, opts, base, start, visited, next, waiting, reasons, s)
    ensures BudgetsReal(web, opts, base, start, reasons) && BudgetsReal(web, opts, base, start, reasons + {Cancelled})
  {
  }

  lemma HeadCounted(item: Item, rest: seq<Item>)
    ensures item.url in Urls([item] + rest) && Urls(rest) <= Urls([item] + rest)
  {
    assert ([item] + rest)[0] == item;
    assert forall i <- rest :: i in [item] + rest;
  }

  lemma OneMore(cost: string -> nat, us: set<string>, u: string, all: set<string>)
    requires u !in us && us + {u} <= all
    ensures Total(cost, us + {u}) == Total(cost, us) + cost(u) <= Total(cost, all)
  {
    TotalWithout(cost, us + {u}, u);
    assert us + {u} - {u} == us;
    TotalGrows(cost, us + {u}, all);
  }

  ghost predicate HonestOk(web: Web, opts: Options, start: string, visited: set<string>, nodes: map<string, Node>,
                           links: set<(string, string)>, reasons: set<Reason>, cancelled: bool)
    requires opts.maxDepth >= 0
  {
    && Justified(web, opts, start, reasons, cancelled)
    && links <= LinksOf(web, visited)
    && (reasons == {} && !cancelled ==> links == LinksOf(web, nodes.Keys))
    && (reasons == {} ==> forall u <- nodes :: !nodes[u].incomplete)
  }

  lemma HonestMeans(web: Web, opts: Options, start: string, visited: set<string>, nodes: map<string, Node>,
                    links: set<(string, string)>, reasons: set<Reason>, cancelled: bool)
    requires opts.maxDepth >= 0 && HonestOk(web, opts, start, visited, nodes, links, reasons, cancelled)
    ensures Justified(web, opts, start, reasons, cancelled) && links <= LinksOf(web, visited)
    ensures reasons == {} && !cancelled ==> links == LinksOf(web, nodes.Keys)
    ensures reasons == {} ==> forall u <- nodes :: !nodes[u].incomplete
  {
  }

  lemma HonestLater(web: Web, opts: Options, start: string, visited: set<string>, nodes: map<string, Node>,
                    links: set<(string, string)>, reasons: set<Reason>, was: bool, cancelled: bool)
    requires was ==> cancelled
    ensures opts.maxDepth >= 0 && HonestOk(web, opts, start, visited, nodes, links, reasons, was) ==>
      HonestOk(web, opts, start, visited, nodes, links, reasons, cancelled)
  {
  }

  lemma NothingDone(web: Web, opts: Options, start: string, visited: set<string>, cancelled: bool)
    ensures opts.maxDepth >= 0 ==> HonestOk(web, opts, start, visited, map[], {}, {}, cancelled)
  {
  }

  lemma {:induction false} DistinctCount(items: seq<Item>)
    requires DistinctUrls(items)
    ensures |Urls(items)| == |items|
  {
    if items != [] {
      var rest := items[1..];
      assert items == [items[0]] + rest;
      HeadUrl(items[0], rest);
      DistinctCount(rest);
    } else {
      NoUrls(items);
    }
  }

  lemma FewerElements(a: set<string>, b: set<string>)
    requires a <= b
    ensures |a| <= |b| && (a != b ==> |a| < |b|)
  {
    assert b == a + (b - a);
    if a != b { assert b - a != {}; }
  }

  /** The queue, the rest of the level and the URL turned away are all within reach. */
  lemma CapsJustified(web: Web, opts: Options, start: string, k: nat, item: Item, rest: seq<Item>, waiting: seq<Item>,
                      done: set<string>, v: set<string>, q: seq<Item>, r0: set<Reason>, r1: set<Reason>, cancelled: bool)
    requires 0 <= k <= opts.maxDepth && item.depth == k
    requires LevelShape(web, opts.maxDepth, start, k, rest, done + {item.url}, v, q)
    requires DistinctUrls(q) && DistinctUrls(waiting) && Urls(waiting) <= Urls(rest)
    requires CapsReal(opts, |waiting|, r0, r1, v, q, NewFrom(Targets(web, item.url), k, opts.maxDepth))
    requires Justified(web, opts, start, r0, cancelled)
    requires FetchFailure in r1 ==> FetchFailure in r0 || !Read(Expected(web, item.url))
    requires Cancelled in r1 ==> Cancelled in r0
    ensures Justified(web, opts, start, r1, cancelled)
  {
    hide Targets;
    hide Within;
    hide Read;
    hide Expected;
    var all := Within(web, start, opts.maxDepth);
    var new_ := NewFrom(Targets(web, item.url), k, opts.maxDepth);
    assert item.url in Near(web, opts.maxDepth, start, k);
    TargetsNear(web, opts.maxDepth, start, k, item.url);
    WithinGrows(web, start, Min(k, opts.maxDepth), opts.maxDepth);
    WithinGrows(web, start, Min(k + 1, opts.maxDepth), opts.maxDepth);
    assert new_ <= all && v <= all && item.url in all;
    if !(new_ <= v) {
      FewerElements(v, all);
      DistinctCount(q);
      DistinctCount(waiting);
      assert Urls(waiting) !! Urls(q);
      FewerElements(Urls(waiting) + Urls(q), v);
    }
  }

  lemma NoLinks(from: string, edges: seq<Edge>)
    ensures LinksFrom(from, Tos(edges[..0])) == {}
  {
  }

  lemma LinksStep(from: string, edges: seq<Edge>, i: nat)
    requires i < |edges|
    ensures LinksFrom(from, Tos(edges[..i + 1])) == LinksFrom(from, Tos(edges[..i])) + {(from, edges[i].to)}
    ensures LinksFrom(from, Tos(edges[..i])) <= LinksFrom(from, Tos(edges))
  {
    assert edges[..i + 1] == edges[..i] + [edges[i]];
  }

  /**
   * A cap was reported only because it is reached, with some of new left outside: such a state
   * is the last one, nothing more is admitted.
   */
  ghost predicate CapsReal(opts: Options, pending: nat, r0: set<Reason>, r1: set<Reason>, visited: set<string>,
                           next: seq<Item>, new_: set<string>) {
    && (NodeCap in r1 && NodeCap !in r0 ==> |visited| == opts.maxNodes && !(new_ <= visited))
    && (FrontierCap in r1 && FrontierCap !in r0 ==> pending + |next| == opts.maxFrontier && !(new_ <= visited))
  }

  lemma NoCaps(opts: Options, pending: nat, r: set<Reason>, visited: set<string>, next: seq<Item>, new_: set<string>)
    ensures CapsReal(opts, pending, r, r, visited, next, new_)
  {
  }

  lemma CapsMore(opts: Options, pending: nat, r0: set<Reason>, r1: set<Reason>, visited: set<string>, next: seq<Item>,
                 some: set<string>, more: set<string>, was: set<Reason>)
    requires CapsReal(opts, pending, r0, was, visited, next, some) && some <= more && r1 <= was + {OutputCap}
    ensures CapsReal(opts, pending, r0, r1, visited, next, more)
  {
  }

  /** One more URL is offered for admission. */
  lemma CapsTwice(opts: Options, pending: nat, r0: set<Reason>, r1: set<Reason>, v1: set<string>, next1: seq<Item>,
                  some: set<string>, depth: nat, url: string, r2: set<Reason>, v2: set<string>, next2: seq<Item>)
    requires CapsReal(opts, pending, r0, r1, v1, next1, some)
    requires depth == opts.maxDepth || url in v1 ==> v2 == v1 && next2 == next1 && r2 == r1
    requires depth != opts.maxDepth && url !in v1 ==>
      if |v1| == opts.maxNodes || pending + |next1| == opts.maxFrontier
      then v2 == v1 && next2 == next1 && r2 == r1 + {if |v1| == opts.maxNodes then NodeCap else FrontierCap}
      else v2 == v1 + {url} && next2 == next1 + [Item(url, depth + 1)] && r2 == r1
    ensures CapsReal(opts, pending, r0, r2, v2, next2, some + NewFrom({url}, depth, opts.maxDepth))
  {
    assert url in {url};
  }

  /** Reasons of another kind do not matter. */
  lemma OtherReasons(opts: Options, pending: nat, r0: set<Reason>, before: set<Reason>, r1: set<Reason>,
                     visited: set<string>, next: seq<Item>, new_: set<string>)
    requires (NodeCap in before ==> NodeCap in r0) && (FrontierCap in before ==> FrontierCap in r0)
    requires CapsReal(opts, pending, before, r1, visited, next, new_)
    ensures CapsReal(opts, pending, r0, r1, visited, next, new_)
  {
  }

  lemma NotGrown(v: set<string>, next: seq<Item>, depth: nat, exactly: bool)
    ensures Grown(v, next, v, next, {}, depth, exactly)
  {
  }

  lemma Stopped(v: set<string>, next: seq<Item>, some: set<string>, depth: nat)
    ensures Grown(v, next, v, next, some, depth, false)
  {
  }

  lemma AlreadyIn(v: set<string>, next: seq<Item>, url: string, depth: nat, maxDepth: int, exactly: bool)
    requires depth == maxDepth || url in v
    ensures Grown(v, next, v, next, NewFrom({url}, depth, maxDepth), depth, exactly)
  {
  }

  lemma TurnedAway(v: set<string>, next: seq<Item>, url: string, depth: nat, maxDepth: int)
    ensures Grown(v, next, v, next, NewFrom({url}, depth, maxDepth), depth, false)
  {
  }

  lemma LetIn(v: set<string>, next: seq<Item>, url: string, depth: nat, maxDepth: int, exactly: bool)
    requires depth != maxDepth && url !in v && Urls(next) <= v && DistinctUrls(next)
    ensures Grown(v, next, v + {url}, next + [Item(url, depth + 1)], NewFrom({url}, depth, maxDepth), depth, exactly)
    ensures Urls(next + [Item(url, depth + 1)]) <= v + {url} && DistinctUrls(next + [Item(url, depth + 1)])
  {
    forall i | 0 <= i < |next| ensures next[i].url != url { assert next[i].url in Urls(next); }
  }

  lemma Less(v0: set<string>, next0: seq<Item>, v1: set<string>, next1: seq<Item>, some: set<string>, more: set<string>,
             depth: nat, exactly: bool)
    requires Grown(v0, next0, v1, next1, some, depth, exactly) && some <= more
    ensures Grown(v0, next0, v1, next1, more, depth, false)
  {
  }

  lemma GrownTwice(v0: set<string>, next0: seq<Item>, v1: set<string>, next1: seq<Item>, v2: set<string>, next2: seq<Item>,
                   a: set<string>, b: set<string>, depth: nat, first: bool, second: bool)
    requires Grown(v0, next0, v1, next1, a, depth, first) && Grown(v1, next1, v2, next2, b, depth, second)
    requires second ==> first
    ensures Grown(v0, next0, v2, next2, a + b, depth, second)
  {
    assert Urls(next2) == Urls(next0) + (v2 - v0);
    forall i | |next0| <= i < |next2| ensures next2[i].depth == depth + 1 {
      if i < |next1| { assert next2[i] == next1[i]; }
    }
  }

  /** The result tells what the page links to. */
  predicate Read(got: Got) {
    got.External? || (got.Fetched? && got.page.problem.NoProblem? && Observed(got.page.status))
  }

  lemma EdgesAreTargets(web: Web, item: Item, got: Got, edges: seq<Edge>, maxDepth: int)
    requires got == Expected(web, item.url) || got.Skipped?
    requires edges == EdgesOf(got) || edges == []
    ensures NewFrom(Tos(edges), item.depth, maxDepth) <= NewFrom(Targets(web, item.url), item.depth, maxDepth)
    ensures Tos(edges) <= Targets(web, item.url)
    ensures LinksFrom(item.url, Tos(edges)) <= LinksFrom(item.url, Targets(web, item.url))
    ensures Read(got) && edges == EdgesOf(got) ==> Tos(edges) == Targets(web, item.url)
    ensures Read(got) && edges == EdgesOf(got) ==>
      NewFrom(Tos(edges), item.depth, maxDepth) == NewFrom(Targets(web, item.url), item.depth, maxDepth)
  {
  }

  /** Links past the depth limit admit nothing. */
  function NewFrom(targets: set<string>, depth: nat, maxDepth: int): set<string> {
    if depth == maxDepth then {} else targets
  }

  lemma NoTargets(edges: seq<Edge>, depth: nat, maxDepth: int)
    ensures NewFrom(Tos(edges[..0]), depth, maxDepth) == {}
  {
  }

  lemma TosStep(edges: seq<Edge>, i: nat, depth: nat, maxDepth: int)
    requires i < |edges|
    ensures NewFrom(Tos(edges[..i + 1]), depth, maxDepth) ==
      NewFrom(Tos(edges[..i]), depth, maxDepth) + NewFrom({edges[i].to}, depth, maxDepth)
    ensures NewFrom(Tos(edges[..i]), depth, maxDepth) <= NewFrom(Tos(edges), depth, maxDepth)
  {
    assert edges[..i + 1] == edges[..i] + [edges[i]];
  }

  /** What fetchItem returns while the context is live. */
  function Expected(web: Web, url: string): (got: Got)
    ensures !got.Skipped?
  {
    if !web.isMark(url) then External
    else if !web.parses(url) then Unparsable
    else Fetched(web.page(url))
  }

  predicate Observed(status: string) { status == "ok" || status == "not-found" || status == "archived" }

  // ---------- Levels ----------

  /** Within k links, but never past the depth limit. */
  function Near(web: Web, max: nat, start: string, k: nat): set<string> { Within(web, start, if k <= max then k else max) }

  /** What level k of the search consists of. */
  function Shell(web: Web, max: nat, start: string, k: nat): set<string> {
    if k == 0 then {start} else Near(web, max, start, k) - Near(web, max, start, k - 1)
  }

  ghost predicate LevelOk(web: Web, max: int, start: string, k: nat, rest: seq<Item>, done: set<string>,
                          visited: set<string>, next: seq<Item>, nodes: map<string, Node>, exactly: bool) {
    0 <= max && LevelShape(web, max, start, k, rest, done, visited, next) && NodesNear(web, max, start, visited, nodes) &&
    (exactly ==> LevelExact(web, max, start, k, Urls(rest), done, visited, Urls(next), nodes))
  }

  /** Holds in every crawl: the level's items are distinct and lie within reach. */
  ghost predicate LevelShape(web: Web, max: nat, start: string, k: nat, rest: seq<Item>, done: set<string>,
                             visited: set<string>, next: seq<Item>) {
    && (rest != [] ==> k <= max) && (k >= max ==> next == [])
    && AllAt(rest, k) && AllAt(next, k + 1) && DistinctUrls(rest)
    && Urls(rest) !! done && Urls(rest) + done !! Urls(next)
    && Urls(rest) + done + Urls(next) <= visited <= Near(web, max, start, k + 1)
    && Urls(rest) + done <= Near(web, max, start, k)
  }

  ghost predicate NodesNear(web: Web, max: nat, start: string, visited: set<string>, nodes: map<string, Node>) {
    forall u <- nodes :: u in visited && u in Near(web, max, start, nodes[u].depth)
  }

  /** Holds while nothing was cut: the level is the whole shell and what was found is all there is. */
  ghost predicate LevelExact(web: Web, max: nat, start: string, k: nat, rest: set<string>, done: set<string>,
                             visited: set<string>, next: set<string>, nodes: map<string, Node>) {
    && rest + done == Shell(web, max, start, k)
    && visited == Near(web, max, start, k) + NewFrom(TargetsOf(web, done), k, max)
    && next == visited - Near(web, max, start, k)
    && nodes.Keys == (Near(web, max, start, k) - Shell(web, max, start, k)) + done
    && forall u <- nodes :: u in Shell(web, max, start, nodes[u].depth)
  }

  lemma LevelDepth(web: Web, max: int, start: string, k: nat, item: Item, rest: seq<Item>, done: set<string>,
                   v: set<string>, q: seq<Item>, ns: map<string, Node>, clean: bool)
    requires LevelOk(web, max, start, k, [item] + rest, done, v, q, ns, clean)
    ensures item.depth == k <= max
  {
    assert item in [item] + rest;
  }

  lemma ItemApart(web: Web, max: int, start: string, k: nat, item: Item, rest: seq<Item>, done: set<string>,
                  v: set<string>, q: seq<Item>, ns: map<string, Node>, clean: bool)
    requires LevelOk(web, max, start, k, [item] + rest, done, v, q, ns, clean)
    ensures item.url in v && item.url !in Urls(rest) && item.url !in Urls(q)
  {
    hide LevelExact;
    hide NodesNear;
    HeadUrl(item, rest);
  }

  /** Links of something near are near the next level. */
  lemma TargetsNear(web: Web, max: nat, start: string, k: nat, u: string)
    requires u in Near(web, max, start, k) && k <= max
    ensures Near(web, max, start, k) + NewFrom(Targets(web, u), k, max) <= Near(web, max, start, k + 1)
  {
    if k < max {
      forall t <- Targets(web, u) ensures t in TargetsOf(web, Within(web, start, k)) {}
    }
  }

  lemma TargetsOfMore(web: Web, done: set<string>, u: string, k: nat, max: int)
    ensures NewFrom(TargetsOf(web, done + {u}), k, max) ==
      NewFrom(TargetsOf(web, done), k, max) + NewFrom(Targets(web, u), k, max)
  {
    assert TargetsOf(web, done + {u}) == TargetsOf(web, done) + Targets(web, u);
  }

  lemma HeadUrl(item: Item, rest: seq<Item>)
    ensures Urls([item] + rest) == {item.url} + Urls(rest)
    ensures DistinctUrls([item] + rest) ==> item.url !in Urls(rest) && DistinctUrls(rest)
  {
    var all := [item] + rest;
    assert Urls([item]) == {item.url};
    if DistinctUrls(all) {
      forall i | 0 <= i < |rest| ensures rest[i].url != item.url { assert all[0].url != all[i + 1].url; }
      forall i, j | 0 <= i < j < |rest| ensures rest[i].url != rest[j].url { assert all[i + 1].url != all[j + 1].url; }
    }
  }

  ghost predicate AskedOk(asked: multiset<string>, visited: set<string>, next: seq<Item>, waiting: seq<Item>) {
    forall u :: asked[u] <= 1 && (asked[u] == 1 ==> u in visited && u !in Urls(waiting) && u !in Urls(next))
  }

  /** New URLs have not been fetched: whatever was, was visited before. */
  lemma StillAsked(asked: multiset<string>, v: set<string>, q: seq<Item>, v': set<string>, q': seq<Item>,
                   waiting: seq<Item>, new_: set<string>, depth: nat, exactly: bool)
    requires AskedOk(asked, v, q, waiting) && Grown(v, q, v', q', new_, depth, exactly)
    ensures AskedOk(asked, v', q', waiting)
  {
  }

  lemma NoUrls(items: seq<Item>)
    ensures Urls(items) == {} <==> items == []
  {
    if items != [] { assert items[0].url in Urls(items); }
  }

  lemma GrownQueue(v: set<string>, q: seq<Item>, v': set<string>, q': seq<Item>, new_: set<string>, depth: nat, exactly: bool)
    requires Grown(v, q, v', q', new_, depth, exactly)
    ensures AllAt(q, depth + 1) ==> AllAt(q', depth + 1)
    ensures v <= v' <= v + new_ && Urls(q') == Urls(q) + (v' - v)
    ensures new_ == {} && q == [] ==> q' == []
    ensures exactly ==> v' == v + new_
  {
    NoUrls(q');
    if AllAt(q, depth + 1) {
      forall i <- q' ensures i.depth == depth + 1 {
        var j :| 0 <= j < |q'| && q'[j] == i;
        if j < |q| { assert q[j] == i; }
      }
    }
  }

  lemma ShapeKept(web: Web, max: nat, start: string, k: nat, item: Item, rest: seq<Item>, done: set<string>,
                  v: set<string>, q: seq<Item>, v': set<string>, q': seq<Item>, exactly: bool)
    requires LevelShape(web, max, start, k, [item] + rest, done, v, q) && item.depth == k <= max
    requires Grown(v, q, v', q', NewFrom(Targets(web, item.url), k, max), k, exactly)
    ensures LevelShape(web, max, start, k, rest, done + {item.url}, v', q')
    ensures item.url in v && item.url in Near(web, max, start, k)
  {
    hide Near;
    hide Grown;
    hide Targets;
    HeadUrl(item, rest);
    TargetsNear(web, max, start, k, item.url);
    GrownQueue(v, q, v', q', NewFrom(Targets(web, item.url), k, max), k, exactly);
    assert forall i <- rest :: i in [item] + rest;
  }

  lemma ExactKept(web: Web, max: nat, start: string, k: nat, u: string, rest: set<string>, done: set<string>,
                  v: set<string>, q: set<string>, ns: map<string, Node>, v': set<string>, q': set<string>, ns': map<string, Node>)
    requires LevelExact(web, max, start, k, {u} + rest, done, v, q, ns) && u !in done && u !in rest
    requires v' == v + NewFrom(Targets(web, u), k, max) && q' == q + (v' - v)
    requires NodeAdded(ns, ns', Item(u, k)) && u in ns'
    ensures LevelExact(web, max, start, k, rest, done + {u}, v', q', ns')
  {
    hide Near;
    hide Targets;
    hide TargetsOf;
    TargetsOfMore(web, done, u, k, max);
  }

  /** Observing one item keeps the level's invariant. */
  lemma ObserveKeeps(web: Web, max: int, start: string, k: nat, item: Item, rest: seq<Item>, done: set<string>,
                     v: set<string>, q: seq<Item>, ns: map<string, Node>, clean: bool,
                     v': set<string>, q': seq<Item>, ns': map<string, Node>, clean': bool)
    requires LevelOk(web, max, start, k, [item] + rest, done, v, q, ns, clean) && item.depth == k <= max
    requires Grown(v, q, v', q', NewFrom(Targets(web, item.url), item.depth, max), item.depth, clean')
    requires NodeAdded(ns, ns', item) && (clean' ==> clean && item.url in ns')
    ensures LevelOk(web, max, start, k, rest, done + {item.url}, v', q', ns', clean')
    ensures item.url in v && v <= v'
  {
    hide Near;
    hide Grown;
    hide Targets;
    hide LevelShape;
    hide LevelExact;
    ShapeKept(web, max, start, k, item, rest, done, v, q, v', q', clean');
    GrownQueue(v, q, v', q', NewFrom(Targets(web, item.url), k, max), k, clean');
    if clean' {
      HeadUrl(item, rest);
      HeadNew(web, max, start, k, item, rest, done, v, q);
      ExactKept(web, max, start, k, item.url, Urls(rest), done, v, Urls(q), ns, v', Urls(q'), ns');
    }
  }

  lemma HeadNew(web: Web, max: nat, start: string, k: nat, item: Item, rest: seq<Item>, done: set<string>,
                v: set<string>, q: seq<Item>)
    requires LevelShape(web, max, start, k, [item] + rest, done, v, q)
    ensures item.url !in done && item.url !in Urls(rest)
  {
    HeadUrl(item, rest);
  }

  lemma LevelWithin(web: Web, max: int, start: string, k: nat, rest: seq<Item>, done: set<string>,
                    visited: set<string>, next: seq<Item>, nodes: map<string, Node>, exactly: bool)
    requires LevelOk(web, max, start, k, rest, done, visited, next, nodes, exactly) && rest != []
    ensures k <= max
  {
  }

  /** A crawl out of budget drops what it has queued; what it found stays valid. */
  lemma Abandoned(web: Web, max: int, start: string, k: nat, rest: seq<Item>, done: set<string>,
                  visited: set<string>, next: seq<Item>, nodes: map<string, Node>)
    requires LevelOk(web, max, start, k, rest, done, visited, next, nodes, false)
    ensures LevelOk(web, max, start, k, [], done, visited, [], nodes, false)
  {
  }

  lemma FewerWaiting(asked: multiset<string>, visited: set<string>, next: seq<Item>, waiting: seq<Item>)
    requires AskedOk(asked, visited, next, waiting)
    ensures AskedOk(asked, visited, [], []) && AskedOk(asked, visited, [], next)
  {
  }

  /** One more level adds the links of the shell, up to the depth limit. */
  lemma NearStep(web: Web, max: nat, start: string, k: nat)
    requires k <= max
    ensures Near(web, max, start, k + 1) ==
      Near(web, max, start, k) + NewFrom(TargetsOf(web, Shell(web, max, start, k)), k, max)
    ensures Shell(web, max, start, k) <= Near(web, max, start, k)
    ensures Near(web, max, start, k + 1) <= Near(web, max, start, k + 2)
  {
    hide Within;
    hide TargetsOf;
    WithinRing(web, start, k);
    ShellIsRing(web, max, start, k);
    if k + 1 < max { WithinGrows(web, start, k + 1, k + 2); }
  }

  lemma ShellIsRing(web: Web, max: nat, start: string, k: nat)
    ensures Shell(web, max, start, k) == if k <= max then Ring(web, start, k) else {}
  {
    hide Within;
  }

  /** The queue becomes the next level. */
  lemma NextLevel(web: Web, max: int, start: string, k: nat, rest: seq<Item>, done: set<string>,
                  visited: set<string>, next: seq<Item>, nodes: map<string, Node>, exactly: bool)
    requires LevelOk(web, max, start, k, rest, done, visited, next, nodes, exactly) && k <= max && DistinctUrls(next)
    requires exactly ==> rest == []
    ensures LevelOk(web, max, start, k + 1, next, {}, visited, [], nodes, exactly)
  {
    hide Near;
    hide TargetsOf;
    hide Shell;
    NearStep(web, max, start, k);
    NoUrls([]);
    NoUrls(rest);
    if exactly { ExactNext(web, max, start, k, done, visited, Urls(next), nodes); }
  }

  lemma ExactNext(web: Web, max: nat, start: string, k: nat, done: set<string>, visited: set<string>, next: set<string>,
                  nodes: map<string, Node>)
    requires LevelExact(web, max, start, k, {}, done, visited, next, nodes) && k <= max
    ensures LevelExact(web, max, start, k + 1, next, {}, visited, {}, nodes)
  {
    hide Near;
    hide TargetsOf;
    hide Shell;
    NearStep(web, max, start, k);
    ShellNext(web, max, start, k);
    NoPages(web);
    assert {} + done == done;
    assert visited == Near(web, max, start, k + 1);
    assert nodes.Keys == Near(web, max, start, k);
  }

  lemma ShellNext(web: Web, max: nat, start: string, k: nat)
    ensures Shell(web, max, start, k + 1) == Near(web, max, start, k + 1) - Near(web, max, start, k)
  {
  }

  /** Nothing left to look at: everything within the limit has been found. */
  lemma AllFound(web: Web, max: int, start: string, k: nat, visited: set<string>, nodes: map<string, Node>)
    requires LevelOk(web, max, start, k, [], {}, visited, [], nodes, true)
    ensures visited == nodes.Keys == Within(web, start, max)
    ensures forall u <- nodes :: nodes[u].depth <= max && u in Ring(web, start, nodes[u].depth)
  {
    hide Within;
    hide Ring;
    hide TargetsOf;
    NoPages(web);
    NoUrls([]);
    ShellIsRing(web, max, start, k);
    if k <= max { Closed(web, start, k, max); }
    hide Shell;
    forall u <- nodes ensures nodes[u].depth <= max && u in Ring(web, start, nodes[u].depth) {
      ShellIsRing(web, max, start, nodes[u].depth);
      assert u in Shell(web, max, start, nodes[u].depth);
    }
  }

  lemma FirstLevel(web: Web, max: int, start: string, exactly: bool)
    requires 0 <= max
    ensures LevelOk(web, max, start, 0, [Item(start, 0)], {}, {start}, [], map[], exactly)
  {
    assert Urls([Item(start, 0)]) == {start};
    NoUrls([]);
    NoPages(web);
    WithinGrows(web, start, 0, if max >= 1 then 1 else max);
  }

  /** What was found, however the crawl ended. */
  lemma FoundWithin(web: Web, max: int, start: string, k: nat, rest: seq<Item>, done: set<string>,
                    visited: set<string>, next: seq<Item>, nodes: map<string, Node>, exactly: bool)
    requires LevelOk(web, max, start, k, rest, done, visited, next, nodes, exactly)
    ensures visited <= Within(web, start, max) && nodes.Keys <= visited
    ensures forall u <- nodes :: u in Within(web, start, nodes[u].depth)
  {
    hide Within;
    hide LevelExact;
    hide Urls;
    if k + 1 <= max { WithinGrows(web, start, k + 1, max); }
    forall u <- nodes ensures u in Within(web, start, nodes[u].depth) {
      if nodes[u].depth > max { WithinGrows(web, start, max, nodes[u].depth); }
    }
  }

  datatype Result = Refused | Crawled(run: CrawlRun, complete: bool)

  /**
   * Crawls from start. In every crawl each URL is fetched at most once and the node and
   * frontier caps hold; when the outcome is complete, the nodes are exactly the URLs within
   * MaxDepth links, each at its shortest distance, whatever Workers is.
   */
  method Crawl(web: Web, options: Options, start: string, startBytes: nat, startSummary: nat, fetcher: bool)
    returns (r: Result)
    ensures r.Refused? <==> (var room := options.WithDefaults().maxOutputBytes - 512 - startBytes;
      room < 0 || startSummary > room || (web.isMark(start) && !fetcher))
    ensures r.Crawled? ==> fresh(r.run) && r.run.opts == options.WithDefaults() && r.run.opts.Usable()
    ensures r.Crawled? ==> forall u :: r.run.asked[u] <= 1
    ensures r.Crawled? ==> |r.run.visited| == r.run.admitted <= r.run.opts.maxNodes
    ensures r.Crawled? ==> r.run.peakFrontier <= r.run.opts.maxFrontier
    ensures r.Crawled? ==> r.run.nodes.Keys <= r.run.visited <= Within(web, start, r.run.opts.maxDepth)
    ensures r.Crawled? ==> forall u <- r.run.nodes :: u in Within(web, start, r.run.nodes[u].depth)
    ensures r.Crawled? && r.complete ==> r.run.visited == r.run.nodes.Keys == Within(web, start, r.run.opts.maxDepth)
    ensures r.Crawled? && r.complete ==>
      forall u <- r.run.nodes :: r.run.nodes[u].depth <= r.run.opts.maxDepth && u in Ring(web, start, r.run.nodes[u].depth)
    ensures r.Crawled? && r.complete ==> forall u <- r.run.nodes :: !r.run.nodes[u].incomplete
    ensures r.Crawled? ==> r.run.links <= LinksOf(web, r.run.visited)
    ensures r.Crawled? && r.complete ==> r.run.links == LinksOf(web, r.run.visited)
    ensures r.Crawled? ==> r.run.outputBytes <= r.run.opts.maxOutputBytes && r.run.fetchedBytes <= r.run.opts.maxFetchBytes
    ensures r.Crawled? ==> (r.complete <==> r.run.reasons == {})
    ensures r.Crawled? ==> Justified(web, r.run.opts, start, r.run.reasons, r.run.cancelled)
    ensures r.Crawled? ==> BudgetsReal(web, r.run.opts, 512 + startBytes, start, r.run.reasons)
  {
    hide PaidOk;
    hide BudgetsReal;
    hide LevelOk;
    hide AskedOk;
    hide Within;
    hide Ring;
    hide CrawlRun.Bounded;
    hide HonestOk;
    hide Justified;
    hide LinksOf;
    hide Read;
    var opts := options.WithDefaults();
    if startBytes > opts.maxOutputBytes - 512 || startSummary > opts.maxOutputBytes - 512 - startBytes { return Refused; }
    if web.isMark(start) && !fetcher { return Refused; }
    var run := new CrawlRun(web, opts, startBytes);
    run.Tick();
    var frontier: seq<Item> := [];
    NothingAsked();
    FirstLevel(web, opts.maxDepth, start, false);
    FirstLevel(web, opts.maxDepth, start, true);
    if !run.cancelled {
      frontier := run.Begin(start);
    } else {
      NoLevel(web, opts.maxDepth, start);
    }
    NothingDone(web, opts, start, run.visited, run.cancelled);
    NothingPaid(web, opts, run.base, start, run.visited, frontier);
    var complete := run.Search(frontier, start);
    return Crawled(run, complete);
  }

  /** One observation keeps the run honest. */
  lemma StillHonest(run: CrawlRun, start: string, k: nat, item: Item, batch: seq<Item>, frontier: seq<Item>, done: set<string>,
                    v: set<string>, q: seq<Item>, ns: map<string, Node>, r: set<Reason>, ls: set<(string, string)>)
    requires run.Bounded() && item.depth == k && k <= run.opts.maxDepth && run.pending == |frontier|
    requires run.Level(start, k, batch + frontier, done + {item.url}) && item.url in v && v <= run.visited
    requires HonestOk(run.web, run.opts, start, v, ns, ls, r, run.cancelled) && r <= run.reasons
    requires CapsReal(run.opts, run.pending, r, run.reasons, run.visited, run.next,
                      NewFrom(Targets(run.web, item.url), k, run.opts.maxDepth))
    requires FetchFailure in run.reasons ==> FetchFailure in r || !Read(Expected(run.web, item.url))
    requires Cancelled in run.reasons ==> Cancelled in r
    requires run.reasons == {} ==> run.nodes == ns[item.url := Node(k, false)]
    requires run.links <= ls + LinksFrom(item.url, Targets(run.web, item.url))
    requires run.reasons == {} && !run.cancelled ==> run.links == ls + LinksFrom(item.url, Targets(run.web, item.url))
    ensures run.Honest(start)
  {
    hide CapsReal;
    hide LinksOf;
    hide LinksFrom;
    hide Targets;
    hide Within;
    hide Justified;
    hide LevelShape;
    hide LevelExact;
    hide Read;
    hide Expected;
    var rest := batch + frontier;
    ShapeDistinct(run.web, run.opts.maxDepth, start, k, batch, frontier, done + {item.url}, run.visited, run.next);
    CapsJustified(run.web, run.opts, start, k, item, rest, frontier, done, run.visited, run.next, r, run.reasons, run.cancelled);
    LinksOfSome(run.web, v, run.visited);
    LinksOfMore(run.web, run.visited, item.url);
    assert run.visited + {item.url} == run.visited;
    LinksOfMore(run.web, ns.Keys, item.url);
    assert ns[item.url := Node(k, false)].Keys == ns.Keys + {item.url};
  }

  lemma ShapeDistinct(web: Web, max: nat, start: string, k: nat, batch: seq<Item>, frontier: seq<Item>, done: set<string>,
                      v: set<string>, q: seq<Item>)
    requires LevelShape(web, max, start, k, batch + frontier, done, v, q)
    ensures DistinctUrls(frontier) && Urls(frontier) <= Urls(batch + frontier)
  {
    var all := batch + frontier;
    forall i, j | 0 <= i < j < |frontier| ensures frontier[i].url != frontier[j].url {
      assert all[|batch| + i].url != all[|batch| + j].url;
    }
  }

  lemma BoundedQueue(run: CrawlRun)
    requires run.Bounded()
    ensures DistinctUrls(run.next) && |run.visited| == run.admitted <= run.opts.maxNodes
    ensures run.peakFrontier <= run.opts.maxFrontier && run.opts.Usable()
    ensures run.outputBytes <= run.opts.maxOutputBytes && run.fetchedBytes <= run.opts.maxFetchBytes
  {
  }

  lemma AskedAtMostOnce(asked: multiset<string>, visited: set<string>, next: seq<Item>, waiting: seq<Item>)
    requires AskedOk(asked, visited, next, waiting)
    ensures forall u :: asked[u] <= 1
  {
  }

  lemma NothingAsked()
    ensures forall v, q, w :: AskedOk(multiset{}, v, q, w)
  {
  }

  lemma NoLevel(web: Web, max: int, start: string)
    requires 0 <= max
    ensures LevelOk(web, max, start, 0, [], {}, {}, [], map[], false)
  {
    NoUrls([]);
  }
}
