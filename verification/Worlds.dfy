// Hot reload of the served worlds: server/knowledgeserver/worlds.go.
//
// The manager opens, replaces and closes runtimes to match a desired configuration while
// opens and publishes may fail. A runtime the router may still reach must stay open, and the
// watchers on token files are shared by reference count.
module Worlds {
  import opened Wrappers
  import opened Seqs

  datatype Config = Config(name: string, tokenFiles: seq<string>, authorities: seq<string>, settings: string)

  /** A live world; published once a router publish carried its runtime. */
  datatype Entry = Entry(config: Config, runtime: nat, published: bool)

  datatype Retired = Retired(name: string, entry: Entry)

  /** filepath.Dir and filepath.Clean. */
  const Dir: string -> string
  const Clean: string -> string

  /** The name that the router files an authority under, or its refusal. */
  const Normalized: string -> Option<string>

  /** What fails during one pass of the manager: the worlds that do not open, the worlds that cannot
      reload their tokens before their first publish, and the token coordinator's consent. */
  datatype Failures = Failures(opens: set<string>, reloads: set<string>, tokens: bool)

  // ---------- Reference counts ----------

  function CountOf(files: map<string, nat>, f: string): nat { if f in files then files[f] else 0 }

  ghost predicate Positive(files: map<string, nat>) { forall f <- files :: files[f] > 0 }

  /** How often a world's token files name each clean path. */
  function Cleaned(list: seq<string>): multiset<string> {
    if list == [] then multiset{} else multiset{Clean(list[0])} + Cleaned(list[1..])
  }

  /** One use less; a file nobody uses is forgotten. */
  function Fewer(files: map<string, nat>, f: string): map<string, nat> {
    var left: int := CountOf(files, f) - 1;
    if left <= 0 then files - {f} else files[f := left]
  }

  lemma OneFewer(files: map<string, nat>, f: string)
    requires Positive(files) && CountOf(files, f) > 0
    ensures Positive(Fewer(files, f))
    ensures forall g :: CountOf(Fewer(files, f), g) == CountOf(files, g) - if g == f then 1 else 0
  {
  }

  lemma CleanedStep(list: seq<string>, i: nat)
    requires i < |list|
    ensures Cleaned(list[i..])[Clean(list[i])] > 0
    ensures forall f :: Cleaned(list[i..])[f] == Cleaned(list[i + 1..])[f] + if f == Clean(list[i]) then 1 else 0
  {
    assert list[i..][1..] == list[i + 1..];
  }

  lemma CleanedNone(list: seq<string>)
    ensures forall f :: Cleaned(list[|list|..])[f] == 0
  {
  }

  /** The watcher of one directory; its counts cover every open world's files there. */
  class DirWatch {
    var files: map<string, nat>
    var cancelled: bool

    constructor ()
      ensures files == map[] && !cancelled
    {
      files, cancelled := map[], false;
    }

    method Add(list: seq<string>)
      requires Positive(files)
      modifies `files
      ensures Positive(files)
      ensures forall f :: CountOf(files, f) == CountOf(old(files), f) + Cleaned(list)[f]
    {
      hide Cleaned;
      assert list[0..] == list;
      CleanedNone(list);
      for i := 0 to |list|
        invariant Positive(files)
        invariant forall f :: CountOf(files, f) + Cleaned(list[i..])[f] == CountOf(old(files), f) + Cleaned(list)[f]
      {
        CleanedStep(list, i);
        var clean := Clean(list[i]);
        files := files[clean := CountOf(files, clean) + 1];
      }
    }

    /** Gives back one use per named file; empty tells that no file of the directory is used any more. */
    method Remove(list: seq<string>) returns (empty: bool)
      requires Positive(files) && forall f :: Cleaned(list)[f] <= CountOf(files, f)
      modifies `files
      ensures Positive(files)
      ensures forall f :: CountOf(files, f) == CountOf(old(files), f) - Cleaned(list)[f]
      ensures empty <==> files == map[]
    {
      hide Cleaned;
      hide CountOf;
      hide Fewer;
      assert list[0..] == list;
      CleanedNone(list);
      for i := 0 to |list|
        invariant Positive(files)
        invariant forall f :: CountOf(files, f) - Cleaned(list[i..])[f] == CountOf(old(files), f) - Cleaned(list)[f]
        invariant forall f :: Cleaned(list[i..])[f] <= CountOf(files, f)
      {
        var clean := Clean(list[i]);
        CleanedStep(list, i);
        OneFewer(files, clean);
        files := Fewer(files, clean);
      }
      assert files == map[] || |files| > 0;
      return |files| == 0;
    }
  }

  /** The (directory, file) pairs one runtime keeps watched; the directory is the first file's. */
  ghost function Uses(list: seq<string>): multiset<(string, string)> {
    if list == [] then multiset{} else UsesIn(Dir(list[0]), list)
  }

  ghost function UsesIn(dir: string, list: seq<string>): multiset<(string, string)> {
    if list == [] then multiset{} else multiset{(dir, Clean(list[0]))} + UsesIn(dir, list[1..])
  }

  lemma {:induction false} UsesInCount(dir: string, list: seq<string>)
    ensures forall d, f :: UsesIn(dir, list)[(d, f)] == if d == dir then Cleaned(list)[f] else 0
  {
    if list != [] { UsesInCount(dir, list[1..]); }
  }

  lemma UsesCount(list: seq<string>)
    ensures forall d, f :: Uses(list)[(d, f)] == if list != [] && d == Dir(list[0]) then Cleaned(list)[f] else 0
  {
    if list != [] { UsesInCount(Dir(list[0]), list); }
  }

  /** All uses by the open runtimes. */
  ghost function AllUses(open: map<nat, seq<string>>): multiset<(string, string)>
    decreases open.Keys
  {
    if open == map[] then multiset{}
    else
      var k := Any(open.Keys);
      Uses(open[k]) + AllUses(open - {k})
  }

  lemma {:induction false} UsesWithout(k: nat, open: map<nat, seq<string>>)
    requires k in open
    ensures AllUses(open) == Uses(open[k]) + AllUses(open - {k})
    decreases open.Keys
  {
    hide Uses;
    var j := Any(open.Keys);
    if j != k {
      UsesWithout(k, open - {j});
      UsesWithout(j, open - {k});
      assert open - {j} - {k} == open - {k} - {j};
      SumSwap(Uses(open[j]), Uses(open[k]), AllUses(open - {k} - {j}));
    }
  }

  lemma UsesWith(k: nat, list: seq<string>, open: map<nat, seq<string>>)
    requires k !in open
    ensures AllUses(open[k := list]) == AllUses(open) + Uses(list)
  {
    hide AllUses;
    hide Uses;
    UsesWithout(k, open[k := list]);
    assert open[k := list] - {k} == open;
  }

  // ---------- Where every open runtime is ----------

  type Open = map<nat, seq<string>>

  predicate Holds(open: Open, e: Entry) { e.runtime in open && open[e.runtime] == e.config.tokenFiles }

  ghost predicate Live(entries: map<string, Entry>, r: nat) { exists n <- entries :: entries[n].runtime == r }

  ghost predicate Retiring(retiring: seq<Retired>, r: nat) {
    exists i :: 0 <= i < |retiring| && retiring[i].entry.runtime == r
  }

  /** Each open runtime is loose (being moved), live or retiring, and only one of them, once. */
  ghost predicate Placed(entries: map<string, Entry>, retiring: seq<Retired>, open: Open, loose: set<nat>) {
    && loose <= open.Keys
    && (forall n <- entries :: entries[n].config.name == n && Holds(open, entries[n]) && entries[n].runtime !in loose)
    && (forall i :: 0 <= i < |retiring| ==> Holds(open, retiring[i].entry) && retiring[i].entry.runtime !in loose)
    && (forall n, m :: n in entries && m in entries && n != m ==> entries[n].runtime != entries[m].runtime)
    && (forall i, j :: 0 <= i < j < |retiring| ==> retiring[i].entry.runtime != retiring[j].entry.runtime)
    && (forall n, i :: n in entries && 0 <= i < |retiring| ==> entries[n].runtime != retiring[i].entry.runtime)
    && (forall r <- open :: r in loose || Live(entries, r) || Retiring(retiring, r))
  }

  lemma EntryLeaves(entries: map<string, Entry>, retiring: seq<Retired>, open: Open, n: string)
    requires Placed(entries, retiring, open, {}) && n in entries
    ensures Placed(entries - {n}, retiring, open, {entries[n].runtime})
  {
    var r := entries[n].runtime;
    forall q <- open ensures q == r || Live(entries - {n}, q) || Retiring(retiring, q) {
      if q != r && Live(entries, q) {
        var m :| m in entries && entries[m].runtime == q;
        assert m in entries - {n} && (entries - {n})[m].runtime == q;
      }
    }
  }

  lemma LooseCloses(entries: map<string, Entry>, retiring: seq<Retired>, open: Open, r: nat)
    requires Placed(entries, retiring, open, {r})
    ensures Placed(entries, retiring, open - {r}, {})
  {
  }

  lemma LooseRetires(entries: map<string, Entry>, retiring: seq<Retired>, open: Open, n: string, e: Entry)
    requires Placed(entries, retiring, open, {e.runtime}) && Holds(open, e)
    ensures Placed(entries, retiring + [Retired(n, e)], open, {})
  {
    var now := retiring + [Retired(n, e)];
    forall q <- open ensures Live(entries, q) || Retiring(now, q) {
      if q == e.runtime {
        assert now[|retiring|].entry.runtime == q;
      } else if Retiring(retiring, q) {
        var i :| 0 <= i < |retiring| && retiring[i].entry.runtime == q;
        assert now[i].entry.runtime == q;
      }
    }
  }

  lemma RetiredLeaves(entries: map<string, Entry>, retiring: seq<Retired>, open: Open)
    requires Placed(entries, retiring, open, {}) && retiring != []
    ensures Placed(entries, retiring[1..], open, {retiring[0].entry.runtime})
  {
    var r := retiring[0].entry.runtime;
    forall q <- open ensures q == r || Live(entries, q) || Retiring(retiring[1..], q) {
      if q != r && Retiring(retiring, q) {
        var i :| 0 <= i < |retiring| && retiring[i].entry.runtime == q;
        assert retiring[1..][i - 1].entry.runtime == q;
      }
    }
  }

  /** What was live stays live when an entry arrives, and the new runtime is. */
  lemma ArrivesLive(entries: map<string, Entry>, config: Config, r: nat)
    requires config.name !in entries
    ensures Live(entries[config.name := Entry(config, r, false)], r)
    ensures forall q :: Live(entries, q) ==> Live(entries[config.name := Entry(config, r, false)], q)
  {
    var now := entries[config.name := Entry(config, r, false)];
    assert now[config.name].runtime == r;
    forall q | Live(entries, q) ensures Live(now, q) {
      var m :| m in entries && entries[m].runtime == q;
      assert now[m].runtime == q;
    }
  }

  lemma EntryArrives(entries: map<string, Entry>, retiring: seq<Retired>, open: Open, config: Config, r: nat)
    requires Placed(entries, retiring, open, {}) && config.name !in entries && r !in open
    ensures Placed(entries[config.name := Entry(config, r, false)], retiring, open[r := config.tokenFiles], {})
  {
    ArrivesLive(entries, config, r);
    hide Live;
    hide Retiring;
  }

  function Published(entries: map<string, Entry>): map<string, Entry> {
    map n | n in entries :: entries[n].(published := true)
  }

  lemma PublishedKeys(entries: map<string, Entry>)
    ensures Published(entries).Keys == entries.Keys
    ensures forall n <- entries :: Published(entries)[n].config == entries[n].config
    ensures forall n <- entries :: Published(entries)[n].runtime == entries[n].runtime
  {
  }

  lemma AllPublished(entries: map<string, Entry>, retiring: seq<Retired>, open: Open)
    requires Placed(entries, retiring, open, {})
    ensures Placed(Published(entries), retiring, open, {})
  {
    var now := Published(entries);
    forall q <- open ensures Live(now, q) || Retiring(retiring, q) {
      if Live(entries, q) {
        var m :| m in entries && entries[m].runtime == q;
        assert now[m].runtime == q;
      }
    }
  }

  // ---------- What requests and token reloads can reach ----------

  /** One of the first i authorities is filed under a. */
  ghost predicate ClaimedBy(c: Config, i: nat, a: string)
    requires i <= |c.authorities|
  {
    exists k :: 0 <= k < i && Normalized(c.authorities[k]) == Some(a)
  }

  ghost predicate Claimed(c: Config, a: string) { ClaimedBy(c, |c.authorities|, a) }

  /** A route for every authority of every live world, and no other. */
  ghost predicate RoutesAre(routes: map<string, nat>, entries: map<string, Entry>) {
    && (forall a <- routes :: exists n <- entries :: Claimed(entries[n].config, a) && routes[a] == entries[n].runtime)
    && (forall n, a :: n in entries && Claimed(entries[n].config, a) ==> a in routes && routes[a] == entries[n].runtime)
  }

  /** The router takes every authority of the world, and no two under one name. */
  ghost predicate OwnNames(c: Config) {
    && (forall i :: 0 <= i < |c.authorities| ==> Normalized(c.authorities[i]).Some?)
    && (forall i, j :: 0 <= i < j < |c.authorities| ==> Normalized(c.authorities[i]) != Normalized(c.authorities[j]))
  }

  /** No authority is refused and no name is claimed twice, by one world or by two. */
  ghost predicate Routable(entries: map<string, Entry>) {
    && (forall n <- entries :: OwnNames(entries[n].config))
    && (forall n, m, a :: n in entries && m in entries && n != m ==>
          !(Claimed(entries[n].config, a) && Claimed(entries[m].config, a)))
  }

  /** The live runtimes with token files. */
  function Coordinated(entries: map<string, Entry>): set<nat> {
    set n | n in entries && entries[n].config.tokenFiles != [] :: entries[n].runtime
  }

  /** Everything reachable is open, and a runtime no publish carried is not reachable. */
  ghost predicate Reachable(routes: map<string, nat>, coordinated: set<nat>, entries: map<string, Entry>, open: Open) {
    && (forall a <- routes :: routes[a] in open)
    && coordinated <= open.Keys
    && (forall n, a :: n in entries && !entries[n].published && a in routes ==> routes[a] != entries[n].runtime)
    && (forall n <- entries :: !entries[n].published ==> entries[n].runtime !in coordinated)
  }

  /** The desired worlds by name; a later one replaces an earlier one. */
  function Wanted(desired: seq<Config>): map<string, Config> {
    if desired == [] then map[]
    else
      var last := desired[|desired| - 1];
      Wanted(desired[..|desired| - 1])[last.name := last]
  }

  lemma {:induction false} WantedNames(desired: seq<Config>)
    ensures forall n <- Wanted(desired) :: Wanted(desired)[n].name == n
  {
    if desired != [] { WantedNames(desired[..|desired| - 1]); }
  }

  // ---------- The manager ----------

  class Manager {
    /** Dynamic mode: a failed open waits in pending instead of failing the caller. */
    const resilient: bool
    var entries: map<string, Entry>
    var pending: map<string, Config>
    var needsPublish: bool
    var retiring: seq<Retired>
    var tokenDirs: map<string, DirWatch>
    /** The router's view, by authority, and the runtimes the token coordinator reloads. */
    var routes: map<string, nat>
    var coordinated: set<nat>
    /** Runtimes are numbered as they are opened. */
    var started: nat
    var closed: set<nat>
    /** The open runtimes with their token files. */
    ghost var running: Open

    /** Each directory has its own watcher, which runs and has files. */
    ghost predicate WatchersRun()
      reads `tokenDirs, tokenDirs.Values
    {
      && (forall d <- tokenDirs :: tokenDirs[d].files != map[] && Positive(tokenDirs[d].files) && !tokenDirs[d].cancelled)
      && (forall d, e :: d in tokenDirs && e in tokenDirs && d != e ==> tokenDirs[d] != tokenDirs[e])
    }

    /** The directory watchers count exactly these uses. */
    ghost predicate Watching(uses: multiset<(string, string)>)
      reads `tokenDirs, tokenDirs.Values
    {
      WatchersRun() &&
      forall d, f :: uses[(d, f)] == if d in tokenDirs then CountOf(tokenDirs[d].files, f) else 0
    }

    /** Every runtime ever started is open or closed, never both. */
    ghost predicate Accounted()
      reads `started, `closed, `running
    {
      closed !! running.Keys && forall r :: r in closed + running.Keys <==> 0 <= r < started
    }

    ghost predicate Valid()
      reads this, tokenDirs.Values
    {
      && Placed(entries, retiring, running, {})
      && Accounted()
      && Reachable(routes, coordinated, entries, running)
      && Watching(AllUses(running))
      && pending.Keys !! entries.Keys
      && (forall n <- pending :: pending[n].name == n)
      && (!resilient ==> pending == map[])
    }

    /** The worlds that are live or waiting to be. */
    ghost function Names(): set<string>
      reads `entries, `pending
    {
      entries.Keys + pending.Keys
    }

    /** The router and the coordinator reach exactly the live worlds, and nothing waits to be closed. */
    ghost predicate InForce()
      reads `routes, `coordinated, `entries, `retiring
    {
      RoutesAre(routes, entries) && coordinated == Coordinated(entries) && retiring == []
    }

    constructor (resilient: bool)
      ensures Valid() && fresh(tokenDirs.Values) && entries == map[] && pending == map[] && this.resilient == resilient
    {
      this.resilient := resilient;
      entries, pending, needsPublish, retiring, tokenDirs := map[], map[], false, [], map[];
      routes, coordinated, started, closed, running := map[], {}, 0, {}, map[];
    }

    /** Starts or shares the watcher of the first file's directory. */
    method AcquireTokenWatch(files: seq<string>, ghost uses: multiset<(string, string)>)
      requires Watching(uses)
      modifies `tokenDirs, tokenDirs.Values
      ensures Watching(uses + Uses(files)) && fresh(tokenDirs.Values - old(tokenDirs.Values))
    {
      hide Cleaned;
      hide Watching;
      UsesCount(files);
      if |files| == 0 {
        assert Uses(files) == multiset{};
        assert uses + multiset{} == uses;
        return;
      }
      var dir := Dir(files[0]);
      if dir in tokenDirs {
        ShareWatch(dir, files, uses, uses + Uses(files));
      } else {
        StartWatch(dir, files, uses, uses + Uses(files));
      }
    }

    method ShareWatch(dir: string, files: seq<string>, ghost uses: multiset<(string, string)>,
                      ghost now: multiset<(string, string)>)
      requires Watching(uses) && dir in tokenDirs
      requires forall d, f :: now[(d, f)] == uses[(d, f)] + if d == dir then Cleaned(files)[f] else 0
      modifies tokenDirs[dir]
      ensures Watching(now)
    {
      hide Cleaned;
      ghost var f :| f in tokenDirs[dir].files;
      tokenDirs[dir].Add(files);
      assert CountOf(tokenDirs[dir].files, f) > 0;
    }

    method StartWatch(dir: string, files: seq<string>, ghost uses: multiset<(string, string)>,
                      ghost now: multiset<(string, string)>)
      requires Watching(uses) && dir !in tokenDirs && files != []
      requires forall d, f :: now[(d, f)] == uses[(d, f)] + if d == dir then Cleaned(files)[f] else 0
      modifies `tokenDirs
      ensures Watching(now) && fresh(tokenDirs.Values - old(tokenDirs.Values))
    {
      hide Cleaned;
      hide CountOf;
      hide Positive;
      var watch := NewWatch(files);
      tokenDirs := tokenDirs[dir := watch];
    }

    method NewWatch(files: seq<string>) returns (watch: DirWatch)
      requires files != []
      ensures fresh(watch) && !watch.cancelled && Positive(watch.files) && watch.files != map[]
      ensures forall f :: CountOf(watch.files, f) == Cleaned(files)[f]
    {
      CleanedSome(files);
      hide Cleaned;
      watch := new DirWatch();
      watch.Add(files);
      assert CountOf(watch.files, Clean(files[0])) > 0;
    }

    /** Gives the files back; the last one stops the directory's watcher. */
    method ReleaseTokenWatch(files: seq<string>, ghost uses: multiset<(string, string)>)
      requires Watching(uses + Uses(files))
      modifies `tokenDirs, tokenDirs.Values
      ensures Watching(uses) && tokenDirs.Values <= old(tokenDirs.Values)
    {
      hide Cleaned;
      hide Uses;
      hide CountOf;
      hide Positive;
      UsesCount(files);
      if |files| == 0 { return; }
      var dir := Dir(files[0]);
      CleanedSome(files);
      if dir !in tokenDirs { return; }
      DropFiles(dir, files, uses + Uses(files), uses);
    }

    method DropFiles(dir: string, files: seq<string>, ghost uses: multiset<(string, string)>,
                     ghost left: multiset<(string, string)>)
      requires Watching(uses) && dir in tokenDirs
      requires forall d, f :: uses[(d, f)] == left[(d, f)] + if d == dir then Cleaned(files)[f] else 0
      modifies `tokenDirs, tokenDirs[dir]
      ensures Watching(left) && tokenDirs.Values <= old(tokenDirs.Values)
    {
      hide Cleaned;
      NoneCounted();
      hide CountOf;
      hide Positive;
      var watch := tokenDirs[dir];
      var empty := watch.Remove(files);
      if !empty { return; }
      watch.cancelled := true;
      tokenDirs := tokenDirs - {dir};
    }

    /** Closes a runtime that is neither live nor retiring any more. */
    method RetireEntry(e: Entry)
      requires Holds(running, e) && Accounted() && Watching(AllUses(running))
      modifies `tokenDirs, tokenDirs.Values, `closed, `running
      ensures closed == old(closed) + {e.runtime} && running == old(running) - {e.runtime}
      ensures Accounted() && Watching(AllUses(running)) && tokenDirs.Values <= old(tokenDirs.Values)
    {
      hide AllUses;
      hide Uses;
      UsesWithout(e.runtime, running);
      ReleaseTokenWatch(e.config.tokenFiles, AllUses(running - {e.runtime}));
      closed := closed + {e.runtime};
      running := running - {e.runtime};
      assert closed + running.Keys == old(closed + running.Keys);
    }

    /** Opens one world, or fails and leaves nothing behind. */
    method Open(world: Config, f: Failures) returns (ok: bool)
      requires Valid() && world.name !in entries
      modifies `entries, `tokenDirs, tokenDirs.Values, `started, `running
      ensures fresh(tokenDirs.Values - old(tokenDirs.Values))
      ensures Placed(entries, retiring, running, {}) && Accounted() && Watching(AllUses(running))
      ensures Reachable(routes, coordinated, entries, running)
      ensures ok <==> world.name !in f.opens
      ensures ok ==> entries == old(entries)[world.name := Entry(world, old(started), false)] && started == old(started) + 1
      ensures !ok ==> entries == old(entries) && started == old(started)
    {
      hide AllUses;
      hide Uses;
      hide Placed;
      hide Watching;
      if world.name in f.opens { return false; }
      var runtime := started;
      assert runtime !in closed + running.Keys;
      NewRuntime(routes, coordinated, entries, running, world, runtime);
      EntryArrives(entries, retiring, running, world, runtime);
      UsesWith(runtime, world.tokenFiles, running);
      started := started + 1;
      AcquireTokenWatch(world.tokenFiles, AllUses(running));
      entries := entries[world.name := Entry(world, runtime, false)];
      running := running[runtime := world.tokenFiles];
      return true;
    }

    /** Opens a world and, once it is up, forgets that it was pending. */
    method TryOpen(world: Config, f: Failures) returns (up: bool)
      requires Valid() && world.name !in entries
      modifies `entries, `pending, `tokenDirs, tokenDirs.Values, `started, `running
      ensures Valid() && fresh(tokenDirs.Values - old(tokenDirs.Values))
      ensures up <==> world.name !in f.opens
      ensures up ==> entries == old(entries)[world.name := Entry(world, old(started), false)]
      ensures up ==> pending == old(pending) - {world.name}
      ensures !up ==> entries == old(entries) && pending == old(pending)
    {
      hide AllUses;
      hide Watching;
      hide Placed;
      hide Reachable;
      hide Accounted;
      up := Open(world, f);
      if up { pending := pending - {world.name}; }
    }

    /** A world that could not be opened waits for the retry loop. */
    method Defer(world: Config)
      requires Valid() && world.name !in entries && resilient
      modifies `pending
      ensures Valid() && pending == old(pending)[world.name := world]
    {
      hide AllUses;
      hide Watching;
      hide Placed;
      hide Reachable;
      hide Accounted;
      pending := pending[world.name := world];
    }

    /** Opens a wanted world, or in dynamic mode leaves it pending. */
    method OpenOrDefer(world: Config, f: Failures) returns (up: bool)
      requires Valid() && world.name !in entries
      modifies `entries, `pending, `tokenDirs, tokenDirs.Values, `started, `running
      ensures Valid() && fresh(tokenDirs.Values - old(tokenDirs.Values))
      ensures up <==> world.name !in f.opens
      ensures up ==> entries == old(entries)[world.name := Entry(world, old(started), false)]
      ensures up ==> pending == old(pending) - {world.name}
      ensures !up ==> entries == old(entries) && pending == if resilient then old(pending)[world.name := world] else old(pending)
    {
      hide Valid;
      up := TryOpen(world, f);
      if !up && resilient { Defer(world); }
    }

    /** Pending worlds the configuration dropped are forgotten. */
    method DropPending(want: map<string, Config>)
      requires Valid()
      modifies `pending
      ensures Valid() && pending == map n | n in old(pending) && n in want :: old(pending)[n]
    {
      hide AllUses;
      hide Watching;
      hide Placed;
      hide Reachable;
      hide Accounted;
      pending := map n | n in pending && n in want :: pending[n];
    }

    /** The router's mappings for the live worlds, or its refusal. */
    method Mappings() returns (r: Option<map<string, nat>>)
      ensures r.Some? <==> Routable(entries)
      ensures r.Some? ==> RoutesAre(r.value, entries)
    {
      hide Claimed;
      hide OwnNames;
      var built: map<string, nat> := map[];
      var todo := entries.Keys;
      while todo != {}
        invariant todo <= entries.Keys
        invariant RoutesAre(built, entries - todo) && Routable(entries - todo)
        decreases todo
      {
        var n :| n in todo;
        ghost var done := entries - todo;
        var next := AddRoutes(built, entries[n]);
        if next.None? {
          if OwnNames(entries[n].config) {
            ghost var a :| Claimed(entries[n].config, a) && a in built;
            ghost var m :| m in done && Claimed(done[m].config, a);
            assert m in entries && m != n && entries[m] == done[m];
          }
          return None;
        }
        todo := todo - {n};
        OneMoreRouted(built, next.value, done, entries - todo, n, entries[n]);
        built := next.value;
      }
      assert entries - {} == entries;
      return Some(built);
    }

    /** One world's mappings on top of those built so far. */
    static method AddRoutes(built: map<string, nat>, e: Entry) returns (r: Option<map<string, nat>>)
      ensures r.Some? <==> OwnNames(e.config) && forall a :: Claimed(e.config, a) ==> a !in built
      ensures r.Some? ==> Extends(r.value, built, e)
    {
      var c, routes := e.config, built;
      for i := 0 to |c.authorities|
        invariant forall k :: 0 <= k < i ==> Normalized(c.authorities[k]).Some?
        invariant forall j, k :: 0 <= j < k < i ==> Normalized(c.authorities[j]) != Normalized(c.authorities[k])
        invariant forall a :: ClaimedBy(c, i, a) ==> a !in built
        invariant forall a :: a in routes <==> a in built || ClaimedBy(c, i, a)
        invariant forall a <- routes :: routes[a] == if a in built then built[a] else e.runtime
      {
        var key := Normalized(c.authorities[i]);
        if key.None? { return None; }
        assert Claimed(c, key.value);
        if key.value in routes { return None; }
        assert forall a :: ClaimedBy(c, i + 1, a) <==> ClaimedBy(c, i, a) || a == key.value;
        routes := routes[key.value := e.runtime];
      }
      return Some(routes);
    }

    /** Closes what the router and the coordinator have just let go of. */
    method CloseRetired()
      requires Valid() && OnlyLive(routes, coordinated, entries)
      modifies `retiring, `tokenDirs, tokenDirs.Values, `closed, `running
      ensures Valid() && retiring == [] && tokenDirs.Values <= old(tokenDirs.Values)
    {
      hide AllUses;
      hide Watching;
      hide Placed;
      hide Reachable;
      hide OnlyLive;
      hide Accounted;
      while retiring != []
        invariant Valid() && tokenDirs.Values <= old(tokenDirs.Values)
        decreases |retiring|
      {
        var e := retiring[0].entry;
        RetiredLeaves(entries, retiring, running);
        RetiringUnreachable(routes, coordinated, entries, retiring, running);
        LooseCloses(entries, retiring[1..], running, e.runtime);
        RetireEntry(e);
        retiring := retiring[1..];
      }
    }

    /**
     * Rebuilds the router and token views from the live worlds. A failure keeps both views;
     * only success closes what was retiring.
     */
    method Publish(f: Failures) returns (ok: bool)
      requires Valid()
      modifies `routes, `coordinated, `entries, `retiring, `tokenDirs, tokenDirs.Values, `closed, `running
      ensures Valid() && tokenDirs.Values <= old(tokenDirs.Values)
      ensures ok <==> !f.tokens && Routable(old(entries))
      ensures ok ==> InForce() && entries == Published(old(entries))
      ensures entries.Keys == old(entries.Keys)
      ensures !ok ==> entries == old(entries) && retiring == old(retiring) && closed == old(closed)
      ensures !ok ==> routes == old(routes) && coordinated == old(coordinated) && running == old(running)
    {
      hide Valid;
      hide OnlyLive;
      hide RoutesAre;
      hide Coordinated;
      hide Published;
      hide Routable;
      if f.tokens { return false; }
      var mappings := Mappings();
      if mappings.None? { return false; }
      Reroute(mappings.value);
      CloseRetired();
      return true;
    }

    /** The router and the coordinator take the live worlds over; what was retiring is out of reach. */
    method Reroute(mappings: map<string, nat>)
      requires Valid() && RoutesAre(mappings, entries)
      modifies `routes, `coordinated, `entries
      ensures Valid() && OnlyLive(routes, coordinated, entries)
      ensures RoutesAre(routes, entries) && coordinated == Coordinated(entries) && entries == Published(old(entries))
      ensures entries.Keys == old(entries.Keys)
    {
      hide AllUses;
      hide Watching;
      hide Placed;
      hide Reachable;
      hide OnlyLive;
      hide Accounted;
      hide RoutesAre;
      hide Coordinated;
      hide Published;
      PublishedKeys(entries);
      NowReachable(mappings, entries, retiring, running);
      AllPublished(entries, retiring, running);
      RoutesStay(mappings, entries);
      routes := mappings;
      coordinated := Coordinated(entries);
      entries := Published(entries);
    }

    /** Takes one world out: an unpublished runtime closes at once, another retires. */
    method TakeOut(n: string)
      requires Valid() && n in entries
      modifies `entries, `retiring, `tokenDirs, tokenDirs.Values, `closed, `running
      ensures Valid() && tokenDirs.Values <= old(tokenDirs.Values)
      ensures entries == old(entries) - {n}
      ensures retiring == if old(entries)[n].published then old(retiring) + [Retired(n, old(entries)[n])] else old(retiring)
    {
      hide AllUses;
      hide Watching;
      hide Placed;
      hide Reachable;
      hide Accounted;
      var e := entries[n];
      EntryLeaves(entries, retiring, running, n);
      EntryGone(routes, coordinated, entries, retiring, running, n);
      entries := entries - {n};
      if !e.published {
        LooseCloses(entries, retiring, running, e.runtime);
        RetireEntry(e);
      } else {
        LooseRetires(entries, retiring, running, n, e);
        retiring := retiring + [Retired(n, e)];
      }
    }

    /** Takes out the worlds that are gone or changed. */
    method RemoveChanged(want: map<string, Config>)
      requires Valid()
      modifies `entries, `retiring, `tokenDirs, tokenDirs.Values, `closed, `running
      ensures Valid() && tokenDirs.Values <= old(tokenDirs.Values)
      ensures entries == Kept(old(entries), want)
    {
      hide Valid;
      var todo := entries.Keys;
      while todo != {}
        invariant todo <= entries.Keys <= old(entries).Keys
        invariant Valid() && tokenDirs.Values <= old(tokenDirs.Values)
        invariant forall n <- entries :: entries[n] == old(entries)[n]
        invariant forall n <- old(entries) ::
          n in entries <==> n in todo || (n in want && old(entries)[n].config == want[n])
        decreases todo
      {
        var n :| n in todo;
        todo := todo - {n};
        if n !in want || entries[n].config != want[n] { TakeOut(n); }
      }
    }

    /** Tries every wanted world that is not live. */
    method OpenMissing(want: map<string, Config>, f: Failures) returns (ok: bool)
      requires Valid() && (forall n <- want :: want[n].name == n)
      requires Names() <= want.Keys && forall n <- entries :: entries[n].config == want[n]
      modifies `entries, `pending, `tokenDirs, tokenDirs.Values, `started, `running
      ensures Valid() && fresh(tokenDirs.Values - old(tokenDirs.Values))
      ensures entries.Keys == old(entries.Keys) + (want.Keys - f.opens)
      ensures forall n <- entries :: entries[n].config == want[n]
      ensures forall n <- old(entries) :: entries[n] == old(entries)[n]
      ensures pending == if resilient then (map n | n in want && n !in entries :: want[n]) else map[]
      ensures ok <==> resilient || want.Keys <= entries.Keys
    {
      hide Valid;
      hide Tried;
      PendingNames();
      NoneTried(entries, pending, want, f.opens, resilient);
      ghost var was := entries;
      ok := true;
      var todo := want.Keys;
      while todo != {}
        invariant todo <= want.Keys && Valid() && fresh(tokenDirs.Values - old(tokenDirs.Values))
        invariant Tried(was, entries, pending, want, todo, f.opens, resilient)
        invariant ok <==> resilient || forall n <- want :: n in todo || n in was || n !in f.opens
        decreases todo
      {
        var n :| n in todo;
        OneTried(was, entries, pending, want, todo, f.opens, resilient, n);
        todo := todo - {n};
        if n in entries { continue; }
        var up := OpenOrDefer(want[n], f);
        if !up && !resilient { ok := false; }
      }
      AllTried(was, entries, pending, want, f.opens, resilient);
    }

    /**
     * Moves the live set to the desired one and republishes, whatever opens or fails on the way:
     * afterwards the live worlds are those that were live unchanged and those that opened.
     */
    method Apply(desired: seq<Config>, f: Failures) returns (ok: bool, published: bool)
      requires Valid()
      modifies this, tokenDirs.Values
      ensures Valid() && fresh(tokenDirs.Values - old(tokenDirs.Values))
      ensures var want := Wanted(desired);
        && entries.Keys == Kept(old(entries), want).Keys + (want.Keys - f.opens)
        && (forall n <- entries :: entries[n].config == want[n])
        && (forall n <- Kept(old(entries), want) :: entries[n].runtime == old(entries)[n].runtime)
        && pending == (if resilient then (map n | n in want && n !in entries :: want[n]) else map[])
        && (ok <==> resilient || (published && want.Keys <= entries.Keys))
      ensures published <==> !f.tokens && Routable(entries)
      ensures published ==> InForce()
      ensures !published ==> routes == old(routes) && coordinated == old(coordinated)
      ensures needsPublish == ((resilient && !published) || old(needsPublish))
    {
      hide Valid;
      hide InForce;
      hide Routable;
      hide Published;
      var want := Wanted(desired);
      WantedNames(desired);
      RemoveChanged(want);
      DropPending(want);
      var all := OpenMissing(want, f);
      PublishedKeys(entries);
      StillRoutable(entries);
      published := Publish(f);
      if !published && resilient {
        Owe(true);
        return true, published;
      }
      return all && published, published;
    }

    /** Tries the pending worlds again, then publishes if anything is owed. */
    method RetryPending(f: Failures) returns (published: bool)
      requires Valid()
      modifies this, tokenDirs.Values
      ensures Valid() && fresh(tokenDirs.Values - old(tokenDirs.Values))
      ensures AfterRetry(old(entries), entries, old(pending), pending, f.opens)
      ensures var up := old(pending.Keys) - f.opens;
        var owed := old(needsPublish) || up != {};
        && (published <==> owed && Refreshed(old(entries), f) && up !! f.reloads && !f.tokens && Routable(entries))
        && needsPublish == (owed && !published)
      ensures published ==> InForce()
      ensures !published ==> routes == old(routes) && coordinated == old(coordinated)
    {
      hide Valid;
      hide InForce;
      hide Routable;
      hide Refreshed;
      hide AfterRetry;
      PendingNames();
      NothingWaits(entries, pending, f.opens);
      if |pending| == 0 && !needsPublish { return false; }
      ghost var was, waited := entries, pending;
      var recovered := OpenPending(f);
      RefreshedNow(was, entries, waited.Keys - f.opens, f);
      ghost var now := entries;
      AllUp(was, now, waited, pending, f.opens);
      if !needsPublish && !recovered { return false; }
      published := PublishOwed(f);
      StillUp(was, now, entries, waited, pending, f.opens);
    }

    /** Publishes, after refreshing the tokens of runtimes no publish has carried yet. */
    method PublishOwed(f: Failures) returns (published: bool)
      requires Valid()
      modifies `routes, `coordinated, `entries, `retiring, `tokenDirs, tokenDirs.Values, `closed, `running, `needsPublish
      ensures Valid() && tokenDirs.Values <= old(tokenDirs.Values)
      ensures entries.Keys == old(entries.Keys) && forall n <- entries :: SameWorld(entries[n], old(entries)[n])
      ensures published <==> Refreshed(old(entries), f) && !f.tokens && Routable(entries)
      ensures needsPublish == !published
      ensures published ==> InForce()
      ensures !published ==> routes == old(routes) && coordinated == old(coordinated)
    {
      hide Valid;
      hide InForce;
      hide Published;
      hide Routable;
      PublishedKeys(entries);
      StillRoutable(entries);
      var refreshed := ReloadStaged(f);
      if !refreshed {
        Owe(true);
        return false;
      }
      published := Publish(f);
      Owe(!published);
    }

    /** The runtimes that no publish carried reload their tokens; false when one of them cannot. */
    method ReloadStaged(f: Failures) returns (ok: bool)
      ensures ok <==> Refreshed(entries, f)
    {
      ok := true;
      var todo := entries.Keys;
      while todo != {}
        invariant todo <= entries.Keys
        invariant ok <==> forall n <- entries :: n in todo || entries[n].published || n !in f.reloads
        decreases todo
      {
        var n :| n in todo;
        todo := todo - {n};
        if !entries[n].published && n in f.reloads { ok := false; }
      }
    }

    method Owe(publish: bool)
      requires Valid()
      modifies `needsPublish
      ensures Valid() && needsPublish == publish
    {
      hide AllUses;
      hide Watching;
      hide Placed;
      hide Reachable;
      hide Accounted;
      needsPublish := publish;
    }

    /** The retry loop's pass over the pending worlds. */
    method OpenPending(f: Failures) returns (recovered: bool)
      requires Valid()
      modifies `entries, `pending, `tokenDirs, tokenDirs.Values, `started, `running
      ensures Valid() && fresh(tokenDirs.Values - old(tokenDirs.Values))
      ensures entries.Keys == old(entries.Keys) + (old(pending.Keys) - f.opens)
      ensures pending == map n | n in old(pending) && n in f.opens :: old(pending)[n]
      ensures forall n <- old(entries) :: entries[n] == old(entries)[n]
      ensures forall n <- entries :: n !in old(entries) ==> entries[n].config == old(pending)[n] && !entries[n].published
      ensures recovered <==> old(pending.Keys) - f.opens != {}
    {
      hide Valid;
      hide Retried;
      PendingNames();
      NoneRetried(entries, pending, f.opens);
      ghost var was, waited := entries, pending;
      recovered := false;
      var todo := pending.Keys;
      while todo != {}
        invariant todo <= pending.Keys && Valid() && fresh(tokenDirs.Values - old(tokenDirs.Values))
        invariant Retried(was, entries, waited, pending, todo, f.opens)
        invariant recovered <==> exists n <- waited :: n !in todo && n !in f.opens
        decreases todo
      {
        var n :| n in todo;
        OneRetried(was, entries, waited, pending, todo, f.opens, n);
        todo := todo - {n};
        var up := TryOpen(pending[n], f);
        if up { recovered := true; }
      }
      AllRetried(was, entries, waited, pending, f.opens);
    }

    lemma PendingNames()
      requires Valid()
      ensures forall n <- pending :: pending[n].name == n && n !in entries
      ensures !resilient ==> pending == map[]
    {
    }
  }

  lemma NoneCounted()
    ensures forall f :: CountOf(map[], f) == 0
  {
  }

  lemma CleanedSome(files: seq<string>)
    requires files != []
    ensures Cleaned(files)[Clean(files[0])] > 0
  {
  }

  /** Every reachable runtime is live, and every live world is published. */
  ghost predicate OnlyLive(routes: map<string, nat>, coordinated: set<nat>, entries: map<string, Entry>) {
    && (forall a <- routes :: Live(entries, routes[a]))
    && (forall r <- coordinated :: Live(entries, r))
    && (forall n <- entries :: entries[n].published)
  }

  /** now is built with a route for each of e's authorities on top. */
  ghost predicate Extends(now: map<string, nat>, built: map<string, nat>, e: Entry) {
    && (forall a :: a in now <==> a in built || Claimed(e.config, a))
    && (forall a <- now :: now[a] == if a in built then built[a] else e.runtime)
  }

  lemma StaysRoutable(built: map<string, nat>, done: map<string, Entry>, now: map<string, Entry>, n: string, e: Entry)
    requires n !in done && now == done[n := e] && RoutesAre(built, done) && Routable(done)
    requires OwnNames(e.config) && forall a :: Claimed(e.config, a) ==> a !in built
    ensures Routable(now)
  {
    hide Claimed;
    hide OwnNames;
  }

  lemma OneMoreRouted(built: map<string, nat>, next: map<string, nat>, done: map<string, Entry>, now: map<string, Entry>,
                      n: string, e: Entry)
    requires n !in done && now == done[n := e] && RoutesAre(built, done) && Routable(done)
    requires OwnNames(e.config) && (forall a :: Claimed(e.config, a) ==> a !in built) && Extends(next, built, e)
    ensures RoutesAre(next, now) && Routable(now)
  {
    hide Claimed;
    hide OwnNames;
    StaysRoutable(built, done, now, n, e);
    hide Routable;
    forall a <- next ensures exists m <- now :: Claimed(now[m].config, a) && next[a] == now[m].runtime {
      if a in built {
        var m :| m in done && Claimed(done[m].config, a) && built[a] == done[m].runtime;
        assert now[m] == done[m];
      } else {
        assert now[n] == e;
      }
    }
  }

  /** Of the wanted worlds, those outside todo have been tried: was is what was live before, now what is, waiting what is pending. */
  ghost predicate Tried(was: map<string, Entry>, now: map<string, Entry>, waiting: map<string, Config>,
                        want: map<string, Config>, todo: set<string>, opens: set<string>, resilient: bool) {
    && now.Keys <= want.Keys && waiting.Keys <= want.Keys && waiting.Keys !! now.Keys
    && (forall n <- want :: n in now <==> n in was || (n !in todo && n !in opens))
    && (forall n <- now :: now[n].config == want[n])
    && (forall n <- was :: n in now && now[n] == was[n])
    && (resilient ==> forall n <- want :: n !in todo && n !in now ==> n in waiting && waiting[n] == want[n])
    && (!resilient ==> waiting == map[])
  }

  lemma NoneTried(entries: map<string, Entry>, pending: map<string, Config>, want: map<string, Config>, opens: set<string>,
                  resilient: bool)
    requires entries.Keys + pending.Keys <= want.Keys && (forall n <- entries :: entries[n].config == want[n])
    requires (forall n <- pending :: n !in entries) && (!resilient ==> pending == map[])
    ensures Tried(entries, entries, pending, want, want.Keys, opens, resilient)
  {
  }

  /** Trying one more world, by whether it was live and whether it opens. */
  lemma OneTried(was: map<string, Entry>, now: map<string, Entry>, waiting: map<string, Config>, want: map<string, Config>,
                 todo: set<string>, opens: set<string>, resilient: bool, n: string)
    requires Tried(was, now, waiting, want, todo, opens, resilient) && n in todo && n in want
    ensures n in now ==> n in was && Tried(was, now, waiting, want, todo - {n}, opens, resilient)
    ensures n !in now ==> n !in was
    ensures n !in now && n !in opens ==> forall r ::
      Tried(was, now[n := Entry(want[n], r, false)], waiting - {n}, want, todo - {n}, opens, resilient)
    ensures n !in now && n in opens ==>
      Tried(was, now, if resilient then waiting[n := want[n]] else waiting, want, todo - {n}, opens, resilient)
  {
  }

  lemma AllTried(was: map<string, Entry>, now: map<string, Entry>, waiting: map<string, Config>, want: map<string, Config>,
                 opens: set<string>, resilient: bool)
    requires Tried(was, now, waiting, want, {}, opens, resilient)
    ensures now.Keys == was.Keys + (want.Keys - opens)
    ensures (forall n <- now :: now[n].config == want[n]) && (forall n <- was :: now[n] == was[n])
    ensures waiting == if resilient then (map n | n in want && n !in now :: want[n]) else map[]
    ensures (forall n <- want :: n in was || n !in opens) <==> want.Keys <= now.Keys
  {
  }

  /** Of the worlds that waited, those outside todo have been tried again. */
  ghost predicate Retried(was: map<string, Entry>, now: map<string, Entry>, waited: map<string, Config>,
                          waiting: map<string, Config>, todo: set<string>, opens: set<string>) {
    && (forall n <- waited :: waited[n].name == n && n !in was)
    && (forall n <- waiting :: n in waited && waiting[n] == waited[n] && n !in now)
    && (forall n <- waited :: n in waiting <==> n in todo || n in opens)
    && (forall n :: n in now <==> n in was || (n in waited && n !in waiting))
    && (forall n <- was :: now[n] == was[n])
    && (forall n <- now :: n !in was ==> now[n].config == waited[n] && !now[n].published)
  }

  lemma NoneRetried(entries: map<string, Entry>, pending: map<string, Config>, opens: set<string>)
    requires forall n <- pending :: pending[n].name == n && n !in entries
    ensures Retried(entries, entries, pending, pending, pending.Keys, opens)
  {
  }

  lemma OneRetried(was: map<string, Entry>, now: map<string, Entry>, waited: map<string, Config>, waiting: map<string, Config>,
                   todo: set<string>, opens: set<string>, n: string)
    requires Retried(was, now, waited, waiting, todo, opens) && n in todo && n in waiting
    ensures waiting[n].name == n && n !in now && n in waited
    ensures n !in opens ==> forall r ::
      Retried(was, now[n := Entry(waiting[n], r, false)], waited, waiting - {n}, todo - {n}, opens)
    ensures n in opens ==> Retried(was, now, waited, waiting, todo - {n}, opens)
  {
  }

  lemma AllRetried(was: map<string, Entry>, now: map<string, Entry>, waited: map<string, Config>, waiting: map<string, Config>,
                   opens: set<string>)
    requires Retried(was, now, waited, waiting, {}, opens)
    ensures now.Keys == was.Keys + (waited.Keys - opens)
    ensures waiting == map n | n in waited && n in opens :: waited[n]
    ensures forall n <- was :: now[n] == was[n]
    ensures forall n <- now :: n !in was ==> now[n].config == waited[n] && !now[n].published
    ensures (exists n <- waited :: n !in opens) <==> waited.Keys - opens != {}
  {
    if n :| n in waited && n !in opens { assert n in waited.Keys - opens; }
  }

  /** The same world, whatever publish carried it since. */
  predicate SameWorld(now: Entry, was: Entry) { now.config == was.config && now.runtime == was.runtime }

  /** The pending worlds that open are live; what was live stays, and the others stay pending. */
  ghost predicate AfterRetry(was: map<string, Entry>, now: map<string, Entry>, waited: map<string, Config>,
                             waiting: map<string, Config>, opens: set<string>) {
    && now.Keys == was.Keys + (waited.Keys - opens)
    && waiting == (map n | n in waited && n in opens :: waited[n])
    && (forall n <- was :: SameWorld(now[n], was[n]))
    && (forall n <- now :: n !in was ==> now[n].config == waited[n])
  }

  lemma NothingWaits(entries: map<string, Entry>, pending: map<string, Config>, opens: set<string>)
    ensures |pending| == 0 ==> AfterRetry(entries, entries, pending, pending, opens) && pending.Keys - opens == {}
  {
    if |pending| == 0 { assert pending == map[]; }
  }

  lemma AllUp(was: map<string, Entry>, now: map<string, Entry>, waited: map<string, Config>, waiting: map<string, Config>,
              opens: set<string>)
    requires now.Keys == was.Keys + (waited.Keys - opens) && waiting == map n | n in waited && n in opens :: waited[n]
    requires (forall n <- was :: now[n] == was[n]) && forall n <- now :: n !in was ==> now[n].config == waited[n]
    ensures AfterRetry(was, now, waited, waiting, opens)
  {
  }

  lemma StillUp(was: map<string, Entry>, now: map<string, Entry>, later: map<string, Entry>, waited: map<string, Config>,
                waiting: map<string, Config>, opens: set<string>)
    requires AfterRetry(was, now, waited, waiting, opens)
    requires later.Keys == now.Keys && forall n <- later :: SameWorld(later[n], now[n])
    ensures AfterRetry(was, later, waited, waiting, opens)
  {
    assert forall n <- was :: n in later && SameWorld(later[n], now[n]) && SameWorld(now[n], was[n]);
  }

  /** Every runtime that no publish carried can reload its tokens. */
  ghost predicate Refreshed(entries: map<string, Entry>, f: Failures) {
    forall n <- entries :: entries[n].published || n !in f.reloads
  }

  lemma RefreshedNow(was: map<string, Entry>, now: map<string, Entry>, up: set<string>, f: Failures)
    requires now.Keys == was.Keys + up && was.Keys !! up && forall n <- was :: now[n] == was[n]
    requires forall n <- up :: !now[n].published
    ensures Refreshed(now, f) <==> Refreshed(was, f) && up !! f.reloads
  {
  }

  lemma StillRoutable(entries: map<string, Entry>)
    ensures Routable(Published(entries)) <==> Routable(entries)
  {
    hide OwnNames;
    hide Claimed;
    var now := Published(entries);
    if Routable(now) {
      forall n <- entries ensures OwnNames(entries[n].config) { assert n in now; }
      forall n, m, a | n in entries && m in entries && n != m ensures !(Claimed(entries[n].config, a) && Claimed(entries[m].config, a)) {
        assert n in now && m in now;
      }
    }
  }

  lemma NewRuntime(routes: map<string, nat>, coordinated: set<nat>, entries: map<string, Entry>, running: Open,
                   world: Config, r: nat)
    requires Reachable(routes, coordinated, entries, running) && r !in running && world.name !in entries
    ensures Reachable(routes, coordinated, entries[world.name := Entry(world, r, false)], running[r := world.tokenFiles])
  {
  }

  /** Right after a publish everything reachable is live. */
  lemma NowReachable(routes: map<string, nat>, entries: map<string, Entry>, retiring: seq<Retired>, running: Open)
    requires RoutesAre(routes, entries) && Placed(entries, retiring, running, {})
    ensures Reachable(routes, Coordinated(entries), Published(entries), running)
    ensures OnlyLive(routes, Coordinated(entries), Published(entries))
  {
    var now := Published(entries);
    forall a <- routes ensures Live(now, routes[a]) && routes[a] in running {
      var n :| n in entries && Claimed(entries[n].config, a) && routes[a] == entries[n].runtime;
      assert now[n].runtime == routes[a] && Holds(running, entries[n]);
    }
    forall r <- Coordinated(entries) ensures Live(now, r) && r in running {
      var n :| n in entries && entries[n].config.tokenFiles != [] && entries[n].runtime == r;
      assert now[n].runtime == r && Holds(running, entries[n]);
    }
  }

  lemma RoutesStay(routes: map<string, nat>, entries: map<string, Entry>)
    ensures RoutesAre(routes, entries) ==> RoutesAre(routes, Published(entries))
    ensures Coordinated(Published(entries)) == Coordinated(entries)
  {
    var now := Published(entries);
    if RoutesAre(routes, entries) {
      forall a <- routes ensures exists n <- now :: Claimed(now[n].config, a) && routes[a] == now[n].runtime {
        var n :| n in entries && Claimed(entries[n].config, a) && routes[a] == entries[n].runtime;
        assert now[n] == entries[n].(published := true);
      }
    }
    forall r ensures r in Coordinated(now) <==> r in Coordinated(entries) {
      if r in Coordinated(entries) {
        var n :| n in entries && entries[n].config.tokenFiles != [] && entries[n].runtime == r;
        assert now[n].runtime == r;
      }
    }
  }

  lemma RetiringUnreachable(routes: map<string, nat>, coordinated: set<nat>, entries: map<string, Entry>,
                            retiring: seq<Retired>, running: Open)
    requires Placed(entries, retiring, running, {}) && retiring != []
    requires OnlyLive(routes, coordinated, entries) && Reachable(routes, coordinated, entries, running)
    ensures Reachable(routes, coordinated, entries, running - {retiring[0].entry.runtime})
    ensures Holds(running, retiring[0].entry)
  {
    var r := retiring[0].entry.runtime;
    forall a <- routes ensures routes[a] != r {
      var n :| n in entries && entries[n].runtime == routes[a];
    }
    forall q <- coordinated ensures q != r {
      var n :| n in entries && entries[n].runtime == q;
    }
  }

  /** The live worlds a new configuration leaves alone. */
  function Kept(entries: map<string, Entry>, want: map<string, Config>): map<string, Entry> {
    map n | n in entries && n in want && entries[n].config == want[n] :: entries[n]
  }

  /** A world leaves the live set: its runtime stays open for now, or nothing could reach it. */
  lemma EntryGone(routes: map<string, nat>, coordinated: set<nat>, entries: map<string, Entry>,
                  retiring: seq<Retired>, running: Open, n: string)
    requires Placed(entries, retiring, running, {}) && n in entries
    requires Reachable(routes, coordinated, entries, running)
    ensures Reachable(routes, coordinated, entries - {n}, running) && Holds(running, entries[n])
    ensures !entries[n].published ==> Reachable(routes, coordinated, entries - {n}, running - {entries[n].runtime})
  {
  }

  // ---------- Runs ----------

  datatype Step = Configure(desired: seq<Config>, failures: Failures) | Retry(failures: Failures)

  /**
   * Any sequence of reloads and retries, with any pattern of failed opens, token reloads and
   * publishes. Afterwards, as after every step, nothing routed or coordinated is closed, each
   * runtime ever opened is in one place, and every watcher counts exactly the open uses.
   */
  method Run(m: Manager, steps: seq<Step>)
    requires m.Valid()
    modifies m, m.tokenDirs.Values
    ensures m.Valid()
    ensures forall a <- m.routes :: m.routes[a] !in m.closed
    ensures m.coordinated !! m.closed
    ensures forall r :: 0 <= r < m.started ==>
      r in m.closed || Live(m.entries, r) || Retiring(m.retiring, r)
    ensures forall r :: r in m.closed ==> !Live(m.entries, r) && !Retiring(m.retiring, r)
  {
    hide Placed;
    hide Reachable;
    hide Manager.Accounted;
    hide Manager.Watching;
    for i := 0 to |steps|
      invariant m.Valid() && fresh(m.tokenDirs.Values - old(m.tokenDirs.Values))
    {
      match steps[i] {
      case Configure(desired, failures) => var ok, published := m.Apply(desired, failures);
      case Retry(failures) => var published := m.RetryPending(failures);
      }
    }
    InOnePlace(m);
  }

  lemma InOnePlace(m: Manager)
    requires m.Valid()
    ensures forall a <- m.routes :: m.routes[a] !in m.closed
    ensures m.coordinated !! m.closed
    ensures forall r :: 0 <= r < m.started ==>
      r in m.closed || Live(m.entries, r) || Retiring(m.retiring, r)
    ensures forall r :: r in m.closed ==> !Live(m.entries, r) && !Retiring(m.retiring, r)
    ensures forall r :: Live(m.entries, r) ==> !Retiring(m.retiring, r)
  {
    hide Manager.Watching;
    forall r | 0 <= r < m.started ensures r in m.closed || Live(m.entries, r) || Retiring(m.retiring, r) {
      assert r in m.closed + m.running.Keys;
    }
  }
}
