// Building, publishing and reading a generation of index shards: client/index/sharded.go.
module Sharding {
  import opened Wrappers
  import opened Text
  import opened Paths
  import opened Index
  import opened Seqs
  import opened Sha256

  // ---------- Order ----------

  /** compareEntries(a, b) <= 0. */
  predicate EntryLeq(a: Entry, b: Entry) {
    if a.hash != b.hash then LexLeq(a.hash, b.hash)
    else if a.server != b.server then LexLeq(a.server, b.server)
    else LexLeq(a.path, b.path)
  }

  ghost predicate SortedEntries(es: seq<Entry>) {
    forall i, j :: 0 <= i < j < |es| ==> EntryLeq(es[i], es[j])
  }

  lemma EntryOrder(a: Entry, b: Entry, c: Entry)
    ensures EntryLeq(a, b) || EntryLeq(b, a)
    ensures EntryLeq(a, b) && EntryLeq(b, c) ==> EntryLeq(a, c)
    ensures EntryLeq(a, b) && EntryLeq(b, a) ==> a == b
  {
    LexTotal(a.hash, b.hash);
    LexTotal(b.hash, c.hash);
    LexTotal(a.server, b.server);
    LexTotal(b.server, c.server);
    LexTotal(a.path, b.path);
    if LexLeq(a.hash, b.hash) && LexLeq(b.hash, c.hash) { LexTransitive(a.hash, b.hash, c.hash); }
    if LexLeq(a.server, b.server) && LexLeq(b.server, c.server) { LexTransitive(a.server, b.server, c.server); }
    if LexLeq(a.path, b.path) && LexLeq(b.path, c.path) { LexTransitive(a.path, b.path, c.path); }
  }

  /** slices.SortFunc by compareEntries; the order is total on entries, so any correct sort returns this. */
  function SortEntries(es: seq<Entry>): seq<Entry> { Sort(EntryLeq, es) }

  lemma EntriesOrdered()
    ensures Orders(EntryLeq)
  {
    forall a, b, c ensures EntryLeq(a, b) || EntryLeq(b, a)
      ensures EntryLeq(a, b) && EntryLeq(b, c) ==> EntryLeq(a, c)
    {
      EntryOrder(a, b, c);
    }
  }

  lemma SortEntriesSorts(es: seq<Entry>)
    ensures SortedEntries(SortEntries(es)) && multiset(SortEntries(es)) == multiset(es)
  {
    hide EntryLeq;
    EntriesOrdered();
    SortSorts(EntryLeq, es);
  }

  // ---------- Shard paths ----------

  function Pad3(s: string): string { if |s| >= 3 then s else if |s| == 2 then "0" + s else if |s| == 1 then "00" + s else "000" }

  function ShardFile(prefix: string, part: nat): string { prefix + "-" + Pad3(Itoa(part)) + ".md" }

  function ShardRoot(manifestPath: string): string { TrimSuffix(manifestPath, ".md") + ".shards" }

  function ShardPath(manifestPath: string, slot: string, prefix: string, part: nat): string {
    ShardRoot(manifestPath) + "/" + slot + "/" + ShardFile(prefix, part)
  }

  function ParseShardFile(name: string): Option<(string, nat)> {
    if !HasSuffix(name, ".md") then None
    else match Cut(TrimSuffix(name, ".md"), "-")
      case None => None
      case Some((prefix, partText)) =>
        if !ValidPrefix(prefix) then None
        else match Atoi(partText)
          case None => None
          case Some(part) => if part < 0 || name != ShardFile(prefix, part) then None else Some((prefix, part))
  }

  lemma {:induction false} LeadingZero(s: string)
    requires forall c <- s :: IsDigit(c)
    ensures (forall c <- "0" + s :: IsDigit(c)) && DigitsValue("0" + s) == DigitsValue(s)
    decreases |s|
  {
    if s == "" {
      assert ("0" + s)[..0] == "";
    } else {
      assert forall c <- s[..|s| - 1] :: c in s;
      LeadingZero(s[..|s| - 1]);
      assert ("0" + s)[..|s|] == "0" + s[..|s| - 1];
    }
  }

  lemma PadKeeps(s: string)
    requires s != "" && forall c <- s :: IsDigit(c)
    ensures Pad3(s) != "" && (forall c <- Pad3(s) :: IsDigit(c)) && DigitsValue(Pad3(s)) == DigitsValue(s)
  {
    LeadingZero(s);
    LeadingZero("0" + s);
    assert "0" + ("0" + s) == "00" + s;
    hide DigitsValue;
    hide IsDigit;
  }

  lemma Pad3Value(n: nat)
    requires n <= MAX_INT
    ensures Atoi(Pad3(Itoa(n))) == Some(n)
    ensures '/' !in Pad3(Itoa(n)) && '-' !in Pad3(Itoa(n))
  {
    var s := Itoa(n);
    ItoaValue(n);
    assert |s| >= 1;
    hide Itoa;
    PadKeeps(s);
    var p := Pad3(s);
    hide Pad3;
    assert p[0] in p;
  }

  lemma ShardFileReads(prefix: string, part: nat)
    requires ValidPrefix(prefix) && part <= MAX_INT
    ensures ParseShardFile(ShardFile(prefix, part)) == Some((prefix, part))
    ensures '/' !in ShardFile(prefix, part)
  {
    hide Itoa;
    hide Atoi;
    hide Pad3;
    hide Cut;
    var name, text := ShardFile(prefix, part), Pad3(Itoa(part));
    Pad3Value(part);
    assert name[|name| - 3..] == ".md" && name[..|name| - 3] == prefix + "-" + text;
    assert prefix[0] in prefix && prefix[1] in prefix;
    assert '-' !in prefix && '/' !in prefix;
    CutAfter(prefix, "-", text);
  }

  lemma ShardPathReads(manifestPath: string, slot: string, prefix: string, part: nat)
    requires ValidPrefix(prefix) && part <= MAX_INT
    ensures ParseShardFile(Base(ShardPath(manifestPath, slot, prefix, part))) == Some((prefix, part))
  {
    hide ShardFile;
    hide Base;
    ShardFileReads(prefix, part);
    var dir := ShardRoot(manifestPath) + "/" + slot + "/";
    BaseIs(dir, ShardFile(prefix, part));
  }

  // ---------- Reading ----------

  function VerifyShard(ref: ShardRef, resp: Response): Result<seq<Entry>> {
    if resp.status != "ok" then Err("shard status")
    else if Atoi(resp.version).None? || Atoi(resp.version).value < 1 || Atoi(resp.version).value != ref.version then
      Err("shard version mismatch")
    else if Len(resp.body) != ref.bytes then Err("shard byte count mismatch")
    else if ContentHash(resp.body) != ref.contentHash || resp.contentHash != ref.contentHash then
      Err("shard content hash mismatch")
    else match (ParseShard(resp.body), ParseShardFile(Base(ref.path)))
      case (Err(e), _) => Err(e)
      case (_, None) => Err("shard identity")
      case (Ok(shard), Some((pathPrefix, pathPart))) =>
        if shard.prefix != ref.prefix || shard.prefix != pathPrefix || shard.part != pathPart ||
           |shard.entries| != ref.rows
        then Err("shard identity or row count mismatch")
        else Ok(shard.entries)
  }

  type Fetch = string -> Result<Response>

  function FetchShard(ref: ShardRef, fetch: Fetch): Result<seq<Entry>> {
    match fetch(VersionPath(ref.path, ref.version))
    case Err(e) => Err(e)
    case Ok(resp) => VerifyShard(ref, resp)
  }

  function Matching(entries: seq<Entry>, hash: string): seq<Entry> {
    if entries == [] then []
    else (if entries[0].hash == hash then [entries[0]] else []) + Matching(entries[1..], hash)
  }

  /** Every entry of the shards whose prefix is wanted (all of them when it is ""), in manifest order. */
  function Gather(refs: seq<ShardRef>, prefix: string, fetch: Fetch): Result<seq<Entry>> {
    if refs == [] then Ok([])
    else if prefix != "" && refs[0].prefix != prefix then Gather(refs[1..], prefix, fetch)
    else match FetchShard(refs[0], fetch)
      case Err(e) => Err(e)
      case Ok(entries) =>
        match Gather(refs[1..], prefix, fetch)
        case Err(e) => Err(e)
        case Ok(rest) => Ok(entries + rest)
  }

  lemma {:induction false} MatchingAppend(a: seq<Entry>, b: seq<Entry>, hash: string)
    ensures Matching(a + b, hash) == Matching(a, hash) + Matching(b, hash)
  {
    if a == [] {
      assert a + b == b;
    } else {
      assert (a + b)[1..] == a[1..] + b;
      MatchingAppend(a[1..], b, hash);
      var first := if a[0].hash == hash then [a[0]] else [];
      assert first + (Matching(a[1..], hash) + Matching(b, hash)) == first + Matching(a[1..], hash) + Matching(b, hash);
    }
  }

  function WithHash(gathered: Result<seq<Entry>>, hash: string): Result<seq<Entry>> {
    match gathered
    case Err(e) => Err(e)
    case Ok(entries) => Ok(Matching(entries, hash))
  }

  /** What was read before, then the rest. */
  function After(got: seq<Entry>, rest: Result<seq<Entry>>): Result<seq<Entry>> {
    match rest
    case Err(e) => Err(e)
    case Ok(entries) => Ok(got + entries)
  }

  lemma AfterAfter(a: seq<Entry>, b: seq<Entry>, rest: Result<seq<Entry>>)
    ensures After(a, After(b, rest)) == After(a + b, rest)
    ensures After([], rest) == rest && After(a, Ok([])) == Ok(a)
  {
    if rest.Ok? { assert a + (b + rest.value) == a + b + rest.value; }
    assert a + [] == a;
    if rest.Ok? { assert [] + rest.value == rest.value; }
  }

  lemma WithHashAfter(a: seq<Entry>, rest: Result<seq<Entry>>, hash: string)
    ensures WithHash(After(a, rest), hash) == After(Matching(a, hash), WithHash(rest, hash))
  {
    if rest.Ok? { MatchingAppend(a, rest.value, hash); }
  }

  lemma GatherStep(refs: seq<ShardRef>, k: nat, prefix: string, fetch: Fetch)
    requires k < |refs|
    ensures Gather(refs[k..], prefix, fetch) ==
      if prefix != "" && refs[k].prefix != prefix then Gather(refs[k + 1..], prefix, fetch)
      else match FetchShard(refs[k], fetch)
        case Err(e) => Err(e)
        case Ok(entries) => After(entries, Gather(refs[k + 1..], prefix, fetch))
  {
    assert refs[k..][1..] == refs[k + 1..];
  }

  method ScanPrefix(refs: seq<ShardRef>, hash: string, prefix: string, fetch: Fetch) returns (r: Result<seq<Entry>>)
    requires prefix != ""
    ensures r == WithHash(Gather(refs, prefix, fetch), hash)
  {
    hide Gather;
    hide FetchShard;
    hide After;
    hide WithHash;
    hide Matching;
    var matches: seq<Entry> := [];
    var k := 0;
    ghost var all := WithHash(Gather(refs, prefix, fetch), hash);
    assert refs[0..] == refs;
    AfterAfter([], [], all);
    while k < |refs|
      invariant 0 <= k <= |refs|
      invariant all == After(matches, WithHash(Gather(refs[k..], prefix, fetch), hash))
    {
      var ref := refs[k];
      ghost var rest := Gather(refs[k + 1..], prefix, fetch);
      GatherStep(refs, k, prefix, fetch);
      if ref.prefix == prefix {
        match FetchShard(ref, fetch)
        case Err(e) =>
          ErrStays(matches, e, hash);
          return Err(e);
        case Ok(entries) =>
          WithHashAfter(entries, rest, hash);
          AfterAfter(matches, Matching(entries, hash), WithHash(rest, hash));
          matches := matches + Matching(entries, hash);
      }
      k := k + 1;
    }
    GatherEnd(refs, prefix, fetch, hash);
    AfterAfter(matches, [], Ok([]));
    return Ok(matches);
  }

  lemma ErrStays(got: seq<Entry>, e: string, hash: string)
    ensures WithHash(Err(e), hash) == Err(e) && After(got, Err(e)) == Err(e)
  {
  }

  lemma GatherEnd(refs: seq<ShardRef>, prefix: string, fetch: Fetch, hash: string)
    ensures Gather(refs[|refs|..], prefix, fetch) == Ok([]) && WithHash(Ok([]), hash) == Ok([])
  {
  }

  // ---------- Building ----------

  /** a is the encoded shard of chunk, within the size target. */
  ghost predicate IsShard(a: ShardArtifact, manifestPath: string, slot: string, chunk: seq<Entry>, target: nat) {
    && ValidPrefix(a.prefix) && chunk != []
    && (forall e <- chunk :: ValidEntry(e) && e.hash[7..9] == a.prefix)
    && a.body == ShardText(a.prefix, a.part, chunk) && a.rows == |chunk| && a.bytes == Len(a.body) <= target
    && a.contentHash == ContentHash(a.body) && a.path == ShardPath(manifestPath, slot, a.prefix, a.part)
  }

  /** Shards of one prefix: numbered in order, tiling its entries, each as full as the target lets it be. */
  ghost predicate PrefixShards(arts: seq<ShardArtifact>, chunks: seq<seq<Entry>>, manifestPath: string, slot: string,
                               prefix: string, target: nat) {
    && |arts| == |chunks|
    && (forall k :: 0 <= k < |arts| ==>
          arts[k].prefix == prefix && arts[k].part == k && IsShard(arts[k], manifestPath, slot, chunks[k], target))
    && (forall k :: 0 <= k < |arts| - 1 ==> Full(arts[k], chunks[k], chunks[k + 1], target))
  }

  /** One more row would not have fitted. */
  ghost predicate Full(a: ShardArtifact, chunk: seq<Entry>, next: seq<Entry>, target: nat) {
    next != [] && Len(ShardText(a.prefix, a.part, chunk + [next[0]])) > target
  }

  function RowBytes(entries: seq<Entry>): nat { Len(Terminated(RowLines(entries))) }

  lemma RowBytesSnoc(entries: seq<Entry>, e: Entry)
    ensures RowBytes(entries + [e]) == RowBytes(entries) + Len(RowLine(e) + "\n")
  {
    assert RowLines(entries + [e]) == RowLines(entries) + [RowLine(e)];
    TerminatedAppend(RowLines(entries), [RowLine(e)]);
    assert Terminated([RowLine(e)]) == RowLine(e) + "\n" by { assert [RowLine(e)][1..] == []; }
    LenAppend(Terminated(RowLines(entries)), RowLine(e) + "\n");
  }

  lemma ShardBytes(prefix: string, part: nat, entries: seq<Entry>)
    ensures Len(ShardText(prefix, part, entries)) == Len(ShardHeader(prefix, part, |entries|)) + RowBytes(entries)
  {
    LenAppend(ShardHeader(prefix, part, |entries|), Terminated(RowLines(entries)));
  }

  /** The longest run of entries from start that fits in part. */
  method FillShard(entries: seq<Entry>, start: nat, prefix: string, part: nat, target: nat) returns (r: Result<nat>)
    requires start < |entries|
    ensures r.Ok? ==> start < r.value <= |entries| && forall e <- entries[start..r.value] :: ValidEntry(e)
    ensures r.Ok? ==> Len(ShardText(prefix, part, entries[start..r.value])) <= target
    ensures r.Ok? && r.value < |entries| ==>
      Len(ShardText(prefix, part, entries[start..r.value] + [entries[r.value]])) > target
    ensures r.Err? && (forall e <- entries :: ValidEntry(e)) ==> Len(ShardText(prefix, part, [entries[start]])) > target
  {
    hide ShardText;
    hide ShardHeader;
    hide RowBytes;
    hide ValidEntry;
    var end, rowBytes := start, 0;
    EmptyRows();
    while end < |entries|
      invariant start <= end <= |entries|
      invariant forall e <- entries[start..end] :: ValidEntry(e)
      invariant rowBytes == RowBytes(entries[start..end])
      invariant end > start ==> Len(ShardText(prefix, part, entries[start..end])) <= target
    {
      if !ValidEntry(entries[end]) { return Err("invalid entry"); }
      var row := RowLine(entries[end]) + "\n";
      var candidateBytes := Len(ShardHeader(prefix, part, end - start + 1)) + rowBytes + Len(row);
      assert entries[start..end] + [entries[end]] == entries[start..end + 1];
      RowBytesSnoc(entries[start..end], entries[end]);
      ShardBytes(prefix, part, entries[start..end + 1]);
      if candidateBytes > target {
        if end == start {
          assert entries[start..end + 1] == [entries[start]];
          return Err("one shard row exceeds target");
        }
        break;
      }
      rowBytes := rowBytes + Len(row);
      end := end + 1;
    }
    return Ok(end);
  }

  lemma EmptyRows()
    ensures RowBytes([]) == 0
  {
  }

  /** Why a build is refused: a bad entry, or a row that fits in no shard. */
  ghost predicate Refused(entries: seq<Entry>, target: nat) {
    (exists e <- entries :: !ValidEntry(e)) ||
    exists e <- entries, part: nat :: HashPrefix(e.hash).Ok? && Len(ShardText(HashPrefix(e.hash).value, part, [e])) > target
  }

  lemma ChunkPrefix(chunk: seq<Entry>, prefix: string)
    requires forall e <- chunk :: ValidEntry(e) && HashPrefix(e.hash) == Ok(prefix)
    ensures forall e <- chunk :: |e.hash| == 71 && e.hash[7..9] == prefix
  {
    forall e <- chunk ensures |e.hash| == 71 && e.hash[7..9] == prefix { EntryShape(e); }
  }

  lemma AppendShard(arts: seq<ShardArtifact>, chunks: seq<seq<Entry>>, a: ShardArtifact, chunk: seq<Entry>,
                    manifestPath: string, slot: string, prefix: string, target: nat)
    requires PrefixShards(arts, chunks, manifestPath, slot, prefix, target)
    requires a.prefix == prefix && a.part == |arts| && IsShard(a, manifestPath, slot, chunk, target)
    requires arts != [] ==> Full(arts[|arts| - 1], chunks[|arts| - 1], chunk, target)
    ensures PrefixShards(arts + [a], chunks + [chunk], manifestPath, slot, prefix, target)
  {
    hide IsShard;
    hide Full;
  }

  /** One step of the loop below: the run that filled part becomes its shard. */
  lemma NextShard(arts: seq<ShardArtifact>, chunks: seq<seq<Entry>>, a: ShardArtifact, entries: seq<Entry>,
                  start: nat, end: nat, manifestPath: string, slot: string, prefix: string, target: nat)
    requires start < end <= |entries| && ValidPrefix(prefix) && forall e <- entries :: HashPrefix(e.hash) == Ok(prefix)
    requires forall e <- entries[start..end] :: ValidEntry(e)
    requires Flat(chunks) == entries[..start] && PrefixShards(arts, chunks, manifestPath, slot, prefix, target)
    requires arts != [] ==> |chunks| == |arts| && Full(arts[|arts| - 1], chunks[|arts| - 1], entries[start..], target)
    requires a.prefix == prefix && a.part == |arts| && a.body == ShardText(prefix, a.part, entries[start..end])
    requires a.rows == end - start && a.bytes == Len(a.body) <= target && a.contentHash == ContentHash(a.body)
    requires a.path == ShardPath(manifestPath, slot, prefix, a.part)
    ensures Flat(chunks + [entries[start..end]]) == entries[..end]
    ensures PrefixShards(arts + [a], chunks + [entries[start..end]], manifestPath, slot, prefix, target)
  {
    hide ShardText;
    hide ShardPath;
    hide ValidEntry;
    hide HashPrefix;
    hide PrefixShards;
    hide Full;
    hide Flat;
    hide IsShard;
    var chunk := entries[start..end];
    FlatSnoc(chunks, chunk);
    assert entries[..start] + chunk == entries[..end];
    ThatShard(a, chunk, manifestPath, slot, prefix, target);
    if arts != [] { FullFirst(arts[|arts| - 1], chunks[|arts| - 1], entries[start..], chunk, target); }
    AppendShard(arts, chunks, a, chunk, manifestPath, slot, prefix, target);
  }

  lemma ThatShard(a: ShardArtifact, chunk: seq<Entry>, manifestPath: string, slot: string, prefix: string, target: nat)
    requires ValidPrefix(prefix) && |chunk| > 0 && forall e <- chunk :: ValidEntry(e) && HashPrefix(e.hash) == Ok(prefix)
    requires a.prefix == prefix && a.body == ShardText(prefix, a.part, chunk)
    requires a.rows == |chunk| && a.bytes == Len(a.body) <= target && a.contentHash == ContentHash(a.body)
    requires a.path == ShardPath(manifestPath, slot, prefix, a.part)
    ensures IsShard(a, manifestPath, slot, chunk, target)
  {
    hide ShardText;
    hide ShardPath;
    hide ValidEntry;
    hide HashPrefix;
    ChunkPrefix(chunk, prefix);
  }

  lemma FullFirst(a: ShardArtifact, chunk: seq<Entry>, next: seq<Entry>, other: seq<Entry>, target: nat)
    requires Full(a, chunk, next, target) && |other| > 0 && other[0] == next[0]
    ensures Full(a, chunk, other, target)
  {
  }

  method BuildPrefixParts(manifestPath: string, slot: string, prefix: string, entries: seq<Entry>, target: nat)
    returns (r: Result<seq<ShardArtifact>>, ghost chunks: seq<seq<Entry>>)
    requires ValidPrefix(prefix) && forall e <- entries :: HashPrefix(e.hash) == Ok(prefix)
    ensures r.Ok? ==> Flat(chunks) == entries && PrefixShards(r.value, chunks, manifestPath, slot, prefix, target)
    ensures r.Err? ==> Refused(entries, target)
  {
    hide ShardText;
    hide ShardPath;
    hide ValidEntry;
    hide HashPrefix;
    hide IsShard;
    hide Flat;
    var artifacts: seq<ShardArtifact> := [];
    chunks := [];
    FlatNil(chunks);
    var start, part := 0, 0;
    while start < |entries|
      invariant 0 <= start <= |entries| && part == |artifacts|
      invariant Flat(chunks) == entries[..start]
      invariant PrefixShards(artifacts, chunks, manifestPath, slot, prefix, target)
      invariant artifacts != [] && start < |entries| ==> Full(artifacts[part - 1], chunks[part - 1], entries[start..], target)
    {
      hide Full;
      hide PrefixShards;
      var filled := FillShard(entries, start, prefix, part, target);
      match filled
      case Err(e) =>
        RowTooLong(entries, start, prefix, part, target);
        return Err(e), chunks;
      case Ok(end) =>
        ghost var chunk := entries[start..end];
        var body := ShardText(prefix, part, entries[start..end]);
        var a := ShardArtifact(prefix, part, ShardPath(manifestPath, slot, prefix, part), body, ContentHash(body), end - start, Len(body));
        NextShard(artifacts, chunks, a, entries, start, end, manifestPath, slot, prefix, target);
        artifacts, chunks := artifacts + [a], chunks + [chunk];
        start, part := end, part + 1;
    }
    assert entries[..|entries|] == entries;
    return Ok(artifacts), chunks;
  }

  lemma RowTooLong(entries: seq<Entry>, k: nat, prefix: string, part: nat, target: nat)
    requires k < |entries| && forall e <- entries :: HashPrefix(e.hash) == Ok(prefix)
    requires (forall e <- entries :: ValidEntry(e)) ==> Len(ShardText(prefix, part, [entries[k]])) > target
    ensures Refused(entries, target)
  {
    assert entries[k] in entries;
  }

  /** The next shard continues the prefix with the next part, or opens a larger prefix. */
  ghost predicate Follows(a: ShardArtifact, chunk: seq<Entry>, b: ShardArtifact, next: seq<Entry>, target: nat) {
    if a.prefix == b.prefix then b.part == a.part + 1 && Full(a, chunk, next, target)
    else b.part == 0 && LexLeq(a.prefix, b.prefix)
  }

  /** arts is a complete, maximal partition of entries into shards within the target. */
  ghost predicate IsSharding(arts: seq<ShardArtifact>, chunks: seq<seq<Entry>>, manifestPath: string, slot: string,
                             target: nat, entries: seq<Entry>) {
    && |arts| == |chunks| && Flat(chunks) == entries
    && (forall k :: 0 <= k < |arts| ==>
          IsShard(arts[k], manifestPath, slot, chunks[k], target) && arts[k].part <= k && |chunks[k]| <= |entries|)
    && (forall k :: 0 <= k < |arts| - 1 ==> Follows(arts[k], chunks[k], arts[k + 1], chunks[k + 1], target))
    && (arts != [] ==> arts[0].part == 0)
  }

  /** validateManifestPath: a clean path whose shards and their pinned versions can be requested. */
  predicate ValidManifestPath(path: string) {
    var shard := ShardPath(path, "a", "00", 0);
    ValidRequestPath(path) && Clean(path) == path && path != "/" &&
    ValidRequestPath(shard) && ValidRequestPath(VersionPath(shard, MAX_INT))
  }

  /** Zero asks for the default size. */
  function EffectiveTarget(target: int): int { if target == 0 then DEFAULT_SHARD_TARGET_BYTES else target }

  predicate Buildable(manifestPath: string, slot: string, count: nat, target: int) {
    ValidManifestPath(manifestPath) && (slot == "a" || slot == "b") &&
    1 <= EffectiveTarget(target) <= MAX_BODY_LENGTH && count <= MAX_INDEX_ENTRIES
  }

  /** The end of the run of entries that share the prefix of the one at start. */
  method GroupEnd(sorted: seq<Entry>, start: nat, prefix: string) returns (r: Result<nat>)
    requires start < |sorted| && HashPrefix(sorted[start].hash) == Ok(prefix)
    ensures r.Ok? ==> start < r.value <= |sorted| && forall e <- sorted[start..r.value] :: HashPrefix(e.hash) == Ok(prefix)
    ensures r.Ok? && r.value < |sorted| ==> HashPrefix(sorted[r.value].hash) != Ok(prefix)
    ensures r.Err? ==> exists e <- sorted :: HashPrefix(e.hash).Err?
  {
    hide HashPrefix;
    var end := start;
    while end < |sorted|
      invariant start <= end <= |sorted|
      invariant forall e <- sorted[start..end] :: HashPrefix(e.hash) == Ok(prefix)
    {
      var q := HashPrefix(sorted[end].hash);
      if q.Err? { return Err(q.error); }
      if q.value != prefix { return Ok(end); }
      assert sorted[start..end + 1] == sorted[start..end] + [sorted[end]];
      end := end + 1;
    }
    return Ok(end);
  }

  method BuildShards(manifestPath: string, slot: string, entries: seq<Entry>, target: int)
    returns (r: Result<seq<ShardArtifact>>, ghost chunks: seq<seq<Entry>>)
    ensures r.Ok? ==> Buildable(manifestPath, slot, |entries|, target)
    ensures r.Ok? ==>
      IsSharding(r.value, chunks, manifestPath, slot, EffectiveTarget(target), SortEntries(entries))
    ensures r.Err? && Buildable(manifestPath, slot, |entries|, target) ==> Refused(entries, EffectiveTarget(target))
  {
    hide HashPrefix;
    hide PrefixShards;
    hide ValidEntry;
    hide IsSharding;
    hide SortedEntries;
    hide SortEntries;
    hide Refused;
    hide Flat;
    hide ValidManifestPath;
    chunks := [];
    if !ValidManifestPath(manifestPath) { return Err("invalid manifest path"), chunks; }
    if slot != "a" && slot != "b" { return Err("invalid shard slot"), chunks; }
    var targetBytes := EffectiveTarget(target);
    if targetBytes < 1 || targetBytes > MAX_BODY_LENGTH { return Err("invalid shard target"), chunks; }
    if |entries| > MAX_INDEX_ENTRIES { return Err("too many entries"), chunks; }
    var sorted := SortEntries(entries);
    SortEntriesSorts(entries);
    var artifacts: seq<ShardArtifact> := [];
    var start := 0;
    NoShards(manifestPath, slot, targetBytes);
    assert sorted[..0] == [];
    while start < |sorted|
      invariant 0 <= start <= |sorted|
      invariant IsSharding(artifacts, chunks, manifestPath, slot, targetBytes, sorted[..start])
      invariant artifacts != [] && start < |sorted| ==>
        HashPrefix(sorted[start].hash) != Ok(artifacts[|artifacts| - 1].prefix)
    {
      var p := HashPrefix(sorted[start].hash);
      if p.Err? {
        BadHash(sorted, entries, targetBytes);
        return Err(p.error), chunks;
      }
      var groupEnd := GroupEnd(sorted, start, p.value);
      if groupEnd.Err? {
        BadHash(sorted, entries, targetBytes);
        return Err(groupEnd.error), chunks;
      }
      var end := groupEnd.value;
      PrefixIsValid(sorted[start].hash);
      var parts, groupChunks := BuildPrefixParts(manifestPath, slot, p.value, sorted[start..end], targetBytes);
      if parts.Err? {
        RefusedMore(sorted, start, end, entries, targetBytes);
        return Err(parts.error), chunks;
      }
      AppendGroup(artifacts, chunks, parts.value, groupChunks, manifestPath, slot, p.value, targetBytes, sorted, start, end);
      artifacts, chunks := artifacts + parts.value, chunks + groupChunks;
      start := end;
    }
    assert sorted[..|sorted|] == sorted;
    return Ok(artifacts), chunks;
  }

  lemma NoShards(manifestPath: string, slot: string, target: nat)
    ensures IsSharding([], [], manifestPath, slot, target, [])
  {
  }

  lemma PrefixIsValid(hash: string)
    requires HashPrefix(hash).Ok?
    ensures ValidPrefix(HashPrefix(hash).value)
  {
    var clean := HashPath(hash).value;
    forall c <- clean[7..9] ensures IsHex(c) { assert c in clean[7..]; }
  }

  lemma BadHash(sorted: seq<Entry>, entries: seq<Entry>, target: nat)
    requires multiset(sorted) == multiset(entries) && exists e <- sorted :: HashPrefix(e.hash).Err?
    ensures Refused(entries, target)
  {
    var e :| e in sorted && HashPrefix(e.hash).Err?;
    assert e in multiset(entries);
    assert e in entries && !ValidEntry(e);
  }

  lemma RefusedMore(sorted: seq<Entry>, start: nat, end: nat, entries: seq<Entry>, target: nat)
    requires start <= end <= |sorted| && multiset(sorted) == multiset(entries) && Refused(sorted[start..end], target)
    ensures Refused(entries, target)
  {
    forall e <- sorted[start..end] ensures e in entries {
      assert e in sorted;
      assert e in multiset(entries);
    }
  }

  /** Sorting by hash sorts by prefix. */
  lemma PrefixOrder(a: Entry, b: Entry)
    requires ValidEntry(a) && ValidEntry(b) && EntryLeq(a, b)
    ensures |a.hash| == 71 && |b.hash| == 71 && LexLeq(a.hash[7..9], b.hash[7..9])
  {
    EntryShape(a);
    EntryShape(b);
    LexTotal(a.hash, b.hash);
    LexTotal(a.hash[7..9], b.hash[7..9]);
    if a.hash != b.hash {
      var x, y := a.hash[7..], b.hash[7..];
      assert a.hash == "sha256-" + x && b.hash == "sha256-" + y;
      LexStrip("sha256-", x, y);
      LexTake(x, y, 2);
      assert x[..2] == a.hash[7..9] && y[..2] == b.hash[7..9];
    }
  }

  lemma {:induction false} LexStrip(p: string, x: string, y: string)
    requires LexLeq(p + x, p + y)
    ensures LexLeq(x, y)
  {
    if p == "" {
      assert p + x == x && p + y == y;
    } else {
      assert (p + x)[1..] == p[1..] + x && (p + y)[1..] == p[1..] + y;
      LexStrip(p[1..], x, y);
    }
  }

  lemma {:induction false} LexTake(x: string, y: string, n: nat)
    requires LexLeq(x, y) && n <= |x| && n <= |y|
    ensures LexLeq(x[..n], y[..n])
  {
    if n > 0 && x[0] == y[0] {
      LexTake(x[1..], y[1..], n - 1);
      assert x[..n][1..] == x[1..][..n - 1] && y[..n][1..] == y[1..][..n - 1];
    }
  }

  lemma ShardsAreFull(arts: seq<ShardArtifact>, chunks: seq<seq<Entry>>, manifestPath: string, slot: string, target: nat)
    requires |arts| == |chunks| && forall k :: 0 <= k < |arts| ==> IsShard(arts[k], manifestPath, slot, chunks[k], target)
    ensures AllFull(chunks)
  {
  }

  /** Where two prefix groups meet, the later prefix is larger. */
  lemma GroupsInOrder(a: ShardArtifact, chunk: seq<Entry>, b: ShardArtifact, next: seq<Entry>,
                      manifestPath: string, slot: string, target: nat)
    requires IsShard(a, manifestPath, slot, chunk, target) && IsShard(b, manifestPath, slot, next, target)
    requires |chunk| > 0 && |next| > 0 && EntryLeq(chunk[|chunk| - 1], next[0])
    ensures LexLeq(a.prefix, b.prefix)
  {
    var x, y := chunk[|chunk| - 1], next[0];
    assert x in chunk && y in next;
    PrefixOrder(x, y);
  }

  /** The seam between what was built and the next prefix group. */
  lemma GroupSeam(arts: seq<ShardArtifact>, chunks: seq<seq<Entry>>, part: ShardArtifact,
                  group: seq<seq<Entry>>, manifestPath: string, slot: string, target: nat,
                  sorted: seq<Entry>, start: nat, end: nat)
    requires start < end <= |sorted| && SortedEntries(sorted) && |arts| == |chunks| > 0 && |group| > 0
    requires AllFull(chunks) && AllFull(group)
    requires Flat(chunks) == sorted[..start] && Flat(group) == sorted[start..end]
    requires IsShard(arts[|arts| - 1], manifestPath, slot, chunks[|arts| - 1], target)
    requires IsShard(part, manifestPath, slot, group[0], target)
    ensures LexLeq(arts[|arts| - 1].prefix, part.prefix)
  {
    hide IsShard;
    hide Flat;
    FlatEnds(chunks);
    FlatEnds(group);
    assert EntryLeq(sorted[start - 1], sorted[start]);
    GroupsInOrder(arts[|arts| - 1], chunks[|arts| - 1], part, group[0], manifestPath, slot, target);
  }

  /** Inside a prefix group every shard follows the one before it. */
  lemma PartsFollow(parts: seq<ShardArtifact>, group: seq<seq<Entry>>, manifestPath: string, slot: string, prefix: string,
                    target: nat)
    requires PrefixShards(parts, group, manifestPath, slot, prefix, target)
    ensures |parts| == |group|
    ensures forall k :: 0 <= k < |parts| - 1 ==> Follows(parts[k], group[k], parts[k + 1], group[k + 1], target)
    ensures forall k :: 0 <= k < |parts| ==> IsShard(parts[k], manifestPath, slot, group[k], target) && parts[k].part == k
    ensures forall k :: 0 <= k < |parts| ==> parts[k].prefix == prefix && |group[k]| <= |Flat(group)|
    ensures AllFull(group)
  {
    hide Full;
    forall k | 0 <= k < |parts| ensures |group[k]| <= |Flat(group)| { FlatSizes(group, k); }
  }

  lemma AppendGroup(arts: seq<ShardArtifact>, chunks: seq<seq<Entry>>, parts: seq<ShardArtifact>,
                    group: seq<seq<Entry>>, manifestPath: string, slot: string, prefix: string, target: nat,
                    sorted: seq<Entry>, start: nat, end: nat)
    requires start < end <= |sorted| && SortedEntries(sorted)
    requires IsSharding(arts, chunks, manifestPath, slot, target, sorted[..start])
    requires PrefixShards(parts, group, manifestPath, slot, prefix, target) && Flat(group) == sorted[start..end]
    requires arts != [] ==> arts[|arts| - 1].prefix != prefix
    ensures IsSharding(arts + parts, chunks + group, manifestPath, slot, target, sorted[..end])
    ensures arts + parts != [] && (arts + parts)[|arts + parts| - 1].prefix == prefix
  {
    hide IsShard;
    hide Full;
    hide Flat;
    hide SortedEntries;
    hide PrefixShards;
    hide LexLeq;
    FlatAppend(chunks, group);
    assert sorted[..start] + sorted[start..end] == sorted[..end];
    FlatNil(group);
    PartsFollow(parts, group, manifestPath, slot, prefix, target);
    assert |parts| > 0;
    if arts != [] {
      ShardsAreFull(arts, chunks, manifestPath, slot, target);
      GroupSeam(arts, chunks, parts[0], group, manifestPath, slot, target, sorted, start, end);
      assert Follows(arts[|arts| - 1], chunks[|arts| - 1], parts[0], group[0], target);
    }
    hide Follows;
    var all, cs := arts + parts, chunks + group;
    forall k | 0 <= k < |all|
      ensures IsShard(all[k], manifestPath, slot, cs[k], target) && all[k].part <= k && |cs[k]| <= end
    {
      if k >= |arts| { assert all[k] == parts[k - |arts|] && cs[k] == group[k - |arts|]; }
      else { assert all[k] == arts[k] && cs[k] == chunks[k]; }
    }
    forall k | 0 <= k < |all| - 1 ensures Follows(all[k], cs[k], all[k + 1], cs[k + 1], target) {
      if k + 1 < |arts| {
        assert Follows(arts[k], chunks[k], arts[k + 1], chunks[k + 1], target);
      } else if k + 1 > |arts| {
        var i := k - |arts|;
        assert Follows(parts[i], group[i], parts[i + 1], group[i + 1], target);
      }
    }
  }

  // ---------- The published index answers as a linear scan does ----------

  /** The store holds every shard at the version its descriptor pins. */
  ghost predicate Published(arts: seq<ShardArtifact>, versions: seq<nat>, fetch: Fetch) {
    && |versions| == |arts|
    && (forall k :: 0 <= k < |arts| ==> 1 <= versions[k] <= MAX_INT)
    && (forall k :: 0 <= k < |arts| ==>
          fetch(VersionPath(arts[k].path, versions[k])) ==
          Ok(Response("ok", Itoa(versions[k]), ContentHash(arts[k].body), arts[k].body)))
  }

  function Refs(arts: seq<ShardArtifact>, versions: seq<nat>): (r: seq<ShardRef>)
    requires |versions| == |arts|
    ensures |r| == |arts|
    ensures forall k :: 0 <= k < |arts| ==> r[k] == arts[k].Ref(versions[k])
  {
    seq(|arts|, k requires 0 <= k < |arts| => arts[k].Ref(versions[k]))
  }

  /** VerifyShard accepts what BuildShards wrote and gives its entries back. */
  lemma ShardVerifies(a: ShardArtifact, version: nat, chunk: seq<Entry>, manifestPath: string, slot: string, target: nat,
                      fetch: Fetch)
    requires IsShard(a, manifestPath, slot, chunk, target) && target <= MAX_BODY_LENGTH
    requires a.part <= MAX_INT && |chunk| <= MAX_INDEX_ENTRIES && 1 <= version <= MAX_INT
    requires fetch(VersionPath(a.path, version)) == Ok(Response("ok", Itoa(version), ContentHash(a.body), a.body))
    ensures FetchShard(a.Ref(version), fetch) == Ok(chunk)
  {
    hide ShardText;
    hide ShardPath;
    hide ParseShard;
    hide ParseShardFile;
    hide ValidEntry;
    hide Itoa;
    hide Atoi;
    hide Len;
    hide Base;
    AtoiItoa(version);
    ShardRoundTrip(a.prefix, a.part, chunk);
    ShardPathReads(manifestPath, slot, a.prefix, a.part);
  }

  lemma PartsBounded(arts: seq<ShardArtifact>, chunks: seq<seq<Entry>>, manifestPath: string, slot: string, target: nat,
                     entries: seq<Entry>)
    requires IsSharding(arts, chunks, manifestPath, slot, target, entries) && |entries| <= MAX_INDEX_ENTRIES
    ensures forall k :: 0 <= k < |arts| ==> arts[k].part <= MAX_INDEX_ENTRIES && |chunks[k]| <= MAX_INDEX_ENTRIES
  {
    hide IsShard;
    hide Follows;
    hide Flat;
    ShardsAreFull(arts, chunks, manifestPath, slot, target);
    FullCount(chunks);
  }

  lemma {:induction false} MatchingNone(entries: seq<Entry>, hash: string)
    requires forall e <- entries :: e.hash != hash
    ensures Matching(entries, hash) == []
  {
    if entries != [] {
      assert entries[0] in entries && forall e <- entries[1..] :: e in entries;
      MatchingNone(entries[1..], hash);
    }
  }

  /** Reading shards k.. of a published sharding, for one prefix and for all. */
  lemma {:induction false} GatherFrom(arts: seq<ShardArtifact>, chunks: seq<seq<Entry>>, versions: seq<nat>, fetch: Fetch,
                                      hash: string, prefix: string, k: nat)
    requires |arts| == |chunks| == |versions| && k <= |arts| && prefix != ""
    requires forall i :: 0 <= i < |arts| ==> FetchShard(arts[i].Ref(versions[i]), fetch) == Ok(chunks[i])
    requires forall i :: 0 <= i < |arts| && arts[i].prefix != prefix ==> forall e <- chunks[i] :: e.hash != hash
    ensures WithHash(Gather(Refs(arts, versions)[k..], prefix, fetch), hash) == Ok(Matching(Flat(chunks[k..]), hash))
    ensures Gather(Refs(arts, versions)[k..], "", fetch) == Ok(Flat(chunks[k..]))
    decreases |arts| - k
  {
    hide FetchShard;
    hide Gather;
    hide WithHash;
    hide Matching;
    hide Flat;
    var refs := Refs(arts, versions);
    if k == |arts| {
      GatherEnd(refs, prefix, fetch, hash);
      GatherEnd(refs, "", fetch, hash);
      MatchingNone([], hash);
      FlatNil(chunks[k..]);
    } else {
      GatherFrom(arts, chunks, versions, fetch, hash, prefix, k + 1);
      GatherStep(refs, k, prefix, fetch);
      GatherStep(refs, k, "", fetch);
      FlatStep(chunks, k);
      var rest := Flat(chunks[k + 1..]);
      MatchingAppend(chunks[k], rest, hash);
      if arts[k].prefix == prefix {
        WithHashAfter(chunks[k], Gather(refs[k + 1..], prefix, fetch), hash);
      } else {
        MatchingNone(chunks[k], hash);
        assert [] + Matching(rest, hash) == Matching(rest, hash);
      }
    }
  }

  lemma FlatStep(chunks: seq<seq<Entry>>, k: nat)
    requires k < |chunks|
    ensures Flat(chunks[k..]) == chunks[k] + Flat(chunks[k + 1..])
  {
    assert chunks[k..][1..] == chunks[k + 1..];
  }

  /** Entries in a shard of another prefix have another hash. */
  lemma OtherPrefix(a: ShardArtifact, chunk: seq<Entry>, manifestPath: string, slot: string, target: nat, hash: string)
    requires IsShard(a, manifestPath, slot, chunk, target) && HashPath(hash) == Some(hash)
    requires a.prefix != hash[7..9]
    ensures forall e <- chunk :: e.hash != hash
  {
  }
}
