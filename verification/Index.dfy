// The sharded hash index: client/index/sharded.go.
//
// Entries are sorted, cut into shards by hash prefix and encoded size, and written as
// Markdown tables. Reading one prefix's shards back must agree with a linear scan.
module Index {
  import opened Wrappers
  import opened Text
  import opened Paths
  import opened Tables

  datatype Entry = Entry(hash: string, server: string, path: string)

  datatype ShardArtifact = ShardArtifact(
    prefix: string, part: nat, path: string, body: string, contentHash: string, rows: nat, bytes: nat)
  {
    function Ref(version: nat): ShardRef { ShardRef(prefix, path, version, contentHash, rows, bytes) }
  }

  datatype ShardRef = ShardRef(prefix: string, path: string, version: nat, contentHash: string, rows: nat, bytes: nat)

  datatype Response = Response(status: string, version: string, contentHash: string, body: string)

  const SHARD_FORMAT := "demarkus-hash-index-shard/v1"
  const DEFAULT_SHARD_TARGET_BYTES: nat := 768 * 1024
  const MAX_BODY_LENGTH: nat := 1024 * 1024
  const MAX_INDEX_ENTRIES: nat := 1_000_000

  const UNSUPPORTED := "unsupported hash index format"

  // links.ParseServer's verdict on a server: any total function.
  const ServerParses: string -> bool

  // ---------- Hashes and entries ----------

  /** protocol.IsHashPath: a leading slash is dropped. */
  function HashPath(raw: string): Option<string> {
    var clean := TrimPrefix(raw, "/");
    if |clean| == 71 && HasPrefix(clean, "sha256-") && (forall c <- clean[7..] :: IsHex(c)) then Some(clean) else None
  }

  predicate ValidPrefix(prefix: string) { |prefix| == 2 && forall c <- prefix :: IsHex(c) }

  function HashPrefix(hash: string): Result<string> {
    match HashPath(hash)
    case None => Err("invalid content hash")
    case Some(clean) => Ok(clean[7..9])
  }

  /** url.Parse refuses every control character, tab included. */
  predicate ValidServer(server: string) {
    ServerParses(server) && (forall c <- server :: c >= ' ' && c != '\U{7f}')
  }

  predicate ValidPath(path: string) {
    ValidRequestPath(path) && path != "/" && Clean(path) == path
  }

  predicate ValidEntry(e: Entry) {
    HashPath(e.hash) == Some(e.hash) && ValidServer(e.server) && ValidPath(e.path)
  }

  /** A content hash has nothing in it that could break a row. */
  lemma HashShape(hash: string)
    requires HashPath(hash) == Some(hash)
    ensures |hash| == 71 && hash[..7] == "sha256-" && (forall c <- hash[7..] :: IsHex(c))
    ensures HashPrefix(hash) == Ok(hash[7..9]) && ValidPrefix(hash[7..9])
    ensures forall c <- hash :: c != '|' && c != '\n' && c != ' ' && c != '%'
  {
    assert TrimPrefix(hash, "/") == hash;
    assert hash == hash[..7] + hash[7..];
    forall c <- hash[7..9] ensures IsHex(c) { assert c in hash[7..]; }
    forall c <- hash ensures c != '|' && c != '\n' && c != ' ' && c != '%' {
      if c in hash[7..] { assert IsHex(c); } else { assert c in "sha256-"; }
    }
  }

  lemma EntryShape(e: Entry)
    requires ValidEntry(e)
    ensures |e.hash| == 71 && e.hash[..7] == "sha256-" && (forall c <- e.hash[7..] :: IsHex(c))
    ensures HashPrefix(e.hash) == Ok(e.hash[7..9]) && ValidPrefix(e.hash[7..9])
    ensures forall c <- e.hash :: c != '|' && c != '\n' && c != ' ' && c != '%'
    ensures '\n' !in e.server && '\n' !in e.path
  {
    HashShape(e.hash);
  }

  // ---------- Shards as text ----------

  function RowCells(e: Entry): seq<string> { [e.hash, EncodeCell(e.server), EncodeCell(e.path)] }

  function RowLine(e: Entry): string { TableRow(RowCells(e)) }

  const SHARD_HEADER := ["Hash", "Server", "Path"]
  const SHARD_RULES := ["------", "--------", "------"]

  function ShardFields(prefix: string, part: nat, rows: nat): seq<Field> {
    [Field("Format", SHARD_FORMAT), Field("Prefix", prefix), Field("Part", Itoa(part)), Field("Rows", Itoa(rows))]
  }

  function HeaderLines(prefix: string, part: nat, rows: nat): seq<string> {
    Preamble("# Content Index Shard", ShardFields(prefix, part, rows), SHARD_HEADER, SHARD_RULES)
  }

  function RowLines(entries: seq<Entry>): (r: seq<string>)
    ensures |r| == |entries|
    ensures forall k :: 0 <= k < |entries| ==> r[k] == RowLine(entries[k])
  {
    seq(|entries|, k requires 0 <= k < |entries| => RowLine(entries[k]))
  }

  function ShardHeader(prefix: string, part: nat, rows: nat): string { Terminated(HeaderLines(prefix, part, rows)) }

  function ShardText(prefix: string, part: nat, entries: seq<Entry>): string {
    ShardHeader(prefix, part, |entries|) + Terminated(RowLines(entries))
  }

  datatype Shard = Shard(prefix: string, part: nat, entries: seq<Entry>)

  function ParseEntries(rows: seq<seq<string>>, prefix: string): Result<seq<Entry>>
    requires forall row <- rows :: |row| == 3
  {
    if rows == [] then Ok([])
    else
      assert rows[0] in rows;
      assert forall row <- rows[1..] :: row in rows;
      var e := Entry(rows[0][0], DecodeCell(rows[0][1]), DecodeCell(rows[0][2]));
      if !ValidEntry(e) then Err("invalid entry")
      else if HashPrefix(e.hash) != Ok(prefix) then Err("entry hash is outside prefix")
      else match ParseEntries(rows[1..], prefix)
        case Err(m) => Err(m)
        case Ok(es) => Ok([e] + es)
  }

  function ParseShard(body: string): Result<Shard> {
    if Len(body) > MAX_BODY_LENGTH then Err("shard body exceeds limit")
    else
      var lines := Split(body, '\n');
      match GeneratedMetadata(lines, "# Content Index Shard")
      case Err(e) => Err(e)
      case Ok(meta) =>
        if "Format" !in meta || meta["Format"] != SHARD_FORMAT then Err(UNSUPPORTED)
        else if "Prefix" !in meta || !ValidPrefix(meta["Prefix"]) then Err("invalid shard prefix")
        else match (ParseNonNegative(meta, "Part"), ParseNonNegative(meta, "Rows"))
          case (Err(e), _) => Err(e)
          case (_, Err(e)) => Err(e)
          case (Ok(part), Ok(declared)) =>
            if declared < 1 || declared > MAX_INDEX_ENTRIES then Err("shard row count")
            else
              TableRowsWidth(lines, SHARD_HEADER);
              match TableRows(lines, SHARD_HEADER)
              case Err(e) => Err(e)
              case Ok(rows) =>
                match ParseEntries(rows, meta["Prefix"])
                case Err(e) => Err(e)
                case Ok(entries) =>
                  if |entries| != declared then Err("declared row count") else Ok(Shard(meta["Prefix"], part, entries))
  }

  // ---------- The shard round trip ----------

  lemma RowReadsBack(e: Entry)
    requires ValidEntry(e)
    ensures SplitDataRow(RowLine(e)) == Some(RowCells(e))
    ensures var row := RowCells(e); Entry(row[0], DecodeCell(row[1]), DecodeCell(row[2])) == e
    ensures (forall c <- RowCells(e) :: '|' !in c && '\n' !in c) && '\n' !in RowLine(e)
  {
    hide SplitDataRow;
    hide EncodeCell;
    hide DecodeCell;
    hide ValidEntry;
    EntryShape(e);
    CellRoundTrip(e.server);
    CellRoundTrip(e.path);
    DataRowCells(RowCells(e));
    RowNewline(RowCells(e));
  }

  lemma ParseEntriesStep(e: Entry, row: seq<string>, rows: seq<seq<string>>, prefix: string)
    requires |row| == 3 && forall r <- rows :: |r| == 3
    requires ValidEntry(e) && HashPrefix(e.hash) == Ok(prefix)
    requires Entry(row[0], DecodeCell(row[1]), DecodeCell(row[2])) == e && ParseEntries(rows, prefix).Ok?
    ensures ParseEntries([row] + rows, prefix) == Ok([e] + ParseEntries(rows, prefix).value)
  {
    assert ([row] + rows)[1..] == rows;
  }

  lemma RowLinesStep(entries: seq<Entry>)
    requires entries != []
    ensures RowLines(entries) + [""] == [RowLine(entries[0])] + (RowLines(entries[1..]) + [""])
  {
  }

  lemma {:induction false} DataRowsRead(entries: seq<Entry>, prefix: string)
    requires forall e <- entries :: ValidEntry(e) && e.hash[7..9] == prefix
    ensures var r := DataRows(RowLines(entries) + [""], false, 3);
      r.Ok? && |r.value| == |entries| && (forall row <- r.value :: |row| == 3) &&
      ParseEntries(r.value, prefix) == Ok(entries)
  {
    hide DataRows;
    hide RowLine;
    hide TableRow;
    hide ValidEntry;
    hide HashPrefix;
    hide EncodeCell;
    hide DecodeCell;
    if entries == [] {
      assert RowLines(entries) + [""] == [""];
      DataRowsEnd(3);
    } else {
      hide ParseEntries;
      var e := entries[0];
      assert e in entries && forall x <- entries[1..] :: x in entries;
      DataRowsRead(entries[1..], prefix);
      EntryShape(e);
      RowReadsBack(e);
      RowIs(e);
      hide RowLines;
      var tail := RowLines(entries[1..]) + [""];
      RowLinesStep(entries);
      DataRowsStep(RowCells(e), tail);
      ParseEntriesStep(e, RowCells(e), DataRows(tail, false, 3).value, prefix);
      assert [e] + entries[1..] == entries;
    }
  }

  lemma RowIs(e: Entry)
    ensures RowLine(e) == TableRow(RowCells(e))
  {
  }

  lemma ShardKeys()
    ensures Plain("Format") && Plain("Prefix") && Plain("Part") && Plain("Rows") && Plain(SHARD_FORMAT)
    ensures ':' !in "Format" && ':' !in "Prefix" && ':' !in "Part" && ':' !in "Rows"
  {
  }

  lemma ShardLiterals()
    ensures PlainCells(SHARD_HEADER) && Dashes(SHARD_RULES) && Plain("# Content Index Shard")
  {
    ShardCells();
    hide Plain;
    assert forall c <- SHARD_HEADER :: Plain(c) && '|' !in c;
  }

  lemma ShardCells()
    ensures Plain("Hash") && Plain("Server") && Plain("Path") && Plain("# Content Index Shard")
    ensures '|' !in "Hash" && '|' !in "Server" && '|' !in "Path"
  {
  }

  lemma PrefixPlain(prefix: string)
    requires ValidPrefix(prefix)
    ensures Plain(prefix)
  {
    assert prefix[0] in prefix && prefix[1] in prefix;
  }

  /** A shard's header is a printed preamble. */
  lemma ShardPreamble(prefix: string, part: nat, rows: nat)
    requires ValidPrefix(prefix)
    ensures PlainFields(ShardFields(prefix, part, rows))
  {
    hide Itoa;
    hide Plain;
    ItoaTrimmed(part);
    ItoaTrimmed(rows);
    ShardKeys();
    PrefixPlain(prefix);
    assert "Format"[0] == 'F' && "Prefix"[2] == 'e' && "Part"[1] == 'a' && "Rows"[0] == 'R' && "Prefix"[1] == 'r';
  }

  /** A shard header's metadata reads back, and its rows are what follows. */
  lemma HeaderReads(prefix: string, part: nat, rows: nat, rest: seq<string>)
    requires ValidPrefix(prefix)
    ensures var lines := HeaderLines(prefix, part, rows) + rest;
      var meta := GeneratedMetadata(lines, "# Content Index Shard");
      && meta.Ok? && "Format" in meta.value && meta.value["Format"] == SHARD_FORMAT
      && "Prefix" in meta.value && meta.value["Prefix"] == prefix
      && "Part" in meta.value && meta.value["Part"] == Itoa(part)
      && "Rows" in meta.value && meta.value["Rows"] == Itoa(rows)
      && TableRows(lines, SHARD_HEADER) == DataRows(rest, false, 3)
    ensures forall l <- HeaderLines(prefix, part, rows) :: '\n' !in l
  {
    hide PlainFields;
    hide PlainCells;
    hide Dashes;
    hide Plain;
    hide Preamble;
    hide GeneratedMetadata;
    hide TableRows;
    hide DataRows;
    hide Itoa;
    hide Added;
    var fields := ShardFields(prefix, part, rows);
    ShardPreamble(prefix, part, rows);
    ShardLiterals();
    PreambleReads("# Content Index Shard", fields, SHARD_HEADER, SHARD_RULES, rest);
    PreambleLines("# Content Index Shard", fields, SHARD_HEADER, SHARD_RULES);
    FieldFound(fields, 0);
    FieldFound(fields, 1);
    FieldFound(fields, 2);
    FieldFound(fields, 3);
  }

  lemma ShardLines(prefix: string, part: nat, entries: seq<Entry>)
    requires ValidPrefix(prefix) && forall e <- entries :: ValidEntry(e)
    ensures Split(ShardText(prefix, part, entries), '\n') ==
      HeaderLines(prefix, part, |entries|) + (RowLines(entries) + [""])
  {
    hide HeaderLines;
    hide RowLine;
    hide ValidEntry;
    hide Split;
    hide Terminated;
    var header, rows := HeaderLines(prefix, part, |entries|), RowLines(entries);
    TerminatedAppend(header, rows);
    HeaderReads(prefix, part, |entries|, rows);
    forall l <- rows ensures '\n' !in l {
      var k :| 0 <= k < |rows| && rows[k] == l;
      assert entries[k] in entries;
      RowReadsBack(entries[k]);
    }
    SplitTerminated(header + rows);
    assert header + rows + [""] == header + (rows + [""]);
  }

  /** What buildShard writes, parseShard reads back: prefix, part and every entry. */
  lemma ShardRoundTrip(prefix: string, part: nat, entries: seq<Entry>)
    requires ValidPrefix(prefix) && part <= MAX_INT && 1 <= |entries| <= MAX_INDEX_ENTRIES
    requires forall e <- entries :: ValidEntry(e) && e.hash[7..9] == prefix
    requires Len(ShardText(prefix, part, entries)) <= MAX_BODY_LENGTH
    ensures ParseShard(ShardText(prefix, part, entries)) == Ok(Shard(prefix, part, entries))
  {
    hide ShardText;
    hide HeaderLines;
    hide DataRows;
    hide TableRows;
    hide GeneratedMetadata;
    hide ParseEntries;
    hide Split;
    hide Len;
    hide Itoa;
    hide Atoi;
    var tail := RowLines(entries) + [""];
    ShardLines(prefix, part, entries);
    HeaderReads(prefix, part, |entries|, tail);
    DataRowsRead(entries, prefix);
    AtoiItoa(part);
    AtoiItoa(|entries|);
  }
}
