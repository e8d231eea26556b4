// The stored-version format: protocol/storefmt/format.go, meta.go, stored.go and
// protocol/frontmatter.go.
//
// A stored version is a store-managed frontmatter block followed by the document's content.
// The printer and the parser must agree on every input, fences inside the content included.
module StoreFmt {
  import opened Wrappers
  import opened Text
  import opened SortedStrings
  import opened Sha256
  import opened Seqs

  datatype Frontmatter = Frontmatter(found: bool, block: string, body: string, closedAtEOF: bool)

  datatype Header = Header(version: nat, archived: bool, previousHash: string)

  const FENCE := "---\n"
  const FENCE_CLOSE := "\n---\n"
  const FENCE_TRIM := "\n---"
  const META_PREFIX := "meta."
  const MAX_VERSION_NUMBER: nat := 0x7FFF_FFFF
  const MAX_META_KEYS: nat := 50
  const MAX_META_BYTES: nat := 1024
  const MAX_BODY_LENGTH: nat := 1024 * 1024
  const MAX_STORE_FRONTMATTER: nat := 2048

  type Meta = map<string, string>

  // ---------- Fences ----------

  /** None is an opening fence that is never closed. */
  function SplitFrontmatter(data: string): Option<Frontmatter> {
    if !HasPrefix(data, FENCE) then Some(Frontmatter(false, "", data, false))
    else
      var inner := data[4..];
      match Cut(inner, FENCE_CLOSE)
      case Some((block, body)) => Some(Frontmatter(true, block, body, false))
      case None =>
        if HasSuffix(inner, FENCE_TRIM) then Some(Frontmatter(true, inner[..|inner| - 4], "", true)) else None
  }

  /** The block and the body of a stored version; the closing fence at end of input is refused. */
  function SplitStored(data: string): Option<(string, string)> {
    match SplitFrontmatter(data)
    case None => None
    case Some(f) => if f.found && !f.closedAtEOF then Some((f.block, f.body)) else None
  }

  function ExtractBody(data: string): string {
    match SplitStored(data)
    case None => data
    case Some((_, body)) => body
  }

  /** A line that cannot be taken for a fence or for two lines. */
  predicate PlainLine(line: string) { line != "" && line[0] != '-' && '\n' !in line }

  lemma {:induction false} NoFenceInside(lines: seq<string>, rest: string)
    requires lines != [] && forall l <- lines :: PlainLine(l)
    ensures NoneBefore(Join(lines, "\n") + FENCE_CLOSE + rest, FENCE_CLOSE, |Join(lines, "\n")|)
  {
    var head := lines[0];
    var block := Join(lines, "\n");
    var s := block + FENCE_CLOSE + rest;
    assert head in lines;
    if |lines| > 1 {
      var tail := Join(lines[1..], "\n");
      assert forall l <- lines[1..] :: l in lines;
      NoFenceInside(lines[1..], rest);
      var t := tail + FENCE_CLOSE + rest;
      assert s == head + "\n" + t;
      JoinStart(lines[1..]);
      FenceStep(head, t, tail);
    } else {
      forall i | 0 <= i < |head| ensures !HasPrefix(s[i..], FENCE_CLOSE) { assert s[i..][0] == head[i]; }
    }
  }

  lemma JoinStart(lines: seq<string>)
    requires lines != [] && forall l <- lines :: PlainLine(l)
    ensures Join(lines, "\n") != "" && Join(lines, "\n")[0] != '-'
  {
    assert lines[0] in lines;
  }

  lemma FenceStep(head: string, t: string, tail: string)
    requires '\n' !in head && |tail| > 0 && tail <= t && tail[0] != '-' && NoneBefore(t, FENCE_CLOSE, |tail|)
    ensures NoneBefore(head + "\n" + t, FENCE_CLOSE, |head| + 1 + |tail|)
  {
    var s := head + "\n" + t;
    forall i | 0 <= i < |head| + 1 + |tail| && i <= |s| ensures !HasPrefix(s[i..], FENCE_CLOSE) {
      if i < |head| {
        assert s[i..][0] == head[i];
      } else if i == |head| {
        assert s[i..][1] == tail[0];
      } else {
        var j := i - |head| - 1;
        assert s[i..] == t[j..];
        assert !HasPrefix(t[j..], FENCE_CLOSE);
      }
    }
  }

  /** Plain lines between fences come apart again, whatever the content holds. */
  lemma FencesSplit(lines: seq<string>, content: string)
    requires lines != [] && forall l <- lines :: PlainLine(l)
    ensures SplitStored(FENCE + Terminated(lines) + FENCE + content) == Some((Join(lines, "\n"), content))
    ensures Split(Join(lines, "\n"), '\n') == lines
  {
    hide Cut;
    hide NoneBefore;
    hide Terminated;
    hide Join;
    hide PlainLine;
    var block := Join(lines, "\n");
    TerminatedIsJoin(lines);
    var data := FENCE + Terminated(lines) + FENCE + content;
    assert data[..4] == FENCE;
    assert data[4..] == block + FENCE_CLOSE + content;
    NoFenceInside(lines, content);
    CutAt(block, FENCE_CLOSE, content);
    PlainLines(lines);
    SplitJoin(lines, '\n');
  }

  lemma PlainLines(lines: seq<string>)
    requires forall l <- lines :: PlainLine(l)
    ensures forall l <- lines :: '\n' !in l
  {
  }

  lemma {:induction false} TerminatedIsJoin(lines: seq<string>)
    requires lines != []
    ensures Terminated(lines) == Join(lines, "\n") + "\n"
  {
    if |lines| > 1 {
      TerminatedIsJoin(lines[1..]);
    } else {
      assert lines[1..] == [];
    }
  }

  // ---------- Tags ----------

  function Tags(pieces: seq<string>): seq<string> {
    if pieces == [] then []
    else
      var tag := TrimSpace(pieces[0]);
      (if tag != "" then [tag] else []) + Tags(pieces[1..])
  }

  function SplitTags(s: string): seq<string> { Tags(Split(s, ',')) }

  function FormatTagsList(csv: string): string { "[" + Join(SplitTags(csv), ", ") + "]" }

  /** The text between one pair of brackets, if there is one. */
  function Unlisted(v: string): string {
    if |v| >= 2 && v[0] == '[' && v[|v| - 1] == ']' then v[1..|v| - 1] else v
  }

  function ParseTagsList(v: string): string { Join(SplitTags(Unlisted(TrimSpace(v))), ",") }

  predicate IsTag(tag: string) { tag != "" && Trimmed(tag) && ',' !in tag }

  lemma {:induction false} TagsAreTags(pieces: seq<string>)
    requires forall p <- pieces :: ',' !in p
    ensures forall tag <- Tags(pieces) :: IsTag(tag)
    ensures forall tag <- Tags(pieces), c <- tag :: exists p <- pieces :: c in p
  {
    if pieces != [] {
      assert pieces[0] in pieces;
      assert forall p <- pieces[1..] :: p in pieces;
      TagsAreTags(pieces[1..]);
      TrimSpaceShape(pieces[0]);
      var tag := TrimSpace(pieces[0]);
      var a, b :| 0 <= a <= b <= |pieces[0]| && tag == pieces[0][a..b];
      assert forall c <- tag :: c in pieces[0];
    }
  }

  /** Every tag is one, and made of characters of the input. */
  lemma SplitTagsShape(s: string)
    ensures forall tag <- SplitTags(s) :: IsTag(tag)
    ensures forall tag <- SplitTags(s), c <- tag :: c in s
  {
    var pieces := Split(s, ',');
    SplitPieces(s, ',');
    TagsAreTags(pieces);
    forall tag <- SplitTags(s), c <- tag ensures c in s {
      var p :| p in pieces && c in p;
    }
  }

  /** Tags joined by a comma and any run of spaces (here one or none) split back. */
  lemma {:induction false} TagsOfJoin(tags: seq<string>, sep: string)
    requires forall tag <- tags :: IsTag(tag)
    requires sep == "," || sep == ", "
    ensures SplitTags(Join(tags, sep)) == tags
    ensures tags != [] ==> SplitTags(" " + Join(tags, sep)) == tags
  {
    hide TrimSpace;
    hide Trimmed;
    hide SplitTags;
    hide IsTag;
    if tags == [] {
      BlankIsNoTag();
    } else {
      assert tags[0] in tags;
      TagPiece(tags[0]);
      if |tags| == 1 {
        TagWhole(tags[0]);
        TagWhole(" " + tags[0]);
        assert tags == [tags[0]];
      } else {
        assert forall tag <- tags[1..] :: tag in tags;
        TagsOfJoin(tags[1..], sep);
        TagsStep(tags, sep);
      }
    }
  }

  lemma TagsStep(tags: seq<string>, sep: string)
    requires |tags| > 1 && IsTag(tags[0]) && (sep == "," || sep == ", ")
    requires SplitTags(Join(tags[1..], sep)) == tags[1..] && SplitTags(" " + Join(tags[1..], sep)) == tags[1..]
    ensures SplitTags(Join(tags, sep)) == tags && SplitTags(" " + Join(tags, sep)) == tags
  {
    hide TrimSpace;
    hide SplitTags;
    TagPiece(tags[0]);
    var rest := Join(tags[1..], sep);
    var more := if sep == "," then rest else " " + rest;
    assert Join(tags, sep) == tags[0] + [','] + more;
    assert " " + Join(tags, sep) == (" " + tags[0]) + [','] + more;
    TagFirst(tags[0], tags[0], more);
    TagFirst(" " + tags[0], tags[0], more);
  }

  lemma BlankIsNoTag()
    ensures SplitTags("") == []
  {
    assert Tags([""]) == Tags([""][1..]);
  }

  lemma TagPiece(tag: string)
    requires IsTag(tag)
    ensures tag != "" && ',' !in tag && ',' !in " " + tag
    ensures TrimSpace(tag) == tag && TrimSpace(" " + tag) == tag
  {
    TrimCell(tag);
    TrimmedUnchanged(tag);
  }

  lemma TagWhole(piece: string)
    requires ',' !in piece && TrimSpace(piece) != ""
    ensures SplitTags(piece) == [TrimSpace(piece)]
  {
    SplitWhole(piece, ',');
    assert [piece][1..] == [];
    assert [TrimSpace(piece)] + Tags([]) == [TrimSpace(piece)];
  }

  lemma TagFirst(piece: string, tag: string, rest: string)
    requires ',' !in piece && TrimSpace(piece) == tag && tag != ""
    ensures SplitTags(piece + [','] + rest) == [tag] + SplitTags(rest)
  {
    SplitHead(piece, ',', rest);
    assert ([piece] + Split(rest, ','))[1..] == Split(rest, ',');
  }

  /** What the stored list reads back as, and that a second trip changes nothing. */
  lemma TagsRoundTrip(csv: string)
    ensures ParseTagsList(FormatTagsList(csv)) == Join(SplitTags(csv), ",")
    ensures FormatTagsList(ParseTagsList(FormatTagsList(csv))) == FormatTagsList(csv)
    ensures forall c <- ParseTagsList(FormatTagsList(csv)) :: c == ',' || c in csv
    ensures forall c <- FormatTagsList(csv) :: c == '[' || c == ']' || c == ',' || c == ' ' || c in csv
  {
    hide SplitTags;
    hide TrimSpace;
    var tags := SplitTags(csv);
    SplitTagsShape(csv);
    TagsOfJoin(tags, ", ");
    TagsOfJoin(tags, ",");
    var list := FormatTagsList(csv);
    TrimmedUnchanged(list);
    assert list[1..|list| - 1] == Join(tags, ", ");
    JoinChars(tags, ",", csv);
    JoinChars(tags, ", ", csv);
    assert forall c <- ", " :: c == ',' || c == ' ';
    assert forall c <- list :: c == '[' || c == ']' || c in Join(tags, ", ");
  }

  lemma {:induction false} JoinChars(tags: seq<string>, sep: string, from: string)
    requires forall tag <- tags, c <- tag :: c in from
    ensures forall c <- Join(tags, sep) :: c in sep || c in from
  {
    if |tags| > 1 {
      assert forall tag <- tags[1..] :: tag in tags;
      JoinChars(tags[1..], sep, from);
    }
  }

  // ---------- Publisher metadata ----------

  predicate IsOkfKey(k: string) {
    k == "type" || k == "title" || k == "description" || k == "resource" || k == "tags" || k == "timestamp"
  }

  predicate IsReserved(k: string) { k == "version" || k == "previous-hash" || k == "archived" }

  predicate ValidMetaKey(k: string) {
    k != "" && forall c <- k :: 'a' <= c <= 'z' || IsDigit(c) || c == '-'
  }

  predicate ValidMetaValue(v: string) { '\n' !in v && '\r' !in v }

  function ParseRetention(v: string): Option<nat> {
    match Atoi(v)
    case None => None
    case Some(n) => if n < 1 then None else Some(n)
  }

  /** The declared retention, or 0. */
  function RetentionValue(meta: Meta): nat {
    if "retention" in meta && ParseRetention(meta["retention"]).Some? then ParseRetention(meta["retention"]).value else 0
  }

  function SerializedMetaSize(k: string, v: string): nat {
    Len(k) + if k == "tags" then Len(FormatTagsList(v)) else Len(v)
  }

  predicate ValidField(k: string, v: string) {
    !IsReserved(k) && ValidMetaKey(k) && ValidMetaValue(v) && (k == "retention" ==> ParseRetention(v).Some?)
  }

  /** The counted size of some of the fields. */
  ghost function SizeOf(keys: set<string>, meta: Meta): nat
    requires keys <= meta.Keys
  {
    if keys == {} then 0
    else
      var k := Any(keys);
      SerializedMetaSize(k, meta[k]) + SizeOf(keys - {k}, meta)
  }

  lemma {:induction false} SizeWithout(k: string, keys: set<string>, meta: Meta)
    requires k in keys && keys <= meta.Keys
    decreases keys
    ensures SizeOf(keys, meta) == SerializedMetaSize(k, meta[k]) + SizeOf(keys - {k}, meta)
  {
    hide SerializedMetaSize;
    var j := Any(keys);
    if j != k {
      SizeWithout(k, keys - {j}, meta);
      SizeWithout(j, keys - {k}, meta);
      assert keys - {j} - {k} == keys - {k} - {j};
    }
  }

  /** What ValidateMeta accepts. */
  ghost predicate MetaOk(meta: Meta) {
    (forall k <- meta :: ValidField(k, meta[k])) && |meta| <= MAX_META_KEYS && SizeOf(meta.Keys, meta) <= MAX_META_BYTES
  }

  /** The keys are visited in any order, as Go ranges over a map. */
  method ValidateMeta(meta: Meta) returns (ok: bool)
    ensures ok <==> MetaOk(meta)
  {
    hide SerializedMetaSize;
    hide ValidField;
    var size, todo := 0, meta.Keys;
    while todo != {}
      invariant todo <= meta.Keys
      invariant forall k <- meta.Keys - todo :: ValidField(k, meta[k])
      invariant size + SizeOf(todo, meta) == SizeOf(meta.Keys, meta)
      decreases todo
    {
      var k :| k in todo;
      if !ValidField(k, meta[k]) { return false; }
      SizeWithout(k, todo, meta);
      size := size + SerializedMetaSize(k, meta[k]);
      todo := todo - {k};
    }
    return |meta| <= MAX_META_KEYS && size <= MAX_META_BYTES;
  }

  /** The value of one field as persisted. */
  function NormalValue(k: string, v: string): string {
    if k == "tags" then ParseTagsList(FormatTagsList(v)) else v
  }

  function NormalizeMetadata(meta: Meta): Meta { map k | k in meta :: NormalValue(k, meta[k]) }

  lemma NormalField(k: string, v: string)
    ensures NormalValue(k, NormalValue(k, v)) == NormalValue(k, v)
    ensures SerializedMetaSize(k, NormalValue(k, v)) == SerializedMetaSize(k, v)
    ensures ValidField(k, v) ==> ValidField(k, NormalValue(k, v))
  {
    hide FormatTagsList;
    hide ParseTagsList;
    TagsRoundTrip(v);
  }

  lemma {:induction false} NormalSize(keys: set<string>, meta: Meta)
    requires keys <= meta.Keys
    ensures SizeOf(keys, NormalizeMetadata(meta)) == SizeOf(keys, meta)
  {
    hide SerializedMetaSize;
    hide NormalValue;
    if keys != {} {
      var k := Any(keys);
      NormalField(k, meta[k]);
      NormalSize(keys - {k}, meta);
    }
  }

  /** Normalizing twice is normalizing once, and it changes neither the counted size nor validity. */
  lemma NormalizeIsStable(meta: Meta)
    ensures NormalizeMetadata(NormalizeMetadata(meta)) == NormalizeMetadata(meta)
    ensures SizeOf(meta.Keys, NormalizeMetadata(meta)) == SizeOf(meta.Keys, meta)
    ensures MetaOk(meta) ==> MetaOk(NormalizeMetadata(meta))
  {
    hide NormalValue;
    hide ValidField;
    hide SizeOf;
    forall k <- meta
      ensures NormalValue(k, NormalValue(k, meta[k])) == NormalValue(k, meta[k])
      ensures ValidField(k, meta[k]) ==> ValidField(k, NormalValue(k, meta[k]))
    {
      NormalField(k, meta[k]);
    }
    NormalSize(meta.Keys, meta);
    var n := NormalizeMetadata(meta);
    assert n.Keys == meta.Keys;
    assert |n| == |n.Keys| == |meta|;
  }

  // ---------- Sorted keys ----------

  /** Collecting a map's keys in any order and sorting them. */
  method SortedKeys(meta: Meta) returns (ks: seq<string>)
    ensures ks == Sorted(meta.Keys)
  {
    ks := [];
    var todo := meta.Keys;
    while todo != {}
      invariant todo <= meta.Keys
      invariant Ascending(ks) && Elements(ks) == meta.Keys - todo
      decreases todo
    {
      var k :| k in todo;
      assert k !in Elements(ks);
      InsertKeySorts(k, ks);
      ks := InsertKey(k, ks);
      todo := todo - {k};
    }
    AscendingUnique(ks, Sorted(meta.Keys));
  }

  // ---------- Printing ----------

  function FieldLine(k: string, v: string): string {
    if k == "tags" then "tags: " + FormatTagsList(v)
    else if IsOkfKey(k) then k + ": " + v
    else META_PREFIX + k + ": " + v
  }

  function FieldLines(ks: seq<string>, meta: Meta): (r: seq<string>)
    requires forall k <- ks :: k in meta
    ensures |r| == |ks| && forall i :: 0 <= i < |ks| ==> r[i] == FieldLine(ks[i], meta[ks[i]])
  {
    seq(|ks|, i requires 0 <= i < |ks| => FieldLine(ks[i], meta[ks[i]]))
  }

  function HeadLines(h: Header): seq<string> {
    ["version: " + Itoa(h.version), if h.archived then "archived: true" else "archived: false"] +
    if h.version > 1 then ["previous-hash: " + h.previousHash] else []
  }

  /** The header a version is written with. */
  function NewHeader(version: nat, prevRaw: string): Header {
    Header(version, false, if version > 1 then ContentHash(prevRaw) else "")
  }

  ghost function BlockLines(version: nat, prevRaw: string, meta: Meta): seq<string> {
    HeadLines(NewHeader(version, prevRaw)) + FieldLines(Sorted(meta.Keys), meta)
  }

  ghost function StoredText(version: nat, prevRaw: string, content: string, meta: Meta): string {
    FENCE + Terminated(BlockLines(version, prevRaw, meta)) + FENCE + content
  }

  /** What SerializeVersion asks of its input. */
  ghost predicate Serializable(version: int, prevRaw: string, meta: Meta) {
    1 <= version <= MAX_VERSION_NUMBER && MetaOk(meta) && (version > 1 ==> prevRaw != "")
  }

  /** The loop over the sorted keys. */
  method WriteFields(start: string, keys: seq<string>, meta: Meta) returns (sb: string)
    requires forall k <- keys :: k in meta
    ensures sb == start + Terminated(FieldLines(keys, meta))
  {
    hide Terminated;
    hide FieldLine;
    sb := start;
    ghost var lines := FieldLines(keys, meta);
    NothingTerminated();
    assert lines[..0] == [] && start + "" == start;
    for i := 0 to |keys|
      invariant sb == start + Terminated(lines[..i])
    {
      var k := keys[i];
      var line := FieldLine(k, meta[k]);
      assert line == lines[i];
      assert lines[..i + 1] == lines[..i] + [line];
      OneMoreLine(lines[..i], line);
      Associate(start, Terminated(lines[..i]), line + "\n");
      sb := sb + (line + "\n");
    }
    assert lines[..|keys|] == lines;
  }

  method SerializeVersion(version: int, prevRaw: string, content: string, meta: Meta) returns (r: Result<string>)
    ensures r.Ok? <==> Serializable(version, prevRaw, meta)
    ensures r.Ok? ==> r.value == StoredText(version, prevRaw, content, meta)
  {
    hide MetaOk;
    hide Itoa;
    hide Terminated;
    hide HeadLines;
    hide FieldLines;
    if version < 1 || version > MAX_VERSION_NUMBER { return Err("version out of range"); }
    var ok := ValidateMeta(meta);
    if !ok { return Err("invalid metadata"); }
    if version > 1 && prevRaw == "" { return Err("previous version bytes required for hash chain"); }
    var sb := FENCE;
    sb := sb + ("version: " + Itoa(version) + "\n");
    sb := sb + ("archived: false" + "\n");
    if version > 1 { sb := sb + ("previous-hash: " + ContentHash(prevRaw) + "\n"); }
    HeadText(version, prevRaw);
    var keys := SortedKeys(meta);
    assert forall k <- keys :: k in Elements(keys);
    sb := WriteFields(sb, keys, meta);
    ghost var head, fields := HeadLines(NewHeader(version, prevRaw)), FieldLines(keys, meta);
    TerminatedAppend(head, fields);
    Associate(FENCE, Terminated(head), Terminated(fields));
    return Ok(sb + FENCE + content);
  }

  lemma NothingTerminated()
    ensures Terminated([]) == ""
  {
  }

  lemma OneMoreLine(lines: seq<string>, line: string)
    ensures Terminated(lines + [line]) == Terminated(lines) + (line + "\n")
  {
    TerminatedAppend(lines, [line]);
    assert [line][1..] == [];
    assert Terminated([line]) == line + "\n";
  }

  lemma HeadText(version: nat, prevRaw: string)
    ensures
      var start := FENCE + ("version: " + Itoa(version) + "\n") + ("archived: false" + "\n");
      FENCE + Terminated(HeadLines(NewHeader(version, prevRaw))) ==
      if version > 1 then start + ("previous-hash: " + ContentHash(prevRaw) + "\n") else start
  {
    hide Itoa;
    hide ContentHash;
    var a, b, c := "version: " + Itoa(version), "archived: false", "previous-hash: " + ContentHash(prevRaw);
    ThreeLines(FENCE, a, b, c);
    if version > 1 {
      assert HeadLines(NewHeader(version, prevRaw)) == [a, b] + [c];
      assert [a, b] + [c] == [a, b, c];
    } else {
      assert HeadLines(NewHeader(version, prevRaw)) == [a, b] + [];
      assert [a, b] + [] == [a, b];
    }
  }

  lemma ThreeLines(start: string, a: string, b: string, c: string)
    ensures start + Terminated([a, b]) == start + (a + "\n") + (b + "\n")
    ensures start + Terminated([a, b, c]) == start + (a + "\n") + (b + "\n") + (c + "\n")
  {
    hide Terminated;
    NothingTerminated();
    OneMoreLine([], a);
    OneMoreLine([a], b);
    OneMoreLine([a, b], c);
    assert [] + [a] == [a] && [a] + [b] == [a, b] && [a, b] + [c] == [a, b, c];
    assert "" + (a + "\n") == a + "\n";
    Associate(start, a + "\n", b + "\n");
    Associate(start, Terminated([a, b]), c + "\n");
  }

  lemma Associate(a: string, b: string, c: string)
    ensures a + (b + c) == a + b + c
  {
  }

  // ---------- Reading ----------

  /** The first value of a loosely spelled header field. */
  function FieldIn(lines: seq<string>, key: string): Option<string> {
    if lines == [] then None
    else match Cut(lines[0], ": ")
      case None => FieldIn(lines[1..], key)
      case Some((name, value)) => if TrimSpace(name) == key then Some(TrimSpace(value)) else FieldIn(lines[1..], key)
  }

  function StoredLines(data: string): Option<seq<string>> {
    match SplitStored(data)
    case None => None
    case Some((block, _)) => Some(Split(block, '\n'))
  }

  method StoredField(data: string, key: string) returns (r: Option<string>)
    ensures r == match StoredLines(data) case None => None case Some(lines) => FieldIn(lines, key)
  {
    var split := SplitStored(data);
    if split.None? { return None; }
    var lines := Split(split.value.0, '\n');
    assert lines[0..] == lines;
    for i := 0 to |lines|
      invariant FieldIn(lines, key) == FieldIn(lines[i..], key)
    {
      assert lines[i..][1..] == lines[i + 1..];
      var cut := Cut(lines[i], ": ");
      if cut.Some? && TrimSpace(cut.value.0) == key { return Some(TrimSpace(cut.value.1)); }
    }
    return None;
  }

  function ExtractPreviousHash(data: string): string {
    match StoredLines(data)
    case None => ""
    case Some(lines) => match FieldIn(lines, "previous-hash") case None => "" case Some(v) => v
  }

  function TrimReturns(s: string): string {
    if s != "" && s[|s| - 1] == '\r' then TrimReturns(s[..|s| - 1]) else s
  }

  /** One line's effect on the metadata read so far. */
  function ReadLine(line: string, meta: Meta): Meta {
    match Cut(line, ": ")
    case None => meta
    case Some((rawKey, rawVal)) =>
      var key, val := TrimSpace(rawKey), TrimReturns(rawVal);
      if IsReserved(key) then meta
      else if HasPrefix(key, META_PREFIX) then
        var k := key[5..];
        if IsReserved(k) then meta else meta[k := val]
      else if key == "tags" then meta[key := ParseTagsList(val)]
      else if IsOkfKey(key) then meta[key := val]
      else meta
  }

  function ReadLines(lines: seq<string>, meta: Meta): Meta {
    if lines == [] then meta else ReadLines(lines[1..], ReadLine(lines[0], meta))
  }

  function MetadataOf(data: string): Meta {
    match StoredLines(data)
    case None => map[]
    case Some(lines) => ReadLines(lines, map[])
  }

  method ExtractMetadata(data: string) returns (meta: Meta)
    ensures meta == MetadataOf(data)
  {
    meta := map[];
    var split := SplitStored(data);
    if split.None? { return; }
    var lines := Split(split.value.0, '\n');
    assert lines[0..] == lines;
    for i := 0 to |lines|
      invariant ReadLines(lines, map[]) == ReadLines(lines[i..], meta)
    {
      assert lines[i..][1..] == lines[i + 1..];
      meta := ReadLine(lines[i], meta);
    }
  }

  // ---------- Inspection ----------

  predicate GoodHeader(h: Header) {
    1 <= h.version <= MAX_VERSION_NUMBER &&
    if h.version > 1 then ValidStoredHash(h.previousHash) else h.previousHash == ""
  }

  /** The metadata key of a canonical publisher field, or None when the line is not one. */
  function LogicalKey(line: string): Option<string> {
    match Cut(line, ": ")
    case None => None
    case Some((key, _)) =>
      if key == "" || TrimSpace(key) != key then None
      else if IsOkfKey(key) then Some(key)
      else if HasPrefix(key, META_PREFIX) then (if IsReserved(key[5..]) then None else Some(key[5..]))
      else None
  }

  function Keys(fields: seq<string>): (r: seq<string>)
    requires forall line <- fields :: LogicalKey(line).Some?
    ensures |r| == |fields| && forall i :: 0 <= i < |r| ==> Some(r[i]) == LogicalKey(fields[i])
  {
    seq(|fields|, i requires 0 <= i < |fields| => LogicalKey(fields[i]).value)
  }

  /** Publisher fields with non-empty keys in strictly ascending order. */
  ghost predicate CanonicalFields(fields: seq<string>) {
    (forall line <- fields :: LogicalKey(line).Some?) && Ascending([""] + Keys(fields))
  }

  /** The exact header lines of h, then publisher fields in canonical order with valid metadata. */
  ghost predicate Canonical(stored: string, h: Header) {
    && GoodHeader(h)
    && StoredLines(stored).Some? && HeadLines(h) <= StoredLines(stored).value
    && CanonicalFields(StoredLines(stored).value[|HeadLines(h)|..])
    && MetaOk(MetadataOf(stored))
  }

  function ExactField(line: string, key: string): Option<string> {
    if HasPrefix(line, key + ": ") then Some(line[|key| + 2..]) else None
  }

  lemma ExactFieldIs(line: string, key: string, value: string)
    ensures ExactField(line, key) == Some(value) <==> line == key + ": " + value
  {
    var p := key + ": ";
    if HasPrefix(line, p) { assert line == line[..|p|] + line[|p|..]; }
    assert (p + value)[..|p|] == p && (p + value)[|p|..] == value;
  }

  /** strconv.ParseInt(value, 10, 32), positive and printing back to the same text. */
  function VersionNumber(value: string): Option<nat> {
    match Atoi(value)
    case None => None
    case Some(n) => if 1 <= n <= MAX_VERSION_NUMBER && Itoa(n) == value then Some(n) else None
  }

  lemma VersionNumberIs(value: string, n: nat)
    ensures VersionNumber(value) == Some(n) <==> 1 <= n <= MAX_VERSION_NUMBER && value == Itoa(n)
  {
    if n <= MAX_VERSION_NUMBER { AtoiItoa(n); }
  }

  /** The loop over the publisher lines: each key above the one before it. */
  method InspectFields(lines: seq<string>) returns (ok: bool)
    ensures ok <==> CanonicalFields(lines)
  {
    hide LogicalKey;
    hide LexLeq;
    var previousKey := "";
    assert lines[..0] == [];
    for i := 0 to |lines|
      invariant CanonicalFields(lines[..i])
      invariant previousKey == ([""] + Keys(lines[..i]))[i]
    {
      var logicalKey := LogicalKey(lines[i]);
      if logicalKey.None? {
        assert lines[i] in lines;
        return false;
      }
      PrefixFields(lines, i);
      if LexLeq(logicalKey.value, previousKey) {
        LexTotal(logicalKey.value, previousKey);
        return false;
      }
      LexTotal(logicalKey.value, previousKey);
      NextField(lines[..i], lines[i]);
      assert lines[..i] + [lines[i]] == lines[..i + 1];
      previousKey := logicalKey.value;
    }
    assert lines[..|lines|] == lines;
    return true;
  }

  lemma NextField(fields: seq<string>, line: string)
    requires CanonicalFields(fields) && LogicalKey(line).Some? && Lt(([""] + Keys(fields))[|fields|], LogicalKey(line).value)
    ensures CanonicalFields(fields + [line])
    ensures ([""] + Keys(fields + [line]))[|fields| + 1] == LogicalKey(line).value
  {
    hide LogicalKey;
    hide Lt;
    var was := [""] + Keys(fields);
    var now := was + [LogicalKey(line).value];
    assert [""] + Keys(fields + [line]) == now;
    forall i, j | 0 <= i < j < |now| ensures Lt(now[i], now[j]) {
      if j == |was| && i < |fields| { LtTransitive(now[i], was[|fields|], now[j]); }
    }
  }

  /** A canonical list has its keys in order at every place. */
  lemma PrefixFields(fields: seq<string>, i: nat)
    requires i < |fields| && forall line <- fields[..i] :: LogicalKey(line).Some?
    ensures CanonicalFields(fields) && LogicalKey(fields[i]).Some? ==>
      Lt(([""] + Keys(fields[..i]))[i], LogicalKey(fields[i]).value)
  {
    hide LogicalKey;
    hide Lt;
    if CanonicalFields(fields) {
      var all := [""] + Keys(fields);
      assert all[i] == ([""] + Keys(fields[..i]))[i];
      assert Lt(all[i], all[i + 1]);
    }
  }

  /** The version, archived flag and previous hash on the first lines. */
  function ReadHeader(lines: seq<string>): Option<Header> {
    if |lines| < 2 then None
    else match (ExactField(lines[0], "version"), ExactField(lines[1], "archived"))
      case (Some(versionValue), Some(archivedValue)) =>
        var version := VersionNumber(versionValue);
        if version.None? || (archivedValue != "false" && archivedValue != "true") then None
        else if version.value == 1 then Some(Header(1, archivedValue == "true", ""))
        else if |lines| < 3 then None
        else (match ExactField(lines[2], "previous-hash")
          case None => None
          case Some(previousHash) =>
            if ValidStoredHash(previousHash) then Some(Header(version.value, archivedValue == "true", previousHash)) else None)
      case _ => None
  }

  lemma ArchivedLine(archived: bool)
    ensures "archived: " + (if archived then "true" else "false") == if archived then "archived: true" else "archived: false"
  {
  }

  lemma FieldPrefixes()
    ensures "version" + ": " == "version: " && "archived" + ": " == "archived: "
    ensures "previous-hash" + ": " == "previous-hash: "
  {
  }

  /** The reader accepts exactly the lines a good header prints. */
  lemma HeaderReads(lines: seq<string>, h: Header)
    ensures ReadHeader(lines) == Some(h) <==> GoodHeader(h) && HeadLines(h) <= lines
  {
    hide Itoa;
    hide ValidStoredHash;
    hide VersionNumber;
    hide ExactField;
    FieldPrefixes();
    ArchivedLine(true);
    ArchivedLine(false);
    var head := HeadLines(h);
    if |lines| >= 2 {
      var archived := if h.archived then "true" else "false";
      ExactFieldIs(lines[0], "version", Itoa(h.version));
      ExactFieldIs(lines[1], "archived", archived);
      if ReadHeader(lines) == Some(h) {
        VersionNumberIs(ExactField(lines[0], "version").value, h.version);
        if h.version > 1 { ExactFieldIs(lines[2], "previous-hash", h.previousHash); }
        assert lines[..|head|] == head;
      }
      if GoodHeader(h) && head <= lines {
        assert lines[0] == head[0] && lines[1] == head[1];
        VersionNumberIs(Itoa(h.version), h.version);
        if h.version > 1 {
          assert lines[2] == head[2];
          ExactFieldIs(lines[2], "previous-hash", h.previousHash);
        }
      }
    }
  }

  /** Accepts exactly the canonical stored versions, and names the header they carry. */
  method InspectStoredVersion(stored: string) returns (r: Result<Header>)
    ensures r.Ok? ==> Canonical(stored, r.value)
    ensures r.Err? ==> forall h :: !Canonical(stored, h)
  {
    hide HeadLines;
    hide MetaOk;
    hide GoodHeader;
    hide ReadHeader;
    hide CanonicalFields;
    var split := SplitStored(stored);
    if split.None? { return Err("invalid frontmatter"); }
    var lines := Split(split.value.0, '\n');
    var header := ReadHeader(lines);
    forall h ensures Canonical(stored, h) ==> header == Some(h) { CanonicalHeader(stored, h, lines); }
    if header.None? { return Err("invalid operational fields"); }
    HeaderReads(lines, header.value);
    var start := if header.value.version > 1 then 3 else 2;
    HeadCount(header.value);
    var ordered := InspectFields(lines[start..]);
    if !ordered { return Err("publisher fields"); }
    var meta := ExtractMetadata(stored);
    var ok := ValidateMeta(meta);
    if !ok { return Err("invalid metadata"); }
    return Ok(header.value);
  }

  lemma CanonicalHeader(stored: string, h: Header, lines: seq<string>)
    requires StoredLines(stored) == Some(lines)
    ensures Canonical(stored, h) ==> ReadHeader(lines) == Some(h)
  {
    HeaderReads(lines, h);
  }

  lemma HeadCount(h: Header)
    ensures |HeadLines(h)| == if h.version > 1 then 3 else 2
  {
  }

  // ---------- The round trip ----------

  lemma FieldCut(k: string, v: string)
    requires ValidMetaKey(k)
    ensures var key := if IsOkfKey(k) then k else META_PREFIX + k;
      Cut(FieldLine(k, v), ": ") == Some((key, if k == "tags" then FormatTagsList(v) else v)) && Trimmed(key) && key != ""
  {
    hide Cut;
    hide FormatTagsList;
    var key := if IsOkfKey(k) then k else META_PREFIX + k;
    var value := if k == "tags" then FormatTagsList(v) else v;
    assert k[0] in k && k[|k| - 1] in k;
    assert ':' !in k && ':' !in META_PREFIX;
    if k == "tags" { assert "tags: " == "tags" + ": "; }
    assert FieldLine(k, v) == key + ": " + value;
    CutAfter(key, ": ", value);
  }

  /** A printed field reads back as its key and normal value. */
  lemma FieldReads(k: string, v: string, meta: Meta)
    requires ValidField(k, v)
    ensures ReadLine(FieldLine(k, v), meta) == meta[k := NormalValue(k, v)]
    ensures LogicalKey(FieldLine(k, v)) == Some(k)
  {
    hide Cut;
    hide FieldLine;
    hide FormatTagsList;
    hide ParseTagsList;
    hide TrimSpace;
    FieldCut(k, v);
    var key := if IsOkfKey(k) then k else META_PREFIX + k;
    TrimmedUnchanged(key);
    PrefixedKey(k);
    if k == "tags" { ListEnds(v); }
  }

  lemma PrefixedKey(k: string)
    requires ValidMetaKey(k)
    ensures HasPrefix(META_PREFIX + k, META_PREFIX) && (META_PREFIX + k)[5..] == k
    ensures !HasPrefix(k, META_PREFIX) && !IsOkfKey(META_PREFIX + k) && !IsReserved(META_PREFIX + k)
    ensures META_PREFIX + k != "tags"
  {
    assert META_PREFIX[4] == '.' && (META_PREFIX + k)[4] == '.';
    assert '.' !in k;
    assert |k| >= 5 ==> k[..5][4] == k[4] && k[4] in k;
  }

  lemma ListEnds(v: string)
    ensures TrimReturns(FormatTagsList(v)) == FormatTagsList(v)
  {
  }

  function NormalFields(ks: seq<string>, meta: Meta): Meta
    requires forall k <- ks :: k in meta
  {
    map k | k in Elements(ks) :: NormalValue(k, meta[k])
  }

  lemma NormalStep(ks: seq<string>, meta: Meta, got: Meta)
    requires ks != [] && Ascending(ks) && (forall k <- ks :: k in meta) && got.Keys !! Elements(ks)
    ensures forall k <- ks[1..] :: k in meta
    ensures var k := ks[0]; var next := got[k := NormalValue(k, meta[k])];
      next.Keys !! Elements(ks[1..]) && got + NormalFields(ks, meta) == next + NormalFields(ks[1..], meta)
  {
    hide NormalValue;
    hide Ascending;
    var k := ks[0];
    assert k in Elements(ks);
    forall j ensures j in Elements(ks[1..]) <==> j in Elements(ks) && j != k { TailElements(ks, j); }
    assert forall j <- ks[1..] :: j in ks;
  }

  lemma {:induction false} FieldsRead(ks: seq<string>, meta: Meta, got: Meta)
    requires (forall k <- ks :: k in meta && ValidField(k, meta[k])) && Ascending(ks)
    requires got.Keys !! Elements(ks)
    ensures ReadLines(FieldLines(ks, meta), got) == got + NormalFields(ks, meta)
  {
    hide ValidField;
    hide FieldLine;
    hide ReadLine;
    hide NormalValue;
    hide Elements;
    NoElements(ks);
    if ks != [] {
      hide NormalFields;
      hide LexLeq;
      var k := ks[0];
      assert k in ks;
      FieldReads(k, meta[k], got);
      NormalStep(ks, meta, got);
      assert FieldLines(ks, meta)[1..] == FieldLines(ks[1..], meta);
      FieldsRead(ks[1..], meta, got[k := NormalValue(k, meta[k])]);
    } else {
      assert NormalFields(ks, meta) == map[];
    }
  }

  lemma {:induction false} ReadLinesAppend(a: seq<string>, b: seq<string>, meta: Meta)
    ensures ReadLines(a + b, meta) == ReadLines(b, ReadLines(a, meta))
  {
    hide ReadLine;
    if a == [] {
      assert a + b == b;
    } else {
      assert (a + b)[1..] == a[1..] + b;
      ReadLinesAppend(a[1..], b, ReadLine(a[0], meta));
    }
  }

  /** A header line: a reserved key, skipped as metadata. */
  lemma HeadLineReads(key: string, value: string, meta: Meta)
    requires key == "version" || key == "archived" || key == "previous-hash"
    ensures Cut(key + ": " + value, ": ") == Some((key, value)) && TrimSpace(key) == key
    ensures ReadLine(key + ": " + value, meta) == meta
  {
    hide Cut;
    hide TrimSpace;
    CutAfter(key, ": ", value);
    TrimmedUnchanged(key);
  }

  lemma HeadReads(h: Header)
    ensures ReadLines(HeadLines(h), map[]) == map[]
  {
    hide ReadLine;
    hide Itoa;
    FieldPrefixes();
    ArchivedLine(h.archived);
    HeadLineReads("version", Itoa(h.version), map[]);
    HeadLineReads("archived", if h.archived then "true" else "false", map[]);
    HeadLineReads("previous-hash", h.previousHash, map[]);
    var lines := HeadLines(h);
    assert lines[1..][1..] == lines[2..];
    if h.version > 1 { assert lines[2..][1..] == []; } else { assert lines[2..] == []; }
    ReadStep(lines, map[]);
    ReadStep(lines[1..], map[]);
    if h.version > 1 { ReadStep(lines[2..], map[]); }
  }

  lemma ReadStep(lines: seq<string>, meta: Meta)
    requires lines != []
    ensures ReadLines(lines, meta) == ReadLines(lines[1..], ReadLine(lines[0], meta)) && ReadLines([], meta) == meta
  {
  }

  lemma ListWithout(v: string)
    requires '\n' !in v
    ensures '\n' !in FormatTagsList(v)
  {
    hide FormatTagsList;
    TagsRoundTrip(v);
  }

  lemma PlainPair(key: string, value: string)
    requires key != "" && key[0] != '-' && '\n' !in key && '\n' !in value
    ensures PlainLine(key + ": " + value)
  {
  }

  lemma PlainField(k: string, v: string)
    requires ValidField(k, v)
    ensures PlainLine(FieldLine(k, v))
  {
    hide FormatTagsList;
    hide PlainLine;
    assert k[0] in k && '\n' !in k;
    if k == "tags" {
      ListWithout(v);
      assert "tags: " == "tags" + ": ";
      PlainPair("tags", FormatTagsList(v));
    } else if IsOkfKey(k) {
      PlainPair(k, v);
    } else {
      PlainPair(META_PREFIX + k, v);
    }
  }

  lemma PlainHead(version: nat, prevRaw: string)
    ensures forall l <- HeadLines(NewHeader(version, prevRaw)) :: PlainLine(l)
  {
    hide Itoa;
    var digits, digest := Itoa(version), Sum256(prevRaw);
    forall c <- digits ensures c != '\n' { assert IsDigit(c); }
    forall c <- digest ensures c != '\n' { assert IsHex(c); }
    assert PlainLine("version: " + digits);
    assert PlainLine("previous-hash: " + ContentHash(prevRaw));
    assert PlainLine("archived: false");
  }

  lemma PlainBlock(version: nat, prevRaw: string, meta: Meta)
    requires MetaOk(meta)
    ensures BlockLines(version, prevRaw, meta) != [] && forall l <- BlockLines(version, prevRaw, meta) :: PlainLine(l)
  {
    hide PlainLine;
    hide HeadLines;
    hide ValidField;
    hide FieldLine;
    var ks := Sorted(meta.Keys);
    HeadCount(NewHeader(version, prevRaw));
    PlainHead(version, prevRaw);
    var fields := FieldLines(ks, meta);
    forall l <- fields ensures PlainLine(l) {
      var i :| 0 <= i < |fields| && fields[i] == l;
      assert ks[i] in Elements(ks);
      PlainField(ks[i], meta[ks[i]]);
    }
  }

  lemma PrependKey(ks: seq<string>)
    requires Ascending(ks) && forall i :: 0 <= i < |ks| ==> Lt("", ks[i])
    ensures Ascending([""] + ks)
  {
    hide Lt;
    var all := [""] + ks;
    forall i, j | 0 <= i < j < |all| ensures Lt(all[i], all[j]) {
      assert all[j] == ks[j - 1] && (i > 0 ==> all[i] == ks[i - 1]);
    }
  }

  /** The printed fields are canonical: the keys in order, none reserved. */
  lemma FieldsCanonical(meta: Meta)
    requires MetaOk(meta)
    ensures CanonicalFields(FieldLines(Sorted(meta.Keys), meta))
  {
    hide LogicalKey;
    hide FieldLine;
    hide Lt;
    hide ValidField;
    hide Ascending;
    hide Sorted;
    var ks := Sorted(meta.Keys);
    var fields := FieldLines(ks, meta);
    forall i | 0 <= i < |ks| ensures LogicalKey(fields[i]) == Some(ks[i]) && Lt("", ks[i]) {
      assert ks[i] in Elements(ks);
      FieldReads(ks[i], meta[ks[i]], map[]);
      FieldKeyNonempty(ks[i], meta[ks[i]]);
      FirstOfAll(ks[i]);
    }
    assert Keys(fields) == ks;
    PrependKey(ks);
  }

  lemma FieldKeyNonempty(k: string, v: string)
    requires ValidField(k, v)
    ensures k != ""
  {
  }

  lemma FirstOfAll(k: string)
    requires k != ""
    ensures Lt("", k)
  {
  }

  lemma StoredParts(version: nat, prevRaw: string, content: string, meta: Meta)
    requires MetaOk(meta)
    ensures ExtractBody(StoredText(version, prevRaw, content, meta)) == content
    ensures StoredLines(StoredText(version, prevRaw, content, meta)) == Some(BlockLines(version, prevRaw, meta))
  {
    hide MetaOk;
    hide PlainLine;
    hide SplitStored;
    hide Split;
    hide Join;
    hide Terminated;
    hide BlockLines;
    PlainBlock(version, prevRaw, meta);
    FencesSplit(BlockLines(version, prevRaw, meta), content);
  }

  lemma StoredMetadata(version: nat, prevRaw: string, content: string, meta: Meta)
    requires MetaOk(meta)
    ensures MetadataOf(StoredText(version, prevRaw, content, meta)) == NormalizeMetadata(meta)
  {
    hide HeadLines;
    hide FieldLines;
    hide ReadLines;
    hide StoredText;
    hide StoredLines;
    hide ValidField;
    hide NormalValue;
    var ks := Sorted(meta.Keys);
    StoredParts(version, prevRaw, content, meta);
    HeadReads(NewHeader(version, prevRaw));
    ReadLinesAppend(HeadLines(NewHeader(version, prevRaw)), FieldLines(ks, meta), map[]);
    forall k <- ks ensures k in meta && ValidField(k, meta[k]) { assert k in Elements(ks); }
    FieldsRead(ks, meta, map[]);
  }

  /**
   * Everything SerializeVersion accepts reads back: the content as it was, the metadata
   * normalized, and a header with the version and the hash of the previous bytes, which is
   * the only header InspectStoredVersion can report.
   */
  lemma StoredVersionRoundTrip(version: nat, prevRaw: string, content: string, meta: Meta)
    requires Serializable(version, prevRaw, meta)
    ensures var stored := StoredText(version, prevRaw, content, meta);
      && ExtractBody(stored) == content
      && MetadataOf(stored) == NormalizeMetadata(meta)
      && (forall h :: Canonical(stored, h) <==> h == NewHeader(version, prevRaw))
      && ExtractPreviousHash(stored) == NewHeader(version, prevRaw).previousHash
  {
    hide HeadLines;
    hide MetaOk;
    hide StoredText;
    hide StoredLines;
    hide CanonicalFields;
    hide ReadHeader;
    hide MetadataOf;
    hide NormalizeMetadata;
    hide FieldIn;
    hide FieldLines;
    var stored, h := StoredText(version, prevRaw, content, meta), NewHeader(version, prevRaw);
    var lines := BlockLines(version, prevRaw, meta);
    StoredParts(version, prevRaw, content, meta);
    StoredMetadata(version, prevRaw, content, meta);
    NormalizeIsStable(meta);
    FieldsCanonical(meta);
    assert lines[|HeadLines(h)|..] == FieldLines(Sorted(meta.Keys), meta);
    HeaderReads(lines, h);
    forall g ensures Canonical(stored, g) ==> g == h { CanonicalHeader(stored, g, lines); }
    PreviousHashReads(version, prevRaw, meta);
  }

  lemma PreviousHashReads(version: nat, prevRaw: string, meta: Meta)
    requires Serializable(version, prevRaw, meta)
    ensures var lines := BlockLines(version, prevRaw, meta);
      (if FieldIn(lines, "previous-hash").Some? then FieldIn(lines, "previous-hash").value else "") ==
      NewHeader(version, prevRaw).previousHash
  {
    hide HeadLines;
    hide Sorted;
    hide FieldLines;
    hide FieldIn;
    hide ContentHash;
    var h, ks := NewHeader(version, prevRaw), Sorted(meta.Keys);
    var fields := FieldLines(ks, meta);
    HeadField(h, fields);
    forall k <- ks ensures k in meta && ValidField(k, meta[k]) { assert k in Elements(ks); }
    NoFieldNamed(ks, meta);
    if version > 1 { HashTrimmed(prevRaw); }
  }

  lemma HashTrimmed(body: string)
    ensures TrimSpace(ContentHash(body)) == ContentHash(body)
  {
    var d := Sum256(body);
    assert d[63] in d;
    assert ContentHash(body)[70] == d[63];
    TrimmedUnchanged(ContentHash(body));
  }

  lemma FieldStep(line: string, name: string, value: string, rest: seq<string>, key: string)
    requires Cut(line, ": ") == Some((name, value))
    ensures FieldIn([line] + rest, key) == if TrimSpace(name) == key then Some(TrimSpace(value)) else FieldIn(rest, key)
  {
    assert ([line] + rest)[1..] == rest;
  }

  /** The previous-hash field among the header lines, if the version has one. */
  lemma HeadField(h: Header, rest: seq<string>)
    ensures FieldIn(HeadLines(h) + rest, "previous-hash") ==
      if h.version > 1 then Some(TrimSpace(h.previousHash)) else FieldIn(rest, "previous-hash")
  {
    hide FieldIn;
    hide TrimSpace;
    hide Cut;
    hide Itoa;
    FieldPrefixes();
    ArchivedLine(h.archived);
    var archived := if h.archived then "true" else "false";
    HeadLineReads("version", Itoa(h.version), map[]);
    HeadLineReads("archived", archived, map[]);
    HeadLineReads("previous-hash", h.previousHash, map[]);
    var a, b, c := "version: " + Itoa(h.version), "archived: " + archived, "previous-hash: " + h.previousHash;
    var tail := if h.version > 1 then [c] + rest else rest;
    assert HeadLines(h) + rest == [a] + ([b] + tail);
    FieldStep(a, "version", Itoa(h.version), [b] + tail, "previous-hash");
    FieldStep(b, "archived", archived, tail, "previous-hash");
    if h.version > 1 { FieldStep(c, "previous-hash", h.previousHash, rest, "previous-hash"); }
  }

  /** A publisher field is not the previous-hash field. */
  lemma NotPreviousHash(k: string, v: string, rest: seq<string>)
    requires ValidField(k, v)
    ensures FieldIn([FieldLine(k, v)] + rest, "previous-hash") == FieldIn(rest, "previous-hash")
  {
    hide FieldLine;
    hide Cut;
    hide TrimSpace;
    hide FieldIn;
    hide FormatTagsList;
    var key := if IsOkfKey(k) then k else META_PREFIX + k;
    FieldCut(k, v);
    PrefixedKey(k);
    TrimmedUnchanged(key);
    FieldStep(FieldLine(k, v), key, if k == "tags" then FormatTagsList(v) else v, rest, "previous-hash");
  }

  lemma {:induction false} NoFieldNamed(ks: seq<string>, meta: Meta)
    requires forall k <- ks :: k in meta && ValidField(k, meta[k])
    ensures FieldIn(FieldLines(ks, meta), "previous-hash") == None
  {
    hide FieldLine;
    hide ValidField;
    if ks != [] {
      assert forall j <- ks[1..] :: j in ks;
      NoFieldNamed(ks[1..], meta);
      assert FieldLines(ks, meta) == [FieldLine(ks[0], meta[ks[0]])] + FieldLines(ks[1..], meta);
      assert ks[0] in ks;
      NotPreviousHash(ks[0], meta[ks[0]], FieldLines(ks[1..], meta));
    }
  }

  // ---------- Sizes ----------

  lemma FieldBytes(k: string, v: string)
    ensures Len(FieldLine(k, v) + "\n") <= SerializedMetaSize(k, v) + 8
  {
    hide FormatTagsList;
    hide Len;
    var value := if k == "tags" then FormatTagsList(v) else v;
    SmallLens();
    if k == "tags" { assert "tags: " == "tags" + ": "; }
    LenAppend(k, ": ");
    LenAppend(META_PREFIX, k);
    LenAppend(META_PREFIX + k, ": ");
    LenAppend(k + ": ", value);
    LenAppend(META_PREFIX + k + ": ", value);
    LenAppend(FieldLine(k, v), "\n");
  }

  lemma SmallLens()
    ensures Len("\n") == 1 && Len(": ") == 2 && Len(META_PREFIX) == 5 && Len("") == 0
    ensures Len(FENCE) == 4
  {
    ByteLen("\n");
    ByteLen(": ");
    ByteLen(META_PREFIX);
    ByteLen(FENCE);
  }

  lemma {:induction false} FieldsBytes(ks: seq<string>, meta: Meta)
    requires (forall k <- ks :: k in meta) && Ascending(ks)
    ensures Elements(ks) <= meta.Keys
    ensures Len(Terminated(FieldLines(ks, meta))) <= SizeOf(Elements(ks), meta) + 8 * |ks|
  {
    hide FieldLine;
    hide SerializedMetaSize;
    hide LexLeq;
    if ks != [] {
      var k := ks[0];
      assert k in ks && k in Elements(ks) && forall j <- ks[1..] :: j in ks;
      FieldsBytes(ks[1..], meta);
      forall j ensures j in Elements(ks[1..]) <==> j in Elements(ks) && j != k { TailElements(ks, j); }
      assert Elements(ks[1..]) == Elements(ks) - {k};
      SizeWithout(k, Elements(ks), meta);
      FieldBytes(k, meta[k]);
      var lines := FieldLines(ks, meta);
      assert lines[1..] == FieldLines(ks[1..], meta);
      LenAppend(lines[0] + "\n", Terminated(lines[1..]));
    }
  }

  lemma {:induction false} ItoaDigits(n: nat, limit: nat, digits: nat)
    requires n < limit && digits >= 1 && limit == Power10(digits)
    ensures |Itoa(n)| <= digits
    decreases digits
  {
    if n >= 10 {
      ItoaDigits(n / 10, Power10(digits - 1), digits - 1);
    }
  }

  function Power10(n: nat): nat { if n == 0 then 1 else 10 * Power10(n - 1) }

  lemma HeadBytes(version: nat, prevRaw: string)
    requires version <= MAX_VERSION_NUMBER
    ensures Len(Terminated(HeadLines(NewHeader(version, prevRaw)))) <= 150
  {
    hide Itoa;
    hide Terminated;
    hide ContentHash;
    assert Power10(10) == 10_000_000_000 by { assert Power10(5) == 100_000; }
    ItoaDigits(version, Power10(10), 10);
    var a, b, c := "version: " + Itoa(version), "archived: false", "previous-hash: " + ContentHash(prevRaw);
    var start := "";
    VersionLen(version);
    ArchivedLen();
    HashLen(prevRaw);
    ThreeLines(start, a, b, c);
    LenAppend(start, a + "\n");
    LenAppend(start + (a + "\n"), b + "\n");
    LenAppend(start + (a + "\n") + (b + "\n"), c + "\n");
    SmallLens();
    if version > 1 {
      assert HeadLines(NewHeader(version, prevRaw)) == [a, b, c];
      assert start + Terminated([a, b, c]) == Terminated([a, b, c]);
    } else {
      assert HeadLines(NewHeader(version, prevRaw)) == [a, b];
      assert start + Terminated([a, b]) == Terminated([a, b]);
    }
  }

  lemma VersionLen(version: nat)
    requires |Itoa(version)| <= 10
    ensures Len("version: " + Itoa(version) + "\n") <= 20
  {
    hide Itoa;
    var digits := Itoa(version);
    forall c <- digits ensures c < '\U{80}' { assert IsDigit(c); }
    hide Len;
    ByteLen("version: " + digits + "\n");
  }

  lemma ArchivedLen()
    ensures Len("archived: false" + "\n") == 16
  {
    hide Len;
    ByteLen("archived: false" + "\n");
  }

  lemma HashLen(prevRaw: string)
    ensures Len("previous-hash: " + ContentHash(prevRaw) + "\n") == 87
  {
    hide Len;
    var digest := Sum256(prevRaw);
    forall c <- digest ensures c < '\U{80}' { assert IsHex(c); }
    ByteLen("previous-hash: " + ContentHash(prevRaw) + "\n");
  }

  /** The frontmatter of every stored version fits in the bytes the store reserves for it. */
  lemma FrontmatterFits(version: nat, prevRaw: string, content: string, meta: Meta)
    requires Serializable(version, prevRaw, meta)
    ensures Len(StoredText(version, prevRaw, content, meta)) <= Len(content) + MAX_STORE_FRONTMATTER
  {
    hide HeadLines;
    hide FieldLines;
    hide Terminated;
    hide ValidField;
    var ks := Sorted(meta.Keys);
    forall k <- ks ensures k in meta { assert k in Elements(ks); }
    var head, fields := HeadLines(NewHeader(version, prevRaw)), FieldLines(ks, meta);
    HeadBytes(version, prevRaw);
    FieldsBytes(ks, meta);
    AscendingCount(ks);
    assert |ks| == |Elements(ks)| == |meta|;
    TerminatedAppend(head, fields);
    LenAppend(Terminated(head), Terminated(fields));
    LenAppend(FENCE, Terminated(head + fields));
    LenAppend(FENCE + Terminated(head + fields), FENCE);
    LenAppend(FENCE + Terminated(head + fields) + FENCE, content);
    SmallLens();
  }

  // ---------- Appending ----------

  /** What keeps appended content on a line of its own. */
  function Separator(existing: string): string {
    if existing != "" && existing[|existing| - 1] != '\n' then "\n" else ""
  }

  /** None past the body limit, counted in bytes. */
  method JoinContent(existing: string, content: string) returns (r: Option<string>)
    ensures content == "" ==> r == Some(existing)
    ensures content != "" ==> (r.None? <==> Len(existing + Separator(existing) + content) > MAX_BODY_LENGTH)
    ensures content != "" && r.Some? ==> r.value == existing + Separator(existing) + content
  {
    hide Len;
    if content == "" { return Some(existing); }
    var sep := if existing != "" && existing[|existing| - 1] != '\n' then 1 else 0;
    var n := Len(existing) + sep + Len(content);
    SmallLens();
    LenAppend(existing, Separator(existing));
    LenAppend(existing + Separator(existing), content);
    if n > MAX_BODY_LENGTH { return None; }
    var combined := existing;
    if sep == 1 { combined := combined + ['\n']; }
    assert combined == existing + Separator(existing);
    return Some(combined + content);
  }

  /** The legacy archived flag. */
  function IsArchived(data: string): bool {
    match StoredLines(data)
    case None => false
    case Some(lines) => FieldIn(lines, "archived") == Some("true")
  }

  /** A canonical version's loosely read fields are the ones its header declares. */
  lemma CanonicalFieldsRead(stored: string, h: Header)
    requires Canonical(stored, h)
    ensures h.version > 1 ==> ExtractPreviousHash(stored) == h.previousHash
    ensures IsArchived(stored) == h.archived
  {
    hide FieldIn;
    hide HeadLines;
    hide CanonicalFields;
    hide MetaOk;
    var lines := StoredLines(stored).value;
    var rest := lines[|HeadLines(h)|..];
    assert lines == HeadLines(h) + rest;
    HeadField(h, rest);
    ArchivedField(h, rest);
    if h.version > 1 { StoredHashTrimmed(h.previousHash); }
  }

  lemma StoredHashTrimmed(v: string)
    requires ValidStoredHash(v)
    ensures TrimSpace(v) == v
  {
    assert v[70] in v[7..];
    TrimmedUnchanged(v);
  }

  lemma ArchivedField(h: Header, rest: seq<string>)
    ensures FieldIn(HeadLines(h) + rest, "archived") == Some(if h.archived then "true" else "false")
  {
    hide FieldIn;
    hide TrimSpace;
    hide Cut;
    hide Itoa;
    FieldPrefixes();
    ArchivedLine(h.archived);
    var archived := if h.archived then "true" else "false";
    HeadLineReads("version", Itoa(h.version), map[]);
    HeadLineReads("archived", archived, map[]);
    TrimmedUnchanged(archived);
    var tail := (if h.version > 1 then ["previous-hash: " + h.previousHash] else []) + rest;
    var a, b := "version: " + Itoa(h.version), "archived: " + archived;
    assert HeadLines(h) + rest == [a] + ([b] + tail);
    FieldStep(a, "version", Itoa(h.version), [b] + tail, "archived");
    FieldStep(b, "archived", archived, tail, "archived");
  }

  /** What an APPEND stores: its own keys win, the other old ones stay, and an old retention lapses. */
  function MergeAppendMeta(base: Meta, req: Meta): Meta { (base - {"retention"}) + req }

  /** A concept document with no type gets the default one. */
  function ApplyTypeDefault(concept: bool, meta: Meta): Meta {
    if !concept || ("type" in meta && TrimSpace(meta["type"]) != "") then meta else meta["type" := "Document"]
  }

  function PrepareAppendMeta(concept: bool, base: Meta, req: Meta): Meta {
    ApplyTypeDefault(concept, MergeAppendMeta(base, req))
  }
}
