// The manifest of a sharded hash index: client/index/sharded.go, lines 26-163, 250-332,
// 440-497 and 583-706.
//
// A manifest lists the shards of one generation with the versions it pins. Its text must read
// back, and what a reader finds through it must be what a scan of all entries would find.
module Manifests {
  import opened Wrappers
  import opened Text
  import opened Paths
  import opened Tables
  import opened Index
  import opened Seqs
  import opened Sha256
  import opened Sharding

  // ---------- Times ----------

  /** A date of the Gregorian calendar and a time of day. */
  datatype Time = Time(year: int, month: nat, day: nat, hour: nat, minute: nat, second: nat, nanos: nat)

  predicate Leap(year: int) { year % 4 == 0 && (year % 100 != 0 || year % 400 == 0) }

  function DaysIn(year: int, month: nat): nat {
    if month == 2 then (if Leap(year) then 29 else 28)
    else if month == 4 || month == 6 || month == 9 || month == 11 then 30 else 31
  }

  predicate OnCalendar(t: Time) {
    1 <= t.month <= 12 && 1 <= t.day <= DaysIn(t.year, t.month) && t.hour < 24 && t.minute < 60 && t.second < 60 &&
    t.nanos < 1_000_000_000
  }

  type Instant = t: Time | OnCalendar(t) witness Time(1, 1, 1, 0, 0, 0, 0)

  const ZERO_TIME: Instant := Time(1, 1, 1, 0, 0, 0, 0)

  /** A time.Time: an instant in UTC, and how many seconds its zone is ahead of UTC at that instant. */
  datatype Moment = Moment(utc: Instant, offset: int)

  /** The same instant in UTC. */
  function AsUtc(t: Moment): Moment { Moment(t.utc, 0) }

  function SecondOfDay(t: Instant): nat { 3600 * t.hour + 60 * t.minute + t.second }

  /** The year some days after a date, or before it. */
  function YearAfter(year: int, month: nat, day: nat, days: int): int
    requires 1 <= month <= 12 && 1 <= day <= DaysIn(year, month)
    decreases if days < 0 then -days else days
  {
    if days == 0 then year
    else if days > 0 then
      if day < DaysIn(year, month) then YearAfter(year, month, day + 1, days - 1)
      else if month < 12 then YearAfter(year, month + 1, 1, days - 1)
      else YearAfter(year + 1, 1, 1, days - 1)
    else
      if day > 1 then YearAfter(year, month, day - 1, days + 1)
      else if month > 1 then YearAfter(year, month - 1, DaysIn(year, month - 1), days + 1)
      else YearAfter(year - 1, 12, 31, days + 1)
  }

  /** The year shown by a clock in t's own zone. */
  function OwnYear(t: Moment): int {
    YearAfter(t.utc.year, t.utc.month, t.utc.day, (SecondOfDay(t.utc) + t.offset) / 86_400)
  }

  lemma UtcYear(t: Instant)
    ensures OwnYear(Moment(t, 0)) == t.year
  {
    hide DaysIn;
    hide YearAfter;
    assert SecondOfDay(t) < 86_400;
    NoDaysLater(t);
  }

  lemma NoDaysLater(t: Instant)
    ensures YearAfter(t.year, t.month, t.day, 0) == t.year
  {
  }

  /** The start of t's second. */
  function Whole(t: Instant): Instant { t.(nanos := 0) }

  function Tens(n: nat): char { Digit(n / 10 % 10) }
  function Ones(n: nat): char { Digit(n % 10) }

  /** Four digits at least. */
  function Padded(year: nat): string {
    if year <= 9999 then [Tens(year / 100), Ones(year / 100), Tens(year % 100), Ones(year % 100)] else Itoa(year)
  }

  function YearText(year: int): string { if year < 0 then "-" + Padded(-year) else Padded(year) }

  function AfterYear(t: Instant): string {
    ['-', Tens(t.month), Ones(t.month), '-', Tens(t.day), Ones(t.day), 'T', Tens(t.hour), Ones(t.hour), ':',
     Tens(t.minute), Ones(t.minute), ':', Tens(t.second), Ones(t.second), 'Z']
  }

  /** time.RFC3339 in UTC, for a year of any size; fractions of a second are not printed. */
  function FormatTime(t: Instant): string { YearText(t.year) + AfterYear(t) }

  predicate TwoDigits(s: string, i: nat) { i + 1 < |s| && IsDigit(s[i]) && IsDigit(s[i + 1]) }

  function TwoAt(s: string, i: nat): nat
    requires TwoDigits(s, i)
  {
    10 * DigitValue(s[i]) + DigitValue(s[i + 1])
  }

  predicate InUtc(s: string) {
    |s| == 20 && s[4] == '-' && s[7] == '-' && s[10] == 'T' && s[13] == ':' && s[16] == ':' && s[19] == 'Z' &&
    TwoDigits(s, 0) && TwoDigits(s, 2) && TwoDigits(s, 5) && TwoDigits(s, 8) && TwoDigits(s, 11) && TwoDigits(s, 14) &&
    TwoDigits(s, 17)
  }

  /** A time is read only if it starts with a year of four digits and a dash. */
  predicate YearFirst(s: string) { |s| > 4 && TwoDigits(s, 0) && TwoDigits(s, 2) && s[4] == '-' }

  // What time.Parse makes of every other spelling (offsets, fractions): any total function.
  const OtherTime: string -> Option<Moment>

  function ParseTime(s: string): Option<Moment> {
    if !YearFirst(s) then None
    else if !InUtc(s) then OtherTime(s)
    else
      var t := Time(100 * TwoAt(s, 0) + TwoAt(s, 2), TwoAt(s, 5), TwoAt(s, 8), TwoAt(s, 11), TwoAt(s, 14), TwoAt(s, 17), 0);
      if OnCalendar(t) then (var read: Instant := t; Some(Moment(read, 0))) else None
  }

  lemma TwoDigitsRead(n: nat)
    requires n < 100
    ensures 10 * DigitValue(Tens(n)) + DigitValue(Ones(n)) == n
  {
  }

  lemma DigitsAre(n: nat)
    ensures IsDigit(Tens(n)) && IsDigit(Ones(n)) && '\n' != Tens(n) && '\n' != Ones(n)
  {
  }

  /** The printed fields. */
  lemma TimeDigits(t: Instant)
    requires 0 <= t.year <= 9999
    ensures var s := FormatTime(t);
      InUtc(s) && TwoAt(s, 0) == t.year / 100 && TwoAt(s, 2) == t.year % 100 && TwoAt(s, 5) == t.month &&
      TwoAt(s, 8) == t.day && TwoAt(s, 11) == t.hour && TwoAt(s, 14) == t.minute && TwoAt(s, 17) == t.second
  {
    hide Tens;
    hide Ones;
    hide DaysIn;
    forall n: nat ensures IsDigit(Tens(n)) && IsDigit(Ones(n)) { DigitsAre(n); }
    TwoDigitsRead(t.year / 100);
    TwoDigitsRead(t.year % 100);
    TwoDigitsRead(t.month);
    DaysFew(t.year, t.month);
    TwoDigitsRead(t.day);
    TwoDigitsRead(t.hour);
    TwoDigitsRead(t.minute);
    TwoDigitsRead(t.second);
  }

  lemma YearPlain(year: int)
    ensures YearText(year) != "" && !IsSpace(YearText(year)[0]) && '\n' !in YearText(year)
  {
    hide Tens;
    hide Ones;
    hide Itoa;
    forall n: nat ensures '\n' != Tens(n) && '\n' != Ones(n) && IsDigit(Tens(n)) { DigitsAre(n); }
    assert forall c :: IsDigit(c) ==> !IsSpace(c) && c != '\n';
    var padded := Padded(if year < 0 then -year else year);
    assert padded != "" && IsDigit(padded[0]) && '\n' !in padded;
  }

  lemma TimePlain(t: Instant)
    ensures Plain(FormatTime(t))
  {
    hide Tens;
    hide Ones;
    hide YearText;
    forall n: nat ensures '\n' != Tens(n) && '\n' != Ones(n) { DigitsAre(n); }
    YearPlain(t.year);
  }

  /** Outside the years 0 to 9999 there are not four digits before the first dash. */
  lemma YearTooFar(t: Instant)
    requires t.year < 0 || t.year > 9999
    ensures !YearFirst(FormatTime(t))
  {
    hide Itoa;
    if t.year > 9999 {
      ItoaLong(t.year);
      assert FormatTime(t)[4] == Itoa(t.year)[4] && Itoa(t.year)[4] in Itoa(t.year);
    } else {
      assert FormatTime(t)[0] == '-';
    }
  }

  lemma ItoaLong(n: nat)
    requires n > 9999
    ensures |Itoa(n)| >= 5
  {
    assert Itoa(n) == Itoa(n / 10) + [Digit(n % 10)];
    assert Itoa(n / 10) == Itoa(n / 100) + [Digit(n / 10 % 10)];
    assert Itoa(n / 100) == Itoa(n / 1000) + [Digit(n / 100 % 10)];
    assert Itoa(n / 1000) == Itoa(n / 10_000) + [Digit(n / 1000 % 10)];
  }

  /** A printed time reads back as the start of its second, in UTC, from the year 0 to the year 9999 and not beyond. */
  lemma TimeReads(t: Instant)
    ensures Plain(FormatTime(t))
    ensures ParseTime(FormatTime(t)) == if 0 <= t.year <= 9999 then Some(Moment(Whole(t), 0)) else None
  {
    hide FormatTime;
    hide InUtc;
    hide TwoAt;
    hide DaysIn;
    hide Plain;
    TimePlain(t);
    if 0 <= t.year <= 9999 {
      TimeDigits(t);
      UtcFirst(FormatTime(t));
    } else {
      YearTooFar(t);
    }
  }

  lemma UtcFirst(s: string)
    requires InUtc(s)
    ensures YearFirst(s)
  {
  }

  lemma DaysFew(year: int, month: nat)
    ensures DaysIn(year, month) <= 31
  {
  }

  // ---------- What a manifest must satisfy ----------

  datatype Manifest = Manifest(source: string, indexed: Moment, complete: bool, documents: nat, activeSlot: string,
                               shards: seq<ShardRef>)

  const MANIFEST_FORMAT := "demarkus-hash-index/v2"
  const MAX_MANIFEST_SHARDS: nat := 4096

  /** compareShardRefs(a, b) <= 0: prefix, then part by number, then path. */
  predicate RefLeq(a: ShardRef, b: ShardRef) {
    if a.prefix != b.prefix then LexLeq(a.prefix, b.prefix)
    else match (ParseShardFile(Base(a.path)), ParseShardFile(Base(b.path)))
      case (Some((_, p)), Some((_, q))) => if p != q then p < q else LexLeq(a.path, b.path)
      case _ => LexLeq(a.path, b.path)
  }

  function SortRefs(rs: seq<ShardRef>): seq<ShardRef> { Sort(RefLeq, rs) }

  function SumRows(rs: seq<ShardRef>): nat {
    if rs == [] then 0 else rs[0].rows + SumRows(rs[1..])
  }

  predicate ValidSource(source: string) {
    TrimSpace(source) != "" && source == TrimSpace(source) && '\r' !in source && '\n' !in source && '\t' !in source
  }

  /** Not the zero instant, and a year in range where the time was taken. */
  predicate ValidIndexed(t: Moment) { t.utc != ZERO_TIME && 1 <= OwnYear(t) <= 9999 }

  /** One descriptor. Versions and sizes are Go ints; row counts are bounded by their total. */
  predicate ValidRef(manifestPath: string, slot: string, r: ShardRef) {
    && ValidPrefix(r.prefix) && 1 <= r.version <= MAX_INT && r.rows >= 1 && 1 <= r.bytes <= MAX_INT
    && HashPath(r.contentHash) == Some(r.contentHash)
    && Dir(r.path) == ShardRoot(manifestPath) + "/" + slot
    && ParseShardFile(Base(r.path)).Some? && ParseShardFile(Base(r.path)).value.0 == r.prefix
  }

  /** The parts validateManifest collects for one prefix. */
  function PartsOf(refs: seq<ShardRef>, manifestPath: string, slot: string, prefix: string): set<nat> {
    set q | q in refs && q.prefix == prefix && ValidRef(manifestPath, slot, q) :: ParseShardFile(Base(q.path)).value.1
  }

  /** What does not depend on the single shards. */
  predicate ValidHead(manifestPath: string, m: Manifest) {
    ValidManifestPath(manifestPath) && ValidSource(m.source) && ValidIndexed(m.indexed) &&
    (m.activeSlot == "a" || m.activeSlot == "b") && m.documents <= MAX_INDEX_ENTRIES && |m.shards| <= MAX_MANIFEST_SHARDS
  }

  predicate WholeParts(refs: seq<ShardRef>, manifestPath: string, slot: string) {
    forall r, part :: r in refs && 0 <= part < |PartsOf(refs, manifestPath, slot, r.prefix)| ==>
      part in PartsOf(refs, manifestPath, slot, r.prefix)
  }

  /** The shard list: valid descriptors, no path twice, parts numbered from zero, rows adding up to the documents. */
  predicate ValidShards(manifestPath: string, m: Manifest) {
    && (forall k :: 0 <= k < |m.shards| ==> ValidRef(manifestPath, m.activeSlot, m.shards[k]))
    && (forall i, j :: 0 <= i < j < |m.shards| ==> m.shards[i].path != m.shards[j].path)
    && WholeParts(m.shards, manifestPath, m.activeSlot)
    && SumRows(m.shards) == m.documents
  }

  predicate ValidManifest(manifestPath: string, m: Manifest) { ValidHead(manifestPath, m) && ValidShards(manifestPath, m) }

  lemma {:induction false} SumRowsSnoc(rs: seq<ShardRef>, r: ShardRef)
    ensures SumRows(rs + [r]) == SumRows(rs) + r.rows
  {
    if rs == [] {
      assert rs + [r] == [r] && [r][1..] == [];
    } else {
      assert (rs + [r])[1..] == rs[1..] + [r];
      SumRowsSnoc(rs[1..], r);
    }
  }

  lemma {:induction false} SumRowsGrows(rs: seq<ShardRef>, k: nat)
    requires k <= |rs|
    ensures SumRows(rs[..k]) <= SumRows(rs)
    decreases |rs| - k
  {
    if k == |rs| {
      assert rs[..k] == rs;
    } else {
      assert rs[..k + 1] == rs[..k] + [rs[k]];
      SumRowsSnoc(rs[..k], rs[k]);
      SumRowsGrows(rs, k + 1);
    }
  }

  function PartOf(r: ShardRef): nat
    requires ParseShardFile(Base(r.path)).Some?
  {
    ParseShardFile(Base(r.path)).value.1
  }

  lemma PartsSnoc(refs: seq<ShardRef>, r: ShardRef, manifestPath: string, slot: string, prefix: string)
    requires ValidRef(manifestPath, slot, r)
    ensures PartsOf(refs + [r], manifestPath, slot, prefix) ==
      PartsOf(refs, manifestPath, slot, prefix) + if r.prefix == prefix then {PartOf(r)} else {}
  {
    hide ParseShardFile;
    var all := refs + [r];
    forall part ensures part in PartsOf(all, manifestPath, slot, prefix) <==>
      part in PartsOf(refs, manifestPath, slot, prefix) || (r.prefix == prefix && part == PartOf(r))
    {
      if r.prefix == prefix && part == PartOf(r) { assert r in all; }
    }
  }

  /** The parts seen among the first k shards, prefix by prefix. */
  ghost predicate Collected(parts: map<string, set<nat>>, refs: seq<ShardRef>, manifestPath: string, slot: string) {
    && (forall prefix <- parts :: parts[prefix] == PartsOf(refs, manifestPath, slot, prefix))
    && (forall r <- refs :: r.prefix in parts)
    && (forall prefix <- parts :: exists r <- refs :: r.prefix == prefix)
  }

  lemma CollectNext(parts: map<string, set<nat>>, refs: seq<ShardRef>, r: ShardRef, manifestPath: string, slot: string)
    requires Collected(parts, refs, manifestPath, slot) && ValidRef(manifestPath, slot, r)
    ensures Collected(parts[r.prefix := (if r.prefix in parts then parts[r.prefix] else {}) + {PartOf(r)}],
                      refs + [r], manifestPath, slot)
  {
    HasPart(manifestPath, slot, r);
    hide ValidRef;
    hide PartOf;
    var now := parts[r.prefix := (if r.prefix in parts then parts[r.prefix] else {}) + {PartOf(r)}];
    forall prefix <- now ensures now[prefix] == PartsOf(refs + [r], manifestPath, slot, prefix) {
      PartsSnoc(refs, r, manifestPath, slot, prefix);
      if prefix !in parts { assert PartsOf(refs, manifestPath, slot, prefix) == {}; }
    }
    assert r in refs + [r];
    forall prefix <- now ensures exists q <- refs + [r] :: q.prefix == prefix {
      if prefix in parts { var q :| q in refs && q.prefix == prefix; assert q in refs + [r]; }
    }
  }

  /** validateManifest. */
  method ValidateManifest(manifestPath: string, m: Manifest) returns (ok: bool)
    ensures ok <==> ValidManifest(manifestPath, m)
  {
    hide ValidManifestPath;
    hide ValidSource;
    hide ValidIndexed;
    hide ValidShards;
    hide SumRows;
    ShardsChecked(manifestPath, m);
    if !ValidHead(manifestPath, m) { return false; }
    var rows, parts := CheckShards(manifestPath, m);
    if rows.None? { return false; }
    var whole := NoHoles(m, manifestPath, parts);
    return whole && rows.value == m.documents;
  }

  lemma ShardsChecked(manifestPath: string, m: Manifest)
    ensures ValidShards(manifestPath, m) <==>
      Distinct(manifestPath, m.activeSlot, m.shards) && WholeParts(m.shards, manifestPath, m.activeSlot) &&
      SumRows(m.shards) == m.documents
  {
    hide ValidRef;
    hide WholeParts;
  }

  predicate Distinct(manifestPath: string, slot: string, refs: seq<ShardRef>) {
    && (forall k :: 0 <= k < |refs| ==> ValidRef(manifestPath, slot, refs[k]))
    && (forall i, j :: 0 <= i < j < |refs| ==> refs[i].path != refs[j].path)
  }

  /** The pass over the descriptors: None when one is refused, else the row total, and the parts of each prefix. */
  method CheckShards(manifestPath: string, m: Manifest) returns (total: Option<nat>, parts: map<string, set<nat>>)
    requires m.documents <= MAX_INDEX_ENTRIES
    ensures total.None? ==> !Distinct(manifestPath, m.activeSlot, m.shards) || SumRows(m.shards) != m.documents
    ensures total.Some? ==> Distinct(manifestPath, m.activeSlot, m.shards) && total.value == SumRows(m.shards)
    ensures total.Some? ==> Collected(parts, m.shards, manifestPath, m.activeSlot)
  {
    hide SumRows;
    hide ValidRef;
    hide PartsOf;
    hide Collected;
    hide ParseShardFile;
    var rows: int, seen: set<string> := 0, {};
    parts := map[];
    NoneCollected(manifestPath, m.activeSlot);
    assert m.shards[..0] == [];
    for i := 0 to |m.shards|
      invariant 0 <= rows == SumRows(m.shards[..i]) <= MAX_INT
      invariant Distinct(manifestPath, m.activeSlot, m.shards[..i])
      invariant forall p :: p in seen <==> exists k :: 0 <= k < i && m.shards[k].path == p
      invariant Collected(parts, m.shards[..i], manifestPath, m.activeSlot)
    {
      var ref := m.shards[i];
      assert m.shards[..i + 1] == m.shards[..i] + [ref];
      if !ValidRef(manifestPath, m.activeSlot, ref) { return None, parts; }
      if ref.path in seen { return None, parts; }
      seen := seen + {ref.path};
      HasPart(manifestPath, m.activeSlot, ref);
      CollectNext(parts, m.shards[..i], ref, manifestPath, m.activeSlot);
      parts := parts[ref.prefix := (if ref.prefix in parts then parts[ref.prefix] else {}) + {PartOf(ref)}];
      SumRowsSnoc(m.shards[..i], ref);
      if ref.rows > MAX_INT - rows {
        SumRowsGrows(m.shards, i + 1);
        return None, parts;
      }
      rows := rows + ref.rows;
    }
    assert m.shards[..|m.shards|] == m.shards;
    return Some(rows), parts;
  }

  lemma NoneCollected(manifestPath: string, slot: string)
    ensures Collected(map[], [], manifestPath, slot) && SumRows([]) == 0
  {
  }

  lemma HasPart(manifestPath: string, slot: string, r: ShardRef)
    requires ValidRef(manifestPath, slot, r)
    ensures ParseShardFile(Base(r.path)).Some?
  {
  }

  /** The pass over the prefixes, in any order: no part number below their count is missing. */
  method NoHoles(m: Manifest, manifestPath: string, parts: map<string, set<nat>>) returns (ok: bool)
    requires Collected(parts, m.shards, manifestPath, m.activeSlot)
    ensures ok <==> WholeParts(m.shards, manifestPath, m.activeSlot)
  {
    hide PartsOf;
    var left := parts.Keys;
    while left != {}
      invariant left <= parts.Keys
      invariant forall prefix <- parts, part: nat :: prefix !in left && part < |parts[prefix]| ==> part in parts[prefix]
      decreases |left|
    {
      var prefix :| prefix in left;
      for part := 0 to |parts[prefix]|
        invariant forall q: nat :: q < part ==> q in parts[prefix]
      {
        if part !in parts[prefix] {
          var r :| r in m.shards && r.prefix == prefix;
          return false;
        }
      }
      left := left - {prefix};
    }
    return true;
  }

  // ---------- The text ----------

  const MANIFEST_HEADING := "# Content Index Manifest"
  const MANIFEST_HEADER := ["Prefix", "Path", "Version", "Content Hash", "Rows", "Bytes"]
  const MANIFEST_RULES := ["--------", "------", "---------", "--------------", "------", "-------"]

  function FormatBool(b: bool): string { if b then "true" else "false" }

  function ManifestFields(m: Manifest): seq<Field>
  {
    [Field("Format", MANIFEST_FORMAT), Field("Source", m.source), Field("Indexed", FormatTime(m.indexed.utc)),
     Field("Complete", FormatBool(m.complete)), Field("Documents", Itoa(m.documents)), Field("Active-Slot", m.activeSlot)]
  }

  function RefCells(r: ShardRef): seq<string> {
    [r.prefix, EncodeCell(r.path), Itoa(r.version), r.contentHash, Itoa(r.rows), Itoa(r.bytes)]
  }

  function RefLine(r: ShardRef): string { TableRow(RefCells(r)) }

  function RefLines(refs: seq<ShardRef>): seq<string> {
    seq(|refs|, k requires 0 <= k < |refs| => RefLine(refs[k]))
  }

  function ManifestHead(m: Manifest): seq<string>
  {
    Preamble(MANIFEST_HEADING, ManifestFields(m), MANIFEST_HEADER, MANIFEST_RULES)
  }

  function ManifestText(m: Manifest): string
  {
    Terminated(ManifestHead(m)) + Terminated(RefLines(m.shards))
  }

  function SortedRefs(m: Manifest): Manifest { m.(shards := SortRefs(m.shards)) }

  /** The result of BuildManifest. */
  function Built(manifestPath: string, m: Manifest): Result<string> {
    if !ValidManifest(manifestPath, SortedRefs(m)) then Err("invalid manifest")
    else if Len(ManifestText(SortedRefs(m))) > MAX_BODY_LENGTH then Err("manifest body exceeds limit")
    else Ok(ManifestText(SortedRefs(m)))
  }

  method BuildManifest(manifestPath: string, m: Manifest) returns (r: Result<string>)
    ensures r == Built(manifestPath, m)
  {
    hide ValidShards;
    hide ValidManifestPath;
    hide ValidSource;
    hide ManifestHead;
    hide RefLine;
    hide Terminated;
    hide SortRefs;
    hide Len;
    var sorted := SortedRefs(m);
    var ok := ValidateManifest(manifestPath, sorted);
    if !ok { return Err("invalid manifest"); }
    var b := Terminated(ManifestHead(sorted));
    NoLines();
    for k := 0 to |sorted.shards|
      invariant b == Terminated(ManifestHead(sorted)) + Terminated(RefLines(sorted.shards[..k]))
    {
      assert RefLines(sorted.shards[..k + 1]) == RefLines(sorted.shards[..k]) + [RefLine(sorted.shards[k])];
      OneLineMore(RefLines(sorted.shards[..k]), RefLine(sorted.shards[k]));
      b := b + (RefLine(sorted.shards[k]) + "\n");
    }
    assert sorted.shards[..|sorted.shards|] == sorted.shards;
    return if Len(b) > MAX_BODY_LENGTH then Err("manifest body exceeds limit") else Ok(b);
  }

  lemma NoLines()
    ensures Terminated(RefLines([])) == ""
  {
  }

  lemma OneLineMore(lines: seq<string>, line: string)
    ensures Terminated(lines + [line]) == Terminated(lines) + (line + "\n")
  {
    TerminatedAppend(lines, [line]);
    assert [line][1..] == [];
  }

  // ---------- Reading the text ----------

  function ParseBool(s: string): Option<bool> {
    if s in ["1", "t", "T", "TRUE", "true", "True"] then Some(true)
    else if s in ["0", "f", "F", "FALSE", "false", "False"] then Some(false) else None
  }

  function Value(meta: map<string, string>, key: string): string { if key in meta then meta[key] else "" }

  function ParsePositive(s: string): Option<nat> {
    match Atoi(s) case None => None case Some(n) => if n < 1 then None else Some(n)
  }

  function ParseRef(row: seq<string>): Option<ShardRef>
    requires |row| == 6
  {
    match (ParsePositive(row[2]), ParsePositive(row[4]), ParsePositive(row[5]))
    case (Some(version), Some(rows), Some(bytes)) =>
      Some(ShardRef(row[0], DecodeCell(row[1]), version, row[3], rows, bytes))
    case _ => None
  }

  function ParseRefs(rows: seq<seq<string>>): Result<seq<ShardRef>>
    requires forall k :: 0 <= k < |rows| ==> |rows[k]| == 6
  {
    if rows == [] then Ok([])
    else match ParseRef(rows[0])
      case None => Err("invalid shard row")
      case Some(r) =>
        match ParseRefs(rows[1..])
        case Err(e) => Err(e)
        case Ok(rest) => Ok([r] + rest)
  }

  function ParseTable(lines: seq<string>): Result<seq<ShardRef>> {
    TableRowsWidth(lines, MANIFEST_HEADER);
    match TableRows(lines, MANIFEST_HEADER)
    case Err(e) => Err(e)
    case Ok(rows) => assert forall k :: 0 <= k < |rows| ==> rows[k] in rows; ParseRefs(rows)
  }

  function Validated(manifestPath: string, m: Manifest): Result<Manifest> {
    if ValidManifest(manifestPath, m) then Ok(m) else Err("invalid manifest")
  }

  function ParseManifest(manifestPath: string, body: string): Result<Manifest> {
    if Len(body) > MAX_BODY_LENGTH then Err("manifest body exceeds limit")
    else
      var lines := Split(body, '\n');
      match GeneratedMetadata(lines, MANIFEST_HEADING)
      case Err(e) => Err(e)
      case Ok(meta) =>
        if Value(meta, "Format") != MANIFEST_FORMAT then Err(UNSUPPORTED)
        else match (ParseTime(Value(meta, "Indexed")), ParseBool(Value(meta, "Complete")), ParseNonNegative(meta, "Documents"))
          case (None, _, _) => Err("invalid Indexed value")
          case (_, None, _) => Err("invalid Complete value")
          case (_, _, Err(e)) => Err(e)
          case (Some(indexed), Some(complete), Ok(documents)) =>
            match ParseTable(lines)
            case Err(e) => Err(e)
            case Ok(refs) =>
              Validated(manifestPath,
                        Manifest(Value(meta, "Source"), indexed, complete, documents, Value(meta, "Active-Slot"), refs))
  }

  function FirstNonEmptyLine(lines: seq<string>): string {
    if lines == [] then ""
    else if TrimSpace(lines[0]) != "" then TrimSpace(lines[0]) else FirstNonEmptyLine(lines[1..])
  }

  /** "" for a document without a generated heading: a legacy index. */
  function DocumentFormat(body: string): Result<string> {
    var lines := Split(body, '\n');
    var heading := FirstNonEmptyLine(lines);
    if heading != MANIFEST_HEADING && heading != "# Content Index Shard" then Ok("")
    else match GeneratedMetadata(lines, heading)
      case Err(e) => Err(e)
      case Ok(meta) => Ok(Value(meta, "Format"))
  }

  // ---------- Reading the index ----------

  // index.Parse, the reader of the legacy single-document index: any total function.
  const LegacyEntries: string -> seq<Entry>

  /** The manifest in a generated document, complete. */
  function OpenManifest(manifestPath: string, body: string): Result<Manifest> {
    match ParseManifest(manifestPath, body)
    case Err(e) => Err(e)
    case Ok(m) => if m.complete then Ok(m) else Err("hash index manifest is incomplete")
  }

  /** All entries with the hash that the index at body leads to. */
  function Lookup(manifestPath: string, body: string, hash: string, fetch: Fetch): Result<seq<Entry>>
    requires |hash| == 71
  {
    match DocumentFormat(body)
    case Err(e) => Err(e)
    case Ok(format) =>
      if format == "" then Ok(Matching(LegacyEntries(body), hash))
      else if format != MANIFEST_FORMAT then Err(UNSUPPORTED)
      else match OpenManifest(manifestPath, body)
        case Err(e) => Err(e)
        case Ok(m) => WithHash(Gather(m.shards, hash[7..9], fetch), hash)
  }

  /** All entries the index at body leads to. */
  function Load(manifestPath: string, body: string, fetch: Fetch): Result<seq<Entry>> {
    match DocumentFormat(body)
    case Err(e) => Err(e)
    case Ok(format) =>
      if format == "" then Ok(LegacyEntries(body))
      else if format != MANIFEST_FORMAT then Err(UNSUPPORTED)
      else match OpenManifest(manifestPath, body)
        case Err(e) => Err(e)
        case Ok(m) => Counted(Gather(m.shards, "", fetch), m.documents)
  }

  function Counted(all: Result<seq<Entry>>, documents: nat): Result<seq<Entry>> {
    if all.Ok? && |all.value| != documents then Err("manifest document count mismatch") else all
  }

  /** Reads a legacy index whole, and of a sharded one only the shards that can hold the hash. */
  method EntriesForHash(manifestPath: string, body: string, rawHash: string, fetch: Fetch) returns (r: Result<seq<Entry>>)
    ensures HashPath(rawHash).None? ==> r.Err?
    ensures HashPath(rawHash).Some? ==> r == Lookup(manifestPath, body, HashPath(rawHash).value, fetch)
  {
    hide Gather;
    hide DocumentFormat;
    hide ParseManifest;
    hide WithHash;
    hide Matching;
    var clean := HashPath(rawHash);
    if clean.None? { return Err("invalid content hash"); }
    var hash := clean.value;
    var format := DocumentFormat(body);
    if format.Err? { return Err(format.error); }
    if format.value == "" { return Ok(Matching(LegacyEntries(body), hash)); }
    if format.value != MANIFEST_FORMAT { return Err(UNSUPPORTED); }
    var m := ParseManifest(manifestPath, body);
    if m.Err? { return Err(m.error); }
    if !m.value.complete { return Err("hash index manifest is incomplete"); }
    r := ScanPrefix(m.value.shards, hash, hash[7..9], fetch);
  }

  method LoadEntries(manifestPath: string, body: string, fetch: Fetch) returns (r: Result<seq<Entry>>)
    ensures r == Load(manifestPath, body, fetch)
  {
    hide Gather;
    hide FetchShard;
    hide After;
    hide DocumentFormat;
    hide ParseManifest;
    var format := DocumentFormat(body);
    if format.Err? { return Err(format.error); }
    if format.value == "" { return Ok(LegacyEntries(body)); }
    if format.value != MANIFEST_FORMAT { return Err(UNSUPPORTED); }
    var parsed := ParseManifest(manifestPath, body);
    if parsed.Err? { return Err(parsed.error); }
    var m := parsed.value;
    if !m.complete { return Err("hash index manifest is incomplete"); }
    var entries: seq<Entry> := [];
    var k := 0;
    ghost var all := Gather(m.shards, "", fetch);
    assert m.shards[0..] == m.shards;
    AfterAfter([], [], all);
    while k < |m.shards|
      invariant 0 <= k <= |m.shards|
      invariant all == After(entries, Gather(m.shards[k..], "", fetch))
    {
      GatherStep(m.shards, k, "", fetch);
      match FetchShard(m.shards[k], fetch)
      case Err(e) =>
        ErrStays(entries, e, "");
        return Err(e);
      case Ok(shardEntries) =>
        AfterAfter(entries, shardEntries, Gather(m.shards[k + 1..], "", fetch));
        entries := entries + shardEntries;
        k := k + 1;
    }
    GatherEnd(m.shards, "", fetch, "");
    AfterAfter(entries, [], Ok([]));
    if |entries| != m.documents { return Err("manifest document count mismatch"); }
    return Ok(entries);
  }


  // ---------- The text reads back ----------

  lemma FirstKeys()
    ensures Plain("Format") && Plain("Source") && Plain("Indexed") && ':' !in "Format" && ':' !in "Source" && ':' !in "Indexed"
  {
  }

  lemma LastKeys()
    ensures Plain("Complete") && Plain("Documents") && Plain("Active-Slot")
    ensures ':' !in "Complete" && ':' !in "Documents" && ':' !in "Active-Slot"
  {
  }

  lemma FixedValues()
    ensures Plain(MANIFEST_FORMAT) && Plain("true") && Plain("false") && Plain("a") && Plain("b")
  {
  }

  lemma FirstCells()
    ensures Plain("Prefix") && Plain("Path") && Plain("Version") && '|' !in "Prefix" && '|' !in "Path" && '|' !in "Version"
  {
  }

  lemma LastCells()
    ensures Plain("Content Hash") && Plain("Rows") && Plain("Bytes")
    ensures '|' !in "Content Hash" && '|' !in "Rows" && '|' !in "Bytes"
  {
  }

  lemma HeadingPlain()
    ensures Plain(MANIFEST_HEADING)
  {
  }

  lemma ManifestLiterals()
    ensures PlainCells(MANIFEST_HEADER)
  {
    FirstCells();
    LastCells();
    hide Plain;
    assert forall c <- MANIFEST_HEADER :: Plain(c) && '|' !in c;
  }

  lemma ManifestRules()
    ensures Dashes(MANIFEST_RULES)
  {
  }

  lemma SourcePlain(source: string)
    requires ValidSource(source)
    ensures Plain(source)
  {
    TrimSpaceShape(source);
  }

  lemma ManifestPreamble(m: Manifest)
    requires ValidSource(m.source) && (m.activeSlot == "a" || m.activeSlot == "b")
    ensures PlainFields(ManifestFields(m))
  {
    hide Itoa;
    hide Plain;
    hide FormatTime;
    hide ValidSource;
    ItoaTrimmed(m.documents);
    FirstKeys();
    LastKeys();
    FixedValues();
    SourcePlain(m.source);
    TimeReads(m.indexed.utc);
    assert "Format"[0] == 'F' && "Source"[0] == 'S' && "Indexed"[0] == 'I' && "Complete"[0] == 'C' &&
           "Documents"[0] == 'D' && "Active-Slot"[0] == 'A';
  }

  /** The fields of meta are those of m. */
  ghost predicate Describes(meta: map<string, string>, m: Manifest)
  {
    && Value(meta, "Format") == MANIFEST_FORMAT && Value(meta, "Source") == m.source
    && Value(meta, "Indexed") == FormatTime(m.indexed.utc) && Value(meta, "Complete") == FormatBool(m.complete)
    && Value(meta, "Documents") == Itoa(m.documents) && Value(meta, "Active-Slot") == m.activeSlot
  }

  lemma FieldsDescribe(m: Manifest)
    requires PlainFields(ManifestFields(m))
    ensures Describes(Added(map[], ManifestFields(m)), m)
  {
    hide PlainFields;
    hide Added;
    hide Itoa;
    hide FormatTime;
    var fields := ManifestFields(m);
    FieldFound(fields, 0);
    FieldFound(fields, 1);
    FieldFound(fields, 2);
    FieldFound(fields, 3);
    FieldFound(fields, 4);
    FieldFound(fields, 5);
  }

  lemma HeadReads(m: Manifest, rest: seq<string>)
    requires ValidSource(m.source) && (m.activeSlot == "a" || m.activeSlot == "b")
    ensures var lines := ManifestHead(m) + rest;
      && GeneratedMetadata(lines, MANIFEST_HEADING) == Ok(Added(map[], ManifestFields(m)))
      && Describes(Added(map[], ManifestFields(m)), m)
      && TableRows(lines, MANIFEST_HEADER) == DataRows(rest, false, 6)
    ensures forall l <- ManifestHead(m) :: '\n' !in l
  {
    hide PlainFields;
    hide PlainCells;
    hide Dashes;
    hide Plain;
    hide Preamble;
    hide GeneratedMetadata;
    hide TableRows;
    hide DataRows;
    hide Added;
    hide ManifestFields;
    hide Describes;
    hide ValidSource;
    ManifestPreamble(m);
    ManifestLiterals();
    HeadingPlain();
    ManifestRules();
    FieldsDescribe(m);
    assert MANIFEST_HEADING[0] == '#';
    PreambleReads(MANIFEST_HEADING, ManifestFields(m), MANIFEST_HEADER, MANIFEST_RULES, rest);
    PreambleLines(MANIFEST_HEADING, ManifestFields(m), MANIFEST_HEADER, MANIFEST_RULES);
  }

  lemma BoolReads(b: bool)
    ensures ParseBool(FormatBool(b)) == Some(b)
  {
    assert FormatBool(true)[0] == 't' && FormatBool(false)[0] == 'f';
  }

  lemma PositiveReads(n: nat)
    requires 1 <= n <= MAX_INT
    ensures ParsePositive(Itoa(n)) == Some(n)
  {
    AtoiItoa(n);
  }

  /** A row's cells read back, and only a newline in the path breaks its line. */
  lemma RefReads(manifestPath: string, slot: string, r: ShardRef)
    requires ValidRef(manifestPath, slot, r) && r.rows <= MAX_INT
    ensures ParseRef(RefCells(r)) == Some(r)
    ensures forall c <- RefCells(r) :: '|' !in c
    ensures '\n' !in r.prefix && ('\n' !in r.path ==> '\n' !in RefLine(r))
  {
    hide Atoi;
    hide Itoa;
    hide TableRow;
    hide EncodeCell;
    hide DecodeCell;
    hide ParsePositive;
    hide HashPath;
    PositiveReads(r.version);
    PositiveReads(r.rows);
    PositiveReads(r.bytes);
    ItoaTrimmed(r.version);
    ItoaTrimmed(r.rows);
    ItoaTrimmed(r.bytes);
    CellRoundTrip(r.path);
    HashShape(r.contentHash);
    PrefixPlain(r.prefix);
    NoBars(r.prefix);
    if '\n' !in r.path { RowNewline(RefCells(r)); }
  }

  lemma NoBars(prefix: string)
    requires ValidPrefix(prefix)
    ensures '|' !in prefix
  {
  }

  lemma RefLinesStep(refs: seq<ShardRef>)
    requires refs != []
    ensures RefLines(refs) == [RefLine(refs[0])] + RefLines(refs[1..])
  {
  }

  lemma ParseRefsStep(r: ShardRef, rows: seq<seq<string>>)
    requires ParseRef(RefCells(r)) == Some(r) && forall k :: 0 <= k < |rows| ==> |rows[k]| == 6
    ensures ParseRefs([RefCells(r)] + rows) == match ParseRefs(rows) case Err(e) => Err(e) case Ok(rest) => Ok([r] + rest)
  {
    hide ParseRef;
    hide RefCells;
    assert ([RefCells(r)] + rows)[1..] == rows;
  }

  ghost predicate GoodRefs(manifestPath: string, slot: string, refs: seq<ShardRef>) {
    forall k :: 0 <= k < |refs| ==> ValidRef(manifestPath, slot, refs[k]) && refs[k].rows <= MAX_INT
  }

  predicate OneLine(refs: seq<ShardRef>) { forall k :: 0 <= k < |refs| ==> '\n' !in refs[k].path }

  /** Descriptors without a newline in their path read back, in order. */
  lemma {:induction false} RefsRead(manifestPath: string, slot: string, refs: seq<ShardRef>)
    requires GoodRefs(manifestPath, slot, refs) && OneLine(refs)
    ensures var r := DataRows(RefLines(refs) + [""], false, 6);
      r.Ok? && (forall k :: 0 <= k < |r.value| ==> |r.value[k]| == 6) && ParseRefs(r.value) == Ok(refs)
    ensures forall l <- RefLines(refs) :: '\n' !in l
  {
    hide DataRows;
    hide ValidRef;
    hide ParseRef;
    hide RefLine;
    hide RefCells;
    if refs == [] {
      assert RefLines(refs) + [""] == [""];
      DataRowsEnd(6);
    } else {
      var r := refs[0];
      RefsRead(manifestPath, slot, refs[1..]);
      RefReads(manifestPath, slot, r);
      RefLinesStep(refs);
      var tail := RefLines(refs[1..]) + [""];
      hide RefLines;
      assert RefLines(refs) + [""] == [RefLine(r)] + tail;
      RefRow(r);
      DataRowsStep(RefCells(r), tail);
      var rows := DataRows(tail, false, 6).value;
      ParseRefsStep(r, rows);
      assert [r] + refs[1..] == refs;
    }
  }

  lemma RefRow(r: ShardRef)
    ensures |RefCells(r)| == 6 && RefLine(r) == TableRow(RefCells(r))
    ensures RefCells(r)[0] == r.prefix && RefCells(r)[1] == EncodeCell(r.path)
  {
  }

  /** A shard's path is absolute. */
  lemma RefRooted(manifestPath: string, slot: string, r: ShardRef)
    requires ValidManifestPath(manifestPath) && ValidRef(manifestPath, slot, r)
    ensures r.path != "" && r.path[0] == '/'
  {
    hide Clean;
    RootRooted(manifestPath);
    var dir := ShardRoot(manifestPath) + "/" + slot;
    assert dir[0] == '/' && dir[..1] == "/";
    DirRooted(r.path);
  }

  lemma RootRooted(manifestPath: string)
    requires HasPrefix(manifestPath, "/")
    ensures ShardRoot(manifestPath) != "" && ShardRoot(manifestPath)[0] == '/'
  {
    assert manifestPath[0] == manifestPath[..1][0] == '/';
    if HasSuffix(manifestPath, ".md") {
      assert manifestPath[|manifestPath| - 3] == manifestPath[|manifestPath| - 3..][0] == '.';
    }
  }

  /** One path with a newline, and the table is refused. */
  lemma {:induction false} RefsBroken(manifestPath: string, slot: string, refs: seq<ShardRef>)
    requires ValidManifestPath(manifestPath) && GoodRefs(manifestPath, slot, refs) && !OneLine(refs)
    ensures DataRows(Split(Terminated(RefLines(refs)), '\n'), false, 6).Err?
    decreases |refs|
  {
    hide DataRows;
    hide ValidManifestPath;
    hide ValidRef;
    hide ParseRef;
    hide RefLine;
    hide RefCells;
    hide Split;
    hide EncodeCell;
    var r := refs[0];
    var rest := Terminated(RefLines(refs[1..]));
    RefLinesStep(refs);
    RefReads(manifestPath, slot, r);
    RefRow(r);
    hide RefLines;
    assert Terminated(RefLines(refs)) == RefLine(r) + "\n" + rest;
    if '\n' in r.path {
      RefRooted(manifestPath, slot, r);
      EncodeKeeps(r.path);
      BrokenRow(RefCells(r), rest, 6);
    } else {
      RefsBroken(manifestPath, slot, refs[1..]);
      SplitHead(RefLine(r), '\n', rest);
      DataRowsStep(RefCells(r), Split(rest, '\n'));
    }
  }

  lemma TotalsFit(refs: seq<ShardRef>, k: nat)
    requires k < |refs|
    ensures refs[k].rows <= SumRows(refs)
  {
    assert refs[..k + 1] == refs[..k] + [refs[k]];
    SumRowsSnoc(refs[..k], refs[k]);
    SumRowsGrows(refs, k + 1);
  }

  lemma ValidRefsGood(manifestPath: string, m: Manifest)
    requires ValidManifest(manifestPath, m)
    ensures GoodRefs(manifestPath, m.activeSlot, m.shards)
  {
    hide ValidRef;
    hide ValidManifestPath;
    forall k | 0 <= k < |m.shards| ensures m.shards[k].rows <= MAX_INT { TotalsFit(m.shards, k); }
  }

  /** The manifest's lines, and what its table gives. */
  lemma ManifestLines(manifestPath: string, m: Manifest)
    requires ValidManifest(manifestPath, m)
    ensures var lines := Split(ManifestText(m), '\n');
      && GeneratedMetadata(lines, MANIFEST_HEADING) == Ok(Added(map[], ManifestFields(m)))
      && Describes(Added(map[], ManifestFields(m)), m)
      && FirstNonEmptyLine(lines) == MANIFEST_HEADING
      && if OneLine(m.shards) then ParseTable(lines) == Ok(m.shards) else ParseTable(lines).Err?
  {
    hide ValidShards;
    hide ValidSource;
    hide ValidManifestPath;
    hide OneLine;
    hide Split;
    hide DataRows;
    hide TableRows;
    hide ManifestHead;
    hide GeneratedMetadata;
    hide Added;
    hide ManifestFields;
    hide Describes;
    hide ParseRefs;
    hide Terminated;
    hide RefLines;
    var rows := Split(Terminated(RefLines(m.shards)), '\n');
    HeadReads(m, rows);
    SplitLinesOff(ManifestHead(m), Terminated(RefLines(m.shards)));
    HeadingFirst(m, rows);
    ValidRefsGood(manifestPath, m);
    if OneLine(m.shards) {
      RefsRead(manifestPath, m.activeSlot, m.shards);
      SplitTerminated(RefLines(m.shards));
    } else {
      RefsBroken(manifestPath, m.activeSlot, m.shards);
    }
  }

  lemma HeadingFirst(m: Manifest, rest: seq<string>)
    ensures FirstNonEmptyLine(ManifestHead(m) + rest) == MANIFEST_HEADING
  {
    HeadingPlain();
    hide ManifestFields;
    hide TableRow;
    hide BarLine;
    TrimmedUnchanged(MANIFEST_HEADING);
    assert (ManifestHead(m) + rest)[0] == MANIFEST_HEADING;
  }

  /** What a reader gets of m: times are printed in UTC and to the second. */
  function AsRead(m: Manifest): Manifest { m.(indexed := Moment(Whole(m.indexed.utc), 0)) }

  /** The times that read back: what matters is the year in UTC, whatever the year where the time was taken. */
  predicate ReadsBack(t: Moment) { 1 <= t.utc.year <= 9999 && Whole(t.utc) != ZERO_TIME }

  lemma AsReadValid(manifestPath: string, m: Manifest)
    requires ValidManifest(manifestPath, m)
    ensures ValidManifest(manifestPath, AsRead(m)) <==> ReadsBack(m.indexed)
  {
    UtcYear(Whole(m.indexed.utc));
    hide OwnYear;
    hide ValidRef;
    hide PartsOf;
    hide ValidManifestPath;
    hide ValidSource;
    hide SumRows;
  }

  lemma DocumentsRead(manifestPath: string, m: Manifest)
    requires ValidManifest(manifestPath, m)
    ensures Atoi(Itoa(m.documents)) == Some(m.documents)
  {
    AtoiItoa(m.documents);
  }

  lemma SortedOneLine(m: Manifest)
    ensures OneLine(SortedRefs(m).shards) <==> OneLine(m.shards)
  {
    hide RefLeq;
    var sorted := SortRefs(m.shards);
    SortHolds(RefLeq, m.shards);
    forall k | 0 <= k < |sorted| ensures sorted[k] in m.shards { assert sorted[k] in multiset(m.shards); }
    forall k | 0 <= k < |m.shards| ensures m.shards[k] in sorted { assert m.shards[k] in multiset(sorted); }
  }

  /**
   * What BuildManifest prints, ParseManifest reads back, shards in order, exactly when the time
   * lies in the years 1 to 9999 of UTC but not in the first second of them, and no shard path has
   * a newline in it. BuildManifest checks none of this: it looks at the year in the time's own zone
   * and at the zero instant only, and a newline can hide in a path's ".." segments.
   */
  lemma ManifestRoundTrip(manifestPath: string, m: Manifest)
    requires Built(manifestPath, m).Ok?
    ensures var read := ParseManifest(manifestPath, Built(manifestPath, m).value);
      if ReadsBack(m.indexed) && OneLine(m.shards) then read == Ok(AsRead(SortedRefs(m))) else read.Err?
    ensures DocumentFormat(Built(manifestPath, m).value) == Ok(MANIFEST_FORMAT)
  {
    hide ValidManifest;
    hide ValidManifestPath;
    hide ManifestText;
    hide ManifestFields;
    hide GeneratedMetadata;
    hide Added;
    hide Split;
    hide Len;
    hide Atoi;
    hide Itoa;
    hide ParseTime;
    hide FormatTime;
    hide ParseBool;
    hide FormatBool;
    hide ParseTable;
    hide OneLine;
    hide SortRefs;
    hide FirstNonEmptyLine;
    hide OwnYear;
    var s := SortedRefs(m);
    SortedOneLine(m);
    ManifestLines(manifestPath, s);
    TimeReads(s.indexed.utc);
    BoolReads(s.complete);
    DocumentsRead(manifestPath, s);
    AsReadValid(manifestPath, s);
  }

  lemma RefsInOrder(a: ShardArtifact, chunk: seq<Entry>, b: ShardArtifact, next: seq<Entry>, v: nat, w: nat,
                    manifestPath: string, slot: string, target: nat)
    requires IsShard(a, manifestPath, slot, chunk, target) && IsShard(b, manifestPath, slot, next, target)
    requires Follows(a, chunk, b, next, target) && a.part <= MAX_INT && b.part <= MAX_INT
    ensures RefLeq(a.Ref(v), b.Ref(w))
  {
    hide ShardText;
    hide ShardPath;
    hide ParseShardFile;
    hide ValidEntry;
    hide Len;
    hide Base;
    hide Full;
    ShardPathReads(manifestPath, slot, a.prefix, a.part);
    ShardPathReads(manifestPath, slot, b.prefix, b.part);
  }

  /** The descriptors come out of BuildShards in manifest order already. */
  lemma RefsSorted(arts: seq<ShardArtifact>, chunks: seq<seq<Entry>>, versions: seq<nat>, manifestPath: string,
                   slot: string, target: nat, entries: seq<Entry>)
    requires IsSharding(arts, chunks, manifestPath, slot, target, entries) && |versions| == |arts|
    requires |entries| <= MAX_INDEX_ENTRIES
    ensures SortRefs(Refs(arts, versions)) == Refs(arts, versions)
  {
    hide IsShard;
    hide Follows;
    hide RefLeq;
    hide Sort;
    var refs := Refs(arts, versions);
    PartsBounded(arts, chunks, manifestPath, slot, target, entries);
    forall k | 0 <= k < |refs| - 1 ensures RefLeq(refs[k], refs[k + 1]) {
      assert Follows(arts[k], chunks[k], arts[k + 1], chunks[k + 1], target);
      RefsInOrder(arts[k], chunks[k], arts[k + 1], chunks[k + 1], versions[k], versions[k + 1], manifestPath, slot, target);
    }
    SortedStays(RefLeq, refs);
  }

  /** Prefix first, then part. */
  ghost predicate Precedes(a: ShardArtifact, b: ShardArtifact) {
    if a.prefix == b.prefix then a.part < b.part else LexLeq(a.prefix, b.prefix)
  }

  lemma PrecedesAll(a: ShardArtifact, b: ShardArtifact, c: ShardArtifact)
    requires Precedes(a, b) && Precedes(b, c)
    ensures Precedes(a, c)
  {
    LexTotal(a.prefix, b.prefix);
    LexTotal(b.prefix, c.prefix);
    if LexLeq(a.prefix, b.prefix) && LexLeq(b.prefix, c.prefix) { LexTransitive(a.prefix, b.prefix, c.prefix); }
  }

  lemma {:induction false} InPrefixOrder(arts: seq<ShardArtifact>, chunks: seq<seq<Entry>>, target: nat, i: nat, j: nat)
    requires i < j < |arts| == |chunks|
    requires forall k :: 0 <= k < |arts| - 1 ==> Follows(arts[k], chunks[k], arts[k + 1], chunks[k + 1], target)
    ensures Precedes(arts[i], arts[j])
    decreases j
  {
    hide Full;
    hide LexLeq;
    assert Follows(arts[j - 1], chunks[j - 1], arts[j - 1 + 1], chunks[j - 1 + 1], target);
    assert Precedes(arts[j - 1], arts[j]);
    if i < j - 1 {
      InPrefixOrder(arts, chunks, target, i, j - 1);
      PrecedesAll(arts[i], arts[j - 1], arts[j]);
    }
  }

  /** A shard with part p of a prefix comes after shards with every smaller part of it. */
  lemma {:induction false} PartsBelow(arts: seq<ShardArtifact>, chunks: seq<seq<Entry>>, target: nat, j: nat, part: nat)
    requires j < |arts| == |chunks| && part <= arts[j].part && arts[0].part == 0
    requires forall k :: 0 <= k < |arts| - 1 ==> Follows(arts[k], chunks[k], arts[k + 1], chunks[k + 1], target)
    ensures exists i :: 0 <= i < |arts| && arts[i].prefix == arts[j].prefix && arts[i].part == part
  {
    hide Full;
    hide LexLeq;
    if part < arts[j].part {
      assert Follows(arts[j - 1], chunks[j - 1], arts[j - 1 + 1], chunks[j - 1 + 1], target);
      PartsBelow(arts, chunks, target, j - 1, part);
    }
  }

  function Below(n: nat): set<nat> { if n == 0 then {} else Below(n - 1) + {n - 1} }

  lemma {:induction false} CountBelow(n: nat)
    ensures |Below(n)| == n && forall p: nat :: p in Below(n) <==> p < n
  {
    if n > 0 { CountBelow(n - 1); }
  }

  /** A finite downward-closed set of parts is 0..n-1. */
  lemma NoPartMissing(parts: set<nat>, part: nat)
    requires (forall p <- parts, q: nat :: q <= p ==> q in parts) && part < |parts|
    ensures part in parts
  {
    if part !in parts {
      CountBelow(part);
      assert parts <= Below(part);
      Smaller(parts, Below(part));
    }
  }

  lemma Smaller<T>(a: set<T>, b: set<T>)
    requires a <= b
    ensures |a| <= |b|
  {
    assert b == a + (b - a);
  }

  /** The segments of a shard root. */
  lemma RootSegments(manifestPath: string) returns (segments: seq<string>)
    requires HasPrefix(manifestPath, "/") && Clean(manifestPath) == manifestPath && manifestPath != "/"
    ensures segments != [] && AllSegments(segments) && ShardRoot(manifestPath) == Rooted(segments)
  {
    hide Clean;
    hide Rooted;
    var all := CleanSegments(manifestPath);
    var n := |all| - 1;
    var front, last := all[..n], all[n];
    assert all == front + [last];
    RootedAppend(front, [last]);
    OneSegment(last);
    var stem := TrimSuffix(last, ".md") + ".shards";
    segments := front + [stem];
    RootedAppend(front, [stem]);
    OneSegment(stem);
    StemSegment(last);
    SuffixOfLast(Rooted(front) + "/", last);
    hide TrimSuffix;
    Regrouped(Rooted(front), "/", last, "");
    Regrouped(Rooted(front), "/", TrimSuffix(last, ".md"), ".shards");
  }

  lemma OneSegment(segment: string)
    ensures Rooted([segment]) == "/" + segment
  {
    assert [segment][1..] == [];
  }

  lemma Regrouped(a: string, b: string, c: string, d: string)
    ensures a + (b + (c + d)) == a + b + c + d && c + "" == c
  {
  }

  lemma StemSegment(last: string)
    requires Segment(last)
    ensures Segment(TrimSuffix(last, ".md") + ".shards")
  {
  }

  lemma SuffixOfLast(front: string, last: string)
    requires front != "" && front[|front| - 1] == '/'
    ensures TrimSuffix(front + last, ".md") == front + TrimSuffix(last, ".md")
  {
    var s := front + last;
    if |last| >= 3 {
      assert s[|s| - 3..] == last[|last| - 3..];
      if HasSuffix(last, ".md") { assert s[..|s| - 3] == front + last[..|last| - 3]; }
    } else if HasSuffix(s, ".md") {
      assert s[|s| - 3..][2 - |last|] == '/';
    }
  }

  /** A shard lies directly in its slot of the manifest's shard root. */
  lemma ShardDir(manifestPath: string, slot: string, prefix: string, part: nat)
    requires ValidManifestPath(manifestPath) && (slot == "a" || slot == "b") && ValidPrefix(prefix) && part <= MAX_INT
    ensures Dir(ShardPath(manifestPath, slot, prefix, part)) == ShardRoot(manifestPath) + "/" + slot
    ensures Base(ShardPath(manifestPath, slot, prefix, part)) == ShardFile(prefix, part)
  {
    hide Clean;
    hide Rooted;
    hide ShardFile;
    hide Base;
    hide ValidRequestPath;
    ManifestPathClean(manifestPath);
    var segments := RootSegments(manifestPath);
    var root, dir := ShardRoot(manifestPath), ShardRoot(manifestPath) + "/" + slot + "/";
    ShardFileReads(prefix, part);
    SplitFileIs(dir, ShardFile(prefix, part));
    BaseIs(dir, ShardFile(prefix, part));
    RootedAppend(segments, [slot]);
    OneSegment(slot);
    assert Rooted(segments + [slot]) == root + "/" + slot;
    CleanRooted(segments + [slot]);
  }

  lemma ManifestPathClean(manifestPath: string)
    requires ValidManifestPath(manifestPath)
    ensures HasPrefix(manifestPath, "/") && Clean(manifestPath) == manifestPath && manifestPath != "/"
    ensures !HasControl(manifestPath)
  {
  }

  lemma RefIsValid(a: ShardArtifact, version: nat, chunk: seq<Entry>, manifestPath: string, slot: string, target: nat)
    requires IsShard(a, manifestPath, slot, chunk, target) && a.part <= MAX_INT && target <= MAX_INT
    requires ValidManifestPath(manifestPath) && (slot == "a" || slot == "b") && 1 <= version <= MAX_INT
    ensures ValidRef(manifestPath, slot, a.Ref(version))
    ensures ParseShardFile(Base(a.path)) == Some((a.prefix, a.part)) && '\n' !in a.path
  {
    hide ShardText;
    hide ValidEntry;
    hide ParseShardFile;
    hide Base;
    hide Dir;
    hide Len;
    hide ShardFile;
    hide ShardPath;
    hide ValidManifestPath;
    ShardDir(manifestPath, slot, a.prefix, a.part);
    ShardFileReads(a.prefix, a.part);
    ContentHashShape(a.body);
    HashIsPath(ContentHash(a.body));
    ShardNotEmpty(a.prefix, a.part, chunk);
    PathOneLine(manifestPath, slot, a.prefix, a.part);
  }

  lemma RootOneLine(manifestPath: string)
    requires !HasControl(manifestPath)
    ensures '\n' !in ShardRoot(manifestPath)
  {
    assert '\n' !in manifestPath;
  }

  lemma FileOneLine(prefix: string, part: nat)
    requires ValidPrefix(prefix)
    ensures '\n' !in ShardFile(prefix, part)
  {
    hide Itoa;
    PrefixPlain(prefix);
    assert '\n' !in Itoa(part);
  }

  lemma PathOneLine(manifestPath: string, slot: string, prefix: string, part: nat)
    requires ValidManifestPath(manifestPath) && (slot == "a" || slot == "b") && ValidPrefix(prefix)
    ensures '\n' !in ShardPath(manifestPath, slot, prefix, part)
  {
    hide Itoa;
    hide Clean;
    hide Len;
    ManifestPathClean(manifestPath);
    RootOneLine(manifestPath);
    hide ShardRoot;
    FileOneLine(prefix, part);
    hide ShardFile;
  }

  lemma HashIsPath(hash: string)
    requires ValidStoredHash(hash)
    ensures HashPath(hash) == Some(hash)
  {
    assert hash[0] == hash[..7][0] == 's' && hash[..1][0] == hash[0];
    assert TrimPrefix(hash, "/") == hash;
  }

  lemma ShardNotEmpty(prefix: string, part: nat, chunk: seq<Entry>)
    ensures Len(ShardText(prefix, part, chunk)) >= 1
  {
    hide Itoa;
    hide RowLine;
    var lines := HeaderLines(prefix, part, |chunk|);
    assert |ShardText(prefix, part, chunk)| >= |Terminated(lines)|;
  }

  lemma {:induction false} RowsTotal(arts: seq<ShardArtifact>, versions: seq<nat>, chunks: seq<seq<Entry>>)
    requires |arts| == |versions| == |chunks| && forall k :: 0 <= k < |arts| ==> arts[k].rows == |chunks[k]|
    ensures SumRows(Refs(arts, versions)) == |Flat(chunks)|
  {
    if arts != [] {
      assert Refs(arts, versions)[1..] == Refs(arts[1..], versions[1..]);
      RowsTotal(arts[1..], versions[1..], chunks[1..]);
    }
  }

  lemma {:induction false} DistinctPaths(arts: seq<ShardArtifact>, chunks: seq<seq<Entry>>, manifestPath: string, slot: string,
                                         target: nat, entries: seq<Entry>, i: nat, j: nat)
    requires IsSharding(arts, chunks, manifestPath, slot, target, entries) && |entries| <= MAX_INDEX_ENTRIES
    requires i < j < |arts|
    ensures arts[i].path != arts[j].path
  {
    hide ShardText;
    hide ShardPath;
    hide ParseShardFile;
    hide Base;
    hide ValidEntry;
    hide LexLeq;
    hide Follows;
    hide Flat;
    PartsBounded(arts, chunks, manifestPath, slot, target, entries);
    InPrefixOrder(arts, chunks, target, i, j);
    assert IsShard(arts[i], manifestPath, slot, chunks[i], target) && IsShard(arts[j], manifestPath, slot, chunks[j], target);
    ShardPathReads(manifestPath, slot, arts[i].prefix, arts[i].part);
    ShardPathReads(manifestPath, slot, arts[j].prefix, arts[j].part);
  }

  /** A version for each shard. */
  predicate Numbered(arts: seq<ShardArtifact>, versions: seq<nat>) {
    |versions| == |arts| && forall k :: 0 <= k < |arts| ==> 1 <= versions[k] <= MAX_INT
  }

  lemma PartsAreWhole(arts: seq<ShardArtifact>, chunks: seq<seq<Entry>>, versions: seq<nat>, manifestPath: string,
                      slot: string, target: nat, entries: seq<Entry>, j: nat, part: nat)
    requires IsSharding(arts, chunks, manifestPath, slot, target, entries) && |entries| <= MAX_INDEX_ENTRIES
    requires ValidManifestPath(manifestPath) && (slot == "a" || slot == "b") && target <= MAX_INT
    requires Numbered(arts, versions) && j < |arts|
    requires part < |PartsOf(Refs(arts, versions), manifestPath, slot, arts[j].prefix)|
    ensures part in PartsOf(Refs(arts, versions), manifestPath, slot, arts[j].prefix)
  {
    hide IsShard;
    hide ParseShardFile;
    hide Base;
    hide ValidManifestPath;
    hide ValidRef;
    hide Follows;
    hide Flat;
    var refs, prefix := Refs(arts, versions), arts[j].prefix;
    var parts := PartsOf(refs, manifestPath, slot, prefix);
    PartsBounded(arts, chunks, manifestPath, slot, target, entries);
    forall k | 0 <= k < |arts|
      ensures ValidRef(manifestPath, slot, refs[k]) && ParseShardFile(Base(refs[k].path)) == Some((arts[k].prefix, arts[k].part))
    {
      RefIsValid(arts[k], versions[k], chunks[k], manifestPath, slot, target);
    }
    forall p <- parts, q: nat | q <= p ensures q in parts {
      var r :| r in refs && r.prefix == prefix && ValidRef(manifestPath, slot, r) && ParseShardFile(Base(r.path)).value.1 == p;
      var k :| 0 <= k < |refs| && refs[k] == r;
      PartsBelow(arts, chunks, target, k, q);
      var i :| 0 <= i < |arts| && arts[i].prefix == arts[k].prefix && arts[i].part == q;
      assert refs[i] in refs;
    }
    NoPartMissing(parts, part);
  }

  /** The manifest of a generation. */
  function ManifestOf(source: string, indexed: Moment, documents: nat, slot: string, arts: seq<ShardArtifact>, versions: seq<nat>)
    : Manifest
    requires |versions| == |arts|
  {
    Manifest(source, indexed, true, documents, slot, Refs(arts, versions))
  }

  /** The shard list of every sharding passes, whatever versions it was published at. */
  lemma ShardsAccepted(manifestPath: string, slot: string, entries: seq<Entry>, target: int,
                       arts: seq<ShardArtifact>, chunks: seq<seq<Entry>>, versions: seq<nat>, m: Manifest)
    requires Buildable(manifestPath, slot, |entries|, target)
    requires IsSharding(arts, chunks, manifestPath, slot, EffectiveTarget(target), SortEntries(entries))
    requires Numbered(arts, versions)
    requires m.activeSlot == slot && m.documents == |entries| && m.shards == Refs(arts, versions)
    ensures SortedRefs(m) == m && ValidShards(manifestPath, m) && OneLine(m.shards)
  {
    hide IsShard;
    hide Follows;
    hide Flat;
    hide SortEntries;
    hide SortRefs;
    hide ParseShardFile;
    hide Base;
    hide ValidRef;
    hide PartsOf;
    hide ValidManifestPath;
    var sorted, bytes, refs := SortEntries(entries), EffectiveTarget(target), Refs(arts, versions);
    SortEntriesSorts(entries);
    assert |sorted| == |multiset(sorted)| == |entries|;
    RefsSorted(arts, chunks, versions, manifestPath, slot, bytes, sorted);
    PartsBounded(arts, chunks, manifestPath, slot, bytes, sorted);
    forall k | 0 <= k < |arts| ensures ValidRef(manifestPath, slot, refs[k]) && arts[k].rows == |chunks[k]| && '\n' !in refs[k].path {
      RefIsValid(arts[k], versions[k], chunks[k], manifestPath, slot, bytes);
      RowsAre(arts[k], chunks[k], manifestPath, slot, bytes);
    }
    RowsTotal(arts, versions, chunks);
    forall i, j | 0 <= i < j < |refs| ensures refs[i].path != refs[j].path {
      DistinctPaths(arts, chunks, manifestPath, slot, bytes, sorted, i, j);
    }
    forall r, part | r in refs && 0 <= part < |PartsOf(refs, manifestPath, slot, r.prefix)|
      ensures part in PartsOf(refs, manifestPath, slot, r.prefix)
    {
      var j :| 0 <= j < |refs| && refs[j] == r;
      PartsAreWhole(arts, chunks, versions, manifestPath, slot, bytes, sorted, j, part);
    }
  }

  lemma RowsAre(a: ShardArtifact, chunk: seq<Entry>, manifestPath: string, slot: string, target: nat)
    requires IsShard(a, manifestPath, slot, chunk, target)
    ensures a.rows == |chunk|
  {
  }

  /**
   * BuildManifest accepts the manifest of a sharding exactly when its source and time are valid,
   * its shards are within the limit, and its text is at most 1 MiB.
   */
  lemma ManifestAccepted(manifestPath: string, slot: string, entries: seq<Entry>, target: int,
                         arts: seq<ShardArtifact>, chunks: seq<seq<Entry>>, versions: seq<nat>, source: string, indexed: Moment)
    requires Buildable(manifestPath, slot, |entries|, target)
    requires IsSharding(arts, chunks, manifestPath, slot, EffectiveTarget(target), SortEntries(entries))
    requires Numbered(arts, versions)
    ensures var m := ManifestOf(source, indexed, |entries|, slot, arts, versions);
      (Built(manifestPath, m).Ok? <==>
         ValidSource(source) && ValidIndexed(indexed) && |arts| <= MAX_MANIFEST_SHARDS &&
         Len(ManifestText(m)) <= MAX_BODY_LENGTH) &&
      (Built(manifestPath, m).Ok? ==> Built(manifestPath, m).value == ManifestText(m))
  {
    hide IsSharding;
    hide ValidShards;
    hide ValidSource;
    hide ValidManifestPath;
    hide ManifestText;
    hide Len;
    hide SortRefs;
    var m := ManifestOf(source, indexed, |entries|, slot, arts, versions);
    ShardsAccepted(manifestPath, slot, entries, target, arts, chunks, versions, m);
  }

  // ---------- The index answers as a scan of all entries does ----------

  lemma ShardsAre(arts: seq<ShardArtifact>, chunks: seq<seq<Entry>>, manifestPath: string, slot: string, target: nat,
                  entries: seq<Entry>)
    requires IsSharding(arts, chunks, manifestPath, slot, target, entries)
    ensures |arts| == |chunks| && Flat(chunks) == entries
    ensures forall k :: 0 <= k < |arts| ==> IsShard(arts[k], manifestPath, slot, chunks[k], target)
  {
    hide IsShard;
    hide Flat;
    hide Follows;
  }

  lemma ReadsAsScan(manifestPath: string, slot: string, entries: seq<Entry>, target: int,
                    arts: seq<ShardArtifact>, chunks: seq<seq<Entry>>, versions: seq<nat>, fetch: Fetch, hash: string)
    requires Buildable(manifestPath, slot, |entries|, target)
    requires IsSharding(arts, chunks, manifestPath, slot, EffectiveTarget(target), SortEntries(entries))
    requires Published(arts, versions, fetch) && HashPath(hash) == Some(hash) && |hash| == 71
    ensures WithHash(Gather(Refs(arts, versions), hash[7..9], fetch), hash) == Ok(Matching(SortEntries(entries), hash))
    ensures Counted(Gather(Refs(arts, versions), "", fetch), |entries|) == Ok(SortEntries(entries))
  {
    hide IsShard;
    hide Follows;
    hide Flat;
    hide FetchShard;
    hide Gather;
    hide SortEntries;
    hide WithHash;
    hide Matching;
    hide HashPath;
    hide ValidManifestPath;
    var sorted, bytes := SortEntries(entries), EffectiveTarget(target);
    SortEntriesSorts(entries);
    assert |sorted| == |multiset(sorted)| == |entries|;
    PartsBounded(arts, chunks, manifestPath, slot, bytes, sorted);
    ShardsAre(arts, chunks, manifestPath, slot, bytes, sorted);
    hide IsSharding;
    var prefix := hash[7..9];
    forall k | 0 <= k < |arts| ensures FetchShard(arts[k].Ref(versions[k]), fetch) == Ok(chunks[k]) {
      ShardVerifies(arts[k], versions[k], chunks[k], manifestPath, slot, bytes, fetch);
    }
    forall k | 0 <= k < |arts| && arts[k].prefix != prefix ensures forall e <- chunks[k] :: e.hash != hash {
      OtherPrefix(arts[k], chunks[k], manifestPath, slot, bytes, hash);
    }
    GatherFrom(arts, chunks, versions, fetch, hash, prefix, 0);
    var refs := Refs(arts, versions);
    assert refs[0..] == refs && chunks[0..] == chunks;
  }

  /**
   * For every entry list and target that BuildShards accepts, once its shards are published and
   * BuildManifest has printed their manifest with a time that reads back: EntriesForHash, which
   * reads one prefix's shards, finds exactly the sorted entries with that hash, and LoadEntries
   * gives the whole sorted list. With any other time it prints, both refuse.
   */
  lemma IndexAgreesWithScan(manifestPath: string, slot: string, entries: seq<Entry>, target: int,
                            arts: seq<ShardArtifact>, chunks: seq<seq<Entry>>, versions: seq<nat>, fetch: Fetch,
                            source: string, indexed: Moment, hash: string)
    requires Buildable(manifestPath, slot, |entries|, target)
    requires IsSharding(arts, chunks, manifestPath, slot, EffectiveTarget(target), SortEntries(entries))
    requires Published(arts, versions, fetch) && HashPath(hash) == Some(hash) && |hash| == 71
    requires Built(manifestPath, ManifestOf(source, indexed, |entries|, slot, arts, versions)).Ok?
    ensures var text := Built(manifestPath, ManifestOf(source, indexed, |entries|, slot, arts, versions)).value;
      if ReadsBack(indexed) then
        && Lookup(manifestPath, text, hash, fetch) == Ok(Matching(SortEntries(entries), hash))
        && Load(manifestPath, text, fetch) == Ok(SortEntries(entries))
      else Lookup(manifestPath, text, hash, fetch).Err? && Load(manifestPath, text, fetch).Err?
  {
    hide IsSharding;
    hide Gather;
    hide Matching;
    hide WithHash;
    hide SortEntries;
    hide HashPath;
    hide Built;
    hide ParseManifest;
    hide DocumentFormat;
    hide OneLine;
    hide ValidShards;
    hide ValidManifestPath;
    hide SortRefs;
    var m := ManifestOf(source, indexed, |entries|, slot, arts, versions);
    ShardsAccepted(manifestPath, slot, entries, target, arts, chunks, versions, m);
    ManifestRoundTrip(manifestPath, m);
    ReadsAsScan(manifestPath, slot, entries, target, arts, chunks, versions, fetch, hash);
  }

  // ---------- Manifests that are printed and cannot be read ----------

  lemma {:induction false} LenAtMost(s: string)
    ensures Len(s) <= 4 * |s|
  {
    if s != "" { LenAtMost(s[1..]); }
  }

  lemma {:induction false} LinesAtMost(lines: seq<string>, width: nat)
    requires forall k :: 0 <= k < |lines| ==> |lines[k]| <= width
    ensures |Terminated(lines)| <= (width + 1) * |lines|
  {
    if lines != [] {
      LinesAtMost(lines[1..], width);
      assert (width + 1) * |lines| == (width + 1) * |lines[1..]| + (width + 1);
    }
  }

  lemma FourDigits(n: nat)
    ensures |Itoa(n)| <= 4 + |Itoa(n / 10_000)|
  {
    assert n / 10_000 == n / 10 / 10 / 10 / 10;
    OneDigit(n);
    OneDigit(n / 10);
    OneDigit(n / 10 / 10);
    OneDigit(n / 10 / 10 / 10);
  }

  lemma OneDigit(n: nat)
    ensures |Itoa(n)| <= 1 + |Itoa(n / 10)|
  {
  }

  lemma ItoaMax()
    ensures |Itoa(MAX_INT)| <= 21
  {
    hide Itoa;
    FourDigits(MAX_INT);
    FourDigits(MAX_INT / 10_000);
    FourDigits(MAX_INT / 10_000 / 10_000);
    FourDigits(MAX_INT / 10_000 / 10_000 / 10_000);
    FourDigits(MAX_INT / 10_000 / 10_000 / 10_000 / 10_000);
    assert MAX_INT / 10_000 / 10_000 / 10_000 / 10_000 / 10_000 == 0;
    ItoaZero();
  }

  lemma ItoaZero()
    ensures Itoa(0) == "0"
  {
  }

  lemma RequestPath(path: string)
    requires path != "" && path[0] == '/' && |path| <= 1000 && forall c <- path :: c >= ' ' && c != '\U{7f}'
    ensures ValidRequestPath(path)
  {
    LenAtMost(path);
    assert path[..1] == "/";
  }

  lemma ExampleRoot()
    ensures ShardRoot("/i.md") == "/i.shards" && ShardPath("/i.md", "a", "00", 0) == "/i.shards/a/00-000.md"
  {
    assert "/i" + ".md" == "/i.md" && "/i" + ".shards" == "/i.shards";
    ExampleFile();
    hide ShardFile;
    assert "/i.shards" + "/" + "a" + "/" + "00-000.md" == "/i.shards/a/00-000.md";
  }

  lemma ExampleClean()
    ensures Clean("/i.md") == "/i.md"
  {
    hide Clean;
    OneSegment("i.md");
    assert "/" + "i.md" == "/i.md";
    CleanRooted(["i.md"]);
  }

  lemma ExampleRequests(shard: string)
    requires shard == "/i.shards/a/00-000.md"
    ensures ValidRequestPath("/i.md") && ValidRequestPath(shard) && ValidRequestPath(VersionPath(shard, MAX_INT))
  {
    hide ValidRequestPath;
    hide Itoa;
    RequestPath("/i.md");
    RequestPath(shard);
    ItoaMax();
    assert forall c <- Itoa(MAX_INT) :: IsDigit(c);
    RequestPath(VersionPath(shard, MAX_INT));
  }

  /** A manifest path for the examples. */
  lemma ExamplePath()
    ensures ValidManifestPath("/i.md") && ShardRoot("/i.md") == "/i.shards"
  {
    hide ValidRequestPath;
    hide VersionPath;
    hide Clean;
    hide ShardPath;
    hide ShardRoot;
    ExampleRoot();
    ExampleClean();
    ExampleRequests("/i.shards/a/00-000.md");
  }

  lemma ExampleFile()
    ensures ShardFile("00", 0) == "00-000.md"
  {
    ItoaZero();
    hide Itoa;
    assert "00" + "-" + "000" + ".md" == "00-000.md";
  }

  const EXAMPLE_SOURCE := "mark://h"

  lemma ExampleSource()
    ensures ValidSource(EXAMPLE_SOURCE)
  {
    TrimmedUnchanged(EXAMPLE_SOURCE);
  }

  /** Few short lines stay within the body limit. */
  lemma ExampleFits(m: Manifest)
    requires |m.source| <= 100 && 0 <= m.indexed.utc.year <= 10_000 && m.documents <= 1 && |m.activeSlot| <= 1 && |m.shards| <= 1
    requires forall k :: 0 <= k < |m.shards| ==> |RefLine(m.shards[k])| <= 1000
    ensures Len(ManifestText(m)) <= MAX_BODY_LENGTH
  {
    hide RefLine;
    HeadShort(m);
    LinesAtMost(ManifestHead(m), 1000);
    LinesAtMost(RefLines(m.shards), 1000);
    hide Terminated;
    LenAtMost(ManifestText(m));
  }

  lemma HeadShort(m: Manifest)
    requires |m.source| <= 100 && 0 <= m.indexed.utc.year <= 10_000 && m.documents <= 1 && |m.activeSlot| <= 1
    ensures |ManifestHead(m)| == 11 && forall k :: 0 <= k < 11 ==> |ManifestHead(m)[k]| <= 1000
  {
    RulesShort();
    hide TableRow;
    hide BarLine;
    hide FormatTime;
    FieldsShort(m);
    hide ManifestFields;
  }

  lemma RulesShort()
    ensures |TableRow(MANIFEST_HEADER)| <= 1000 && |BarLine(MANIFEST_RULES)| <= 1000
  {
    JoinLength(SpacedAll(MANIFEST_HEADER), "|", 100);
    JoinLength(MANIFEST_RULES, "|", 100);
  }

  lemma {:induction false} JoinLength(parts: seq<string>, sep: string, width: nat)
    requires forall k :: 0 <= k < |parts| ==> |parts[k]| <= width
    ensures |Join(parts, sep)| <= (width + |sep|) * |parts|
  {
    if |parts| > 1 {
      JoinLength(parts[1..], sep, width);
      assert (width + |sep|) * |parts| == (width + |sep|) * |parts[1..]| + (width + |sep|);
    }
  }

  lemma FieldsShort(m: Manifest)
    requires |m.source| <= 100 && 0 <= m.indexed.utc.year <= 10_000 && m.documents <= 1 && |m.activeSlot| <= 1
    ensures |ManifestFields(m)| == 6
    ensures forall k :: 0 <= k < 6 ==> |FieldLine(ManifestFields(m)[k])| <= 1000
  {
    TimeShort(m.indexed.utc);
    hide FormatTime;
    assert |Itoa(m.documents)| == 1;
  }

  lemma TimeShort(t: Instant)
    requires 0 <= t.year <= 10_000
    ensures |FormatTime(t)| <= 21
  {
    if t.year == 10_000 {
      FourDigits(10_000);
      assert |Itoa(1)| == 1;
    }
    hide Itoa;
  }

  /** Printed, and refused when read. */
  predicate Lost(manifestPath: string, m: Manifest) {
    Built(manifestPath, m).Ok? && ParseManifest(manifestPath, Built(manifestPath, m).value).Err?
  }

  /** A manifest without shards. */
  function Dated(t: Moment): Manifest { Manifest(EXAMPLE_SOURCE, t, true, 0, "a", []) }

  /** A manifest with no shards is printed whenever its time passes; the zone may hide a year out of range. */
  lemma TimeLost(t: Moment)
    requires ValidIndexed(t) && 0 <= t.utc.year <= 10_000 && !ReadsBack(t)
    ensures Lost("/i.md", Dated(t))
  {
    hide ValidManifestPath;
    hide ManifestText;
    hide ParseManifest;
    hide Len;
    hide ValidSource;
    hide ValidIndexed;
    hide ReadsBack;
    var m := Dated(t);
    ExamplePath();
    ExampleSource();
    ExampleFits(m);
    ManifestRoundTrip("/i.md", m);
  }

  /** A time within the first second of year 1 is not zero, but is printed as zero. */
  lemma FirstSecondLost(nanos: nat)
    requires 0 < nanos < 1_000_000_000
    ensures Lost("/i.md", Dated(Moment(Time(1, 1, 1, 0, 0, 0, nanos), 0)))
  {
    hide Lost;
    hide Dated;
    hide YearAfter;
    var t := Moment(Time(1, 1, 1, 0, 0, 0, nanos), 0);
    UtcYear(t.utc);
    TimeLost(t);
  }

  /** The last evening of the year 9999, five hours behind UTC: the year 10000 is printed. */
  lemma LastEveningLost()
    ensures Lost("/i.md", Dated(Moment(Time(10_000, 1, 1, 4, 0, 0, 0), -5 * 3600)))
  {
    hide Lost;
    hide Dated;
    var t := Moment(Time(10_000, 1, 1, 4, 0, 0, 0), -5 * 3600);
    assert OwnYear(t) == YearAfter(10_000, 1, 1, -1) == 9999;
    TimeLost(t);
  }

  /** The first morning of the year 1, ten hours ahead of UTC: the year 0 is printed. */
  lemma FirstMorningLost()
    ensures Lost("/i.md", Dated(Moment(Time(0, 12, 31, 19, 0, 0, 0), 10 * 3600)))
  {
    hide Lost;
    hide Dated;
    var t := Moment(Time(0, 12, 31, 19, 0, 0, 0), 10 * 3600);
    assert OwnYear(t) == YearAfter(0, 12, 31, 1) == 1;
    TimeLost(t);
  }

  /** In a zone less than a day off UTC, the years at stake are 0 and 10000, and ReadsBack is otherwise about one second. */
  lemma ZoneYears(t: Moment)
    requires ValidIndexed(t) && -86_400 < t.offset < 86_400
    ensures ReadsBack(t) <==> t.utc.year != 0 && t.utc.year != 10_000 && Whole(t.utc) != ZERO_TIME
  {
    hide DaysIn;
    var days := (SecondOfDay(t.utc) + t.offset) / 86_400;
    assert -1 <= days <= 1;
    OneDay(t.utc, days);
  }

  lemma OneDay(t: Instant, days: int)
    requires -1 <= days <= 1
    ensures t.year - 1 <= YearAfter(t.year, t.month, t.day, days) <= t.year + 1
  {
  }

  const HIDDEN_DIR := "/i.shards/a/x" + "\n" + "/../"
  const HIDDEN := HIDDEN_DIR + "00-000.md"

  function HiddenRef(): ShardRef { ShardRef("00", HIDDEN, 1, ContentHash(""), 1, 1) }

  /** path.Dir cleans the newline away together with the segment it is in. */
  lemma HiddenDir()
    ensures Dir(HIDDEN) == "/i.shards/a" && Base(HIDDEN) == "00-000.md"
  {
    hide Clean;
    hide Base;
    assert HIDDEN_DIR[|HIDDEN_DIR| - 1] == '/';
    SplitFileIs(HIDDEN_DIR, "00-000.md");
    BaseIs(HIDDEN_DIR, "00-000.md");
    HiddenClean();
  }

  lemma HiddenClean()
    ensures Clean(HIDDEN_DIR) == "/i.shards/a"
  {
    hide Reduce;
    hide Split;
    hide Rooted;
    var kept, gone, up := ["i.shards", "a"], ["x\n"], ["..", ""];
    HiddenRooted(kept, gone, up);
    SplitRooted("", kept + gone + up);
    assert "" + HIDDEN_DIR == HIDDEN_DIR;
    ReduceEmpty(kept + gone + up, [], true);
    ReducePlain(kept + gone, up, [], true);
    assert kept + gone + up == (kept + gone) + up && [] + (kept + gone) == kept + gone;
    UpOne(kept, "x\n");
    assert Reduce(Split(HIDDEN_DIR, '/'), [], true) == kept;
    assert HIDDEN_DIR[..1] == "/";
  }

  lemma HiddenRooted(kept: seq<string>, gone: seq<string>, up: seq<string>)
    requires kept == ["i.shards", "a"] && gone == ["x\n"] && up == ["..", ""]
    ensures Rooted(kept) == "/i.shards/a" && Rooted(kept + gone + up) == HIDDEN_DIR
  {
    RootedTwo("i.shards", "a");
    RootedTwo("..", "");
    RootedAppend(kept, gone);
    RootedAppend(kept + gone, up);
    OneSegment("x\n");
    hide Rooted;
    assert "/" + "i.shards" + ("/" + "a") == "/i.shards/a";
    assert "/i.shards/a" + ("/" + "x\n") + ("/" + ".." + ("/" + "")) == HIDDEN_DIR;
  }

  lemma RootedTwo(a: string, b: string)
    ensures Rooted([a, b]) == "/" + a + ("/" + b)
  {
    assert [a, b][1..] == [b];
    OneSegment(b);
  }

  lemma UpOne(kept: seq<string>, last: string)
    requires Segment(last)
    ensures Reduce(["..", ""], kept + [last], true) == kept
  {
    assert ["..", ""][1..] == [""];
    assert (kept + [last])[..|kept + [last]| - 1] == kept;
    ReduceEmpty([], kept, true);
  }

  lemma HiddenName()
    ensures ParseShardFile(Base(HIDDEN)) == Some(("00", 0)) && '\n' in HIDDEN
  {
    hide Dir;
    hide Base;
    hide ParseShardFile;
    HiddenDir();
    ExampleFile();
    ZeroPrefix();
    hide ShardFile;
    ShardFileReads("00", 0);
    assert '\n' in HIDDEN_DIR;
  }

  lemma ZeroPrefix()
    ensures ValidPrefix("00")
  {
  }

  lemma HiddenHash()
    ensures HashPath(ContentHash("")) == Some(ContentHash(""))
  {
    ContentHashShape("");
    HashIsPath(ContentHash(""));
  }

  lemma HiddenValid()
    ensures ValidRef("/i.md", "a", HiddenRef()) && '\n' in HiddenRef().path && HiddenRef().rows == 1
    ensures PartOf(HiddenRef()) == 0
  {
    hide Dir;
    hide Base;
    hide ParseShardFile;
    hide ShardRoot;
    hide HashPath;
    hide ValidPrefix;
    ExamplePath();
    hide ValidManifestPath;
    assert "/i.shards" + "/" + "a" == "/i.shards/a";
    HiddenDir();
    HiddenName();
    HiddenHash();
    ZeroPrefix();
  }

  /** A single shard, numbered zero. */
  lemma OneShard(r: ShardRef)
    requires ValidRef("/i.md", "a", r) && PartOf(r) == 0
    ensures SumRows([r]) == r.rows && WholeParts([r], "/i.md", "a")
  {
    hide ValidRef;
    hide PartOf;
    assert [r][1..] == [];
    PartsSnoc([], r, "/i.md", "a", r.prefix);
    assert [] + [r] == [r];
  }

  lemma HiddenShards(m: Manifest)
    requires m.shards == [HiddenRef()] && m.documents == 1 && m.activeSlot == "a"
    ensures ValidShards("/i.md", m) && SortedRefs(m) == m && !OneLine(m.shards)
  {
    HiddenValid();
    hide ValidRef;
    hide ParseShardFile;
    hide Base;
    hide HiddenRef;
    var refs := m.shards;
    OneShard(HiddenRef());
    SortedStays(RefLeq, refs);
    assert '\n' in refs[0].path;
  }

  lemma HiddenShort()
    ensures |RefLine(HiddenRef())| <= 1000
  {
    EncodeLength(HIDDEN);
    hide EncodeCell;
    assert |Itoa(1)| == 1 && |ContentHash("")| == 71;
    var cells := RefCells(HiddenRef());
    JoinLength(SpacedAll(cells), "|", 100);
  }

  lemma EncodeLength(s: string)
    ensures |EncodeCell(s)| <= 3 * |s|
  {
    EncodeEscapes(s);
    EscapedLength(s);
  }

  lemma {:induction false} EscapedLength(s: string)
    ensures |Escaped(s, true, true, true)| <= 3 * |s|
  {
    if s != "" { EscapedLength(s[1..]); }
  }

  /** A newline in a segment that ".." cancels passes every check and breaks its row in two, whatever the time. */
  lemma NewlineLost(t: Moment)
    requires ValidIndexed(t) && ReadsBack(t)
    ensures Lost("/i.md", Manifest(EXAMPLE_SOURCE, t, true, 1, "a", [HiddenRef()]))
  {
    hide ValidManifestPath;
    hide ManifestText;
    hide ParseManifest;
    hide Len;
    hide ValidSource;
    hide ValidShards;
    hide SortRefs;
    hide OneLine;
    hide RefLine;
    hide OwnYear;
    var m := Manifest(EXAMPLE_SOURCE, t, true, 1, "a", [HiddenRef()]);
    ExamplePath();
    ExampleSource();
    HiddenShards(m);
    HiddenShort();
    ExampleFits(m);
    ManifestRoundTrip("/i.md", m);
  }
}
