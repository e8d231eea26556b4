// The text of generated documents: client/index/sharded.go, lines 499-581 and 708-773.
//
// A heading, "> Key: value" lines and one table. What is printed this way reads back.
module Tables {
  import opened Wrappers
  import opened Text

  // ---------- Cells ----------

  /** strings.ReplaceAll for a non-empty old. */
  function ReplaceAll(s: string, old_: string, by_: string): string
    requires old_ != ""
  {
    if s == "" then ""
    else if HasPrefix(s, old_) then by_ + ReplaceAll(s[|old_|..], old_, by_)
    else [s[0]] + ReplaceAll(s[1..], old_, by_)
  }

  function EncodeCell(value: string): string {
    ReplaceAll(ReplaceAll(ReplaceAll(value, "%", "%25"), "|", "%7C"), " ", "%20")
  }

  function DecodeCell(value: string): string {
    ReplaceAll(ReplaceAll(ReplaceAll(value, "%20", " "), "%7C", "|"), "%25", "%")
  }

  /** s with the escapes for the characters in set spelled out. */
  function Escaped(s: string, percent: bool, bar: bool, space: bool): string {
    if s == "" then ""
    else
      (if s[0] == '%' && percent then "%25" else if s[0] == '|' && bar then "%7C"
       else if s[0] == ' ' && space then "%20" else [s[0]])
      + Escaped(s[1..], percent, bar, space)
  }

  lemma ReplaceSkips(c: char, rest: string, old_: string, by_: string)
    requires old_ != "" && !HasPrefix([c] + rest, old_)
    ensures ReplaceAll([c] + rest, old_, by_) == [c] + ReplaceAll(rest, old_, by_)
  {
    assert ([c] + rest)[1..] == rest;
  }

  lemma ReplaceOther(c: char, rest: string, old_: string, by_: string)
    requires old_ != "" && c != old_[0]
    ensures ReplaceAll([c] + rest, old_, by_) == [c] + ReplaceAll(rest, old_, by_)
  {
    assert |[c] + rest| >= |old_| ==> ([c] + rest)[..|old_|][0] == c;
    ReplaceSkips(c, rest, old_, by_);
  }

  lemma ReplaceHits(rest: string, old_: string, by_: string)
    requires old_ != ""
    ensures ReplaceAll(old_ + rest, old_, by_) == by_ + ReplaceAll(rest, old_, by_)
  {
    assert (old_ + rest)[|old_|..] == rest;
  }

  /** A three-character escape that is not old passes through. */
  lemma ReplaceSkips3(e: string, rest: string, old_: string, by_: string)
    requires |e| == 3 && e[1] != '%' && e[2] != '%' && e[1] != '|' && e[2] != '|' && e[1] != ' ' && e[2] != ' '
    requires old_ == "|" || old_ == " " || (|old_| == 3 && old_[0] == '%' && e != old_)
    requires e[0] == '%'
    ensures ReplaceAll(e + rest, old_, by_) == e + ReplaceAll(rest, old_, by_)
  {
    var s2 := [e[2]] + rest;
    var s1 := [e[1]] + s2;
    assert e + rest == [e[0]] + s1;
    assert (e + rest)[..3] == e;
    ReplaceSkips(e[0], s1, old_, by_);
    ReplaceSkips(e[1], s2, old_, by_);
    ReplaceSkips(e[2], rest, old_, by_);
    assert e == [e[0]] + [e[1]] + [e[2]];
  }

  lemma {:induction false} EncodeEscapes(s: string)
    ensures ReplaceAll(s, "%", "%25") == Escaped(s, true, false, false)
    ensures ReplaceAll(Escaped(s, true, false, false), "|", "%7C") == Escaped(s, true, true, false)
    ensures ReplaceAll(Escaped(s, true, true, false), " ", "%20") == Escaped(s, true, true, true)
  {
    if s != "" {
      var c, t := s[0], s[1..];
      EncodeEscapes(t);
      assert s == [c] + t;
      EncodeFirst(c, t, Escaped(t, true, false, false), Escaped(t, true, true, false));
    }
  }

  lemma EncodeFirst(c: char, t: string, t1: string, t2: string)
    ensures ReplaceAll([c] + t, "%", "%25") == (if c == '%' then "%25" else [c]) + ReplaceAll(t, "%", "%25")
    ensures ReplaceAll((if c == '%' then "%25" else [c]) + t1, "|", "%7C") ==
      (if c == '%' then "%25" else if c == '|' then "%7C" else [c]) + ReplaceAll(t1, "|", "%7C")
    ensures ReplaceAll((if c == '%' then "%25" else if c == '|' then "%7C" else [c]) + t2, " ", "%20") ==
      (if c == '%' then "%25" else if c == '|' then "%7C" else if c == ' ' then "%20" else [c]) + ReplaceAll(t2, " ", "%20")
  {
    if c == '%' { ReplaceHits(t, "%", "%25"); } else { ReplaceSkips(c, t, "%", "%25"); }
    if c == '%' { ReplaceSkips3("%25", t1, "|", "%7C"); ReplaceSkips3("%25", t2, " ", "%20"); }
    else if c == '|' { ReplaceHits(t1, "|", "%7C"); ReplaceSkips3("%7C", t2, " ", "%20"); }
    else if c == ' ' { ReplaceSkips(c, t1, "|", "%7C"); ReplaceHits(t2, " ", "%20"); }
    else { ReplaceSkips(c, t1, "|", "%7C"); ReplaceSkips(c, t2, " ", "%20"); }
  }

  lemma {:induction false} DecodeEscapes(s: string)
    ensures ReplaceAll(Escaped(s, true, true, true), "%20", " ") == Escaped(s, true, true, false)
    ensures ReplaceAll(Escaped(s, true, true, false), "%7C", "|") == Escaped(s, true, false, false)
    ensures ReplaceAll(Escaped(s, true, false, false), "%25", "%") == s
  {
    if s != "" {
      var c, t := s[0], s[1..];
      DecodeEscapes(t);
      assert s == [c] + t;
      DecodeSpace(c, Escaped(t, true, true, true));
      DecodeBar(c, Escaped(t, true, true, false));
      DecodePercent(c, Escaped(t, true, false, false));
    }
  }

  lemma DecodeSpace(c: char, t: string)
    ensures ReplaceAll((if c == '%' then "%25" else if c == '|' then "%7C" else if c == ' ' then "%20" else [c]) + t, "%20", " ") ==
      (if c == '%' then "%25" else if c == '|' then "%7C" else [c]) + ReplaceAll(t, "%20", " ")
  {
    if c == '%' { ReplaceSkips3("%25", t, "%20", " "); }
    else if c == '|' { ReplaceSkips3("%7C", t, "%20", " "); }
    else if c == ' ' { ReplaceHits(t, "%20", " "); }
    else { ReplaceOther(c, t, "%20", " "); }
  }

  lemma DecodeBar(c: char, t: string)
    ensures ReplaceAll((if c == '%' then "%25" else if c == '|' then "%7C" else [c]) + t, "%7C", "|") ==
      (if c == '%' then "%25" else [c]) + ReplaceAll(t, "%7C", "|")
  {
    if c == '%' { ReplaceSkips3("%25", t, "%7C", "|"); }
    else if c == '|' { ReplaceHits(t, "%7C", "|"); }
    else { ReplaceOther(c, t, "%7C", "|"); }
  }

  lemma DecodePercent(c: char, t: string)
    ensures ReplaceAll((if c == '%' then "%25" else [c]) + t, "%25", "%") == [c] + ReplaceAll(t, "%25", "%")
  {
    if c == '%' { ReplaceHits(t, "%25", "%"); } else { ReplaceOther(c, t, "%25", "%"); }
  }

  lemma {:induction false} EscapedChars(s: string)
    ensures forall c <- Escaped(s, true, true, true) :: c != '|' && c != ' ' && (c == '\n' ==> '\n' in s)
  {
    if s != "" {
      EscapedChars(s[1..]);
      assert forall c <- s[1..] :: c in s;
      assert s[0] in s;
    }
  }

  /** decodeCell undoes encodeCell on every string, and the encoded cell fits in a table. */
  lemma CellRoundTrip(value: string)
    ensures DecodeCell(EncodeCell(value)) == value
    ensures forall c <- EncodeCell(value) :: c != '|' && c != ' ' && (c == '\n' ==> '\n' in value)
  {
    EncodeEscapes(value);
    DecodeEscapes(value);
    EscapedChars(value);
  }

  lemma {:induction false} EscapedKeeps(s: string)
    ensures '\n' in s ==> '\n' in Escaped(s, true, true, true)
    ensures s != "" && s[0] == '/' ==> Escaped(s, true, true, true) != "" && Escaped(s, true, true, true)[0] == '/'
  {
    if s != "" {
      EscapedKeeps(s[1..]);
      assert s == [s[0]] + s[1..];
    }
  }

  /** A newline is not escaped. */
  lemma EncodeKeeps(s: string)
    ensures '\n' in s ==> '\n' in EncodeCell(s)
    ensures s != "" && s[0] == '/' ==> EncodeCell(s) != "" && EncodeCell(s)[0] == '/'
  {
    EncodeEscapes(s);
    EscapedKeeps(s);
  }

  // ---------- Lines and tables ----------

  /** The cells of a header or separator row, trimmed. */
  function SplitTableRow(raw: string): Option<seq<string>> {
    var line := TrimSpace(raw);
    if |line| < 2 || line[0] != '|' || line[|line| - 1] != '|' then None
    else
      var cells := Split(line[1..|line| - 1], '|');
      Some(TrimAll(cells))
  }

  predicate Spaced(cell: string) { HasPrefix(cell, " ") && HasSuffix(cell, " ") }

  /** The cells of a data row: exactly one space is taken off each side. */
  function SplitDataRow(raw: string): Option<seq<string>> {
    var line := TrimSpace(raw);
    if |line| < 2 || line[0] != '|' || line[|line| - 1] != '|' then None
    else
      var cells := Split(line[1..|line| - 1], '|');
      if exists c <- cells :: !Spaced(c) then None else Some(UnspacedAll(cells))
  }

  function Unspaced(cell: string): string { TrimSuffix(TrimPrefix(cell, " "), " ") }

  function UnspacedAll(cells: seq<string>): seq<string> {
    seq(|cells|, k requires 0 <= k < |cells| => Unspaced(cells[k]))
  }

  function TrimAll(cells: seq<string>): seq<string> {
    seq(|cells|, k requires 0 <= k < |cells| => TrimSpace(cells[k]))
  }

  predicate ValidSeparator(line: string, columns: nat) {
    match SplitTableRow(line)
    case None => false
    case Some(cells) => |cells| == columns && forall cell <- cells :: |cell| >= 3 && forall c <- cell :: c == '-'
  }

  function DataRows(lines: seq<string>, ended: bool, columns: nat): Result<seq<seq<string>>> {
    if lines == [] then Ok([])
    else match SplitDataRow(lines[0])
      case None =>
        if TrimSpace(lines[0]) == "" then DataRows(lines[1..], true, columns)
        else Err("unexpected content after generated table")
      case Some(cells) =>
        if ended then Err("unexpected content after generated table")
        else if |cells| != columns then Err("wrong column count")
        else match DataRows(lines[1..], false, columns)
          case Err(e) => Err(e)
          case Ok(rows) => Ok([cells] + rows)
  }

  function TableRows(lines: seq<string>, header: seq<string>): Result<seq<seq<string>>> {
    if lines == [] then Err("required table is missing")
    else match SplitTableRow(lines[0])
      case None => TableRows(lines[1..], header)
      case Some(cells) =>
        if cells != header then Err("unexpected generated table header")
        else if |lines| < 2 || !ValidSeparator(lines[1], |header|) then Err("table separator is missing")
        else DataRows(lines[2..], false, |header|)
  }

  /** The "> Key: value" lines between the heading and the table. */
  function MetadataFrom(lines: seq<string>, meta: map<string, string>): Result<map<string, string>> {
    if lines == [] then Ok(meta)
    else
      var line := TrimSpace(lines[0]);
      if HasPrefix(line, "|") then Ok(meta)
      else if line == "" then MetadataFrom(lines[1..], meta)
      else if !HasPrefix(line, "> ") then Err("unexpected generated document preamble line")
      else match Cut(TrimPrefix(line, "> "), ":")
        case None => Err("invalid metadata line")
        case Some((rawKey, value)) =>
          var key := TrimSpace(rawKey);
          if key in meta then Err("duplicate metadata field")
          else MetadataFrom(lines[1..], meta[key := TrimSpace(value)])
  }

  function GeneratedMetadata(lines: seq<string>, heading: string): Result<map<string, string>> {
    if lines == [] || TrimSpace(lines[0]) != heading then Err("generated document heading")
    else MetadataFrom(lines[1..], map[])
  }

  lemma {:induction false} DataRowsWidth(lines: seq<string>, ended: bool, columns: nat)
    ensures var r := DataRows(lines, ended, columns); r.Ok? ==> forall row <- r.value :: |row| == columns
  {
    if lines != [] {
      DataRowsWidth(lines[1..], true, columns);
      DataRowsWidth(lines[1..], false, columns);
    }
  }

  lemma {:induction false} TableRowsWidth(lines: seq<string>, header: seq<string>)
    ensures var r := TableRows(lines, header); r.Ok? ==> forall row <- r.value :: |row| == |header|
  {
    if lines != [] {
      TableRowsWidth(lines[1..], header);
      if |lines| >= 2 { DataRowsWidth(lines[2..], false, |header|); }
    }
  }

  function ParseNonNegative(meta: map<string, string>, key: string): Result<nat> {
    match Atoi(if key in meta then meta[key] else "")
    case None => Err("invalid " + key)
    case Some(n) => if n < 0 then Err("invalid " + key) else Ok(n)
  }

  // ---------- Printing ----------

  datatype Field = Field(key: string, value: string)

  function FieldLine(f: Field): string { "> " + f.key + ": " + f.value }

  function FieldLines(fields: seq<Field>): seq<string> {
    seq(|fields|, k requires 0 <= k < |fields| => FieldLine(fields[k]))
  }

  function BarLine(parts: seq<string>): string { "|" + Join(parts, "|") + "|" }

  function SpacedAll(cells: seq<string>): seq<string> {
    seq(|cells|, k requires 0 <= k < |cells| => " " + cells[k] + " ")
  }

  /** "| a | b |". */
  function TableRow(cells: seq<string>): string { BarLine(SpacedAll(cells)) }

  /** What comes before the data rows; rules are the dashes under the header cells. */
  function Preamble(heading: string, fields: seq<Field>, header: seq<string>, rules: seq<string>): seq<string> {
    [heading, ""] + FieldLines(fields) + ["", TableRow(header), BarLine(rules)]
  }

  /** A value whose line reads back. */
  predicate Plain(s: string) { s != "" && Trimmed(s) && '\n' !in s }

  ghost predicate PlainFields(fields: seq<Field>) {
    && (forall k :: 0 <= k < |fields| ==> Plain(fields[k].key) && ':' !in fields[k].key && Plain(fields[k].value))
    && (forall i, j :: 0 <= i < j < |fields| ==> fields[i].key != fields[j].key)
  }

  predicate PlainCells(cells: seq<string>) { cells != [] && forall c <- cells :: Plain(c) && '|' !in c }

  predicate Dashes(rules: seq<string>) { forall r <- rules :: |r| >= 3 && forall c <- r :: c == '-' }

  // ---------- Rows read back ----------

  lemma {:induction false} JoinChars(parts: seq<string>, sep: string)
    ensures forall c <- Join(parts, sep) :: c in sep || exists p <- parts :: c in p
  {
    if |parts| > 1 {
      JoinChars(parts[1..], sep);
      forall c <- Join(parts, sep) ensures c in sep || exists p <- parts :: c in p {
        if c in parts[0] { assert parts[0] in parts; }
        else if c in Join(parts[1..], sep) && c !in sep { var p :| p in parts[1..] && c in p; assert p in parts; }
      }
    } else if parts != [] {
      assert parts[0] in parts;
    }
  }

  lemma BarLineSplit(parts: seq<string>)
    requires parts != [] && forall p <- parts :: '|' !in p
    ensures var line := BarLine(parts);
      |line| >= 2 && line[0] == '|' && line[|line| - 1] == '|' && TrimSpace(line) == line &&
      Split(line[1..|line| - 1], '|') == parts
  {
    var line := BarLine(parts);
    TrimmedUnchanged(line);
    assert line[1..|line| - 1] == Join(parts, "|");
    SplitJoin(parts, '|');
  }

  lemma BarLineNewline(parts: seq<string>)
    requires forall p <- parts :: '\n' !in p
    ensures '\n' !in BarLine(parts)
  {
    JoinChars(parts, "|");
  }

  lemma UnspaceCell(a: string)
    ensures Spaced(" " + a + " ") && Unspaced(" " + a + " ") == a
  {
    assert (" " + a + " ")[1..] == a + " ";
    assert (a + " ")[..|a|] == a;
  }

  lemma SpacedCells(cells: seq<string>)
    requires cells != [] && forall c <- cells :: '|' !in c
    ensures SpacedAll(cells) != [] && (forall p <- SpacedAll(cells) :: '|' !in p) && forall p <- SpacedAll(cells) :: Spaced(p)
    ensures UnspacedAll(SpacedAll(cells)) == cells
  {
    hide Spaced;
    hide Unspaced;
    var spaced := SpacedAll(cells);
    forall k | 0 <= k < |spaced| ensures '|' !in spaced[k] && Spaced(spaced[k]) && Unspaced(spaced[k]) == cells[k] {
      assert cells[k] in cells;
      UnspaceCell(cells[k]);
    }
  }

  /** A row of cells without bars gives the cells back, spaces and all. */
  lemma DataRowCells(cells: seq<string>)
    requires cells != [] && forall c <- cells :: '|' !in c
    ensures SplitDataRow(TableRow(cells)) == Some(cells)
  {
    hide Split;
    hide TrimSpace;
    hide BarLine;
    hide SpacedAll;
    hide Spaced;
    SpacedCells(cells);
    BarLineSplit(SpacedAll(cells));
  }

  lemma HeaderRowCells(cells: seq<string>)
    requires PlainCells(cells)
    ensures SplitTableRow(TableRow(cells)) == Some(cells)
  {
    hide Split;
    hide TrimSpace;
    hide BarLine;
    SpacedCells(cells);
    BarLineSplit(SpacedAll(cells));
    forall k | 0 <= k < |cells| ensures TrimSpace(SpacedAll(cells)[k]) == cells[k] {
      assert cells[k] in cells;
      TrimCell(cells[k]);
    }
    assert TrimAll(SpacedAll(cells)) == cells;
  }

  lemma TrimAllTrimmed(cells: seq<string>)
    requires forall c <- cells :: Trimmed(c)
    ensures TrimAll(cells) == cells
  {
    forall k | 0 <= k < |cells| ensures TrimSpace(cells[k]) == cells[k] {
      assert cells[k] in cells;
      TrimmedUnchanged(cells[k]);
    }
  }

  lemma RuleRead(rules: seq<string>)
    requires rules != [] && Dashes(rules)
    ensures ValidSeparator(BarLine(rules), |rules|)
  {
    hide Split;
    hide TrimSpace;
    hide BarLine;
    BarLineSplit(rules);
    forall r <- rules ensures Trimmed(r) { assert r[0] in r && r[|r| - 1] in r; }
    TrimAllTrimmed(rules);
  }

  lemma RowNewline(cells: seq<string>)
    requires forall c <- cells :: '\n' !in c
    ensures '\n' !in TableRow(cells)
  {
    var spaced := SpacedAll(cells);
    forall k | 0 <= k < |spaced| ensures '\n' !in spaced[k] { assert cells[k] in cells; }
    BarLineNewline(spaced);
  }

  // ---------- Preambles read back ----------

  lemma SkipBlank(rest: seq<string>, meta: map<string, string>)
    ensures MetadataFrom([""] + rest, meta) == MetadataFrom(rest, meta)
  {
    assert ([""] + rest)[1..] == rest;
  }

  lemma StopAtBar(line: string, rest: seq<string>, meta: map<string, string>)
    requires line != "" && Trimmed(line) && line[0] == '|'
    ensures MetadataFrom([line] + rest, meta) == Ok(meta)
  {
    TrimmedUnchanged(line);
  }

  /** Lines without bars are not table rows. */
  lemma SkipLine(line: string, rest: seq<string>, header: seq<string>)
    requires line == "" || (Trimmed(line) && line[0] != '|')
    ensures TableRows([line] + rest, header) == TableRows(rest, header)
  {
    TrimmedUnchanged(line);
    assert ([line] + rest)[1..] == rest;
  }

  lemma MetadataLine(key: string, value: string, rest: seq<string>, meta: map<string, string>)
    requires key != "" && Trimmed(key) && ':' !in key && value != "" && Trimmed(value) && key !in meta
    ensures Trimmed("> " + key + ": " + value)
    ensures MetadataFrom(["> " + key + ": " + value] + rest, meta) == MetadataFrom(rest, meta[key := value])
  {
    hide TrimSpace;
    hide Cut;
    var line := "> " + key + ": " + value;
    assert Trimmed(line);
    TrimmedUnchanged(line);
    assert line[..2] == "> " && line[2..] == key + ":" + (" " + value);
    CutAfter(key, ":", " " + value);
    TrimmedUnchanged(key);
    TrimCell(value);
    var lines := ["> " + key + ": " + value] + rest;
    assert lines[1..] == rest && lines[0] == line;
  }

  /** The fields, added one after another. */
  function Added(meta: map<string, string>, fields: seq<Field>): map<string, string>
    decreases |fields|
  {
    if fields == [] then meta else Added(meta[fields[0].key := fields[0].value], fields[1..])
  }

  lemma {:induction false} AddedKeeps(meta: map<string, string>, fields: seq<Field>, key: string)
    requires key in meta && forall k :: 0 <= k < |fields| ==> fields[k].key != key
    ensures key in Added(meta, fields) && Added(meta, fields)[key] == meta[key]
    decreases |fields|
  {
    if fields != [] { AddedKeeps(meta[fields[0].key := fields[0].value], fields[1..], key); }
  }

  /** Each field is found under its key. */
  lemma {:induction false} AddedHas(meta: map<string, string>, fields: seq<Field>, k: nat)
    requires k < |fields| && forall i, j :: 0 <= i < j < |fields| ==> fields[i].key != fields[j].key
    ensures fields[k].key in Added(meta, fields) && Added(meta, fields)[fields[k].key] == fields[k].value
    decreases |fields|
  {
    if k == 0 {
      AddedKeeps(meta[fields[0].key := fields[0].value], fields[1..], fields[0].key);
    } else {
      AddedHas(meta[fields[0].key := fields[0].value], fields[1..], k - 1);
    }
  }

  lemma FieldFound(fields: seq<Field>, k: nat)
    requires k < |fields| && PlainFields(fields)
    ensures fields[k].key in Added(map[], fields) && Added(map[], fields)[fields[k].key] == fields[k].value
  {
    AddedHas(map[], fields, k);
  }

  /** The field lines up to the table, on top of meta. */
  lemma {:induction false} FieldsRead(fields: seq<Field>, bar: string, rest: seq<string>, meta: map<string, string>)
    requires PlainFields(fields) && forall k :: 0 <= k < |fields| ==> fields[k].key !in meta
    requires bar != "" && Trimmed(bar) && bar[0] == '|'
    ensures MetadataFrom(FieldLines(fields) + ["", bar] + rest, meta) == Ok(Added(meta, fields))
    decreases |fields|
  {
    hide MetadataFrom;
    hide TrimSpace;
    hide Trimmed;
    if fields == [] {
      assert FieldLines(fields) + ["", bar] + rest == [""] + ([bar] + rest);
      SkipBlank([bar] + rest, meta);
      StopAtBar(bar, rest, meta);
    } else {
      var f := fields[0];
      var tail := FieldLines(fields[1..]) + ["", bar] + rest;
      assert FieldLines(fields) + ["", bar] + rest == [FieldLine(f)] + tail;
      MetadataLine(f.key, f.value, tail, meta);
      FieldsRead(fields[1..], bar, rest, meta[f.key := f.value]);
    }
  }

  lemma {:induction false} SkipFields(fields: seq<Field>, rest: seq<string>, header: seq<string>)
    requires PlainFields(fields)
    ensures TableRows(FieldLines(fields) + rest, header) == TableRows(rest, header)
    decreases |fields|
  {
    hide TableRows;
    hide Trimmed;
    if fields == [] {
      assert FieldLines(fields) + rest == rest;
    } else {
      var f := fields[0];
      var tail := FieldLines(fields[1..]) + rest;
      assert FieldLines(fields) + rest == [FieldLine(f)] + tail;
      MetadataLine(f.key, f.value, tail, map[]);
      SkipLine(FieldLine(f), tail, header);
      SkipFields(fields[1..], rest, header);
    }
  }

  lemma TableOpens(header: seq<string>, rules: seq<string>, rest: seq<string>)
    requires PlainCells(header) && Dashes(rules) && |rules| == |header|
    ensures TableRows([TableRow(header), BarLine(rules)] + rest, header) == DataRows(rest, false, |header|)
  {
    hide SplitTableRow;
    hide ValidSeparator;
    hide BarLine;
    hide TableRow;
    HeaderRowCells(header);
    RuleRead(rules);
    var lines := [TableRow(header), BarLine(rules)] + rest;
    assert lines[2..] == rest;
  }

  lemma HeaderRowTrimmed(header: seq<string>)
    requires PlainCells(header)
    ensures TableRow(header) != "" && Trimmed(TableRow(header)) && TableRow(header)[0] == '|'
  {
  }

  /** A printed preamble: the metadata is the fields, and the data rows are what follows it. */
  lemma PreambleReads(heading: string, fields: seq<Field>, header: seq<string>, rules: seq<string>, rest: seq<string>)
    requires Plain(heading) && heading[0] != '|' && PlainFields(fields)
    requires PlainCells(header) && Dashes(rules) && |rules| == |header|
    ensures GeneratedMetadata(Preamble(heading, fields, header, rules) + rest, heading) == Ok(Added(map[], fields))
    ensures TableRows(Preamble(heading, fields, header, rules) + rest, header) == DataRows(rest, false, |header|)
  {
    hide MetadataFrom;
    hide TableRows;
    hide DataRows;
    hide PlainFields;
    hide PlainCells;
    hide Dashes;
    hide TrimSpace;
    hide BarLine;
    hide TableRow;
    var lines := Preamble(heading, fields, header, rules) + rest;
    var row, below := TableRow(header), [BarLine(rules)] + rest;
    HeaderRowTrimmed(header);
    TrimmedUnchanged(heading);
    var body := FieldLines(fields) + ["", row] + below;
    assert lines[1..] == [""] + body;
    SkipBlank(body, map[]);
    FieldsRead(fields, row, below, map[]);
    assert lines == [heading] + ([""] + body);
    SkipLine(heading, [""] + body, header);
    SkipLine("", body, header);
    assert body == FieldLines(fields) + (["", row] + below);
    SkipFields(fields, ["", row] + below, header);
    assert ["", row] + below == [""] + ([row, BarLine(rules)] + rest);
    SkipLine("", [row, BarLine(rules)] + rest, header);
    TableOpens(header, rules, rest);
  }

  lemma PreambleLines(heading: string, fields: seq<Field>, header: seq<string>, rules: seq<string>)
    requires Plain(heading) && PlainFields(fields) && PlainCells(header) && Dashes(rules)
    ensures forall l <- Preamble(heading, fields, header, rules) :: '\n' !in l
  {
    hide Trimmed;
    hide BarLine;
    var fs := FieldLines(fields);
    forall k | 0 <= k < |fs| ensures '\n' !in fs[k] {
      assert Plain(fields[k].key) && Plain(fields[k].value);
    }
    RowNewline(header);
    BarLineNewline(rules);
  }

  lemma ItoaTrimmed(n: nat)
    ensures Plain(Itoa(n)) && '|' !in Itoa(n)
  {
    var s := Itoa(n);
    assert s[0] in s && s[|s| - 1] in s;
  }

  /** After the last line comes the empty piece a final newline leaves. */
  lemma DataRowsEnd(columns: nat)
    ensures DataRows([""], false, columns) == Ok([])
  {
    assert [""][1..] == [];
    assert SplitDataRow("").None? && TrimSpace("") == "";
  }

  lemma DataRowsStep(cells: seq<string>, rest: seq<string>)
    requires cells != [] && forall c <- cells :: '|' !in c
    ensures DataRows([TableRow(cells)] + rest, false, |cells|) ==
      match DataRows(rest, false, |cells|) case Err(e) => Err(e) case Ok(rows) => Ok([cells] + rows)
  {
    hide SplitDataRow;
    hide TableRow;
    DataRowCells(cells);
    assert ([TableRow(cells)] + rest)[1..] == rest;
  }

  // ---------- A row that is broken in two does not read ----------

  lemma {:induction false} FirstNewline(s: string) returns (a: string, b: string)
    requires '\n' in s
    ensures s == a + "\n" + b && '\n' !in a && (s[0] != '\n' ==> a != "" && a[0] == s[0])
    ensures forall c <- a :: c in s
  {
    if s[0] == '\n' {
      a, b := "", s[1..];
    } else {
      a, b := FirstNewline(s[1..]);
      a := [s[0]] + a;
    }
  }

  /** The second cell of a row, and what stands around it. */
  lemma SecondCell(cells: seq<string>) returns (back: string)
    requires |cells| >= 3
    ensures TableRow(cells) == "| " + cells[0] + " | " + cells[1] + back
  {
    var parts := SpacedAll(cells);
    back := " |" + Join(parts[2..], "|") + "|";
    assert Join(parts, "|") == parts[0] + "|" + (parts[1] + "|" + Join(parts[2..], "|")) by {
      assert parts[1..][1..] == parts[2..];
    }
    assert TableRow(cells) == "|" + (parts[0] + "|" + (parts[1] + "|" + Join(parts[2..], "|"))) + "|";
  }

  lemma OpenLine(front: string, piece: string)
    requires front != "" && front[0] == '|' && piece != "" && piece[0] == '/' && '|' !in piece
    ensures SplitDataRow(front + piece).None? && TrimSpace(front + piece) != ""
  {
    TrimRightKeeps(front, piece);
    assert TrimLeft(front + piece) == front + piece;
    var line := TrimSpace(front + piece);
    assert line == front + TrimRight(piece);
    assert line[|line| - 1] == TrimRight(piece)[|TrimRight(piece)| - 1];
  }

  /** A newline inside the second cell leaves a first line that is no row, and the table is refused. */
  lemma BrokenRow(cells: seq<string>, rest: string, columns: nat)
    requires |cells| >= 3 && '\n' !in cells[0] && '\n' in cells[1] && cells[1][0] == '/' && '|' !in cells[1]
    ensures DataRows(Split(TableRow(cells) + "\n" + rest, '\n'), false, columns).Err?
  {
    hide TableRow;
    hide SplitDataRow;
    hide TrimSpace;
    var back := SecondCell(cells);
    var a, b := FirstNewline(cells[1]);
    var front := "| " + cells[0] + " | ";
    assert TableRow(cells) + "\n" + rest == (front + a) + ['\n'] + (b + back + "\n" + rest);
    SplitHead(front + a, '\n', b + back + "\n" + rest);
    assert front[0] == '|';
    OpenLine(front, a);
  }
}
