// The string vocabulary the text formats below are built from: Go's strings, strconv and
// unicode functions, on sequences of Unicode characters.
module Text {
  import opened Wrappers

  // ---------- Sizes ----------

  /** Bytes of one character in UTF-8. */
  function CharBytes(c: char): nat {
    if c < '\U{80}' then 1 else if c < '\U{800}' then 2 else if c < '\U{10000}' then 3 else 4
  }

  /** Go's len(s). */
  function Len(s: string): nat {
    if s == "" then 0 else CharBytes(s[0]) + Len(s[1..])
  }

  lemma {:induction false} ByteLen(s: string)
    requires forall c <- s :: c < '\U{80}'
    ensures Len(s) == |s|
  {
    if s != "" {
      assert s[0] in s && forall c <- s[1..] :: c in s;
      ByteLen(s[1..]);
    }
  }

  lemma {:induction false} LenAppend(a: string, b: string)
    ensures Len(a + b) == Len(a) + Len(b)
  {
    if a == "" {
      assert a + b == b;
    } else {
      assert (a + b)[1..] == a[1..] + b;
      LenAppend(a[1..], b);
    }
  }

  // ---------- Spaces ----------

  /** unicode.IsSpace. */
  predicate IsSpace(c: char) {
    '\U{9}' <= c <= '\U{d}' || c == ' ' || c == '\U{85}' || c == '\U{a0}' || c == '\U{1680}' ||
    '\U{2000}' <= c <= '\U{200a}' || c == '\U{2028}' || c == '\U{2029}' || c == '\U{202f}' ||
    c == '\U{205f}' || c == '\U{3000}'
  }

  function TrimLeft(s: string): string {
    if s != "" && IsSpace(s[0]) then TrimLeft(s[1..]) else s
  }

  function TrimRight(s: string): string {
    if s != "" && IsSpace(s[|s| - 1]) then TrimRight(s[..|s| - 1]) else s
  }

  function TrimSpace(s: string): string { TrimRight(TrimLeft(s)) }

  /** Nothing for TrimSpace to remove. */
  predicate Trimmed(s: string) {
    s == "" || (!IsSpace(s[0]) && !IsSpace(s[|s| - 1]))
  }

  lemma TrimmedUnchanged(s: string)
    requires Trimmed(s)
    ensures TrimSpace(s) == s
  {
  }

  lemma {:induction false} TrimLeftShape(s: string)
    ensures exists k :: 0 <= k <= |s| && TrimLeft(s) == s[k..]
    ensures TrimLeft(s) == "" || !IsSpace(TrimLeft(s)[0])
  {
    if s != "" && IsSpace(s[0]) {
      TrimLeftShape(s[1..]);
      var k :| 0 <= k <= |s[1..]| && TrimLeft(s[1..]) == s[1..][k..];
      assert s[1..][k..] == s[k + 1..];
    } else {
      assert s[0..] == s;
    }
  }

  lemma {:induction false} TrimRightShape(s: string)
    ensures exists k :: 0 <= k <= |s| && TrimRight(s) == s[..k]
    ensures TrimRight(s) == "" || !IsSpace(TrimRight(s)[|TrimRight(s)| - 1])
  {
    if s != "" && IsSpace(s[|s| - 1]) {
      TrimRightShape(s[..|s| - 1]);
      var k :| 0 <= k <= |s| - 1 && TrimRight(s[..|s| - 1]) == s[..|s| - 1][..k];
      assert s[..|s| - 1][..k] == s[..k];
    } else {
      assert s[..|s|] == s;
    }
  }

  /** TrimSpace cuts a piece out of s, and a second TrimSpace finds nothing left. */
  lemma TrimSpaceShape(s: string)
    ensures exists a, b :: 0 <= a <= b <= |s| && TrimSpace(s) == s[a..b]
    ensures Trimmed(TrimSpace(s))
  {
    hide TrimLeft;
    hide TrimRight;
    hide IsSpace;
    TrimLeftShape(s);
    var a :| 0 <= a <= |s| && TrimLeft(s) == s[a..];
    TrimRightShape(s[a..]);
    var k :| 0 <= k <= |s[a..]| && TrimRight(s[a..]) == s[a..][..k];
    assert s[a..][..k] == s[a..a + k];
    assert TrimSpace(s) == s[a..a + k];
    if k > 0 { assert TrimSpace(s)[0] == TrimLeft(s)[0]; }
  }

  /** Trailing space comes off the last part that has more than space. */
  lemma {:induction false} TrimRightKeeps(a: string, b: string)
    requires b != "" && !IsSpace(b[0])
    ensures TrimRight(a + b) == a + TrimRight(b) && TrimRight(b) != "" && forall c <- TrimRight(b) :: c in b
    decreases |b|
  {
    hide IsSpace;
    if IsSpace(b[|b| - 1]) {
      var front := b[..|b| - 1];
      assert front != "" && (a + b)[..|a + b| - 1] == a + front;
      TrimRightKeeps(a, front);
    }
  }

  lemma TrimCell(a: string)
    requires a != "" && Trimmed(a)
    ensures TrimSpace(" " + a) == a && TrimSpace(" " + a + " ") == a
  {
    assert (" " + a)[1..] == a && (" " + a + " ")[1..] == a + " ";
    assert (a + " ")[..|a|] == a;
    assert TrimLeft(a + " ") == a + " ";
    assert TrimRight(a + " ") == TrimRight(a);
    TrimmedUnchanged(a);
  }

  // ---------- Split and join ----------

  /** strings.Split(s, sep) for a one-character separator. */
  function Split(s: string, sep: char): (r: seq<string>)
    ensures |r| >= 1
  {
    if s == "" then [""]
    else
      var rest := Split(s[1..], sep);
      if s[0] == sep then [""] + rest else [[s[0]] + rest[0]] + rest[1..]
  }

  function Join(parts: seq<string>, sep: string): string {
    if parts == [] then ""
    else if |parts| == 1 then parts[0]
    else parts[0] + sep + Join(parts[1..], sep)
  }

  lemma {:induction false} SplitHead(a: string, sep: char, b: string)
    requires sep !in a
    ensures Split(a + [sep] + b, sep) == [a] + Split(b, sep)
  {
    var s := a + [sep] + b;
    if a == "" {
      assert s[1..] == b;
    } else {
      assert s[1..] == a[1..] + [sep] + b;
      SplitHead(a[1..], sep, b);
      var rest := Split(s[1..], sep);
      assert rest[0] == a[1..] && rest[1..] == Split(b, sep);
      assert [s[0]] + rest[0] == a;
    }
  }

  lemma {:induction false} SplitWhole(a: string, sep: char)
    requires sep !in a
    ensures Split(a, sep) == [a]
  {
    if a != "" {
      SplitWhole(a[1..], sep);
      assert [a[0]] + a[1..] == a;
    }
  }

  lemma {:induction false} SplitJoin(parts: seq<string>, sep: char)
    requires parts != [] && forall p <- parts :: sep !in p
    ensures Split(Join(parts, [sep]), sep) == parts
  {
    assert parts[0] in parts;
    if |parts| == 1 {
      SplitWhole(parts[0], sep);
    } else {
      assert forall p <- parts[1..] :: p in parts;
      SplitJoin(parts[1..], sep);
      SplitHead(parts[0], sep, Join(parts[1..], [sep]));
    }
  }

  lemma {:induction false} SplitPieces(s: string, sep: char)
    ensures forall p <- Split(s, sep) :: sep !in p && forall c <- p :: c in s
  {
    if s != "" {
      SplitPieces(s[1..], sep);
      var rest := Split(s[1..], sep);
      assert rest[0] in rest && forall p <- rest[1..] :: p in rest;
      assert forall c <- s[1..] :: c in s;
    }
  }

  predicate HasPrefix(s: string, p: string) { |p| <= |s| && s[..|p|] == p }

  predicate HasSuffix(s: string, p: string) { |p| <= |s| && s[|s| - |p|..] == p }

  function TrimPrefix(s: string, p: string): string {
    if HasPrefix(s, p) then s[|p|..] else s
  }

  function TrimSuffix(s: string, p: string): string {
    if HasSuffix(s, p) then s[..|s| - |p|] else s
  }

  /** Every line followed by a newline. */
  function Terminated(lines: seq<string>): string {
    if lines == [] then "" else lines[0] + "\n" + Terminated(lines[1..])
  }

  /** Whole lines come off the front of a split one by one. */
  lemma {:induction false} SplitLinesOff(lines: seq<string>, rest: string)
    requires forall l <- lines :: '\n' !in l
    ensures Split(Terminated(lines) + rest, '\n') == lines + Split(rest, '\n')
  {
    hide Split;
    if lines == [] {
      assert Terminated(lines) + rest == rest;
    } else {
      assert lines[0] in lines;
      assert forall l <- lines[1..] :: l in lines;
      var tail := Terminated(lines[1..]) + rest;
      assert Terminated(lines) + rest == lines[0] + ['\n'] + tail;
      SplitLinesOff(lines[1..], rest);
      SplitHead(lines[0], '\n', tail);
      assert [lines[0]] + (lines[1..] + Split(rest, '\n')) == lines + Split(rest, '\n');
    }
  }

  lemma SplitTerminated(lines: seq<string>)
    requires forall l <- lines :: '\n' !in l
    ensures Split(Terminated(lines), '\n') == lines + [""]
  {
    SplitLinesOff(lines, "");
    assert Terminated(lines) + "" == Terminated(lines);
  }

  lemma {:induction false} TerminatedAppend(a: seq<string>, b: seq<string>)
    ensures Terminated(a + b) == Terminated(a) + Terminated(b)
  {
    if a == [] {
      assert a + b == b;
    } else {
      assert (a + b)[1..] == a[1..] + b;
      TerminatedAppend(a[1..], b);
    }
  }

  // ---------- Cut ----------

  /** Index of the first occurrence of sep, or |s| when there is none. */
  function Find(s: string, sep: string): (i: nat)
    requires sep != ""
    ensures i <= |s|
    ensures i < |s| ==> i + |sep| <= |s|
  {
    if HasPrefix(s, sep) then 0
    else if s == "" then 0
    else 1 + Find(s[1..], sep)
  }

  /** strings.Cut: None when sep does not occur. */
  function Cut(s: string, sep: string): Option<(string, string)>
    requires sep != ""
  {
    var i := Find(s, sep);
    if i == |s| then None else Some((s[..i], s[i + |sep|..]))
  }

  /** No occurrence of sep starts inside a, not even one that runs on into what follows. */
  ghost predicate NoneBefore(s: string, sep: string, n: nat) {
    forall i :: 0 <= i < n && i <= |s| ==> !HasPrefix(s[i..], sep)
  }

  lemma {:induction false} FindIs(s: string, sep: string, n: nat)
    requires sep != "" && n <= |s| && HasPrefix(s[n..], sep) && NoneBefore(s, sep, n)
    ensures Find(s, sep) == n
  {
    assert s[0..] == s;
    if n > 0 {
      assert !HasPrefix(s[0..], sep);
      assert s[1..][n - 1..] == s[n..];
      forall i | 0 <= i < n - 1 && i <= |s[1..]| ensures !HasPrefix(s[1..][i..], sep) {
        assert s[1..][i..] == s[i + 1..];
        assert !HasPrefix(s[i + 1..], sep);
      }
      FindIs(s[1..], sep, n - 1);
    }
  }

  lemma CutAt(a: string, sep: string, b: string)
    requires sep != "" && NoneBefore(a + sep + b, sep, |a|)
    ensures Cut(a + sep + b, sep) == Some((a, b))
  {
    var s := a + sep + b;
    assert s[|a|..] == sep + b;
    FindIs(s, sep, |a|);
    assert s[|a| + |sep|..] == b && s[..|a|] == a;
  }

  /** When the separator's first character does not occur in a, the cut comes right after a. */
  lemma CutAfter(a: string, sep: string, b: string)
    requires sep != "" && sep[0] !in a
    ensures Cut(a + sep + b, sep) == Some((a, b))
  {
    var s := a + sep + b;
    forall i | 0 <= i < |a| ensures !HasPrefix(s[i..], sep) {
      assert s[i..][0] == a[i];
    }
    CutAt(a, sep, b);
  }

  // ---------- Decimal numbers ----------

  function Digit(d: nat): char
    requires d < 10
  {
    (48 + d) as char
  }

  predicate IsDigit(c: char) { 48 <= c as int <= 57 }

  /** %d of a natural number. */
  function Itoa(n: nat): (s: string)
    ensures |s| >= 1 && forall c <- s :: IsDigit(c)
  {
    if n < 10 then [Digit(n)] else Itoa(n / 10) + [Digit(n % 10)]
  }

  function DigitValue(c: char): nat
    requires IsDigit(c)
  {
    c as int - 48
  }

  function DigitsValue(s: string): nat
    requires forall c <- s :: IsDigit(c)
  {
    if s == "" then 0
    else
      assert forall c <- s[..|s| - 1] :: c in s;
      assert s[|s| - 1] in s;
      10 * DigitsValue(s[..|s| - 1]) + DigitValue(s[|s| - 1])
  }

  /** A lowercase hexadecimal digit. */
  predicate IsHex(c: char) { IsDigit(c) || 'a' <= c <= 'f' }

  const MAX_INT := 0x7FFF_FFFF_FFFF_FFFF

  /** strconv.Atoi: an optional sign, digits, and a 64-bit range. */
  function Atoi(s: string): Option<int> {
    var signed := s != "" && (s[0] == '-' || s[0] == '+');
    var digits := if signed then s[1..] else s;
    if digits == "" || exists c <- digits :: !IsDigit(c) then None
    else
      var v: int := DigitsValue(digits);
      var n: int := if signed && s[0] == '-' then 0 - v else v;
      if -MAX_INT - 1 <= n <= MAX_INT then Some(n) else None
  }

  lemma {:induction false} ItoaValue(n: nat)
    ensures DigitsValue(Itoa(n)) == n
  {
    if n < 10 {
      assert Itoa(n)[..0] == "";
    } else {
      ItoaValue(n / 10);
      assert Itoa(n)[..|Itoa(n)| - 1] == Itoa(n / 10);
    }
  }

  lemma AtoiItoa(n: nat)
    requires n <= MAX_INT
    ensures Atoi(Itoa(n)) == Some(n)
  {
    ItoaValue(n);
    assert Itoa(n)[0] in Itoa(n);
  }

  lemma {:induction false} ItoaMonotone(a: nat, b: nat)
    requires a <= b
    ensures Len(Itoa(a)) <= Len(Itoa(b))
  {
    if b < 10 {
    } else {
      LenAppend(Itoa(b / 10), [Digit(b % 10)]);
      if a >= 10 {
        ItoaMonotone(a / 10, b / 10);
        LenAppend(Itoa(a / 10), [Digit(a % 10)]);
      }
    }
  }

  // ---------- Order ----------

  /** strings.Compare(a, b) <= 0. */
  predicate LexLeq(a: string, b: string) {
    a == "" || (b != "" && (a[0] < b[0] || (a[0] == b[0] && LexLeq(a[1..], b[1..]))))
  }

  lemma {:induction false} LexTotal(a: string, b: string)
    ensures LexLeq(a, b) || LexLeq(b, a)
    ensures LexLeq(a, b) && LexLeq(b, a) ==> a == b
    ensures LexLeq(a, a)
  {
    if a != "" { LexTotal(a[1..], a[1..]); }
    if a != "" && b != "" && a[0] == b[0] {
      LexTotal(a[1..], b[1..]);
      assert a == [a[0]] + a[1..] && b == [b[0]] + b[1..];
    }
  }

  lemma {:induction false} LexTransitive(a: string, b: string, c: string)
    requires LexLeq(a, b) && LexLeq(b, c)
    ensures LexLeq(a, c)
  {
    if a != "" && b != "" && c != "" && a[0] == b[0] == c[0] {
      LexTransitive(a[1..], b[1..], c[1..]);
    }
  }
}
