// Three-way line merge: client/merge/diff3.go.
//
// The imperative methods follow the source loop by loop. Each is proved equal to
// a value-level specification, and the merge laws are lemmas about that
// specification: it cuts base, ours and theirs into one shared list of pieces.
module Merge {

  type Line = string

  datatype Result = Result(body: string, conflict: bool)

  datatype Match = Match(baseIdx: nat, sideIdx: nat)

  datatype Hunk = Hunk(baseLo: nat, baseHi: nat, sideLo: nat, sideHi: nat)

  const MAX_LCS_CELLS := 2_000_000

  // ---------- Lines ----------

  function Join(lines: seq<string>): string {
    if lines == [] then "" else lines[0] + Join(lines[1..])
  }

  lemma {:induction false} JoinAppend(a: seq<string>, b: seq<string>)
    ensures Join(a + b) == Join(a) + Join(b)
  {
    if a == [] {
      assert a + b == b;
    } else {
      assert (a + b)[1..] == a[1..] + b;
      JoinAppend(a[1..], b);
    }
  }

  /** strings.SplitAfter(s, "\n"): a final newline leaves an empty last element. */
  function SplitAfterNewline(s: string): (lines: seq<Line>)
    ensures |lines| >= 1
  {
    if s == "" then [""]
    else
      var rest := SplitAfterNewline(s[1..]);
      if s[0] == '\n' then ["\n"] + rest else [[s[0]] + rest[0]] + rest[1..]
  }

  function SplitLines(s: string): seq<Line> {
    if s == "" then [] else SplitAfterNewline(s)
  }

  /** One newline, and only at the very end. */
  predicate NewlineEnded(line: Line) {
    |line| > 0 && line[|line| - 1] == '\n' && '\n' !in line[..|line| - 1]
  }

  lemma {:induction false} SplitAfterNewlineShape(s: string)
    ensures var lines := SplitAfterNewline(s);
      && Join(lines) == s
      && '\n' !in lines[|lines| - 1]
      && (forall k :: 0 <= k < |lines| - 1 ==> NewlineEnded(lines[k]))
  {
    if s == "" {
    } else {
      SplitAfterNewlineShape(s[1..]);
      var rest := SplitAfterNewline(s[1..]);
      var lines := SplitAfterNewline(s);
      assert s == [s[0]] + s[1..];
      if s[0] == '\n' {
        assert lines[1..] == rest;
      } else {
        assert lines[1..] == rest[1..];
        if |rest| > 1 { NewlineEndedCons(s[0], rest[0]); }
      }
    }
  }

  lemma NewlineEndedCons(c: char, line: Line)
    requires c != '\n' && NewlineEnded(line)
    ensures NewlineEnded([c] + line)
  {
    assert ([c] + line)[..|line|] == [c] + line[..|line| - 1];
  }

  lemma SplitLinesRoundTrip(s: string)
    ensures Join(SplitLines(s)) == s
    ensures forall k :: 0 <= k < |SplitLines(s)| - 1 ==> NewlineEnded(SplitLines(s)[k])
  {
    SplitAfterNewlineShape(s);
  }

  // ---------- Longest common subsequence ----------

  /** ms pairs equal lines of base[..i] and side[..j], strictly increasing on both sides. */
  ghost predicate Matching(base: seq<Line>, side: seq<Line>, i: nat, j: nat, ms: seq<Match>)
    requires i <= |base| && j <= |side|
  {
    && (forall k :: 0 <= k < |ms| ==>
          ms[k].baseIdx < i && ms[k].sideIdx < j && base[ms[k].baseIdx] == side[ms[k].sideIdx])
    && (forall k, l :: 0 <= k < l < |ms| ==>
          ms[k].baseIdx < ms[l].baseIdx && ms[k].sideIdx < ms[l].sideIdx)
  }

  /** What dp[i][j] holds. */
  ghost function LcsLen(base: seq<Line>, side: seq<Line>, i: nat, j: nat): nat
    requires i <= |base| && j <= |side|
    decreases i + j
  {
    if i == 0 || j == 0 then 0
    else if base[i - 1] == side[j - 1] then LcsLen(base, side, i - 1, j - 1) + 1
    else if LcsLen(base, side, i - 1, j) >= LcsLen(base, side, i, j - 1) then LcsLen(base, side, i - 1, j)
    else LcsLen(base, side, i, j - 1)
  }

  /** The pairing the backward walk from (i, j) selects, in ascending order. */
  ghost function Backtrack(base: seq<Line>, side: seq<Line>, i: nat, j: nat): seq<Match>
    requires i <= |base| && j <= |side|
    decreases i + j
  {
    if i == 0 || j == 0 then []
    else if base[i - 1] == side[j - 1] then Backtrack(base, side, i - 1, j - 1) + [Match(i - 1, j - 1)]
    else if LcsLen(base, side, i - 1, j) >= LcsLen(base, side, i, j - 1) then Backtrack(base, side, i - 1, j)
    else Backtrack(base, side, i, j - 1)
  }

  lemma AppendMatch(base: seq<Line>, side: seq<Line>, i: nat, j: nat, ms: seq<Match>)
    requires 0 < i <= |base| && 0 < j <= |side| && base[i - 1] == side[j - 1]
    requires Matching(base, side, i - 1, j - 1, ms)
    ensures Matching(base, side, i, j, ms + [Match(i - 1, j - 1)])
  {
  }

  lemma {:induction false} BacktrackIsMatching(base: seq<Line>, side: seq<Line>, i: nat, j: nat)
    requires i <= |base| && j <= |side|
    ensures Matching(base, side, i, j, Backtrack(base, side, i, j))
    ensures |Backtrack(base, side, i, j)| == LcsLen(base, side, i, j)
    decreases i + j
  {
    if i == 0 || j == 0 {
    } else if base[i - 1] == side[j - 1] {
      BacktrackIsMatching(base, side, i - 1, j - 1);
      AppendMatch(base, side, i, j, Backtrack(base, side, i - 1, j - 1));
    } else if LcsLen(base, side, i - 1, j) >= LcsLen(base, side, i, j - 1) {
      BacktrackIsMatching(base, side, i - 1, j);
    } else {
      BacktrackIsMatching(base, side, i, j - 1);
    }
  }

  /** No pairing of the two prefixes beats the table entry. */
  lemma {:induction false} LcsLenIsMaximal(base: seq<Line>, side: seq<Line>, i: nat, j: nat, ms: seq<Match>)
    requires i <= |base| && j <= |side|
    requires Matching(base, side, i, j, ms)
    ensures |ms| <= LcsLen(base, side, i, j)
    decreases i + j
  {
    if |ms| == 0 {
    } else {
      var last := ms[|ms| - 1];
      if base[i - 1] == side[j - 1] {
        LcsLenIsMaximal(base, side, i - 1, j - 1, ms[..|ms| - 1]);
      } else if last.baseIdx < i - 1 {
        LcsLenIsMaximal(base, side, i - 1, j, ms);
      } else {
        LcsLenIsMaximal(base, side, i, j - 1, ms);
      }
    }
  }

  /** No pairing of the two sides has more pairs. */
  ghost predicate Longest(base: seq<Line>, side: seq<Line>, best: seq<Match>) {
    forall ms :: Matching(base, side, |base|, |side|, ms) ==> |ms| <= |best|
  }

  predicate WithinCap(base: seq<Line>, side: seq<Line>) {
    |base| * |side| <= MAX_LCS_CELLS
  }

  /** The pairing lcsMatches returns: none past the cell cap. */
  ghost function LcsPairs(base: seq<Line>, side: seq<Line>): seq<Match> {
    if |base| == 0 || |side| == 0 || !WithinCap(base, side) then []
    else Backtrack(base, side, |base|, |side|)
  }

  lemma LcsPairsIsMatching(base: seq<Line>, side: seq<Line>)
    ensures Matching(base, side, |base|, |side|, LcsPairs(base, side))
  {
    BacktrackIsMatching(base, side, |base|, |side|);
  }

  method FillTable(base: seq<Line>, side: seq<Line>) returns (dp: array2<int>)
    ensures fresh(dp) && dp.Length0 == |base| + 1 && dp.Length1 == |side| + 1
    ensures forall k: nat, l: nat {:trigger dp[k, l]} :: k <= |base| && l <= |side| ==> dp[k, l] == LcsLen(base, side, k, l)
  {
    var m, n := |base|, |side|;
    dp := new int[m + 1, n + 1]((_, _) => 0);
    var i := 1;
    while i <= m
      invariant 1 <= i <= m + 1
      invariant forall k: nat, l: nat {:trigger dp[k, l]} :: k < i && l <= n ==> dp[k, l] == LcsLen(base, side, k, l)
      invariant forall k: nat :: k <= m ==> dp[k, 0] == 0
    {
      var j := 1;
      while j <= n
        invariant 1 <= j <= n + 1
        invariant forall k: nat, l: nat {:trigger dp[k, l]} :: k < i && l <= n ==> dp[k, l] == LcsLen(base, side, k, l)
        invariant forall l: nat {:trigger dp[i, l]} :: l < j ==> dp[i, l] == LcsLen(base, side, i, l)
        invariant forall k: nat :: k <= m ==> dp[k, 0] == 0
      {
        if base[i - 1] == side[j - 1] {
          dp[i, j] := dp[i - 1, j - 1] + 1;
        } else if dp[i - 1, j] >= dp[i, j - 1] {
          dp[i, j] := dp[i - 1, j];
        } else {
          dp[i, j] := dp[i, j - 1];
        }
        j := j + 1;
      }
      i := i + 1;
    }
  }

  ghost function Reversed(ms: seq<Match>): (r: seq<Match>)
    ensures |r| == |ms|
    ensures forall k :: 0 <= k < |ms| ==> r[k] == ms[|ms| - 1 - k]
  {
    seq(|ms|, k requires 0 <= k < |ms| => ms[|ms| - 1 - k])
  }

  method LcsMatches(base: seq<Line>, side: seq<Line>) returns (matches: seq<Match>)
    ensures matches == LcsPairs(base, side)
    ensures Matching(base, side, |base|, |side|, matches)
    ensures WithinCap(base, side) ==> Longest(base, side, matches)
  {
    var m, n := |base|, |side|;
    if m == 0 || n == 0 {
      forall ms | Matching(base, side, m, n, ms) ensures |ms| == 0 {
        LcsLenIsMaximal(base, side, m, n, ms);
      }
      return [];
    }
    if m * n > MAX_LCS_CELLS {
      return [];
    }
    var dp := FillTable(base, side);
    matches := [];
    var i, j := m, n;
    while i > 0 && j > 0
      invariant 0 <= i <= m && 0 <= j <= n
      invariant Backtrack(base, side, m, n) == Backtrack(base, side, i, j) + Reversed(matches)
      decreases i + j
    {
      if base[i - 1] == side[j - 1] {
        assert Reversed(matches + [Match(i - 1, j - 1)]) == [Match(i - 1, j - 1)] + Reversed(matches);
        matches := matches + [Match(i - 1, j - 1)];
        i, j := i - 1, j - 1;
      } else if dp[i - 1, j] >= dp[i, j - 1] {
        i := i - 1;
      } else {
        j := j - 1;
      }
    }
    ghost var walked := matches;
    var l, r := 0, |matches| - 1;
    while l < r
      invariant |matches| == |walked| && 0 <= l && r == |matches| - 1 - l && l <= r + 1
      invariant forall k :: l <= k <= r ==> matches[k] == walked[k]
      invariant forall k :: 0 <= k < l || r < k < |matches| ==> matches[k] == walked[|walked| - 1 - k]
    {
      matches := matches[l := matches[r]][r := matches[l]];
      l, r := l + 1, r - 1;
    }
    assert matches == Reversed(walked);
    BacktrackIsMatching(base, side, m, n);
    forall ms | Matching(base, side, m, n, ms) ensures |ms| <= |matches| {
      LcsLenIsMaximal(base, side, m, n, ms);
    }
  }

  // ---------- Edit hunks ----------

  /** The hunks editHunks still appends after reaching (bPrev, sPrev). */
  ghost function HunksFrom(ms: seq<Match>, bPrev: nat, sPrev: nat, m: nat, n: nat): seq<Hunk>
    decreases |ms|
  {
    if ms == [] then
      if bPrev < m || sPrev < n then [Hunk(bPrev, m, sPrev, n)] else []
    else
      (if ms[0].baseIdx > bPrev || ms[0].sideIdx > sPrev
       then [Hunk(bPrev, ms[0].baseIdx, sPrev, ms[0].sideIdx)] else [])
      + HunksFrom(ms[1..], ms[0].baseIdx + 1, ms[0].sideIdx + 1, m, n)
  }

  ghost function Hunks(base: seq<Line>, side: seq<Line>): seq<Hunk> {
    HunksFrom(LcsPairs(base, side), 0, 0, |base|, |side|)
  }

  method EditHunks(base: seq<Line>, side: seq<Line>) returns (hunks: seq<Hunk>)
    ensures hunks == Hunks(base, side)
  {
    var matches := LcsMatches(base, side);
    hunks := HunksBetween(matches, |base|, |side|);
  }

  /** The loop of editHunks over the matches of an m-line base and an n-line side. */
  method HunksBetween(matches: seq<Match>, m: nat, n: nat) returns (hunks: seq<Hunk>)
    ensures hunks == HunksFrom(matches, 0, 0, m, n)
  {
    hide HunksFrom;
    hunks := [];
    assert matches[0..] == matches;
    var bPrev: nat, sPrev: nat := 0, 0;
    var k := 0;
    while k < |matches|
      invariant 0 <= k <= |matches|
      invariant hunks + HunksFrom(matches[k..], bPrev, sPrev, m, n) == HunksFrom(matches, 0, 0, m, n)
    {
      var mt := matches[k];
      ghost var rest := HunksFrom(matches[k + 1..], mt.baseIdx + 1, mt.sideIdx + 1, m, n);
      HunksFromHead(matches, k, bPrev, sPrev, m, n);
      if mt.baseIdx > bPrev || mt.sideIdx > sPrev {
        ghost var done, h := hunks, Hunk(bPrev, mt.baseIdx, sPrev, mt.sideIdx);
        hunks := hunks + [Hunk(bPrev, mt.baseIdx, sPrev, mt.sideIdx)];
        assert hunks + rest == done + ([h] + rest);
      }
      bPrev, sPrev := mt.baseIdx + 1, mt.sideIdx + 1;
      k := k + 1;
    }
    HunksFromEnd(bPrev, sPrev, m, n);
    assert matches[|matches|..] == [];
    if bPrev < m || sPrev < n {
      hunks := hunks + [Hunk(bPrev, m, sPrev, n)];
    }
  }

  lemma HunksFromEnd(b: nat, s: nat, m: nat, n: nat)
    ensures HunksFrom([], b, s, m, n) == if b < m || s < n then [Hunk(b, m, s, n)] else []
  {
  }

  lemma HunksFromHead(ms: seq<Match>, k: nat, b: nat, s: nat, m: nat, n: nat)
    requires k < |ms|
    ensures var rest := HunksFrom(ms[k + 1..], ms[k].baseIdx + 1, ms[k].sideIdx + 1, m, n);
      HunksFrom(ms[k..], b, s, m, n) ==
        if ms[k].baseIdx > b || ms[k].sideIdx > s then [Hunk(b, ms[k].baseIdx, s, ms[k].sideIdx)] + rest else rest
  {
    assert ms[k..][1..] == ms[k + 1..];
  }

  /** One side of the merge: its lines, the hunks still ahead, and how far its
      line numbers run ahead of base's (sidePos == basePos + shift). */
  datatype Side = Side(lines: seq<Line>, hunks: seq<Hunk>, shift: int) {

    /** From base line pos on, base and this side agree except at the hunks,
        which are ordered, in range and separated by at least one shared line. */
    ghost predicate Aligned(base: seq<Line>, pos: nat)
      decreases |hunks|
    {
      && pos <= |base| && 0 <= pos + shift <= |lines|
      && if hunks == [] then base[pos..] == lines[pos + shift..]
         else
           var h := hunks[0];
           && pos <= h.baseLo <= h.baseHi <= |base|
           && h.sideLo == h.baseLo + shift && h.sideLo <= h.sideHi <= |lines|
           && base[pos..h.baseLo] == lines[pos + shift..h.sideLo]
           && (|hunks| > 1 ==> h.baseHi < hunks[1].baseLo)
           && Pop().Aligned(base, h.baseHi)
    }

    function Pop(): (r: Side)
      requires hunks != []
      ensures r.lines == lines
    {
      Side(lines, hunks[1..], hunks[0].sideHi - hunks[0].baseHi)
    }

    predicate At(pos: nat) {
      hunks != [] && hunks[0].baseLo == pos
    }

    /** The hunk anchored at pos consumed, if there is one. */
    function PopAt(pos: nat): (r: Side)
      ensures r.lines == lines && |r.hunks| <= |hunks|
    {
      if At(pos) then Pop() else this
    }

    /** How far the hunk anchored at pos reaches in base. */
    function Reach(pos: nat): nat {
      if At(pos) then hunks[0].baseHi else pos
    }

    /** Every hunk that starts before e consumed. */
    function Skip(e: nat): (r: Side)
      ensures r.lines == lines && |r.hunks| <= |hunks|
      decreases |hunks|
    {
      if hunks != [] && hunks[0].baseLo < e then Pop().Skip(e) else this
    }

    function NextLo(bound: nat): nat {
      if hunks != [] && hunks[0].baseLo < bound then hunks[0].baseLo else bound
    }
  }

  /** Any pairing, not only the longest one, gives hunks that align the two sides. */
  lemma {:induction false} HunksAlign(base: seq<Line>, side: seq<Line>, ms: seq<Match>, b: nat, s: nat)
    requires b <= |base| && s <= |side|
    requires Matching(base, side, |base|, |side|, ms)
    requires forall k :: 0 <= k < |ms| ==> b <= ms[k].baseIdx && s <= ms[k].sideIdx
    ensures Side(side, HunksFrom(ms, b, s, |base|, |side|), s - b).Aligned(base, b)
    decreases |ms|
  {
    hide Side.Aligned;
    if ms == [] {
      AlignedEnd(base, side, b, s);
    } else {
      var b1, s1 := ms[0].baseIdx + 1, ms[0].sideIdx + 1;
      assert Matching(base, side, |base|, |side|, ms[1..]);
      HunksAlign(base, side, ms[1..], b1, s1);
      AlignedStep(base, side, b, s, b1, s1, HunksFrom(ms[1..], b1, s1, |base|, |side|));
    }
  }

  lemma AlignedEnd(base: seq<Line>, side: seq<Line>, b: nat, s: nat)
    requires b <= |base| && s <= |side|
    ensures Side(side, HunksFrom([], b, s, |base|, |side|), s - b).Aligned(base, b)
  {
    var it := Side(side, HunksFrom([], b, s, |base|, |side|), s - b);
    if it.hunks == [] {
      assert base[b..] == side[s..] == [];
    } else {
      assert it.Pop().Aligned(base, |base|) by { assert base[|base|..] == side[|side|..] == []; }
      assert base[b..b] == side[s..s] == [];
    }
  }

  /** A shared line at (b1 - 1, s1 - 1), then hunks rest: the gap from (b, s) becomes a hunk in front. */
  lemma AlignedStep(base: seq<Line>, side: seq<Line>, b: nat, s: nat, b1: nat, s1: nat, rest: seq<Hunk>)
    requires b < b1 <= |base| && s < s1 <= |side| && base[b1 - 1] == side[s1 - 1]
    requires Side(side, rest, s1 - b1).Aligned(base, b1)
    ensures var gap := if b1 - 1 > b || s1 - 1 > s then [Hunk(b, b1 - 1, s, s1 - 1)] else [];
      Side(side, gap + rest, s - b).Aligned(base, b)
  {
    hide Side.Aligned;
    ExtendDown(base, Side(side, rest, s1 - b1), b1 - 1);
    if b1 - 1 > b || s1 - 1 > s {
      FirstHunk(base, Side(side, rest, s1 - b1), b1);
      AlignedCons(base, side, Hunk(b, b1 - 1, s, s1 - 1), rest);
    } else {
      assert [] + rest == rest;
    }
  }

  lemma FirstHunk(base: seq<Line>, side: Side, pos: nat)
    requires side.Aligned(base, pos)
    ensures side.hunks != [] ==> var h := side.hunks[0];
      && pos <= h.baseLo <= h.baseHi <= |base|
      && h.sideLo == h.baseLo + side.shift && h.sideLo <= h.sideHi <= |side.lines|
      && side.Pop().Aligned(base, h.baseHi)
  {
  }

  lemma AlignedCons(base: seq<Line>, side: seq<Line>, h: Hunk, rest: seq<Hunk>)
    requires h.baseLo <= h.baseHi <= |base| && h.sideLo <= h.sideHi <= |side|
    requires rest != [] ==> h.baseHi < rest[0].baseLo
    requires Side(side, rest, h.sideHi - h.baseHi).Aligned(base, h.baseHi)
    ensures Side(side, [h] + rest, h.sideLo - h.baseLo).Aligned(base, h.baseLo)
  {
    var it := Side(side, [h] + rest, h.sideLo - h.baseLo);
    assert it.Pop() == Side(side, rest, h.sideHi - h.baseHi);
    assert base[h.baseLo..h.baseLo] == side[h.sideLo..h.sideLo];
  }

  /** One more shared line in front keeps the alignment. */
  lemma ExtendDown(base: seq<Line>, side: Side, pos: nat)
    requires side.Aligned(base, pos + 1) && 0 <= pos + side.shift
    requires base[pos] == side.lines[pos + side.shift]
    ensures side.Aligned(base, pos)
  {
    if side.hunks == [] {
      assert base[pos..] == [base[pos]] + base[pos + 1..];
      assert side.lines[pos + side.shift..] == [base[pos]] + side.lines[pos + 1 + side.shift..];
    } else {
      var h := side.hunks[0];
      assert base[pos..h.baseLo] == [base[pos]] + base[pos + 1..h.baseLo];
      assert side.lines[pos + side.shift..h.sideLo] == [base[pos]] + side.lines[pos + 1 + side.shift..h.sideLo];
    }
  }

  ghost function SideOf(base: seq<Line>, lines: seq<Line>): Side {
    Side(lines, Hunks(base, lines), 0)
  }

  lemma SideOfAligned(base: seq<Line>, lines: seq<Line>)
    ensures SideOf(base, lines).Aligned(base, 0)
  {
    LcsPairsIsMatching(base, lines);
    HunksAlign(base, lines, LcsPairs(base, lines), 0, 0);
  }

  // ---------- Applying edits ----------

  /** Base lines lo..hi replaced by lines. */
  datatype Edit = Edit(lo: nat, hi: nat, lines: seq<Line>)

  ghost function Edits(side: Side, base: seq<Line>, pos: nat): seq<Edit>
    requires side.Aligned(base, pos)
    decreases |side.hunks|
  {
    if side.hunks == [] then []
    else
      var h := side.hunks[0];
      [Edit(h.baseLo, h.baseHi, side.lines[h.sideLo..h.sideHi])] + Edits(side.Pop(), base, h.baseHi)
  }

  ghost predicate InOrder(base: seq<Line>, pos: nat, es: seq<Edit>)
    decreases |es|
  {
    pos <= |base| && (es == [] || (pos <= es[0].lo <= es[0].hi <= |base| && InOrder(base, es[0].hi, es[1..])))
  }

  /** base[pos..] with every edit applied. */
  ghost function Apply(base: seq<Line>, pos: nat, es: seq<Edit>): seq<Line>
    requires InOrder(base, pos, es)
    decreases |es|
  {
    if es == [] then base[pos..]
    else
      base[pos..es[0].lo] + es[0].lines + Apply(base, es[0].hi, es[1..])
  }

  /** Applying one side's hunks to base gives that side back. */
  lemma {:induction false} EditsRebuildSide(side: Side, base: seq<Line>, pos: nat)
    requires side.Aligned(base, pos)
    ensures InOrder(base, pos, Edits(side, base, pos))
    ensures Apply(base, pos, Edits(side, base, pos)) == side.lines[pos + side.shift..]
    decreases |side.hunks|
  {
    if side.hunks != [] {
      var h := side.hunks[0];
      FirstHunk(base, side, pos);
      EditsRebuildSide(side.Pop(), base, h.baseHi);
      var es := Edits(side, base, pos);
      assert es[1..] == Edits(side.Pop(), base, h.baseHi);
      hide Edits;
      var tail := side.lines[h.sideHi..];
      assert base[pos..h.baseLo] == side.lines[pos + side.shift..h.sideLo];
      hide Side.Aligned;
      assert side.lines[pos + side.shift..] ==
        side.lines[pos + side.shift..h.sideLo] + side.lines[h.sideLo..h.sideHi] + tail;
    }
  }

  /** editHunks loses nothing: base with its hunks applied is the side, cap or no cap. */
  lemma HunksRebuildSide(base: seq<Line>, lines: seq<Line>)
    ensures SideOf(base, lines).Aligned(base, 0)
    ensures var es := Edits(SideOf(base, lines), base, 0); InOrder(base, 0, es) && Apply(base, 0, es) == lines
  {
    SideOfAligned(base, lines);
    EditsRebuildSide(SideOf(base, lines), base, 0);
  }

  // ---------- Unstable chunks ----------

  function Max(a: nat, b: nat): nat { if a > b then a else b }

  ghost predicate Separated(hs: seq<Hunk>) {
    && (forall k :: 0 <= k < |hs| ==> hs[k].baseLo <= hs[k].baseHi)
    && (forall k, l :: 0 <= k < l < |hs| ==> hs[k].baseHi < hs[l].baseLo)
  }

  /** No hunk starts before e and ends after it. */
  ghost predicate Closed(hs: seq<Hunk>, e: nat) {
    forall k :: 0 <= k < |hs| && hs[k].baseLo < e ==> hs[k].baseHi <= e
  }

  lemma {:induction false} AlignedSeparated(side: Side, base: seq<Line>, pos: nat)
    requires side.Aligned(base, pos)
    ensures Separated(side.hunks)
    ensures forall k :: 0 <= k < |side.hunks| ==> pos <= side.hunks[k].baseLo && side.hunks[k].baseHi <= |base|
    decreases |side.hunks|
  {
    var hs := side.hunks;
    if hs != [] {
      AlignedSeparated(side.Pop(), base, hs[0].baseHi);
      assert forall k :: 1 <= k < |hs| ==> hs[k] == side.Pop().hunks[k - 1];
      forall k | 1 <= k < |hs| ensures hs[0].baseHi < hs[k].baseLo {
        if k > 1 { assert side.Pop().hunks[0].baseHi < side.Pop().hunks[k - 1].baseLo; }
      }
    }
  }

  lemma ClosedTail(hs: seq<Hunk>, e: nat)
    requires hs != []
    ensures Closed(hs, e) <==> (hs[0].baseLo < e ==> hs[0].baseHi <= e) && Closed(hs[1..], e)
    ensures Separated(hs) ==> Separated(hs[1..])
    ensures Separated(hs) && e <= hs[0].baseLo ==> Closed(hs, e)
  {
    assert forall k :: 1 <= k < |hs| ==> hs[k] == hs[1..][k - 1];
  }

  lemma ClosedBefore(hs: seq<Hunk>, e: nat)
    requires Separated(hs) && (hs != [] ==> e <= hs[0].baseLo)
    ensures Closed(hs, e)
  {
    if hs != [] { ClosedTail(hs, e); }
  }

  ghost predicate Ends(os: seq<Hunk>, ts: seq<Hunk>, e: nat) {
    Closed(os, e) && Closed(ts, e)
  }

  /** Where the chunk that already reaches e ends: the least point no hunk of either side crosses. */
  ghost function ChunkEnd(os: seq<Hunk>, ts: seq<Hunk>, e: nat): (r: nat)
    requires Separated(os) && Separated(ts)
    ensures e <= r && Ends(os, ts, r)
    ensures forall x :: e <= x && Ends(os, ts, x) ==> r <= x
    decreases |os| + |ts|
  {
    hide Closed;
    hide Separated;
    if os != [] && os[0].baseLo < e then
      assert forall x :: Ends(os, ts, x) <==> (os[0].baseLo < x ==> os[0].baseHi <= x) && Ends(os[1..], ts, x) by {
        forall x: nat { ClosedTail(os, x); }
      }
      ClosedTail(os, e);
      ChunkEnd(os[1..], ts, Max(e, os[0].baseHi))
    else if ts != [] && ts[0].baseLo < e then
      assert forall x :: Ends(os, ts, x) <==> (ts[0].baseLo < x ==> ts[0].baseHi <= x) && Ends(os, ts[1..], x) by {
        forall x: nat { ClosedTail(ts, x); }
      }
      ClosedTail(ts, e);
      ChunkEnd(os, ts[1..], Max(e, ts[0].baseHi))
    else
      ClosedBefore(os, e);
      ClosedBefore(ts, e);
      e
  }

  /** The chunk end does not depend on which side is absorbed first. */
  lemma ChunkEndSwap(os: seq<Hunk>, ts: seq<Hunk>, e: nat)
    requires Separated(os) && Separated(ts)
    ensures ChunkEnd(os, ts, e) == ChunkEnd(ts, os, e)
  {
    assert Ends(ts, os, ChunkEnd(os, ts, e)) && Ends(os, ts, ChunkEnd(ts, os, e));
  }

  lemma AbsorbTheirs(os: seq<Hunk>, ts: seq<Hunk>, e: nat)
    requires Separated(os) && Separated(ts) && ts != [] && ts[0].baseLo < e
    ensures Separated(ts[1..])
    ensures ChunkEnd(os, ts, e) == ChunkEnd(os, ts[1..], Max(e, ts[0].baseHi))
  {
    ChunkEndSwap(os, ts, e);
    ChunkEndSwap(os, ts[1..], Max(e, ts[0].baseHi));
  }

  /** Past a point its hunks do not cross, a side is aligned again. */
  lemma {:induction false} SkipAligned(side: Side, base: seq<Line>, pos: nat, e: nat)
    requires side.Aligned(base, pos) && pos <= e <= |base| && Closed(side.hunks, e)
    ensures side.Skip(e).Aligned(base, e)
    ensures pos + side.shift <= e + side.Skip(e).shift
    decreases |side.hunks|
  {
    AlignedSeparated(side, base, pos);
    if side.hunks != [] && side.hunks[0].baseLo < e {
      assert Closed(side.Pop().hunks, e) by {
        assert forall k :: 0 <= k < |side.Pop().hunks| ==> side.Pop().hunks[k] == side.hunks[k + 1];
      }
      SkipAligned(side.Pop(), base, side.hunks[0].baseHi, e);
    } else {
      SkipShared(side, base, pos, e);
    }
  }

  lemma SliceAgree<T>(a: seq<T>, b: seq<T>, p: nat, r: nat, d: nat, n: nat)
    requires d <= n && p + n <= |a| && r + n <= |b| && a[p..p + n] == b[r..r + n]
    ensures a[p..p + d] == b[r..r + d] && a[p + d..p + n] == b[r + d..r + n]
  {
    assert a[p..p + d] == a[p..p + n][..d] && b[r..r + d] == b[r..r + n][..d];
    assert a[p + d..p + n] == a[p..p + n][d..] && b[r + d..r + n] == b[r..r + n][d..];
  }

  /** Moving over shared lines only. */
  lemma SkipShared(side: Side, base: seq<Line>, pos: nat, e: nat)
    requires side.Aligned(base, pos) && pos <= e <= |base|
    requires side.hunks != [] ==> e <= side.hunks[0].baseLo
    ensures side.Aligned(base, e)
    ensures e + side.shift <= |side.lines|
    ensures base[pos..e] == side.lines[pos + side.shift..e + side.shift]
  {
    var from := pos + side.shift;
    if side.hunks == [] {
      assert |base[pos..]| == |side.lines[from..]|;
      assert base[pos..] == base[pos..|base|] && side.lines[from..] == side.lines[from..|side.lines|];
      SliceAgree(base, side.lines, pos, from, e - pos, |base| - pos);
    } else {
      SliceAgree(base, side.lines, pos, from, e - pos, side.hunks[0].baseLo - pos);
    }
  }

  // ---------- The pieces of a merge ----------

  datatype Piece =
    | Stable(lines: seq<Line>)
    | Chunk(base: seq<Line>, ours: seq<Line>, theirs: seq<Line>)
  {
    function Base(): seq<Line> { if Stable? then lines else base }
    function Ours(): seq<Line> { if Stable? then lines else ours }
    function Theirs(): seq<Line> { if Stable? then lines else theirs }
    function Swap(): Piece { if Stable? then this else Chunk(base, theirs, ours) }

    predicate Conflicting() {
      Chunk? && ours != base && theirs != base && ours != theirs
    }

    /** What the piece writes, line by line. */
    function Emit(): seq<string> {
      if Conflicting() then
        ["<<<<<<< ours\n"] + Padded(ours) + ["=======\n"] + Padded(theirs) + [">>>>>>> theirs\n"]
      else if Ours() == Base() then Theirs()
      else Ours()
    }
  }

  function Padded(lines: seq<Line>): seq<string> {
    if lines == [] then lines
    else
      var last := lines[|lines| - 1];
      if last == "" || last[|last| - 1] == '\n' then lines else lines + ["\n"]
  }

  function Emitted(ps: seq<Piece>): seq<string> {
    if ps == [] then [] else ps[0].Emit() + Emitted(ps[1..])
  }

  predicate AnyConflict(ps: seq<Piece>) {
    exists k :: 0 <= k < |ps| && ps[k].Conflicting()
  }

  function BaseOf(ps: seq<Piece>): seq<Line> {
    if ps == [] then [] else ps[0].Base() + BaseOf(ps[1..])
  }

  function OursOf(ps: seq<Piece>): seq<Line> {
    if ps == [] then [] else ps[0].Ours() + OursOf(ps[1..])
  }

  function Swapped(ps: seq<Piece>): (r: seq<Piece>)
    ensures |r| == |ps| && forall k :: 0 <= k < |ps| ==> r[k] == ps[k].Swap()
  {
    seq(|ps|, k requires 0 <= k < |ps| => ps[k].Swap())
  }

  lemma PopAligned(side: Side, base: seq<Line>, pos: nat)
    requires side.Aligned(base, pos)
    ensures pos <= side.Reach(pos) <= |base|
    ensures side.PopAt(pos).Aligned(base, side.Reach(pos))
    ensures 0 <= pos + side.shift <= side.Reach(pos) + side.PopAt(pos).shift
  {
  }

  lemma PopSeparated(side: Side, base: seq<Line>, pos: nat)
    requires side.Aligned(base, pos)
    ensures Separated(side.PopAt(pos).hunks) && Closed(side.PopAt(pos).hunks, |base|)
  {
    hide Side.Aligned;
    PopAligned(side, base, pos);
    AlignedSeparated(side.PopAt(pos), base, side.Reach(pos));
  }

  /** The end of the chunk that starts at pos, where at least one side has a hunk. */
  ghost function EndFrom(base: seq<Line>, ours: Side, theirs: Side, pos: nat): (e: nat)
    requires ours.Aligned(base, pos) && theirs.Aligned(base, pos)
    ensures Separated(ours.PopAt(pos).hunks) && Separated(theirs.PopAt(pos).hunks)
    ensures e == ChunkEnd(ours.PopAt(pos).hunks, theirs.PopAt(pos).hunks, Max(ours.Reach(pos), theirs.Reach(pos)))
    ensures pos <= e <= |base|
    ensures ours.PopAt(pos).Skip(e).Aligned(base, e) && theirs.PopAt(pos).Skip(e).Aligned(base, e)
    ensures pos + ours.shift <= e + ours.PopAt(pos).Skip(e).shift
    ensures pos + theirs.shift <= e + theirs.PopAt(pos).Skip(e).shift
  {
    hide Side.Aligned;
    hide Side.PopAt;
    hide Side.Reach;
    hide Side.Skip;
    hide Separated;
    hide Closed;
    hide ChunkEnd;
    var o, t := ours.PopAt(pos), theirs.PopAt(pos);
    PopAligned(ours, base, pos);
    PopAligned(theirs, base, pos);
    PopSeparated(ours, base, pos);
    PopSeparated(theirs, base, pos);
    var e := ChunkEnd(o.hunks, t.hunks, Max(ours.Reach(pos), theirs.Reach(pos)));
    assert Ends(o.hunks, t.hunks, |base|);
    SkipAligned(o, base, ours.Reach(pos), e);
    SkipAligned(t, base, theirs.Reach(pos), e);
    e
  }

  lemma InRange(base: seq<Line>, side: Side, pos: nat)
    requires side.Aligned(base, pos)
    ensures pos <= |base| && 0 <= pos + side.shift <= |side.lines|
  {
  }

  /** One piece cut off the front, and what is left on each side. */
  datatype Cut = Cut(piece: Piece, ours: Side, theirs: Side, end: nat)

  ghost predicate Done(base: seq<Line>, ours: Side, theirs: Side, pos: nat) {
    pos == |base| && ours.hunks == [] && theirs.hunks == []
  }

  /** The piece is base, ours and theirs between where the cursors stood and where the cut leaves them. */
  ghost predicate Shaped(base: seq<Line>, ours: Side, theirs: Side, pos: nat, c: Cut) {
    && pos <= c.end <= |base| && c.piece.Base() == base[pos..c.end]
    && 0 <= pos + ours.shift <= c.end + c.ours.shift <= |ours.lines|
    && c.piece.Ours() == ours.lines[pos + ours.shift..c.end + c.ours.shift]
    && 0 <= pos + theirs.shift <= c.end + c.theirs.shift <= |theirs.lines|
    && c.piece.Theirs() == theirs.lines[pos + theirs.shift..c.end + c.theirs.shift]
  }

  ghost function StableCut(base: seq<Line>, ours: Side, theirs: Side, pos: nat): (c: Cut)
    requires ours.Aligned(base, pos) && theirs.Aligned(base, pos) && !ours.At(pos) && !theirs.At(pos)
    ensures pos <= c.end <= |base| && c.ours == ours && c.theirs == theirs
    ensures ours.Aligned(base, c.end) && theirs.Aligned(base, c.end)
    ensures c.piece == Stable(base[pos..c.end]) && Shaped(base, ours, theirs, pos, c)
    ensures c.end > pos || Done(base, ours, theirs, pos)
  {
    hide Side.Aligned;
    var e := ours.NextLo(theirs.NextLo(|base|));
    InRange(base, ours, pos);
    InRange(base, theirs, pos);
    FirstHunk(base, ours, pos);
    FirstHunk(base, theirs, pos);
    SkipShared(ours, base, pos, e);
    SkipShared(theirs, base, pos, e);
    Cut(Stable(base[pos..e]), ours, theirs, e)
  }

  lemma ChunkShape(base: seq<Line>, ours: Side, theirs: Side, pos: nat, o: Side, t: Side, e: nat)
    requires ours.Aligned(base, pos) && theirs.Aligned(base, pos) && o.Aligned(base, e) && t.Aligned(base, e) && pos <= e
    requires o.lines == ours.lines && pos + ours.shift <= e + o.shift
    requires t.lines == theirs.lines && pos + theirs.shift <= e + t.shift
    ensures e <= |base| && 0 <= pos + ours.shift && e + o.shift <= |ours.lines|
    ensures 0 <= pos + theirs.shift && e + t.shift <= |theirs.lines|
    ensures Shaped(base, ours, theirs, pos,
      Cut(Chunk(base[pos..e], ours.lines[pos + ours.shift..e + o.shift], theirs.lines[pos + theirs.shift..e + t.shift]), o, t, e))
  {
    hide Side.Aligned;
    InRange(base, ours, pos);
    InRange(base, theirs, pos);
    InRange(base, o, e);
    InRange(base, t, e);
  }

  ghost function ChunkCut(base: seq<Line>, ours: Side, theirs: Side, pos: nat): (c: Cut)
    requires ours.Aligned(base, pos) && theirs.Aligned(base, pos)
    ensures pos <= c.end <= |base| && c.end == EndFrom(base, ours, theirs, pos)
    ensures c.ours == ours.PopAt(pos).Skip(c.end) && c.theirs == theirs.PopAt(pos).Skip(c.end)
    ensures c.ours.Aligned(base, c.end) && c.theirs.Aligned(base, c.end)
    ensures c.piece.Chunk? && Shaped(base, ours, theirs, pos, c)
  {
    hide EndFrom;
    hide Side.Aligned;
    hide Side.PopAt;
    hide Side.Skip;
    hide Shaped;
    var e := EndFrom(base, ours, theirs, pos);
    var o, t := ours.PopAt(pos).Skip(e), theirs.PopAt(pos).Skip(e);
    ChunkShape(base, ours, theirs, pos, o, t, e);
    Cut(Chunk(base[pos..e], ours.lines[pos + ours.shift..e + o.shift], theirs.lines[pos + theirs.shift..e + t.shift]),
        o, t, e)
  }

  ghost function NextCut(base: seq<Line>, ours: Side, theirs: Side, pos: nat): (c: Cut)
    requires ours.Aligned(base, pos) && theirs.Aligned(base, pos) && !Done(base, ours, theirs, pos)
    ensures pos <= c.end <= |base| && c.ours.Aligned(base, c.end) && c.theirs.Aligned(base, c.end)
    ensures c.ours.lines == ours.lines && c.theirs.lines == theirs.lines
    ensures |base| - c.end + |c.ours.hunks| + |c.theirs.hunks| < |base| - pos + |ours.hunks| + |theirs.hunks|
  {
    hide EndFrom;
    hide StableCut;
    hide ChunkCut;
    hide Side.Aligned;
    hide Side.Skip;
    if !ours.At(pos) && !theirs.At(pos) then StableCut(base, ours, theirs, pos) else ChunkCut(base, ours, theirs, pos)
  }

  lemma NextIs(base: seq<Line>, ours: Side, theirs: Side, pos: nat)
    requires ours.Aligned(base, pos) && theirs.Aligned(base, pos) && !Done(base, ours, theirs, pos)
    ensures ours.At(pos) || theirs.At(pos) ==>
      NextCut(base, ours, theirs, pos) == ChunkCut(base, ours, theirs, pos)
    ensures !ours.At(pos) && !theirs.At(pos) ==>
      NextCut(base, ours, theirs, pos) == StableCut(base, ours, theirs, pos)
  {
    hide ChunkCut;
    hide StableCut;
    hide Side.Aligned;
  }

  lemma CutShape(base: seq<Line>, ours: Side, theirs: Side, pos: nat)
    requires ours.Aligned(base, pos) && theirs.Aligned(base, pos) && !Done(base, ours, theirs, pos)
    ensures Shaped(base, ours, theirs, pos, NextCut(base, ours, theirs, pos))
  {
    hide NextCut;
    hide StableCut;
    hide ChunkCut;
    hide Side.Aligned;
    hide Shaped;
    NextIs(base, ours, theirs, pos);
  }

  /** The merge of everything from base line pos on. */
  ghost function Pieces(base: seq<Line>, ours: Side, theirs: Side, pos: nat): seq<Piece>
    requires ours.Aligned(base, pos) && theirs.Aligned(base, pos)
    decreases |base| - pos + |ours.hunks| + |theirs.hunks|
  {
    if Done(base, ours, theirs, pos) then []
    else
      var c := NextCut(base, ours, theirs, pos);
      [c.piece] + Pieces(base, c.ours, c.theirs, c.end)
  }

  ghost function AllPieces(base: seq<Line>, ours: seq<Line>, theirs: seq<Line>): seq<Piece> {
    SideOfAligned(base, ours);
    SideOfAligned(base, theirs);
    Pieces(base, SideOf(base, ours), SideOf(base, theirs), 0)
  }

  /** Three-way merge, stated on whole documents. */
  ghost function Merged(base: string, ours: string, theirs: string): Result {
    var ps := AllPieces(SplitLines(base), SplitLines(ours), SplitLines(theirs));
    Result(Join(Emitted(ps)), AnyConflict(ps))
  }

  lemma ConsConflict(p: Piece, ps: seq<Piece>)
    ensures AnyConflict([p] + ps) <==> p.Conflicting() || AnyConflict(ps)
  {
    var all := [p] + ps;
    if p.Conflicting() { assert all[0].Conflicting(); }
    if AnyConflict(ps) {
      var k :| 0 <= k < |ps| && ps[k].Conflicting();
      assert all[k + 1].Conflicting();
    }
  }

  lemma Rejoin<T>(s: seq<T>, a: nat, b: nat)
    requires a <= b <= |s|
    ensures s[a..b] + s[b..] == s[a..]
  {
  }

  lemma CutTiles(base: seq<Line>, ours: Side, theirs: Side, pos: nat)
    requires ours.Aligned(base, pos) && theirs.Aligned(base, pos) && !Done(base, ours, theirs, pos)
    ensures var c := NextCut(base, ours, theirs, pos);
      && c.piece.Base() + base[c.end..] == base[pos..]
      && c.piece.Ours() + ours.lines[c.end + c.ours.shift..] == ours.lines[pos + ours.shift..]
  {
    hide NextCut;
    hide Side.Aligned;
    CutShape(base, ours, theirs, pos);
    var c := NextCut(base, ours, theirs, pos);
    Rejoin(base, pos, c.end);
    Rejoin(ours.lines, pos + ours.shift, c.end + c.ours.shift);
  }

  /** Conservation: the pieces tile base and ours; with SwapPieces, theirs too. */
  lemma {:induction false} PiecesTile(base: seq<Line>, ours: Side, theirs: Side, pos: nat)
    requires ours.Aligned(base, pos) && theirs.Aligned(base, pos)
    ensures var ps := Pieces(base, ours, theirs, pos);
      BaseOf(ps) == base[pos..] && OursOf(ps) == ours.lines[pos + ours.shift..]
    decreases |base| - pos + |ours.hunks| + |theirs.hunks|
  {
    hide NextCut;
    if !Done(base, ours, theirs, pos) {
      var c := NextCut(base, ours, theirs, pos);
      PiecesTile(base, c.ours, c.theirs, c.end);
      CutTiles(base, ours, theirs, pos);
    }
  }

  // ---------- Merge laws ----------

  lemma EndFromSwap(base: seq<Line>, ours: Side, theirs: Side, pos: nat)
    requires ours.Aligned(base, pos) && theirs.Aligned(base, pos)
    ensures EndFrom(base, ours, theirs, pos) == EndFrom(base, theirs, ours, pos)
  {
    var e := EndFrom(base, ours, theirs, pos);
    ChunkEndSwap(ours.PopAt(pos).hunks, theirs.PopAt(pos).hunks, Max(ours.Reach(pos), theirs.Reach(pos)));
  }

  lemma SwapChunk(base: seq<Line>, ours: Side, theirs: Side, pos: nat)
    requires ours.Aligned(base, pos) && theirs.Aligned(base, pos)
    ensures var c := ChunkCut(base, ours, theirs, pos);
      ChunkCut(base, theirs, ours, pos) == Cut(c.piece.Swap(), c.theirs, c.ours, c.end)
  {
    hide EndFrom;
    hide ChunkCut;
    hide Side.Aligned;
    hide Side.Skip;
    hide Side.PopAt;
    EndFromSwap(base, ours, theirs, pos);
  }

  lemma SwapCut(base: seq<Line>, ours: Side, theirs: Side, pos: nat)
    requires ours.Aligned(base, pos) && theirs.Aligned(base, pos) && !Done(base, ours, theirs, pos)
    ensures var c := NextCut(base, ours, theirs, pos);
      NextCut(base, theirs, ours, pos) == Cut(c.piece.Swap(), c.theirs, c.ours, c.end)
  {
    hide NextCut;
    hide ChunkCut;
    hide Side.Aligned;
    hide Side.NextLo;
    NextIs(base, ours, theirs, pos);
    NextIs(base, theirs, ours, pos);
    SwapChunk(base, ours, theirs, pos);
    if !ours.At(pos) && !theirs.At(pos) { SwapNextLo(ours, theirs, |base|); }
  }

  lemma SwapNextLo(ours: Side, theirs: Side, bound: nat)
    ensures ours.NextLo(theirs.NextLo(bound)) == theirs.NextLo(ours.NextLo(bound))
  {
  }

  /** Exchanging the two sides exchanges them in every piece and moves no boundary. */
  lemma {:induction false} SwapPieces(base: seq<Line>, ours: Side, theirs: Side, pos: nat)
    requires ours.Aligned(base, pos) && theirs.Aligned(base, pos)
    ensures Pieces(base, theirs, ours, pos) == Swapped(Pieces(base, ours, theirs, pos))
    decreases |base| - pos + |ours.hunks| + |theirs.hunks|
  {
    hide NextCut;
    hide Side.Aligned;
    hide Swapped;
    if !Done(base, ours, theirs, pos) {
      var c := NextCut(base, ours, theirs, pos);
      SwapCut(base, ours, theirs, pos);
      SwapPieces(base, c.ours, c.theirs, c.end);
    }
  }

  lemma {:induction false} SwapEmits(ps: seq<Piece>)
    requires !AnyConflict(ps)
    ensures Emitted(Swapped(ps)) == Emitted(ps)
  {
    if ps != [] {
      assert Swapped(ps)[1..] == Swapped(ps[1..]);
      assert !ps[0].Conflicting();
      assert ps == [ps[0]] + ps[1..];
      ConsConflict(ps[0], ps[1..]);
      SwapEmits(ps[1..]);
    }
  }

  lemma SwapKeepsConflict(ps: seq<Piece>)
    ensures AnyConflict(Swapped(ps)) <==> AnyConflict(ps)
  {
    assert forall k :: 0 <= k < |ps| ==> Swapped(ps)[k].Conflicting() == ps[k].Conflicting();
  }

  /** Whose edit is called ours changes neither the verdict nor a clean result. */
  lemma MergeIsSymmetric(base: string, ours: string, theirs: string)
    ensures Merged(base, theirs, ours).conflict == Merged(base, ours, theirs).conflict
    ensures !Merged(base, ours, theirs).conflict ==> Merged(base, theirs, ours) == Merged(base, ours, theirs)
  {
    hide Pieces;
    hide Hunks;
    hide Side.Aligned;
    hide SplitLines;
    hide Swapped;
    hide AnyConflict;
    var b, o, t := SplitLines(base), SplitLines(ours), SplitLines(theirs);
    SideOfAligned(b, o);
    SideOfAligned(b, t);
    var ps := AllPieces(b, o, t);
    SwapPieces(b, SideOf(b, o), SideOf(b, t), 0);
    SwapKeepsConflict(ps);
    if !AnyConflict(ps) { SwapEmits(ps); }
  }

  /** A side that renames nothing: every hunk sits at the same lines on both sides. */
  ghost predicate Transparent(base: seq<Line>, side: Side) {
    side.lines == base && side.shift == 0 &&
    forall k :: 0 <= k < |side.hunks| ==>
      side.hunks[k].sideLo == side.hunks[k].baseLo && side.hunks[k].sideHi == side.hunks[k].baseHi
  }

  lemma {:induction false} SkipTransparent(base: seq<Line>, side: Side, e: nat)
    requires Transparent(base, side)
    ensures Transparent(base, side.Skip(e))
    decreases |side.hunks|
  {
    if side.hunks != [] && side.hunks[0].baseLo < e { SkipTransparent(base, side.Pop(), e); }
  }

  lemma TransparentCut(base: seq<Line>, ours: Side, theirs: Side, pos: nat)
    requires ours.Aligned(base, pos) && theirs.Aligned(base, pos) && !Done(base, ours, theirs, pos)
    requires Transparent(base, theirs)
    ensures var c := NextCut(base, ours, theirs, pos);
      c.piece.Theirs() == c.piece.Base() && Transparent(base, c.theirs)
  {
    hide EndFrom;
    hide Side.Aligned;
    hide Side.Skip;
    if ours.At(pos) || theirs.At(pos) {
      assert Transparent(base, theirs.PopAt(pos));
      SkipTransparent(base, theirs.PopAt(pos), NextCut(base, ours, theirs, pos).end);
    }
  }

  lemma {:induction false} TransparentPieces(base: seq<Line>, ours: Side, theirs: Side, pos: nat)
    requires ours.Aligned(base, pos) && theirs.Aligned(base, pos) && Transparent(base, theirs)
    ensures forall p <- Pieces(base, ours, theirs, pos) :: p.Theirs() == p.Base()
    decreases |base| - pos + |ours.hunks| + |theirs.hunks|
  {
    hide NextCut;
    if !Done(base, ours, theirs, pos) {
      var c := NextCut(base, ours, theirs, pos);
      TransparentCut(base, ours, theirs, pos);
      TransparentPieces(base, c.ours, c.theirs, c.end);
    }
  }

  /** When theirs changes nothing, or both change alike, the merge is ours. */
  lemma {:induction false} EmitsOurs(ps: seq<Piece>)
    requires forall p <- ps :: p.Theirs() == p.Base() || p.Theirs() == p.Ours()
    ensures !AnyConflict(ps) && Emitted(ps) == OursOf(ps)
  {
    if ps != [] {
      assert forall p <- ps[1..] :: p in ps;
      EmitsOurs(ps[1..]);
      assert ps[0] in ps && ps == [ps[0]] + ps[1..];
      ConsConflict(ps[0], ps[1..]);
    }
  }

  lemma {:induction false} BacktrackSelf(base: seq<Line>, i: nat)
    requires i <= |base|
    ensures forall mt <- Backtrack(base, base, i, i) :: mt.baseIdx == mt.sideIdx
  {
    if i > 0 { BacktrackSelf(base, i - 1); }
  }

  lemma {:induction false} SelfHunks(ms: seq<Match>, b: nat, m: nat)
    requires forall mt <- ms :: mt.baseIdx == mt.sideIdx
    ensures forall h <- HunksFrom(ms, b, b, m, m) :: h.baseLo == h.sideLo && h.baseHi == h.sideHi
    decreases |ms|
  {
    if ms != [] {
      assert forall mt <- ms[1..] :: mt in ms;
      assert ms[0] in ms;
      SelfHunks(ms[1..], ms[0].baseIdx + 1, m);
    }
  }

  /** A document against itself gives only transparent hunks, within the cap and past it. */
  lemma SelfTransparent(base: seq<Line>)
    ensures Transparent(base, SideOf(base, base))
  {
    BacktrackSelf(base, |base|);
    SelfHunks(LcsPairs(base, base), 0, |base|);
    assert forall k :: 0 <= k < |Hunks(base, base)| ==> Hunks(base, base)[k] in Hunks(base, base);
  }

  /** Diff3(b, o, b) = o. */
  lemma UntouchedTheirs(base: string, ours: string)
    ensures Merged(base, ours, base) == Result(ours, false)
  {
    var b, o := SplitLines(base), SplitLines(ours);
    SideOfAligned(b, o);
    SideOfAligned(b, b);
    SelfTransparent(b);
    TransparentPieces(b, SideOf(b, o), SideOf(b, b), 0);
    PiecesTile(b, SideOf(b, o), SideOf(b, b), 0);
    EmitsOurs(AllPieces(b, o, b));
    assert o[0..] == o;
    SplitLinesRoundTrip(ours);
  }

  /** Diff3(b, b, t) = t. */
  lemma UntouchedOurs(base: string, theirs: string)
    ensures Merged(base, base, theirs) == Result(theirs, false)
  {
    UntouchedTheirs(base, theirs);
    MergeIsSymmetric(base, theirs, base);
  }

  lemma {:induction false} TwinPieces(base: seq<Line>, side: Side, pos: nat)
    requires side.Aligned(base, pos)
    ensures forall p <- Pieces(base, side, side, pos) :: p.Theirs() == p.Ours()
    decreases |base| - pos + |side.hunks|
  {
    if !Done(base, side, side, pos) {
      var c := NextCut(base, side, side, pos);
      TwinPieces(base, c.ours, c.end);
    }
  }

  /** Diff3(b, s, s) = s. */
  lemma SameEditTwice(base: string, side: string)
    ensures Merged(base, side, side) == Result(side, false)
  {
    var b, s := SplitLines(base), SplitLines(side);
    SideOfAligned(b, s);
    TwinPieces(b, SideOf(b, s), 0);
    PiecesTile(b, SideOf(b, s), SideOf(b, s), 0);
    EmitsOurs(AllPieces(b, s, s));
    assert s[0..] == s;
    SplitLinesRoundTrip(side);
  }

  // ---------- Disjoint edits ----------

  /** Same starting line, or one starts strictly inside the other. */
  predicate Collide(g: Hunk, h: Hunk) {
    g.baseLo == h.baseLo || g.baseLo < h.baseLo < g.baseHi || h.baseLo < g.baseLo < h.baseHi
  }

  ghost predicate NoCollision(os: seq<Hunk>, ts: seq<Hunk>) {
    forall k, l :: 0 <= k < |os| && 0 <= l < |ts| ==> !Collide(os[k], ts[l])
  }

  /** Both edit lists as one list in base order. */
  ghost function Interleave(os: seq<Edit>, ts: seq<Edit>): seq<Edit>
    decreases |os| + |ts|
  {
    if os == [] then ts
    else if ts == [] then os
    else if os[0].lo < ts[0].lo then [os[0]] + Interleave(os[1..], ts)
    else [ts[0]] + Interleave(os, ts[1..])
  }

  ghost function BothEdits(base: seq<Line>, ours: Side, theirs: Side, pos: nat): seq<Edit>
    requires ours.Aligned(base, pos) && theirs.Aligned(base, pos)
  {
    Interleave(Edits(ours, base, pos), Edits(theirs, base, pos))
  }

  /** Shared lines in front of the first edit can be copied first. */
  lemma ApplyShared(base: seq<Line>, pos: nat, e: nat, es: seq<Edit>)
    requires InOrder(base, pos, es) && pos <= e <= |base| && (es != [] ==> e <= es[0].lo)
    ensures InOrder(base, e, es) && Apply(base, pos, es) == base[pos..e] + Apply(base, e, es)
  {
    if es == [] {
      Rejoin(base, pos, e);
    } else {
      Rejoin3(base, pos, e, es[0].lo, es[0].lines + Apply(base, es[0].hi, es[1..]));
      ApplyHead(base, pos, es);
      ApplyHead(base, e, es);
    }
  }

  lemma Rejoin3<T>(s: seq<T>, a: nat, b: nat, c: nat, tail: seq<T>)
    requires a <= b <= c <= |s|
    ensures s[a..c] + tail == s[a..b] + (s[b..c] + tail)
  {
    assert s[a..c] == s[a..b] + s[b..c];
  }

  lemma ApplyHead(base: seq<Line>, pos: nat, es: seq<Edit>)
    requires pos <= |base| && es != [] && pos <= es[0].lo <= es[0].hi <= |base| && InOrder(base, es[0].hi, es[1..])
    ensures InOrder(base, pos, es)
    ensures Apply(base, pos, es) == base[pos..es[0].lo] + (es[0].lines + Apply(base, es[0].hi, es[1..]))
  {
  }

  lemma {:induction false} InterleaveInOrder(base: seq<Line>, ours: Side, theirs: Side, pos: nat)
    requires ours.Aligned(base, pos) && theirs.Aligned(base, pos)
    requires NoCollision(ours.hunks, theirs.hunks)
    ensures InOrder(base, pos, BothEdits(base, ours, theirs, pos))
    decreases |ours.hunks| + |theirs.hunks|
  {
    if ours.hunks == [] || theirs.hunks == [] {
      EditsRebuildSide(ours, base, pos);
      EditsRebuildSide(theirs, base, pos);
    } else {
      assert !Collide(ours.hunks[0], theirs.hunks[0]);
      if ours.hunks[0].baseLo < theirs.hunks[0].baseLo {
        FrontHunkClears(base, ours, theirs, pos);
        InterleaveInOrder(base, ours.Pop(), theirs, ours.hunks[0].baseHi);
      } else {
        FrontHunkClears(base, theirs, ours, pos);
        InterleaveInOrder(base, ours, theirs.Pop(), theirs.hunks[0].baseHi);
      }
    }
  }

  /** The first of two non-colliding hunks ends before the other starts: past it both sides are aligned. */
  lemma FrontHunkClears(base: seq<Line>, first: Side, other: Side, pos: nat)
    requires first.Aligned(base, pos) && other.Aligned(base, pos) && first.hunks != []
    requires other.hunks != [] ==> first.hunks[0].baseLo < other.hunks[0].baseLo && !Collide(first.hunks[0], other.hunks[0])
    ensures var e := first.hunks[0].baseHi;
      && first.Pop().Aligned(base, e) && other.Aligned(base, e)
      && pos <= e <= |base|
      && (other.hunks != [] ==> e <= other.hunks[0].baseLo)
      && Edits(other, base, e) == Edits(other, base, pos)
      && base[pos..e] == other.lines[pos + other.shift..e + other.shift]
  {
    SkipShared(other, base, pos, first.hunks[0].baseHi);
  }

  /** A hunk that meets no hunk of the other side makes a chunk of its own, and the other side shows base there. */
  lemma LoneChunk(base: seq<Line>, first: Side, other: Side, pos: nat)
    requires first.Aligned(base, pos) && other.Aligned(base, pos) && first.At(pos)
    requires other.hunks != [] ==> first.hunks[0].baseLo < other.hunks[0].baseLo && !Collide(first.hunks[0], other.hunks[0])
    ensures var h := first.hunks[0];
      && pos <= h.baseHi <= |base| && h.sideLo <= h.sideHi <= |first.lines|
      && other.Aligned(base, h.baseHi)
      && ChunkCut(base, first, other, pos) ==
           Cut(Chunk(base[pos..h.baseHi], first.lines[h.sideLo..h.sideHi], base[pos..h.baseHi]), first.Pop(), other, h.baseHi)
  {
    hide EndFrom;
    hide ChunkCut;
    hide Side.Aligned;
    hide Side.Skip;
    var h, c := first.hunks[0], ChunkCut(base, first, other, pos);
    FrontHunkClears(base, first, other, pos);
    FirstHunk(base, first, pos);
    AlignedSeparated(first, base, pos);
    FirstHunk(base, other, pos);
    PopSeparated(first, base, pos);
    PopSeparated(other, base, pos);
    assert other.PopAt(pos) == other && other.Reach(pos) == pos;
    ClosedBefore(first.Pop().hunks, h.baseHi);
    ClosedBefore(other.hunks, h.baseHi);
    assert Ends(first.Pop().hunks, other.hunks, h.baseHi);
    SkipStep(first.Pop(), h.baseHi);
    SkipStep(other, h.baseHi);
  }

  lemma {:induction false} DisjointPieces(base: seq<Line>, ours: Side, theirs: Side, pos: nat)
    requires ours.Aligned(base, pos) && theirs.Aligned(base, pos)
    requires NoCollision(ours.hunks, theirs.hunks)
    ensures var ps, es := Pieces(base, ours, theirs, pos), BothEdits(base, ours, theirs, pos);
      !AnyConflict(ps) && InOrder(base, pos, es) && Emitted(ps) == Apply(base, pos, es)
    decreases |base| - pos + |ours.hunks| + |theirs.hunks|
  {
    hide NextCut;
    hide Side.Aligned;
    hide AnyConflict;
    hide NoCollision;
    hide Apply;
    hide InOrder;
    InterleaveInOrder(base, ours, theirs, pos);
    if Done(base, ours, theirs, pos) {
      DisjointDone(base, ours, theirs, pos);
    } else {
      var c := NextCut(base, ours, theirs, pos);
      DisjointCut(base, ours, theirs, pos);
      DisjointPieces(base, c.ours, c.theirs, c.end);
      var rest := Pieces(base, c.ours, c.theirs, c.end);
      ConsConflict(c.piece, rest);
    }
  }

  lemma DisjointDone(base: seq<Line>, ours: Side, theirs: Side, pos: nat)
    requires ours.Aligned(base, pos) && theirs.Aligned(base, pos) && Done(base, ours, theirs, pos)
    ensures !AnyConflict([])
    ensures var es := BothEdits(base, ours, theirs, pos); es == [] && InOrder(base, pos, es) && Apply(base, pos, es) == []
  {
  }

  /** Cutting one piece off two non-colliding lists is applying the edits up to there. */
  lemma DisjointCut(base: seq<Line>, ours: Side, theirs: Side, pos: nat)
    requires ours.Aligned(base, pos) && theirs.Aligned(base, pos) && !Done(base, ours, theirs, pos)
    requires NoCollision(ours.hunks, theirs.hunks)
    ensures var c, es := NextCut(base, ours, theirs, pos), BothEdits(base, ours, theirs, pos);
      && NoCollision(c.ours.hunks, c.theirs.hunks) && !c.piece.Conflicting()
      && var rest := BothEdits(base, c.ours, c.theirs, c.end);
      && InOrder(base, pos, es) && InOrder(base, c.end, rest)
      && Apply(base, pos, es) == c.piece.Emit() + Apply(base, c.end, rest)
  {
    hide NextCut;
    hide EndFrom;
    hide Side.Aligned;
    hide Apply;
    hide InOrder;
    NextIs(base, ours, theirs, pos);
    InterleaveInOrder(base, ours, theirs, pos);
    if ours.At(pos) {
      assert theirs.hunks != [] ==> !Collide(ours.hunks[0], theirs.hunks[0]);
      FirstHunk(base, theirs, pos);
      DisjointOurs(base, ours, theirs, pos);
    } else if theirs.At(pos) {
      assert ours.hunks != [] ==> !Collide(ours.hunks[0], theirs.hunks[0]);
      FirstHunk(base, ours, pos);
      DisjointTheirs(base, ours, theirs, pos);
    } else {
      DisjointStable(base, ours, theirs, pos);
    }
  }

  lemma DisjointStable(base: seq<Line>, ours: Side, theirs: Side, pos: nat)
    requires ours.Aligned(base, pos) && theirs.Aligned(base, pos) && !ours.At(pos) && !theirs.At(pos)
    requires InOrder(base, pos, BothEdits(base, ours, theirs, pos))
    ensures var c, es := StableCut(base, ours, theirs, pos), BothEdits(base, ours, theirs, pos);
      && c.ours == ours && c.theirs == theirs && !c.piece.Conflicting()
      && var rest := BothEdits(base, ours, theirs, c.end);
      && InOrder(base, c.end, rest) && Apply(base, pos, es) == c.piece.Emit() + Apply(base, c.end, rest)
  {
    hide Apply;
    hide InOrder;
    var c, es := StableCut(base, ours, theirs, pos), BothEdits(base, ours, theirs, pos);
    assert es != [] ==> c.end <= es[0].lo;
    ApplyShared(base, pos, c.end, es);
  }

  lemma DisjointOurs(base: seq<Line>, ours: Side, theirs: Side, pos: nat)
    requires ours.Aligned(base, pos) && theirs.Aligned(base, pos) && ours.At(pos)
    requires theirs.hunks != [] ==> ours.hunks[0].baseLo < theirs.hunks[0].baseLo && !Collide(ours.hunks[0], theirs.hunks[0])
    requires InOrder(base, pos, BothEdits(base, ours, theirs, pos))
    ensures var c, es := ChunkCut(base, ours, theirs, pos), BothEdits(base, ours, theirs, pos);
      && c.ours == ours.Pop() && c.theirs == theirs && !c.piece.Conflicting()
      && var rest := BothEdits(base, c.ours, c.theirs, c.end);
      && InOrder(base, c.end, rest) && Apply(base, pos, es) == c.piece.Emit() + Apply(base, c.end, rest)
  {
    hide ChunkCut;
    hide EndFrom;
    LoneChunk(base, ours, theirs, pos);
    var es, h := BothEdits(base, ours, theirs, pos), ours.hunks[0];
    assert es == [Edit(h.baseLo, h.baseHi, ours.lines[h.sideLo..h.sideHi])] + BothEdits(base, ours.Pop(), theirs, h.baseHi);
    assert es[1..] == BothEdits(base, ours.Pop(), theirs, h.baseHi);
    ApplyHead(base, pos, es);
    assert base[pos..h.baseLo] == [];
  }

  lemma DisjointTheirs(base: seq<Line>, ours: Side, theirs: Side, pos: nat)
    requires ours.Aligned(base, pos) && theirs.Aligned(base, pos) && theirs.At(pos)
    requires ours.hunks != [] ==> theirs.hunks[0].baseLo < ours.hunks[0].baseLo && !Collide(theirs.hunks[0], ours.hunks[0])
    requires InOrder(base, pos, BothEdits(base, ours, theirs, pos))
    ensures var c, es := ChunkCut(base, ours, theirs, pos), BothEdits(base, ours, theirs, pos);
      && c.ours == ours && c.theirs == theirs.Pop() && !c.piece.Conflicting()
      && var rest := BothEdits(base, c.ours, c.theirs, c.end);
      && InOrder(base, c.end, rest) && Apply(base, pos, es) == c.piece.Emit() + Apply(base, c.end, rest)
  {
    hide ChunkCut;
    hide EndFrom;
    LoneChunk(base, theirs, ours, pos);
    SwapChunk(base, theirs, ours, pos);
    var es, h := BothEdits(base, ours, theirs, pos), theirs.hunks[0];
    assert es == [Edit(h.baseLo, h.baseHi, theirs.lines[h.sideLo..h.sideHi])] + BothEdits(base, ours, theirs.Pop(), h.baseHi);
    assert es[1..] == BothEdits(base, ours, theirs.Pop(), h.baseHi);
    ApplyHead(base, pos, es);
    assert base[pos..h.baseLo] == [];
  }

  /** If no hunk of one side collides with a hunk of the other, the merge is base with both
      hunk lists applied, and there is no conflict. */
  lemma DisjointEditsMerge(base: string, ours: string, theirs: string)
    requires NoCollision(Hunks(SplitLines(base), SplitLines(ours)), Hunks(SplitLines(base), SplitLines(theirs)))
    ensures var b, o, t := SplitLines(base), SplitLines(ours), SplitLines(theirs);
      && SideOf(b, o).Aligned(b, 0) && SideOf(b, t).Aligned(b, 0)
      && var es := BothEdits(b, SideOf(b, o), SideOf(b, t), 0);
      && InOrder(b, 0, es)
      && Merged(base, ours, theirs) == Result(Join(Apply(b, 0, es)), false)
  {
    hide Hunks;
    hide NoCollision;
    var b, o, t := SplitLines(base), SplitLines(ours), SplitLines(theirs);
    SideOfAligned(b, o);
    SideOfAligned(b, t);
    DisjointPieces(b, SideOf(b, o), SideOf(b, t), 0);
  }

  // ---------- The merge itself ----------

  method WriteLines(out: string, lines: seq<string>) returns (r: string)
    ensures r == out + Join(lines)
  {
    r := out;
    var k := 0;
    while k < |lines|
      invariant 0 <= k <= |lines|
      invariant r + Join(lines[k..]) == out + Join(lines)
    {
      assert lines[k..] == [lines[k]] + lines[k + 1..];
      r := r + lines[k];
      k := k + 1;
    }
    assert lines[|lines|..] == [];
  }

  method WriteLinesPadded(out: string, lines: seq<string>) returns (r: string)
    ensures r == out + Join(Padded(lines))
  {
    r := WriteLines(out, lines);
    if |lines| == 0 { return; }
    var last := lines[|lines| - 1];
    if last == "" || last[|last| - 1] == '\n' { return; }
    JoinAppend(lines, ["\n"]);
    r := r + "\n";
  }

  method EmitChunk(base: seq<Line>, ours: seq<Line>, theirs: seq<Line>, out: string, conflict: bool)
    returns (r: string, c: bool)
    ensures r == out + Join(Chunk(base, ours, theirs).Emit())
    ensures c == (conflict || Chunk(base, ours, theirs).Conflicting())
  {
    hide Join;
    hide Padded;
    var oursEqualsBase, theirsEqualsBase := ours == base, theirs == base;
    c := conflict;
    if oursEqualsBase && theirsEqualsBase {
      r := WriteLines(out, base);
    } else if oursEqualsBase {
      r := WriteLines(out, theirs);
    } else if theirsEqualsBase {
      r := WriteLines(out, ours);
    } else if ours == theirs {
      r := WriteLines(out, ours);
    } else {
      c := true;
      r := EmitConflict(ours, theirs, out);
    }
  }

  method EmitConflict(ours: seq<Line>, theirs: seq<Line>, out: string) returns (r: string)
    ensures r == out + Join(["<<<<<<< ours\n"] + Padded(ours) + ["=======\n"] + Padded(theirs) + [">>>>>>> theirs\n"])
  {
    hide Join;
    hide Padded;
    r := WriteLinesPadded(out + "<<<<<<< ours\n", ours);
    r := WriteLinesPadded(r + "=======\n", theirs);
    r := r + ">>>>>>> theirs\n";
    JoinConflict(ours, theirs);
  }

  lemma JoinConflict(ours: seq<Line>, theirs: seq<Line>)
    ensures Join(["<<<<<<< ours\n"] + Padded(ours) + ["=======\n"] + Padded(theirs) + [">>>>>>> theirs\n"]) ==
      "<<<<<<< ours\n" + Join(Padded(ours)) + "=======\n" + Join(Padded(theirs)) + ">>>>>>> theirs\n"
  {
    hide Padded;
    hide Join;
    var a := ["<<<<<<< ours\n"] + Padded(ours);
    var b := a + ["=======\n"];
    var c := b + Padded(theirs);
    JoinAppend(["<<<<<<< ours\n"], Padded(ours));
    JoinAppend(a, ["=======\n"]);
    JoinAppend(b, Padded(theirs));
    JoinAppend(c, [">>>>>>> theirs\n"]);
    JoinOne("<<<<<<< ours\n");
    JoinOne("=======\n");
    JoinOne(">>>>>>> theirs\n");
  }

  lemma JoinOne(line: string)
    ensures Join([line]) == line
  {
    assert Join([line]) == line + Join([line][1..]);
  }

  /** The absorption loop: where the chunk ends, and the hunks it leaves on each side. */
  method Absorb(os: seq<Hunk>, ts: seq<Hunk>, ghost oSide: Side, ghost tSide: Side,
                oi0: nat, ti0: nat, e0: nat, o0: (nat, nat), t0: (nat, nat))
    returns (oi: nat, ti: nat, bHi: nat, lastO: (nat, nat), lastT: (nat, nat))
    requires oi0 <= |os| && ti0 <= |ts|
    requires oSide.hunks == os[oi0..] && tSide.hunks == ts[ti0..]
    requires oSide.shift == o0.1 - o0.0 && tSide.shift == t0.1 - t0.0
    requires Separated(oSide.hunks) && Separated(tSide.hunks)
    ensures oi0 <= oi <= |os| && ti0 <= ti <= |ts|
    ensures bHi == ChunkEnd(oSide.hunks, tSide.hunks, e0)
    ensures oSide.Skip(bHi) == Side(oSide.lines, os[oi..], lastO.1 - lastO.0)
    ensures tSide.Skip(bHi) == Side(tSide.lines, ts[ti..], lastT.1 - lastT.0)
  {
    hide ChunkEnd;
    hide Separated;
    hide Side.Skip;
    oi, ti, bHi, lastO, lastT := oi0, ti0, e0, o0, t0;
    ghost var e := ChunkEnd(oSide.hunks, tSide.hunks, e0);
    ghost var o, t := oSide, tSide;
    var extended := true;
    while extended
      invariant oi0 <= oi <= |os| && ti0 <= ti <= |ts|
      invariant o == Side(oSide.lines, os[oi..], lastO.1 - lastO.0)
      invariant t == Side(tSide.lines, ts[ti..], lastT.1 - lastT.0)
      invariant Separated(o.hunks) && Separated(t.hunks)
      invariant ChunkEnd(o.hunks, t.hunks, bHi) == e
      invariant oSide.Skip(e) == o.Skip(e) && tSide.Skip(e) == t.Skip(e)
      invariant !extended ==> (o.hunks != [] ==> bHi <= o.hunks[0].baseLo) && (t.hunks != [] ==> bHi <= t.hunks[0].baseLo)
      decreases |os| - oi + |ts| - ti, extended
    {
      extended := false;
      if oi < |os| && os[oi].baseLo < bHi {
        AbsorbOurs(o.hunks, t.hunks, bHi);
        SkipStep(o, e);
        var h := os[oi];
        if h.baseHi > bHi { bHi := h.baseHi; }
        lastO := (h.baseHi, h.sideHi);
        oi := oi + 1;
        extended := true;
        o := o.Pop();
      }
      if ti < |ts| && ts[ti].baseLo < bHi {
        AbsorbTheirs(o.hunks, t.hunks, bHi);
        SkipStep(t, e);
        var h := ts[ti];
        if h.baseHi > bHi { bHi := h.baseHi; }
        lastT := (h.baseHi, h.sideHi);
        ti := ti + 1;
        extended := true;
        t := t.Pop();
      }
    }
    AbsorbNothing(o.hunks, t.hunks, bHi);
    SkipStep(o, e);
    SkipStep(t, e);
  }

  lemma SkipStep(side: Side, e: nat)
    ensures side.hunks != [] && side.hunks[0].baseLo < e ==> side.Skip(e) == side.Pop().Skip(e)
    ensures side.hunks == [] || e <= side.hunks[0].baseLo ==> side.Skip(e) == side
  {
  }

  lemma AbsorbNothing(os: seq<Hunk>, ts: seq<Hunk>, e: nat)
    requires Separated(os) && Separated(ts)
    requires (os != [] ==> e <= os[0].baseLo) && (ts != [] ==> e <= ts[0].baseLo)
    ensures ChunkEnd(os, ts, e) == e
  {
  }

  lemma AbsorbOurs(os: seq<Hunk>, ts: seq<Hunk>, e: nat)
    requires Separated(os) && Separated(ts) && os != [] && os[0].baseLo < e
    ensures Separated(os[1..])
    ensures ChunkEnd(os, ts, e) == ChunkEnd(os[1..], ts, Max(e, os[0].baseHi))
  {
  }

  /** How far both sides share base's lines. */
  method StableEnd(base: seq<Line>, hunksO: seq<Hunk>, hunksT: seq<Hunk>, oi: nat, ti: nat, ghost o: Side, ghost t: Side)
    returns (stableEnd: nat)
    requires oi <= |hunksO| && ti <= |hunksT| && o.hunks == hunksO[oi..] && t.hunks == hunksT[ti..]
    ensures stableEnd == o.NextLo(t.NextLo(|base|))
  {
    stableEnd := |base|;
    if oi < |hunksO| && hunksO[oi].baseLo < stableEnd { stableEnd := hunksO[oi].baseLo; }
    if ti < |hunksT| && hunksT[ti].baseLo < stableEnd { stableEnd := hunksT[ti].baseLo; }
  }

  /** Takes the hunk that starts at bPos, if there is one; bHi0 is how far the chunk reaches so far. */
  method TakeAnchored(hunks: seq<Hunk>, ghost side: Side, i0: nat, bPos: nat, sidePos: nat, bHi0: nat)
    returns (i: nat, bHi: nat, last: (nat, nat))
    requires i0 <= |hunks| && side.hunks == hunks[i0..] && side.shift == sidePos - bPos && bPos <= bHi0
    requires side.hunks != [] ==> side.hunks[0].baseLo <= side.hunks[0].baseHi
    ensures i <= |hunks| && side.PopAt(bPos) == Side(side.lines, hunks[i..], last.1 - last.0)
    ensures bHi == Max(bHi0, side.Reach(bPos))
  {
    i, bHi, last := i0, bHi0, (bPos, sidePos);
    if i < |hunks| && hunks[i].baseLo == bPos {
      var h := hunks[i];
      if h.baseHi > bHi { bHi := h.baseHi; }
      last := (h.baseHi, h.sideHi);
      i := i + 1;
    }
  }

  /** The unstable chunk at bPos: the hunks it consumes and where each side stands after it. */
  method TakeChunk(base: seq<Line>, hunksO: seq<Hunk>, hunksT: seq<Hunk>, ghost o: Side, ghost t: Side,
                   bPos: nat, oPos: nat, tPos: nat, oi0: nat, ti0: nat)
    returns (oi: nat, ti: nat, bHi: nat, oHi: int, tHi: int)
    requires oi0 <= |hunksO| && ti0 <= |hunksT| && o.hunks == hunksO[oi0..] && t.hunks == hunksT[ti0..]
    requires o.shift == oPos - bPos && t.shift == tPos - bPos
    requires o.Aligned(base, bPos) && t.Aligned(base, bPos)
    ensures var c := ChunkCut(base, o, t, bPos);
      && bHi == c.end && oHi == bHi + c.ours.shift && tHi == bHi + c.theirs.shift
      && oi <= |hunksO| && ti <= |hunksT|
      && c.ours == Side(o.lines, hunksO[oi..], oHi - bHi) && c.theirs == Side(t.lines, hunksT[ti..], tHi - bHi)
  {
    hide ChunkCut;
    hide EndFrom;
    hide Side.Aligned;
    hide Side.Skip;
    hide ChunkEnd;
    hide Separated;
    var lastO, lastT;
    FirstHunk(base, o, bPos);
    FirstHunk(base, t, bPos);
    oi, bHi, lastO := TakeAnchored(hunksO, o, oi0, bPos, oPos, bPos);
    ti, bHi, lastT := TakeAnchored(hunksT, t, ti0, bPos, tPos, bHi);
    ghost var o1, t1 := o.PopAt(bPos), t.PopAt(bPos);
    PopSeparated(o, base, bPos);
    PopSeparated(t, base, bPos);
    assert bHi == Max(o.Reach(bPos), t.Reach(bPos));
    oi, ti, bHi, lastO, lastT := Absorb(hunksO, hunksT, o1, t1, oi, ti, bHi, lastO, lastT);
    oHi := lastO.1 + (bHi - lastO.0);
    tHi := lastT.1 + (bHi - lastT.0);
  }

  /** One turn of the main loop: a stable region copied, or one chunk merged. */
  method MergeStep(base: seq<Line>, ours: seq<Line>, theirs: seq<Line>, hunksO: seq<Hunk>, hunksT: seq<Hunk>,
                   ghost o: Side, ghost t: Side, bPos: nat, oPos: nat, tPos: nat, oi0: nat, ti0: nat,
                   out0: string, conflict0: bool)
    returns (oi: nat, ti: nat, bEnd: nat, oEnd: nat, tEnd: nat, out: string, conflict: bool)
    requires oi0 <= |hunksO| && ti0 <= |hunksT| && !Done(base, o, t, bPos)
    requires o == Side(ours, hunksO[oi0..], oPos - bPos) && o.Aligned(base, bPos)
    requires t == Side(theirs, hunksT[ti0..], tPos - bPos) && t.Aligned(base, bPos)
    ensures oi <= |hunksO| && ti <= |hunksT|
    ensures NextCut(base, o, t, bPos).ours == Side(ours, hunksO[oi..], oEnd - bEnd)
    ensures NextCut(base, o, t, bPos).theirs == Side(theirs, hunksT[ti..], tEnd - bEnd)
    ensures NextCut(base, o, t, bPos).end == bEnd
    ensures out == out0 + Join(NextCut(base, o, t, bPos).piece.Emit())
    ensures conflict == (conflict0 || NextCut(base, o, t, bPos).piece.Conflicting())
  {
    hide NextCut;
    hide ChunkCut;
    hide EndFrom;
    hide Side.Aligned;
    hide Join;
    hide Piece.Emit;
    hide Piece.Conflicting;
    ghost var c := NextCut(base, o, t, bPos);
    NextIs(base, o, t, bPos);
    CutShape(base, o, t, bPos);
    oi, ti := oi0, ti0;
    var oAtPos := oi < |hunksO| && hunksO[oi].baseLo == bPos;
    var tAtPos := ti < |hunksT| && hunksT[ti].baseLo == bPos;
    assert oAtPos == o.At(bPos) && tAtPos == t.At(bPos);
    if !oAtPos && !tAtPos {
      bEnd := StableEnd(base, hunksO, hunksT, oi, ti, o, t);
      var n := bEnd - bPos;
      out := WriteLines(out0, base[bPos..bPos + n]);
      StableEmit(c.piece);
      conflict, oEnd, tEnd := conflict0, oPos + n, tPos + n;
    } else {
      var oHi, tHi;
      oi, ti, bEnd, oHi, tHi := TakeChunk(base, hunksO, hunksT, o, t, bPos, oPos, tPos, oi, ti);
      out, conflict := EmitChunk(base[bPos..bEnd], ours[oPos..oHi], theirs[tPos..tHi], out0, conflict0);
      oEnd, tEnd := oHi, tHi;
    }
  }

  method Diff3(base: string, ours: string, theirs: string) returns (r: Result)
    ensures r == Merged(base, ours, theirs)
  {
    hide Hunks;
    hide Pieces;
    hide NextCut;
    hide Side.Aligned;
    hide Join;
    hide AnyConflict;
    hide Emitted;
    hide Piece.Emit;
    hide Piece.Conflicting;
    var baseLines, oursLines, theirsLines := SplitLines(base), SplitLines(ours), SplitLines(theirs);
    var hunksO := EditHunks(baseLines, oursLines);
    var hunksT := EditHunks(baseLines, theirsLines);
    SideOfAligned(baseLines, oursLines);
    SideOfAligned(baseLines, theirsLines);
    ghost var all := AllPieces(baseLines, oursLines, theirsLines);
    var out, conflict := "", false;
    var bPos: nat, oPos: nat, tPos: nat := 0, 0, 0;
    var oi: nat, ti: nat := 0, 0;
    ghost var o, t, rest := SideOf(baseLines, oursLines), SideOf(baseLines, theirsLines), all;
    while bPos < |baseLines| || oi < |hunksO| || ti < |hunksT|
      invariant bPos <= |baseLines| && oi <= |hunksO| && ti <= |hunksT|
      invariant o == Side(oursLines, hunksO[oi..], oPos - bPos) && o.Aligned(baseLines, bPos)
      invariant t == Side(theirsLines, hunksT[ti..], tPos - bPos) && t.Aligned(baseLines, bPos)
      invariant rest == Pieces(baseLines, o, t, bPos)
      invariant out + Join(Emitted(rest)) == Join(Emitted(all))
      invariant conflict || AnyConflict(rest) <==> AnyConflict(all)
      decreases |baseLines| - bPos + |o.hunks| + |t.hunks|
    {
      ghost var c := NextCut(baseLines, o, t, bPos);
      PiecesStep(baseLines, o, t, bPos);
      EmitStep(out, c.piece, rest[1..]);
      oi, ti, bPos, oPos, tPos, out, conflict :=
        MergeStep(baseLines, oursLines, theirsLines, hunksO, hunksT, o, t, bPos, oPos, tPos, oi, ti, out, conflict);
      o, t, rest := c.ours, c.theirs, rest[1..];
    }
    PiecesEnd(baseLines, o, t, bPos);
    r := Result(out, conflict);
  }

  lemma EmitStep(out: string, p: Piece, ps: seq<Piece>)
    ensures out + Join(Emitted([p] + ps)) == (out + Join(p.Emit())) + Join(Emitted(ps))
    ensures AnyConflict([p] + ps) <==> p.Conflicting() || AnyConflict(ps)
  {
    hide AnyConflict;
    hide Join;
    ConsConflict(p, ps);
    JoinAppend(p.Emit(), Emitted(ps));
  }

  lemma StableEmit(p: Piece)
    requires p.Stable?
    ensures p.Emit() == p.lines && !p.Conflicting()
  {
  }

  lemma PiecesStep(base: seq<Line>, ours: Side, theirs: Side, pos: nat)
    requires ours.Aligned(base, pos) && theirs.Aligned(base, pos) && !Done(base, ours, theirs, pos)
    ensures var c, ps := NextCut(base, ours, theirs, pos), Pieces(base, ours, theirs, pos);
      && ps == [c.piece] + Pieces(base, c.ours, c.theirs, c.end)
      && ps != [] && ps[0] == c.piece && ps[1..] == Pieces(base, c.ours, c.theirs, c.end)
  {
    hide NextCut;
    hide Side.Aligned;
  }

  lemma PiecesEnd(base: seq<Line>, ours: Side, theirs: Side, pos: nat)
    requires ours.Aligned(base, pos) && theirs.Aligned(base, pos) && Done(base, ours, theirs, pos)
    ensures Pieces(base, ours, theirs, pos) == [] && !AnyConflict([]) && Join(Emitted([])) == ""
  {
  }
}
