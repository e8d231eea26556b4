// Request paths: protocol/request.go, lines 26-27, 111-124 and 226-230, and the parts of Go's path package they
// are read with.
module Paths {
  import opened Text

  /** The request line, less the longest verb and a space. */
  const MAX_REQUEST_PATH_LENGTH: nat := 4096 - 8 - 1

  predicate HasControl(s: string) {
    exists c <- s :: (c < ' ' && c != '\t') || c == '\U{7f}'
  }

  predicate ValidRequestPath(path: string) {
    HasPrefix(path, "/") && Len(path) <= MAX_REQUEST_PATH_LENGTH && !HasControl(path)
  }

  function VersionPath(path: string, version: nat): string { path + "/v" + Itoa(version) }

  // ---------- path.Clean, path.Dir and path.Base ----------

  /** Each segment after a slash. */
  function Rooted(segments: seq<string>): string {
    if segments == [] then "" else "/" + segments[0] + Rooted(segments[1..])
  }

  /** path.Clean, segment by segment: stack holds what is kept so far. */
  function Reduce(parts: seq<string>, stack: seq<string>, rooted: bool): seq<string> {
    if parts == [] then stack
    else if parts[0] == "" || parts[0] == "." then Reduce(parts[1..], stack, rooted)
    else if parts[0] != ".." then Reduce(parts[1..], stack + [parts[0]], rooted)
    else if stack != [] && stack[|stack| - 1] != ".." then Reduce(parts[1..], stack[..|stack| - 1], rooted)
    else if rooted then Reduce(parts[1..], stack, rooted)
    else Reduce(parts[1..], stack + [".."], rooted)
  }

  function Clean(path: string): string {
    var rooted := HasPrefix(path, "/");
    var kept := Reduce(Split(path, '/'), [], rooted);
    if rooted then (if kept == [] then "/" else Rooted(kept))
    else if kept == [] then "." else Join(kept, "/")
  }

  /** path.Split: everything up to the last slash, and the rest. */
  function SplitFile(path: string): (r: (string, string))
    ensures r.0 + r.1 == path && '/' !in r.1 && (r.0 == "" || r.0[|r.0| - 1] == '/')
  {
    if path == "" || path[|path| - 1] == '/' then (path, "")
    else
      var rest := SplitFile(path[..|path| - 1]);
      assert path == path[..|path| - 1] + [path[|path| - 1]];
      (rest.0, rest.1 + [path[|path| - 1]])
  }

  function Dir(path: string): string { Clean(SplitFile(path).0) }

  function TrimSlashes(path: string): string {
    if path != "" && path[|path| - 1] == '/' then TrimSlashes(path[..|path| - 1]) else path
  }

  function Base(path: string): string {
    var trimmed := TrimSlashes(path);
    if path == "" then "." else if trimmed == "" then "/" else SplitFile(trimmed).1
  }

  /** A segment Clean keeps. */
  predicate Segment(segment: string) { segment != "" && segment != "." && segment != ".." && '/' !in segment }

  predicate AllSegments(segments: seq<string>) { forall k :: 0 <= k < |segments| ==> Segment(segments[k]) }

  lemma {:induction false} SplitFileIs(dir: string, file: string)
    requires '/' !in file && (dir == "" || dir[|dir| - 1] == '/')
    ensures SplitFile(dir + file) == (dir, file)
    decreases |file|
  {
    var s := dir + file;
    if file == "" {
      assert s == dir;
    } else {
      var front := file[..|file| - 1];
      assert s[..|s| - 1] == dir + front && file == front + [file[|file| - 1]];
      SplitFileIs(dir, front);
    }
  }

  lemma BaseIs(dir: string, file: string)
    requires '/' !in file && file != "" && (dir == "" || dir[|dir| - 1] == '/')
    ensures Base(dir + file) == file
  {
    var s := dir + file;
    assert s[|s| - 1] == file[|file| - 1];
    SplitFileIs(dir, file);
  }

  lemma {:induction false} RootedAppend(a: seq<string>, b: seq<string>)
    ensures Rooted(a + b) == Rooted(a) + Rooted(b)
  {
    if a == [] {
      assert a + b == b;
    } else {
      assert (a + b)[1..] == a[1..] + b;
      RootedAppend(a[1..], b);
    }
  }

  lemma {:induction false} SplitRooted(first: string, segments: seq<string>)
    requires '/' !in first && forall k :: 0 <= k < |segments| ==> '/' !in segments[k]
    ensures Split(first + Rooted(segments), '/') == [first] + segments
    decreases |segments|
  {
    if segments == [] {
      SplitWhole(first, '/');
      assert first + Rooted(segments) == first;
    } else {
      var rest := segments[0] + Rooted(segments[1..]);
      assert first + Rooted(segments) == first + "/" + rest;
      SplitHead(first, '/', rest);
      SplitRooted(segments[0], segments[1..]);
      assert [segments[0]] + segments[1..] == segments;
    }
  }

  lemma {:induction false} ReducePlain(segments: seq<string>, tail: seq<string>, stack: seq<string>, rooted: bool)
    requires AllSegments(segments)
    ensures Reduce(segments + tail, stack, rooted) == Reduce(tail, stack + segments, rooted)
  {
    if segments == [] {
      assert segments + tail == tail && stack + segments == stack;
    } else {
      assert Segment(segments[0]);
      assert (segments + tail)[1..] == segments[1..] + tail && (segments + tail)[0] == segments[0];
      ReducePlain(segments[1..], tail, stack + [segments[0]], rooted);
      assert stack + [segments[0]] + segments[1..] == stack + segments;
    }
  }

  lemma ReduceEmpty(parts: seq<string>, stack: seq<string>, rooted: bool)
    ensures Reduce([""] + parts, stack, rooted) == Reduce(parts, stack, rooted)
    ensures Reduce([""], stack, rooted) == stack && Reduce([], stack, rooted) == stack
  {
    assert ([""] + parts)[1..] == parts && [""][1..] == [];
  }

  /** A rooted list of plain segments is clean, with or without a slash at the end. */
  lemma CleanRooted(segments: seq<string>)
    requires segments != [] && AllSegments(segments)
    ensures Clean(Rooted(segments)) == Rooted(segments) && Clean(Rooted(segments) + "/") == Rooted(segments)
  {
    hide AllSegments;
    hide Reduce;
    hide Split;
    var path := Rooted(segments);
    NoSlashes(segments);
    RootedStart(segments);
    SplitRooted("", segments);
    assert "" + path == path;
    ReduceEmpty(segments, [], true);
    ReducePlain(segments, [], [], true);
    ReduceEmpty([], segments, true);
    assert segments + [] == segments && [] + segments == segments;
    RootedAppend(segments, [""]);
    SplitRooted("", segments + [""]);
    assert "" + Rooted(segments + [""]) == path + "/";
    ReduceEmpty(segments + [""], [], true);
    ReducePlain(segments, [""], [], true);
  }

  lemma RootedStart(segments: seq<string>)
    requires segments != []
    ensures HasPrefix(Rooted(segments), "/") && HasPrefix(Rooted(segments) + "/", "/") && Rooted([""]) == "/"
  {
    assert [""][1..] == [];
  }

  lemma NoSlashes(segments: seq<string>)
    requires AllSegments(segments)
    ensures forall k :: 0 <= k < |segments| ==> '/' !in segments[k]
  {
  }

  /** What Clean keeps of a rooted path are plain segments. */
  lemma {:induction false} ReducedPlain(parts: seq<string>, stack: seq<string>)
    requires AllSegments(stack) && forall p <- parts :: '/' !in p
    ensures AllSegments(Reduce(parts, stack, true))
  {
    if parts != [] {
      var rest := parts[1..];
      assert parts[0] in parts && forall p <- rest :: p in parts;
      if parts[0] == "" || parts[0] == "." {
        ReducedPlain(rest, stack);
      } else if parts[0] != ".." {
        ReducedPlain(rest, stack + [parts[0]]);
      } else if stack != [] && stack[|stack| - 1] != ".." {
        ReducedPlain(rest, stack[..|stack| - 1]);
      } else {
        ReducedPlain(rest, stack);
      }
    }
  }

  /** A clean rooted path other than "/" is a nonempty list of plain segments. */
  lemma CleanSegments(path: string) returns (segments: seq<string>)
    requires HasPrefix(path, "/") && Clean(path) == path && path != "/"
    ensures segments != [] && AllSegments(segments) && path == Rooted(segments)
  {
    segments := Reduce(Split(path, '/'), [], true);
    SplitPieces(path, '/');
    ReducedPlain(Split(path, '/'), []);
  }

  predicate NoneEmpty(segments: seq<string>) { forall k :: 0 <= k < |segments| ==> segments[k] != "" && '/' !in segments[k] }

  lemma {:induction false} ReducedNonempty(parts: seq<string>, stack: seq<string>)
    requires NoneEmpty(stack) && forall p <- parts :: '/' !in p
    ensures NoneEmpty(Reduce(parts, stack, false))
  {
    if parts != [] {
      var rest := parts[1..];
      assert parts[0] in parts && forall p <- rest :: p in parts;
      if parts[0] == "" || parts[0] == "." {
        ReducedNonempty(rest, stack);
      } else if parts[0] != ".." {
        ReducedNonempty(rest, stack + [parts[0]]);
      } else if stack != [] && stack[|stack| - 1] != ".." {
        ReducedNonempty(rest, stack[..|stack| - 1]);
      } else {
        ReducedNonempty(rest, stack + [".."]);
      }
    }
  }

  /** Cleaning does not root a path. */
  lemma CleanStaysRelative(path: string)
    requires !HasPrefix(path, "/")
    ensures !HasPrefix(Clean(path), "/")
  {
    var kept := Reduce(Split(path, '/'), [], false);
    SplitPieces(path, '/');
    ReducedNonempty(Split(path, '/'), []);
    if kept == [] {
      assert Clean(path) == "." && "."[..1][0] == '.';
    } else {
      assert kept[0][0] in kept[0] && Clean(path)[..1][0] == Clean(path)[0] == kept[0][0];
    }
  }

  lemma DirRooted(path: string)
    requires HasPrefix(Dir(path), "/")
    ensures path != "" && path[0] == '/'
  {
    var dir := SplitFile(path).0;
    if !HasPrefix(dir, "/") { CleanStaysRelative(dir); }
    assert dir[..1] == "/" && path[0] == dir[0];
  }
}
