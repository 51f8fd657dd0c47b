/**
 * The POSIX path functions the core calls (`os.path.normpath`, `split`, `splitext`, `join`),
 * written out with the meaning Python's `posixpath` gives them.
 */
module Paths {
  import opened Wrappers
  import opened Strings

  /** `s.rfind(c)`: the index of the last `c` in `s`, if any. */
  function LastIndexOf(s: string, c: char): (r: Option<nat>)
    ensures r.Some? ==> r.value < |s| && s[r.value] == c
    ensures r.Some? ==> forall k :: r.value < k < |s| ==> s[k] != c
    ensures r.None? ==> c !in s
    decreases |s|
  {
    if s == [] then None
    else if s[|s| - 1] == c then Some(|s| - 1)
    else
      var r := LastIndexOf(s[..|s| - 1], c);
      assert s == s[..|s| - 1] + [s[|s| - 1]];
      r
  }

  /** Every character of `s` is a slash. */
  predicate AllSlashes(s: string) {
    forall k :: 0 <= k < |s| ==> s[k] == '/'
  }

  /**
   * `os.path.split(p)`: the text after the last slash, and the text before it with its trailing
   * slashes removed (unless it is made of slashes only).
   */
  function SplitPath(p: string): (r: (string, string))
    ensures '/' !in r.1 && EndsWith(p, r.1)
    ensures r.0 == [] || AllSlashes(r.0) || r.0[|r.0| - 1] != '/'
  {
    var i := match LastIndexOf(p, '/') case Some(k) => k + 1 case None => 0;
    var head := p[..i];
    var tail := p[i..];
    (if head != [] && !AllSlashes(head) then TrimRight(head, {'/'}) else head, tail)
  }

  /** `os.path.join(a, b)`: an absolute `b` replaces `a`; otherwise one slash separates them. */
  function JoinPath(a: string, b: string): string {
    if StartsWith(b, "/") then b
    else if a == [] || EndsWith(a, "/") then a + b
    else a + "/" + b
  }

  /** Text appended after a join lands at the end of the joined path's last part. */
  lemma JoinPathAppend(a: string, b: string, c: string)
    requires b != [] || !StartsWith(c, "/")
    ensures JoinPath(a, b) + c == JoinPath(a, b + c)
  {
    assert StartsWith(b + c, "/") <==> StartsWith(b, "/") by {
      if b != [] {
        assert (b + c)[..1] == b[..1];
      } else {
        assert b + c == c;
      }
    }
    ConcatAssoc(a, b, c);
    ConcatAssoc(a + "/", b, c);
  }

  /**
   * `os.path.splitext(p)`: the extension is the text from the last dot of the last path
   * component, provided that dot is not in a run of leading dots of that component.
   */
  function SplitExt(p: string): (r: (string, string))
    ensures r.0 + r.1 == p
    ensures r.1 == [] || (r.1[0] == '.' && '/' !in r.1 && '.' !in r.1[1..])
  {
    var sepIndex: int := match LastIndexOf(p, '/') case Some(k) => k case None => -1;
    var dotIndex: int := match LastIndexOf(p, '.') case Some(k) => k case None => -1;
    if dotIndex > sepIndex && exists k :: sepIndex < k < dotIndex && p[k] != '.' then
      assert p == p[..dotIndex] + p[dotIndex..];
      (p[..dotIndex], p[dotIndex..])
    else (p, [])
  }

  /** `n` slashes. */
  function Slashes(n: nat): (r: string)
    ensures |r| == n && AllSlashes(r)
  {
    if n == 0 then [] else "/" + Slashes(n - 1)
  }

  /** A path segment that `os.path.normpath` keeps as it is: not empty, not `.`, not `..`. */
  predicate PlainSegment(c: string) {
    c != "" && c != "." && c != ".."
  }

  /**
   * One pass of `os.path.normpath` over the segments: empty and `.` segments are dropped, `..`
   * removes the segment before it, and is kept when there is nothing to remove in a relative path
   * (or when the segment before is itself a kept `..`).
   */
  function Resolve(acc: seq<string>, comps: seq<string>, absolute: bool): seq<string>
    decreases |comps|
  {
    if comps == [] then acc
    else
      var c := comps[0];
      var next :=
        if c == "" || c == "." then acc
        else if c != ".." || (!absolute && acc == []) || (acc != [] && acc[|acc| - 1] == "..") then acc + [c]
        else if acc != [] then acc[..|acc| - 1]
        else acc;
      Resolve(next, comps[1..], absolute)
  }

  /**
   * What `os.path.normpath` leaves: no empty or `.` segment, and `..` only in a leading run of a
   * relative path.
   */
  predicate Normalised(segs: seq<string>, absolute: bool) {
    forall i :: 0 <= i < |segs| ==>
      PlainSegment(segs[i]) || (!absolute && segs[i] == ".." && forall j :: 0 <= j < i ==> segs[j] == "..")
  }

  /** `os.path.normpath(path)` on POSIX. */
  function NormPath(path: string): (r: string)
    ensures r != []
  {
    if path == [] then "."
    else
      var joined := Slashes(LeadingSlashes(path))
                    + JoinWith(Resolve([], Split(path, '/'), LeadingSlashes(path) > 0), '/');
      if joined == [] then "." else joined
  }

  /** The leading slashes `os.path.normpath` keeps: POSIX gives two of them a meaning of their own. */
  function LeadingSlashes(path: string): nat {
    if StartsWith(path, "//") && !StartsWith(path, "///") then 2
    else if StartsWith(path, "/") then 1
    else 0
  }

  /** The segments that are not empty, in order. */
  function DropEmpty(segs: seq<string>): (r: seq<string>)
    ensures forall i :: 0 <= i < |r| ==> r[i] in segs && r[i] != ""
  {
    if segs == [] then []
    else if segs[0] == "" then DropEmpty(segs[1..])
    else [segs[0]] + DropEmpty(segs[1..])
  }

  /** Without empty segments there is nothing to drop. */
  lemma {:induction false} DropEmptyNone(segs: seq<string>)
    requires forall i :: 0 <= i < |segs| ==> segs[i] != ""
    ensures DropEmpty(segs) == segs
    decreases |segs|
  {
    if segs != [] {
      DropEmptyNone(segs[1..]);
    }
  }

  /** Appending a plain segment keeps a sequence normalised. */
  lemma NormalisedAppend(acc: seq<string>, c: string, absolute: bool)
    requires Normalised(acc, absolute) && PlainSegment(c)
    ensures Normalised(acc + [c], absolute)
  {
    var next := acc + [c];
    forall i | 0 <= i < |next|
      ensures PlainSegment(next[i]) || (!absolute && next[i] == ".." && forall j :: 0 <= j < i ==> next[j] == "..")
    {
      if i < |acc| {
        assert next[i] == acc[i];
        assert forall j :: 0 <= j < i ==> next[j] == acc[j];
      }
    }
  }

  /** Removing the last segment keeps a sequence normalised. */
  lemma NormalisedDropLast(acc: seq<string>, absolute: bool)
    requires Normalised(acc, absolute) && acc != []
    ensures Normalised(acc[..|acc| - 1], absolute)
  {
    var prev := acc[..|acc| - 1];
    forall i | 0 <= i < |prev|
      ensures PlainSegment(prev[i]) || (!absolute && prev[i] == ".." && forall j :: 0 <= j < i ==> prev[j] == "..")
    {
      assert prev[i] == acc[i];
      assert forall j :: 0 <= j < i ==> prev[j] == acc[j];
    }
  }

  /** Appending `..` to a relative run of `..` (or to nothing) keeps it normalised. */
  lemma NormalisedAppendParent(acc: seq<string>)
    requires Normalised(acc, false) && (acc == [] || acc[|acc| - 1] == "..")
    ensures Normalised(acc + [".."], false)
  {
    var next := acc + [".."];
    if acc != [] {
      assert !PlainSegment(acc[|acc| - 1]);
    }
    forall i | 0 <= i < |next|
      ensures PlainSegment(next[i]) || (next[i] == ".." && forall j :: 0 <= j < i ==> next[j] == "..")
    {
      if i < |acc| {
        assert next[i] == acc[i];
        assert forall j :: 0 <= j < i ==> next[j] == acc[j];
      } else {
        assert forall j :: 0 <= j < i ==> next[j] == acc[j];
      }
    }
  }

  /** The pass leaves a normalised sequence of segments. */
  lemma {:induction false} ResolveNormalised(acc: seq<string>, comps: seq<string>, absolute: bool)
    requires Normalised(acc, absolute)
    ensures Normalised(Resolve(acc, comps, absolute), absolute)
    decreases |comps|
  {
    if comps != [] {
      var c := comps[0];
      if c == "" || c == "." {
        ResolveNormalised(acc, comps[1..], absolute);
      } else if c != ".." {
        NormalisedAppend(acc, c, absolute);
        ResolveNormalised(acc + [c], comps[1..], absolute);
      } else if (!absolute && acc == []) || (acc != [] && acc[|acc| - 1] == "..") {
        if acc != [] {
          assert !PlainSegment(acc[|acc| - 1]);
        }
        NormalisedAppendParent(acc);
        ResolveNormalised(acc + [c], comps[1..], absolute);
      } else if acc != [] {
        NormalisedDropLast(acc, absolute);
        ResolveNormalised(acc[..|acc| - 1], comps[1..], absolute);
      } else {
        ResolveNormalised(acc, comps[1..], absolute);
      }
    }
  }

  /** Over plain and empty segments, the pass only drops the empty ones. */
  lemma {:induction false} ResolveDropsEmpty(acc: seq<string>, comps: seq<string>, absolute: bool)
    requires forall i :: 0 <= i < |comps| ==> comps[i] == "" || PlainSegment(comps[i])
    ensures Resolve(acc, comps, absolute) == acc + DropEmpty(comps)
    decreases |comps|
  {
    if comps != [] {
      var c := comps[0];
      assert c == "" || PlainSegment(c);
      var next := if c == "" then acc else acc + [c];
      assert Resolve(acc, comps, absolute) == Resolve(next, comps[1..], absolute);
      ResolveDropsEmpty(next, comps[1..], absolute);
      if c != "" {
        assert acc + [c] + DropEmpty(comps[1..]) == acc + ([c] + DropEmpty(comps[1..]));
      }
    }
  }

  /** A join starts with the first character of its first part, when that part is not empty. */
  lemma JoinStart(parts: seq<string>, sep: char)
    requires |parts| >= 1 && parts[0] != []
    ensures JoinWith(parts, sep) != [] && JoinWith(parts, sep)[0] == parts[0][0]
  {
    if |parts| > 1 {
      assert JoinWith(parts, sep) == parts[0] + [sep] + JoinWith(parts[1..], sep);
    }
  }

  /**
   * A relative path made of plain segments and empty ones (doubled slashes) normalises to its plain
   * segments joined by single slashes.
   */
  lemma NormPathRelative(segs: seq<string>)
    requires |segs| >= 1 && PlainSegment(segs[0])
    requires forall i :: 0 <= i < |segs| ==> '/' !in segs[i] && (segs[i] == "" || PlainSegment(segs[i]))
    ensures NormPath(JoinWith(segs, '/')) == JoinWith(DropEmpty(segs), '/')
  {
    var p := JoinWith(segs, '/');
    JoinStart(segs, '/');
    assert segs[0][0] in segs[0];
    assert LeadingSlashes(p) == 0;
    SplitJoin(segs, '/');
    ResolveDropsEmpty([], segs, false);
    var d := DropEmpty(segs);
    assert Resolve([], Split(p, '/'), false) == d;
    assert d[0] == segs[0];
    JoinStart(d, '/');
  }

  /** Segments `os.path.normpath` keeps as they are, and that hold no slash. */
  predicate PlainSegments(segs: seq<string>) {
    forall i :: 0 <= i < |segs| ==> PlainSegment(segs[i]) && '/' !in segs[i]
  }

  /** A relative path of plain segments is already normal. */
  lemma NormPathPlain(segs: seq<string>)
    requires |segs| >= 1 && PlainSegments(segs)
    ensures NormPath(JoinWith(segs, '/')) == JoinWith(segs, '/')
  {
    NormPathRelative(segs);
    DropEmptyNone(segs);
  }
}
