/**
 * The handful of Python `str` operations the core relies on, with their Python meaning,
 * on `string` (= `seq<char>`).
 */
module Strings {
  import opened Wrappers

  /** `s.startswith(p)` */
  predicate StartsWith(s: string, p: string) {
    |p| <= |s| && s[..|p|] == p
  }

  /** `s.endswith(p)` */
  predicate EndsWith(s: string, p: string) {
    |p| <= |s| && s[|s| - |p|..] == p
  }

  /** `p` occurs in `s` at index `j`. */
  predicate OccursAt(s: string, p: string, j: nat) {
    j + |p| <= |s| && s[j..j + |p|] == p
  }

  /** An occurrence one character further in `s` is an occurrence in `s[1..]`. */
  lemma OccursAtTail(s: string, p: string, j: nat)
    requires s != []
    ensures OccursAt(s, p, j + 1) <==> OccursAt(s[1..], p, j)
  {
    if j + 1 + |p| <= |s| {
      assert s[j + 1..j + 1 + |p|] == s[1..][j..j + |p|];
    }
  }

  /** `s.find(p)`: the index of the first occurrence of `p` in `s`, if any. */
  function IndexOf(s: string, p: string): (r: Option<nat>)
    ensures r.Some? ==> OccursAt(s, p, r.value) && forall j: nat :: j < r.value ==> !OccursAt(s, p, j)
    ensures r.None? ==> forall j: nat :: !OccursAt(s, p, j)
    decreases |s|
  {
    if StartsWith(s, p) then Some(0)
    else if s == [] then None
    else
      match IndexOf(s[1..], p)
      case Some(i) =>
        assert OccursAt(s[1..], p, i);
        OccursAtTail(s, p, i);
        forall j: nat | j < i + 1 ensures !OccursAt(s, p, j) {
          if j > 0 { OccursAtTail(s, p, j - 1); }
        }
        Some(i + 1)
      case None =>
        forall j: nat ensures !OccursAt(s, p, j) {
          if j > 0 { OccursAtTail(s, p, j - 1); }
        }
        None
  }

  /** `p in s` */
  predicate Contains(s: string, p: string) {
    IndexOf(s, p).Some?
  }

  /** An occurrence anywhere makes `Contains` true. */
  lemma ContainsAt(s: string, p: string, i: nat)
    requires OccursAt(s, p, i)
    ensures Contains(s, p)
  {
  }

  /** A text contains its prefixes, and whatever its tail contains. */
  lemma ContainsPrefixOrTail(s: string, p: string)
    ensures StartsWith(s, p) ==> Contains(s, p)
    ensures s != [] && Contains(s[1..], p) ==> Contains(s, p)
  {
    if StartsWith(s, p) {
      ContainsAt(s, p, 0);
    }
    if s != [] && Contains(s[1..], p) {
      var i := IndexOf(s[1..], p).value;
      OccursAtTail(s, p, i);
      ContainsAt(s, p, i + 1);
    }
  }

  /** The characters `str.strip()` removes when given no argument. */
  const Whitespace: set<char> := {' ', '\t', '\n', '\r', '\U{B}', '\U{C}'}

  /** `s.lstrip(chars)` */
  function TrimLeft(s: string, chars: set<char>): (r: string)
    ensures |r| <= |s| && r == s[|s| - |r|..]
    ensures r == [] || r[0] !in chars
    ensures forall i :: 0 <= i < |s| - |r| ==> s[i] in chars
    decreases |s|
  {
    if s != [] && s[0] in chars then TrimLeft(s[1..], chars) else s
  }

  /** `s.rstrip(chars)` */
  function TrimRight(s: string, chars: set<char>): (r: string)
    ensures |r| <= |s| && r == s[..|r|]
    ensures r == [] || r[|r| - 1] !in chars
    ensures forall i :: |r| <= i < |s| ==> s[i] in chars
    decreases |s|
  {
    if s != [] && s[|s| - 1] in chars then TrimRight(s[..|s| - 1], chars) else s
  }

  /**
   * `s.strip(chars)`: `s` without its leading and trailing characters from `chars`. The result is
   * the slice of `s` that starts and ends with a character outside `chars`, and every character cut
   * off is one of `chars`.
   */
  function Strip(s: string, chars: set<char>): (r: string)
    ensures r == [] || (r[0] !in chars && r[|r| - 1] !in chars)
    ensures exists i :: StrippedAt(s, chars, r, i)
  {
    var left := TrimLeft(s, chars);
    var r := TrimRight(left, chars);
    var i := |s| - |left|;
    assert StrippedAt(s, chars, r, i);
    r
  }

  /** `r` is the slice of `s` from `i` and everything around it in `s` is one of `chars`. */
  predicate StrippedAt(s: string, chars: set<char>, r: string, i: nat) {
    && i + |r| <= |s| && r == s[i..i + |r|]
    && (forall k :: 0 <= k < i ==> s[k] in chars)
    && (forall k :: i + |r| <= k < |s| ==> s[k] in chars)
  }

  /** Stripping leaves `s` alone exactly when it neither starts nor ends with one of `chars`. */
  lemma StripIdentity(s: string, chars: set<char>)
    ensures Strip(s, chars) == s <==> (s == [] || (s[0] !in chars && s[|s| - 1] !in chars))
  {
    if s != [] && s[0] !in chars && s[|s| - 1] !in chars {
      assert TrimLeft(s, chars) == s;
      assert TrimRight(s, chars) == s;
    }
  }

  /**
   * `s.replace(p, '')`: every occurrence of `p`, found left to right without overlap, removed.
   * Python leaves `s` unchanged when `p` is empty.
   */
  function RemoveAll(s: string, p: string): (r: string)
    ensures |r| <= |s|
    decreases |s|
  {
    if p == [] || |s| < |p| then s
    else if s[..|p|] == p then RemoveAll(s[|p|..], p)
    else [s[0]] + RemoveAll(s[1..], p)
  }

  /** A text in which the pattern does not occur comes back unchanged. */
  lemma {:induction false} RemoveAllAbsent(s: string, p: string)
    requires !Contains(s, p)
    ensures RemoveAll(s, p) == s
    decreases |s|
  {
    if p != [] && |s| >= |p| {
      ContainsPrefixOrTail(s, p);
      RemoveAllAbsent(s[1..], p);
      assert s == [s[0]] + s[1..];
    }
  }

  /** A prefix at none of whose positions the pattern starts is kept as it is. */
  lemma {:induction false} RemoveAllKeep(a: string, b: string, p: string)
    requires p != [] && forall j :: 0 <= j < |a| ==> !OccursAt(a + b, p, j)
    ensures RemoveAll(a + b, p) == a + RemoveAll(b, p)
    decreases |a|
  {
    if a != [] {
      var s := a + b;
      assert !OccursAt(s, p, 0);
      assert s[1..] == a[1..] + b;
      forall j | 0 <= j < |a[1..]| ensures !OccursAt(a[1..] + b, p, j) {
        OccursAtTail(s, p, j);
      }
      RemoveAllKeep(a[1..], b, p);
      if |s| >= |p| {
        assert s[..|p|] == s[0..0 + |p|];
        assert RemoveAll(s, p) == [s[0]] + RemoveAll(s[1..], p);
        assert [a[0]] + (a[1..] + RemoveAll(b, p)) == a + RemoveAll(b, p);
      } else {
        assert |b| < |p|;
      }
      assert a == [a[0]] + a[1..];
    } else {
      assert a + b == b;
    }
  }

  /** A position where the text differs from the pattern rules out an occurrence there. */
  lemma NotOccursAt(s: string, p: string, j: nat, k: nat)
    requires k < |p| && j + k < |s| && s[j + k] != p[k]
    ensures !OccursAt(s, p, j)
  {
    if j + |p| <= |s| {
      assert s[j..j + |p|][k] == s[j + k];
    }
  }

  /** An occurrence at the start is removed. */
  lemma RemoveAllFront(p: string, b: string)
    requires p != []
    ensures RemoveAll(p + b, p) == RemoveAll(b, p)
  {
    assert (p + b)[..|p|] == p && (p + b)[|p|..] == b;
  }

  /** Removing a one-character pattern drops exactly the copies of that character. */
  lemma {:induction false} RemoveCharMultiset(s: string, c: char)
    ensures multiset(RemoveAll(s, [c])) == multiset(s)[c := 0]
    decreases |s|
  {
    if s != [] {
      RemoveCharMultiset(s[1..], c);
      assert s == [s[0]] + s[1..];
      if s[..1] == [c] {
        assert s[0] == c;
      } else {
        assert s[0] != c;
      }
    }
  }

  /** The characters of `s` other than `c`, in their order. */
  function Without(s: string, c: char): (r: string)
    ensures c !in r && |r| <= |s|
    decreases |s|
  {
    if s == [] then []
    else (if s[0] == c then [] else [s[0]]) + Without(s[1..], c)
  }

  /** Filtering a concatenation filters each part, in order. */
  lemma {:induction false} WithoutAppend(a: string, b: string, c: char)
    ensures Without(a + b, c) == Without(a, c) + Without(b, c)
    decreases |a|
  {
    if a != [] {
      assert (a + b)[0] == a[0] && (a + b)[1..] == a[1..] + b;
      WithoutAppend(a[1..], b, c);
    } else {
      assert a + b == b;
    }
  }

  /** A text without `c` is left as it is. */
  lemma {:induction false} WithoutAbsent(s: string, c: char)
    requires c !in s
    ensures Without(s, c) == s
    decreases |s|
  {
    if s != [] {
      assert s == [s[0]] + s[1..];
      WithoutAbsent(s[1..], c);
    }
  }

  /** Removing a one-character pattern keeps the other characters in their order. */
  lemma {:induction false} RemoveCharWithout(s: string, c: char)
    ensures RemoveAll(s, [c]) == Without(s, c)
    decreases |s|
  {
    if s != [] {
      RemoveCharWithout(s[1..], c);
      if s[..1] == [c] {
        assert s[0] == c;
      } else {
        assert s[0] != c;
      }
    }
  }

  /**
   * Concatenation regrouped, as a lemma: calling it spares the solver the search for the
   * regrouping, which is costly on long concatenations.
   */
  lemma ConcatAssoc<T>(a: seq<T>, b: seq<T>, c: seq<T>)
    ensures a + (b + c) == (a + b) + c
  {
  }

  /** `sep.join(parts)` */
  function JoinWith(parts: seq<string>, sep: char): string
  {
    if |parts| == 0 then []
    else if |parts| == 1 then parts[0]
    else parts[0] + [sep] + JoinWith(parts[1..], sep)
  }

  /** Text appended to a join lands at the end of its last part. */
  lemma {:induction false} JoinAppendLast(parts: seq<string>, sep: char, suffix: string)
    requires |parts| >= 1
    ensures JoinWith(parts, sep) + suffix ==
      JoinWith(parts[..|parts| - 1] + [parts[|parts| - 1] + suffix], sep)
    decreases |parts|
  {
    var n := |parts| - 1;
    var extended := parts[..n] + [parts[n] + suffix];
    if |parts| > 1 {
      JoinAppendLast(parts[1..], sep, suffix);
      assert extended[1..] == parts[1..][..n - 1] + [parts[1..][n - 1] + suffix];
      assert JoinWith(extended, sep) == extended[0] + [sep] + JoinWith(extended[1..], sep);
    }
  }

  /** `s.split(sep)` for a one-character separator: never empty, and no part holds `sep`. */
  function Split(s: string, sep: char): (r: seq<string>)
    ensures |r| >= 1
    ensures forall i :: 0 <= i < |r| ==> sep !in r[i]
    decreases |s|
  {
    if s == [] then [[]]
    else
      var rest := Split(s[1..], sep);
      if s[0] == sep then [[]] + rest
      else [[s[0]] + rest[0]] + rest[1..]
  }

  /** Joining the parts of a split gives the text back. */
  lemma {:induction false} JoinSplit(s: string, sep: char)
    ensures JoinWith(Split(s, sep), sep) == s
    decreases |s|
  {
    if s != [] {
      JoinSplit(s[1..], sep);
      var rest := Split(s[1..], sep);
      if s[0] != sep {
        if |rest| == 1 {
          assert s == [s[0]] + rest[0];
        } else {
          assert JoinWith(rest, sep) == rest[0] + [sep] + JoinWith(rest[1..], sep);
          assert s == [s[0]] + s[1..];
        }
      } else {
        assert s == [sep] + s[1..];
      }
    }
  }

  /** The first part of a split is the text before the first separator. */
  lemma {:induction false} SplitFirst(a: string, sep: char, b: string)
    requires sep !in a
    ensures Split(a + [sep] + b, sep)[0] == a
    decreases |a|
  {
    if a == [] {
      assert (a + [sep] + b)[0] == sep;
    } else {
      assert (a + [sep] + b)[1..] == a[1..] + [sep] + b;
      SplitFirst(a[1..], sep, b);
      assert a == [a[0]] + a[1..];
    }
  }

  /** Splitting a text with no separator in it gives that text alone. */
  lemma {:induction false} SplitNone(a: string, sep: char)
    requires sep !in a
    ensures Split(a, sep) == [a]
    decreases |a|
  {
    if a != [] {
      SplitNone(a[1..], sep);
      assert a == [a[0]] + a[1..];
    }
  }

  /** Splitting joined parts, none of which holds the separator, gives the parts back. */
  lemma {:induction false} SplitJoin(parts: seq<string>, sep: char)
    requires |parts| >= 1
    requires forall i :: 0 <= i < |parts| ==> sep !in parts[i]
    ensures Split(JoinWith(parts, sep), sep) == parts
    decreases |parts|
  {
    if |parts| == 1 {
      SplitNone(parts[0], sep);
    } else {
      SplitJoin(parts[1..], sep);
      SplitConcat(parts[0], sep, JoinWith(parts[1..], sep));
    }
  }

  /** A separator after a separator-free prefix starts a new part. */
  lemma {:induction false} SplitConcat(a: string, sep: char, b: string)
    requires sep !in a
    ensures Split(a + [sep] + b, sep) == [a] + Split(b, sep)
    decreases |a|
  {
    if a == [] {
      assert (a + [sep] + b)[1..] == b;
    } else {
      assert (a + [sep] + b)[1..] == a[1..] + [sep] + b;
      SplitConcat(a[1..], sep, b);
      assert a == [a[0]] + a[1..];
    }
  }
}
