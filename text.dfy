/**
 * The .NET string operations the TCP side relies on, with their library
 * semantics: ordinal `StartsWith`, `LastIndexOf`, `Split` over a list of
 * string separators (optionally dropping empty entries) and `Trim`.
 */
module Text {

  /** `t` occurs in `s` starting at index `i`. */
  predicate OccursAt(s: string, i: nat, t: string)
  {
    i + |t| <= |s| && s[i..i + |t|] == t
  }

  predicate StartsWith(s: string, prefix: string)
  {
    OccursAt(s, 0, prefix)
  }

  /** `s` contains `t` as a substring. */
  predicate Contains(s: string, t: string)
  {
    exists i: nat | i <= |s| :: OccursAt(s, i, t)
  }

  /** The greatest index below `n` where `t` occurs in `s`, or -1. */
  function LastIndexBelow(s: string, t: string, n: nat): (r: int)
    ensures -1 <= r < n
    ensures r == -1 ==> forall i: nat :: i < n ==> !OccursAt(s, i, t)
    ensures r >= 0 ==> OccursAt(s, r, t) && forall i: nat :: r < i < n ==> !OccursAt(s, i, t)
  {
    if n == 0 then -1
    else if OccursAt(s, n - 1, t) then n - 1
    else LastIndexBelow(s, t, n - 1)
  }

  /** `s.LastIndexOf(t)`: the start of the last occurrence of `t`, or -1. */
  function LastIndexOf(s: string, t: string): (r: int)
    ensures -1 <= r
    ensures r == -1 <==> !Contains(s, t)
    ensures r >= 0 ==> OccursAt(s, r, t) && forall i: nat :: r < i ==> !OccursAt(s, i, t)
  {
    LastIndexBelow(s, t, |s| + 1)
  }

  /**
   * The length of the first separator, in list order, that occurs at `i`;
   * 0 when none does. Empty separators are ignored, as .NET ignores them.
   */
  function MatchLength(s: string, i: nat, seps: seq<string>): (m: nat)
    ensures m > 0 ==> i + m <= |s|
  {
    if seps == [] then 0
    else if seps[0] != "" && OccursAt(s, i, seps[0]) then |seps[0]|
    else
      assert forall k :: 1 <= k < |seps| ==> seps[k] == seps[1..][k - 1];
      MatchLength(s, i, seps[1..])
  }

  /**
   * Scans `s` from `i`; the current piece started at `start`. At each position
   * the first matching separator ends the piece; the text after the last
   * separator is the final piece.
   */
  function SplitFrom(s: string, seps: seq<string>, start: nat, i: nat): (parts: seq<string>)
    requires start <= i <= |s|
    ensures |parts| >= 1
    decreases |s| - i
  {
    if i == |s| then [s[start..]]
    else
      var m := MatchLength(s, i, seps);
      if m > 0 then [s[start..i]] + SplitFrom(s, seps, i + m, i + m)
      else SplitFrom(s, seps, start, i + 1)
  }

  /** `s.Split(seps, StringSplitOptions.None)`. */
  function Split(s: string, seps: seq<string>): (parts: seq<string>)
    ensures |parts| >= 1
  {
    SplitFrom(s, seps, 0, 0)
  }

  /** The `StringSplitOptions.RemoveEmptyEntries` filter. */
  function RemoveEmpty(parts: seq<string>): (r: seq<string>)
    ensures forall k :: 0 <= k < |r| ==> r[k] != ""
    ensures |r| <= |parts|
    ensures forall x :: x in r <==> x in parts && x != ""
  {
    if parts == [] then []
    else if parts[0] == "" then RemoveEmpty(parts[1..])
    else [parts[0]] + RemoveEmpty(parts[1..])
  }

  /** A single piece is kept exactly when it is non-empty. */
  lemma RemoveEmptyOne(p: string)
    ensures RemoveEmpty([p]) == if p == "" then [] else [p]
  {
    assert [p][1..] == [];
  }

  /** The filter keeps the non-empty pieces, in order. */
  lemma RemoveEmptyAppend(a: seq<string>, b: seq<string>)
    ensures RemoveEmpty(a + b) == RemoveEmpty(a) + RemoveEmpty(b)
  {
    if a != [] {
      assert (a + b)[1..] == a[1..] + b;
      RemoveEmptyAppend(a[1..], b);
    } else {
      assert a + b == b;
    }
  }

  /** Positions `i..j` start no separator, so the scan passes over them. */
  lemma {:induction false} SkipNoMatch(s: string, seps: seq<string>, start: nat, i: nat, j: nat)
    requires start <= i <= j <= |s|
    requires forall k :: i <= k < j ==> MatchLength(s, k, seps) == 0
    ensures SplitFrom(s, seps, start, i) == SplitFrom(s, seps, start, j)
    decreases j - i
  {
    if i < j {
      SkipNoMatch(s, seps, start, i + 1, j);
    }
  }

  /** A string in which no separator occurs splits into itself. */
  lemma SplitNoMatch(s: string, seps: seq<string>)
    requires forall k :: 0 <= k < |s| ==> MatchLength(s, k, seps) == 0
    ensures Split(s, seps) == [s]
  {
    SkipNoMatch(s, seps, 0, 0, |s|);
  }

  /** `char.IsWhiteSpace`: the Unicode white-space characters .NET recognises. */
  predicate IsWhiteSpace(c: char)
  {
    var n := c as int;
    (9 <= n <= 13) || n == 32 || n == 0x85 || n == 0xA0 || n == 0x1680 ||
    (0x2000 <= n <= 0x200A) || n == 0x2028 || n == 0x2029 || n == 0x202F ||
    n == 0x205F || n == 0x3000
  }

  /** No white space at either end. */
  predicate Trimmed(s: string)
  {
    s == [] || (!IsWhiteSpace(s[0]) && !IsWhiteSpace(s[|s| - 1]))
  }

  function TrimStart(s: string): (r: string)
    ensures |r| <= |s| && r == s[|s| - |r|..]
    ensures r == [] || !IsWhiteSpace(r[0])
    ensures forall k :: 0 <= k < |s| - |r| ==> IsWhiteSpace(s[k])
  {
    if s != [] && IsWhiteSpace(s[0]) then TrimStart(s[1..]) else s
  }

  function TrimEnd(s: string): (r: string)
    ensures |r| <= |s| && r == s[..|r|]
    ensures r == [] || !IsWhiteSpace(r[|r| - 1])
    ensures forall k :: |r| <= k < |s| ==> IsWhiteSpace(s[k])
  {
    if s != [] && IsWhiteSpace(s[|s| - 1]) then TrimEnd(s[..|s| - 1]) else s
  }

  /** `r` is `s[i..j]`, and everything of `s` outside `i..j` is white space. */
  predicate TrimmedSlice(s: string, r: string, i: nat, j: nat)
  {
    i <= j <= |s| && r == s[i..j] &&
    (forall k :: 0 <= k < i ==> IsWhiteSpace(s[k])) &&
    (forall k :: j <= k < |s| ==> IsWhiteSpace(s[k]))
  }

  /**
   * `s.Trim()`: what remains of `s` once the white space at either end is
   * removed; only white space is removed, and none is left at either end.
   */
  function Trim(s: string): (r: string)
    ensures Trimmed(r)
    ensures exists i: nat, j: nat :: TrimmedSlice(s, r, i, j)
  {
    var t := TrimStart(s);
    var r := TrimEnd(t);
    TrimSlice(s, t, r);
    r
  }

  /** Cutting white space off the end of what is left after cutting it off the start leaves a trimmed slice. */
  lemma TrimSlice(s: string, t: string, r: string)
    requires |t| <= |s| && t == s[|s| - |t|..] && forall k :: 0 <= k < |s| - |t| ==> IsWhiteSpace(s[k])
    requires |r| <= |t| && r == t[..|r|] && forall k :: |r| <= k < |t| ==> IsWhiteSpace(t[k])
    ensures TrimmedSlice(s, r, |s| - |t|, |s| - |t| + |r|)
  {
    var i := |s| - |t|;
    InfixOfSuffix(s, i, t, r);
    forall k | i + |r| <= k < |s|
      ensures IsWhiteSpace(s[k])
    {
      assert s[k] == t[k - i];
    }
  }

  /** A prefix of a suffix of `s` is an infix of `s`. */
  lemma InfixOfSuffix(s: string, off: nat, t: string, r: string)
    requires off <= |s| && t == s[off..] && |r| <= |t| && r == t[..|r|]
    ensures off + |r| <= |s| && r == s[off..off + |r|]
  {
    forall k | 0 <= k < |r|
      ensures r[k] == s[off + k]
    {
      assert r[k] == t[k];
    }
  }

  /** Trimming removes exactly the white space padding around a trimmed string. */
  lemma {:induction false} TrimPadded(d: string)
    requires Trimmed(d)
    ensures Trim(" " + d + " ") == d
  {
    var s := " " + d + " ";
    assert s[1..] == d + " ";
    var t := TrimStart(s);
    if d == [] {
      assert s[1..][1..] == [];
    } else {
      assert TrimStart(d + " ") == d + " ";
      assert (d + " ")[..|d|] == d;
    }
  }

  /** An occurrence inside a prefix is an occurrence in the whole string. */
  lemma OccursInPrefix(a: string, x: string, k: nat, t: string)
    requires OccursAt(a, k, t)
    ensures OccursAt(a + x, k, t)
  {
    assert (a + x)[k..k + |t|] == a[k..k + |t|];
  }

  /** An occurrence that lies inside an infix `s[off..off + |d|] == d` is an occurrence in `d`. */
  lemma OccursInInfix(s: string, off: nat, d: string, k: nat, t: string)
    requires off + |d| <= |s| && s[off..off + |d|] == d
    requires off <= k && k + |t| <= off + |d|
    requires OccursAt(s, k, t)
    ensures OccursAt(d, k - off, t)
  {
    forall x | 0 <= x < |t|
      ensures d[k - off + x] == t[x]
    {
      assert d[k - off + x] == s[off..off + |d|][k - off + x] == s[k + x];
      assert s[k + x] == s[k..k + |t|][x];
    }
    assert d[k - off..k - off + |t|] == t;
  }

  /** The separator found at a position depends only on which separators occur there. */
  lemma {:induction false} MatchLengthSame(s1: string, i1: nat, s2: string, i2: nat, seps: seq<string>)
    requires forall k :: 0 <= k < |seps| ==> (OccursAt(s1, i1, seps[k]) <==> OccursAt(s2, i2, seps[k]))
    ensures MatchLength(s1, i1, seps) == MatchLength(s2, i2, seps)
  {
    if seps != [] {
      assert forall k :: 1 <= k < |seps| ==> seps[k] == seps[1..][k - 1];
      MatchLengthSame(s1, i1, s2, i2, seps[1..]);
    }
  }

  /** Past offset `off`, occurrences in `s` are occurrences in its suffix `b`. */
  lemma OccursShift(s: string, off: nat, b: string, i: nat, t: string)
    requires off <= |s| && s[off..] == b
    ensures OccursAt(s, off + i, t) <==> OccursAt(b, i, t)
  {
    if i + |t| <= |b| {
      var u := s[off + i..off + i + |t|];
      forall x | 0 <= x < |t|
        ensures u[x] == b[i + x]
      {
        assert s[off..][i + x] == s[off + i + x];
      }
      assert u == b[i..i + |t|];
    }
  }

  /** Past offset `off`, scanning `s` is scanning its suffix `b`. */
  lemma {:induction false} SplitShift(s: string, off: nat, b: string, seps: seq<string>, start: nat, i: nat)
    requires off <= |s| && s[off..] == b && start <= i <= |b|
    ensures SplitFrom(s, seps, off + start, off + i) == SplitFrom(b, seps, start, i)
    decreases |b| - i, 1
  {
    if i < |b| {
      SameMatch(s, off, b, seps, i);
      if MatchLength(b, i, seps) > 0 {
        SplitShiftCut(s, off, b, seps, start, i);
      } else {
        SplitShift(s, off, b, seps, start, i + 1);
      }
    } else {
      SuffixSlice(s, off, b, start, |b|);
    }
  }

  /** Slices of a suffix `b == s[off..]` are slices of `s`. */
  lemma SuffixSlice(s: string, off: nat, b: string, x: nat, y: nat)
    requires off <= |s| && s[off..] == b && x <= y <= |b|
    ensures s[off + x..off + y] == b[x..y]
  {
    var u := s[off + x..off + y];
    forall k | 0 <= k < y - x
      ensures u[k] == b[x + k]
    {
      assert s[off..][x + k] == s[off + x + k];
    }
  }

  /** Scanning `s` from offset `off` is scanning its suffix `b`. */
  lemma SplitShiftAll(s: string, off: nat, b: string, seps: seq<string>)
    requires off <= |s| && s[off..] == b
    ensures SplitFrom(s, seps, off, off) == SplitFrom(b, seps, 0, 0)
  {
    SplitShift(s, off, b, seps, 0, 0);
  }

  /** The separator recognised at `i` in `b` is the one recognised at `off + i` in `s`. */
  lemma SameMatch(s: string, off: nat, b: string, seps: seq<string>, i: nat)
    requires off <= |s| && s[off..] == b
    ensures MatchLength(s, off + i, seps) == MatchLength(b, i, seps)
  {
    forall k | 0 <= k < |seps|
      ensures OccursAt(s, off + i, seps[k]) <==> OccursAt(b, i, seps[k])
    {
      OccursShift(s, off, b, i, seps[k]);
    }
    MatchLengthSame(s, off + i, b, i, seps);
  }

  /** `SplitShift` where a separator is recognised at `i`. */
  lemma {:induction false} SplitShiftCut(s: string, off: nat, b: string, seps: seq<string>, start: nat, i: nat)
    requires off <= |s| && s[off..] == b && start <= i < |b| && MatchLength(b, i, seps) > 0
    requires MatchLength(s, off + i, seps) == MatchLength(b, i, seps)
    ensures SplitFrom(s, seps, off + start, off + i) == SplitFrom(b, seps, start, i)
    decreases |b| - i, 0
  {
    var m := MatchLength(b, i, seps);
    var j := i + m;
    assert SplitFrom(b, seps, start, i) == [b[start..i]] + SplitFrom(b, seps, j, j);
    assert SplitFrom(s, seps, off + start, off + i) == [s[off + start..off + i]] + SplitFrom(s, seps, off + j, off + j);
    SplitShift(s, off, b, seps, j, j);
    SuffixSlice(s, off, b, start, i);
  }

  /**
   * Splitting `s == a + sep + b`, where `sep` is the separator recognised at
   * the end of `a` and no separator straddles the end of `a`, splits `a` and
   * `b` independently.
   */
  lemma {:induction false} SplitJoinFrom(s: string, a: string, sep: string, seps: seq<string>, start: nat, i: nat)
    requires start <= i <= |a| && |a| + |sep| <= |s| && s[..|a|] == a
    requires |sep| > 0 && MatchLength(s, |a|, seps) == |sep|
    requires forall k :: i <= k < |a| ==> MatchLength(s, k, seps) == MatchLength(a, k, seps)
    ensures SplitFrom(s, seps, start, i) == SplitFrom(a, seps, start, i) + SplitFrom(s, seps, |a| + |sep|, |a| + |sep|)
    decreases |a| - i, 1
  {
    if i == |a| {
      SplitJoinEnd(s, a, sep, seps, start);
    } else if MatchLength(a, i, seps) > 0 {
      SplitJoinAt(s, a, sep, seps, start, i);
    } else {
      SplitJoinPast(s, a, sep, seps, start, i);
    }
  }

  /** `SplitJoinFrom` where a separator is recognised at `i`. */
  lemma {:induction false} SplitJoinAt(s: string, a: string, sep: string, seps: seq<string>, start: nat, i: nat)
    requires start <= i < |a| && |a| + |sep| <= |s| && s[..|a|] == a
    requires |sep| > 0 && MatchLength(s, |a|, seps) == |sep|
    requires forall k :: i <= k < |a| ==> MatchLength(s, k, seps) == MatchLength(a, k, seps)
    requires MatchLength(a, i, seps) > 0
    ensures SplitFrom(s, seps, start, i) == SplitFrom(a, seps, start, i) + SplitFrom(s, seps, |a| + |sep|, |a| + |sep|)
    decreases |a| - i, 0
  {
    var m := MatchLength(a, i, seps);
    assert MatchLength(s, i, seps) == m;
    var rest := SplitFrom(s, seps, |a| + |sep|, |a| + |sep|);
    SplitJoinFrom(s, a, sep, seps, i + m, i + m);
    SplitJoinCut(s, a, seps, start, i, m, rest);
  }

  /** `SplitJoinFrom` where no separator is recognised at `i`. */
  lemma {:induction false} SplitJoinPast(s: string, a: string, sep: string, seps: seq<string>, start: nat, i: nat)
    requires start <= i < |a| && |a| + |sep| <= |s| && s[..|a|] == a
    requires |sep| > 0 && MatchLength(s, |a|, seps) == |sep|
    requires forall k :: i <= k < |a| ==> MatchLength(s, k, seps) == MatchLength(a, k, seps)
    requires MatchLength(a, i, seps) == 0
    ensures SplitFrom(s, seps, start, i) == SplitFrom(a, seps, start, i) + SplitFrom(s, seps, |a| + |sep|, |a| + |sep|)
    decreases |a| - i, 0
  {
    assert MatchLength(s, i, seps) == 0;
    SplitJoinFrom(s, a, sep, seps, start, i + 1);
    SplitJoinSkip(s, a, seps, start, i);
  }

  lemma SplitJoinEnd(s: string, a: string, sep: string, seps: seq<string>, start: nat)
    requires start <= |a| && |a| + |sep| <= |s| && s[..|a|] == a
    requires |sep| > 0 && MatchLength(s, |a|, seps) == |sep|
    ensures SplitFrom(s, seps, start, |a|) == SplitFrom(a, seps, start, |a|) + SplitFrom(s, seps, |a| + |sep|, |a| + |sep|)
  {
    var rest := SplitFrom(s, seps, |a| + |sep|, |a| + |sep|);
    var piece := a[start..];
    PrefixSlice(s, a, start);
    SplitFromCut(s, seps, start, |a|);
    assert SplitFrom(s, seps, start, |a|) == [piece] + rest;
    SplitFromEnd(a, seps, start);
    assert SplitFrom(a, seps, start, |a|) == [piece];
  }

  /** The tail of a prefix `a` of `s` from `x` is the slice of `s` up to `|a|`. */
  lemma PrefixSlice(s: string, a: string, x: nat)
    requires x <= |a| <= |s| && s[..|a|] == a
    ensures s[x..|a|] == a[x..]
  {
    var u := s[x..|a|];
    forall k | 0 <= k < |a| - x
      ensures u[k] == a[x + k]
    {
      assert s[..|a|][x + k] == s[x + k];
    }
  }

  /** At the end of the text the current piece is the rest of it. */
  lemma SplitFromEnd(s: string, seps: seq<string>, start: nat)
    requires start <= |s|
    ensures SplitFrom(s, seps, start, |s|) == [s[start..]]
  {
  }

  /** A separator recognised at `i` ends the current piece there. */
  lemma SplitFromCut(s: string, seps: seq<string>, start: nat, i: nat)
    requires start <= i < |s| && MatchLength(s, i, seps) > 0
    ensures var m := MatchLength(s, i, seps);
      SplitFrom(s, seps, start, i) == [s[start..i]] + SplitFrom(s, seps, i + m, i + m)
  {
  }

  lemma SplitJoinCut(s: string, a: string, seps: seq<string>, start: nat, i: nat, m: nat, rest: seq<string>)
    requires start <= i < |a| && |a| <= |s| && s[..|a|] == a
    requires m > 0 && MatchLength(a, i, seps) == m && MatchLength(s, i, seps) == m
    requires SplitFrom(s, seps, i + m, i + m) == SplitFrom(a, seps, i + m, i + m) + rest
    ensures SplitFrom(s, seps, start, i) == SplitFrom(a, seps, start, i) + rest
  {
    PrefixAgrees(s, a, start, i);
    CutAppend(s, start, i, a, start, i, seps, m, rest);
  }

  /**
   * Two scans that cut the same piece at a separator of the same length, and
   * whose continuations differ by a suffix `rest`, differ by `rest`.
   */
  lemma CutAppend(s1: string, st1: nat, i1: nat, s2: string, st2: nat, i2: nat, seps: seq<string>, m: nat, rest: seq<string>)
    requires st1 <= i1 < |s1| && st2 <= i2 < |s2| && m > 0
    requires MatchLength(s1, i1, seps) == m && MatchLength(s2, i2, seps) == m
    requires s1[st1..i1] == s2[st2..i2]
    requires SplitFrom(s1, seps, i1 + m, i1 + m) == SplitFrom(s2, seps, i2 + m, i2 + m) + rest
    ensures SplitFrom(s1, seps, st1, i1) == SplitFrom(s2, seps, st2, i2) + rest
  {
    var head := [s1[st1..i1]];
    var tail := SplitFrom(s2, seps, i2 + m, i2 + m);
    SplitFromCut(s1, seps, st1, i1);
    SplitFromCut(s2, seps, st2, i2);
    assert head + (tail + rest) == (head + tail) + rest;
  }

  /** Inside a prefix `a` of `s`, slices of `s` are slices of `a`. */
  lemma PrefixAgrees(s: string, a: string, start: nat, i: nat)
    requires start <= i <= |a| <= |s| && s[..|a|] == a
    ensures s[start..i] == a[start..i]
  {
    forall k | start <= k < i
      ensures s[k] == a[k]
    {
      assert s[..|a|][k] == s[k];
    }
  }

  lemma SplitJoinSkip(s: string, a: string, seps: seq<string>, start: nat, i: nat)
    requires start <= i < |a| && |a| <= |s|
    requires MatchLength(a, i, seps) == 0 && MatchLength(s, i, seps) == 0
    ensures SplitFrom(s, seps, start, i) == SplitFrom(s, seps, start, i + 1)
    ensures SplitFrom(a, seps, start, i) == SplitFrom(a, seps, start, i + 1)
  {
  }

  lemma SplitJoin(a: string, sep: string, b: string, seps: seq<string>)
    requires |sep| > 0 && MatchLength(a + sep + b, |a|, seps) == |sep|
    requires forall k :: 0 <= k < |a| ==> MatchLength(a + sep + b, k, seps) == MatchLength(a, k, seps)
    ensures Split(a + sep + b, seps) == Split(a, seps) + Split(b, seps)
  {
    var s := a + sep + b;
    assert s[..|a|] == a && s[|a| + |sep|..] == b;
    SplitJoinAround(s, a, sep, b, seps);
  }

  /** `SplitJoin` for a text `s` whose prefix is `a` and whose suffix after `a + sep` is `b`. */
  lemma SplitJoinAround(s: string, a: string, sep: string, b: string, seps: seq<string>)
    requires |a| + |sep| <= |s| && s[..|a|] == a && s[|a| + |sep|..] == b
    requires |sep| > 0 && MatchLength(s, |a|, seps) == |sep|
    requires forall k :: 0 <= k < |a| ==> MatchLength(s, k, seps) == MatchLength(a, k, seps)
    ensures SplitFrom(s, seps, 0, 0) == SplitFrom(a, seps, 0, 0) + SplitFrom(b, seps, 0, 0)
  {
    var off := |a| + |sep|;
    SplitJoinFrom(s, a, sep, seps, 0, 0);
    SplitShiftAll(s, off, b, seps);
    Rejoin(SplitFrom(s, seps, 0, 0), SplitFrom(a, seps, 0, 0), SplitFrom(s, seps, off, off), SplitFrom(b, seps, 0, 0));
  }

  /** Substituting `w` for the equal tail `z`. */
  lemma Rejoin(x: seq<string>, y: seq<string>, z: seq<string>, w: seq<string>)
    requires x == y + z && z == w
    ensures x == y + w
  {
  }
  /** With a single separator, a match is exactly an occurrence of it. */
  lemma MatchOne(s: string, k: nat, x: string)
    requires x != ""
    ensures MatchLength(s, k, [x]) == if OccursAt(s, k, x) then |x| else 0
  {
    assert [x][1..] == [];
  }

  /** With two separators, the first is tried before the second. */
  lemma MatchTwo(s: string, k: nat, x: string, y: string)
    requires x != "" && y != ""
    ensures MatchLength(s, k, [x, y]) == if OccursAt(s, k, x) then |x| else if OccursAt(s, k, y) then |y| else 0
  {
    assert [x, y][1..] == [y];
    MatchOne(s, k, y);
  }

  /** Trimming removes a single leading blank in front of a trimmed string. */
  lemma {:induction false} TrimLeading(c: string)
    requires Trimmed(c)
    ensures Trim(" " + c) == c
  {
    var s := " " + c;
    assert s[1..] == c;
    if c == [] {
      assert TrimStart(s) == [];
    } else {
      assert TrimStart(s) == TrimStart(c) == c;
    }
  }

  /** No blank in `w`. */
  predicate SpaceFree(w: string)
  {
    forall i :: 0 <= i < |w| ==> w[i] != ' '
  }

  /** The words of `ws` joined by single blanks. */
  function Unwords(ws: seq<string>): (s: string)
    requires |ws| >= 1
    ensures |s| >= |ws[0]| && s[..|ws[0]|] == ws[0]
  {
    if |ws| == 1 then ws[0] else ws[0] + " " + Unwords(ws[1..])
  }

  /** Splitting on a blank undoes `Unwords` when no word holds a blank (empty words included). */
  lemma {:induction false} SplitUnwords(ws: seq<string>)
    requires |ws| >= 1
    requires forall j :: 0 <= j < |ws| ==> SpaceFree(ws[j])
    ensures Split(Unwords(ws), [" "]) == ws
    decreases |ws|
  {
    var a := ws[0];
    forall k | 0 <= k < |a|
      ensures MatchLength(a, k, [" "]) == 0
    {
      MatchOne(a, k, " ");
      assert a[k..k + 1][0] == a[k];
    }
    SplitNoMatch(a, [" "]);
    if |ws| > 1 {
      var rest := Unwords(ws[1..]);
      var s := a + " " + rest;
      MatchOne(s, |a|, " ");
      assert s[|a|..|a| + 1] == " ";
      forall k | 0 <= k < |a|
        ensures MatchLength(s, k, [" "]) == MatchLength(a, k, [" "])
      {
        MatchOne(s, k, " ");
        MatchOne(a, k, " ");
        assert s[k..k + 1][0] == s[k] == a[k];
      }
      SplitJoin(a, " ", rest, [" "]);
      SplitUnwords(ws[1..]);
      assert [a] + ws[1..] == ws;
    }
  }
}
