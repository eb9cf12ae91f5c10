/**
 * Line framing of the TCP byte stream. Each read appends to a text buffer;
 * the buffer is then cut at its LAST CRLF: the text before it splits into
 * CRLF-separated lines with the empty ones dropped, and the text after it
 * stays in the buffer for the next read.
 */
module Framing {
  import opened ChatProtocol
  import opened Text

  const CRLF := "\r\n"

  /** The `StringBuilder` a connection accumulates its reads in. */
  class MessageBuilder {
    var text: string

    constructor ()
      ensures text == ""
    {
      text := "";
    }
  }

  /** What one read of the connection yields. */
  datatype ReadEvent = Chunk(data: string) | EndOfData | ReadFailed(error: Exception)

  /** The non-empty CRLF-separated lines of `s`. */
  function Lines(s: string): (r: seq<string>)
    ensures forall k :: 0 <= k < |r| ==> r[k] != ""
  {
    RemoveEmpty(Split(s, [CRLF]))
  }

  /** The complete lines of a buffer and the fragment left after its last CRLF. */
  datatype Framed = Framed(lines: seq<string>, rest: string)

  /** Cuts `buffer` at its last CRLF; with none, nothing is complete. */
  function Frame(buffer: string): Framed
  {
    var idx := LastIndexOf(buffer, CRLF);
    if idx == -1 then Framed([], buffer)
    else Framed(Lines(buffer[..idx]), buffer[idx + 2..])
  }

  /**
   * With no CRLF the buffer stays whole and nothing is complete; otherwise the
   * buffer is the complete text, a CRLF and a fragment that holds no CRLF,
   * and the lines are those of the complete text.
   */
  lemma FrameCut(buffer: string)
    ensures var f := Frame(buffer);
      (!Contains(buffer, CRLF) ==> f == Framed([], buffer)) &&
      (Contains(buffer, CRLF) ==>
        |f.rest| + 2 <= |buffer| && !Contains(f.rest, CRLF) &&
        var complete := buffer[..|buffer| - |f.rest| - 2];
        buffer == complete + CRLF + f.rest && f.lines == Lines(complete))
  {
    var idx := LastIndexOf(buffer, CRLF);
    if idx != -1 {
      NothingAfterLast(buffer, idx, CRLF);
      assert buffer == buffer[..idx] + buffer[idx..idx + 2] + buffer[idx + 2..];
    }
  }

  /** Text after the last occurrence of `t` holds no `t`. */
  lemma NothingAfterLast(s: string, idx: nat, t: string)
    requires |t| > 0 && idx + |t| <= |s|
    requires forall i: nat :: idx < i ==> !OccursAt(s, i, t)
    ensures !Contains(s[idx + |t|..], t)
  {
    var rest := s[idx + |t|..];
    forall j: nat | j <= |rest|
      ensures !OccursAt(rest, j, t)
    {
      assert !OccursAt(s, idx + |t| + j, t);
      if j + |t| <= |rest| {
        assert rest[j..j + |t|] == s[idx + |t| + j..idx + |t| + j + |t|];
      }
    }
  }

  // ------------------------------------------------------------ properties

  /** Below `|a|`, CRLF occurs in `a + CRLF + b` exactly where it occurs in `a`. */
  lemma CrlfInPrefix(a: string, b: string, k: nat)
    requires k < |a|
    ensures OccursAt(a + CRLF + b, k, CRLF) <==> OccursAt(a, k, CRLF)
  {
    var s := a + CRLF + b;
    if k + 2 <= |a| {
      assert s[k..k + 2] == a[k..k + 2];
    } else {
      assert s[k + 1] == '\r' != CRLF[1];
    }
  }

  /** A CRLF between two texts joins their lines. */
  lemma LinesJoin(a: string, b: string)
    ensures Lines(a + CRLF + b) == Lines(a) + Lines(b)
  {
    var s := a + CRLF + b;
    MatchOne(s, |a|, CRLF);
    assert s[|a|..|a| + 2] == CRLF;
    forall k | 0 <= k < |a|
      ensures MatchLength(s, k, [CRLF]) == MatchLength(a, k, [CRLF])
    {
      MatchOne(s, k, CRLF);
      MatchOne(a, k, CRLF);
      CrlfInPrefix(a, b, k);
    }
    SplitJoin(a, CRLF, b, [CRLF]);
    RemoveEmptyAppend(Split(a, [CRLF]), Split(b, [CRLF]));
  }

  /** A non-empty text without CRLF is one line. */
  lemma LineAlone(s: string)
    requires s != "" && !Contains(s, CRLF)
    ensures Lines(s) == [s]
  {
    forall k | 0 <= k < |s|
      ensures MatchLength(s, k, [CRLF]) == 0
    {
      MatchOne(s, k, CRLF);
      assert !OccursAt(s, k, CRLF);
    }
    SplitNoMatch(s, [CRLF]);
  }

  /** Consecutive CRLFs produce no line: the empty line between them is dropped. */
  lemma EmptyLineDropped(a: string, b: string)
    ensures Lines(a + CRLF + CRLF + b) == Lines(a + CRLF + b)
  {
    assert a + CRLF + CRLF + b == a + CRLF + ("" + CRLF + b);
    LinesJoin(a, "" + CRLF + b);
    LinesJoin("", b);
    LinesJoin(a, b);
    assert Lines("") == [];
  }

  /**
   * The unique cut: a buffer made of some text, a CRLF and a fragment without
   * CRLF frames into the lines of that text and that fragment.
   */
  lemma FrameOf(c: string, r: string)
    requires !Contains(r, CRLF)
    ensures Frame(c + CRLF + r) == Framed(Lines(c), r)
  {
    var s := c + CRLF + r;
    assert s[|c|..|c| + 2] == CRLF;
    forall i: nat | |c| < i
      ensures !OccursAt(s, i, CRLF)
    {
      if i + 2 <= |s| {
        if i == |c| + 1 {
          assert s[i..i + 2][0] == '\n' != CRLF[0];
        } else {
          assert s[i..i + 2] == r[i - |c| - 2..i - |c|];
          assert !OccursAt(r, i - |c| - 2, CRLF);
        }
      }
    }
    var idx := LastIndexOf(s, CRLF);
    assert OccursAt(s, |c|, CRLF);
    assert idx == |c|;
    assert s[..idx] == c && s[idx + 2..] == r;
  }

  /**
   * How the stream is cut into reads does not matter: framing `a`, then
   * framing its fragment followed by `b`, yields the lines and the fragment
   * of framing `a + b` at once.
   */
  lemma FrameChunks(a: string, b: string)
    ensures var fa := Frame(a); var fb := Frame(fa.rest + b);
      fa.lines + fb.lines == Frame(a + b).lines && fb.rest == Frame(a + b).rest
  {
    var fa := Frame(a);
    FrameCut(a);
    if Contains(a, CRLF) {
      var ca := a[..|a| - |fa.rest| - 2];
      assert a + b == ca + CRLF + (fa.rest + b);
      FrameAfterCut(ca, fa.rest + b);
    }
  }

  /** Framing `c + CRLF + t`: the lines of `c` come first, then those `t` frames into. */
  lemma FrameAfterCut(c: string, t: string)
    ensures Frame(c + CRLF + t) == Framed(Lines(c) + Frame(t).lines, Frame(t).rest)
  {
    var ft := Frame(t);
    FrameCut(t);
    if Contains(t, CRLF) {
      var ct := t[..|t| - |ft.rest| - 2];
      assert c + CRLF + t == (c + CRLF + ct) + CRLF + ft.rest;
      FrameOf(c + CRLF + ct, ft.rest);
      LinesJoin(c, ct);
    } else {
      FrameOf(c, t);
    }
  }

  /** The reads `Chunk(ds[0]), Chunk(ds[1]), …`. */
  function Chunks(ds: seq<string>): (r: seq<ReadEvent>)
    ensures |r| == |ds| && forall i :: 0 <= i < |ds| ==> r[i] == Chunk(ds[i])
  {
    seq(|ds|, i requires 0 <= i < |ds| => Chunk(ds[i]))
  }

  /** The whole text the reads `ds` deliver. */
  function Concat(ds: seq<string>): string
  {
    if ds == [] then "" else ds[0] + Concat(ds[1..])
  }

  /** Sequence concatenation regrouped. */
  lemma Concatenated<T>(a: seq<T>, b: seq<T>, c: seq<T>)
    ensures a + b + c == a + (b + c)
  {
  }
}
