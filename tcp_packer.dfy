/**
 * The CRLF-terminated text framing used over TCP. Packing exists only for
 * the messages a server sends (Reply, Msg, Err, Bye); unpacking dispatches on
 * the first matching keyword prefix and extracts fields with `Split` and
 * `Trim`, without any length check, and throws on a line it does not know.
 */
module TcpPacker {
  import opened Wrappers
  import opened ChatProtocol
  import opened ClientMessages
  import opened Text

  const CRLF := "\r\n"

  /**
   * `TcpPacker.Pack(message)`: the switch on the type tag, which determines
   * the variant (ClientMessages.TagDeterminesVariant).
   */
  function Pack(message: ClientMessage): (r: Outcome<string>)
    ensures r.Threw? <==> !(message.ReplyMessage? || message.MsgMessage? || message.ErrMessage? || message.ByeMessage?)
    ensures r.Threw? ==> r.error == ArgumentException
    ensures r.Returned? ==> |r.value| >= 2 && r.value[|r.value| - 2..] == CRLF
  {
    match message
    case ReplyMessage(result, content, _, _) =>
      Returned("REPLY " + (if result == 0 then "NOK" else "OK") + " IS " + content + CRLF)
    case MsgMessage(displayName, content, _) =>
      Returned("MSG FROM " + displayName + " IS " + content + CRLF)
    case ErrMessage(displayName, content, _) =>
      Returned("ERR FROM " + displayName + " IS " + content + CRLF)
    case ByeMessage(_) =>
      Returned("BYE" + CRLF)
    case _ =>
      Threw(ArgumentException)
  }

  /** `ParseAuthMessage`: tokens 1, 3 and 5 of the line split on single spaces. */
  function ParseAuthMessage(line: string): (r: Outcome<ClientMessage>)
  {
    var parts := Split(line, [" "]);
    if |parts| < 6 then Threw(IndexOutOfRangeException)
    else Returned(AuthMessage(parts[1], parts[3], parts[5], None))
  }

  /** `ParseJoinMessage`: tokens 1 and 3 of the line split on single spaces. */
  function ParseJoinMessage(line: string): (r: Outcome<ClientMessage>)
  {
    var parts := Split(line, [" "]);
    if |parts| < 4 then Threw(IndexOutOfRangeException)
    else Returned(JoinMessage(parts[1], parts[3], None))
  }

  /**
   * `ParseMsgMessage` / `ParseErrMessage`: split on the keyword prefix and on
   * "IS", drop empty pieces, and trim the first two.
   */
  function ParseTextMessage(line: string, keyword: string, isErr: bool): (r: Outcome<ClientMessage>)
  {
    var parts := RemoveEmpty(Split(line, [keyword, "IS"]));
    if |parts| < 2 then Threw(IndexOutOfRangeException)
    else if isErr then Returned(ErrMessage(Trim(parts[0]), Trim(parts[1]), None))
    else Returned(MsgMessage(Trim(parts[0]), Trim(parts[1]), None))
  }

  /** The line starts with one of the keywords of a message that has fields. */
  predicate HasFieldKeyword(line: string)
  {
    StartsWith(line, "AUTH") || StartsWith(line, "JOIN") || StartsWith(line, "MSG FROM") || StartsWith(line, "ERR FROM")
  }

  /** `TcpPacker.Unpack(line)`: the first matching prefix, in this order, decides. */
  function Unpack(line: string): (r: Outcome<ClientMessage>)
    ensures r.Returned? ==> r.value.messageId.None? && !r.value.UnknownMessage?
    ensures !HasFieldKeyword(line) && StartsWith(line, "BYE") ==> r == Returned(ByeMessage(None))
    ensures !HasFieldKeyword(line) && !StartsWith(line, "BYE") ==> r == Threw(ArgumentException)
  {
    if StartsWith(line, "AUTH") then ParseAuthMessage(line)
    else if StartsWith(line, "JOIN") then ParseJoinMessage(line)
    else if StartsWith(line, "MSG FROM") then ParseTextMessage(line, "MSG FROM", false)
    else if StartsWith(line, "ERR FROM") then ParseTextMessage(line, "ERR FROM", true)
    else if StartsWith(line, "BYE") then Returned(ByeMessage(None))
    else Threw(ArgumentException)
  }

  /** The line `Pack` produces, without its CRLF terminator. */
  function Line(packed: string): string
  {
    if |packed| >= 2 then packed[..|packed| - 2] else packed
  }

  /** The keyword a Msg or Err line starts with. */
  function Keyword(isErr: bool): (kw: string)
    ensures |kw| == 8
  {
    if isErr then "ERR FROM" else "MSG FROM"
  }

  /** Every blank in a separator of a Msg/Err line sits at index 3, before an 'F'. */
  lemma SeparatorBlanks(t: string, p: nat)
    requires t == "IS" || t == Keyword(false) || t == Keyword(true)
    requires p < |t|
    ensures t[0] != ' ' && (t[0] != 'I' || t == "IS")
    ensures t[p] == ' ' ==> p == 3 && |t| == 8 && t[4] == 'F'
  {
  }

  /** A separator of a Msg/Err line cannot start in the blank-padded display name `" " + d + " "`. */
  lemma NotInPadded(d: string, tail: string, k: nat, t: string)
    requires t == "IS" || t == Keyword(false) || t == Keyword(true)
    requires !Contains(d, t)
    requires tail != [] ==> tail[0] == 'I'
    requires k < |d| + 2
    ensures !OccursAt(" " + d + " " + tail, k, t)
  {
    var s := " " + d + " " + tail;
    if k + |t| <= |s| {
      var w := s[k..k + |t|];
      if k == 0 || k == |d| + 1 {
        assert w[0] == s[k] == ' ';
        SeparatorBlanks(t, 0);
        assert w[0] != t[0];
      } else if k + |t| <= |d| + 1 {
        assert !OccursAt(d, k - 1, t);
        assert w == d[k - 1..k - 1 + |t|];
      } else {
        var p := |d| + 1 - k;
        assert w[p] == s[|d| + 1] == ' ';
        SeparatorBlanks(t, p);
        if t[p] == ' ' {
          assert w[4] == s[|d| + 2] == tail[0];
          assert w[4] != t[4];
        } else {
          assert w[p] != t[p];
        }
      }
    }
  }

  /** A separator of a Msg/Err line cannot start in the blank-led content `" " + c`. */
  lemma NotInLeading(c: string, k: nat, t: string)
    requires t == "IS" || t == Keyword(false) || t == Keyword(true)
    requires !Contains(c, t)
    requires k < |c| + 1
    ensures !OccursAt(" " + c, k, t)
  {
    var s := " " + c;
    if k + |t| <= |s| {
      var w := s[k..k + |t|];
      if k == 0 {
        assert w[0] == ' ';
        SeparatorBlanks(t, 0);
        assert w[0] != t[0];
      } else {
        assert !OccursAt(c, k - 1, t);
        assert w == c[k - 1..k - 1 + |t|];
      }
    }
  }

  /** After the keyword, the line splits into the padded display name and the padded content. */
  lemma {:induction false} SplitFields(d: string, c: string, kw: string)
    requires kw == Keyword(false) || kw == Keyword(true)
    requires !Contains(d, "IS") && !Contains(c, "IS") && !Contains(d, kw) && !Contains(c, kw)
    ensures Split(" " + d + " " + "IS" + " " + c, [kw, "IS"]) == [" " + d + " ", " " + c]
  {
    var seps := [kw, "IS"];
    var A := " " + d + " ";
    var B := " " + c;
    var rest := A + "IS" + B;
    assert rest == " " + d + " " + ("IS" + B);
    assert A == " " + d + " " + "";
    assert rest[|A|..|A| + 2] == "IS";
    assert rest[|A|] != kw[0];
    MatchTwo(rest, |A|, kw, "IS");
    forall k | 0 <= k < |A|
      ensures MatchLength(rest, k, seps) == 0 && MatchLength(A, k, seps) == 0
    {
      NotInPadded(d, "IS" + B, k, kw);
      NotInPadded(d, "IS" + B, k, "IS");
      NotInPadded(d, "", k, kw);
      NotInPadded(d, "", k, "IS");
      MatchTwo(rest, k, kw, "IS");
      MatchTwo(A, k, kw, "IS");
    }
    SplitJoin(A, "IS", B, seps);
    SplitNoMatch(A, seps);
    forall k | 0 <= k < |B|
      ensures MatchLength(B, k, seps) == 0
    {
      NotInLeading(c, k, kw);
      NotInLeading(c, k, "IS");
      MatchTwo(B, k, kw, "IS");
    }
    SplitNoMatch(B, seps);
    assert " " + d + " " + "IS" + " " + c == rest;
  }

  /** The pieces a Msg/Err line yields once empty ones are dropped. */
  lemma {:induction false} LinePieces(d: string, c: string, kw: string)
    requires kw == Keyword(false) || kw == Keyword(true)
    requires !Contains(d, "IS") && !Contains(c, "IS") && !Contains(d, kw) && !Contains(c, kw)
    ensures RemoveEmpty(Split(kw + " " + d + " IS " + c, [kw, "IS"])) == [" " + d + " ", " " + c]
  {
    var seps := [kw, "IS"];
    var A := " " + d + " ";
    var B := " " + c;
    var rest := " " + d + " " + "IS" + " " + c;
    var line := kw + " " + d + " IS " + c;
    assert line == "" + kw + rest;
    assert line[..8] == kw;
    MatchTwo(line, 0, kw, "IS");
    SplitJoin("", kw, rest, seps);
    assert Split("", seps) == [""];
    SplitFields(d, c, kw);
    assert Split(line, seps) == [""] + [A, B];
    RemoveEmptyAppend([""], [A, B]);
    assert RemoveEmpty([A, B]) == [A] + RemoveEmpty([B]) by { assert [A, B][1..] == [B]; }
    assert RemoveEmpty([B]) == [B] by { assert [B][1..] == []; }
  }

  /** A line starting with "MSG FROM" or "ERR FROM" is parsed as a Msg or an Err line. */
  lemma UnpackText(line: string, isErr: bool)
    requires StartsWith(line, Keyword(isErr))
    ensures Unpack(line) == ParseTextMessage(line, Keyword(isErr), isErr)
  {
    var kw := Keyword(isErr);
    assert line[0] == kw[0] by { assert line[0] == line[..8][0]; }
    FirstCharDiffers(line, "AUTH");
    FirstCharDiffers(line, "JOIN");
    if isErr {
      FirstCharDiffers(line, "MSG FROM");
    }
  }

  /** A line cannot start with a prefix whose first character it lacks. */
  lemma FirstCharDiffers(line: string, prefix: string)
    requires line != [] && prefix != [] && line[0] != prefix[0]
    ensures !StartsWith(line, prefix)
  {
    if |prefix| <= |line| {
      assert line[..|prefix|][0] == line[0];
    }
  }

  /**
   * Msg/Err round trip: a display name and content that are trimmed and hold
   * neither "IS" nor the line's keyword come back unchanged from the packed
   * line (which carries no message ID over TCP).
   */
  lemma {:induction false} TextRoundTrip(d: string, c: string, isErr: bool, id: Option<uint16>)
    requires Trimmed(d) && Trimmed(c)
    requires !Contains(d, "IS") && !Contains(c, "IS")
    requires !Contains(d, Keyword(isErr)) && !Contains(c, Keyword(isErr))
    ensures var m := if isErr then ErrMessage(d, c, id) else MsgMessage(d, c, id);
            Pack(m).Returned? &&
            Unpack(Line(Pack(m).value)) == Returned(if isErr then ErrMessage(d, c, None) else MsgMessage(d, c, None))
  {
    var kw := Keyword(isErr);
    var line := kw + " " + d + " IS " + c;
    var m := if isErr then ErrMessage(d, c, id) else MsgMessage(d, c, id);
    assert Pack(m).value == line + CRLF;
    assert Line(line + CRLF) == line;
    assert line[..8] == kw;
    UnpackText(line, isErr);
    LinePieces(d, c, kw);
    TrimPadded(d);
    TrimLeading(c);
  }

  /** No Msg separator starts at a character other than 'I' or 'M'. */
  lemma NoSeparatorAt(s: string, k: nat)
    requires k < |s| && s[k] != 'I' && s[k] != 'M'
    ensures MatchLength(s, k, [Keyword(false), "IS"]) == 0
  {
    MatchTwo(s, k, Keyword(false), "IS");
    if k + 2 <= |s| {
      assert s[k..k + 2][0] == s[k];
    }
    if k + 8 <= |s| {
      assert s[k..k + 8][0] == s[k];
    }
  }

  /** The pieces of " IS x" split on the Msg separators. */
  lemma TailPieces()
    ensures Split(" IS x", [Keyword(false), "IS"]) == [" ", " x"]
  {
    var kw := Keyword(false);
    var seps := [kw, "IS"];
    var tail := " IS x";
    assert tail == " " + "IS" + " x";
    NoSeparatorAt(tail, 0);
    NoSeparatorAt(" ", 0);
    assert tail[1..3] == "IS";
    MatchTwo(tail, 1, kw, "IS");
    SplitJoin(" ", "IS", " x", seps);
    SplitNoMatch(" ", seps);
    NoSeparatorAt(" x", 0);
    NoSeparatorAt(" x", 1);
    SplitNoMatch(" x", seps);
  }

  /** The pieces of " THIS IS x" split on the Msg separators. */
  lemma RestPieces()
    ensures Split(" THIS IS x", [Keyword(false), "IS"]) == [" TH", " ", " x"]
  {
    var kw := Keyword(false);
    var seps := [kw, "IS"];
    var rest := " THIS IS x";
    assert rest == " TH" + "IS" + " IS x";
    forall k | 0 <= k < 3
      ensures MatchLength(rest, k, seps) == 0 && MatchLength(" TH", k, seps) == 0
    {
      NoSeparatorAt(rest, k);
      NoSeparatorAt(" TH", k);
    }
    assert rest[3..5] == "IS";
    MatchTwo(rest, 3, kw, "IS");
    SplitJoin(" TH", "IS", " IS x", seps);
    SplitNoMatch(" TH", seps);
    TailPieces();
  }

  /** The pieces of "MSG FROM THIS IS x" split on the Msg separators. */
  lemma TruncatedSplit()
    ensures Split("MSG FROM THIS IS x", [Keyword(false), "IS"]) == [""] + [" TH", " ", " x"]
  {
    var kw := Keyword(false);
    var seps := [kw, "IS"];
    var line := "MSG FROM THIS IS x";
    var rest := " THIS IS x";
    assert line == "" + kw + rest;
    assert line[..8] == kw;
    MatchTwo(line, 0, kw, "IS");
    SplitJoin("", kw, rest, seps);
    assert Split("", seps) == [""];
    RestPieces();
  }

  /** The non-empty pieces of "MSG FROM THIS IS x". */
  lemma TruncatedPieces()
    ensures RemoveEmpty(Split("MSG FROM THIS IS x", [Keyword(false), "IS"])) == [" TH", " "] + [" x"]
  {
    var parts := [" TH", " ", " x"];
    TruncatedSplit();
    RemoveEmptyAppend([""], parts);
    assert RemoveEmpty(parts) == parts by {
      assert parts[1..] == [" ", " x"];
      assert parts[1..][1..] == [" x"];
      assert parts[1..][1..][1..] == [];
    }
  }

  /**
   * An "IS" inside a field is taken as the separator: the display name "THIS"
   * is cut to "TH" and the real content is lost.
   */
  lemma {:induction false} IsInsideNameTruncates()
    ensures Unpack(Line(Pack(MsgMessage("THIS", "x", None)).value)) == Returned(MsgMessage("TH", "", None))
  {
    var line := "MSG FROM THIS IS x";
    TruncatedLine();
    TruncatedPieces();
    TruncatedTrims();
    TextFromPieces(line, false, " TH", " ", [" x"]);
  }

  /** The packed Msg of "THIS" and "x", without its terminator. */
  lemma TruncatedLine()
    ensures Line(Pack(MsgMessage("THIS", "x", None)).value) == "MSG FROM THIS IS x"
    ensures StartsWith("MSG FROM THIS IS x", Keyword(false))
  {
    var line := "MSG FROM THIS IS x";
    assert Pack(MsgMessage("THIS", "x", None)).value == line + CRLF;
    assert Line(line + CRLF) == line;
    assert line[..8] == Keyword(false);
  }

  /** The trimmed first two pieces of the truncated line. */
  lemma TruncatedTrims()
    ensures Trim(" TH") == "TH" && Trim(" ") == ""
  {
    TrimLeading("TH");
    TrimLeading("");
  }

  /** A Msg/Err line whose first two non-empty pieces are `p0` and `p1` carries them, trimmed. */
  lemma TextFromPieces(line: string, isErr: bool, p0: string, p1: string, more: seq<string>)
    requires StartsWith(line, Keyword(isErr))
    requires RemoveEmpty(Split(line, [Keyword(isErr), "IS"])) == [p0, p1] + more
    ensures Unpack(line) == Returned(if isErr then ErrMessage(Trim(p0), Trim(p1), None) else MsgMessage(Trim(p0), Trim(p1), None))
  {
    UnpackText(line, isErr);
  }

  /** Any line starting with "BYE" (and with none of the earlier keywords) unpacks to Bye; packed Bye comes back. */
  lemma ByeRoundTrip(id: Option<uint16>)
    ensures Pack(ByeMessage(id)) == Returned("BYE" + CRLF)
    ensures Unpack(Line(Pack(ByeMessage(id)).value)) == Returned(ByeMessage(None))
  {
    assert Line("BYE" + CRLF) == "BYE";
  }

  /** A line whose first character starts none of the keywords makes `Unpack` throw. */
  lemma ForeignLine(line: string)
    requires line != [] && line[0] !in "AJMEB"
    ensures Unpack(line) == Threw(ArgumentException)
  {
  }

  /** A packed Reply is not a line the server accepts: "REPLY" starts no known keyword. */
  lemma ReplyNotAccepted(result: byte, content: string, ref: Option<uint16>, id: Option<uint16>)
    ensures var p := Pack(ReplyMessage(result, content, ref, id));
            p.Returned? && Unpack(Line(p.value)) == Threw(ArgumentException)
  {
    var v := "REPLY " + (if result == 0 then "NOK" else "OK") + " IS " + content;
    assert Pack(ReplyMessage(result, content, ref, id)).value == v + CRLF;
    assert Line(v + CRLF) == v;
    assert v[0] == 'R';
    ForeignLine(v);
  }

  /**
   * Auth takes tokens 1, 3 and 5 of the blank-separated line and ignores
   * tokens 2 and 4 (the "AS" and "USING" keywords), without length checks.
   */
  lemma AuthTokens(ws: seq<string>)
    requires |ws| >= 6 && StartsWith(ws[0], "AUTH")
    requires forall j :: 0 <= j < |ws| ==> SpaceFree(ws[j])
    ensures Unpack(Unwords(ws)) == Returned(AuthMessage(ws[1], ws[3], ws[5], None))
  {
    SplitUnwords(ws);
    assert Unwords(ws)[..4] == ws[0][..4];
  }

  /** An Auth line with fewer than six tokens makes `Unpack` throw. */
  lemma AuthTooShort(ws: seq<string>)
    requires 1 <= |ws| < 6 && StartsWith(ws[0], "AUTH")
    requires forall j :: 0 <= j < |ws| ==> SpaceFree(ws[j])
    ensures Unpack(Unwords(ws)) == Threw(IndexOutOfRangeException)
  {
    SplitUnwords(ws);
    assert Unwords(ws)[..4] == ws[0][..4];
  }

  /** Join takes tokens 1 and 3 of the blank-separated line; fewer than four throws. */
  lemma JoinTokens(ws: seq<string>)
    requires |ws| >= 1 && StartsWith(ws[0], "JOIN")
    requires forall j :: 0 <= j < |ws| ==> SpaceFree(ws[j])
    ensures |ws| >= 4 ==> Unpack(Unwords(ws)) == Returned(JoinMessage(ws[1], ws[3], None))
    ensures |ws| < 4 ==> Unpack(Unwords(ws)) == Threw(IndexOutOfRangeException)
  {
    SplitUnwords(ws);
    assert Unwords(ws)[..4] == ws[0][..4];
  }
}
