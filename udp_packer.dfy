/**
 * The binary UDP framing: a type byte, a big-endian 16-bit message ID, then
 * NUL-terminated ASCII fields. Packing follows the per-class cases of
 * `UdpPacker.Pack`; unpacking reads with a cursor and turns every malformed
 * payload into an unknown message, except that the type and the ID are read
 * before the guarded region, so inputs shorter than three bytes throw.
 */
module UdpPacker {
  import opened Wrappers
  import opened ChatProtocol
  import opened ClientMessages

  // ---------------------------------------------------------------- ASCII

  /** `Encoding.ASCII.GetBytes` of one ASCII character. */
  function AsciiByte(c: char): byte
  {
    if (c as int) < 0x80 then (c as int) as byte else 0x3F
  }

  /**
   * `Encoding.ASCII.GetBytes` of one character. .NET strings hold UTF-16 code
   * units: a character outside the Basic Multilingual Plane is a surrogate
   * pair, and each of its two units becomes '?'.
   */
  function CharBytes(c: char): seq<byte>
  {
    if (c as int) < 0x80 then [(c as int) as byte]
    else if (c as int) < 0x10000 then [0x3F]
    else [0x3F, 0x3F]
  }

  /** `Encoding.ASCII.GetBytes(s)`: one byte per UTF-16 code unit of `s`. */
  function AsciiBytes(s: string): (r: seq<byte>)
    ensures |s| <= |r| <= 2 * |s|
  {
    if s == [] then [] else AsciiBytes(s[..|s| - 1]) + CharBytes(s[|s| - 1])
  }

  /** ASCII text encodes one byte per character, each its own code. */
  lemma {:induction false} AsciiBytesOfAscii(s: string)
    requires IsAscii(s)
    ensures |AsciiBytes(s)| == |s|
    ensures forall k :: 0 <= k < |s| ==> AsciiBytes(s)[k] == AsciiByte(s[k])
    decreases |s|
  {
    if s != [] {
      var init := s[..|s| - 1];
      assert forall k :: 0 <= k < |init| ==> init[k] == s[k];
      AsciiBytesOfAscii(init);
    }
  }

  /** A character outside the Basic Multilingual Plane encodes as two '?' bytes. */
  lemma SurrogatePairBytes(c: char)
    requires (c as int) >= 0x10000
    ensures AsciiBytes([c]) == [0x3F, 0x3F]
  {
    assert [c][..0] == [];
  }

  /** `Encoding.ASCII.GetString` of one byte: bytes above 0x7F become '?'. */
  function AsciiChar(b: byte): char
  {
    if b < 0x80 then (b as int) as char else '?'
  }

  function AsciiString(bs: seq<byte>): (r: string)
    ensures |r| == |bs|
    ensures forall k :: 0 <= k < |bs| ==> r[k] == AsciiChar(bs[k])
  {
    seq(|bs|, k requires 0 <= k < |bs| => AsciiChar(bs[k]))
  }

  predicate IsAscii(s: string)
  {
    forall k :: 0 <= k < |s| ==> (s[k] as int) < 0x80
  }

  predicate NulFree(s: string)
  {
    forall k :: 0 <= k < |s| ==> s[k] != '\0'
  }

  /** Every decoded string is ASCII: the decoder substitutes '?' for the rest. */
  lemma DecodedIsAscii(bs: seq<byte>)
    ensures IsAscii(AsciiString(bs))
  {
  }

  lemma AsciiRoundTrip(s: string)
    requires IsAscii(s)
    ensures AsciiString(AsciiBytes(s)) == s
  {
    AsciiBytesOfAscii(s);
  }

  // ------------------------------------------------------------- writing

  /** The two bytes of an ID, high byte first. */
  function IdBytes(id: uint16): (r: seq<byte>)
    ensures |r| == 2
  {
    [(id as int / 0x100) as byte, (id as int % 0x100) as byte]
  }

  /** `WriteMessageId`: the cast of a null `ushort?` throws. */
  function WriteMessageId(id: Option<uint16>): (r: Outcome<seq<byte>>)
    ensures r.Threw? <==> id.None?
    ensures r.Returned? ==> r.value == IdBytes(id.value)
  {
    match id
    case None => Threw(InvalidOperationException)
    case Some(v) => Returned(IdBytes(v))
  }

  /** `WriteString`: the ASCII bytes of the value with a NUL appended. */
  function WriteString(s: string): (r: seq<byte>)
    ensures r == AsciiBytes(s) + [0]
  {
    var t := s + ['\0'];
    assert t[..|t| - 1] == s;
    AsciiBytes(t)
  }

  /**
   * `UdpPacker.Pack(message, messageId)`. Confirm uses its own ID and ignores
   * the argument; Reply, Msg, Err and Bye need the argument (and Reply its
   * ref ID); variants without a case produce no bytes.
   */
  function Pack(message: ClientMessage, messageId: Option<uint16>): (r: Outcome<seq<byte>>)
  {
    match message
    case ConfirmMessage(cid) =>
      if cid.None? then Threw(InvalidOperationException)
      else Returned([Confirm] + IdBytes(cid.value))
    case ReplyMessage(result, content, refId, _) =>
      if messageId.None? || refId.None? then Threw(InvalidOperationException)
      else Returned([Reply] + IdBytes(messageId.value) + [result] + IdBytes(refId.value) + WriteString(content))
    case MsgMessage(displayName, content, _) =>
      if messageId.None? then Threw(InvalidOperationException)
      else Returned([Msg] + IdBytes(messageId.value) + WriteString(displayName) + WriteString(content))
    case ErrMessage(displayName, content, _) =>
      if messageId.None? then Threw(InvalidOperationException)
      else Returned([Err] + IdBytes(messageId.value) + WriteString(displayName) + WriteString(content))
    case ByeMessage(_) =>
      if messageId.None? then Threw(InvalidOperationException)
      else Returned([Bye] + IdBytes(messageId.value))
    case _ => Returned([])
  }

  // ------------------------------------------------------------- reading

  /** `ReadMessageId` at a cursor: two bytes, high byte first. */
  function ReadMessageId(data: seq<byte>, pos: nat): (id: uint16)
    requires pos + 2 <= |data|
  {
    (data[pos] as int * 0x100 + data[pos + 1] as int) as uint16
  }

  lemma IdRoundTrip(id: uint16, pre: seq<byte>, post: seq<byte>)
    ensures ReadMessageId(pre + IdBytes(id) + post, |pre|) == id
  {
    var data := pre + IdBytes(id) + post;
    assert data[|pre|] == IdBytes(id)[0] && data[|pre| + 1] == IdBytes(id)[1];
  }

  /** The outcome of `ReadString`: the text and the cursor after its NUL, or EndOfStreamException. */
  datatype Field = Field(text: string, next: nat) | EndOfStream

  /** The first index at or after `i` holding a NUL byte, or `|data|`. */
  function NulFrom(data: seq<byte>, i: nat): (z: nat)
    requires i <= |data|
    ensures i <= z <= |data|
    ensures forall k :: i <= k < z ==> data[k] != 0
    ensures z < |data| ==> data[z] == 0
    decreases |data| - i
  {
    if i == |data| || data[i] == 0 then i else NulFrom(data, i + 1)
  }

  /**
   * `ReadString(reader, maxLength)` with the cursor at `pos`: the bytes up to
   * the next NUL, provided there are at most `maxLength` of them; running
   * past the end of the buffer or past the bound throws.
   */
  function StringField(data: seq<byte>, pos: nat, maxLength: nat): (f: Field)
    requires pos <= |data|
    ensures f.Field? ==> pos < f.next <= |data| && |f.text| <= maxLength
  {
    var z := NulFrom(data, pos);
    if z == |data| || z - pos > maxLength then EndOfStream
    else Field(AsciiString(data[pos..z]), z + 1)
  }

  /**
   * The reading loop of `ReadString`: collect bytes until a NUL, throwing at
   * the end of the buffer or as soon as the collected bytes exceed the bound.
   */
  method ReadString(data: seq<byte>, pos: nat, maxLength: nat) returns (f: Field)
    requires pos <= |data|
    ensures f == StringField(data, pos, maxLength)
  {
    var stringBytes: seq<byte> := [];
    var cursor := pos;
    while true
      invariant pos <= cursor <= |data|
      invariant stringBytes == data[pos..cursor]
      invariant |stringBytes| <= maxLength
      invariant NulFrom(data, pos) == NulFrom(data, cursor)
      decreases |data| - cursor
    {
      if cursor == |data| {
        return EndOfStream;
      }
      var currentByte := data[cursor];
      cursor := cursor + 1;
      if currentByte == 0 {
        return Field(AsciiString(stringBytes), cursor);
      }
      stringBytes := stringBytes + [currentByte];
      if |stringBytes| > maxLength {
        return EndOfStream;
      }
    }
  }

  function ParseAuthMessage(data: seq<byte>, pos: nat, id: uint16): ClientMessage
    requires pos <= |data|
  {
    var username := StringField(data, pos, MaxUsernameLength);
    if username.EndOfStream? then UnknownMessage(None) else
    var displayName := StringField(data, username.next, MaxDisplayNameLength);
    if displayName.EndOfStream? then UnknownMessage(None) else
    var secret := StringField(data, displayName.next, MaxSecretLength);
    if secret.EndOfStream? then UnknownMessage(None)
    else if username.text == "" || displayName.text == "" || secret.text == "" then UnknownMessage(None)
    else AuthMessage(username.text, displayName.text, secret.text, Some(id))
  }

  function ParseJoinMessage(data: seq<byte>, pos: nat, id: uint16): ClientMessage
    requires pos <= |data|
  {
    var channelId := StringField(data, pos, MaxChannelIdLength);
    if channelId.EndOfStream? then UnknownMessage(None) else
    var displayName := StringField(data, channelId.next, MaxDisplayNameLength);
    if displayName.EndOfStream? then UnknownMessage(None)
    else if channelId.text == "" || displayName.text == "" then UnknownMessage(None)
    else JoinMessage(channelId.text, displayName.text, Some(id))
  }

  /** `ParseMsgMessage` and `ParseErrMessage`: a display name and a content field. */
  function ParseTextMessage(data: seq<byte>, pos: nat, id: uint16, isErr: bool): ClientMessage
    requires pos <= |data|
  {
    var displayName := StringField(data, pos, MaxDisplayNameLength);
    if displayName.EndOfStream? then UnknownMessage(None) else
    var content := StringField(data, displayName.next, MaxMessageContentLength);
    if content.EndOfStream? then UnknownMessage(None)
    else if displayName.text == "" || content.text == "" then UnknownMessage(None)
    else if isErr then ErrMessage(displayName.text, content.text, Some(id))
    else MsgMessage(displayName.text, content.text, Some(id))
  }

  /** Fields within their bounds, non-empty and ASCII: what a successful decode yields. */
  predicate Bounded(s: string, maxLength: nat)
  {
    1 <= |s| <= maxLength && IsAscii(s)
  }

  predicate WellFormed(m: ClientMessage)
  {
    match m
    case AuthMessage(u, d, s, id) =>
      Bounded(u, MaxUsernameLength) && Bounded(d, MaxDisplayNameLength) && Bounded(s, MaxSecretLength) && id.Some?
    case JoinMessage(c, d, id) =>
      Bounded(c, MaxChannelIdLength) && Bounded(d, MaxDisplayNameLength) && id.Some?
    case MsgMessage(d, c, id) =>
      Bounded(d, MaxDisplayNameLength) && Bounded(c, MaxMessageContentLength) && id.Some?
    case ErrMessage(d, c, id) =>
      Bounded(d, MaxDisplayNameLength) && Bounded(c, MaxMessageContentLength) && id.Some?
    case ByeMessage(id) => id.Some?
    case ConfirmMessage(id) => id.Some?
    case UnknownMessage(id) => id.None?
    case ReplyMessage(_, _, _, _) => false
  }

  /**
   * `UdpPacker.Unpack(data)`. An empty buffer throws EndOfStreamException from
   * the type read and one or two bytes throw ArgumentException from the ID
   * conversion; everything else yields a message, unknown when the type is not
   * one a client sends or a field is missing, empty, unterminated or too long.
   */
  function Unpack(data: seq<byte>): (r: Outcome<ClientMessage>)
    ensures r.Threw? <==> |data| < 3
    ensures |data| == 0 ==> r == Threw(EndOfStreamException)
    ensures r.Returned? ==> WellFormed(r.value)
    ensures r.Returned? && !r.value.UnknownMessage? ==> r.value.messageId == Some(ReadMessageId(data, 1))
  {
    if |data| == 0 then Threw(EndOfStreamException)
    else if |data| < 3 then Threw(ArgumentException)
    else
      var messageType := data[0];
      var id := ReadMessageId(data, 1);
      Returned(
        if messageType == Auth then ParseAuthMessage(data, 3, id)
        else if messageType == Confirm then ConfirmMessage(Some(id))
        else if messageType == Msg then ParseTextMessage(data, 3, id, false)
        else if messageType == Err then ParseTextMessage(data, 3, id, true)
        else if messageType == Bye then ByeMessage(Some(id))
        else if messageType == Join then ParseJoinMessage(data, 3, id)
        else UnknownMessage(None))
  }

  // ------------------------------------------------------------ properties

  lemma {:induction false} NulFromAt(data: seq<byte>, i: nat, z: nat)
    requires i <= z < |data|
    requires forall k :: i <= k < z ==> data[k] != 0
    requires data[z] == 0
    ensures NulFrom(data, i) == z
    decreases z - i
  {
    if i < z {
      NulFromAt(data, i + 1, z);
    }
  }

  /** A NUL-free ASCII string within the bound reads back from wherever it was written. */
  lemma FieldRoundTrip(pre: seq<byte>, s: string, post: seq<byte>, maxLength: nat)
    requires NulFree(s) && IsAscii(s) && |s| <= maxLength
    ensures |WriteString(s)| == |s| + 1
    ensures StringField(pre + WriteString(s) + post, |pre|, maxLength) == Field(s, |pre| + |s| + 1)
  {
    AsciiBytesOfAscii(s);
    var data := pre + WriteString(s) + post;
    var z := |pre| + |s|;
    assert data[z] == 0;
    assert forall k :: |pre| <= k < z ==> data[k] == AsciiByte(s[k - |pre|]);
    NulFromAt(data, |pre|, z);
    assert data[|pre|..z] == AsciiBytes(s);
    AsciiRoundTrip(s);
  }

  /** A field is rejected once `maxLength + 1` bytes precede its terminator. */
  lemma FieldTooLong(data: seq<byte>, pos: nat, maxLength: nat)
    requires pos + maxLength + 1 <= |data|
    requires forall k :: pos <= k <= pos + maxLength ==> data[k] != 0
    ensures StringField(data, pos, maxLength) == EndOfStream
  {
  }

  /** A field that runs to the end of the buffer without a NUL is rejected. */
  lemma FieldUnterminated(data: seq<byte>, pos: nat, maxLength: nat)
    requires pos <= |data|
    requires forall k :: pos <= k < |data| ==> data[k] != 0
    ensures StringField(data, pos, maxLength) == EndOfStream
  {
  }

  /** Message IDs are written high byte first and read back unchanged. */
  lemma MessageIdBigEndian(id: uint16)
    ensures WriteMessageId(Some(id)).Returned?
    ensures WriteMessageId(Some(id)).value[0] as int == id as int / 256
    ensures WriteMessageId(Some(id)).value[1] as int == id as int % 256
    ensures ReadMessageId(WriteMessageId(Some(id)).value, 0) == id
  {
    IdRoundTrip(id, [], []);
    assert [] + IdBytes(id) + [] == IdBytes(id);
  }

  /** Confirm packs to its tag and its own ID, whatever ID the caller passes. */
  lemma ConfirmLayout(confirmed: uint16, messageId: Option<uint16>)
    ensures var r := Pack(ConfirmMessage(Some(confirmed)), messageId);
      r.Returned? && |r.value| == 3 && r.value[0] == Confirm && ReadMessageId(r.value, 1) == confirmed
    ensures Pack(ConfirmMessage(Some(confirmed)), messageId) == Pack(ConfirmMessage(Some(confirmed)), None)
  {
    IdRoundTrip(confirmed, [Confirm], []);
    assert [Confirm] + IdBytes(confirmed) + [] == [Confirm] + IdBytes(confirmed);
  }

  /** Reply: tag, ID, result byte, ref ID, content, NUL. */
  lemma ReplyLayout(result: byte, content: string, refId: uint16, id: uint16, ownId: Option<uint16>)
    ensures var r := Pack(ReplyMessage(result, content, Some(refId), ownId), Some(id));
      && r.Returned?
      && var n := |AsciiBytes(content)|;
      && |r.value| == 7 + n
      && r.value[0] == Reply
      && ReadMessageId(r.value, 1) == id
      && r.value[3] == result
      && ReadMessageId(r.value, 4) == refId
      && r.value[6..6 + n] == AsciiBytes(content)
      && r.value[6 + n] == 0
  {
    var v := [Reply] + IdBytes(id) + [result] + IdBytes(refId) + WriteString(content);
    IdRoundTrip(id, [Reply], [result] + IdBytes(refId) + WriteString(content));
    assert [Reply] + IdBytes(id) + ([result] + IdBytes(refId) + WriteString(content)) == v;
    IdRoundTrip(refId, [Reply] + IdBytes(id) + [result], WriteString(content));
    assert v[6..6 + |AsciiBytes(content)|] == AsciiBytes(content);
  }

  /** A reply, a text message or a Bye without an ID to send cannot be packed. */
  lemma PackNeedsId(m: ClientMessage)
    requires m.ReplyMessage? || m.MsgMessage? || m.ErrMessage? || m.ByeMessage?
    ensures Pack(m, None) == Threw(InvalidOperationException)
  {
  }

  /** Auth, Join and unknown messages have no case and pack to nothing. */
  lemma PackWithoutCase(m: ClientMessage, messageId: Option<uint16>)
    requires m.AuthMessage? || m.JoinMessage? || m.UnknownMessage?
    ensures Pack(m, messageId) == Returned([])
  {
  }

  /** Msg and Err round-trip; the decoded message carries the ID they were packed with. */
  lemma TextRoundTrip(m: ClientMessage, id: uint16)
    requires m.MsgMessage? || m.ErrMessage?
    requires Bounded(m.displayName, MaxDisplayNameLength) && NulFree(m.displayName)
    requires Bounded(m.messageContent, MaxMessageContentLength) && NulFree(m.messageContent)
    ensures Pack(m, Some(id)).Returned?
    ensures Unpack(Pack(m, Some(id)).value) == Returned(
      if m.MsgMessage? then MsgMessage(m.displayName, m.messageContent, Some(id))
      else ErrMessage(m.displayName, m.messageContent, Some(id)))
  {
    var tag := if m.MsgMessage? then Msg else Err;
    var d, c := m.displayName, m.messageContent;
    var data := [tag] + IdBytes(id) + WriteString(d) + WriteString(c);
    assert Pack(m, Some(id)) == Returned(data);
    IdRoundTrip(id, [tag], WriteString(d) + WriteString(c));
    assert [tag] + IdBytes(id) + (WriteString(d) + WriteString(c)) == data;
    FieldRoundTrip([tag] + IdBytes(id), d, WriteString(c), MaxDisplayNameLength);
    FieldRoundTrip([tag] + IdBytes(id) + WriteString(d), c, [], MaxMessageContentLength);
    assert [tag] + IdBytes(id) + WriteString(d) + WriteString(c) + [] == data;
  }

  /** Confirm and Bye round-trip with their IDs. */
  lemma ConfirmByeRoundTrip(id: uint16, other: Option<uint16>)
    ensures Pack(ConfirmMessage(Some(id)), other).Returned?
    ensures Unpack(Pack(ConfirmMessage(Some(id)), other).value) == Returned(ConfirmMessage(Some(id)))
    ensures Pack(ByeMessage(other), Some(id)).Returned?
    ensures Unpack(Pack(ByeMessage(other), Some(id)).value) == Returned(ByeMessage(Some(id)))
  {
    IdRoundTrip(id, [Confirm], []);
    assert [Confirm] + IdBytes(id) + [] == [Confirm] + IdBytes(id);
    IdRoundTrip(id, [Bye], []);
    assert [Bye] + IdBytes(id) + [] == [Bye] + IdBytes(id);
  }

  /** The three fields of an Auth datagram after its three-byte header. */
  lemma AuthFields(head: seq<byte>, username: string, displayName: string, secret: string, id: uint16)
    requires |head| == 3
    requires Bounded(username, MaxUsernameLength) && NulFree(username)
    requires Bounded(displayName, MaxDisplayNameLength) && NulFree(displayName)
    requires Bounded(secret, MaxSecretLength) && NulFree(secret)
    ensures ParseAuthMessage(head + WriteString(username) + WriteString(displayName) + WriteString(secret), 3, id)
         == AuthMessage(username, displayName, secret, Some(id))
  {
    var u, d, s := WriteString(username), WriteString(displayName), WriteString(secret);
    var data := head + u + d + s;
    FieldRoundTrip(head, username, d + s, MaxUsernameLength);
    assert head + u + (d + s) == data;
    var f1 := StringField(data, 3, MaxUsernameLength);
    assert f1 == Field(username, 3 + |username| + 1);
    FieldRoundTrip(head + u, displayName, s, MaxDisplayNameLength);
    var f2 := StringField(data, f1.next, MaxDisplayNameLength);
    assert f2 == Field(displayName, |head + u| + |displayName| + 1);
    FieldRoundTrip(head + u + d, secret, [], MaxSecretLength);
    assert head + u + d + s + [] == data;
    var f3 := StringField(data, f2.next, MaxSecretLength);
    assert f3 == Field(secret, |head + u + d| + |secret| + 1);
  }

  /** A client's Auth datagram with well-formed fields decodes to that Auth. */
  lemma AuthDecodes(username: string, displayName: string, secret: string, id: uint16)
    requires Bounded(username, MaxUsernameLength) && NulFree(username)
    requires Bounded(displayName, MaxDisplayNameLength) && NulFree(displayName)
    requires Bounded(secret, MaxSecretLength) && NulFree(secret)
    ensures Unpack([Auth] + IdBytes(id) + WriteString(username) + WriteString(displayName) + WriteString(secret))
         == Returned(AuthMessage(username, displayName, secret, Some(id)))
  {
    var u, d, s := WriteString(username), WriteString(displayName), WriteString(secret);
    var head := [Auth] + IdBytes(id);
    var data := head + u + d + s;
    IdRoundTrip(id, [Auth], u + d + s);
    assert [Auth] + IdBytes(id) + (u + d + s) == data;
    assert data[0] == Auth;
    AuthFields(head, username, displayName, secret, id);
  }

  /** A client's Join datagram with well-formed fields decodes to that Join. */
  lemma JoinDecodes(channelId: string, displayName: string, id: uint16)
    requires Bounded(channelId, MaxChannelIdLength) && NulFree(channelId)
    requires Bounded(displayName, MaxDisplayNameLength) && NulFree(displayName)
    ensures Unpack([Join] + IdBytes(id) + WriteString(channelId) + WriteString(displayName))
         == Returned(JoinMessage(channelId, displayName, Some(id)))
  {
    var head := [Join] + IdBytes(id);
    var data := head + WriteString(channelId) + WriteString(displayName);
    IdRoundTrip(id, [Join], WriteString(channelId) + WriteString(displayName));
    assert [Join] + IdBytes(id) + (WriteString(channelId) + WriteString(displayName)) == data;
    FieldRoundTrip(head, channelId, WriteString(displayName), MaxChannelIdLength);
    FieldRoundTrip(head + WriteString(channelId), displayName, [], MaxDisplayNameLength);
    assert head + WriteString(channelId) + WriteString(displayName) + [] == data;
  }

  /** The bound of the first field of each variant that has fields. */
  function FirstFieldBound(messageType: byte): nat
  {
    if messageType == Auth then MaxUsernameLength
    else if messageType == Join then MaxChannelIdLength
    else if messageType == Msg || messageType == Err then MaxDisplayNameLength
    else 0
  }

  /**
   * A first field that is empty, longer than its bound or unterminated makes
   * the whole datagram unknown.
   */
  lemma BadFirstFieldIsUnknown(data: seq<byte>)
    requires |data| >= 3
    requires data[0] in {Auth, Join, Msg, Err}
    requires var f := StringField(data, 3, FirstFieldBound(data[0])); f.EndOfStream? || f.text == ""
    ensures Unpack(data) == Returned(UnknownMessage(None))
  {
  }

  /** The bounds of the fields each variant reads, in reading order. */
  function FieldBounds(messageType: byte): seq<nat>
  {
    if messageType == Auth then [MaxUsernameLength, MaxDisplayNameLength, MaxSecretLength]
    else if messageType == Join then [MaxChannelIdLength, MaxDisplayNameLength]
    else if messageType == Msg || messageType == Err then [MaxDisplayNameLength, MaxMessageContentLength]
    else []
  }

  /** Reading one field per bound, from `pos` on, finds each terminated, within its bound and non-empty. */
  predicate FieldsOk(data: seq<byte>, pos: nat, bounds: seq<nat>)
    requires pos <= |data|
    decreases |bounds|
  {
    bounds == [] ||
    var f := StringField(data, pos, bounds[0]);
    f.Field? && f.text != "" && FieldsOk(data, f.next, bounds[1..])
  }

  /** `FieldsOk` on a non-empty list of bounds reads the first field, then the rest. */
  lemma FieldsOkCons(data: seq<byte>, pos: nat, bound: nat, rest: seq<nat>)
    requires pos <= |data|
    ensures FieldsOk(data, pos, [bound] + rest) <==>
      var f := StringField(data, pos, bound);
      f.Field? && f.text != "" && FieldsOk(data, f.next, rest)
  {
    assert ([bound] + rest)[1..] == rest;
  }

  lemma AuthUnknownExactly(data: seq<byte>, pos: nat, id: uint16)
    requires pos <= |data|
    ensures ParseAuthMessage(data, pos, id).UnknownMessage? <==>
      !FieldsOk(data, pos, [MaxUsernameLength, MaxDisplayNameLength, MaxSecretLength])
  {
    FieldsOkCons(data, pos, MaxUsernameLength, [MaxDisplayNameLength, MaxSecretLength]);
    assert [MaxUsernameLength, MaxDisplayNameLength, MaxSecretLength]
        == [MaxUsernameLength] + [MaxDisplayNameLength, MaxSecretLength];
    var f1 := StringField(data, pos, MaxUsernameLength);
    if f1.Field? {
      FieldsOkCons(data, f1.next, MaxDisplayNameLength, [MaxSecretLength]);
      assert [MaxDisplayNameLength, MaxSecretLength] == [MaxDisplayNameLength] + [MaxSecretLength];
      var f2 := StringField(data, f1.next, MaxDisplayNameLength);
      if f2.Field? {
        FieldsOkCons(data, f2.next, MaxSecretLength, []);
        assert [MaxSecretLength] == [MaxSecretLength] + [];
      }
    }
  }

  lemma JoinUnknownExactly(data: seq<byte>, pos: nat, id: uint16)
    requires pos <= |data|
    ensures ParseJoinMessage(data, pos, id).UnknownMessage? <==>
      !FieldsOk(data, pos, [MaxChannelIdLength, MaxDisplayNameLength])
  {
    FieldsOkCons(data, pos, MaxChannelIdLength, [MaxDisplayNameLength]);
    assert [MaxChannelIdLength, MaxDisplayNameLength] == [MaxChannelIdLength] + [MaxDisplayNameLength];
    var f1 := StringField(data, pos, MaxChannelIdLength);
    if f1.Field? {
      FieldsOkCons(data, f1.next, MaxDisplayNameLength, []);
      assert [MaxDisplayNameLength] == [MaxDisplayNameLength] + [];
    }
  }

  lemma TextUnknownExactly(data: seq<byte>, pos: nat, id: uint16, isErr: bool)
    requires pos <= |data|
    ensures ParseTextMessage(data, pos, id, isErr).UnknownMessage? <==>
      !FieldsOk(data, pos, [MaxDisplayNameLength, MaxMessageContentLength])
  {
    FieldsOkCons(data, pos, MaxDisplayNameLength, [MaxMessageContentLength]);
    assert [MaxDisplayNameLength, MaxMessageContentLength] == [MaxDisplayNameLength] + [MaxMessageContentLength];
    var f1 := StringField(data, pos, MaxDisplayNameLength);
    if f1.Field? {
      FieldsOkCons(data, f1.next, MaxMessageContentLength, []);
      assert [MaxMessageContentLength] == [MaxMessageContentLength] + [];
    }
  }

  /**
   * A datagram of at least three bytes decodes to an unknown message exactly
   * when its type is not one a client sends, or the type has fields and one
   * of them, at any position, is unterminated, too long or empty.
   */
  lemma UnknownExactly(data: seq<byte>)
    requires |data| >= 3
    ensures Unpack(data) == Returned(UnknownMessage(None)) <==>
      data[0] !in {Auth, Confirm, Msg, Err, Bye, Join} ||
      (data[0] in {Auth, Join, Msg, Err} && !FieldsOk(data, 3, FieldBounds(data[0])))
  {
    var t, id := data[0], ReadMessageId(data, 1);
    if t == Auth {
      AuthUnknownExactly(data, 3, id);
    } else if t == Join {
      JoinUnknownExactly(data, 3, id);
    } else if t == Msg || t == Err {
      TextUnknownExactly(data, 3, id, t == Err);
    }
  }

  /** A display name of 21 bytes is rejected where one of 20 is accepted. */
  lemma OverlongDisplayNameIsUnknown(data: seq<byte>)
    requires |data| >= 3 + MaxDisplayNameLength + 1
    requires data[0] == Msg || data[0] == Err
    requires forall k :: 3 <= k <= 3 + MaxDisplayNameLength ==> data[k] != 0
    ensures Unpack(data) == Returned(UnknownMessage(None))
  {
    FieldTooLong(data, 3, MaxDisplayNameLength);
  }

  /** A datagram that ends inside its first field is unknown. */
  lemma TruncatedIsUnknown(data: seq<byte>)
    requires |data| >= 3
    requires data[0] in {Auth, Join, Msg, Err}
    requires forall k :: 3 <= k < |data| ==> data[k] != 0
    ensures Unpack(data) == Returned(UnknownMessage(None))
  {
    FieldUnterminated(data, 3, FirstFieldBound(data[0]));
  }

  /** Any type byte a client does not send, Reply included, yields an unknown message. */
  lemma ForeignTypeIsUnknown(data: seq<byte>)
    requires |data| >= 3
    requires data[0] !in {Auth, Confirm, Msg, Err, Bye, Join}
    ensures Unpack(data) == Returned(UnknownMessage(None))
  {
  }
}
