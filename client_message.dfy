/**
 * The protocol messages exchanged with a client, one variant per C# message
 * class. Every variant carries the optional 16-bit message ID that UDP
 * framing sets (for Confirm it is the ID being confirmed); TCP-decoded
 * messages leave it absent. String fields default to empty and IDs to absent,
 * as the C# auto-properties do.
 */
module ClientMessages {
  import opened Wrappers
  import opened ChatProtocol

  datatype ClientMessage =
    | AuthMessage(username: string, displayName: string, secret: string, messageId: Option<uint16>)
    | JoinMessage(channelId: string, displayName: string, messageId: Option<uint16>)
    | MsgMessage(displayName: string, messageContent: string, messageId: Option<uint16>)
    | ErrMessage(displayName: string, messageContent: string, messageId: Option<uint16>)
    | ByeMessage(messageId: Option<uint16>)
    | ReplyMessage(result: byte, messageContent: string, refMessageId: Option<uint16>, messageId: Option<uint16>)
    | ConfirmMessage(messageId: Option<uint16>)
    | UnknownMessage(messageId: Option<uint16>)

  /**
   * The `Type` byte each constructor assigns. The class of unrecognised
   * messages has no tag of its own; nothing in the server reads it.
   */
  function TypeOf(m: ClientMessage): (t: Option<byte>)
    ensures t.None? <==> m.UnknownMessage?
    ensures t.Some? ==> t.value in Tags()
  {
    match m
    case AuthMessage(_, _, _, _) => Some(Auth)
    case JoinMessage(_, _, _) => Some(Join)
    case MsgMessage(_, _, _) => Some(Msg)
    case ErrMessage(_, _, _) => Some(Err)
    case ByeMessage(_) => Some(Bye)
    case ReplyMessage(_, _, _, _) => Some(Reply)
    case ConfirmMessage(_) => Some(Confirm)
    case UnknownMessage(_) => None
  }

  /** Two messages of different variants never share a type tag. */
  predicate SameVariant(a: ClientMessage, b: ClientMessage)
  {
    (a.AuthMessage? && b.AuthMessage?) || (a.JoinMessage? && b.JoinMessage?) ||
    (a.MsgMessage? && b.MsgMessage?) || (a.ErrMessage? && b.ErrMessage?) ||
    (a.ByeMessage? && b.ByeMessage?) || (a.ReplyMessage? && b.ReplyMessage?) ||
    (a.ConfirmMessage? && b.ConfirmMessage?) || (a.UnknownMessage? && b.UnknownMessage?)
  }

  lemma TagDeterminesVariant(a: ClientMessage, b: ClientMessage)
    requires TypeOf(a).Some? && TypeOf(a) == TypeOf(b)
    ensures SameVariant(a, b)
  {
  }

  // Parameterless constructors: the default-initialised message of each class.
  const DefaultAuth := AuthMessage("", "", "", None)
  const DefaultJoin := JoinMessage("", "", None)
  const DefaultMsg := MsgMessage("", "", None)
  const DefaultErr := ErrMessage("", "", None)
  const DefaultReply := ReplyMessage(0, "", None, None)

  /** The tag that each parameterless constructor assigns and the empty defaults of its fields. */
  lemma DefaultsAreEmpty()
    ensures TypeOf(DefaultAuth) == Some(Auth) && DefaultAuth.username == DefaultAuth.displayName == DefaultAuth.secret == ""
    ensures TypeOf(DefaultJoin) == Some(Join) && DefaultJoin.channelId == DefaultJoin.displayName == ""
    ensures TypeOf(DefaultMsg) == Some(Msg) && DefaultMsg.displayName == DefaultMsg.messageContent == ""
    ensures TypeOf(DefaultErr) == Some(Err) && DefaultErr.displayName == DefaultErr.messageContent == ""
    ensures TypeOf(ByeMessage(None)) == Some(Bye)
    ensures TypeOf(DefaultReply) == Some(Reply) && DefaultReply.messageContent == ""
  {
  }
}
