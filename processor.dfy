/**
 * The message processor: the session state machine. An envelope whose sender
 * is not registered, or that carries a tag, is dropped. Otherwise the
 * (message, state) pair selects a handler that updates the user, queues
 * broadcast jobs, replies and possibly disconnects the user.
 */
module Processor {
  import opened Wrappers
  import opened ChatProtocol
  import opened ClientMessages
  import opened Registry
  import opened Queues
  import opened Users

  datatype Handler = HandleAuth | HandleMsg | HandleJoin | HandleErr | HandleBye | HandleUnknown

  /** The switch of `ProcessClientMessageAsync`: cases are tried in order. */
  function Dispatch(message: ClientMessage, state: ClientState): Handler
  {
    if message.AuthMessage? && state == Start then HandleAuth
    else if message.MsgMessage? && state == Open then HandleMsg
    else if message.JoinMessage? && state == Open then HandleJoin
    else if message.ErrMessage? then HandleErr
    else if message.ByeMessage? then HandleBye
    else HandleUnknown
  }

  /** The reply to an accepted Auth, referring to the Auth's ID. */
  function AuthReply(auth: ClientMessage): ClientMessage
  {
    ReplyMessage(1, "Successfully authenticated", auth.messageId, None)
  }

  /** The reply to an accepted Join, naming the new channel and referring to the Join's ID. */
  function JoinReply(join: ClientMessage): ClientMessage
    requires join.JoinMessage?
  {
    ReplyMessage(1, "Successfully joined " + join.channelId + ".", join.messageId, None)
  }

  /** The error sent for a message the current state does not accept. */
  const InvalidMessage := ErrMessage("Server", "Invalid message OR state.", None)

  /** The registered user an envelope addresses, as a frame. */
  function Addressee(chatUsers: ChatUsers<Endpoint, ChatUser>, key: Endpoint): set<ChatUser>
    reads chatUsers
  {
    if key in chatUsers.users then {chatUsers.users[key]} else {}
  }

  /** `HandleByeMessage`: End, then disconnect. */
  method HandleByeMessage(user: ChatUser, cancelled: bool, users: ConnectedUsers<Endpoint, ChatUser>,
                          inbox: ClientMessageQueue<ChatUser>, chat: ChatMessagesQueue<ChatUser>)
    requires inbox.Valid() && chat.Valid() && |chat.items| < Capacity
    modifies user, users, inbox, chat
    ensures inbox.Valid() && chat.Valid()
    ensures user.state == End
    ensures user.stream == old(user.stream) && user.datagrams == old(user.datagrams)
    ensures user.username == old(user.username) && user.displayName == old(user.displayName)
    ensures user.channelId == old(user.channelId) && user.secret == old(user.secret)
    ensures users.users == old(users.users) - {user.endpoint}
    ensures inbox.envelopes == Tagged(old(inbox.envelopes), user, Disconnected)
    ensures chat.items == old(chat.items) + user.LeaveNoticesIn(End, cancelled)
  {
    user.state := End;
    user.ClientDisconnect(cancelled, users, inbox, chat);
  }

  /** `HandleErrMessage`: Error, a best-effort Bye whose failures are swallowed, then as Bye. */
  method HandleErrMessage(user: ChatUser, net: Network, retransmissionCount: nat, cancelled: bool,
                          users: ConnectedUsers<Endpoint, ChatUser>, inbox: ClientMessageQueue<ChatUser>,
                          chat: ChatMessagesQueue<ChatUser>)
    requires inbox.Valid() && chat.Valid() && |chat.items| + 2 <= Capacity && |net.attempts| > retransmissionCount
    modifies user, users, inbox, chat
    ensures inbox.Valid() && chat.Valid()
    ensures user.Sent(ByeMessage(None), net, retransmissionCount)
    ensures user.state == End
    ensures user.username == old(user.username) && user.displayName == old(user.displayName)
    ensures user.channelId == old(user.channelId) && user.secret == old(user.secret)
    ensures users.users == old(users.users) - {user.endpoint}
    ensures inbox.envelopes == Tagged(old(inbox.envelopes), user, Disconnected)
    ensures chat.items == old(chat.items)
              + (if old(user.SendDrops(ByeMessage(None), net, retransmissionCount)) then user.LeaveNoticesIn(Error, cancelled) else [])
              + user.LeaveNoticesIn(End, cancelled)
  {
    user.state := Error;
    var _ := user.SendMessage(ByeMessage(None), net, retransmissionCount, cancelled, users, inbox, chat);
    TaggedIdempotent(old(inbox.envelopes), user, Disconnected);
    HandleByeMessage(user, cancelled, users, inbox, chat);
  }

  /** `HandleUnknownMessage`: an Err to the user, then as Bye; a failing send escapes first. */
  method HandleUnknownMessage(user: ChatUser, net: Network, retransmissionCount: nat, cancelled: bool,
                              users: ConnectedUsers<Endpoint, ChatUser>, inbox: ClientMessageQueue<ChatUser>,
                              chat: ChatMessagesQueue<ChatUser>)
    returns (thrown: Option<Exception>)
    requires inbox.Valid() && chat.Valid() && |chat.items| + 2 <= Capacity && |net.attempts| > retransmissionCount
    modifies user, users, inbox, chat
    ensures inbox.Valid() && chat.Valid()
    ensures user.Sent(InvalidMessage, net, retransmissionCount)
    ensures thrown.Some? <==> old(user.SendThrows(InvalidMessage, net))
    ensures thrown.Some? ==>
      thrown.value == old(user.SendError(InvalidMessage, net)) && user.state == old(user.state) &&
      users.users == old(users.users) && inbox.envelopes == old(inbox.envelopes) && chat.items == old(chat.items)
    ensures thrown.None? ==>
      user.state == End &&
      users.users == old(users.users) - {user.endpoint} &&
      inbox.envelopes == Tagged(old(inbox.envelopes), user, Disconnected) &&
      chat.items == old(chat.items)
        + (if old(user.SendDrops(InvalidMessage, net, retransmissionCount)) then user.LeaveNoticesIn(old(user.state), cancelled) else [])
        + user.LeaveNoticesIn(End, cancelled)
    ensures user.username == old(user.username) && user.displayName == old(user.displayName)
    ensures user.channelId == old(user.channelId) && user.secret == old(user.secret)
  {
    thrown := user.SendMessage(InvalidMessage, net, retransmissionCount, cancelled, users, inbox, chat);
    if thrown.Some? {
      return;
    }
    TaggedIdempotent(old(inbox.envelopes), user, Disconnected);
    HandleByeMessage(user, cancelled, users, inbox, chat);
  }

  /**
   * `HandleMsgMessage`: adopt the message's display name and broadcast it to
   * the channel, skipping the sender. Once cancellation has been requested the
   * name is still adopted but the broadcast throws.
   */
  method HandleMsgMessage(user: ChatUser, msg: ClientMessage, cancelled: bool, chat: ChatMessagesQueue<ChatUser>)
    returns (thrown: Option<Exception>)
    requires msg.MsgMessage? && chat.Valid() && |chat.items| < Capacity
    modifies user, chat
    ensures chat.Valid()
    ensures thrown == (if cancelled then Some(OperationCanceledException) else None)
    ensures user.displayName == msg.displayName
    ensures user.stream == old(user.stream) && user.datagrams == old(user.datagrams)
    ensures user.state == old(user.state) && user.channelId == old(user.channelId)
    ensures user.username == old(user.username) && user.secret == old(user.secret)
    ensures chat.items == old(chat.items) + (if cancelled then [] else [ChatMessage(Some(user), user.channelId, msg)])
  {
    if msg.displayName != user.displayName {
      user.displayName := msg.displayName;
    }
    thrown := chat.Add(ChatMessage(Some(user), user.channelId, msg), cancelled);
  }

  /**
   * `HandleJoinMessage`: a leave notice to the old channel skipping the
   * user, the switch, a join notice to the new channel skipping nobody, and
   * the reply, whose failure escapes. Once cancellation has been requested
   * the first notice throws and nothing changes.
   */
  method HandleJoinMessage(user: ChatUser, join: ClientMessage, net: Network, retransmissionCount: nat, cancelled: bool,
                           users: ConnectedUsers<Endpoint, ChatUser>, inbox: ClientMessageQueue<ChatUser>,
                           chat: ChatMessagesQueue<ChatUser>)
    returns (thrown: Option<Exception>)
    requires join.JoinMessage? && inbox.Valid() && chat.Valid() && |chat.items| + 3 <= Capacity
    requires |net.attempts| > retransmissionCount
    modifies user, users, inbox, chat
    ensures inbox.Valid() && chat.Valid()
    ensures cancelled ==>
      thrown == Some(OperationCanceledException) && unchanged(user, users, inbox) && chat.items == old(chat.items)
    ensures !cancelled ==> user.Sent(JoinReply(join), net, retransmissionCount)
    ensures !cancelled ==> user.displayName == join.displayName && user.channelId == join.channelId
    ensures user.state == old(user.state) && user.username == old(user.username) && user.secret == old(user.secret)
    ensures !cancelled ==> (thrown.Some? <==> old(user.SendThrows(JoinReply(join), net)))
    ensures !cancelled ==>
      var drops := old(user.SendDrops(JoinReply(join), net, retransmissionCount));
      chat.items == old(chat.items)
        + [ChatMessage(Some(user), old(user.channelId), LeftNotice(old(user.displayName), old(user.channelId))),
           ChatMessage(None, join.channelId, JoinedNotice(join.displayName, join.channelId))]
        + (if drops then user.LeaveNoticesIn(user.state, cancelled) else []) &&
      users.users == (if drops then old(users.users) - {user.endpoint} else old(users.users)) &&
      inbox.envelopes == (if drops then Tagged(old(inbox.envelopes), user, Disconnected) else old(inbox.envelopes))
  {
    thrown := chat.Add(ChatMessage(Some(user), user.channelId, LeftNotice(user.displayName, user.channelId)), cancelled);
    if thrown.Some? {
      return;
    }
    user.displayName := join.displayName;
    user.channelId := join.channelId;
    thrown := chat.Add(ChatMessage(None, user.channelId, JoinedNotice(user.displayName, user.channelId)), cancelled);
    if thrown.Some? {
      return;
    }
    thrown := user.SendMessage(JoinReply(join), net, retransmissionCount, cancelled, users, inbox, chat);
  }

  /**
   * `HandleAuthMessage`: the identity, Open, and the reply. If the reply
   * throws, the user is disconnected and nothing is announced; otherwise the
   * join notice goes to the user's channel, skipping the user, and throws
   * instead once cancellation has been requested.
   */
  method HandleAuthMessage(user: ChatUser, auth: ClientMessage, net: Network, retransmissionCount: nat, cancelled: bool,
                           users: ConnectedUsers<Endpoint, ChatUser>, inbox: ClientMessageQueue<ChatUser>,
                           chat: ChatMessagesQueue<ChatUser>)
    returns (thrown: Option<Exception>)
    requires auth.AuthMessage? && inbox.Valid() && chat.Valid() && |chat.items| + 2 <= Capacity
    requires |net.attempts| > retransmissionCount
    modifies user, users, inbox, chat
    ensures inbox.Valid() && chat.Valid()
    ensures user.Sent(AuthReply(auth), net, retransmissionCount)
    ensures user.state == Open
    ensures user.username == auth.username && user.displayName == auth.displayName && user.secret == auth.secret
    ensures user.channelId == old(user.channelId)
    ensures thrown == (if cancelled && !old(user.SendThrows(AuthReply(auth), net)) then Some(OperationCanceledException) else None)
    ensures var threw := old(user.SendThrows(AuthReply(auth), net));
            var drops := old(user.SendDrops(AuthReply(auth), net, retransmissionCount));
      chat.items == old(chat.items)
        + (if drops || threw then user.LeaveNoticesIn(Open, cancelled) else [])
        + (if threw || cancelled then [] else [ChatMessage(Some(user), user.channelId, JoinedNotice(user.displayName, user.channelId))]) &&
      users.users == (if drops || threw then old(users.users) - {user.endpoint} else old(users.users)) &&
      inbox.envelopes == (if drops || threw then Tagged(old(inbox.envelopes), user, Disconnected) else old(inbox.envelopes))
  {
    user.UpdateUserDetails(auth.username, auth.displayName, auth.secret);
    user.state := Open;
    var failed := user.SendMessage(AuthReply(auth), net, retransmissionCount, cancelled, users, inbox, chat);
    if failed.Some? {
      user.ClientDisconnect(cancelled, users, inbox, chat);
      return None;
    }
    thrown := chat.Add(ChatMessage(Some(user), user.channelId, JoinedNotice(user.displayName, user.channelId)), cancelled);
  }

  /** The state a handler leaves the user in, given the state before and whether an exception escaped. */
  function StateAfter(h: Handler, before: ClientState, escaped: bool): ClientState
  {
    match h
    case HandleAuth => Open
    case HandleMsg => before
    case HandleJoin => before
    case HandleErr => End
    case HandleBye => End
    case HandleUnknown => if escaped then before else End
  }

  /**
   * `ProcessClientMessageAsync`: looks the sender's end point up, drops
   * untracked or tagged envelopes, and runs the handler `Dispatch` selects.
   * Only Join and Unknown let a send failure escape; once cancellation has
   * been requested, the job posts of Auth, Msg and Join throw.
   */
  method ProcessClientMessage(envelope: Envelope<ChatUser>, chatUsers: ChatUsers<Endpoint, ChatUser>,
                              net: Network, retransmissionCount: nat, cancelled: bool,
                              users: ConnectedUsers<Endpoint, ChatUser>, inbox: ClientMessageQueue<ChatUser>,
                              chat: ChatMessagesQueue<ChatUser>)
    returns (thrown: Option<Exception>)
    requires inbox.Valid() && chat.Valid() && |chat.items| + 3 <= Capacity && |net.attempts| > retransmissionCount
    modifies Addressee(chatUsers, envelope.user.endpoint), users, inbox, chat
    ensures inbox.Valid() && chat.Valid()
    ensures var key := envelope.user.endpoint;
      key !in old(chatUsers.users) || envelope.tag != "" ==>
        thrown.None? && unchanged(Addressee(chatUsers, key), users, inbox, chat)
    ensures var key := envelope.user.endpoint;
      key in old(chatUsers.users) && envelope.tag == "" ==>
        var user := chatUsers.users[key];
        var h := Dispatch(envelope.message, old(user.state));
        user.state == StateAfter(h, old(user.state), thrown.Some?) &&
        (thrown.Some? ==> h == HandleJoin || h == HandleUnknown || (cancelled && (h == HandleAuth || h == HandleMsg))) &&
        (cancelled && (h == HandleMsg || h == HandleJoin) ==> thrown == Some(OperationCanceledException)) &&
        (h == HandleAuth ==> user.username == envelope.message.username && user.displayName == envelope.message.displayName) &&
        (h == HandleMsg ==> user.displayName == envelope.message.displayName && user.channelId == old(user.channelId)) &&
        (h == HandleJoin && !cancelled ==> user.displayName == envelope.message.displayName && user.channelId == envelope.message.channelId) &&
        (h == HandleJoin && cancelled ==> user.displayName == old(user.displayName) && user.channelId == old(user.channelId)) &&
        (h == HandleAuth ==> user.Sent(AuthReply(envelope.message), net, retransmissionCount)) &&
        (h == HandleJoin && !cancelled ==> user.Sent(JoinReply(envelope.message), net, retransmissionCount)) &&
        (h == HandleErr ==> user.Sent(ByeMessage(None), net, retransmissionCount)) &&
        (h == HandleUnknown ==> user.Sent(InvalidMessage, net, retransmissionCount)) &&
        (h == HandleMsg || h == HandleBye ==> user.stream == old(user.stream) && user.datagrams == old(user.datagrams))
  {
    var found := chatUsers.TryGetUser(envelope.user.endpoint);
    if found.None? || envelope.tag != "" {
      return None;
    }
    var user := found.value;
    var message := envelope.message;
    thrown := None;
    match Dispatch(message, user.state)
    case HandleAuth =>
      thrown := HandleAuthMessage(user, message, net, retransmissionCount, cancelled, users, inbox, chat);
    case HandleMsg =>
      thrown := HandleMsgMessage(user, message, cancelled, chat);
    case HandleJoin =>
      thrown := HandleJoinMessage(user, message, net, retransmissionCount, cancelled, users, inbox, chat);
    case HandleErr =>
      HandleErrMessage(user, net, retransmissionCount, cancelled, users, inbox, chat);
    case HandleBye =>
      HandleByeMessage(user, cancelled, users, inbox, chat);
    case HandleUnknown =>
      thrown := HandleUnknownMessage(user, net, retransmissionCount, cancelled, users, inbox, chat);
  }

  // ------------------------------------------------------------ properties

  /** Err and Bye are handled in every state. */
  lemma ErrAndByeAnyState(m: ClientMessage, s: ClientState)
    ensures m.ErrMessage? ==> Dispatch(m, s) == HandleErr
    ensures m.ByeMessage? ==> Dispatch(m, s) == HandleBye
  {
  }

  /**
   * A pair is rejected as "Invalid message OR state" exactly when it is not
   * Auth in Start, Msg or Join in Open, Err or Bye.
   */
  lemma Rejected(m: ClientMessage, s: ClientState)
    ensures Dispatch(m, s) == HandleUnknown <==>
      !(m.AuthMessage? && s == Start) && !((m.MsgMessage? || m.JoinMessage?) && s == Open) &&
      !m.ErrMessage? && !m.ByeMessage?
  {
  }

  /** The states a handler moves to: Auth opens, Err/Bye/Unknown end, Msg/Join keep Open. */
  lemma Transitions(m: ClientMessage, s: ClientState, escaped: bool)
    ensures var h := Dispatch(m, s);
      (StateAfter(h, s, escaped) == Open <==> h == HandleAuth || ((h == HandleMsg || h == HandleJoin || (h == HandleUnknown && escaped)) && s == Open)) &&
      (h != HandleUnknown || !escaped ==> StateAfter(h, s, escaped) in {Open, End})
  {
  }
}
