/**
 * A connected chat user. TCP and UDP users share the session fields (state,
 * identity, channel) and differ in how they send: a TCP user writes the text
 * form to its stream while connected; a UDP user numbers its datagrams and
 * waits for Confirms, retransmitting, and disconnects itself when no Confirm
 * comes. Disconnecting removes the user from the end point registry, tags its
 * queued envelopes and posts a leave notice to its channel.
 */
module Users {
  import opened Wrappers
  import opened ChatProtocol
  import opened ClientMessages
  import opened Registry
  import opened Queues
  import opened Reliability
  import UdpPacker
  import TcpPacker

  /** `ClientState.State`. */
  datatype ClientState = Start | Open | Error | Bye | End

  /** A network end point; only IP end points can be sent datagrams. */
  datatype Endpoint = IpEndPoint(address: seq<byte>, port: uint16) | OtherEndPoint(name: string)

  datatype Transport = Tcp | Udp

  /** What the outside world does during one send: whether a TCP write fails, and the UDP attempts. */
  datatype Network = Network(writeFails: bool, attempts: seq<Attempt>)

  /** The channel every user starts in. */
  const DefaultChannel := "default"

  /** The server's notice that `displayName` left `channelId`. */
  function LeftNotice(displayName: string, channelId: string): ClientMessage
  {
    MsgMessage("Server", displayName + " has left " + channelId, None)
  }

  /** The server's notice that `displayName` joined `channelId`. */
  function JoinedNotice(displayName: string, channelId: string): ClientMessage
  {
    MsgMessage("Server", displayName + " has joined " + channelId, None)
  }

  /** `n` copies of one datagram. */
  function Copies(data: seq<byte>, n: nat): (r: seq<seq<byte>>)
    ensures |r| == n && forall i :: 0 <= i < n ==> r[i] == data
  {
    if n == 0 then [] else Copies(data, n - 1) + [data]
  }

  lemma {:induction false} CopiesAppend(data: seq<byte>, m: nat, n: nat)
    ensures Copies(data, m) + Copies(data, n) == Copies(data, m + n)
    decreases n
  {
    if n > 0 {
      CopiesAppend(data, m, n - 1);
    }
  }

  class ChatUser {
    const transport: Transport
    const endpoint: Endpoint
    var state: ClientState
    var username: string
    var displayName: string
    var channelId: string
    var secret: string
    /** TCP: whether the connection is open, and the text written to it. */
    var connected: bool
    var stream: seq<string>
    /** UDP: the ID counter, the received IDs, the Confirm queue and the datagrams sent. */
    var lastSentMessageId: uint16
    var lastReceivedMessageId: uint16
    var receivedMessageIds: set<uint16>
    var confirms: seq<Option<uint16>>
    var datagrams: seq<seq<byte>>

    constructor (transport: Transport, endpoint: Endpoint)
      ensures this.transport == transport && this.endpoint == endpoint
      ensures state == Start && username == "" && displayName == "" && secret == "" && channelId == DefaultChannel
      ensures connected == transport.Tcp? && stream == []
      ensures lastSentMessageId == 0 && lastReceivedMessageId == 0 && receivedMessageIds == {}
      ensures confirms == [] && datagrams == []
    {
      this.transport := transport;
      this.endpoint := endpoint;
      state := Start;
      username, displayName, secret := "", "", "";
      channelId := DefaultChannel;
      connected := transport.Tcp?;
      stream := [];
      lastSentMessageId, lastReceivedMessageId := 0, 0;
      receivedMessageIds := {};
      confirms, datagrams := [], [];
    }

    twostate predicate SessionUnchanged()
      reads this
    {
      old(state) == state && old(username) == username && old(displayName) == displayName &&
      old(channelId) == channelId && old(secret) == secret
    }

    twostate predicate TcpUnchanged()
      reads this
    {
      old(connected) == connected && old(stream) == stream
    }

    twostate predicate UdpUnchanged()
      reads this
    {
      old(lastSentMessageId) == lastSentMessageId && old(lastReceivedMessageId) == lastReceivedMessageId &&
      old(receivedMessageIds) == receivedMessageIds && old(confirms) == confirms && old(datagrams) == datagrams
    }

    /** `UpdateUserDetails`: the identity an Auth sets. */
    method UpdateUserDetails(username: string, displayName: string, secret: string)
      modifies this
      ensures this.username == username && this.displayName == displayName && this.secret == secret
      ensures state == old(state) && channelId == old(channelId)
      ensures TcpUnchanged() && UdpUnchanged()
    {
      this.username := username;
      this.displayName := displayName;
      this.secret := secret;
    }

    /** `GetMessageIdToSend`: TCP has no IDs; UDP hands out the counter and advances it, wrapping. */
    method GetMessageIdToSend() returns (id: Option<uint16>)
      modifies this
      ensures transport.Tcp? ==> id == None && lastSentMessageId == old(lastSentMessageId)
      ensures transport.Udp? ==> id == Some(old(lastSentMessageId)) && lastSentMessageId == Increment(old(lastSentMessageId))
      ensures SessionUnchanged() && TcpUnchanged()
      ensures lastReceivedMessageId == old(lastReceivedMessageId) && receivedMessageIds == old(receivedMessageIds)
      ensures confirms == old(confirms) && datagrams == old(datagrams)
    {
      if transport.Tcp? {
        id := None;
      } else {
        id := Some(lastSentMessageId);
        lastSentMessageId := Increment(lastSentMessageId);
      }
    }

    /** The `LastReceivedMessageId` setter: records the ID among the received ones. */
    method SetLastReceivedMessageId(value: uint16)
      modifies this
      ensures lastReceivedMessageId == value
      ensures HasReceivedMessageId(Some(value))
      ensures forall other: uint16 :: other != value ==> (HasReceivedMessageId(Some(other)) <==> other in old(receivedMessageIds))
      ensures SessionUnchanged() && TcpUnchanged()
      ensures lastSentMessageId == old(lastSentMessageId) && confirms == old(confirms) && datagrams == old(datagrams)
    {
      lastReceivedMessageId := value;
      receivedMessageIds := receivedMessageIds + {value};
    }

    /** `HasReceivedMessageId`: whether a non-null ID has been recorded. */
    predicate HasReceivedMessageId(messageId: Option<uint16>)
      reads this
    {
      messageId.Some? && messageId.value in receivedMessageIds
    }

    /** The leave notice a disconnect in state `s` posts, if any. TCP does not look at the state. */
    function LeaveNoticesIn(s: ClientState, cancelled: bool): (r: seq<ChatMessage<ChatUser>>)
      reads this
      ensures |r| <= 1
      ensures r != [] <==> displayName != "" && channelId != "" && (transport.Tcp? || s != Start) && !cancelled
      ensures r != [] ==> r[0].ignoredUser == Some(this) && r[0].channelId == channelId
    {
      if displayName != "" && channelId != "" && (transport.Tcp? || s != Start) && !cancelled
      then [ChatMessage(Some(this), channelId, LeftNotice(displayName, channelId))]
      else []
    }

    /** Whether sending `message` now throws out of `SendMessage`. */
    function SendThrows(message: ClientMessage, net: Network): bool
      reads this
    {
      if transport.Tcp? then connected && (TcpPacker.Pack(message).Threw? || net.writeFails)
      else UdpPacker.Pack(message, Some(lastSentMessageId)).Threw?
    }

    /** The exception `SendMessage` throws, when `SendThrows`. */
    function SendError(message: ClientMessage, net: Network): Exception
      reads this
    {
      if transport.Tcp? then (if TcpPacker.Pack(message).Threw? then TcpPacker.Pack(message).error else IOException)
      else if UdpPacker.Pack(message, Some(lastSentMessageId)).Threw? then UdpPacker.Pack(message, Some(lastSentMessageId)).error
      else IOException
    }

    /** The retransmission run sending `message` now goes through. */
    function SendRun(net: Network, retransmissionCount: nat): Run
      requires |net.attempts| > retransmissionCount
      reads this
    {
      RunFrom(endpoint.IpEndPoint?, Some(lastSentMessageId), confirms, net.attempts, retransmissionCount, 0)
    }

    /** Whether sending `message` now ends with the UDP user giving up and disconnecting. */
    function SendDrops(message: ClientMessage, net: Network, retransmissionCount: nat): bool
      requires |net.attempts| > retransmissionCount
      reads this
    {
      transport.Udp? && !SendThrows(message, net) && !SendRun(net, retransmissionCount).confirmed
    }

    /**
     * What sending `message` puts on the wire: nothing when the send throws;
     * otherwise, over TCP, the packed line while the connection is open and,
     * over UDP, the packed datagram once per attempt of the retransmission run.
     */
    twostate predicate Sent(message: ClientMessage, net: Network, retransmissionCount: nat)
      requires |net.attempts| > retransmissionCount
      reads this
    {
      if old(SendThrows(message, net)) then
        stream == old(stream) && datagrams == old(datagrams)
      else if transport.Tcp? then
        stream == old(stream) + (if old(connected) then [TcpPacker.Pack(message).value] else []) &&
        datagrams == old(datagrams)
      else
        stream == old(stream) &&
        datagrams == old(datagrams) + Copies(UdpPacker.Pack(message, Some(old(lastSentMessageId))).value,
                                             old(SendRun(net, retransmissionCount)).sends)
    }

    /**
     * The retransmission loop of `SendMessageWithConfirmationAsync`: the same
     * datagram for every attempt, at most `retransmissionCount + 1` attempts.
     */
    method Retransmit(data: seq<byte>, id: Option<uint16>, net: seq<Attempt>, retransmissionCount: nat)
      returns (confirmed: bool)
      requires |net| > retransmissionCount
      modifies this
      ensures var run := RunFrom(endpoint.IpEndPoint?, id, old(confirms), net, retransmissionCount, 0);
              confirmed == run.confirmed && confirms == run.remaining &&
              datagrams == old(datagrams) + Copies(data, run.sends)
      ensures SessionUnchanged() && TcpUnchanged()
      ensures lastSentMessageId == old(lastSentMessageId)
      ensures lastReceivedMessageId == old(lastReceivedMessageId) && receivedMessageIds == old(receivedMessageIds)
    {
      var isIp := endpoint.IpEndPoint?;
      ghost var whole := RunFrom(isIp, id, confirms, net, retransmissionCount, 0);
      ghost var sent: nat := 0;
      var attempts: nat := 0;
      while attempts <= retransmissionCount
        invariant attempts <= retransmissionCount + 1
        invariant var rest := RunFrom(isIp, id, confirms, net, retransmissionCount, attempts);
                  whole.confirmed == rest.confirmed && whole.sends == sent + rest.sends && whole.remaining == rest.remaining
        invariant datagrams == old(datagrams) + Copies(data, sent)
        invariant SessionUnchanged() && TcpUnchanged()
        invariant lastSentMessageId == old(lastSentMessageId)
        invariant lastReceivedMessageId == old(lastReceivedMessageId) && receivedMessageIds == old(receivedMessageIds)
        decreases retransmissionCount + 1 - attempts
      {
        if !isIp {
          break;
        }
        var matched, sentNow := SendAttempt(data, id, net, retransmissionCount, attempts);
        CopiesAppend(data, sent, sentNow);
        sent := sent + sentNow;
        if matched {
          return true;
        }
        attempts := attempts + 1;
      }
      return false;
    }

    /**
     * One pass of the retransmission loop to an IP end point: the Confirms
     * that arrived are queued, then, unless the socket send fails, the
     * datagram goes out and one Confirm is awaited.
     */
    method SendAttempt(data: seq<byte>, id: Option<uint16>, net: seq<Attempt>, retransmissionCount: nat, attempts: nat)
      returns (matched: bool, ghost sentNow: nat)
      requires |net| > retransmissionCount && attempts <= retransmissionCount && endpoint.IpEndPoint?
      modifies this
      ensures var r := RunFrom(true, id, old(confirms), net, retransmissionCount, attempts);
              var next := RunFrom(true, id, confirms, net, retransmissionCount, attempts + 1);
              (matched ==> r.confirmed && r.sends == sentNow && r.remaining == confirms) &&
              (!matched ==> r.confirmed == next.confirmed && r.sends == sentNow + next.sends && r.remaining == next.remaining)
      ensures datagrams == old(datagrams) + Copies(data, sentNow)
      ensures SessionUnchanged() && TcpUnchanged()
      ensures lastSentMessageId == old(lastSentMessageId)
      ensures lastReceivedMessageId == old(lastReceivedMessageId) && receivedMessageIds == old(receivedMessageIds)
    {
      confirms := confirms + net[attempts].arrivals;
      matched, sentNow := false, 0;
      if !net[attempts].sendFails {
        datagrams := datagrams + [data];
        sentNow := 1;
        assert Copies(data, 1) == [data];
        matched := WaitForConfirmation(id);
      }
    }

    /** `WaitForConfirmation`: takes the oldest queued Confirm, if any, and compares its ID. */
    method WaitForConfirmation(id: Option<uint16>) returns (matched: bool)
      modifies this
      ensures matched <==> old(confirms) != [] && old(confirms)[0] == id
      ensures confirms == if old(confirms) == [] then [] else old(confirms)[1..]
      ensures SessionUnchanged() && TcpUnchanged() && datagrams == old(datagrams)
      ensures lastSentMessageId == old(lastSentMessageId)
      ensures lastReceivedMessageId == old(lastReceivedMessageId) && receivedMessageIds == old(receivedMessageIds)
    {
      matched := false;
      if confirms != [] {
        var confirm := confirms[0];
        confirms := confirms[1..];
        matched := confirm == id;
      }
    }

    /** `SendMessageWithConfirmationAsync`: one ID and one packed datagram for all attempts. */
    method SendMessageWithConfirmation(message: ClientMessage, net: seq<Attempt>, retransmissionCount: nat)
      returns (r: Outcome<bool>)
      requires transport.Udp? && |net| > retransmissionCount
      modifies this
      ensures lastSentMessageId == Increment(old(lastSentMessageId))
      ensures var packed := UdpPacker.Pack(message, Some(old(lastSentMessageId)));
              packed.Threw? ==> r == Threw(packed.error) && confirms == old(confirms) && datagrams == old(datagrams)
      ensures var packed := UdpPacker.Pack(message, Some(old(lastSentMessageId)));
              var run := RunFrom(endpoint.IpEndPoint?, Some(old(lastSentMessageId)), old(confirms), net, retransmissionCount, 0);
              packed.Returned? ==>
                r == Returned(run.confirmed) && confirms == run.remaining &&
                datagrams == old(datagrams) + Copies(packed.value, run.sends)
      ensures SessionUnchanged() && TcpUnchanged()
      ensures lastReceivedMessageId == old(lastReceivedMessageId) && receivedMessageIds == old(receivedMessageIds)
    {
      var id := GetMessageIdToSend();
      var packed := UdpPacker.Pack(message, id);
      if packed.Threw? {
        return Threw(packed.error);
      }
      var confirmed := Retransmit(packed.value, id, net, retransmissionCount);
      return Returned(confirmed);
    }

    /**
     * `ClientDisconnect`: closes a TCP connection, removes the end point from
     * the registry, tags the user's queued envelopes and posts the leave notice.
     */
    method ClientDisconnect(cancelled: bool, users: ConnectedUsers<Endpoint, ChatUser>,
                            inbox: ClientMessageQueue<ChatUser>, chat: ChatMessagesQueue<ChatUser>)
      requires inbox.Valid() && chat.Valid() && |chat.items| < Capacity
      modifies this, users, inbox, chat
      ensures inbox.Valid() && chat.Valid()
      ensures users.users == old(users.users) - {endpoint}
      ensures inbox.envelopes == Tagged(old(inbox.envelopes), this, Disconnected)
      ensures chat.items == old(chat.items) + LeaveNoticesIn(state, cancelled)
      ensures connected == (transport.Udp? && old(connected))
      ensures SessionUnchanged() && UdpUnchanged() && stream == old(stream)
    {
      if transport.Tcp? && connected {
        connected := false;
      }
      var _ := users.RemoveUser(Some(endpoint));
      inbox.TagUserMessages(this, Disconnected);
      var notices := LeaveNoticesIn(state, cancelled);
      if notices != [] {
        var _ := chat.Add(notices[0], cancelled);
      }
    }

    /**
     * `SendMessageAsync`. TCP writes the packed text only while connected and
     * rethrows packing and write failures. UDP sends with confirmation and
     * disconnects the user when no Confirm comes; packing failures escape.
     */
    method SendMessage(message: ClientMessage, net: Network, retransmissionCount: nat, cancelled: bool,
                       users: ConnectedUsers<Endpoint, ChatUser>, inbox: ClientMessageQueue<ChatUser>,
                       chat: ChatMessagesQueue<ChatUser>)
      returns (thrown: Option<Exception>)
      requires |net.attempts| > retransmissionCount && inbox.Valid() && chat.Valid() && |chat.items| < Capacity
      modifies this, users, inbox, chat
      ensures inbox.Valid() && chat.Valid()
      ensures thrown.Some? <==> old(SendThrows(message, net))
      ensures thrown.Some? ==> thrown.value == old(SendError(message, net))
      ensures Sent(message, net, retransmissionCount)
      ensures transport.Tcp? ==> connected == old(connected) && UdpUnchanged()
      ensures transport.Udp? ==>
        lastSentMessageId == Increment(old(lastSentMessageId)) &&
        lastReceivedMessageId == old(lastReceivedMessageId) && receivedMessageIds == old(receivedMessageIds) &&
        TcpUnchanged()
      ensures transport.Udp? ==>
        confirms == (if thrown.None? then old(SendRun(net, retransmissionCount)).remaining else old(confirms))
      ensures old(SendDrops(message, net, retransmissionCount)) ==>
        users.users == old(users.users) - {endpoint} &&
        inbox.envelopes == Tagged(old(inbox.envelopes), this, Disconnected) &&
        chat.items == old(chat.items) + LeaveNoticesIn(state, cancelled)
      ensures !old(SendDrops(message, net, retransmissionCount)) ==>
        users.users == old(users.users) && inbox.envelopes == old(inbox.envelopes) && chat.items == old(chat.items)
      ensures SessionUnchanged()
    {
      if transport.Tcp? {
        thrown := None;
        if connected {
          var packed := TcpPacker.Pack(message);
          if packed.Threw? {
            thrown := Some(packed.error);
          } else if net.writeFails {
            thrown := Some(IOException);
          } else {
            stream := stream + [packed.value];
          }
        }
      } else {
        var r := SendMessageWithConfirmation(message, net.attempts, retransmissionCount);
        if r.Threw? {
          thrown := Some(r.error);
        } else {
          thrown := None;
          if !r.value {
            ClientDisconnect(cancelled, users, inbox, chat);
          }
        }
      }
    }
  }
}
