/**
 * The older TCP server. Its connections are keyed by a string, and it queues
 * the complete lines of the stream as raw text, leaving decoding to the
 * consumer. However the read loop ends (the peer closes, a read fails, or
 * cancellation is requested), the client is closed and its key removed from
 * the string-keyed registry.
 */
module TcpChatServer {
  import opened Text
  import opened Framing
  import opened Registry

  /** `TcpChatUser`: the connection key and whether the client is still open. */
  class TcpChatUser {
    const connectionKey: string
    var clientOpen: bool

    constructor (connectionKey: string)
      ensures this.connectionKey == connectionKey && clientOpen
    {
      this.connectionKey := connectionKey;
      clientOpen := true;
    }
  }

  /** A queued line of text and the connection it came from. */
  datatype RawEnvelope = RawEnvelope(user: TcpChatUser, line: string)

  /** The unbounded queue the older server feeds. */
  class RawQueue {
    var items: seq<RawEnvelope>

    constructor ()
      ensures items == []
    {
      items := [];
    }

    method Enqueue(e: RawEnvelope)
      modifies this
      ensures items == old(items) + [e]
    {
      items := items + [e];
    }
  }

  /** The envelopes of `lines` from `user`, in order. */
  function Raw(user: TcpChatUser, lines: seq<string>): (r: seq<RawEnvelope>)
    ensures |r| == |lines| && forall i :: 0 <= i < |r| ==> r[i] == RawEnvelope(user, lines[i])
  {
    seq(|lines|, i requires 0 <= i < |lines| => RawEnvelope(user, lines[i]))
  }

  /**
   * `ProcessReceivedData`: queues the complete lines of the buffer as they
   * are and keeps the fragment after the last CRLF; a buffer without CRLF is
   * left alone.
   */
  method ProcessReceivedData(builder: MessageBuilder, user: TcpChatUser, queue: RawQueue)
    modifies builder, queue
    ensures queue.items == old(queue.items) + Raw(user, Frame(old(builder.text)).lines)
    ensures builder.text == Frame(old(builder.text)).rest
  {
    var messageData := builder.text;
    var lastNewLineIndex := LastIndexOf(messageData, CRLF);
    if lastNewLineIndex != -1 {
      var messages := Lines(messageData[..lastNewLineIndex]);
      var i := 0;
      while i < |messages|
        invariant 0 <= i <= |messages|
        invariant queue.items == old(queue.items) + Raw(user, messages[..i])
        modifies queue
      {
        queue.Enqueue(RawEnvelope(user, messages[i]));
        assert Raw(user, messages[..i + 1]) == Raw(user, messages[..i]) + [RawEnvelope(user, messages[i])];
        i := i + 1;
      }
      assert messages[..i] == messages;
      builder.text := "";
      if lastNewLineIndex + 2 < |messageData| {
        builder.text := builder.text + messageData[lastNewLineIndex + 2..];
      }
    }
  }

  /** The lines queued by the read loop from buffer content `buffer` over the reads `events`. */
  function Received(buffer: string, events: seq<ReadEvent>): seq<string>
    decreases |events|
  {
    if events == [] || !events[0].Chunk? then []
    else
      var f := Frame(buffer + events[0].data);
      f.lines + Received(f.rest, events[1..])
  }

  /**
   * `ListenClientAsync`: queues the lines of every chunk read until the peer
   * closes, a read fails (the failure is caught) or the reads run out
   * (cancellation); then closes the client and unregisters its key.
   */
  method ListenClient(user: TcpChatUser, events: seq<ReadEvent>, users: ChatUsers<string, TcpChatUser>, queue: RawQueue)
    modifies user, users, queue
    ensures queue.items == old(queue.items) + Raw(user, Received("", events))
    ensures !user.clientOpen
    ensures users.users == old(users.users) - {user.connectionKey}
  {
    Receive(user, events, queue);
    user.clientOpen := false;
    var _ := users.RemoveUser(user.connectionKey);
  }

  /** The read loop of `ListenClientAsync`, up to the `finally`. */
  method Receive(user: TcpChatUser, events: seq<ReadEvent>, queue: RawQueue)
    modifies queue
    ensures queue.items == old(queue.items) + Raw(user, Received("", events))
  {
    var builder := new MessageBuilder();
    var i := 0;
    var stop := false;
    ghost var got: seq<string> := [];
    ghost var whole := Received("", events);
    assert events[0..] == events;
    while !stop && i < |events|
      invariant 0 <= i <= |events|
      invariant queue.items == old(queue.items) + Raw(user, got)
      invariant !stop ==> whole == got + Received(builder.text, events[i..])
      invariant stop ==> whole == got
      modifies builder, queue
      decreases |events| - i
    {
      var event := events[i];
      ReceivedNext(builder.text, events, i);
      i := i + 1;
      if event.Chunk? {
        ghost var f := Frame(builder.text + event.data);
        ghost var before := queue.items;
        ReadChunk(builder, event.data, user, queue);
        RawAppend(user, old(queue.items), got, f.lines);
        Concatenated(got, f.lines, Received(f.rest, events[i..]));
        got := got + f.lines;
      } else {
        stop := true;
        assert got + [] == got;
      }
    }
    if !stop {
      assert events[i..] == [];
      assert got + [] == got;
    }
  }

  /** One chunk read: appended to the buffer, which is then processed. */
  method ReadChunk(builder: MessageBuilder, data: string, user: TcpChatUser, queue: RawQueue)
    modifies builder, queue
    ensures queue.items == old(queue.items) + Raw(user, Frame(old(builder.text) + data).lines)
    ensures builder.text == Frame(old(builder.text) + data).rest
  {
    builder.text := builder.text + data;
    ProcessReceivedData(builder, user, queue);
  }

  lemma RawAppend(user: TcpChatUser, q: seq<RawEnvelope>, a: seq<string>, b: seq<string>)
    ensures q + Raw(user, a) + Raw(user, b) == q + Raw(user, a + b)
  {
    assert Raw(user, a + b) == Raw(user, a) + Raw(user, b);
  }

  /** One read of the older listen loop. */
  lemma ReceivedNext(buffer: string, events: seq<ReadEvent>, i: nat)
    requires i < |events|
    ensures !events[i].Chunk? ==> Received(buffer, events[i..]) == []
    ensures events[i].Chunk? ==>
      var f := Frame(buffer + events[i].data);
      Received(buffer, events[i..]) == f.lines + Received(f.rest, events[i + 1..])
  {
    assert events[i..][0] == events[i];
    assert events[i..][1..] == events[i + 1..];
  }

  // ------------------------------------------------------------ properties

  /**
   * Over a whole connection that ends with the peer closing, the queued lines
   * are the complete lines of everything received, however the stream was
   * cut into reads.
   */
  lemma {:induction false} ReceivedWhole(buffer: string, ds: seq<string>)
    requires !Contains(buffer, CRLF)
    ensures Received(buffer, Chunks(ds) + [EndOfData]) == Frame(buffer + Concat(ds)).lines
    decreases |ds|
  {
    var events := Chunks(ds) + [EndOfData];
    if ds == [] {
      assert events == [EndOfData];
      assert buffer + Concat(ds) == buffer;
      FrameCut(buffer);
    } else {
      var f := Frame(buffer + ds[0]);
      assert events[0] == Chunk(ds[0]);
      assert events[1..] == Chunks(ds[1..]) + [EndOfData];
      assert buffer + Concat(ds) == (buffer + ds[0]) + Concat(ds[1..]);
      FrameChunks(buffer + ds[0], Concat(ds[1..]));
      FrameCut(buffer + ds[0]);
      ReceivedWhole(f.rest, ds[1..]);
    }
  }

  /** Every queued line is non-empty and holds no CRLF. */
  lemma {:induction false} ReceivedLines(buffer: string, events: seq<ReadEvent>)
    ensures forall k :: 0 <= k < |Received(buffer, events)| ==> Received(buffer, events)[k] != ""
    decreases |events|
  {
    if events != [] && events[0].Chunk? {
      var f := Frame(buffer + events[0].data);
      ReceivedLines(f.rest, events[1..]);
    }
  }
}
