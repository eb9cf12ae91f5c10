/**
 * The per-connection receive side of the TCP server. Every read is appended
 * to the connection's buffer; the complete lines are then decoded one by one
 * and queued for the message processor, in order, until a line fails to
 * decode. The first decoding failure escapes, leaves the buffer as it was and
 * ends the connection; whichever way the connection ends, the user is
 * disconnected.
 */
module TcpServer {
  import opened Wrappers
  import opened ChatProtocol
  import opened ClientMessages
  import opened Text
  import opened Framing
  import opened Registry
  import opened Queues
  import opened Users
  import TcpPacker

  /** The messages decoded from some lines, and the failure that stopped decoding, if any. */
  datatype Batch = Batch(messages: seq<ClientMessage>, error: Option<Exception>)

  /** The outcome of decoding each line with `Unpack`. */
  function Decodes(lines: seq<string>): (r: seq<Outcome<ClientMessage>>)
    ensures |r| == |lines|
  {
    if lines == [] then [] else [TcpPacker.Unpack(lines[0])] + Decodes(lines[1..])
  }

  /** Each outcome is the decoding of the line at its position. */
  lemma {:induction false} DecodesEach(lines: seq<string>)
    ensures forall i :: 0 <= i < |lines| ==> Decodes(lines)[i] == TcpPacker.Unpack(lines[i])
  {
    if lines != [] { DecodesEach(lines[1..]); }
  }

  /** The messages of `outcomes` up to the first failure, and that failure. */
  function Collect(outcomes: seq<Outcome<ClientMessage>>): (b: Batch)
    ensures |b.messages| <= |outcomes|
  {
    if outcomes == [] then Batch([], None)
    else match outcomes[0]
      case Threw(e) => Batch([], Some(e))
      case Returned(m) =>
        var rest := Collect(outcomes[1..]);
        Batch([m] + rest.messages, rest.error)
  }

  /** Decodes `lines` in order, stopping at the first line `Unpack` throws on. */
  function UnpackLines(lines: seq<string>): (b: Batch)
    ensures |b.messages| <= |lines|
  {
    Collect(Decodes(lines))
  }

  /** Decoding `b` after `a`: nothing of `b` once `a` has failed. */
  function Then(a: Batch, b: Batch): Batch
  {
    if a.error.Some? then a else Batch(a.messages + b.messages, b.error)
  }

  /** The envelopes `Add` queues for `messages` of `user`. */
  function Untagged(user: ChatUser, messages: seq<ClientMessage>): (r: seq<Envelope<ChatUser>>)
    ensures |r| == |messages|
    ensures forall i :: 0 <= i < |r| ==> r[i] == Envelope(user, messages[i], "")
  {
    seq(|messages|, i requires 0 <= i < |messages| => Envelope(user, messages[i], ""))
  }

  /** The effect of one `ProcessReceivedData` on a buffer holding `buffer`. */
  datatype Reassembly = Reassembly(messages: seq<ClientMessage>, error: Option<Exception>, rest: string)

  function Reassemble(buffer: string): Reassembly
  {
    var f := Frame(buffer);
    var b := UnpackLines(f.lines);
    Reassembly(b.messages, b.error, if b.error.Some? then buffer else f.rest)
  }

  /**
   * `ProcessReceivedData`: queues the decoded complete lines of the buffer
   * and keeps the fragment after the last CRLF; a decoding failure stops the
   * loop with the earlier lines queued and the buffer untouched. The queue
   * blocks when full, so room for the decoded messages is required.
   */
  method ProcessReceivedData(builder: MessageBuilder, user: ChatUser, inbox: ClientMessageQueue<ChatUser>)
    returns (error: Option<Exception>)
    requires inbox.Valid() && |inbox.envelopes| + |Reassemble(builder.text).messages| <= Capacity
    modifies builder, inbox
    ensures inbox.Valid()
    ensures var r := Reassemble(old(builder.text));
      inbox.envelopes == old(inbox.envelopes) + Untagged(user, r.messages) &&
      error == r.error && builder.text == r.rest
  {
    var messageData := builder.text;
    var lastNewLineIndex := LastIndexOf(messageData, CRLF);
    ReassembleAt(messageData);
    error := None;
    if lastNewLineIndex != -1 {
      var messages := Lines(messageData[..lastNewLineIndex]);
      error := EnqueueLines(messages, user, inbox);
      if error.None? {
        builder.text := "";
        if lastNewLineIndex + 2 < |messageData| {
          builder.text := builder.text + messageData[lastNewLineIndex + 2..];
        }
      }
    }
  }

  /** The `foreach` of `ProcessReceivedData`: decodes and queues `lines` until one fails to decode. */
  method EnqueueLines(lines: seq<string>, user: ChatUser, inbox: ClientMessageQueue<ChatUser>)
    returns (error: Option<Exception>)
    requires inbox.Valid() && |inbox.envelopes| + |UnpackLines(lines).messages| <= Capacity
    modifies inbox
    ensures inbox.Valid()
    ensures inbox.envelopes == old(inbox.envelopes) + Untagged(user, UnpackLines(lines).messages)
    ensures error == UnpackLines(lines).error
  {
    ghost var total := UnpackLines(lines);
    ghost var done := Batch([], None);
    error := None;
    var i := 0;
    assert lines[..0] == [] && lines[0..] == lines;
    while i < |lines| && error.None?
      invariant 0 <= i <= |lines|
      invariant inbox.Valid()
      invariant done == UnpackLines(lines[..i])
      invariant inbox.envelopes == old(inbox.envelopes) + Untagged(user, done.messages)
      invariant error == done.error
      invariant total == Then(done, UnpackLines(lines[i..]))
    {
      var decoded := TcpPacker.Unpack(lines[i]);
      DecodeNext(lines, i);
      if decoded.Threw? {
        error := Some(decoded.error);
        done := Batch(done.messages, error);
      } else {
        inbox.Add(user, decoded.value);
        UntaggedAppend(user, done.messages, [decoded.value]);
        done := Batch(done.messages + [decoded.value], None);
      }
      i := i + 1;
    }
    if error.None? {
      assert lines[..i] == lines;
    }
  }

  /** `Reassemble` in terms of the last CRLF of the buffer. */
  lemma ReassembleAt(buffer: string)
    ensures var idx := LastIndexOf(buffer, CRLF);
      Reassemble(buffer) ==
        if idx == -1 then Reassembly([], None, buffer)
        else
          var b := UnpackLines(Lines(buffer[..idx]));
          Reassembly(b.messages, b.error, if b.error.Some? then buffer else buffer[idx + 2..])
  {
  }

  /** One more line decoded: the batch so far grows by its message, or stops with its error. */
  lemma DecodeNext(lines: seq<string>, i: nat)
    requires i < |lines| && UnpackLines(lines[..i]).error.None?
    ensures var done := UnpackLines(lines[..i]);
      UnpackLines(lines[..i + 1]) ==
        match TcpPacker.Unpack(lines[i])
        case Threw(e) => Batch(done.messages, Some(e))
        case Returned(m) => Batch(done.messages + [m], None)
    ensures Then(UnpackLines(lines[..i]), UnpackLines(lines[i..])) ==
      Then(UnpackLines(lines[..i + 1]), UnpackLines(lines[i + 1..]))
  {
    var d := TcpPacker.Unpack(lines[i]);
    assert lines[..i + 1] == lines[..i] + [lines[i]];
    UnpackLinesAppend(lines[..i], [lines[i]]);
    assert lines[i..] == [lines[i]] + lines[i + 1..];
    UnpackLinesAppend([lines[i]], lines[i + 1..]);
    assert Decodes([lines[i]]) == [d];
    CollectOne(d);
  }

  /** A single outcome collects into its message or its failure. */
  lemma CollectOne(d: Outcome<ClientMessage>)
    ensures Collect([d]) == if d.Threw? then Batch([], Some(d.error)) else Batch([d.value], None)
  {
    assert [d][1..] == [];
    if d.Returned? {
      assert [d.value] + [] == [d.value];
    }
  }

  /** How the listen loop of a connection ends. */
  datatype Ending = Closed | Cancelled | Failed(error: Exception)

  /** The messages a connection queues and how its listen loop ends. */
  datatype Listening = Listening(messages: seq<ClientMessage>, ending: Ending)

  /**
   * The listen loop from buffer content `buffer` over the reads `events`: a
   * 0-byte read closes, a failed read or a failed decoding fails, and running
   * out of reads stands for a requested cancellation.
   */
  function Listen(buffer: string, events: seq<ReadEvent>): Listening
    decreases |events|
  {
    if events == [] then Listening([], Cancelled)
    else match events[0]
      case EndOfData => Listening([], Closed)
      case ReadFailed(e) => Listening([], Failed(e))
      case Chunk(d) =>
        var r := Reassemble(buffer + d);
        if r.error.Some? then Listening(r.messages, Failed(r.error.value))
        else
          var l := Listen(r.rest, events[1..]);
          Listening(r.messages + l.messages, l.ending)
  }

  /**
   * `ListenClientAsync`: reads until the peer closes, a read or a decoding
   * fails, or cancellation is requested, then disconnects the user. A failure
   * is rethrown after the disconnect; the user's leave notice depends on
   * whether cancellation was requested.
   */
  method ListenClient(user: ChatUser, events: seq<ReadEvent>, users: ConnectedUsers<Endpoint, ChatUser>,
                      inbox: ClientMessageQueue<ChatUser>, chat: ChatMessagesQueue<ChatUser>)
    returns (thrown: Option<Exception>)
    requires user.transport.Tcp?
    requires inbox.Valid() && |inbox.envelopes| + |Listen("", events).messages| <= Capacity
    requires chat.Valid() && |chat.items| < Capacity
    modifies user, users, inbox, chat
    ensures var l := Listen("", events);
      inbox.Valid() && chat.Valid() &&
      inbox.envelopes == Tagged(old(inbox.envelopes) + Untagged(user, l.messages), user, Disconnected) &&
      users.users == old(users.users) - {user.endpoint} &&
      chat.items == old(chat.items) + user.LeaveNoticesIn(user.state, l.ending.Cancelled?) &&
      thrown == (if l.ending.Failed? then Some(l.ending.error) else None)
    ensures !user.connected && user.SessionUnchanged() && user.stream == old(user.stream)
  {
    var ending := Receive(user, events, inbox);
    user.ClientDisconnect(ending.Cancelled?, users, inbox, chat);
    thrown := if ending.Failed? then Some(ending.error) else None;
  }

  /** The read loop of `ListenClientAsync`, up to the `finally`. */
  method Receive(user: ChatUser, events: seq<ReadEvent>, inbox: ClientMessageQueue<ChatUser>)
    returns (ending: Ending)
    requires inbox.Valid() && |inbox.envelopes| + |Listen("", events).messages| <= Capacity
    modifies inbox
    ensures inbox.Valid()
    ensures inbox.envelopes == old(inbox.envelopes) + Untagged(user, Listen("", events).messages)
    ensures ending == Listen("", events).ending
  {
    var builder := new MessageBuilder();
    var i := 0;
    var stop := false;
    ending := Cancelled;
    ghost var got: seq<ClientMessage> := [];
    ghost var whole := Listen("", events);
    assert events[0..] == events;
    while !stop && i < |events|
      invariant 0 <= i <= |events|
      invariant inbox.Valid()
      invariant inbox.envelopes == old(inbox.envelopes) + Untagged(user, got)
      invariant !stop ==> ending == Cancelled && whole == After(got, Listen(builder.text, events[i..]))
      invariant stop ==> whole == Listening(got, ending)
      invariant |old(inbox.envelopes)| + |whole.messages| <= Capacity
      modifies builder, inbox
      decreases |events| - i
    {
      var rest := events[i..];
      ghost var step := Listen(builder.text, rest);
      assert rest[1..] == events[i + 1..];
      ghost var taken;
      stop, ending, taken := ReceiveStep(builder, rest, user, inbox, |old(inbox.envelopes)| + |got|);
      UntaggedAppend(user, got, taken);
      Concatenated(old(inbox.envelopes), Untagged(user, got), Untagged(user, taken));
      AfterAfter(got, taken, step, stop, ending, Listen(builder.text, rest[1..]));
      got := got + taken;
      i := i + 1;
    }
    if !stop {
      assert events[i..] == [];
    }
  }

  /**
   * One read of the listen loop over the remaining reads `rest`: `taken` is
   * what it queues; either the loop stops there with `ending`, or it goes on
   * from the new buffer with the reads after this one.
   */
  method ReceiveStep(builder: MessageBuilder, rest: seq<ReadEvent>, user: ChatUser,
                     inbox: ClientMessageQueue<ChatUser>, ghost queued: nat)
    returns (stop: bool, ending: Ending, ghost taken: seq<ClientMessage>)
    requires rest != [] && inbox.Valid()
    requires |inbox.envelopes| <= queued && queued + |Listen(builder.text, rest).messages| <= Capacity
    modifies builder, inbox
    ensures inbox.Valid()
    ensures inbox.envelopes == old(inbox.envelopes) + Untagged(user, taken)
    ensures stop ==> Listen(old(builder.text), rest) == Listening(taken, ending)
    ensures !stop ==> ending == Cancelled && Listen(old(builder.text), rest) == After(taken, Listen(builder.text, rest[1..]))
  {
    var event := rest[0];
    ListenNext(builder.text, rest, 0);
    assert rest[0..] == rest;
    if event.EndOfData? {
      stop, ending, taken := true, Closed, [];
      assert inbox.envelopes == old(inbox.envelopes) + [];
    } else if event.ReadFailed? {
      stop, ending, taken := true, Failed(event.error), [];
      assert inbox.envelopes == old(inbox.envelopes) + [];
    } else {
      ghost var r := Reassemble(builder.text + event.data);
      var error := ReadChunk(builder, event.data, user, inbox);
      taken := r.messages;
      stop, ending := error.Some?, if error.Some? then Failed(error.value) else Cancelled;
    }
  }

  /** The loop's bookkeeping across one read: what came before, then what the read took, then the rest. */
  lemma AfterAfter(got: seq<ClientMessage>, taken: seq<ClientMessage>, step: Listening, stop: bool, ending: Ending, tail: Listening)
    requires stop ==> step == Listening(taken, ending)
    requires !stop ==> step == After(taken, tail)
    ensures stop ==> After(got, step) == Listening(got + taken, ending)
    ensures !stop ==> After(got, step) == After(got + taken, tail)
  {
    if !stop {
      assert got + (taken + tail.messages) == (got + taken) + tail.messages;
    }
  }

  lemma UntaggedAppend(user: ChatUser, a: seq<ClientMessage>, b: seq<ClientMessage>)
    ensures Untagged(user, a + b) == Untagged(user, a) + Untagged(user, b)
  {
  }

  /** One chunk read: appended to the buffer, which is then processed. */
  method ReadChunk(builder: MessageBuilder, data: string, user: ChatUser, inbox: ClientMessageQueue<ChatUser>)
    returns (error: Option<Exception>)
    requires inbox.Valid() && |inbox.envelopes| + |Reassemble(builder.text + data).messages| <= Capacity
    modifies builder, inbox
    ensures inbox.Valid()
    ensures var r := Reassemble(old(builder.text) + data);
      inbox.envelopes == old(inbox.envelopes) + Untagged(user, r.messages) &&
      error == r.error && builder.text == r.rest
  {
    builder.text := builder.text + data;
    error := ProcessReceivedData(builder, user, inbox);
  }

  /** The messages `got` queued before the rest `l` of a listen loop. */
  function After(got: seq<ClientMessage>, l: Listening): (r: Listening)
    ensures r.messages == got + l.messages && r.ending == l.ending
  {
    Listening(got + l.messages, l.ending)
  }

  /** One read of the listen loop. */
  lemma ListenNext(buffer: string, events: seq<ReadEvent>, i: nat)
    requires i < |events|
    ensures events[i].EndOfData? ==> Listen(buffer, events[i..]) == Listening([], Closed)
    ensures events[i].ReadFailed? ==> Listen(buffer, events[i..]) == Listening([], Failed(events[i].error))
    ensures events[i].Chunk? ==>
      var r := Reassemble(buffer + events[i].data);
      Listen(buffer, events[i..]) ==
        if r.error.Some? then Listening(r.messages, Failed(r.error.value))
        else After(r.messages, Listen(r.rest, events[i + 1..]))
  {
    assert events[i..][0] == events[i];
    assert events[i..][1..] == events[i + 1..];
  }

  // ------------------------------------------------------------ properties

  /** Decoding a concatenation decodes the first part, then the second unless the first failed. */
  lemma UnpackLinesAppend(a: seq<string>, b: seq<string>)
    ensures UnpackLines(a + b) == Then(UnpackLines(a), UnpackLines(b))
  {
    DecodesAppend(a, b);
    CollectAppend(Decodes(a), Decodes(b));
  }

  lemma {:induction false} DecodesAppend(a: seq<string>, b: seq<string>)
    ensures Decodes(a + b) == Decodes(a) + Decodes(b)
  {
    if a == [] {
      assert a + b == b;
    } else {
      assert (a + b)[0] == a[0] && (a + b)[1..] == a[1..] + b;
      DecodesAppend(a[1..], b);
      var d := [TcpPacker.Unpack(a[0])];
      assert d + (Decodes(a[1..]) + Decodes(b)) == (d + Decodes(a[1..])) + Decodes(b);
    }
  }

  /** Collecting a concatenation collects the first part, then the second unless the first failed. */
  lemma {:induction false} CollectAppend(x: seq<Outcome<ClientMessage>>, y: seq<Outcome<ClientMessage>>)
    ensures Collect(x + y) == Then(Collect(x), Collect(y))
  {
    if x == [] {
      assert x + y == y;
    } else {
      assert (x + y)[0] == x[0] && (x + y)[1..] == x[1..] + y;
      CollectAppend(x[1..], y);
      if x[0].Returned? {
        var p := Collect(x[1..]).messages;
        var q := Collect(y).messages;
        assert [x[0].value] + (p + q) == ([x[0].value] + p) + q;
      }
    }
  }

  /**
   * Every queued message is the decoding of the line at its position; without
   * a failure every line is queued, and a failure is the decoding error of the
   * first line not queued.
   */
  lemma UnpackLinesEach(lines: seq<string>)
    ensures var b := UnpackLines(lines);
      (forall k :: 0 <= k < |b.messages| ==> TcpPacker.Unpack(lines[k]) == Returned(b.messages[k])) &&
      (b.error.None? ==> |b.messages| == |lines|) &&
      (b.error.Some? ==> |b.messages| < |lines| && TcpPacker.Unpack(lines[|b.messages|]) == Threw(b.error.value))
  {
    CollectEach(Decodes(lines));
    DecodesEach(lines);
  }

  /** The collected messages are the leading successes, and the failure is the first outcome after them. */
  lemma {:induction false} CollectEach(outcomes: seq<Outcome<ClientMessage>>)
    ensures var b := Collect(outcomes);
      (forall k :: 0 <= k < |b.messages| ==> outcomes[k] == Returned(b.messages[k])) &&
      (b.error.None? ==> |b.messages| == |outcomes|) &&
      (b.error.Some? ==> |b.messages| < |outcomes| && outcomes[|b.messages|] == Threw(b.error.value))
  {
    if outcomes != [] {
      CollectEach(outcomes[1..]);
    }
  }

  /** A buffer without CRLF: nothing is queued and the buffer is kept. */
  lemma NoLineNoChange(buffer: string)
    requires !Contains(buffer, CRLF)
    ensures Reassemble(buffer) == Reassembly([], None, buffer)
  {
    FrameCut(buffer);
  }

  /**
   * A successful pass loses no text but the delimiters and empty lines: the
   * buffer was the decoded complete text, a CRLF and the kept fragment, which
   * holds no CRLF.
   */
  lemma NothingLost(buffer: string)
    requires Contains(buffer, CRLF) && Reassemble(buffer).error.None?
    ensures var r := Reassemble(buffer);
      !Contains(r.rest, CRLF) &&
      exists complete :: buffer == complete + CRLF + r.rest && UnpackLines(Lines(complete)).messages == r.messages
  {
    var f := Frame(buffer);
    FrameCut(buffer);
    var complete := buffer[..|buffer| - |f.rest| - 2];
    assert buffer == complete + CRLF + f.rest;
  }

  /**
   * Over a whole connection that ends with the peer closing, the queued
   * messages are the decodings of the complete lines of everything received,
   * however the stream was cut into reads; a decoding failure ends the loop.
   */
  lemma {:induction false} ListenWhole(buffer: string, ds: seq<string>)
    requires !Contains(buffer, CRLF)
    ensures var b := UnpackLines(Frame(buffer + Concat(ds)).lines);
      Listen(buffer, Chunks(ds) + [EndOfData]) ==
        Listening(b.messages, if b.error.Some? then Failed(b.error.value) else Closed)
    decreases |ds|
  {
    var events := Chunks(ds) + [EndOfData];
    if ds == [] {
      assert events == [EndOfData];
      assert buffer + Concat(ds) == buffer;
      FrameCut(buffer);
    } else {
      var d := ds[0];
      var f := Frame(buffer + d);
      var whole := Concat(ds[1..]);
      assert events[0] == Chunk(d);
      assert events[1..] == Chunks(ds[1..]) + [EndOfData];
      assert buffer + Concat(ds) == (buffer + d) + whole;
      FrameChunks(buffer + d, whole);
      FrameCut(buffer + d);
      UnpackLinesAppend(f.lines, Frame(f.rest + whole).lines);
      if UnpackLines(f.lines).error.None? {
        ListenWhole(f.rest, ds[1..]);
      }
    }
  }
}
