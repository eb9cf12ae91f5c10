# IPK24-CHAT server, modelled in Dafny

This project models the core of a C# server for the IPK24-CHAT protocol, a
small chat protocol with two transports:

- **TCP:** CRLF-terminated text lines such as `MSG FROM alice IS hello`.
- **UDP:** binary datagrams. Each holds a type byte, a big-endian 16-bit
  message ID, then NUL-terminated ASCII fields. Every datagram the server
  sends must be confirmed by the client, and unconfirmed datagrams are
  retransmitted.

The model covers:

- **Protocol constants and messages.** The message type tags and field-length
  bounds are in `ChatProtocol`. The message variants form one datatype in
  `ClientMessages`. The repository's `Client/ClientMessage.cs` is older than
  its users: the Confirm and Unknown variants and the message/ref IDs are
  taken from where `Udp/UdpPacker.cs` and `Client/ClientMessageProcessor.cs`
  use them.
- **Wire codecs.**
  - `UdpPacker` is the binary encoder and the cursor-based decoder. `ReadString`
    keeps the source's reading loop.
  - `TcpPacker` is the text encoder and the prefix-dispatching decoder.
  - `Text` models the .NET string operations the TCP decoder relies on:
    `StartsWith`, `LastIndexOf`, `Split` over a list of separators, the
    `RemoveEmptyEntries` filter, and `Trim`. All comparisons are ordinal,
    which is what `Tcp/TcpServer.cs:101` asks for. The culture-sensitive calls
    elsewhere are listed under "Left out".
- **TCP stream reassembly.** `Framing` cuts a buffer at its last CRLF.
  - `TcpServer` models `ProcessReceivedData` and the read loop of
    `ListenClientAsync`. The buffer is a class with a mutable text field, and
    messages go to a bounded inbound queue.
  - `TcpChatServer` models the older server, which queues raw lines and
    unregisters a connection by its string key.
- **Session state machine.** `Processor` holds `ProcessClientMessageAsync` and
  its `Handle*` methods.
- **Users.** `Users.ChatUser` is one class for the TCP and UDP users. It holds:
  - the session fields;
  - the UDP ID counter and received-ID set;
  - the confirmation queue;
  - the text written to a TCP stream and the datagrams sent over UDP.

  `Reliability` specifies the retransmission loop as a function of an oracle,
  which says for each attempt whether the socket send fails and which Confirms
  arrive during the wait.
- **Registries and queues.**
  - `Registry.ConnectedUsers` is the end-point registry.
  - `Registry.ChatUsers` is the registry the message processor consults.
    `Chat/ChatUsers.cs` and `Common/ChatUsers.cs` behave identically and share
    it. The model keys it by end point; see "Left out".
  - `Queues` holds the inbound envelope queue, with in-place tagging, and the
    broadcast job queue.
- **Broadcast printer.** `Printer` takes jobs one at a time, and each job's
  deliveries are the registered users that pass the filter.

C# exceptions are results: `Outcome<T> = Returned(value) | Threw(error)`, or an
`Option<Exception>` out-parameter on methods. The network and timing are
parameters:

- a `ReadEvent` sequence for a connection's reads;
- a `Network` value for one send.

Where the IPK24-CHAT protocol's intended behaviour and the code disagree, the model
follows the code:

- `TcpPacker.Unpack` throws `ArgumentException` on an unknown line. It does
  not return Unknown, and it checks no field lengths.
- A message that is invalid in its state gets an `Err`. The server then sets
  `End` and disconnects. No `Bye` is sent.
- A failed TCP write is rethrown to the caller, not swallowed.
- UDP `Unpack` throws on datagrams shorter than three bytes.
- A mismatched Confirm is consumed and costs an attempt.
- A repeated UDP disconnect posts a second leave notice.

## Model

| member | source | states |
|---|---|---|
| ChatProtocol.Tags | Chat/ChatProtocol.cs:11-17 | the seven type tags are pairwise distinct |
| ChatProtocol.Increment | Udp/UdpUser.cs:70 | the unchecked 16-bit increment adds one below 0xFFFF and wraps 0xFFFF to 0 |
| ClientMessages.TypeOf | Client/ClientMessage.cs:6-102 | every variant with a class tag gets one of the protocol's tags; only Unknown has none |
| ClientMessages.TagDeterminesVariant | Client/ClientMessage.cs:18-102 | two messages with the same tag are of the same variant |
| ClientMessages.DefaultsAreEmpty | Client/ClientMessage.cs:14-102 | each parameterless constructor sets its class's tag, and every string field defaults to empty |
| UdpPacker.AsciiRoundTrip | Udp/UdpPacker.cs:92 | ASCII text survives ASCII encoding followed by decoding |
| UdpPacker.AsciiBytes | Udp/UdpPacker.cs:92 | ASCII encoding writes one byte per UTF-16 code unit: at least one and at most two per character |
| UdpPacker.AsciiBytesOfAscii | Udp/UdpPacker.cs:92 | ASCII text encodes to exactly one byte per character, each the character's own code |
| UdpPacker.SurrogatePairBytes | Udp/UdpPacker.cs:92 | a character outside the Basic Multilingual Plane, a surrogate pair in .NET, encodes as two '?' bytes |
| UdpPacker.DecodedIsAscii | Udp/UdpPacker.cs:212 | every decoded string is ASCII, because non-ASCII bytes become '?' |
| UdpPacker.WriteMessageId | Udp/UdpPacker.cs:80-88 | a missing ID throws; otherwise the result is the two ID bytes |
| UdpPacker.WriteString | Udp/UdpPacker.cs:90-93 | a field is its ASCII bytes followed by one NUL |
| UdpPacker.MessageIdBigEndian | Udp/UdpPacker.cs:80-88 | an ID is written high byte first and reads back as the same ID |
| UdpPacker.IdRoundTrip | Udp/UdpPacker.cs:193-201 | an ID written at any offset of any buffer reads back unchanged |
| UdpPacker.StringField | Udp/UdpPacker.cs:203-213 | a read field lies within the buffer and within its bound, and the cursor moves past its NUL |
| UdpPacker.ReadString | Udp/UdpPacker.cs:203-213 | the reading loop returns the bytes up to the next NUL, and throws at the end of the buffer or once the bound is exceeded |
| UdpPacker.FieldRoundTrip | Udp/UdpPacker.cs:203-213 | a NUL-free ASCII string within the bound reads back from wherever it was written, with the cursor just past its NUL |
| UdpPacker.FieldTooLong | Udp/UdpPacker.cs:207-210 | a field with maxLength+1 bytes before its terminator is rejected |
| UdpPacker.FieldUnterminated | Udp/UdpPacker.cs:207 | a field that runs to the end of the buffer without a NUL is rejected |
| UdpPacker.Unpack | Udp/UdpPacker.cs:100-138 | throws exactly on inputs under 3 bytes; otherwise the decoded message is well-formed (bounded, non-empty, ASCII fields) and carries the datagram's ID |
| UdpPacker.ConfirmLayout | Udp/UdpPacker.cs:21-22 | Confirm packs to exactly its tag and its own ID, and ignores the ID argument |
| UdpPacker.ReplyLayout | Udp/UdpPacker.cs:49-56 | Reply is the tag, the ID, the result byte, the ref ID, the content's encoded bytes (one per UTF-16 code unit), then NUL |
| UdpPacker.PackNeedsId | Udp/UdpPacker.cs:82 | Reply, Msg, Err and Bye cannot be packed without an ID to send |
| UdpPacker.PackWithoutCase | Udp/UdpPacker.cs:19-38 | Auth, Join and Unknown have no case and pack to no bytes |
| UdpPacker.TextRoundTrip | Udp/UdpPacker.cs:58-72 | bounded, non-empty, NUL-free ASCII Msg and Err messages decode back to themselves, with the ID they were packed with |
| UdpPacker.ConfirmByeRoundTrip | Udp/UdpPacker.cs:114-124 | Confirm and Bye decode back to themselves with their IDs |
| UdpPacker.AuthDecodes | Udp/UdpPacker.cs:140-150 | an Auth datagram with three well-formed fields decodes to that Auth |
| UdpPacker.JoinDecodes | Udp/UdpPacker.cs:176-185 | a Join datagram with two well-formed fields decodes to that Join |
| UdpPacker.UnknownExactly | Udp/UdpPacker.cs:100-138 | a datagram of three or more bytes is Unknown exactly when its type is not one a client sends, or one of its type's fields, at any position, is unterminated, over its bound or empty |
| UdpPacker.FieldsOkCons | Udp/UdpPacker.cs:203-212 | fields are read in order: the first must be terminated, within its bound and non-empty, and the rest are read after its NUL |
| UdpPacker.AuthUnknownExactly | Udp/UdpPacker.cs:140-150 | the Auth parser yields Unknown exactly when the username, display name or secret is bad |
| UdpPacker.JoinUnknownExactly | Udp/UdpPacker.cs:176-185 | the Join parser yields Unknown exactly when the channel or display name is bad |
| UdpPacker.TextUnknownExactly | Udp/UdpPacker.cs:152-174 | the Msg and Err parsers yield Unknown exactly when the display name or content is bad |
| UdpPacker.BadFirstFieldIsUnknown | Udp/UdpPacker.cs:140-185 | a first field that is empty, too long or unterminated makes the datagram Unknown |
| UdpPacker.OverlongDisplayNameIsUnknown | Udp/UdpPacker.cs:152-162 | a 21-byte display name makes a Msg or Err Unknown |
| UdpPacker.TruncatedIsUnknown | Udp/UdpPacker.cs:134-137 | a datagram that ends inside its first field is Unknown, and nothing is thrown |
| UdpPacker.ForeignTypeIsUnknown | Udp/UdpPacker.cs:129-130 | any type byte a client does not send, Reply included, yields Unknown |
| TcpPacker.Pack | Tcp/TcpPacker.cs:11-52 | only Reply, Msg, Err and Bye pack; everything else throws ArgumentException; every packed line ends in CRLF |
| TcpPacker.Unpack | Tcp/TcpPacker.cs:56-82 | decoded messages carry no ID and are never Unknown; a BYE line with no earlier keyword is Bye; any other unknown line throws ArgumentException |
| TcpPacker.UnpackText | Tcp/TcpPacker.cs:66-73 | a line starting with MSG FROM or ERR FROM is parsed as Msg or Err, whatever follows |
| TcpPacker.TextRoundTrip | Tcp/TcpPacker.cs:105-123 | a trimmed display name and content holding neither "IS" nor the keyword come back unchanged from the packed line |
| TcpPacker.LinePieces | Tcp/TcpPacker.cs:107 | the non-empty pieces of a packed Msg or Err line are the blank-padded name and content |
| TcpPacker.TextFromPieces | Tcp/TcpPacker.cs:105-123 | a Msg or Err line carries its first two non-empty pieces, trimmed |
| TcpPacker.IsInsideNameTruncates | Tcp/TcpPacker.cs:105-113 | an "IS" inside a field is taken as the separator: the name "THIS" decodes as "TH" and the content is lost |
| TcpPacker.ByeRoundTrip | Tcp/TcpPacker.cs:48-52 | Bye packs to BYE CRLF and decodes back to Bye |
| TcpPacker.ForeignLine | Tcp/TcpPacker.cs:78-81 | a line whose first character starts no keyword makes Unpack throw |
| TcpPacker.ReplyNotAccepted | Tcp/TcpPacker.cs:29-34 | a packed Reply is not a line the server decodes: Unpack throws on it |
| TcpPacker.AuthTokens | Tcp/TcpPacker.cs:84-93 | Auth takes tokens 1, 3 and 5 of the blank-separated line and ignores tokens 2 and 4 |
| TcpPacker.AuthTooShort | Tcp/TcpPacker.cs:86-91 | an Auth line with fewer than six tokens makes Unpack throw |
| TcpPacker.JoinTokens | Tcp/TcpPacker.cs:95-103 | Join takes tokens 1 and 3; fewer than four tokens throw |
| Text.LastIndexOf | Tcp/TcpServer.cs:101 | never below -1; -1 exactly when the text does not occur (both directions); otherwise an occurrence with none after it |
| Text.RemoveEmpty | Tcp/TcpServer.cs:107 | the filtered pieces are non-empty, no more numerous than before, and a string is among them exactly when it is a non-empty input piece |
| Text.RemoveEmptyOne | Tcp/TcpServer.cs:107 | a single piece is kept exactly when it is non-empty |
| Text.RemoveEmptyAppend | Tcp/TcpServer.cs:107 | filtering distributes over concatenation; with RemoveEmptyOne this fixes the filter as keeping the non-empty pieces in order |
| Text.Trim | Tcp/TcpPacker.cs:110-111 | the result is a slice of the input with no white space at either end, and everything cut off on either side is white space |
| Text.TrimPadded | Tcp/TcpPacker.cs:110 | trimming a trimmed name padded with one blank on each side gives back the name |
| Text.SplitNoMatch | Tcp/TcpPacker.cs:107 | a text in which no separator occurs splits into itself |
| Text.SplitJoin | Tcp/TcpPacker.cs:107 | splitting a + sep + b splits a and b independently when no separator straddles the join |
| Text.SplitUnwords | Tcp/TcpPacker.cs:86 | splitting blank-joined words without blanks gives the words back |
| Framing.Lines | Tcp/TcpServer.cs:107 | the lines of a text are all non-empty |
| Framing.FrameCut | Tcp/TcpServer.cs:100-122 | without CRLF nothing is complete and the buffer stays; otherwise buffer = complete text + CRLF + fragment, the fragment holds no CRLF, and the lines are those of the complete text |
| Framing.FrameOf | Tcp/TcpServer.cs:101-122 | the cut is unique: text + CRLF + a CRLF-free fragment frames into the text's lines and that fragment |
| Framing.LinesJoin | Tcp/TcpServer.cs:107 | a CRLF between two texts joins their lines |
| Framing.EmptyLineDropped | Tcp/TcpServer.cs:107 | consecutive CRLFs produce no extra line |
| Framing.LineAlone | Tcp/TcpServer.cs:107 | a non-empty text without CRLF is one line |
| Framing.FrameChunks | Tcp/TcpServer.cs:83-85 | framing a, then its fragment + b, gives the same lines and fragment as framing a + b at once |
| TcpServer.UnpackLines | Tcp/TcpServer.cs:109-115 | no more messages are queued than there are lines |
| TcpServer.UnpackLinesEach | Tcp/TcpServer.cs:109-115 | each queued message decodes the line at its position; without failure all lines are queued; a failure is the error of the first line not queued |
| TcpServer.UnpackLinesAppend | Tcp/TcpServer.cs:109-115 | decoding a + b decodes a, then b unless a failed |
| TcpServer.EnqueueLines | Tcp/TcpServer.cs:109-115 | the loop queues untagged envelopes for exactly the decoded messages, in order, and returns the first decoding error |
| TcpServer.ProcessReceivedData | Tcp/TcpServer.cs:98-126 | queues the decoded complete lines; after success the buffer is the fragment after the last CRLF; after a failure it is unchanged |
| TcpServer.NoLineNoChange | Tcp/TcpServer.cs:100-104 | without CRLF nothing is queued and the buffer is unchanged |
| TcpServer.NothingLost | Tcp/TcpServer.cs:101-122 | after a successful pass, buffer = complete text + CRLF + kept fragment, the fragment has no CRLF, and the queued messages decode the complete text |
| TcpServer.ReadChunk | Tcp/TcpServer.cs:82-85 | one read appends to the buffer, which is then processed as above |
| TcpServer.ReceiveStep | Tcp/TcpServer.cs:76-85 | one read either stops the loop with the outcome Listen gives, or queues its messages and leaves the rest of the loop as Listen continues it |
| TcpServer.ListenNext | Tcp/TcpServer.cs:76-85 | a 0-byte read closes, a failed read fails, and a chunk queues its messages and continues unless decoding failed |
| TcpServer.Receive | Tcp/TcpServer.cs:74-86 | the read loop queues exactly the messages of the specification Listen and ends as Listen says |
| TcpServer.ListenClient | Tcp/TcpServer.cs:66-93 | whatever ends the loop, the user is disconnected: unregistered, its envelopes tagged, its leave notice posted unless cancelled; a failure is rethrown |
| TcpServer.ListenWhole | Tcp/TcpServer.cs:74-86 | over a connection the peer closes, the queued messages decode the complete lines of everything received, however the stream was cut into reads |
| TcpChatServer.ProcessReceivedData | Tcp/TcpChatServer.cs:146-169 | queues the raw complete lines, in order, and keeps the fragment after the last CRLF; a buffer without CRLF is left alone |
| TcpChatServer.ReadChunk | Tcp/TcpChatServer.cs:123-126 | one read appends to the buffer, which is then processed |
| TcpChatServer.ReceivedNext | Tcp/TcpChatServer.cs:116-126 | a non-chunk read stops the loop, and a chunk queues its lines and continues |
| TcpChatServer.Receive | Tcp/TcpChatServer.cs:114-127 | the read loop queues exactly the lines of the specification Received |
| TcpChatServer.ListenClient | Tcp/TcpChatServer.cs:106-144 | afterwards the client is closed and its key is no longer registered |
| TcpChatServer.ReceivedWhole | Tcp/TcpChatServer.cs:114-127 | over a connection the peer closes, the queued lines are the complete lines of everything received, however it was cut into reads |
| TcpChatServer.ReceivedLines | Tcp/TcpChatServer.cs:154 | every queued line is non-empty |
| TcpChatServer.RawQueue.Enqueue | Tcp/TcpChatServer.cs:158 | appends one envelope |
| Queues.ClientMessageQueue.constructor | Client/ClientMessageQueue.cs:9 | the queue starts empty, within its bound |
| Queues.ClientMessageQueue.Add | Tcp/TcpServer.cs:114 | appends one untagged envelope and keeps the queue within 10000 |
| Queues.ClientMessageQueue.Take | Client/ClientMessageProcessor.cs:13 | removes and returns the oldest envelope |
| Queues.ClientMessageQueue.TagUserMessages | Client/ClientMessageQueue.cs:16-25 | the queue becomes Tagged(old queue, user, tag) |
| Queues.TaggedAll | Client/ClientMessageQueue.cs:20-23 | after tagging, every envelope of the user carries the tag |
| Queues.TaggedIdempotent | Client/ClientMessageQueue.cs:16-24 | tagging twice with the same arguments is tagging once |
| Queues.ChatMessagesQueue.constructor | Chat/ChatMessagesQueue.cs:9 | the job queue starts empty, within its bound of 10000 |
| Queues.ChatMessagesQueue.Add | Client/ClientMessageProcessor.cs:81 | once cancellation has been requested, throws OperationCanceledException and adds nothing; otherwise appends one job and keeps the queue within 10000 |
| Queues.ChatMessagesQueue.Take | Chat/ChatMessagePrinter.cs:19 | removes and returns the oldest job, keeping the bound |
| Registry.ConnectedUsers.AddUser | Chat/ConnectedUsers.cs:12-15 | an absent key gets the user; a present key keeps its entry; other keys are untouched; TryGetUser then finds the user now under the key |
| Registry.ConnectedUsers.RemoveUser | Chat/ConnectedUsers.cs:18-29 | true and deleted exactly when present, so a second removal answers false; TryGetUser then finds nothing; a null key (where the dictionary throws) answers true and changes nothing |
| Registry.ConnectedUsers.TryGetUser | Chat/ConnectedUsers.cs:32-35 | finds a user exactly when the key is registered, and it is the registered one |
| Registry.ChatUsers.AddUser | Chat/ChatUsers.cs:11-14 | an absent key gets the user; a present key keeps its entry; other keys are untouched; TryGetUser then finds the user now under the key |
| Registry.ChatUsers.RemoveUser | Common/ChatUsers.cs:21-24 | true exactly when the key was present, so a second removal answers false; afterwards TryGetUser finds nothing under it |
| Registry.ChatUsers.TryGetUser | Chat/ChatUsers.cs:23-26 | finds a user exactly when the key is registered |
| Users.ChatUser.constructor | Udp/UdpUser.cs:21-23 | ID counter 0 and no received IDs; the initial Start state, empty identity and "default" channel are assumed (see Left out) |
| Users.ChatUser.UpdateUserDetails | Client/ClientMessageProcessor.cs:64 | sets username, display name and secret, and nothing else |
| Users.ChatUser.GetMessageIdToSend | Udp/UdpUser.cs:66-72 | UDP returns the counter and advances it, wrapping at 65536; TCP returns null and changes nothing |
| Users.ChatUser.SetLastReceivedMessageId | Udp/UdpUser.cs:43-64 | records the ID; HasReceivedMessageId is then true for it and unchanged for every other ID |
| Users.ChatUser.LeaveNoticesIn | Udp/UdpUser.cs:143-147 | a leave notice, skipping the user, exactly when name and channel are non-empty, not cancelled, and (UDP only) the state is not Start |
| Users.ChatUser.WaitForConfirmation | Udp/UdpUser.cs:119-137 | takes the oldest Confirm, if any, and succeeds exactly when its ID is the awaited one; a mismatch is consumed |
| Users.ChatUser.SendAttempt | Udp/UdpUser.cs:90-112 | one attempt sends the datagram unless the socket fails, and agrees step by step with the specification RunFrom |
| Users.ChatUser.Retransmit | Udp/UdpUser.cs:86-115 | the loop's result, Confirm queue and datagrams are those of RunFrom, with the same datagram every time |
| Users.ChatUser.SendMessageWithConfirmation | Udp/UdpUser.cs:82-116 | one ID taken from the counter and one packed datagram for every attempt; a packing failure escapes before any send |
| Users.ChatUser.SendMessage | Tcp/TcpUser.cs:20-36 | what goes on the wire is Sent: TCP writes the packed text only while connected, and packing and write failures escape; UDP sends the packed datagram once per attempt of the RunFrom run; UDP (Udp/UdpUser.cs:74-80) disconnects the user exactly when no Confirm was matched, otherwise registry and queues are unchanged |
| Users.ChatUser.ClientDisconnect | Tcp/TcpUser.cs:37-64 | unregisters the end point, tags the queued envelopes DISCONNECTED and posts the leave notice LeaveNoticesIn gives; TCP also closes the connection, and UDP (Udp/UdpUser.cs:138-150) also requires a state other than Start for its notice |
| Reliability.SendsBounded | Udp/UdpUser.cs:88-113 | at most RetransmissionCount + 1 datagrams, and at most one Confirm taken per datagram |
| Reliability.ConfirmedByMatch | Udp/UdpUser.cs:119-137 | confirmed exactly when the last Confirm taken carries the awaited ID; every earlier one taken was a mismatch |
| Reliability.ConfirmsConserved | Udp/UdpUser.cs:123 | Confirms leave the queue only from the front: the queue at the start is a prefix of those taken followed by those left |
| Reliability.NotIpSendsNothing | Udp/UdpUser.cs:93-97 | a destination that is not an IP end point gets nothing and the send fails |
| Reliability.Exhausted | Udp/UdpUser.cs:88-115 | when every send goes out and no matching Confirm arrives, all RetransmissionCount + 1 attempts send and the send fails |
| Reliability.ConfirmWaiting | Udp/UdpUser.cs:102-105 | a matching Confirm already queued confirms the first successful send at once |
| Processor.ProcessClientMessage | Client/ClientMessageProcessor.cs:27-58 | an untracked or tagged envelope changes nothing; otherwise the user's state and identity change as the handler Dispatch selects, only Join and Unknown let a send failure escape, with cancellation requested Msg and Join throw OperationCanceledException and Auth may, a cancelled Join leaves name and channel as they were, and the client gets exactly the handler's reply, Err or Bye (Sent), or nothing for Msg and Bye |
| Processor.HandleAuthMessage | Client/ClientMessageProcessor.cs:61-82 | identity set and Open; Reply 1 "Successfully authenticated", referring to the Auth's ID, is Sent; if the reply throws, the user is disconnected and nothing is announced; otherwise exactly one join notice goes to the channel, skipping the user, unless cancellation has been requested, when that post throws OperationCanceledException and nothing is announced |
| Processor.HandleMsgMessage | Client/ClientMessageProcessor.cs:85-90 | adopts the message's display name and queues it to the user's channel, skipping the sender; with cancellation requested the name is still adopted but the post throws OperationCanceledException and nothing is queued; state unchanged and nothing sent to the client |
| Processor.HandleJoinMessage | Client/ClientMessageProcessor.cs:93-106 | leave notice with the old name to the old channel, then the switch, then a join notice to the new channel skipping nobody, then the reply "Successfully joined <channel>." referring to the Join's ID is Sent; with cancellation requested the first post throws OperationCanceledException and nothing at all changes |
| Processor.HandleErrMessage | Client/ClientMessageProcessor.cs:109-124 | a best-effort Bye is Sent and its failure swallowed, then End and disconnect |
| Processor.HandleUnknownMessage | Client/ClientMessageProcessor.cs:127-135 | Err "Invalid message OR state." is Sent, then End and disconnect; a failing send escapes before any change |
| Processor.HandleByeMessage | Client/ClientMessageProcessor.cs:138-142 | End, unregistered, envelopes tagged, leave notice posted, nothing sent to the client |
| Processor.ErrAndByeAnyState | Client/ClientMessageProcessor.cs:48-53 | Err and Bye are handled in every state |
| Processor.Rejected | Client/ClientMessageProcessor.cs:37-57 | a pair is rejected exactly when it is not Auth in Start, Msg or Join in Open, Err or Bye |
| Processor.Transitions | Client/ClientMessageProcessor.cs:37-57 | Auth opens; Msg and Join keep the state; Err, Bye and an Unknown whose send succeeds end the session |
| Printer.PrintMessageToChat | Chat/ChatMessagePrinter.cs:30-42 | the sends are exactly Deliveries: one per registered end point that passes the filter |
| Printer.PrintMessages | Chat/ChatMessagePrinter.cs:13-28 | jobs are handled one at a time in take order, and job i yields the deliveries of the i-th queued job; cancellation stops before the next take |
| Printer.DeliveredExactly | Chat/ChatMessagePrinter.cs:34-40 | exactly the Open members of the channel other than the ignored user receive the unchanged message |
| Printer.IgnoredNeverReceives | Chat/ChatMessagePrinter.cs:36 | the ignored user never receives the job |
| Printer.NobodyIgnored | Chat/ChatMessagePrinter.cs:36 | a job that ignores nobody reaches every Open member of its channel |

## Left out

- Socket I/O is not modelled. Reads are a `ReadEvent` sequence. A TCP write is an append to `stream` plus a write-failure flag. A UDP send is an append to `datagrams` plus a per-attempt failure flag.
- Text encodings: each TCP read arrives as text. The per-read UTF-8 decoding of `Tcp/TcpServer.cs:82` is not modelled. UDP ASCII encoding works per UTF-16 code unit as in .NET: a character outside the Basic Multilingual Plane becomes two '?' bytes, and decoding maps bytes above 0x7F to '?'.
- Concurrency is not modelled. The model covers the blocking queues, `Task.Run`, `Task.WhenAll`, locks and the concurrent dictionaries sequentially. Both queues are created with a bound of 10000. A full queue would block, so each `Add` requires room, and the handlers require room for the jobs they post.
- Cancellation is a boolean, fixed for the whole call. It guards the leave notices and the printer, and makes the job queue's `Add` throw `OperationCanceledException`. A token cancelled part-way through a handler, between two posts, is not modelled. For the TCP read loops cancellation is the reads running out.
- Timing: `ConfirmationTimeout` and the delays after failed sends are not modelled. What arrives during a wait is the per-attempt `arrivals` oracle. Arrivals are queued at the start of their attempt.
- `RetransmissionCount` and the other settings are parameters. `Common/ChatSettings.cs` is not part of this model.
- The `CheckMessageQueueAsync` take-and-process loop of `Client/ClientMessageProcessor.cs:7-25` is left out. Its body is `ProcessClientMessage` applied to each taken envelope.
- Processor.ProcessClientMessage: its contract states the state, identity and send effects. The registry and queue effects are stated by the handler methods it calls.
- Processor.ProcessClientMessage: the registry it consults is keyed by end point in the model. As written, `Client/ClientMessageProcessor.cs:29` passes the sender's `EndPoint` to `Chat/ChatUsers.cs:23`, which takes a `string`, so the call does not compile. No server registers users there: `Tcp/TcpServer.cs:49` registers only in `ConnectedUsers`. Disconnects remove the user only from `ConnectedUsers` (`Tcp/TcpUser.cs:46`, `Udp/UdpUser.cs:140`). So in the model, a user whose session ended still passes the lookup in this registry.
- TcpPacker.Unpack: the keyword tests of `Tcp/TcpPacker.cs:58-74` use culture-sensitive `StartsWith`, which skips ignorable characters such as U+00AD. The model compares ordinally, so on "\u00ADBYE" the source returns Bye while the model throws `ArgumentException`.
- TcpChatServer.ProcessReceivedData: `Tcp/TcpChatServer.cs:149` calls culture-sensitive `LastIndexOf("\r\n")`, which would also match CR, an ignorable character, LF. The model searches ordinally, so it does not cut such a buffer there. The split at `Tcp/TcpChatServer.cs:154` is ordinal in both.
- TcpPacker.Pack: the source returns the UTF-8 bytes of the line (`Tcp/TcpPacker.cs:33-51`). The model returns the line as text. The encoding step is not modelled.
- Printer.PrintMessageToChat: returns the set of (end point, message) deliveries rather than performing the sends. Send failures during a broadcast are not modelled.
- Envelopes are values, so aliasing between an envelope in the queue and one held elsewhere is not captured. Tagging rewrites the queue's copies.
- Logging (`Logger.LogIo`), `ClientMessageTracker`, `Program.cs` and argument parsing are not part of this model.
- `Udp/UdpServer.cs` does not compile, and it is not part of this model. Inbound de-duplication and re-confirmation live there.
- `Chat/AbstractChatUser.cs` is stale and is not part of this model. The user's fields are taken from their uses.
- Users.ChatUser.constructor: the initial state Start, the empty identity strings and the initial channel "default" are assumed, because no source file in this model sets them. The initial channel decides where the join notice of `HandleAuthMessage` goes.
- `Tcp/TcpChatUser.cs` is reduced to a connection key and an open flag.
- Users.ChatUser.ClientDisconnect: the catch of `ArgumentNullException` in `Tcp/TcpUser.cs:48-52` is dead code and is not modelled. The end point is never null there, and `ConnectedUsers.RemoveUser` catches everything anyway.
