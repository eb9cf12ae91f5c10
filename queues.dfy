/**
 * The two work queues: the inbound queue of client envelopes waiting for the
 * message processor, and the chat queue of broadcast jobs waiting for the
 * printer. Both are generic in the user type, which is compared by identity.
 */
module Queues {
  import opened Wrappers
  import opened ChatProtocol
  import opened ClientMessages

  /** `ClientMessageEnvelope`: a received message, its sender and a tag ("" when untagged). */
  datatype Envelope<U> = Envelope(user: U, message: ClientMessage, tag: string)

  /** `ChatMessage`: a Msg to show in a channel, skipping `ignoredUser` when present. */
  datatype ChatMessage<U> = ChatMessage(ignoredUser: Option<U>, channelId: string, message: ClientMessage)

  /** The tag disconnecting users put on their pending envelopes. */
  const Disconnected := "DISCONNECTED"

  /** The bound both queues are created with. */
  const Capacity := 10000

  /** The envelopes of `envelopes`, with those of `user` re-tagged `tag`. */
  function Tagged<U(==)>(envelopes: seq<Envelope<U>>, user: U, tag: string): (r: seq<Envelope<U>>)
    ensures |r| == |envelopes|
  {
    seq(|envelopes|, i requires 0 <= i < |envelopes| =>
      if envelopes[i].user == user then envelopes[i].(tag := tag) else envelopes[i])
  }

  /** `ClientMessageQueue`: the bounded inbound queue. */
  class ClientMessageQueue<U(==)> {
    var envelopes: seq<Envelope<U>>

    predicate Valid()
      reads this
    {
      |envelopes| <= Capacity
    }

    constructor ()
      ensures Valid() && envelopes == []
    {
      envelopes := [];
    }

    /** `Add`: appends an untagged envelope; a full queue would block, so room is required. */
    method Add(user: U, message: ClientMessage)
      requires Valid() && |envelopes| < Capacity
      modifies this
      ensures Valid()
      ensures envelopes == old(envelopes) + [Envelope(user, message, "")]
    {
      envelopes := envelopes + [Envelope(user, message, "")];
    }

    /** `Take`: removes and returns the oldest envelope; an empty queue would block. */
    method Take() returns (e: Envelope<U>)
      requires Valid() && envelopes != []
      modifies this
      ensures Valid()
      ensures [e] + envelopes == old(envelopes)
    {
      e := envelopes[0];
      envelopes := envelopes[1..];
    }

    /** `TagUserMessages`: sets the tag of every queued envelope of `user`, in place. */
    method TagUserMessages(user: U, tag: string)
      requires Valid()
      modifies this
      ensures Valid()
      ensures envelopes == Tagged(old(envelopes), user, tag)
    {
      ghost var target := Tagged(envelopes, user, tag);
      var i := 0;
      while i < |envelopes|
        invariant 0 <= i <= |envelopes| == |target| == |old(envelopes)|
        invariant forall k :: 0 <= k < i ==> envelopes[k] == target[k]
        invariant forall k :: i <= k < |envelopes| ==> envelopes[k] == old(envelopes)[k]
      {
        if envelopes[i].user == user {
          envelopes := envelopes[i := envelopes[i].(tag := tag)];
        }
        i := i + 1;
      }
      assert envelopes == target;
    }
  }

  /** `ChatMessagesQueue`: the bounded queue of broadcast jobs. */
  class ChatMessagesQueue<U> {
    var items: seq<ChatMessage<U>>

    predicate Valid()
      reads this
    {
      |items| <= Capacity
    }

    constructor ()
      ensures Valid() && items == []
    {
      items := [];
    }

    /**
     * `Add(item, cancellationToken)`: once cancellation has been requested it
     * throws before adding anything; otherwise it appends the job. A full
     * queue would block, so room is required.
     */
    method Add(item: ChatMessage<U>, cancelled: bool) returns (thrown: Option<Exception>)
      requires Valid() && (!cancelled ==> |items| < Capacity)
      modifies this
      ensures Valid()
      ensures thrown == (if cancelled then Some(OperationCanceledException) else None)
      ensures items == old(items) + (if cancelled then [] else [item])
    {
      if cancelled {
        return Some(OperationCanceledException);
      }
      items := items + [item];
      return None;
    }

    /** `Take`: removes and returns the oldest job; an empty queue would block. */
    method Take() returns (item: ChatMessage<U>)
      requires Valid() && items != []
      modifies this
      ensures Valid()
      ensures [item] + items == old(items)
    {
      item := items[0];
      items := items[1..];
    }
  }

  // ------------------------------------------------------------ properties

  /** Tagging twice with the same arguments is tagging once. */
  lemma TaggedIdempotent<U>(envelopes: seq<Envelope<U>>, user: U, tag: string)
    ensures Tagged(Tagged(envelopes, user, tag), user, tag) == Tagged(envelopes, user, tag)
  {
  }

  /** After tagging, every envelope of `user` carries `tag`. */
  lemma TaggedAll<U>(envelopes: seq<Envelope<U>>, user: U, tag: string)
    ensures forall e :: e in Tagged(envelopes, user, tag) && e.user == user ==> e.tag == tag
  {
    var r := Tagged(envelopes, user, tag);
    forall e | e in r && e.user == user
      ensures e.tag == tag
    {
      var i :| 0 <= i < |r| && r[i] == e;
    }
  }
}
