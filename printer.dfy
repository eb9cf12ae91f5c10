/**
 * The chat printer: takes broadcast jobs one at a time, in queue order, and
 * hands each job's message to every registered user that is Open, sits in
 * the job's channel and is not the job's ignored user. Each delivery is a
 * pair of the recipient's end point and the unchanged message.
 */
module Printer {
  import opened Wrappers
  import opened ClientMessages
  import opened Registry
  import opened Queues
  import opened Users

  /** The filter of `PrintMessageToChat`. */
  predicate Eligible(user: ChatUser, job: ChatMessage<ChatUser>)
    reads user
  {
    Some(user) != job.ignoredUser && user.state == Open && user.channelId == job.channelId
  }

  /** The deliveries one job makes over the registered users. */
  function Deliveries(users: map<Endpoint, ChatUser>, job: ChatMessage<ChatUser>): set<(Endpoint, ClientMessage)>
    reads users.Values
  {
    set k | k in users && Eligible(users[k], job) :: (k, job.message)
  }

  /** `PrintMessageToChat`: one send per eligible registered end point. */
  method PrintMessageToChat(registry: ConnectedUsers<Endpoint, ChatUser>, job: ChatMessage<ChatUser>)
    returns (sent: set<(Endpoint, ClientMessage)>)
    ensures sent == Deliveries(registry.users, job)
  {
    sent := {};
    var pending := registry.users.Keys;
    while pending != {}
      invariant pending <= registry.users.Keys
      invariant sent == set k | k in registry.users.Keys - pending && Eligible(registry.users[k], job) :: (k, job.message)
      decreases pending
    {
      var k :| k in pending;
      var user := registry.users[k];
      if Some(user) != job.ignoredUser && user.state == Open && user.channelId == job.channelId {
        sent := sent + {(k, job.message)};
      }
      pending := pending - {k};
    }
  }

  /**
   * `PrintMessagesAsync`: drains the chat queue job by job; `log[i]` holds
   * the deliveries of the `i`-th job taken. A requested cancellation stops
   * the loop before the next take.
   */
  method PrintMessages(registry: ConnectedUsers<Endpoint, ChatUser>, chat: ChatMessagesQueue<ChatUser>, cancelled: bool)
    returns (log: seq<set<(Endpoint, ClientMessage)>>)
    requires chat.Valid()
    modifies chat
    ensures chat.Valid()
    ensures cancelled ==> log == [] && chat.items == old(chat.items)
    ensures !cancelled ==> chat.items == [] && |log| == |old(chat.items)|
    ensures forall i :: 0 <= i < |log| ==> log[i] == Deliveries(registry.users, old(chat.items)[i])
  {
    log := [];
    while !cancelled && chat.items != []
      invariant chat.Valid()
      invariant |log| + |chat.items| == |old(chat.items)|
      invariant chat.items == old(chat.items)[|log|..]
      invariant forall i :: 0 <= i < |log| ==> log[i] == Deliveries(registry.users, old(chat.items)[i])
      invariant cancelled ==> log == []
      decreases |chat.items|
    {
      var job := chat.Take();
      var sent := PrintMessageToChat(registry, job);
      log := log + [sent];
    }
  }

  // ------------------------------------------------------------ properties

  /** The ignored user never receives the job, under any end point. */
  lemma IgnoredNeverReceives(users: map<Endpoint, ChatUser>, job: ChatMessage<ChatUser>, k: Endpoint)
    requires k in users && job.ignoredUser == Some(users[k])
    ensures (k, job.message) !in Deliveries(users, job)
  {
  }

  /**
   * Exactly the Open members of the channel other than the ignored user
   * receive the job, each with the job's message unchanged.
   */
  lemma DeliveredExactly(users: map<Endpoint, ChatUser>, job: ChatMessage<ChatUser>, k: Endpoint, m: ClientMessage)
    ensures (k, m) in Deliveries(users, job) <==>
      k in users && m == job.message && users[k].state == Open && users[k].channelId == job.channelId &&
      job.ignoredUser != Some(users[k])
  {
  }

  /** A job that ignores nobody reaches every Open member of its channel. */
  lemma NobodyIgnored(users: map<Endpoint, ChatUser>, job: ChatMessage<ChatUser>, k: Endpoint)
    requires job.ignoredUser.None? && k in users && users[k].state == Open && users[k].channelId == job.channelId
    ensures (k, job.message) in Deliveries(users, job)
  {
  }
}
