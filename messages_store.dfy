/**
 * The in-memory conversation log and pending-reply queue (`InMemoryMessagesStore`).
 *
 * The log maps each repository id to the messages exchanged so far, oldest first; a
 * repository's list only grows, until it is deleted as a whole. The queue holds the brain
 * replies that wait for the dispatcher, each with the context it must be handled in,
 * shared by all repositories and first-in first-out.
 */
module MessagesStore {
  import opened Wrappers

  datatype BrainMessageType = SYSTEM | USER | ASSISTANT

  /** `BrainMessage`: who speaks, and what. */
  datatype BrainMessage = BrainMessage(messageType: BrainMessageType, content: string)

  /**
   * `MessageContext`: the repository a reply belongs to, and the hash of the file the
   * brain was looking at when it replied ("" when no file was in flight).
   */
  datatype MessageContext = MessageContext(repositoryId: string, fileHash: string)

  /** A queued reply with its context (the `Pair` the store queues). */
  datatype PendingMessage = PendingMessage(message: BrainMessage, context: MessageContext)

  /**
   * `copyMessagesWith`: the stored list (`None` for null) with `message` added at the end,
   * as a new list.
   */
  function CopyMessagesWith(messages: Option<seq<BrainMessage>>, message: BrainMessage): (r: seq<BrainMessage>)
    ensures |r| >= 1 && r[|r| - 1] == message
    ensures r[..|r| - 1] == messages.GetOr([])
  {
    if messages.None? then [message] else messages.value + [message]
  }

  /** The log after `storeMessage(repositoryId, message)`. */
  function StoreInLog(log: map<string, seq<BrainMessage>>, repositoryId: string, message: BrainMessage)
    : (r: map<string, seq<BrainMessage>>)
    ensures r.Keys == log.Keys + {repositoryId}
    ensures r[repositoryId] == Lookup(log, repositoryId).GetOr([]) + [message]
    ensures forall other :: other in log && other != repositoryId ==> r[other] == log[other]
  {
    log[repositoryId := CopyMessagesWith(Lookup(log, repositoryId), message)]
  }

  /** The log after `deleteMessages(repositoryId)`. */
  function DeleteFromLog(log: map<string, seq<BrainMessage>>, repositoryId: string)
    : (r: map<string, seq<BrainMessage>>)
    ensures r.Keys == log.Keys - {repositoryId}
    ensures forall other :: other in r ==> r[other] == log[other]
  {
    log - {repositoryId}
  }

  /** Deleting twice is the same as deleting once. */
  lemma DeleteIdempotent(log: map<string, seq<BrainMessage>>, repositoryId: string)
    ensures DeleteFromLog(DeleteFromLog(log, repositoryId), repositoryId) == DeleteFromLog(log, repositoryId)
  {
  }

  /** Storing for a repository with no list starts a one-element list. */
  lemma StoreStartsList(log: map<string, seq<BrainMessage>>, repositoryId: string, message: BrainMessage)
    requires repositoryId !in log
    ensures StoreInLog(log, repositoryId, message)[repositoryId] == [message]
  {
  }

  class InMemoryMessagesStore {
    /** `messages`: repository id to its conversation. */
    var messages: map<string, seq<BrainMessage>>
    /** `pendingMessagesWithContext`: head first. */
    var pendingMessagesWithContext: seq<PendingMessage>

    constructor ()
      ensures messages == map[] && pendingMessagesWithContext == []
    {
      messages := map[];
      pendingMessagesWithContext := [];
    }

    /** Appends `message` to the repository's list, creating it when absent. */
    method StoreMessage(repositoryId: string, message: BrainMessage)
      modifies this
      ensures messages == StoreInLog(old(messages), repositoryId, message)
      ensures pendingMessagesWithContext == old(pendingMessagesWithContext)
    {
      messages := messages[repositoryId := CopyMessagesWith(Lookup(messages, repositoryId), message)];
    }

    /** The repository's list, or `None` (null) when it has none. */
    method GetMessages(repositoryId: string) returns (r: Option<seq<BrainMessage>>)
      ensures r.Some? <==> repositoryId in messages
      ensures r.Some? ==> r.value == messages[repositoryId]
    {
      r := Lookup(messages, repositoryId);
    }

    /** Forgets the repository's whole conversation; nothing happens when there is none. */
    method DeleteMessages(repositoryId: string)
      modifies this
      ensures messages == DeleteFromLog(old(messages), repositoryId)
      ensures pendingMessagesWithContext == old(pendingMessagesWithContext)
    {
      messages := messages - {repositoryId};
    }

    /** Queues a reply at the tail; never blocks and never drops. */
    method StorePendingMessageWithContext(message: PendingMessage)
      modifies this
      ensures pendingMessagesWithContext == old(pendingMessagesWithContext) + [message]
      ensures messages == old(messages)
    {
      pendingMessagesWithContext := pendingMessagesWithContext + [message];
    }

    /**
     * Takes the reply at the head. The source blocks on an empty queue until a reply
     * arrives; here the caller waits for that before calling.
     */
    method AwaitNextPendingMessageWithContext() returns (next: PendingMessage)
      requires pendingMessagesWithContext != []
      modifies this
      ensures next == old(pendingMessagesWithContext)[0]
      ensures pendingMessagesWithContext == old(pendingMessagesWithContext)[1..]
      ensures messages == old(messages)
    {
      next := pendingMessagesWithContext[0];
      pendingMessagesWithContext := pendingMessagesWithContext[1..];
    }
  }

  /** One operation on the pending queue, as the agent issues them. */
  datatype QueueOp = Put(item: PendingMessage) | Take

  /** The items `ops` puts, in order. */
  function PutItems(ops: seq<QueueOp>): seq<PendingMessage>
  {
    if ops == [] then []
    else (if ops[0].Put? then [ops[0].item] else []) + PutItems(ops[1..])
  }

  /**
   * Runs `ops` on `queue`: what is left, and the items taken, in the order they were taken.
   * A take on an empty queue waits; in a run it takes nothing.
   */
  function RunQueue(queue: seq<PendingMessage>, ops: seq<QueueOp>): (seq<PendingMessage>, seq<PendingMessage>)
    decreases |ops|
  {
    if ops == [] then (queue, [])
    else
      var (next, taken) :=
        if ops[0].Put? then (queue + [ops[0].item], [])
        else if queue == [] then (queue, [])
        else (queue[1..], [queue[0]]);
      var (remaining, later) := RunQueue(next, ops[1..]);
      (remaining, taken + later)
  }

  /**
   * Replies leave in the order they entered: whatever mix of puts and takes runs, the
   * replies taken followed by those still queued are exactly the replies queued before
   * followed by the replies put, in order. No reply is lost, duplicated or overtaken.
   */
  lemma {:induction false} QueueIsFifo(queue: seq<PendingMessage>, ops: seq<QueueOp>)
    ensures RunQueue(queue, ops).1 + RunQueue(queue, ops).0 == queue + PutItems(ops)
    decreases |ops|
  {
    if ops != [] {
      if ops[0].Put? {
        QueueIsFifo(queue + [ops[0].item], ops[1..]);
        assert queue + [ops[0].item] + PutItems(ops[1..]) == queue + PutItems(ops);
      } else if queue == [] {
        QueueIsFifo(queue, ops[1..]);
      } else {
        QueueIsFifo(queue[1..], ops[1..]);
        var (remaining, later) := RunQueue(queue[1..], ops[1..]);
        assert [queue[0]] + later + remaining == [queue[0]] + (later + remaining);
        assert [queue[0]] + queue[1..] == queue;
      }
    }
  }
}
