/**
 The broker's in-memory state and its three request handlers, `Send`,
 `Receive` and `Acknowledge`, plus the liveness probe `Check`
 (MessageBroker/MessageBroker/Controllers/MessageController.cs).
 The state is one queue of pending messages per channel key and one
 "next expected sequenceId" cursor per channel key. Handlers run one at a
 time (the controller's global lock); each reports which background save it
 schedules instead of running it.
 */
module Broker {
  import opened Contract
  import opened ChannelQueue

  datatype State = State(queues: map<string, PQueue>, cursors: map<string, int32>)

  /** The state before any message has arrived. */
  const Empty := State(map[], map[])

  /** A missing queue behaves like an empty one in every handler. */
  function QueueIn(queues: map<string, PQueue>, key: string): PQueue
  {
    if key in queues then queues[key] else []
  }

  function QueueAt(b: State, key: string): PQueue
  {
    QueueIn(b.queues, key)
  }

  /** A missing cursor reads as 1, the value Receive installs for it. */
  function CursorAt(b: State, key: string): int32
  {
    if key in b.cursors then b.cursors[key] else 1
  }

  /** Every queue holds only messages of its own channel. */
  predicate OnOwnChannels(queues: map<string, PQueue>)
  {
    forall key, m :: key in queues && m in queues[key] ==> KeyOf(m) == key
  }

  /** Every queue has at most one message per sequenceId, and holds only messages of its own channel. */
  predicate Valid(b: State)
  {
    && (forall key :: key in b.queues ==> Ordered(b.queues[key]))
    && OnOwnChannels(b.queues)
  }

  /** Which fire-and-forget save (`Task.Run(SaveMessages)`, `Task.Run(SaveSequenceTracker)`) a handler schedules. */
  datatype Scheduled = NoSave | MessagesSave | TrackerSave

  datatype SendReply = Stored | DuplicateIgnored
  datatype ReceiveReply = Delivered(msg: Message) | NoContent
  datatype AckReply = Acknowledged | NoMessages | NotFound

  /** A handler's effect: the next state, the reply, and the save it schedules. */
  datatype Step<R> = Step(next: State, reply: R, save: Scheduled)

  /** `Send`: enqueue the message unless its sequenceId is already pending on its channel. */
  function Send(b: State, m: Message): (r: Step<SendReply>)
    ensures r.reply == DuplicateIgnored <==> HasId(QueueAt(b, KeyOf(m)), m.sequenceId)
    ensures r.reply == DuplicateIgnored ==> r.next == b && r.save == NoSave
    ensures r.reply == Stored ==> r.save == MessagesSave && KeyOf(m) in r.next.queues
    ensures r.reply == Stored ==>
      multiset(QueueAt(r.next, KeyOf(m))) == multiset(QueueAt(b, KeyOf(m))) + multiset{m}
    ensures r.next.cursors == b.cursors
    ensures r.next.queues.Keys <= b.queues.Keys + {KeyOf(m)}
    ensures forall k :: k != KeyOf(m) ==> QueueAt(r.next, k) == QueueAt(b, k)
  {
    var key := KeyOf(m);
    var q := QueueAt(b, key);
    if HasId(q, m.sequenceId) then Step(b, DuplicateIgnored, NoSave)
    else Step(b.(queues := b.queues[key := Insert(q, m)]), Stored, MessagesSave)
  }

  /** Send keeps every queue free of repeated sequenceIds and on its own channel. */
  lemma SendValid(b: State, m: Message)
    requires Valid(b)
    ensures Valid(Send(b, m).next)
  {
    var key := KeyOf(m);
    var q := QueueAt(b, key);
    if !HasId(q, m.sequenceId) {
      InsertOrdered(q, m);
      var q' := Insert(q, m);
      assert multiset(q') == multiset(q + [m]);
      SubContents(q + [m], q');
    }
  }

  /**
   `Receive`: look at the least pending message of the channel and hand it
   out only when it is the one the cursor expects; the queue is never changed.
   */
  function Receive(b: State, producerId: string, consumerId: string): (r: Step<ReceiveReply>)
    ensures r.next.queues == b.queues
    ensures QueueAt(b, Key(producerId, consumerId)) == [] ==> r.reply == NoContent && r.next == b
    ensures r.reply.Delivered? <==>
      var q := QueueAt(b, Key(producerId, consumerId));
      |q| > 0 && Peek(q).sequenceId == CursorAt(b, Key(producerId, consumerId))
    ensures r.reply.Delivered? ==>
      && r.reply.msg in QueueAt(b, Key(producerId, consumerId))
      && (forall x :: x in QueueAt(b, Key(producerId, consumerId)) ==> r.reply.msg.sequenceId <= x.sequenceId)
      && r.reply.msg.sequenceId == CursorAt(b, Key(producerId, consumerId))
      && CursorAt(r.next, Key(producerId, consumerId)) == Inc(CursorAt(b, Key(producerId, consumerId)))
      && r.save == TrackerSave
    ensures r.reply.NoContent? ==>
      CursorAt(r.next, Key(producerId, consumerId)) == CursorAt(b, Key(producerId, consumerId)) && r.save == NoSave
    ensures r.next.cursors.Keys <= b.cursors.Keys + {Key(producerId, consumerId)}
    ensures forall k :: k != Key(producerId, consumerId) && k in b.cursors ==>
      k in r.next.cursors && r.next.cursors[k] == b.cursors[k]
  {
    var key := Key(producerId, consumerId);
    if key !in b.queues || |b.queues[key]| == 0 then Step(b, NoContent, NoSave)
    else
      // a channel seen for the first time gets cursor 1, whatever the outcome
      var expected := CursorAt(b, key);
      var cursors := b.cursors[key := expected];
      var head := Peek(b.queues[key]);
      if head.sequenceId == expected then
        Step(b.(cursors := cursors[key := Inc(expected)]), Delivered(head), TrackerSave)
      else
        Step(b.(cursors := cursors), NoContent, NoSave)
  }

  /** `Check`: the liveness probe always answers OK. */
  function Check(b: State): (r: Step<bool>)
    ensures r.reply && r.next == b && r.save == NoSave
  {
    Step(b, true, NoSave)
  }

  /** `Acknowledge`: drop the messages carrying the acknowledged sequenceId from the channel. */
  function Acknowledge(b: State, a: Ack): (r: Step<AckReply>)
    ensures r.next.cursors == b.cursors
    ensures r.next.queues.Keys == b.queues.Keys
    ensures r.reply == NoMessages <==> QueueAt(b, Key(a.producerId, a.consumerId)) == []
    ensures r.reply == Acknowledged <==> HasId(QueueAt(b, Key(a.producerId, a.consumerId)), a.sequenceId)
    ensures r.reply != Acknowledged ==> r.next == b && r.save == NoSave
    ensures r.reply == Acknowledged ==> r.save == MessagesSave
    ensures forall x :: multiset(QueueAt(r.next, Key(a.producerId, a.consumerId)))[x] ==
                        if x.sequenceId == a.sequenceId then 0 else multiset(QueueAt(b, Key(a.producerId, a.consumerId)))[x]
    ensures forall k :: k != Key(a.producerId, a.consumerId) ==> QueueAt(r.next, k) == QueueAt(b, k)
  {
    var key := Key(a.producerId, a.consumerId);
    if key !in b.queues || |b.queues[key]| == 0 then Step(b, NoMessages, NoSave)
    else if HasId(b.queues[key], a.sequenceId) then
      RemoveIdContents(b.queues[key], a.sequenceId);
      Step(b.(queues := b.queues[key := RemoveId(b.queues[key], a.sequenceId)]), Acknowledged, MessagesSave)
    else
      assert forall x :: x in b.queues[key] ==> x.sequenceId != a.sequenceId;
      Step(b, NotFound, NoSave)
  }

  /** Acknowledge keeps every queue free of repeated sequenceIds and on its own channel. */
  lemma AcknowledgeValid(b: State, a: Ack)
    requires Valid(b)
    ensures Valid(Acknowledge(b, a).next)
  {
    var key := Key(a.producerId, a.consumerId);
    if key in b.queues && HasId(b.queues[key], a.sequenceId) {
      RemoveIdOrdered(b.queues[key], a.sequenceId);
      SubContents(b.queues[key], RemoveId(b.queues[key], a.sequenceId));
    }
  }

  /** A repeated Acknowledge finds nothing and changes nothing. */
  lemma AcknowledgeIdempotent(b: State, a: Ack)
    ensures Acknowledge(Acknowledge(b, a).next, a).reply != Acknowledged
    ensures Acknowledge(Acknowledge(b, a).next, a).next == Acknowledge(b, a).next
  {
    var key := Key(a.producerId, a.consumerId);
    if key in b.queues && HasId(b.queues[key], a.sequenceId) {
      RemoveIdRemoves(b.queues[key], a.sequenceId);
    }
  }

  /** A second Send with the same channel and sequenceId is ignored: the first payload stays. */
  lemma SendDuplicateKeepsFirst(b: State, m1: Message, m2: Message)
    requires KeyOf(m1) == KeyOf(m2) && m1.sequenceId == m2.sequenceId
    ensures Send(Send(b, m1).next, m2).reply == DuplicateIgnored
    ensures Send(Send(b, m1).next, m2).next == Send(b, m1).next
    ensures Send(b, m1).reply == Stored ==> m1 in QueueAt(Send(Send(b, m1).next, m2).next, KeyOf(m1))
  {
    var s := Send(b, m1);
    var q := QueueAt(s.next, KeyOf(m1));
    if s.reply == Stored {
      assert m1 in multiset(q);
      var i :| 0 <= i < |q| && q[i] == m1;
      assert HasId(q, m2.sequenceId);
    }
  }
}
