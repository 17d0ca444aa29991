/**
 Ordering properties of the broker over whole runs: any interleaving of
 Send, Receive, Acknowledge and Check requests on any channels, handled one
 at a time as the controller's lock serialises them.
 */
module Delivery {
  import opened Contract
  import opened ChannelQueue
  import opened Broker

  datatype Request =
    | SendRequest(m: Message)
    | ReceiveRequest(producerId: string, consumerId: string)
    | AckRequest(a: Ack)
    | CheckRequest

  datatype Response =
    | SendResponse(send: SendReply)
    | ReceiveResponse(receive: ReceiveReply)
    | AckResponse(ack: AckReply)
    | CheckResponse

  /** Routes one request to its handler. */
  function Handle(b: State, req: Request): Step<Response>
  {
    match req
    case SendRequest(m) =>
      var s := Send(b, m); Step(s.next, SendResponse(s.reply), s.save)
    case ReceiveRequest(p, c) =>
      var s := Receive(b, p, c); Step(s.next, ReceiveResponse(s.reply), s.save)
    case AckRequest(a) =>
      var s := Acknowledge(b, a); Step(s.next, AckResponse(s.reply), s.save)
    case CheckRequest =>
      var s := Check(b); Step(s.next, CheckResponse, s.save)
  }

  /** The state after handling `reqs` in order. */
  function Run(b: State, reqs: seq<Request>): State
    decreases |reqs|
  {
    if |reqs| == 0 then b else Run(Handle(b, reqs[0]).next, reqs[1..])
  }

  /** Does `req` receive on channel `key`, and is it answered with a message? */
  predicate DeliversOn(b: State, req: Request, key: string)
  {
    && req.ReceiveRequest?
    && Key(req.producerId, req.consumerId) == key
    && Receive(b, req.producerId, req.consumerId).reply.Delivered?
  }

  /** The sequenceIds the run hands out on channel `key`, in order. */
  function Deliveries(b: State, reqs: seq<Request>, key: string): seq<int32>
    decreases |reqs|
  {
    if |reqs| == 0 then []
    else
      var head := if DeliversOn(b, reqs[0], key)
        then [Receive(b, reqs[0].producerId, reqs[0].consumerId).reply.msg.sequenceId]
        else [];
      head + Deliveries(Handle(b, reqs[0]).next, reqs[1..], key)
  }

  /** One request moves the cursor of `key` only by delivering on `key`, and then by one. */
  lemma HandleCursor(b: State, req: Request, key: string)
    ensures CursorAt(Handle(b, req).next, key) ==
            if DeliversOn(b, req, key) then Inc(CursorAt(b, key)) else CursorAt(b, key)
    ensures DeliversOn(b, req, key) ==>
            Receive(b, req.producerId, req.consumerId).reply.msg.sequenceId == CursorAt(b, key)
  {
  }

  /**
   The headline ordering guarantee: the deliveries on a channel carry the
   cursor's value, then one more, then one more, and so on, whatever else is
   sent, received or acknowledged meanwhile.
   */
  lemma {:induction false} DeliveriesConsecutive(b: State, reqs: seq<Request>, key: string)
    requires CursorAt(b, key) as int + |reqs| <= MaxInt32
    ensures |Deliveries(b, reqs, key)| <= |reqs|
    ensures forall i :: 0 <= i < |Deliveries(b, reqs, key)| ==>
                        Deliveries(b, reqs, key)[i] as int == CursorAt(b, key) as int + i
    ensures CursorAt(Run(b, reqs), key) as int == CursorAt(b, key) as int + |Deliveries(b, reqs, key)|
    decreases |reqs|
  {
    if |reqs| > 0 {
      var b' := Handle(b, reqs[0]).next;
      HandleCursor(b, reqs[0], key);
      DeliveriesConsecutive(b', reqs[1..], key);
    }
  }

  /** From a fresh broker every channel hands out 1, 2, 3, ... */
  lemma DeliveriesFromEmpty(reqs: seq<Request>, key: string)
    requires |reqs| < MaxInt32
    ensures forall i :: 0 <= i < |Deliveries(Empty, reqs, key)| ==> Deliveries(Empty, reqs, key)[i] as int == i + 1
  {
    DeliveriesConsecutive(Empty, reqs, key);
  }

  /** Handling any request keeps the state valid. */
  lemma HandleValid(b: State, req: Request)
    requires Valid(b)
    ensures Valid(Handle(b, req).next)
  {
    match req
    case SendRequest(m) => SendValid(b, m);
    case AckRequest(a) => AcknowledgeValid(b, a);
    case _ =>
  }

  lemma {:induction false} RunValid(b: State, reqs: seq<Request>)
    requires Valid(b)
    ensures Valid(Run(b, reqs))
    decreases |reqs|
  {
    if |reqs| > 0 {
      HandleValid(b, reqs[0]);
      RunValid(Handle(b, reqs[0]).next, reqs[1..]);
    }
  }

  /** `m` was handed out (the cursor is past it) but is still pending: the channel is stuck behind it. */
  predicate Blocked(b: State, key: string, m: Message)
  {
    m in QueueAt(b, key) && m.sequenceId < CursorAt(b, key)
  }

  /** Does `req` acknowledge sequenceId `id` on channel `key`? */
  predicate Acks(req: Request, key: string, id: int32)
  {
    req.AckRequest? && Key(req.a.producerId, req.a.consumerId) == key && req.a.sequenceId == id
  }

  /** The message just received blocks its channel (as long as the cursor did not wrap). */
  lemma DeliveredBlocks(b: State, producerId: string, consumerId: string)
    requires Receive(b, producerId, consumerId).reply.Delivered?
    requires CursorAt(b, Key(producerId, consumerId)) as int < MaxInt32
    ensures Blocked(Receive(b, producerId, consumerId).next, Key(producerId, consumerId),
                    Receive(b, producerId, consumerId).reply.msg)
  {
  }

  /** Only an Acknowledge of the blocking message unblocks the channel. */
  lemma HandleKeepsBlocked(b: State, req: Request, key: string, m: Message)
    requires Blocked(b, key, m)
    requires !Acks(req, key, m.sequenceId)
    ensures Blocked(Handle(b, req).next, key, m)
    ensures !DeliversOn(b, req, key)
  {
    match req
    case SendRequest(msg) => SendKeepsBlocked(b, msg, key, m);
    case AckRequest(a) => AckKeepsBlocked(b, a, key, m);
    case ReceiveRequest(p, c) => ReceiveKeepsBlocked(b, p, c, key, m);
    case CheckRequest =>
  }

  lemma SendKeepsBlocked(b: State, msg: Message, key: string, m: Message)
    requires Blocked(b, key, m)
    ensures Blocked(Send(b, msg).next, key, m)
  {
    assert m in multiset(QueueAt(b, key));
    assert m in multiset(QueueAt(Send(b, msg).next, key));
  }

  lemma AckKeepsBlocked(b: State, a: Ack, key: string, m: Message)
    requires Blocked(b, key, m)
    requires Key(a.producerId, a.consumerId) != key || a.sequenceId != m.sequenceId
    ensures Blocked(Acknowledge(b, a).next, key, m)
  {
    assert m in multiset(QueueAt(b, key));
    assert m in multiset(QueueAt(Acknowledge(b, a).next, key));
  }

  lemma ReceiveKeepsBlocked(b: State, producerId: string, consumerId: string, key: string, m: Message)
    requires Blocked(b, key, m)
    ensures Blocked(Receive(b, producerId, consumerId).next, key, m)
    ensures Key(producerId, consumerId) == key ==> !Receive(b, producerId, consumerId).reply.Delivered?
  {
  }

  /**
   After a message is received on a channel, no later Receive on that
   channel delivers anything until that message is acknowledged.
   */
  lemma {:induction false} BlockedUntilAcknowledged(b: State, reqs: seq<Request>, key: string, m: Message)
    requires Blocked(b, key, m)
    requires forall i :: 0 <= i < |reqs| ==> !Acks(reqs[i], key, m.sequenceId)
    ensures Deliveries(b, reqs, key) == []
    ensures Blocked(Run(b, reqs), key, m)
    decreases |reqs|
  {
    if |reqs| > 0 {
      HandleKeepsBlocked(b, reqs[0], key, m);
      BlockedUntilAcknowledged(Handle(b, reqs[0]).next, reqs[1..], key, m);
    }
  }

  /**
   A lost Ack wedges the channel: once a message has been delivered, the
   channel delivers nothing more over any run that does not acknowledge it.
   The broker never hands the same message out again.
   */
  lemma LostAckWedgesChannel(b: State, producerId: string, consumerId: string, reqs: seq<Request>)
    requires Receive(b, producerId, consumerId).reply.Delivered?
    requires CursorAt(b, Key(producerId, consumerId)) as int < MaxInt32
    requires forall i :: 0 <= i < |reqs| ==>
      !Acks(reqs[i], Key(producerId, consumerId), Receive(b, producerId, consumerId).reply.msg.sequenceId)
    ensures Deliveries(Receive(b, producerId, consumerId).next, reqs, Key(producerId, consumerId)) == []
  {
    DeliveredBlocks(b, producerId, consumerId);
    BlockedUntilAcknowledged(Receive(b, producerId, consumerId).next, reqs, Key(producerId, consumerId),
                             Receive(b, producerId, consumerId).reply.msg);
  }

  /**
   A producer retry that arrives after its message was delivered and
   acknowledged is stored again, below the cursor, and wedges the channel
   the same way until that sequenceId is acknowledged a second time.
   */
  lemma LateRetryWedgesChannel(b: State, m: Message, reqs: seq<Request>)
    requires m.sequenceId < CursorAt(b, KeyOf(m))
    requires !HasId(QueueAt(b, KeyOf(m)), m.sequenceId)
    requires forall i :: 0 <= i < |reqs| ==> !Acks(reqs[i], KeyOf(m), m.sequenceId)
    ensures Send(b, m).reply == Stored
    ensures Blocked(Send(b, m).next, KeyOf(m), m)
    ensures Deliveries(Send(b, m).next, reqs, KeyOf(m)) == []
  {
    var next := Send(b, m).next;
    assert m in multiset(QueueAt(next, KeyOf(m)));
    assert CursorAt(next, KeyOf(m)) == CursorAt(b, KeyOf(m));
    BlockedUntilAcknowledged(next, reqs, KeyOf(m), m);
  }

  /**
   The late-retry wedge from a fresh broker: message 1 is sent, received and
   acknowledged, then its retry arrives and is stored again, below cursor 2.
   The channel then delivers nothing over any run that does not acknowledge
   message 1 a second time.
   */
  lemma LateRetryScenario(m: Message, later: seq<Request>)
    requires m.sequenceId == 1
    requires forall i :: 0 <= i < |later| ==> !Acks(later[i], KeyOf(m), 1)
    ensures var b1 := Send(Empty, m).next;
      var received := Receive(b1, m.producerId, m.consumerId);
      var acked := Acknowledge(received.next, Ack(m.producerId, m.consumerId, 1));
      var retried := Send(acked.next, m);
      && received.reply == Delivered(m)
      && acked.reply == Acknowledged
      && retried.reply == Stored
      && Blocked(retried.next, KeyOf(m), m)
      && Deliveries(retried.next, later, KeyOf(m)) == []
  {
    var key := KeyOf(m);
    var b1 := Send(Empty, m).next;
    assert multiset(QueueAt(b1, key)) == multiset{m};
    assert QueueAt(b1, key) == [m];
    var received := Receive(b1, m.producerId, m.consumerId);
    assert received.reply == Delivered(m) && CursorAt(received.next, key) == 2;
    var acked := Acknowledge(received.next, Ack(m.producerId, m.consumerId, 1));
    assert m in QueueAt(received.next, key);
    RemoveIdRemoves(QueueAt(received.next, key), 1);
    assert CursorAt(acked.next, key) == 2;
    LateRetryWedgesChannel(acked.next, m, later);
  }
}
