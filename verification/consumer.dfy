/**
 The consumer's `ReceiveAndProcessMessage` (Consumer/Consumer/Program.cs) as a
 deterministic state machine: the state is the consumer's retry counter and
 the point the call has reached; each transition consumes the reply to the
 call that point is waiting on.
 */
module ConsumerClient {
  import opened Wrappers
  import opened Contract
  import opened Transport

  /** The consumer's identity, the producer it reads from, and its `RetryNumber`. */
  datatype Config = Config(consumerId: string, producerId: string, retryNumber: int)

  datatype Phase =
    | Fetching               // waiting on `GET Receive`
    | Acking(msg: Message)   // waiting on `POST Ack` for the message just received
    | Consuming(msg: Message) // running `Consume` on its payload (only an exception matters)
    | Waiting                // wait mode: waiting on `GET Check`
    | Returned               // the call has returned

  /** `counter` is `retryNumbers[consumerId]`. */
  datatype State = State(counter: nat, phase: Phase)

  datatype Call =
    | ReceiveCall(producerId: string, consumerId: string)
    | AckCall(ack: Ack)
    | ConsumeCall(payload: Payload)
    | CheckCall
    | NoCall

  /** The call a state is waiting on. */
  function Pending(cfg: Config, s: State): Call
  {
    match s.phase
    case Fetching => ReceiveCall(cfg.producerId, cfg.consumerId)
    case Acking(m) => AckCall(Ack(cfg.producerId, cfg.consumerId, m.sequenceId))
    case Consuming(m) => ConsumeCall(m.message)
    case Waiting => CheckCall
    case Returned => NoCall
  }

  /** `while (retryNumbers[consumerId] < retryNumber)`: fetch again, or fall through into wait mode. */
  function LoopHead(cfg: Config, counter: nat): State
  {
    if counter < cfg.retryNumber then State(counter, Fetching) else State(counter, Waiting)
  }

  /** The `catch`: break into wait mode if the counter already reached the limit, else count one failure. */
  function Catch(cfg: Config, counter: nat): State
  {
    if counter >= cfg.retryNumber then State(counter, Waiting) else LoopHead(cfg, counter + 1)
  }

  /** One reply to the pending call. */
  function Step(cfg: Config, s: State, r: Reply): State
  {
    match s.phase
    case Fetching =>
      (match r
       case Exception => Catch(cfg, s.counter)
       case NoContent => State(s.counter, Returned)
       case NonSuccess => LoopHead(cfg, s.counter + 1)
       // the counter is reset before the body is decoded; a body that is no message throws
       case Ok(None) => Catch(cfg, 0)
       case Ok(Some(m)) => State(0, Acking(m)))
    case Acking(m) =>
      (match r
       case Exception => Catch(cfg, s.counter)
       case NonSuccess => LoopHead(cfg, s.counter + 1)
       case _ => State(0, Consuming(m)))
    case Consuming(_) =>
      if r.Exception? then Catch(cfg, s.counter) else LoopHead(cfg, s.counter)
    case Waiting =>
      if IsSuccessStatus(r) then State(0, Returned) else s
    case Returned => s
  }

  /** The states visited while the replies `rs` arrive, starting from `s`. */
  function States(cfg: Config, s: State, rs: seq<Reply>): (r: seq<State>)
    ensures |r| == |rs| + 1 && r[0] == s
    ensures forall i :: 0 <= i < |rs| ==> r[i + 1] == Step(cfg, r[i], rs[i])
    decreases |rs|
  {
    if |rs| == 0 then [s]
    else
      var tail := States(cfg, Step(cfg, s, rs[0]), rs[1..]);
      assert forall i :: 0 < i < |rs| ==> rs[i] == rs[1..][i - 1];
      [s] + tail
  }

  /** The state after the replies `rs`. */
  function Run(cfg: Config, s: State, rs: seq<Reply>): State
    decreases |rs|
  {
    if |rs| == 0 then s else Run(cfg, Step(cfg, s, rs[0]), rs[1..])
  }

  /** The highest value the counter can hold: the limit, or 0 when the limit is not positive. */
  function Ceiling(cfg: Config): nat
  {
    if cfg.retryNumber > 0 then cfg.retryNumber else 0
  }

  /**
   The counter stays within the ceiling (so the C# `int` never overflows);
   while fetching, acknowledging or consuming it is below the limit, and
   wait mode holds only with the limit reached.
   */
  predicate Inv(cfg: Config, s: State)
  {
    && s.counter <= Ceiling(cfg)
    && match s.phase
       case Fetching => s.counter < cfg.retryNumber
       case Acking(_) => s.counter == 0 < cfg.retryNumber
       case Consuming(_) => s.counter == 0 < cfg.retryNumber
       case Waiting => s.counter >= cfg.retryNumber
       case Returned => true
  }

  /** Entering ReceiveAndProcessMessage with a counter within the ceiling (Main starts it at 0). */
  lemma StartInv(cfg: Config, counter: nat)
    requires counter <= Ceiling(cfg)
    ensures Inv(cfg, LoopHead(cfg, counter))
    ensures cfg.retryNumber <= 0 ==> LoopHead(cfg, counter).phase == Waiting
  {
  }

  lemma StepInv(cfg: Config, s: State, r: Reply)
    requires Inv(cfg, s)
    ensures Inv(cfg, Step(cfg, s, r))
  {
  }

  lemma {:induction false} RunInv(cfg: Config, s: State, rs: seq<Reply>)
    requires Inv(cfg, s)
    ensures Inv(cfg, Run(cfg, s, rs))
    decreases |rs|
  {
    if |rs| > 0 {
      StepInv(cfg, s, rs[0]);
      RunInv(cfg, Step(cfg, s, rs[0]), rs[1..]);
    }
  }

  /** The `break` inside the catch is never taken: in the loop the counter is always below the limit. */
  lemma CatchNeverBreaks(cfg: Config, s: State)
    requires Inv(cfg, s)
    requires s.phase.Fetching? || s.phase.Acking? || s.phase.Consuming?
    ensures Catch(cfg, s.counter) == LoopHead(cfg, s.counter + 1)
  {
  }

  /** A failed Receive or Ack, or an exception anywhere in the loop. */
  predicate Failure(s: State, r: Reply)
  {
    match s.phase
    case Fetching => r.NonSuccess? || r.Exception?
    case Acking(_) => r.NonSuccess? || r.Exception?
    case Consuming(_) => r.Exception?
    case _ => false
  }

  /**
   Every failure adds exactly one to the counter and goes back to a fresh
   Receive, or into wait mode once the counter reaches the limit; a failed
   Ack is never re-sent.
   */
  lemma FailureCountsOne(cfg: Config, s: State, r: Reply)
    requires Inv(cfg, s) && Failure(s, r)
    ensures Step(cfg, s, r).counter == s.counter + 1
    ensures Step(cfg, s, r).phase == if s.counter + 1 < cfg.retryNumber then Fetching else Waiting
  {
  }

  /** Consecutive failed Receives count up one by one; the limit-th one enters wait mode. */
  lemma {:induction false} ConsecutiveFailures(cfg: Config, counter: nat, rs: seq<Reply>)
    requires counter < cfg.retryNumber
    requires counter + |rs| <= cfg.retryNumber
    requires forall i :: 0 <= i < |rs| ==> rs[i].NonSuccess? || rs[i].Exception?
    ensures Run(cfg, State(counter, Fetching), rs) == LoopHead(cfg, counter + |rs|)
    decreases |rs|
  {
    if |rs| > 0 {
      var next := Step(cfg, State(counter, Fetching), rs[0]);
      assert next == LoopHead(cfg, counter + 1);
      if |rs| > 1 {
        ConsecutiveFailures(cfg, counter + 1, rs[1..]);
      } else {
        assert Run(cfg, next, rs[1..]) == next;
      }
    }
  }

  /** From a fresh counter, exactly `retryNumber` failed Receives in a row enter wait mode. */
  lemma RetryNumberFailuresEnterWaitMode(cfg: Config, rs: seq<Reply>)
    requires cfg.retryNumber > 0 && |rs| == cfg.retryNumber
    requires forall i :: 0 <= i < |rs| ==> rs[i].NonSuccess? || rs[i].Exception?
    ensures Run(cfg, LoopHead(cfg, 0), rs) == State(cfg.retryNumber, Waiting)
    ensures forall k :: 0 <= k < |rs| ==> Run(cfg, LoopHead(cfg, 0), rs[..k]) == State(k, Fetching)
  {
    ConsecutiveFailures(cfg, 0, rs);
    forall k | 0 <= k < |rs| ensures Run(cfg, LoopHead(cfg, 0), rs[..k]) == State(k, Fetching) {
      if k > 0 {
        ConsecutiveFailures(cfg, 0, rs[..k]);
      }
    }
  }

  /** "No messages available" ends the call at once, counter untouched. */
  lemma NoContentReturns(cfg: Config, s: State)
    requires s.phase.Fetching?
    ensures Step(cfg, s, NoContent) == State(s.counter, Returned)
  {
  }

  /**
   A full cycle: a received message resets the counter and is acknowledged
   with this consumer's ids and the message's sequenceId; after a successful
   Ack its payload is consumed and the loop fetches again.
   */
  lemma SuccessfulCycle(cfg: Config, s: State, m: Message, ackReply: Reply, consumeReply: Reply)
    requires Inv(cfg, s) && s.phase.Fetching?
    requires IsSuccessStatus(ackReply) && !consumeReply.Exception?
    ensures Step(cfg, s, Ok(Some(m))) == State(0, Acking(m))
    ensures Pending(cfg, State(0, Acking(m))) == AckCall(Ack(cfg.producerId, cfg.consumerId, m.sequenceId))
    ensures Step(cfg, State(0, Acking(m)), ackReply) == State(0, Consuming(m))
    ensures Pending(cfg, State(0, Consuming(m))) == ConsumeCall(m.message)
    ensures Step(cfg, State(0, Consuming(m)), consumeReply) == State(0, Fetching)
  {
  }

  /**
   Along any run from the loop head: every Consume is of the payload received
   two replies earlier and comes right after a successful Ack carrying that
   message's sequenceId, which came right after the Receive that returned it.
   */
  lemma ConsumeOnlyAfterAck(cfg: Config, s: State, rs: seq<Reply>, i: int)
    requires s.phase.Fetching? || s.phase.Waiting? || s.phase.Returned?
    requires 0 <= i <= |rs|
    requires States(cfg, s, rs)[i].phase.Consuming?
    ensures 2 <= i
    ensures var m := States(cfg, s, rs)[i].phase.msg;
      && Pending(cfg, States(cfg, s, rs)[i]) == ConsumeCall(m.message)
      && Pending(cfg, States(cfg, s, rs)[i - 1]) == AckCall(Ack(cfg.producerId, cfg.consumerId, m.sequenceId))
      && IsSuccessStatus(rs[i - 1])
      && Pending(cfg, States(cfg, s, rs)[i - 2]) == ReceiveCall(cfg.producerId, cfg.consumerId)
      && rs[i - 2] == Ok(Some(m))
  {
    var st := States(cfg, s, rs);
    assert i != 0;
    assert st[i] == Step(cfg, st[i - 1], rs[i - 1]);
    assert st[i - 1].phase == Acking(st[i].phase.msg);
    assert i - 1 != 0;
    assert st[i - 1] == Step(cfg, st[i - 2], rs[i - 2]);
  }

  /** Wait mode ends only on a successful Check; the call then returns with the counter reset. */
  lemma WaitModeExit(cfg: Config, s: State, r: Reply)
    requires s.phase.Waiting?
    ensures Step(cfg, s, r).phase.Returned? <==> IsSuccessStatus(r)
    ensures IsSuccessStatus(r) ==> Step(cfg, s, r).counter == 0
    ensures !IsSuccessStatus(r) ==> Step(cfg, s, r) == s
  {
  }
}
