/**
 The producer's `SendMessage` (Producer/Producer/Program.cs) as a state
 machine over the replies it receives, and one worker's loop around it:
 draw the next sequence number, produce a payload, send it.
 */
module ProducerClient {
  import opened Contract
  import opened Transport

  /** The producer's identity, the consumer it addresses, and its `RetryNumber`. */
  datatype Config = Config(producerId: string, consumerId: string, retryNumber: int)

  datatype Phase =
    | Posting    // waiting on `POST Send` inside the retry loop
    | Probing    // wait mode: waiting on `GET Check`
    | Reposting  // wait mode: the broker answered, waiting on the single re-post
    | Returned   // the call has returned

  /** `counter` is `retryNumbers[producerId]`. */
  datatype State = State(counter: nat, phase: Phase)

  datatype Call = SendCall(msg: Message) | CheckCall | NoCall

  /** The call a state is waiting on; the request body is built once, so every post carries `m`. */
  function Pending(m: Message, s: State): Call
  {
    match s.phase
    case Posting => SendCall(m)
    case Reposting => SendCall(m)
    case Probing => CheckCall
    case Returned => NoCall
  }

  /** `while (retryNumbers[producerId] < retryNumber)`: post again, or fall through into wait mode. */
  function LoopHead(cfg: Config, counter: nat): State
  {
    if counter < cfg.retryNumber then State(counter, Posting) else State(counter, Probing)
  }

  /** The `catch` of the retry loop. */
  function Catch(cfg: Config, counter: nat): State
  {
    if counter >= cfg.retryNumber then State(counter, Probing) else LoopHead(cfg, counter + 1)
  }

  function Step(cfg: Config, s: State, r: Reply): State
  {
    match s.phase
    case Posting =>
      if IsSuccessStatus(r) then State(0, Returned)
      else if r.Exception? then Catch(cfg, s.counter)
      // a non-success status is not counted: the loop posts again at once
      else LoopHead(cfg, s.counter)
    case Probing =>
      if IsSuccessStatus(r) then State(s.counter, Reposting) else s
    case Reposting =>
      // the re-post's status is ignored; if it throws, the empty catch goes back to Check
      if r.Exception? then State(s.counter, Probing) else State(0, Returned)
    case Returned => s
  }

  function Run(cfg: Config, s: State, rs: seq<Reply>): State
    decreases |rs|
  {
    if |rs| == 0 then s else Run(cfg, Step(cfg, s, rs[0]), rs[1..])
  }

  function Ceiling(cfg: Config): nat
  {
    if cfg.retryNumber > 0 then cfg.retryNumber else 0
  }

  /** The counter stays within the ceiling; posting holds only below the limit, wait mode only at it. */
  predicate Inv(cfg: Config, s: State)
  {
    && s.counter <= Ceiling(cfg)
    && match s.phase
       case Posting => s.counter < cfg.retryNumber
       case Probing => s.counter >= cfg.retryNumber
       case Reposting => s.counter >= cfg.retryNumber
       case Returned => true
  }

  lemma StartInv(cfg: Config, counter: nat)
    requires counter <= Ceiling(cfg)
    ensures Inv(cfg, LoopHead(cfg, counter))
    ensures cfg.retryNumber <= 0 ==> LoopHead(cfg, counter).phase == Probing
  {
  }

  lemma StepInv(cfg: Config, s: State, r: Reply)
    requires Inv(cfg, s)
    ensures Inv(cfg, Step(cfg, s, r))
  {
  }

  lemma {:induction false} RunInv(cfg: Config, s: State, rs: seq<Reply>)
    requires Inv(cfg, s)
    ensures Inv(cfg, Run(cfg, s, rs))
    decreases |rs|
  {
    if |rs| > 0 {
      StepInv(cfg, s, rs[0]);
      RunInv(cfg, Step(cfg, s, rs[0]), rs[1..]);
    }
  }

  /** The `break` inside the catch is never taken while posting. */
  lemma CatchNeverBreaks(cfg: Config, s: State)
    requires Inv(cfg, s) && s.phase.Posting?
    ensures Catch(cfg, s.counter) == LoopHead(cfg, s.counter + 1)
  {
  }

  /** A post answered with a success status returns with the counter reset; a rejected one is posted again at once, uncounted. */
  lemma PostOutcomes(cfg: Config, s: State, r: Reply)
    requires Inv(cfg, s) && s.phase.Posting?
    ensures IsSuccessStatus(r) ==> Step(cfg, s, r) == State(0, Returned)
    ensures r.NonSuccess? ==> Step(cfg, s, r) == s
  {
  }

  /** Only an exception is counted: it adds one and posts again, or enters wait mode at the limit. */
  lemma ExceptionCountsOne(cfg: Config, s: State)
    requires Inv(cfg, s) && s.phase.Posting?
    ensures Step(cfg, s, Exception).counter == s.counter + 1
    ensures Step(cfg, s, Exception).phase == if s.counter + 1 < cfg.retryNumber then Posting else Probing
  {
  }

  /** A broker that rejects every post with a non-success status keeps the producer posting, uncounted, forever. */
  lemma {:induction false} RejectedPostsNeverCount(cfg: Config, s: State, rs: seq<Reply>)
    requires Inv(cfg, s) && s.phase.Posting?
    requires forall i :: 0 <= i < |rs| ==> rs[i].NonSuccess?
    ensures Run(cfg, s, rs) == s
    decreases |rs|
  {
    if |rs| > 0 {
      assert Step(cfg, s, rs[0]) == s;
      RejectedPostsNeverCount(cfg, s, rs[1..]);
    }
  }

  /** Consecutive exceptions count up one by one; the limit-th one enters wait mode. */
  lemma {:induction false} ConsecutiveExceptions(cfg: Config, counter: nat, n: nat)
    requires counter < cfg.retryNumber && counter + n <= cfg.retryNumber
    ensures Run(cfg, State(counter, Posting), seq(n, _ => Exception)) == LoopHead(cfg, counter + n)
    decreases n
  {
    var rs := seq(n, _ => Exception);
    if n > 0 {
      assert rs[1..] == seq(n - 1, _ => Exception);
      if n > 1 {
        ConsecutiveExceptions(cfg, counter + 1, n - 1);
      } else {
        assert Run(cfg, Step(cfg, State(counter, Posting), rs[0]), rs[1..]) == LoopHead(cfg, counter + 1);
      }
    }
  }

  /**
   Leaving wait mode: a successful Check is followed by one re-post of the
   same message, after which the call returns with the counter reset whatever
   the re-post's status; only an exception sends it back to Check.
   */
  lemma WaitModeExit(cfg: Config, m: Message, s: State, check: Reply, repost: Reply)
    requires s.phase.Probing?
    ensures !IsSuccessStatus(check) ==> Step(cfg, s, check) == s
    ensures IsSuccessStatus(check) ==> Pending(m, Step(cfg, s, check)) == SendCall(m)
    ensures IsSuccessStatus(check) && !repost.Exception? ==>
      Step(cfg, Step(cfg, s, check), repost) == State(0, Returned)
    ensures IsSuccessStatus(check) && repost.Exception? ==> Step(cfg, Step(cfg, s, check), repost) == s
  {
  }

  /** What one `SendMessage` call did: where it stopped, what it posted, the replies left over. */
  datatype Outcome = Outcome(state: State, posts: seq<Message>, rest: seq<Reply>)

  /** Drive the call from `s` until it returns or the replies run out, collecting the posted messages. */
  function Drive(cfg: Config, m: Message, s: State, rs: seq<Reply>): (o: Outcome)
    ensures forall i :: 0 <= i < |o.posts| ==> o.posts[i] == m
    ensures !s.phase.Returned? && o.state.phase.Returned? ==> |o.posts| > 0
    ensures o.state.phase.Returned? || |o.rest| == 0
    ensures |o.rest| <= |rs| && o.rest == rs[|rs| - |o.rest|..]
    decreases |rs|
  {
    if s.phase.Returned? || |rs| == 0 then Outcome(s, [], rs)
    else
      var o := Drive(cfg, m, Step(cfg, s, rs[0]), rs[1..]);
      Outcome(o.state, (if Pending(m, s).SendCall? then [m] else []) + o.posts, o.rest)
  }

  /** The message a worker sends as sequence number `n`. */
  function Compose(cfg: Config, n: int32, payload: Payload): Message
  {
    Message(cfg.producerId, cfg.consumerId, n, payload)
  }

  /**
   One worker of the producer's loop: take the next sequence number (a C#
   `int` increment, so it wraps), produce the next payload, and send it;
   the result is every message posted, in order.
   */
  function Worker(cfg: Config, seqNo: int32, counter: nat, produced: seq<Payload>, rs: seq<Reply>): seq<Message>
    decreases |produced|
  {
    if |produced| == 0 then []
    else
      var n := Inc(seqNo);
      var o := Drive(cfg, Compose(cfg, n, produced[0]), LoopHead(cfg, counter), rs);
      if o.state.phase.Returned? then o.posts + Worker(cfg, n, o.state.counter, produced[1..], o.rest)
      else o.posts
  }

  /**
   Posted sequence ids start right after `seqNo` and then either repeat (a
   retry of the same message) or go up by exactly one: there are no gaps, and
   once a later id has been posted an earlier one is never posted again.
   */
  predicate NoGaps(seqNo: int, posts: seq<Message>)
  {
    && (|posts| > 0 ==> posts[0].sequenceId as int == seqNo + 1)
    && forall i :: 0 < i < |posts| ==>
         posts[i].sequenceId == posts[i - 1].sequenceId || posts[i].sequenceId as int == posts[i - 1].sequenceId as int + 1
  }

  /** Every post carries this producer's ids, a sequence id drawn after `seqNo`, and the payload produced for that id. */
  predicate Labelled(cfg: Config, seqNo: int, produced: seq<Payload>, posts: seq<Message>)
  {
    forall i :: 0 <= i < |posts| ==>
      && seqNo < posts[i].sequenceId as int <= seqNo + |produced|
      && posts[i] == Compose(cfg, posts[i].sequenceId, produced[posts[i].sequenceId as int - seqNo - 1])
  }

  /** Posts of the first message (at least one) followed by a gap-free run from the next id have no gap. */
  lemma ConcatNoGaps(seqNo: int, m: Message, first: seq<Message>, rest: seq<Message>)
    requires m.sequenceId as int == seqNo + 1 && |first| > 0
    requires forall i :: 0 <= i < |first| ==> first[i] == m
    requires NoGaps(seqNo + 1, rest)
    ensures NoGaps(seqNo, first + rest)
  {
    var posts := first + rest;
    forall i | 0 < i < |posts|
      ensures posts[i].sequenceId == posts[i - 1].sequenceId || posts[i].sequenceId as int == posts[i - 1].sequenceId as int + 1
    {
      if i > |first| {
        assert posts[i] == rest[i - |first|] && posts[i - 1] == rest[i - 1 - |first|];
      } else if i == |first| {
        assert posts[i] == rest[0] && posts[i - 1] == m;
      }
    }
  }

  lemma ConcatLabelled(cfg: Config, seqNo: int, produced: seq<Payload>, first: seq<Message>, rest: seq<Message>)
    requires |produced| > 0
    requires forall i :: 0 <= i < |first| ==> first[i] == Compose(cfg, first[i].sequenceId, produced[0])
    requires forall i :: 0 <= i < |first| ==> first[i].sequenceId as int == seqNo + 1
    requires Labelled(cfg, seqNo + 1, produced[1..], rest)
    ensures Labelled(cfg, seqNo, produced, first + rest)
  {
    var posts := first + rest;
    forall i | 0 <= i < |posts|
      ensures seqNo < posts[i].sequenceId as int <= seqNo + |produced|
      ensures posts[i] == Compose(cfg, posts[i].sequenceId, produced[posts[i].sequenceId as int - seqNo - 1])
    {
      if i >= |first| {
        var j := i - |first|;
        assert posts[i] == rest[j];
        assert produced[1..][rest[j].sequenceId as int - (seqNo + 1) - 1] == produced[posts[i].sequenceId as int - seqNo - 1];
      }
    }
  }

  /**
   While the counter has not wrapped, a worker posts its messages with no gap
   in the sequence ids, each post carrying this producer's ids and the
   payload produced for that id.
   */
  lemma {:induction false} WorkerPostsInOrder(cfg: Config, seqNo: int32, counter: nat, produced: seq<Payload>, rs: seq<Reply>)
    requires seqNo as int + |produced| <= MaxInt32
    ensures NoGaps(seqNo as int, Worker(cfg, seqNo, counter, produced, rs))
    ensures Labelled(cfg, seqNo as int, produced, Worker(cfg, seqNo, counter, produced, rs))
    decreases |produced|
  {
    if |produced| > 0 {
      var n := Inc(seqNo);
      assert n as int == seqNo as int + 1;
      var m := Compose(cfg, n, produced[0]);
      var o := Drive(cfg, m, LoopHead(cfg, counter), rs);
      SamePosts(cfg, seqNo as int, produced, m, o.posts);
      if o.state.phase.Returned? {
        var rest := Worker(cfg, n, o.state.counter, produced[1..], o.rest);
        assert Worker(cfg, seqNo, counter, produced, rs) == o.posts + rest;
        WorkerPostsInOrder(cfg, n, o.state.counter, produced[1..], o.rest);
        ConcatNoGaps(seqNo as int, m, o.posts, rest);
        ConcatLabelled(cfg, seqNo as int, produced, o.posts, rest);
      } else {
        assert Worker(cfg, seqNo, counter, produced, rs) == o.posts;
      }
    }
  }

  /** Repeated posts of the message numbered right after `seqNo` have no gap and carry the first payload. */
  lemma SamePosts(cfg: Config, seqNo: int, produced: seq<Payload>, m: Message, posts: seq<Message>)
    requires |produced| > 0 && m == Compose(cfg, m.sequenceId, produced[0]) && m.sequenceId as int == seqNo + 1
    requires forall i :: 0 <= i < |posts| ==> posts[i] == m
    ensures NoGaps(seqNo, posts)
    ensures Labelled(cfg, seqNo, produced, posts)
    ensures forall i :: 0 <= i < |posts| ==> posts[i] == Compose(cfg, posts[i].sequenceId, produced[0])
    ensures forall i :: 0 <= i < |posts| ==> posts[i].sequenceId as int == seqNo + 1
  {
  }

  /** A producer's workers start from sequence number 0, so the first message sent is number 1. */
  lemma FirstSequenceNumberIsOne(cfg: Config, produced: seq<Payload>, rs: seq<Reply>)
    ensures var posts := Worker(cfg, 0, 0, produced, rs);
      |posts| > 0 ==> posts[0] == Compose(cfg, 1, produced[0])
  {
    if |produced| > 0 {
      var m := Compose(cfg, Inc(0), produced[0]);
      var o := Drive(cfg, m, LoopHead(cfg, 0), rs);
      if o.state.phase.Returned? {
        assert Worker(cfg, 0, 0, produced, rs) == o.posts + Worker(cfg, 1, o.state.counter, produced[1..], o.rest);
        assert |o.posts| > 0;
      } else {
        assert Worker(cfg, 0, 0, produced, rs) == o.posts;
      }
    }
  }
}
