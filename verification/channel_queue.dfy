/**
 One channel's `PriorityQueue<MessagePayload, int>` keyed by sequenceId
 (MessageBroker/MessageBroker/Controllers/MessageController.cs), modelled as a
 sequence kept in ascending sequenceId order, so that `Peek` is the head.
 Equal sequenceIds keep their insertion order; the C# queue leaves that order
 unspecified, and the broker's own duplicate check keeps ids unique anyway.
 */
module ChannelQueue {
  import opened Contract

  /** Ascending by sequenceId: the heap order of the C# priority queue. */
  predicate Sorted(q: seq<Message>)
  {
    forall i, j :: 0 <= i < j < |q| ==> q[i].sequenceId <= q[j].sequenceId
  }

  /** Strictly ascending: sorted AND at most one message per sequenceId. */
  predicate Ordered(q: seq<Message>)
  {
    forall i, j :: 0 <= i < j < |q| ==> q[i].sequenceId < q[j].sequenceId
  }

  type PQueue = q: seq<Message> | Sorted(q) witness []

  /** `UnorderedItems.Any(m => m.Element.sequenceId == id)`. */
  predicate HasId(q: seq<Message>, id: int32)
  {
    exists i :: 0 <= i < |q| && q[i].sequenceId == id
  }

  /** `Peek`: the message with the least sequenceId. */
  function Peek(q: PQueue): (m: Message)
    requires |q| > 0
    ensures m in q
    ensures forall x :: x in q ==> m.sequenceId <= x.sequenceId
  {
    q[0]
  }

  /** `s` with `m` placed in front of the first message with a larger id. */
  function Place(s: seq<Message>, m: Message): seq<Message>
    decreases |s|
  {
    if |s| == 0 || m.sequenceId < s[0].sequenceId then [m] + s
    else [s[0]] + Place(s[1..], m)
  }

  /** `Enqueue(m, m.sequenceId)`. */
  function Insert(q: PQueue, m: Message): (r: PQueue)
    ensures multiset(r) == multiset(q) + multiset{m}
  {
    PlaceContents(q, m);
    PlaceSorted(q, m);
    Place(q, m)
  }

  lemma {:induction false} PlaceContents(s: seq<Message>, m: Message)
    ensures multiset(Place(s, m)) == multiset(s) + multiset{m}
    decreases |s|
  {
    if |s| > 0 && m.sequenceId >= s[0].sequenceId {
      PlaceContents(s[1..], m);
      assert s == [s[0]] + s[1..];
    }
  }

  lemma {:induction false} PlaceSorted(s: seq<Message>, m: Message)
    requires Sorted(s)
    ensures Sorted(Place(s, m))
    decreases |s|
  {
    if |s| == 0 {
    } else if m.sequenceId < s[0].sequenceId {
      ConsSorted(m, s);
    } else {
      PlaceSorted(s[1..], m);
      PlaceContents(s[1..], m);
      var rest := Place(s[1..], m);
      assert multiset(rest) == multiset(s[1..] + [m]);
      SubContents(s[1..] + [m], rest);
      ConsSorted(s[0], rest);
    }
  }

  /** Inserting an id the queue does not hold keeps it strictly ordered. */
  lemma InsertOrdered(q: PQueue, m: Message)
    requires Ordered(q) && !HasId(q, m.sequenceId)
    ensures Ordered(Insert(q, m))
  {
    PlaceOrdered(q, m);
  }

  lemma {:induction false} PlaceOrdered(s: seq<Message>, m: Message)
    requires Ordered(s) && !HasId(s, m.sequenceId)
    ensures Ordered(Place(s, m))
    decreases |s|
  {
    if |s| == 0 {
    } else if m.sequenceId < s[0].sequenceId {
      ConsOrdered(m, s);
    } else {
      assert m.sequenceId != s[0].sequenceId;
      PlaceOrdered(s[1..], m);
      var rest := Place(s[1..], m);
      PlaceContents(s[1..], m);
      assert multiset(rest) == multiset(s[1..] + [m]);
      SubContents(s[1..] + [m], rest);
      ConsOrdered(s[0], rest);
    }
  }

  lemma ConsSorted(h: Message, s: seq<Message>)
    requires Sorted(s)
    requires forall x :: x in s ==> h.sequenceId <= x.sequenceId
    ensures Sorted([h] + s)
  {
    var r := [h] + s;
    forall i, j | 0 <= i < j < |r| ensures r[i].sequenceId <= r[j].sequenceId {
      if i == 0 {
        assert r[j] == s[j - 1];
      } else {
        assert r[i] == s[i - 1] && r[j] == s[j - 1];
      }
    }
  }

  lemma ConsOrdered(h: Message, s: seq<Message>)
    requires Ordered(s)
    requires forall x :: x in s ==> h.sequenceId < x.sequenceId
    ensures Ordered([h] + s)
  {
    var r := [h] + s;
    forall i, j | 0 <= i < j < |r| ensures r[i].sequenceId < r[j].sequenceId {
      if i == 0 {
        assert r[j] == s[j - 1];
      } else {
        assert r[i] == s[i - 1] && r[j] == s[j - 1];
      }
    }
  }

  /** Whatever `t` holds, `s` holds too. */
  lemma SubContents(s: seq<Message>, t: seq<Message>)
    requires multiset(t) <= multiset(s)
    ensures forall x :: x in t ==> x in s
  {
    forall x | x in t ensures x in s {
      assert x in multiset(t);
    }
  }

  /** Enqueues the messages of `s` one after another. */
  function InsertAll(q: PQueue, s: seq<Message>): (r: PQueue)
    ensures multiset(r) == multiset(q) + multiset(s)
    decreases |s|
  {
    if |s| == 0 then q
    else
      assert s == [s[0]] + s[1..];
      InsertAll(Insert(q, s[0]), s[1..])
  }

  /** The messages of `s` not carrying `id`, in their order. */
  function Without(s: seq<Message>, id: int32): seq<Message>
    decreases |s|
  {
    if |s| == 0 then []
    else if s[0].sequenceId == id then Without(s[1..], id)
    else [s[0]] + Without(s[1..], id)
  }

  /**
   The queue Acknowledge rebuilds: every element except those carrying `id`
   (`RemoveAll(m => m.sequenceId == id)` followed by re-enqueueing the rest).
   */
  function RemoveId(q: PQueue, id: int32): (r: PQueue)
    ensures multiset(r) <= multiset(q)
  {
    WithoutContents(q, id);
    WithoutSorted(q, id);
    Without(q, id)
  }

  /** Without keeps every message not carrying `id`, as often as it occurred, and nothing else. */
  lemma {:induction false} WithoutContents(s: seq<Message>, id: int32)
    ensures forall x :: multiset(Without(s, id))[x] == if x.sequenceId == id then 0 else multiset(s)[x]
    decreases |s|
  {
    if |s| > 0 {
      var tail := s[1..];
      WithoutContents(tail, id);
      assert multiset(s) == multiset{s[0]} + multiset(tail) by {
        assert s == [s[0]] + tail;
      }
    }
  }

  /** Without keeps the queue order. */
  lemma {:induction false} WithoutSorted(s: seq<Message>, id: int32)
    requires Sorted(s)
    ensures Sorted(Without(s, id))
    decreases |s|
  {
    if |s| > 0 {
      var tail := s[1..];
      WithoutSorted(tail, id);
      WithoutContents(tail, id);
      var rest := Without(tail, id);
      assert multiset(rest) <= multiset(tail);
      SubContents(tail, rest);
      if s[0].sequenceId != id {
        ConsSorted(s[0], rest);
      }
    }
  }

  /** RemoveId keeps every message not carrying `id`, as often as it occurred, and nothing else. */
  lemma RemoveIdContents(q: PQueue, id: int32)
    ensures forall x :: multiset(RemoveId(q, id))[x] == if x.sequenceId == id then 0 else multiset(q)[x]
  {
    WithoutContents(q, id);
  }

  /** After RemoveId no message carries `id`. */
  lemma RemoveIdRemoves(q: PQueue, id: int32)
    ensures !HasId(RemoveId(q, id), id)
  {
    RemoveIdContents(q, id);
    var r := RemoveId(q, id);
    forall i | 0 <= i < |r| ensures r[i].sequenceId != id {
      assert multiset(r)[r[i]] > 0;
    }
  }

  /** RemoveId keeps a strictly ordered queue strictly ordered. */
  lemma {:induction false} RemoveIdOrdered(q: PQueue, id: int32)
    requires Ordered(q)
    ensures Ordered(RemoveId(q, id))
  {
    WithoutOrdered(q, id);
  }

  lemma {:induction false} WithoutOrdered(s: seq<Message>, id: int32)
    requires Ordered(s)
    ensures Ordered(Without(s, id))
    decreases |s|
  {
    if |s| > 0 {
      var tail := s[1..];
      WithoutOrdered(tail, id);
      WithoutContents(tail, id);
      var rest := Without(tail, id);
      assert multiset(rest) <= multiset(tail);
      SubContents(tail, rest);
      if s[0].sequenceId != id {
        ConsOrdered(s[0], rest);
      }
    }
  }

  /** A strictly ordered queue is determined by its contents. */
  lemma {:induction false} OrderedDetermined(a: PQueue, b: PQueue)
    requires Ordered(b)
    requires multiset(a) == multiset(b)
    ensures a == b
    decreases |a|
  {
    if |a| == 0 {
      assert |multiset(b)| == 0;
    } else {
      assert |b| > 0 by { assert |multiset(b)| == |multiset(a)|; }
      assert a[0] in multiset(b) && b[0] in multiset(a);
      SameHead(a, b);
      var a', b' := a[1..], b[1..];
      TailContents(a, b);
      OrderedDetermined(a', b');
      assert a == [a[0]] + a' && b == [b[0]] + b';
    }
  }

  /** Equal contents and equal heads give equal tail contents. */
  lemma TailContents(a: seq<Message>, b: seq<Message>)
    requires |a| > 0 && |b| > 0 && a[0] == b[0]
    requires multiset(a) == multiset(b)
    ensures multiset(a[1..]) == multiset(b[1..])
  {
    assert a == [a[0]] + a[1..] && b == [b[0]] + b[1..];
    assert multiset(a) == multiset{a[0]} + multiset(a[1..]);
    assert multiset(b) == multiset{b[0]} + multiset(b[1..]);
    assert multiset(a[1..]) == multiset(a) - multiset{a[0]};
    assert multiset(b[1..]) == multiset(b) - multiset{b[0]};
  }

  /** Both heads carry the least id, and `b` holds only one message with that id. */
  lemma SameHead(a: PQueue, b: PQueue)
    requires Ordered(b)
    requires |a| > 0 && |b| > 0
    requires a[0] in b && b[0] in a
    ensures a[0] == b[0]
  {
    var x := Peek(a);
    var y := Peek(b);
    assert x.sequenceId == y.sequenceId;
    var i :| 0 <= i < |b| && b[i] == x;
    assert i == 0;
  }
}
