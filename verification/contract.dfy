/**
 The data shapes exchanged between producers, the broker and consumers
 (ClassLibrary/ClassLibrary/Contract), the 32-bit integers they carry, and the
 channel key the broker derives from a producer/consumer pair.
 */
module Contract {

  const MinInt32: int := -0x8000_0000
  const MaxInt32: int := 0x7fff_ffff

  /** C#'s `int`. */
  newtype int32 = x: int | -0x8000_0000 <= x <= 0x7fff_ffff

  /** C#'s unchecked `x++` on an `int`: wraps from int.MaxValue to int.MinValue. */
  function Inc(x: int32): int32
  {
    if x as int == MaxInt32 then MinInt32 as int32 else x + 1
  }

  /** The producer's value, as the JSON text it travels as; the broker never looks inside. */
  type Payload = string

  /** MessagePayload: one message on the producer -> consumer channel. */
  datatype Message = Message(producerId: string, consumerId: string, sequenceId: int32, message: Payload)

  /** AckPayload: a removal instruction; it carries no payload. */
  datatype Ack = Ack(producerId: string, consumerId: string, sequenceId: int32)

  /** The broker's channel key `{producerId}-{consumerId}`. */
  function Key(producerId: string, consumerId: string): string
  {
    producerId + "-" + consumerId
  }

  function KeyOf(m: Message): string
  {
    Key(m.producerId, m.consumerId)
  }

  /** The key is a plain concatenation, so two different pairs can share a channel. */
  lemma KeyNotInjective()
    ensures ("a-b", "c") != ("a", "b-c")
    ensures Key("a-b", "c") == Key("a", "b-c")
  {
  }

  /** Where the pieces of a key sit. */
  lemma KeyLayout(p: string, c: string)
    ensures |Key(p, c)| == |p| + 1 + |c|
    ensures Key(p, c)[|p|] == '-'
    ensures Key(p, c)[..|p|] == p
    ensures Key(p, c)[|p| + 1..] == c
  {
  }

  /** When producer ids contain no '-', the key determines the pair: the first '-' splits it. */
  lemma {:induction false} KeyInjectiveWithoutDash(p1: string, c1: string, p2: string, c2: string)
    requires '-' !in p1 && '-' !in p2
    requires Key(p1, c1) == Key(p2, c2)
    ensures p1 == p2 && c1 == c2
  {
    KeyLayout(p1, c1);
    KeyLayout(p2, c2);
    if |p1| < |p2| {
      // position |p1| is the dash of the first key but a character of p2 in the second
      assert false;
    } else if |p2| < |p1| {
      assert false;
    }
  }

  /** Symmetrically, when consumer ids contain no '-', the last '-' splits the key. */
  lemma {:induction false} KeyInjectiveWithoutDashInConsumer(p1: string, c1: string, p2: string, c2: string)
    requires '-' !in c1 && '-' !in c2
    requires Key(p1, c1) == Key(p2, c2)
    ensures p1 == p2 && c1 == c2
  {
    KeyLayout(p1, c1);
    KeyLayout(p2, c2);
    if |p1| < |p2| {
      // the second key's dash sits inside c1 in the first key
      assert false;
    } else if |p2| < |p1| {
      assert false;
    }
  }
}
