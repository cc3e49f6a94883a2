/** The byte counters of network/struct.go and what they count. */
module ByteCounts {

  /** counterSafe counts in uint64. */
  const COUNTER_MODULUS: nat := 0x1_0000_0000_0000_0000

  type Counter = n: nat | n < COUNTER_MODULUS

  /** updateTx and updateRx. */
  function Count(start: nat, delta: nat): Counter {
    (start + delta) % COUNTER_MODULUS
  }

  lemma CountTwice(start: nat, a: nat, b: nat)
    ensures Count(Count(start, a), b) == Count(start, a + b)
  {
  }

  /** The last count before the counter starts again. */
  lemma CountWraps(start: nat)
    ensures Count(start, 1) == 0 <==> (start + 1) % 0x1_0000_0000_0000_0000 == 0
    ensures start < 0xffff_ffff_ffff_ffff ==> Count(start, 1) == start + 1
  {
  }

  /** The payload bytes of a list of messages. */
  function Total<T>(messages: seq<seq<T>>): nat {
    if |messages| == 0 then 0 else Total(messages[..|messages| - 1]) + |messages[|messages| - 1]|
  }

  lemma TotalAppend<T>(messages: seq<seq<T>>, message: seq<T>)
    ensures Total(messages + [message]) == Total(messages) + |message|
  {
    assert (messages + [message])[..|messages|] == messages;
  }

  lemma {:induction false} TotalPrefix<T>(some: seq<seq<T>>, all: seq<seq<T>>)
    requires some <= all
    ensures Total(some) <= Total(all)
    decreases |all|
  {
    if |some| < |all| {
      TotalPrefix(some, all[..|all| - 1]);
    } else {
      assert some == all;
    }
  }
}
