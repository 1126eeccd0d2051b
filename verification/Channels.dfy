/** Bounded channels that drop their oldest messages: BlockFreeChannelSend (p2p/protocol.go) and the
    queue of deferred election messages (elections/elections.go). A channel is the sequence of the
    messages in it, oldest first; nobody else uses it meanwhile. */
module Channels {

  /** 95 percent of the capacity, rounded down. The source multiplies in floating point; the product
      with 0.95 is rounded to the nearest number, which does not change the whole part. */
  function HighWaterMark(capacity: nat): nat {
    capacity * 95 / 100
  }

  /** Clearing stops: the mark is positive, or there is nothing to clear. */
  predicate Clearable<T>(capacity: nat, q: seq<T>) {
    HighWaterMark(capacity) >= 1 || |q| <= HighWaterMark(capacity)
  }

  /** A channel above the mark is first cut to one below it. */
  function Cleared<T>(capacity: nat, q: seq<T>): (r: seq<T>)
    requires Clearable(capacity, q)
  {
    var mark := HighWaterMark(capacity);
    if |q| <= mark then q else q[|q| - mark + 1..]
  }

  function Sent<T>(capacity: nat, q: seq<T>, message: T): seq<T>
    requires Clearable(capacity, q)
  {
    var r := Cleared(capacity, q);
    if |r| < capacity then r + [message] else r
  }

  class Channel<T> {
    const capacity: nat
    var items: seq<T>

    ghost predicate Valid()
      reads this
    {
      |items| <= capacity
    }

    constructor (capacity: nat)
      ensures Valid() && items == [] && this.capacity == capacity
    {
      this.capacity := capacity;
      items := [];
    }

    /** Clears space if the channel is nearly full, then sends if there is room. If the mark is zero and
        the channel is not empty, that is for a full channel of capacity one, the loop takes everything
        out and then waits forever on the empty channel: that is the only way to block. */
    method BlockFreeChannelSend(message: T) returns (removed: nat, blocked: bool)
      requires Valid()
      modifies this
      ensures Valid()
      ensures blocked <==> capacity == 1 && |old(items)| == 1
      ensures blocked ==> items == []
      ensures !blocked ==> Clearable(capacity, old(items)) && items == Sent(capacity, old(items), message)
      ensures !blocked ==> removed == |old(items)| - |Cleared(capacity, old(items))|
      ensures !blocked && capacity > 0 ==> items == old(items)[removed..] + [message]
    {
      removed, blocked := 0, false;
      var highWaterMark := HighWaterMark(capacity);
      var clen := |items|;
      if highWaterMark < clen {
        while highWaterMark <= |items|
          invariant 0 <= removed <= clen && items == old(items)[removed..]
          invariant |items| >= highWaterMark - 1
          decreases |items|
        {
          removed := removed + 1;
          if items == [] {
            blocked := true;
            return;
          }
          items := items[1..];
        }
      }
      if |items| < capacity {
        items := items + [message];
      }
    }
  }

  /** For every capacity of at least two the message always gets in: the channel becomes a suffix of
      what it was, followed by the message, and nothing is dropped below the mark. */
  lemma SendAlwaysEnqueues<T>(capacity: nat, q: seq<T>, message: T)
    requires capacity >= 2 && |q| <= capacity
    ensures HighWaterMark(capacity) >= 1
    ensures exists k :: 0 <= k <= |q| && Sent(capacity, q, message) == q[k..] + [message]
                     && (k == 0 <==> |q| <= HighWaterMark(capacity))
    ensures |Sent(capacity, q, message)| <= HighWaterMark(capacity) + 1 <= capacity
  {
    var mark := HighWaterMark(capacity);
    var k := if |q| <= mark then 0 else |q| - mark + 1;
    assert q[0..] == q;
    assert Sent(capacity, q, message) == q[k..] + [message];
  }

  // ---------------------------------------------------------------- deferred election messages

  function DeferLimit(capacity: nat): nat {
    9 * capacity / 10
  }

  /** A message that cannot be processed yet is kept; the oldest goes when the queue is long. */
  function Deferred<T>(capacity: nat, q: seq<T>, message: T): seq<T> {
    (if |q| > DeferLimit(capacity) then q[1..] else q) + [message]
  }

  class Waiting<T> {
    const capacity: nat
    var waiting: seq<T>
    var input: seq<T>

    ghost predicate Valid()
      reads this
    {
      capacity > 0 && |waiting| <= DeferLimit(capacity) + 1
    }

    constructor (capacity: nat)
      requires capacity > 0
      ensures Valid() && waiting == [] && input == [] && this.capacity == capacity
    {
      this.capacity := capacity;
      waiting, input := [], [];
    }

    /** The send never blocks: there is room when it is reached. */
    method Defer(message: T)
      requires Valid()
      modifies this
      ensures Valid() && input == old(input)
      ensures waiting == Deferred(capacity, old(waiting), message)
    {
      if |waiting| > 9 * capacity / 10 {
        waiting := waiting[1..];
      }
      assert |waiting| < capacity;
      waiting := waiting + [message];
    }

    /** Drains the waiting messages into the input, in order. */
    method ProcessWaiting()
      requires Valid()
      modifies this
      ensures Valid() && waiting == [] && input == old(input) + old(waiting)
    {
      while waiting != []
        invariant |waiting| <= |old(waiting)|
        invariant input + waiting == old(input) + old(waiting)
        decreases |waiting|
      {
        var msg := waiting[0];
        waiting := waiting[1..];
        input := input + [msg];
      }
    }
  }

  function DeferAll<T>(capacity: nat, q: seq<T>, messages: seq<T>): seq<T>
    decreases |messages|
  {
    if messages == [] then q else DeferAll(capacity, Deferred(capacity, q, messages[0]), messages[1..])
  }

  /** The last `n` of a sequence, or all of it. */
  function Newest<T>(s: seq<T>, n: nat): seq<T> {
    if |s| <= n then s else s[|s| - n..]
  }

  lemma DeferredIsNewest<T>(capacity: nat, s: seq<T>, message: T)
    ensures Deferred(capacity, Newest(s, DeferLimit(capacity) + 1), message)
         == Newest(s + [message], DeferLimit(capacity) + 1)
  {
  }

  /** The queue holds exactly the newest deferred messages, in the order they came. */
  lemma {:induction false} WaitingHoldsNewest<T>(capacity: nat, before: seq<T>, messages: seq<T>)
    ensures DeferAll(capacity, Newest(before, DeferLimit(capacity) + 1), messages)
         == Newest(before + messages, DeferLimit(capacity) + 1)
    decreases |messages|
  {
    if messages == [] {
      assert before + messages == before;
    } else {
      DeferredIsNewest(capacity, before, messages[0]);
      assert before + [messages[0]] + messages[1..] == before + messages;
      WaitingHoldsNewest(capacity, before + [messages[0]], messages[1..]);
    }
  }
}
