/** A subscriber's channel: a buffer of 64 messages, a send that never blocks, a receive that takes the oldest. */
module Channels {
  const CAPACITY := 64

  datatype Op<M> = Offer(message: M) | Receive

  /** What has happened on one channel: every message offered, and where it went. */
  datatype History<M> = History(offered: seq<M>, received: seq<M>, buffered: seq<M>, dropped: seq<M>)

  /** One operation: broadcast's send with an empty default case, or one read by the event loop. */
  function Do<M>(h: History<M>, op: Op<M>): History<M> {
    match op
    case Offer(m) =>
      if |h.buffered| < CAPACITY
      then h.(offered := h.offered + [m], buffered := h.buffered + [m])
      else h.(offered := h.offered + [m], dropped := h.dropped + [m])
    case Receive =>
      if h.buffered == [] then h
      else h.(received := h.received + [h.buffered[0]], buffered := h.buffered[1..])
  }

  function DoAll<M>(ops: seq<Op<M>>): History<M> {
    if ops == [] then History([], [], [], []) else Do(DoAll(ops[..|ops| - 1]), ops[|ops| - 1])
  }

  /** `whole` is a merge of `a` and `b`: each keeps its own order, nothing is lost and nothing added. */
  ghost predicate IsMerge<M>(whole: seq<M>, a: seq<M>, b: seq<M>) {
    if whole == [] then a == [] && b == []
    else
      var n := |whole| - 1;
      || (a != [] && a[|a| - 1] == whole[n] && IsMerge(whole[..n], a[..|a| - 1], b))
      || (b != [] && b[|b| - 1] == whole[n] && IsMerge(whole[..n], a, b[..|b| - 1]))
  }

  lemma {:induction false} MergeCounts<M>(whole: seq<M>, a: seq<M>, b: seq<M>)
    requires IsMerge(whole, a, b)
    ensures multiset(whole) == multiset(a) + multiset(b) && |whole| == |a| + |b|
  {
    if whole != [] {
      var n := |whole| - 1;
      assert whole == whole[..n] + [whole[n]];
      if a != [] && a[|a| - 1] == whole[n] && IsMerge(whole[..n], a[..|a| - 1], b) {
        assert a == a[..|a| - 1] + [a[|a| - 1]];
        MergeCounts(whole[..n], a[..|a| - 1], b);
      } else {
        assert b == b[..|b| - 1] + [b[|b| - 1]];
        MergeCounts(whole[..n], a, b[..|b| - 1]);
      }
    }
  }

  ghost predicate Conserved<M>(h: History<M>) {
    |h.buffered| <= CAPACITY && IsMerge(h.offered, h.received + h.buffered, h.dropped)
  }

  lemma DoConserves<M>(h: History<M>, op: Op<M>)
    requires Conserved(h)
    ensures Conserved(Do(h, op))
  {
    var h' := Do(h, op);
    match op
    case Offer(m) =>
      assert h'.offered[..|h.offered|] == h.offered;
      if |h.buffered| < CAPACITY {
        var kept := h'.received + h'.buffered;
        assert kept[..|kept| - 1] == h.received + h.buffered;
      } else {
        assert h'.dropped[..|h.dropped|] == h.dropped;
      }
    case Receive =>
      assert h'.received + h'.buffered == h.received + h.buffered;
  }

  /** Any interleaving of sends and reads: what was offered is exactly received, waiting or dropped; readers see the
      kept messages in the order they were offered; at most 64 wait. */
  lemma {:induction false} BroadcastConserves<M>(ops: seq<Op<M>>)
    ensures var h := DoAll(ops);
            && |h.buffered| <= 64
            && IsMerge(h.offered, h.received + h.buffered, h.dropped)
            && |h.offered| == |h.received| + |h.buffered| + |h.dropped|
            && multiset(h.offered) == multiset(h.received) + multiset(h.buffered) + multiset(h.dropped)
  {
    DoAllConserved(ops);
    var h := DoAll(ops);
    MergeCounts(h.offered, h.received + h.buffered, h.dropped);
  }

  lemma {:induction false} DoAllConserved<M>(ops: seq<Op<M>>)
    ensures Conserved(DoAll(ops))
  {
    if ops != [] {
      DoAllConserved(ops[..|ops| - 1]);
      DoConserves(DoAll(ops[..|ops| - 1]), ops[|ops| - 1]);
    }
  }

  /** The messages offered are the sends of the run, in order: no operation invents one. */
  function Offers<M>(ops: seq<Op<M>>): seq<M> {
    if ops == [] then []
    else Offers(ops[..|ops| - 1]) + (match ops[|ops| - 1] case Offer(m) => [m] case Receive => [])
  }

  /** The i-th operation is a send that meets a full buffer. */
  predicate MeetsFull<M>(ops: seq<Op<M>>, i: nat)
    requires i < |ops|
  {
    ops[i].Offer? && |DoAll(ops[..i]).buffered| == CAPACITY
  }

  /** The messages of the sends that met a full buffer, in order. */
  function Lost<M>(ops: seq<Op<M>>): seq<M> {
    if ops == [] then []
    else
      var n := |ops| - 1;
      Lost(ops[..n]) + if MeetsFull(ops, n) then [ops[n].message] else []
  }

  /** A send meets a full buffer exactly when 64 messages wait. */
  lemma FullIsSixtyFour<M>(ops: seq<Op<M>>, i: nat)
    requires i < |ops|
    ensures MeetsFull(ops, i) <==> ops[i].Offer? && |DoAll(ops[..i]).buffered| >= 64
  {
    DoAllConserved(ops[..i]);
  }

  /** A read takes the message that has waited longest, and changes nothing when none waits. */
  lemma ReadTakesOldest<M>(ops: seq<Op<M>>)
    ensures var h, h' := DoAll(ops), DoAll(ops + [Receive]);
            && h'.offered == h.offered && h'.dropped == h.dropped
            && h'.received + h'.buffered == h.received + h.buffered
            && |h'.received| == |h.received| + if h.buffered == [] then 0 else 1
  {
    assert (ops + [Receive])[..|ops|] == ops;
  }

  /** What is dropped is exactly what met 64 waiting messages, send by send: while fewer wait nothing is dropped. */
  lemma {:induction false} DropsExactlyWhenFull<M>(ops: seq<Op<M>>)
    ensures DoAll(ops).offered == Offers(ops)
    ensures DoAll(ops).dropped == Lost(ops)
  {
    if ops != [] {
      DropsExactlyWhenFull(ops[..|ops| - 1]);
      DoAllConserved(ops[..|ops| - 1]);
    }
  }

  /** The channel itself. The history fields only record; the buffer is what the program holds. */
  class Channel<M> {
    var buffer: seq<M>
    ghost var offered: seq<M>
    ghost var received: seq<M>
    ghost var dropped: seq<M>

    ghost function Past(): History<M>
      reads this
    {
      History(offered, received, buffer, dropped)
    }

    constructor ()
      ensures Past() == DoAll([])
    {
      buffer, offered, received, dropped := [], [], [], [];
    }

    method TrySend(message: M)
      modifies this
      ensures Past() == Do(old(Past()), Offer(message))
    {
      offered := offered + [message];
      if |buffer| < CAPACITY {
        buffer := buffer + [message];
      } else {
        dropped := dropped + [message];
      }
    }

    method Read() returns (message: M)
      requires buffer != []
      modifies this
      ensures Past() == Do(old(Past()), Receive)
      ensures message == old(buffer)[0]
    {
      message := buffer[0];
      received := received + [message];
      buffer := buffer[1..];
    }
  }
}
