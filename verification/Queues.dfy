/**
  First-in first-out queues, with a capacity or without, and rings that implement them: a window of a fixed
  table that starts at one index and wraps around. The TX ring of transport_serial.c keeps a count, the HID
  ring of client.c a flag.
*/
module Queues {
  import opened Bytes

  // ---------------------------------------------------------------- the queue that is meant

  datatype Op<T> = Put(x: T) | Take

  /** items waiting, and all that was accepted and delivered so far. */
  datatype Fifo<T> = Fifo(items: seq<T>, accepted: seq<T>, delivered: seq<T>)

  function Accept<T>(f: Fifo<T>, x: T): (g: Fifo<T>) { f.(items := f.items + [x], accepted := f.accepted + [x]) }

  function Deliver<T>(f: Fifo<T>): (g: Fifo<T>)
    requires f.items != []
  {
    f.(items := f.items[1..], delivered := f.delivered + [f.items[0]])
  }

  /** Room for one more; a queue without a capacity always has some. */
  predicate HasRoom(capacity: Option<nat>, waiting: nat) { capacity.Some? ==> waiting < capacity.value }

  /** A full queue refuses, an empty one delivers nothing. */
  function FifoStep<T>(capacity: Option<nat>, f: Fifo<T>, op: Op<T>): (g: Fifo<T>)
  {
    match op
    case Put(x) => if HasRoom(capacity, |f.items|) then Accept(f, x) else f
    case Take => if f.items != [] then Deliver(f) else f
  }

  function FifoRun<T>(capacity: Option<nat>, ops: seq<Op<T>>): (f: Fifo<T>)
    decreases |ops|
  {
    if ops == [] then Fifo([], [], []) else FifoStep(capacity, FifoRun(capacity, ops[..|ops| - 1]), ops[|ops| - 1])
  }

  /** Nothing is lost, doubled or reordered, and the capacity is kept. */
  lemma {:induction false} FifoOrder<T>(capacity: Option<nat>, ops: seq<Op<T>>)
    ensures var f := FifoRun(capacity, ops);
            f.accepted == f.delivered + f.items && (capacity.Some? ==> |f.items| <= capacity.value)
    decreases |ops|
  {
    if ops != [] {
      FifoOrder(capacity, ops[..|ops| - 1]);
      var f := FifoRun(capacity, ops[..|ops| - 1]);
      if f.items != [] {
        assert f.items == [f.items[0]] + f.items[1..];
      }
    }
  }

  lemma FifoSnoc<T>(capacity: Option<nat>, ops: seq<Op<T>>, op: Op<T>)
    ensures FifoRun(capacity, ops + [op]) == FifoStep(capacity, FifoRun(capacity, ops), op)
  {
    assert (ops + [op])[..|ops|] == ops;
  }

  /** Everything that is put in, in order. */
  function PutIn<T>(ops: seq<Op<T>>): (all: seq<T>)
    decreases |ops|
  {
    if ops == [] then []
    else
      var op := ops[|ops| - 1];
      PutIn(ops[..|ops| - 1]) + if op.Put? then [op.x] else []
  }

  /** Without a capacity, everything put in is delivered or waits, in order. */
  lemma {:induction false} UnboundedOrder<T>(ops: seq<Op<T>>)
    ensures var f := FifoRun(None, ops); f.delivered + f.items == PutIn(ops)
    decreases |ops|
  {
    if ops != [] {
      var f := FifoRun(None, ops[..|ops| - 1]);
      UnboundedOrder(ops[..|ops| - 1]);
      if f.items != [] {
        assert f.items == [f.items[0]] + f.items[1..];
      }
    }
  }

  // ---------------------------------------------------------------- windows of a table

  /** The index i places after start, in a table of n. */
  function Place(n: nat, start: nat, i: nat): (p: nat)
    requires start < n && i <= n
  {
    if start + i < n then start + i else start + i - n
  }

  lemma PlaceIsMod(n: nat, start: nat, i: nat)
    requires start < n && i <= n
    ensures Place(n, start, i) == (start + i) % n < n
  {
  }

  /** count entries from start on. */
  function Window<T>(table: seq<T>, start: nat, count: nat): (w: seq<T>)
    requires start < |table| && count <= |table|
    ensures |w| == count
  {
    seq(count, i requires 0 <= i < count => table[Place(|table|, start, i)])
  }

  /** Writing behind the window extends it. */
  lemma WindowPut<T>(table: seq<T>, start: nat, count: nat, x: T)
    requires start < |table| && count < |table|
    ensures var at := Place(|table|, start, count);
            Window(table[at := x], start, count + 1) == Window(table, start, count) + [x]
  {
  }
}
