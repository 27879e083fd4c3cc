/** The queue objects: btQueue.c's linked list of buffers on the heap, and the two rings in their arrays. */
module QueueDevices {
  import opened Bytes
  import opened Queues
  import opened Rings

  // ---------------------------------------------------------------- btQueue

  class BtBuffer {
    var data: seq<byte>
    var pPrev: BtBuffer?
    var pNext: BtBuffer?

    /** btBuffer_create. */
    constructor (bytes: seq<byte>)
      ensures data == bytes && pPrev == null && pNext == null
    {
      data, pPrev, pNext := bytes, null, null;
    }
  }

  class BtQueue {
    var pFirst: BtBuffer?
    var pLast: BtBuffer?
    ghost var nodes: seq<BtBuffer>   // the buffers in the queue, first to last

    /** The links of the i-th buffer point at its neighbours. */
    ghost predicate LinkedAt(i: nat)
      requires i < |nodes|
      reads this, nodes[i]
    {
      && nodes[i].pPrev == (if i == 0 then null else nodes[i - 1])
      && nodes[i].pNext == (if i == |nodes| - 1 then null else nodes[i + 1])
    }

    ghost predicate Valid()
      reads this, nodes
    {
      && (forall i, j | 0 <= i < j < |nodes| :: nodes[i] != nodes[j])
      && (forall i | 0 <= i < |nodes| :: LinkedAt(i))
      && pFirst == (if nodes == [] then null else nodes[0])
      && pLast == (if nodes == [] then null else nodes[|nodes| - 1])
    }

    /** The bytes waiting, oldest first. */
    ghost function Contents(): (c: seq<seq<byte>>)
      reads this, nodes
      ensures |c| == |nodes|
    {
      seq(|nodes|, i requires 0 <= i < |nodes| reads this, nodes => nodes[i].data)
    }

    /** btQueue_init. */
    constructor ()
      ensures Valid() && nodes == []
    {
      pFirst, pLast, nodes := null, null, [];
    }

    /**
      btQueue_enqueueBuffer: the buffer goes to the end. The list stays well formed exactly when the buffer
      links to nothing behind it, and, in an empty queue, to nothing before it: a buffer as created does.
    */
    method EnqueueBuffer(buffer: BtBuffer)
      requires Valid() && buffer !in nodes
      modifies this, buffer, nodes
      ensures nodes == old(nodes) + [buffer] && Contents() == old(Contents()) + [old(buffer.data)]
      ensures Valid() <==> old(buffer.pNext) == null && (old(nodes) == [] ==> old(buffer.pPrev) == null)
    {
      ghost var was := nodes;
      nodes := nodes + [buffer];
      if pFirst == null {
        pFirst := buffer;
        pLast := buffer;
      } else {
        assert was[|was| - 1] == pLast;
        pLast.pNext := buffer;
        buffer.pPrev := pLast;
        pLast := buffer;
      }
      assert nodes[|was|] == buffer;
      assert LinkedAt(|was|) <==> old(buffer.pNext) == null && (was == [] ==> old(buffer.pPrev) == null);
      forall i | 0 <= i < |was| ensures LinkedAt(i) {
        assert old(LinkedAt(i)) && was[i] == nodes[i];
      }
    }

    /** btQueue_dequeue: the first buffer, if any, still linked to the one that was behind it. */
    method Dequeue() returns (buffer: BtBuffer?)
      requires Valid()
      modifies this, nodes
      ensures Valid()
      ensures old(nodes) == [] ==> buffer == null && nodes == []
      ensures old(nodes) != [] ==> buffer == old(nodes)[0] && nodes == old(nodes)[1..]
      ensures buffer != null ==> buffer.data == old(Contents())[0] && Contents() == old(Contents())[1..]
      ensures buffer != null ==> buffer.pNext == pFirst
    {
      if pFirst == null { return null; }
      ghost var was := nodes;
      buffer := pFirst;
      assert old(LinkedAt(0)) && was[0] == buffer;
      nodes := nodes[1..];
      pFirst := buffer.pNext;
      if pFirst != null {
        assert |was| > 1 && pFirst == was[1];
        pFirst.pPrev := null;
      } else {
        pLast := null;
      }
      forall i | 0 <= i < |nodes| ensures LinkedAt(i) {
        assert old(LinkedAt(i + 1)) && nodes[i] == was[i + 1];
      }
    }
  }

  /**
    Any operations on a new btQueue, each Put of a new buffer: the links stay well formed, and the list holds
    and has handed out exactly what a queue without a capacity does.
  */
  method RunQueue(ops: seq<Op<seq<byte>>>) returns (q: BtQueue, taken: seq<seq<byte>>)
    ensures fresh(q) && fresh(q.nodes) && q.Valid()
    ensures q.Contents() == FifoRun(None, ops).items && taken == FifoRun(None, ops).delivered
    ensures taken + q.Contents() == PutIn(ops)
  {
    q := new BtQueue();
    taken := [];
    for k := 0 to |ops|
      invariant fresh(q) && fresh(q.nodes) && q.Valid()
      invariant q.Contents() == FifoRun(None, ops[..k]).items && taken == FifoRun(None, ops[..k]).delivered
    {
      assert ops[..k + 1] == ops[..k] + [ops[k]];
      FifoSnoc(None, ops[..k], ops[k]);
      match ops[k] {
        case Put(bytes) =>
          var buffer := new BtBuffer(bytes);
          q.EnqueueBuffer(buffer);
        case Take =>
          var buffer := q.Dequeue();
          if buffer != null { taken := taken + [buffer.data]; }
      }
    }
    assert ops[..|ops|] == ops;
    UnboundedOrder(ops);
  }

  // ---------------------------------------------------------------- the TX ring

  class TxQueue {
    const txq: array<seq<byte>>
    var txHead: nat
    var txTail: nat
    var txCount: nat

    ghost function Abs(): (r: TxRing)
      reads this, txq
    {
      TxRing(txq[..], txHead, txTail, txCount)
    }

    ghost predicate Valid()
      reads this, txq
    {
      TxOk(Abs())
    }

    constructor ()
      ensures Valid() && fresh(txq) && Abs() == TxEmpty()
    {
      txq := new seq<byte>[TX_DEPTH](_ => []);
      txHead, txTail, txCount := 0, 0, 0;
      new;
      assert txq[..] == TxEmpty().slots;
    }

    /** serial_send: the number of bytes queued, or -1. */
    method SerialSend(data: seq<byte>) returns (n: int)
      requires Valid()
      modifies this`txTail, this`txCount, txq
      ensures Valid() && Abs() == TxSend(old(Abs()), data)
      ensures TxItems(Abs()) == if n == -1 then old(TxItems(Abs())) else old(TxItems(Abs())) + [data]
      ensures n == if |data| <= TX_MAX_PACKET && old(txCount) < TX_DEPTH then |data| else -1
    {
      if |data| > TX_MAX_PACKET { return -1; }
      if txCount == TX_DEPTH { return -1; }
      TxSendIsPut(Abs(), data);
      PlaceIsMod(TX_DEPTH, txHead, txCount);
      txq[txTail] := data;
      txTail := (txTail + 1) % TX_DEPTH;
      txCount := txCount + 1;
      n := |data|;
    }

    /** The transmit thread with the lock: the next packet, when there is one. */
    method TakeItem() returns (item: Option<seq<byte>>)
      requires Valid()
      modifies this`txHead, this`txCount
      ensures Valid() && Abs() == TxTake(old(Abs()))
      ensures item == if old(TxItems(Abs())) == [] then None else Some(old(TxItems(Abs()))[0])
      ensures item.Some? ==> TxItems(Abs()) == old(TxItems(Abs()))[1..]
    {
      if txCount == 0 { return None; }
      TxTakeIsTake(Abs());
      item := Some(txq[txHead]);
      txHead := (txHead + 1) % TX_DEPTH;
      txCount := txCount - 1;
    }
  }

  // ---------------------------------------------------------------- the HID ring

  class CircularBuffer {
    const buffer: array<Report>
    var head: nat
    var tail: nat
    var full: bool

    ghost function Abs(): (r: HidRing)
      reads this, buffer
    {
      HidRing(buffer[..], head, tail, full)
    }

    ghost predicate Valid()
      reads this, buffer
    {
      HidOk(Abs())
    }

    /** circular_buffer_init. */
    constructor ()
      ensures Valid() && fresh(buffer) && Abs() == HidEmpty()
    {
      buffer := new Report[NUM_REPORT](_ => seq(REPORT_SIZE, _ => 0));
      head, tail, full := 0, 0, false;
      new;
      assert buffer[..] == HidEmpty().buffer;
    }

    /** circular_buffer_write: false when the buffer is full. */
    method Write(report: Report) returns (ok: bool)
      requires Valid()
      modifies this`head, this`full, buffer
      ensures Valid() && Abs() == HidWrite(old(Abs()), report)
      ensures ok <==> |old(HidItems(Abs()))| < NUM_REPORT
      ensures HidItems(Abs()) == if ok then old(HidItems(Abs())) + [report] else old(HidItems(Abs()))
    {
      FullFlagDecides(Abs());
      if full { return false; }
      HidWriteIsPut(Abs(), report);
      buffer[head] := report;
      head := (head + 1) % NUM_REPORT;
      if head == tail { full := true; }
      ok := true;
    }

    /** circular_buffer_read: the oldest report, when there is one. */
    method Read() returns (report: Option<Report>)
      requires Valid()
      modifies this`tail, this`full
      ensures Valid() && Abs() == HidRead(old(Abs()))
      ensures report == if old(HidItems(Abs())) == [] then None else Some(old(HidItems(Abs()))[0])
      ensures report.Some? ==> HidItems(Abs()) == old(HidItems(Abs()))[1..]
    {
      FullFlagDecides(Abs());
      if !full && head == tail { return None; }
      HidReadIsTake(Abs());
      report := Some(buffer[tail]);
      tail := (tail + 1) % NUM_REPORT;
      full := false;
    }
  }
}
