/** The two rings, as values, and that each behaves like the queue it stands for under every sequence of operations. */
module Rings {
  import opened Bytes
  import opened Queues

  // ---------------------------------------------------------------- the TX ring

  const TX_DEPTH := 16
  const TX_MAX_PACKET := 260

  /** txq, tx_head, tx_tail and tx_count. */
  datatype TxRing = TxRing(slots: seq<seq<byte>>, head: nat, tail: nat, count: nat)

  predicate TxOk(r: TxRing)
  {
    |r.slots| == TX_DEPTH && r.head < TX_DEPTH && r.count <= TX_DEPTH && r.tail == (r.head + r.count) % TX_DEPTH
  }

  function TxItems(r: TxRing): (v: seq<seq<byte>>)
    requires TxOk(r)
  {
    Window(r.slots, r.head, r.count)
  }

  predicate TxAccepts(r: TxRing, packet: seq<byte>) { |packet| <= TX_MAX_PACKET && r.count != TX_DEPTH }

  /** serial_send, under the lock. */
  function TxSend(r: TxRing, packet: seq<byte>): (v: TxRing)
    requires TxOk(r)
  {
    if TxAccepts(r, packet) then
      r.(slots := r.slots[r.tail := packet], tail := (r.tail + 1) % TX_DEPTH, count := r.count + 1)
    else r
  }

  /** The dequeue half of tx_thread_fn, under the lock. */
  function TxTake(r: TxRing): (v: TxRing)
  {
    if r.count > 0 then r.(head := (r.head + 1) % TX_DEPTH, count := r.count - 1) else r
  }

  function TxEmpty(): (r: TxRing) { TxRing(seq(TX_DEPTH, _ => []), 0, 0, 0) }

  lemma TxSendIsPut(r: TxRing, packet: seq<byte>)
    requires TxOk(r) && TxAccepts(r, packet)
    ensures TxOk(TxSend(r, packet)) && TxItems(TxSend(r, packet)) == TxItems(r) + [packet]
  {
    PlaceIsMod(TX_DEPTH, r.head, r.count);
    PlaceIsMod(TX_DEPTH, r.tail, 1);
    PlaceIsMod(TX_DEPTH, r.head, r.count + 1);
    WindowPut(r.slots, r.head, r.count, packet);
  }

  /** A packet is queued exactly when it has at most 260 bytes and fewer than 16 wait; otherwise nothing changes. */
  lemma TxQueuesIff(r: TxRing, packet: seq<byte>)
    requires TxOk(r)
    ensures if |packet| <= 260 && |TxItems(r)| < 16 then
              TxOk(TxSend(r, packet)) && TxItems(TxSend(r, packet)) == TxItems(r) + [packet]
            else TxSend(r, packet) == r
  {
    if TxAccepts(r, packet) { TxSendIsPut(r, packet); }
  }

  lemma TxTakeIsTake(r: TxRing)
    requires TxOk(r) && r.count > 0
    ensures TxOk(TxTake(r))
    ensures TxItems(r)[0] == r.slots[r.head] && TxItems(TxTake(r)) == TxItems(r)[1..]
  {
  }

  /** A ring and the packets the transmit thread took off. */
  datatype TxRun = TxRun(ring: TxRing, sent: seq<seq<byte>>)

  function TxStep(s: TxRun, op: Op<seq<byte>>): (r: TxRun)
    requires TxOk(s.ring)
  {
    match op
    case Put(packet) => TxRun(TxSend(s.ring, packet), s.sent)
    case Take => TxRun(TxTake(s.ring), if s.ring.count > 0 then s.sent + [s.ring.slots[s.ring.head]] else s.sent)
  }

  lemma TxStepOk(s: TxRun, op: Op<seq<byte>>)
    requires TxOk(s.ring)
    ensures TxOk(TxStep(s, op).ring)
  {
    if op.Put? {
      if TxAccepts(s.ring, op.x) { TxSendIsPut(s.ring, op.x); }
    } else if s.ring.count > 0 {
      TxTakeIsTake(s.ring);
    }
  }

  /** The producer's and the consumer's operations in the order they get the lock. */
  function TxAfter(ops: seq<Op<seq<byte>>>): (s: TxRun)
    ensures TxOk(s.ring)
    decreases |ops|
  {
    if ops == [] then TxRun(TxEmpty(), [])
    else
      var s := TxAfter(ops[..|ops| - 1]);
      TxStepOk(s, ops[|ops| - 1]);
      TxStep(s, ops[|ops| - 1])
  }

  /** The operations without the packets that are too long for a slot. */
  function Fitting(ops: seq<Op<seq<byte>>>): (r: seq<Op<seq<byte>>>)
    decreases |ops|
  {
    if ops == [] then []
    else
      var last := ops[|ops| - 1];
      Fitting(ops[..|ops| - 1]) + if last.Put? && |last.x| > TX_MAX_PACKET then [] else [last]
  }

  /** The ring and the queue hold the same and have delivered the same. */
  predicate TxMatches(s: TxRun, f: Fifo<seq<byte>>)
  {
    TxOk(s.ring) && TxItems(s.ring) == f.items && s.sent == f.delivered
  }

  lemma TxStepMatches(s: TxRun, f: Fifo<seq<byte>>, op: Op<seq<byte>>)
    requires TxMatches(s, f)
    ensures TxMatches(TxStep(s, op), if op.Put? && |op.x| > TX_MAX_PACKET then f else FifoStep(Some(TX_DEPTH), f, op))
  {
    if op.Put? {
      if TxAccepts(s.ring, op.x) { TxSendIsPut(s.ring, op.x); }
    } else if s.ring.count > 0 {
      TxTakeIsTake(s.ring);
    }
  }

  lemma TxAfterSnoc(ops: seq<Op<seq<byte>>>, op: Op<seq<byte>>)
    ensures TxAfter(ops + [op]) == TxStep(TxAfter(ops), op)
  {
    assert (ops + [op])[..|ops|] == ops;
  }

  lemma FittingSnoc(ops: seq<Op<seq<byte>>>, op: Op<seq<byte>>)
    ensures Fitting(ops + [op]) == Fitting(ops) + if op.Put? && |op.x| > TX_MAX_PACKET then [] else [op]
  {
    assert (ops + [op])[..|ops|] == ops;
  }

  /** The ring and the queue after the same operations. */
  predicate TxTracks(ops: seq<Op<seq<byte>>>) { TxMatches(TxAfter(ops), FifoRun(Some(TX_DEPTH), Fitting(ops))) }

  lemma TxNextTracks(ops: seq<Op<seq<byte>>>, op: Op<seq<byte>>)
    requires TxTracks(ops)
    ensures TxTracks(ops + [op])
  {
    TxAfterSnoc(ops, op);
    FittingSnoc(ops, op);
    TxStepMatches(TxAfter(ops), FifoRun(Some(TX_DEPTH), Fitting(ops)), op);
    FifoSnoc(Some(TX_DEPTH), Fitting(ops), op);
    assert Fitting(ops) + [] == Fitting(ops);
  }

  lemma {:induction false} TxAlwaysTracks(ops: seq<Op<seq<byte>>>)
    ensures TxTracks(ops)
    decreases |ops|
  {
    if ops != [] {
      var front, op := ops[..|ops| - 1], ops[|ops| - 1];
      TxAlwaysTracks(front);
      TxNextTracks(front, op);
      assert ops == front + [op];
    }
  }

  /**
    Under every interleaving of sends and takes, the TX ring is a queue of capacity 16 for the packets that
    fit: same contents, same packets delivered, all that it accepted in order; and its tail is head plus count,
    modulo 16.
  */
  lemma TxRingIsFifo(ops: seq<Op<seq<byte>>>)
    ensures TxMatches(TxAfter(ops), FifoRun(Some(16), Fitting(ops)))
    ensures TxAfter(ops).sent + TxItems(TxAfter(ops).ring) == FifoRun(Some(16), Fitting(ops)).accepted
    ensures TxAfter(ops).ring.tail == (TxAfter(ops).ring.head + TxAfter(ops).ring.count) % 16
  {
    TxAlwaysTracks(ops);
    FifoOrder(Some(TX_DEPTH), Fitting(ops));
  }

  // ---------------------------------------------------------------- the HID ring

  const NUM_REPORT := 40
  const REPORT_SIZE := 12

  type Report = r: seq<byte> | |r| == REPORT_SIZE witness seq(REPORT_SIZE, _ => 0)

  /** head is where the next report is written, tail where the next is read. */
  datatype HidRing = HidRing(buffer: seq<Report>, head: nat, tail: nat, full: bool)

  predicate HidOk(r: HidRing)
  {
    |r.buffer| == NUM_REPORT && r.head < NUM_REPORT && r.tail < NUM_REPORT && (r.full ==> r.head == r.tail)
  }

  predicate HidIsEmpty(r: HidRing) { !r.full && r.head == r.tail }

  function HidCount(r: HidRing): (k: nat)
    requires HidOk(r)
    ensures k <= NUM_REPORT
  {
    if r.full then NUM_REPORT else if r.head >= r.tail then r.head - r.tail else r.head + NUM_REPORT - r.tail
  }

  function HidItems(r: HidRing): (v: seq<Report>)
    requires HidOk(r)
  {
    Window(r.buffer, r.tail, HidCount(r))
  }

  /** circular_buffer_write. */
  function HidWrite(r: HidRing, report: Report): (v: HidRing)
    requires HidOk(r)
  {
    if r.full then r
    else
      var head := (r.head + 1) % NUM_REPORT;
      r.(buffer := r.buffer[r.head := report], head := head, full := head == r.tail)
  }

  /** circular_buffer_read. */
  function HidRead(r: HidRing): (v: HidRing)
    requires HidOk(r)
  {
    if HidIsEmpty(r) then r else r.(tail := (r.tail + 1) % NUM_REPORT, full := false)
  }

  function HidEmpty(): (r: HidRing) { HidRing(seq(NUM_REPORT, _ => seq(REPORT_SIZE, _ => 0)), 0, 0, false) }

  /** When head and tail meet, the flag alone tells 40 reports from none. */
  lemma FullFlagDecides(r: HidRing)
    requires HidOk(r)
    ensures r.full <==> |HidItems(r)| == NUM_REPORT
    ensures HidIsEmpty(r) <==> HidItems(r) == []
    ensures r.head == r.tail <==> |HidItems(r)| == 0 || |HidItems(r)| == NUM_REPORT
  {
  }

  lemma HidWriteIsPut(r: HidRing, report: Report)
    requires HidOk(r) && !r.full
    ensures HidOk(HidWrite(r, report)) && HidItems(HidWrite(r, report)) == HidItems(r) + [report]
  {
  }

  /** A report of 12 bytes is queued exactly when fewer than 40 wait. */
  lemma HidQueuesIff(r: HidRing, report: Report)
    requires HidOk(r)
    ensures |report| == 12
    ensures if |HidItems(r)| < 40 then
              HidOk(HidWrite(r, report)) && HidItems(HidWrite(r, report)) == HidItems(r) + [report]
            else HidWrite(r, report) == r
  {
    FullFlagDecides(r);
    if !r.full { HidWriteIsPut(r, report); }
  }

  lemma HidReadIsTake(r: HidRing)
    requires HidOk(r) && !HidIsEmpty(r)
    ensures HidOk(HidRead(r)) && HidItems(r) != []
    ensures HidItems(r)[0] == r.buffer[r.tail] && HidItems(HidRead(r)) == HidItems(r)[1..]
  {
  }

  /** A ring and the reports read from it. */
  datatype HidRun = HidRun(ring: HidRing, read: seq<Report>)

  function HidStep(s: HidRun, op: Op<Report>): (r: HidRun)
    requires HidOk(s.ring)
  {
    match op
    case Put(x) => HidRun(HidWrite(s.ring, x), s.read)
    case Take => HidRun(HidRead(s.ring), if HidIsEmpty(s.ring) then s.read else s.read + [s.ring.buffer[s.ring.tail]])
  }

  lemma HidStepOk(s: HidRun, op: Op<Report>)
    requires HidOk(s.ring)
    ensures HidOk(HidStep(s, op).ring)
  {
  }

  function HidAfter(ops: seq<Op<Report>>): (s: HidRun)
    ensures HidOk(s.ring)
    decreases |ops|
  {
    if ops == [] then HidRun(HidEmpty(), [])
    else
      var s := HidAfter(ops[..|ops| - 1]);
      HidStepOk(s, ops[|ops| - 1]);
      HidStep(s, ops[|ops| - 1])
  }

  lemma {:induction false} HidTracks(ops: seq<Op<Report>>)
    ensures HidItems(HidAfter(ops).ring) == FifoRun(Some(NUM_REPORT), ops).items
    ensures HidAfter(ops).read == FifoRun(Some(NUM_REPORT), ops).delivered
    decreases |ops|
  {
    if ops != [] {
      var front, op := ops[..|ops| - 1], ops[|ops| - 1];
      HidTracks(front);
      var r := HidAfter(front).ring;
      FullFlagDecides(r);
      if op.Put? {
        if !r.full { HidWriteIsPut(r, op.x); }
      } else if !HidIsEmpty(r) {
        HidReadIsTake(r);
      }
    }
  }

  /** Under every sequence of writes and reads, the HID ring is a queue of capacity 40. */
  lemma HidRingIsFifo(ops: seq<Op<Report>>)
    ensures HidItems(HidAfter(ops).ring) == FifoRun(Some(40), ops).items
    ensures HidAfter(ops).read == FifoRun(Some(40), ops).delivered
    ensures HidAfter(ops).read + HidItems(HidAfter(ops).ring) == FifoRun(Some(40), ops).accepted
  {
    HidTracks(ops);
    FifoOrder(Some(NUM_REPORT), ops);
  }
}
