/**
  Client data from one stack to the next: bt_client_write cuts a buffer into chunks, each chunk becomes
  an RFCOMM frame in an L2CAP packet in an ACL packet on the wire; the peer's deframer, L2CAP layer and
  RFCOMM session take it apart again.
*/
module EndToEnd {
  import opened Bytes
  import Transport
  import L2capPackets
  import L2cap
  import opened RfcommSession

  const MAX_CHUNK := 127

  type Call = RfcommFrames.Call

  predicate IsClientData(f: RfcommFrames.Frame) { RfcommFrames.IsClientData(f) }

  // ---------------------------------------------------------------- the sending side

  /** bt_client_write's cut of a buffer. */
  function Chunks(buf: seq<byte>): (chunks: seq<seq<byte>>)
    ensures forall c | c in chunks :: 1 <= |c| <= MAX_CHUNK
    decreases |buf|
  {
    if buf == [] then [] else if |buf| <= MAX_CHUNK then [buf] else [buf[..MAX_CHUNK]] + Chunks(buf[MAX_CHUNK..])
  }

  lemma {:induction false} ChunksReassemble(buf: seq<byte>)
    ensures Flatten(Chunks(buf)) == buf
    decreases |buf|
  {
    if 0 < |buf| <= MAX_CHUNK {
      FlattenOne(buf);
    } else if buf != [] {
      ChunksReassemble(buf[MAX_CHUNK..]);
      assert Chunks(buf)[1..] == Chunks(buf[MAX_CHUNK..]);
    }
  }

  predicate Sendable(n: nat, chunk: seq<byte>) { 1 <= n < 32 && 1 <= |chunk| <= MAX_CHUNK }

  /** The frame sendPacket builds for a chunk. */
  function FrameFor(n: nat, chunk: seq<byte>): (f: seq<byte>)
    requires Sendable(n, chunk)
    ensures |f| == |chunk| + 4
  {
    RfcommFrames.Encode(RfcommFrames.Data(n, chunk), true)
  }

  function PacketFor(handle: word, cid: word, n: nat, chunk: seq<byte>): (r: seq<byte>)
    requires Sendable(n, chunk)
  {
    L2capPackets.Packet(L2capPackets.WithBoundary(handle), cid, FrameFor(n, chunk))
  }

  /** The packets for a list of chunks, as the transport sends them. */
  function Items(handle: word, cid: word, n: nat, chunks: seq<seq<byte>>): (r: seq<Transport.Item>)
    requires forall c | c in chunks :: Sendable(n, c)
  {
    seq(|chunks|, i requires 0 <= i < |chunks| => Transport.Acl(PacketFor(handle, cid, n, chunks[i])))
  }

  // ---------------------------------------------------------------- the receiving side

  /** The peer above its transport. */
  datatype Stack = Stack(lcap: L2cap.Layer, rfcomm: Session)

  /** Data for the RFCOMM connection goes to its event handler. */
  function Forward(r: Session, a: L2cap.Act, d: nat, cid: word): (v: Session)
  {
    if a.device == d && a.lcid == cid && a.what.Told? && a.what.event.Data? then
      match RfcommFrames.Decode(a.what.event.payload)
      case None => r
      case Some(f) => Handle(r, f)
    else r
  }

  function ForwardAll(r: Session, acts: seq<L2cap.Act>, d: nat, cid: word): (v: Session)
    decreases |acts|
  {
    if acts == [] then r else ForwardAll(Forward(r, acts[0], d, cid), acts[1..], d, cid)
  }

  /** What happened between two states of the layer. */
  function Since(l: L2cap.Layer, l': L2cap.Layer): (r: seq<L2cap.Act>)
  {
    if |l.trace| <= |l'.trace| then l'.trace[|l.trace|..] else []
  }

  /** One packet from the data queue. */
  function OnPacket(st: Stack, d: nat, cid: word, p: seq<byte>): (r: Stack)
  {
    var l := L2cap.Step(st.lcap, L2cap.Receive(L2capPackets.Decode(p)));
    Stack(l, ForwardAll(st.rfcomm, Since(st.lcap, l), d, cid))
  }

  function OnPackets(st: Stack, d: nat, cid: word, packets: seq<seq<byte>>): (r: Stack)
    decreases |packets|
  {
    if packets == [] then st
    else OnPacket(OnPackets(st, d, cid, packets[..|packets| - 1]), d, cid, packets[|packets| - 1])
  }

  /** What the client of channel n is called back with. */
  function Delivery(a: Act, n: nat): (calls: seq<Call>)
  {
    if a.Got? && IsClientData(a.frame) && RfcommFrames.Target(a.frame) == n then [RfcommFrames.CallOf(a.frame)] else []
  }

  function Delivered(trace: seq<Act>, n: nat): (calls: seq<Call>)
    decreases |trace|
  {
    if trace == [] then [] else Delivered(trace[..|trace| - 1], n) + Delivery(trace[|trace| - 1], n)
  }

  lemma DeliveredSnoc(trace: seq<Act>, a: Act, n: nat)
    ensures Delivered(trace + [a], n) == Delivered(trace, n) + Delivery(a, n)
  {
    assert (trace + [a])[..|trace|] == trace;
  }

  /** How a chunk arrives: as it was sent, or, when it starts with 1, without that byte and 128 bytes too long. */
  function CallFor(n: nat, chunk: seq<byte>): (call: Call)
    requires Sendable(n, chunk)
  {
    if chunk[0] == 1 then RfcommFrames.Call(chunk[1..] + [RfcommFrames.CheckOf(n, chunk, true)], 128 + |chunk|)
    else RfcommFrames.Call(chunk, |chunk|)
  }

  /** One call for each chunk, in order. */
  function Calls(n: nat, chunks: seq<seq<byte>>): (calls: seq<Call>)
    requires forall c | c in chunks :: Sendable(n, c)
    ensures |calls| == |chunks|
  {
    seq(|chunks|, k requires 0 <= k < |chunks| => CallFor(n, chunks[k]))
  }

  lemma CallsSnoc(n: nat, front: seq<seq<byte>>, last: seq<byte>)
    requires Sendable(n, last) && forall c | c in front :: Sendable(n, c)
    ensures Calls(n, front + [last]) == Calls(n, front) + [CallFor(n, last)]
  {
  }

  // ---------------------------------------------------------------- one frame in the session

  /** A session with channel n and a client. */
  predicate Listens(r: Session, n: nat) { r.client && Has(r, n) }

  /** Client data raises no bits and has no answer: it is only noted. */
  lemma OnlyNoted(r: Session, f: RfcommFrames.Frame)
    requires IsClientData(f) && Has(r, RfcommFrames.Target(f))
    ensures Absorb(r, f) == Record(r, Got(f))
  {
    var i := Find(r.slots, RfcommFrames.Target(f));
    assert r.slots[i].bits + {} == r.slots[i].bits;
    assert r.slots[i := r.slots[i]] == r.slots;
  }

  /** The frame a chunk is read as. */
  function FrameRead(n: nat, chunk: seq<byte>): (f: RfcommFrames.Frame)
    requires Sendable(n, chunk)
    ensures IsClientData(f) && RfcommFrames.Target(f) == n && RfcommFrames.CallOf(f) == CallFor(n, chunk)
  {
    if chunk[0] == 1 then RfcommFrames.Overrun(n, CallFor(n, chunk).known, CallFor(n, chunk).len)
    else RfcommFrames.Data(n, chunk)
  }

  lemma ChunkRead(n: nat, chunk: seq<byte>)
    requires Sendable(n, chunk)
    ensures RfcommFrames.Decode(FrameFor(n, chunk)) == Some(FrameRead(n, chunk))
  {
    if chunk[0] == 1 {
      RfcommFrames.DataMisread(n, chunk, true);
    } else {
      RfcommFrames.DataRoundTrip(n, chunk, true);
    }
  }

  /** A chunk reaches the client in exactly one call, and the session goes on listening. */
  lemma ChunkHeard(r: Session, n: nat, chunk: seq<byte>)
    requires Sendable(n, chunk) && Listens(r, n)
    ensures RfcommFrames.Decode(FrameFor(n, chunk)).Some?
    ensures var t := Handle(r, RfcommFrames.Decode(FrameFor(n, chunk)).value);
            Listens(t, n) && Delivered(t.trace, n) == Delivered(r.trace, n) + [CallFor(n, chunk)]
  {
    ChunkRead(n, chunk);
    FrameHeard(r, n, FrameRead(n, chunk));
  }

  lemma FrameHeard(r: Session, n: nat, f: RfcommFrames.Frame)
    requires Listens(r, n) && n != 0 && IsClientData(f) && RfcommFrames.Target(f) == n
    ensures var t := Handle(r, f);
            Listens(t, n) && Delivered(t.trace, n) == Delivered(r.trace, n) + [RfcommFrames.CallOf(f)]
  {
    OnlyNoted(r, f);
    DeliveredSnoc(r.trace, Got(f), n);
  }

  // ---------------------------------------------------------------- one packet through the stack

  /** A stack whose RFCOMM connection, in slot i of the table, is open and listens on channel n. */
  predicate Open(st: Stack, handle: word, cid: word, i: nat, n: nat)
  {
    && !st.lcap.failed && handle % 0x1000 != 0 && cid != L2capPackets.SIGNAL_CID
    && i == L2cap.FindLocal(st.lcap, handle, cid) < |st.lcap.conns| && st.lcap.conns[i].psm in st.lcap.clients
    && Listens(st.rfcomm, n)
  }

  /** The layer tells the client of the connection, and nothing else changes. */
  lemma DataTold(l: L2cap.Layer, handle: word, cid: word, i: nat, body: seq<byte>)
    requires !l.failed && handle % 0x1000 != 0
    requires i == L2cap.FindLocal(l, handle, cid) < |l.conns| && l.conns[i].psm in l.clients
    ensures L2cap.Step(l, L2cap.Receive(L2capPackets.Client(handle, cid, body)))
            == L2cap.Say(l, i, L2cap.Told(L2cap.Data(body)))
  {
  }

  lemma BoundaryHidden(l: L2cap.Layer, handle: word, cid: word)
    ensures L2capPackets.WithBoundary(handle) % 0x1000 == handle % 0x1000
    ensures L2cap.FindLocal(l, L2capPackets.WithBoundary(handle), cid) == L2cap.FindLocal(l, handle, cid)
  {
  }

  lemma PacketTold(l: L2cap.Layer, handle: word, cid: word, i: nat, n: nat, chunk: seq<byte>)
    requires !l.failed && handle % 0x1000 != 0 && cid != L2capPackets.SIGNAL_CID && Sendable(n, chunk)
    requires i == L2cap.FindLocal(l, handle, cid) < |l.conns| && l.conns[i].psm in l.clients
    ensures L2cap.Step(l, L2cap.Receive(L2capPackets.Decode(PacketFor(handle, cid, n, chunk))))
         == L2cap.Say(l, i, L2cap.Told(L2cap.Data(FrameFor(n, chunk))))
  {
    var h, body := L2capPackets.WithBoundary(handle), FrameFor(n, chunk);
    L2capPackets.ClientRoundTrip(h, cid, body);
    BoundaryHidden(l, handle, cid);
    DataTold(l, h, cid, i, body);
  }

  /** The stack goes on listening, and the client has had these calls more. */
  predicate Heard(st: Stack, t: Stack, handle: word, cid: word, i: nat, n: nat, calls: seq<Call>)
  {
    && Open(t, handle, cid, i, n) && t.lcap.conns == st.lcap.conns
    && Delivered(t.rfcomm.trace, n) == Delivered(st.rfcomm.trace, n) + calls
  }

  lemma PacketHeard(st: Stack, handle: word, cid: word, i: nat, n: nat, chunk: seq<byte>)
    requires Open(st, handle, cid, i, n) && Sendable(n, chunk)
    ensures Heard(st, OnPacket(st, L2cap.DeviceOf(st.lcap.conns[i]), cid, PacketFor(handle, cid, n, chunk)),
                  handle, cid, i, n, [CallFor(n, chunk)])
  {
    PacketTold(st.lcap, handle, cid, i, n, chunk);
    ChunkHeard(st.rfcomm, n, chunk);
    var d := L2cap.DeviceOf(st.lcap.conns[i]);
    var a := L2cap.ActOf(L2cap.Told(L2cap.Data(FrameFor(n, chunk))), st.lcap.conns[i]);
    var l := L2cap.Say(st.lcap, i, a.what);
    assert Since(st.lcap, l) == [a];
    assert ForwardAll(st.rfcomm, [a], d, cid) == Forward(st.rfcomm, a, d, cid);
  }

  lemma HeardTrans(
      s0: Stack, s1: Stack, s2: Stack, handle: word, cid: word, i: nat, n: nat, a: seq<Call>, b: seq<Call>)
    requires Heard(s0, s1, handle, cid, i, n, a) && Heard(s1, s2, handle, cid, i, n, b)
    ensures Heard(s0, s2, handle, cid, i, n, a + b)
  {
  }

  // ---------------------------------------------------------------- the whole way

  /** The packets of some chunks have been heard, starting from a stack. */
  predicate AllHeard(st: Stack, d: nat, handle: word, cid: word, i: nat, n: nat, chunks: seq<seq<byte>>)
    requires forall c | c in chunks :: Sendable(n, c)
  {
    var t := OnPackets(st, d, cid, Transport.Acls(Items(handle, cid, n, chunks)));
    Heard(st, t, handle, cid, i, n, Calls(n, chunks))
  }

  lemma NextHeard(
      st: Stack, d: nat, handle: word, cid: word, i: nat, n: nat, front: seq<seq<byte>>, last: seq<byte>)
    requires i < |st.lcap.conns| && d == L2cap.DeviceOf(st.lcap.conns[i]) && Sendable(n, last)
    requires (forall c | c in front :: Sendable(n, c)) && AllHeard(st, d, handle, cid, i, n, front)
    ensures AllHeard(st, d, handle, cid, i, n, front + [last])
  {
    var packets, p := Transport.Acls(Items(handle, cid, n, front)), PacketFor(handle, cid, n, last);
    var mid := OnPackets(st, d, cid, packets);
    PacketHeard(mid, handle, cid, i, n, last);
    PacketsSnoc(st, d, cid, packets, p);
    AclsSnoc(handle, cid, n, front, last);
    CallsSnoc(n, front, last);
    HeardTrans(st, mid, OnPacket(mid, d, cid, p), handle, cid, i, n, Calls(n, front), [CallFor(n, last)]);
  }

  lemma NothingHeard(st: Stack, d: nat, handle: word, cid: word, i: nat, n: nat)
    requires Open(st, handle, cid, i, n)
    ensures AllHeard(st, d, handle, cid, i, n, [])
  {
    assert Delivered(st.rfcomm.trace, n) + [] == Delivered(st.rfcomm.trace, n);
  }

  lemma FrontSendable(n: nat, chunks: seq<seq<byte>>)
    requires chunks != [] && forall c | c in chunks :: Sendable(n, c)
    ensures var k := |chunks| - 1;
            && (forall c | c in chunks[..k] :: Sendable(n, c)) && Sendable(n, chunks[k])
            && chunks == chunks[..k] + [chunks[k]]
  {
  }

  lemma {:induction false} PacketsHeard(
      st: Stack, d: nat, handle: word, cid: word, i: nat, n: nat, chunks: seq<seq<byte>>)
    requires Open(st, handle, cid, i, n) && d == L2cap.DeviceOf(st.lcap.conns[i])
    requires forall c | c in chunks :: Sendable(n, c)
    ensures AllHeard(st, d, handle, cid, i, n, chunks)
    decreases |chunks|
  {
    if chunks == [] {
      NothingHeard(st, d, handle, cid, i, n);
    } else {
      var k := |chunks| - 1;
      var front, last := chunks[..k], chunks[k];
      FrontSendable(n, chunks);
      PacketsHeard(st, d, handle, cid, i, n, front);
      NextHeard(st, d, handle, cid, i, n, front, last);
    }
  }

  lemma AclsSnoc(handle: word, cid: word, n: nat, front: seq<seq<byte>>, last: seq<byte>)
    requires Sendable(n, last) && forall c | c in front :: Sendable(n, c)
    ensures Transport.Acls(Items(handle, cid, n, front + [last]))
         == Transport.Acls(Items(handle, cid, n, front)) + [PacketFor(handle, cid, n, last)]
  {
    ItemsSnoc(handle, cid, n, front, last);
    LastAcl(Items(handle, cid, n, front), PacketFor(handle, cid, n, last));
  }

  lemma ItemsSnoc(handle: word, cid: word, n: nat, front: seq<seq<byte>>, last: seq<byte>)
    requires Sendable(n, last) && forall c | c in front :: Sendable(n, c)
    ensures Items(handle, cid, n, front + [last])
            == Items(handle, cid, n, front) + [Transport.Acl(PacketFor(handle, cid, n, last))]
  {
  }

  lemma LastAcl(items: seq<Transport.Item>, p: seq<byte>)
    ensures Transport.Acls(items + [Transport.Acl(p)]) == Transport.Acls(items) + [p]
  {
    assert (items + [Transport.Acl(p)])[..|items|] == items;
  }

  lemma PacketsSnoc(st: Stack, d: nat, cid: word, packets: seq<seq<byte>>, p: seq<byte>)
    ensures OnPackets(st, d, cid, packets + [p]) == OnPacket(OnPackets(st, d, cid, packets), d, cid, p)
  {
    assert (packets + [p])[..|packets|] == packets;
  }

  lemma PacketsWellFormed(handle: word, cid: word, n: nat, chunks: seq<seq<byte>>)
    requires forall c | c in chunks :: Sendable(n, c)
    ensures forall k | 0 <= k < |chunks| :: Transport.WellFormed(Items(handle, cid, n, chunks)[k])
  {
    forall k | 0 <= k < |chunks| ensures Transport.WellFormed(Items(handle, cid, n, chunks)[k]) {
      L2capPackets.PacketShape(L2capPackets.WithBoundary(handle), cid, FrameFor(n, chunks[k]));
    }
  }

  /**
    Chunks of client data on the wire, read by the peer in any pieces: the peer's deframer is idle again and
    its client has been called back once for each chunk, in order.
  */
  lemma ChunksAreDelivered(
      chunks: seq<seq<byte>>, pieces: seq<seq<byte>>, rx: Transport.Rx, st: Stack,
      handle: word, cid: word, i: nat, n: nat)
    requires Open(st, handle, cid, i, n) && Transport.Idle(rx) && rx.host.data == []
    requires forall c | c in chunks :: Sendable(n, c)
    requires Flatten(pieces) == Transport.Stream(Items(handle, cid, n, chunks))
    ensures var t := Transport.FeedChunks(rx, pieces);
            var st' := OnPackets(st, L2cap.DeviceOf(st.lcap.conns[i]), cid, t.host.data);
            Transport.Idle(t) && Heard(st, st', handle, cid, i, n, Calls(n, chunks))
  {
    var items := Items(handle, cid, n, chunks);
    Transport.ChunksDoNotMatter(rx, pieces);
    PacketsWellFormed(handle, cid, n, chunks);
    Transport.StreamDelivered(rx, items);
    assert [] + Transport.Acls(items) == Transport.Acls(items);
    PacketsHeard(st, L2cap.DeviceOf(st.lcap.conns[i]), handle, cid, i, n, chunks);
  }

  // ---------------------------------------------------------------- what the client can make of it

  /** The bytes a client is called with: those that are known, and so many in all. */
  predicate Fills(call: Call, bytes: seq<byte>) { |bytes| == call.len && call.known <= bytes }

  predicate StartsWithOne(c: seq<byte>) { c != [] && c[0] == 1 }

  predicate NoneStartsWithOne(chunks: seq<seq<byte>>) { forall c | c in chunks :: !StartsWithOne(c) }

  lemma FilledOne(n: nat, chunk: seq<byte>, bytes: seq<byte>)
    requires Sendable(n, chunk) && Fills(CallFor(n, chunk), bytes)
    ensures if chunk[0] == 1 then |bytes| == 128 + |chunk| else bytes == chunk
  {
  }

  /** Pieces none of which is shorter, and one of which is longer, are longer together. */
  lemma {:induction false} Longer(a: seq<seq<byte>>, b: seq<seq<byte>>, j: nat)
    requires |a| == |b| && j <= |a| && forall k | 0 <= k < |a| :: |a[k]| <= |b[k]|
    requires j < |a| ==> |a[j]| < |b[j]|
    ensures |Flatten(a)| <= |Flatten(b)| && (j < |a| ==> |Flatten(a)| < |Flatten(b)|)
    decreases |a|
  {
    if a != [] {
      Longer(a[1..], b[1..], if j == 0 then |a| - 1 else j - 1);
    }
  }

  lemma FilledAll(n: nat, chunks: seq<seq<byte>>, got: seq<seq<byte>>)
    requires (forall c | c in chunks :: Sendable(n, c)) && |got| == |chunks|
    requires forall k | 0 <= k < |chunks| :: Fills(CallFor(n, chunks[k]), got[k])
    ensures forall k | 0 <= k < |chunks| :: |chunks[k]| <= |got[k]|
    ensures forall k | 0 <= k < |chunks| ::
              if StartsWithOne(chunks[k]) then |chunks[k]| < |got[k]| else got[k] == chunks[k]
  {
    forall k | 0 <= k < |chunks|
      ensures if StartsWithOne(chunks[k]) then |chunks[k]| < |got[k]| else got[k] == chunks[k]
    {
      FilledOne(n, chunks[k], got[k]);
    }
  }

  lemma FilledLength(n: nat, chunks: seq<seq<byte>>, got: seq<seq<byte>>)
    requires (forall c | c in chunks :: Sendable(n, c)) && |got| == |chunks|
    requires forall k | 0 <= k < |chunks| :: Fills(CallFor(n, chunks[k]), got[k])
    ensures if NoneStartsWithOne(chunks) then got == chunks else |Flatten(got)| > |Flatten(chunks)|
  {
    FilledAll(n, chunks, got);
    if !NoneStartsWithOne(chunks) {
      var j :| 0 <= j < |chunks| && StartsWithOne(chunks[j]);
      Longer(chunks, got, j);
    }
  }

  /**
    Whatever stands in memory behind the frames: the bytes of the calls for a buffer's chunks run together to
    the buffer exactly when none of its chunks starts with 1.
  */
  lemma BufferArrivesIff(n: nat, buf: seq<byte>, got: seq<seq<byte>>)
    requires 1 <= n < 32 && |got| == |Chunks(buf)|
    requires forall k | 0 <= k < |got| :: Fills(Calls(n, Chunks(buf))[k], got[k])
    ensures Flatten(got) == buf <==> NoneStartsWithOne(Chunks(buf))
  {
    ChunksReassemble(buf);
    assert forall k | 0 <= k < |got| :: Calls(n, Chunks(buf))[k] == CallFor(n, Chunks(buf)[k]);
    FilledLength(n, Chunks(buf), got);
  }
}
