/**
  The writing side as the program does it: bt_client_write's loop cuts a buffer into chunks, each chunk
  becomes a packet on the HCI data queue, and the queue is drained to the wire, from where EndToEnd takes it.
*/
module ClientWrite {
  import opened Bytes
  import opened RfcommSession
  import opened RfcommTable
  import opened EndToEnd
  import opened HciDevice

  /** The packets of a list of chunks. */
  function PacketsFor(handle: word, cid: word, n: nat, chunks: seq<seq<byte>>): (packets: seq<seq<byte>>)
    requires forall c | c in chunks :: Sendable(n, c)
  {
    seq(|chunks|, k requires 0 <= k < |chunks| => PacketFor(handle, cid, n, chunks[k]))
  }

  /** All of them on the data queue, one after the other. */
  function QueueAll(h: Hci.Host, packets: seq<seq<byte>>): (h': Hci.Host)
    decreases |packets|
  {
    if packets == [] then h else QueueAll(Hci.QueueData(h, packets[0]), packets[1..])
  }

  lemma QueueCons(h: Hci.Host, p: seq<byte>, rest: seq<seq<byte>>)
    ensures QueueAll(h, [p] + rest) == QueueAll(Hci.QueueData(h, p), rest)
  {
    assert ([p] + rest)[1..] == rest;
  }

  lemma PacketsCons(handle: word, cid: word, n: nat, c: seq<byte>, cs: seq<seq<byte>>)
    requires Sendable(n, c) && forall x | x in cs :: Sendable(n, x)
    ensures PacketsFor(handle, cid, n, [c] + cs) == [PacketFor(handle, cid, n, c)] + PacketsFor(handle, cid, n, cs)
  {
  }

  // ---------------------------------------------------------------- the loop

  function Size(left: nat): (size: nat) { if left > MAX_CHUNK then MAX_CHUNK else left }

  lemma FirstChunk(rest: seq<byte>, head: seq<byte>, tail: seq<byte>)
    requires rest != [] && rest[..Size(|rest|)] == head && rest[Size(|rest|)..] == tail
    ensures Chunks(rest) == [head] + Chunks(tail)
  {
    if |rest| <= MAX_CHUNK {
      assert head == rest && tail == [];
    }
  }

  /** The chunk at an offset, then the chunks behind it. */
  lemma NextChunk(buf: seq<byte>, offset: nat)
    requires offset < |buf|
    ensures var k := Size(|buf| - offset);
            Chunks(buf[offset..]) == [buf[offset..offset + k]] + Chunks(buf[offset + k..])
  {
    var k, rest := Size(|buf| - offset), buf[offset..];
    assert rest[..k] == buf[offset..offset + k] && rest[k..] == buf[offset + k..];
    FirstChunk(rest, buf[offset..offset + k], buf[offset + k..]);
  }

  /** The host once everything from an offset on is queued. */
  function Goal(h: Hci.Host, handle: word, cid: word, n: nat, buf: seq<byte>, offset: nat): (h': Hci.Host)
    requires 1 <= n < 32 && offset <= |buf|
  {
    QueueAll(h, PacketsFor(handle, cid, n, Chunks(buf[offset..])))
  }

  lemma NextPacket(handle: word, cid: word, n: nat, buf: seq<byte>, offset: nat, chunk: seq<byte>)
    requires 1 <= n < 32 && offset < |buf| && chunk == buf[offset..offset + Size(|buf| - offset)]
    ensures Sendable(n, chunk)
    ensures PacketsFor(handle, cid, n, Chunks(buf[offset..]))
         == [PacketFor(handle, cid, n, chunk)] + PacketsFor(handle, cid, n, Chunks(buf[offset + |chunk|..]))
  {
    NextChunk(buf, offset);
    PacketsCons(handle, cid, n, chunk, Chunks(buf[offset + |chunk|..]));
  }

  lemma GoalStep(h: Hci.Host, handle: word, cid: word, n: nat, buf: seq<byte>, offset: nat, chunk: seq<byte>)
    requires 1 <= n < 32 && offset < |buf| && chunk == buf[offset..offset + Size(|buf| - offset)]
    ensures Goal(h, handle, cid, n, buf, offset)
         == Goal(Hci.QueueData(h, PacketFor(handle, cid, n, chunk)), handle, cid, n, buf, offset + |chunk|)
  {
    NextPacket(handle, cid, n, buf, offset, chunk);
    QueueCons(h, PacketFor(handle, cid, n, chunk), PacketsFor(handle, cid, n, Chunks(buf[offset + |chunk|..])));
  }

  /** Channel i of the session is open and can be addressed. */
  ghost predicate Writable(session: RfSession, i: nat)
    reads session, session.channel
  {
    && session.Valid() && i < session.channel.Length && session.channel[i].Channel?
    && 1 <= session.channel[i].num < 32 && RfcommSession.Open in session.channel[i].bits
  }

  /** bt_client_write on one open channel: the packets of the chunks go on the data queue, in order. */
  method BtClientWrite(session: RfSession, hci: HciContext, i: nat, buf: seq<byte>)
    requires Writable(session, i) && hci.Valid()
    modifies session`packets, session`trace, hci`dataQueue, hci`trace
    ensures Writable(session, i) && hci.Valid()
    ensures hci.Abs() == QueueAll(old(hci.Abs()),
                                  PacketsFor(session.handle, session.remoteCid, session.channel[i].num, Chunks(buf)))
  {
    var offset := 0;
    ghost var handle, cid, n := session.handle, session.remoteCid, session.channel[i].num;
    ghost var goal := Goal(hci.Abs(), handle, cid, n, buf, 0);
    assert buf[0..] == buf;
    while offset < |buf|
      invariant Writable(session, i) && hci.Valid() && offset <= |buf|
      invariant Goal(hci.Abs(), handle, cid, n, buf, offset) == goal
    {
      offset := SendChunk(session, hci, i, buf, offset);
    }
    assert buf[offset..] == [];
  }

  /** One turn of the loop. */
  method SendChunk(session: RfSession, hci: HciContext, i: nat, buf: seq<byte>, offset: nat) returns (next: nat)
    requires Writable(session, i) && hci.Valid() && offset < |buf|
    modifies session`packets, session`trace, hci`dataQueue, hci`trace
    ensures Writable(session, i) && hci.Valid() && offset < next <= |buf|
    ensures Goal(hci.Abs(), session.handle, session.remoteCid, session.channel[i].num, buf, next)
         == Goal(old(hci.Abs()), session.handle, session.remoteCid, session.channel[i].num, buf, offset)
  {
    var size := if |buf| - offset > MAX_CHUNK then MAX_CHUNK else |buf| - offset;
    var chunk := buf[offset..offset + size];
    GoalStep(hci.Abs(), session.handle, session.remoteCid, session.channel[i].num, buf, offset, chunk);
    SendOne(session, hci, i, chunk);
    next := offset + |chunk|;
  }

  /** rfLayer_sendData, and the packet it builds onto the data queue. */
  method SendOne(session: RfSession, hci: HciContext, i: nat, chunk: seq<byte>)
    requires Writable(session, i) && hci.Valid() && Sendable(session.channel[i].num, chunk)
    modifies session`packets, session`trace, hci`dataQueue, hci`trace
    ensures Writable(session, i) && hci.Valid()
    ensures hci.Abs() == Hci.QueueData(old(hci.Abs()),
                                       PacketFor(session.handle, session.remoteCid, session.channel[i].num, chunk))
  {
    var packet := BuildPacket(session, i, chunk);
    hci.HciSendData(packet);
  }

  /** sendPacket for a chunk: what it hands down. */
  method BuildPacket(session: RfSession, i: nat, chunk: seq<byte>) returns (packet: seq<byte>)
    requires Writable(session, i) && Sendable(session.channel[i].num, chunk)
    modifies session`packets, session`trace
    ensures Writable(session, i) && session.packets == old(session.packets) + [packet]
    ensures packet == PacketFor(session.handle, session.remoteCid, session.channel[i].num, chunk)
  {
    ghost var n := session.channel[i].num;
    DataPacket(session.handle, session.remoteCid, n, chunk);
    WireSnoc(session.handle, session.remoteCid, session.trace, Sent(n, RfcommFrames.Data(n, chunk), true));
    session.SendClientData(i, chunk);
    packet := session.packets[|session.packets| - 1];
  }

  lemma DataPacket(handle: word, cid: word, n: nat, chunk: seq<byte>)
    requires Sendable(n, chunk)
    ensures PacketsOut(handle, cid, Sent(n, RfcommFrames.Data(n, chunk), true)) == [PacketFor(handle, cid, n, chunk)]
  {
  }
}
