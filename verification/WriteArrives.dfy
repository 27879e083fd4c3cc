/**
  From one client's buffer to the other's callback: what bt_client_write queues, the HCI loops put on the
  wire behind the data prefix, and the peer's stack takes from there.
*/
module WriteArrives {
  import opened Bytes
  import opened HciCredits
  import opened ClientWrite
  import L2cap
  import Transport

  // ---------------------------------------------------------------- the sender's host, after the write

  function ApplyAll(cfg: Hci.Config, h: Hci.Host, calls: seq<Call>): (h': Hci.Host)
    requires |cfg.localName| < 256
    decreases |calls|
  {
    if calls == [] then h else Apply(cfg, ApplyAll(cfg, h, calls[..|calls| - 1]), calls[|calls| - 1])
  }

  /** The packets that have been queued and those the transport took. */
  function QueuedOf(h: Hci.Host): (queued: seq<seq<byte>>) { BooksOf(h.trace).packets.queued }

  function SentOf(h: Hci.Host): (sent: seq<seq<byte>>) { BooksOf(h.trace).packets.sent }

  predicate AllAccepted(h: Hci.Host)
  {
    forall a | a in h.trace :: (a.CommandTaken? || a.DataTaken?) ==> a.sent
  }

  lemma {:induction false} QueueAllBooks(h: Hci.Host, packets: seq<seq<byte>>)
    requires Inv(h)
    ensures var t := QueueAll(h, packets); Inv(t) && QueuedOf(t) == QueuedOf(h) + packets
    decreases |packets|
  {
    if packets == [] {
      assert QueuedOf(h) + [] == QueuedOf(h);
    } else {
      QueueDataKeeps(h, packets[0]);
      BooksSnoc(h.trace, Hci.DataQueued(packets[0]));
      QueueAllBooks(Hci.QueueData(h, packets[0]), packets[1..]);
      assert QueuedOf(h) + [packets[0]] + packets[1..] == QueuedOf(h) + packets;
    }
  }

  // ---------------------------------------------------------------- no other data is queued

  lemma NotQueued(h: Hci.Host, t: Hci.Host, a: Hci.Act)
    requires t.trace == h.trace + [a] && !a.DataQueued?
    ensures QueuedOf(t) == QueuedOf(h)
  {
    BooksSnoc(h.trace, a);
  }

  lemma {:induction false} CommandLoopQueued(h: Hci.Host, accept: nat)
    ensures QueuedOf(Hci.DrainCommands(h, accept)) == QueuedOf(h)
    decreases accept
  {
    if h.canCommand > 0 && h.commands != [] {
      var t := Hci.TakeCommand(h, accept > 0);
      NotQueued(h, t, Hci.CommandTaken(h.commands[0], accept > 0));
      if accept > 0 { CommandLoopQueued(t, accept - 1); }
    }
  }

  lemma {:induction false} DataLoopQueued(h: Hci.Host, accept: nat)
    ensures QueuedOf(Hci.DrainData(h, accept)) == QueuedOf(h)
    decreases accept
  {
    if h.canData > 0 && h.data != [] {
      var t := Hci.TakeData(h, accept > 0);
      NotQueued(h, t, Hci.DataTaken(h.data[0], accept > 0));
      if accept > 0 { DataLoopQueued(t, accept - 1); }
    }
  }

  lemma CommandQueuedNot(h: Hci.Host, c: seq<byte>)
    ensures QueuedOf(Hci.QueueCommand(h, c)) == QueuedOf(h)
  {
    NotQueued(h, Hci.QueueCommand(h, c), Hci.CommandQueued(c));
  }

  lemma CompleteQueued(cfg: Hci.Config, h: Hci.Host, opcode: word, length: nat)
    requires |cfg.localName| < 256
    ensures QueuedOf(Hci.OnComplete(cfg, h, opcode, length)) == QueuedOf(h)
  {
    var t := Hci.OnComplete(cfg, h, opcode, length);
    if t.trace != h.trace {
      var c := t.trace[|t.trace| - 1];
      assert t.trace == h.trace + [c] && c.CommandQueued?;
      NotQueued(h, t, c);
    }
  }

  lemma EventQueued(cfg: Hci.Config, h: Hci.Host, e: Hci.HciEvent)
    requires |cfg.localName| < 256
    ensures QueuedOf(Hci.Process(cfg, h, e)) == QueuedOf(h)
  {
    if !h.failed {
      match e {
        case CommandStatus(n) => NotQueued(h, Hci.Process(cfg, h, e), Hci.Granted(n));
        case CommandComplete(n, opcode, status, length) =>
          var g := Hci.Note(h.(canCommand := n), Hci.Granted(n));
          NotQueued(h, g, Hci.Granted(n));
          if status == 0 { CompleteQueued(cfg, g, opcode, length); }
        case CompletedPackets(counts) => NotQueued(h, Hci.Process(cfg, h, e), Hci.Completed(Hci.Sum(counts)));
        case _ =>
      }
    }
  }

  /** Whatever else happens to the host: queued data stays what it is, and the books agree. */
  lemma {:induction false} OthersQueueNothing(cfg: Hci.Config, h: Hci.Host, calls: seq<Call>)
    requires |cfg.localName| < 256 && Inv(h) && forall c | c in calls :: !c.SendData?
    ensures Inv(ApplyAll(cfg, h, calls)) && QueuedOf(ApplyAll(cfg, h, calls)) == QueuedOf(h)
    decreases |calls|
  {
    if calls != [] {
      var front, c := calls[..|calls| - 1], calls[|calls| - 1];
      assert c in calls && forall x | x in front :: x in calls;
      OthersQueueNothing(cfg, h, front);
      var m := ApplyAll(cfg, h, front);
      ApplyKeeps(cfg, m, c);
      match c {
        case OnEvent(e) => EventQueued(cfg, m, e);
        case SendCommand(b) => CommandQueuedNot(m, b);
        case CommandLoop(accept) => CommandLoopQueued(m, accept);
        case DataLoop(accept) => DataLoopQueued(m, accept);
      }
    }
  }

  /** An empty queue and no refusals: what was queued was sent. */
  lemma EmptyMeansSent(h: Hci.Host)
    requires Inv(h) && h.data == [] && AllAccepted(h)
    ensures SentOf(h) == QueuedOf(h) && DataOf(h.wire) == Prefixed(QueuedOf(h))
  {
    SentUnlessRefused(h.trace);
    DataOnWire(h.trace);
    var k := BooksOf(h.trace);
    assert k.packets.taken + [] == k.packets.taken;
  }

  /**
    Packets queued on an idle host are, once the queue is empty again, on the wire behind the data prefix,
    each once and in order, whatever events and commands came in between.
  */
  lemma QueuedIsSent(cfg: Hci.Config, h: Hci.Host, packets: seq<seq<byte>>, more: seq<Call>)
    requires |cfg.localName| < 256 && Inv(h) && h.data == [] && AllAccepted(h) && forall c | c in more :: !c.SendData?
    requires var t := ApplyAll(cfg, QueueAll(h, packets), more); t.data == [] && AllAccepted(t)
    ensures DataOf(ApplyAll(cfg, QueueAll(h, packets), more).wire) == DataOf(h.wire) + Prefixed(packets)
  {
    QueueAllBooks(h, packets);
    OthersQueueNothing(cfg, QueueAll(h, packets), more);
    EmptyMeansSent(h);
    EmptyMeansSent(ApplyAll(cfg, QueueAll(h, packets), more));
    PrefixedConcat(QueuedOf(h), packets);
  }

  lemma PrefixedConcat(a: seq<seq<byte>>, b: seq<seq<byte>>)
    ensures Prefixed(a + b) == Prefixed(a) + Prefixed(b)
  {
  }

  // ---------------------------------------------------------------- the bytes on the wire

  function AclItems(packets: seq<seq<byte>>): (items: seq<Transport.Item>)
  {
    seq(|packets|, i requires 0 <= i < |packets| => Transport.Acl(packets[i]))
  }

  lemma StreamSnoc(front: seq<seq<byte>>, p: seq<byte>)
    ensures Transport.Stream(AclItems(front + [p])) == Transport.Stream(AclItems(front)) + ([Hci.PREFIX_DATA] + p)
  {
    var items := AclItems(front + [p]);
    assert items[..|items| - 1] == AclItems(front) && items[|items| - 1] == Transport.Acl(p);
  }

  /** Prefixed packets, run together, are the stream of ACL packets on the wire. */
  lemma {:induction false} PrefixedIsStream(packets: seq<seq<byte>>)
    ensures Flatten(Prefixed(packets)) == Transport.Stream(AclItems(packets))
    decreases |packets|
  {
    if packets != [] {
      var front, p := packets[..|packets| - 1], packets[|packets| - 1];
      PrefixedIsStream(front);
      assert packets == front + [p];
      PrefixedSnoc(front, p);
      FlattenSnoc(Prefixed(front), [Hci.PREFIX_DATA] + p);
      StreamSnoc(front, p);
    }
  }

  lemma ItemsArePackets(handle: word, cid: word, n: nat, chunks: seq<seq<byte>>)
    requires forall c | c in chunks :: EndToEnd.Sendable(n, c)
    ensures AclItems(PacketsFor(handle, cid, n, chunks)) == EndToEnd.Items(handle, cid, n, chunks)
  {
  }

  // ---------------------------------------------------------------- the whole way

  /**
    A buffer that bt_client_write has queued on an idle host, once the host's data queue is empty again and
    nothing was refused: its bytes behind the data prefix, read by the peer in any pieces, call the peer's
    client back once for each chunk, in order, and leave the peer's deframer idle.
  */
  lemma WrittenIsDelivered(
      cfg: Hci.Config, h: Hci.Host, more: seq<Call>, buf: seq<byte>, onAir: seq<seq<byte>>, pieces: seq<seq<byte>>,
      rx: Transport.Rx, st: EndToEnd.Stack, handle: word, cid: word, i: nat, n: nat)
    requires |cfg.localName| < 256 && Inv(h) && h.data == [] && AllAccepted(h) && forall c | c in more :: !c.SendData?
    requires 1 <= n < 32
    requires var t := ApplyAll(cfg, QueueAll(h, PacketsFor(handle, cid, n, EndToEnd.Chunks(buf))), more);
             t.data == [] && AllAccepted(t) && DataOf(t.wire) == DataOf(h.wire) + onAir
    requires Flatten(pieces) == Flatten(onAir)
    requires EndToEnd.Open(st, handle, cid, i, n) && Transport.Idle(rx) && rx.host.data == []
    ensures var t := Transport.FeedChunks(rx, pieces);
            var st' := EndToEnd.OnPackets(st, L2cap.DeviceOf(st.lcap.conns[i]), cid, t.host.data);
            && Transport.Idle(t)
            && EndToEnd.Heard(st, st', handle, cid, i, n, EndToEnd.Calls(n, EndToEnd.Chunks(buf)))
  {
    var chunks := EndToEnd.Chunks(buf);
    var packets := PacketsFor(handle, cid, n, chunks);
    QueuedIsSent(cfg, h, packets, more);
    SameTail(DataOf(h.wire), onAir, Prefixed(packets));
    PrefixedIsStream(packets);
    ItemsArePackets(handle, cid, n, chunks);
    EndToEnd.ChunksAreDelivered(chunks, pieces, rx, st, handle, cid, i, n);
  }

  lemma SameTail<T>(a: seq<T>, b: seq<T>, c: seq<T>)
    requires a + b == a + c
    ensures b == c
  {
    assert (a + b)[|a|..] == b && (a + c)[|a|..] == c;
  }
}
