/**
  The receiving side of the H4 transport (Bluetooth Core Specification, Vol 4 Part A, section 2): a
  byte-at-a-time deframer (transport.c, Receive) whose callback puts whole HCI packets on the event
  queue or the data queue (hci.c, receiveTransport).
*/
module Transport {
  import opened Bytes
  import opened Folds

  const PREFIX_DATA: byte := 0x02
  const PREFIX_EVENT: byte := 0x04
  const BUFFER_SIZE := 0xFFFF

  // ---------------------------------------------------------------- receiveTransport

  /** The two queues, and the packet under reassembly: its prefix, its length and what has come. */
  datatype Host = Host(
    events: seq<seq<byte>>, data: seq<seq<byte>>, prefix: byte, length: nat, partial: seq<byte>, failed: bool)

  const EMPTY_HOST := Host([], [], 0, 0, [], false)

  function EventSize(parameters: nat): (r: nat) { parameters + 2 }

  /** The length a first fragment announces; None is a fragment that is ignored as too short. */
  function Announced(prefix: byte, b: seq<byte>): (r: Option<nat>)
  {
    if prefix == PREFIX_DATA then
      if |b| < 4 then None else Some((FromLe16(b[2], b[3]) + 4) % 0x1_0000)
    else if |b| < 2 then None
    else Some(EventSize(b[1]))
  }

  /** failed stands for an assertion or a copy past the end of the buffer. */
  function Deliver(h: Host, prefix: byte, b: seq<byte>): (r: Host)
  {
    if h.failed || b == [] then h.(failed := true)
    else if h.partial == [] then
      match Announced(prefix, b)
      case None => h.(prefix := prefix)
      case Some(n) => Accumulate(h.(prefix := prefix, length := n), b)
    else if prefix != h.prefix then h.(failed := true)
    else Accumulate(h, b)
  }

  function Accumulate(h: Host, b: seq<byte>): (r: Host)
  {
    var got := h.partial + b;
    if |got| > h.length then h.(failed := true)
    else if |got| < h.length then h.(partial := got)
    else
      var done := h.(length := 0, partial := []);
      if h.prefix == PREFIX_DATA then done.(data := h.data + [got]) else done.(events := h.events + [got])
  }

  // ---------------------------------------------------------------- Receive

  datatype RxState = Start | DataHeader | EventHeader | EventLength | Content

  /** The deframer: state, prefix, bytes still to come, bytes so far; and the host it calls back. */
  datatype Rx = Rx(state: RxState, prefix: byte, need: nat, buf: seq<byte>, host: Host)

  function CallBack(rx: Rx): (r: Rx)
  {
    rx.(state := Start, host := Deliver(rx.host, rx.prefix, rx.buf))
  }

  /** One received byte. */
  function Feed(rx: Rx, b: byte): (r: Rx)
  {
    match rx.state
    case Start =>
      var state := if b == PREFIX_EVENT then EventHeader else if b == PREFIX_DATA then DataHeader else Start;
      rx.(state := state, prefix := b, need := 0, buf := [])
    case DataHeader =>
      var buf := rx.buf + [b];
      if |buf| != 4 then rx.(buf := buf)
      else
        var n := FromLe16(buf[2], buf[3]);
        if n == 0 then CallBack(rx.(buf := buf, need := 0)) else rx.(state := Content, buf := buf, need := n)
    case EventHeader => rx.(state := EventLength, buf := rx.buf + [b])
    case EventLength =>
      var buf := rx.buf + [b];
      if b > 0 then rx.(state := Content, buf := buf, need := b) else CallBack(rx.(buf := buf))
    case Content =>
      if |rx.buf| >= BUFFER_SIZE then rx.(host := rx.host.(failed := true))
      else
        var next := rx.(buf := rx.buf + [b], need := if rx.need > 0 then rx.need - 1 else 0);
        if next.need == 0 then CallBack(next) else next
  }

  // ---------------------------------------------------------------- packets and noise

  /** What a controller puts on the wire: packets, and bytes between them that start no packet. */
  datatype Item = Event(bytes: seq<byte>) | Acl(bytes: seq<byte>) | Noise(bytes: seq<byte>)

  predicate WellFormed(i: Item)
  {
    match i
    case Event(b) => |b| >= 2 && |b| == EventSize(b[1])
    case Acl(b) => |b| >= 4 && FromLe16(b[2], b[3]) <= 65531 && |b| == 4 + FromLe16(b[2], b[3])
    case Noise(b) => forall x | x in b :: x != PREFIX_DATA && x != PREFIX_EVENT
  }

  function OnWire(i: Item): (r: seq<byte>)
  {
    match i
    case Event(b) => [PREFIX_EVENT] + b
    case Acl(b) => [PREFIX_DATA] + b
    case Noise(b) => b
  }

  function Stream(items: seq<Item>): (r: seq<byte>)
  {
    if items == [] then [] else Stream(items[..|items| - 1]) + OnWire(items[|items| - 1])
  }

  /** What an item adds to the event queue, and to the data queue. */
  function EventOf(i: Item): (r: seq<seq<byte>>) { if i.Event? then [i.bytes] else [] }

  function AclOf(i: Item): (r: seq<seq<byte>>) { if i.Acl? then [i.bytes] else [] }

  function Events(items: seq<Item>): (r: seq<seq<byte>>)
  {
    if items == [] then []
    else Events(items[..|items| - 1]) + EventOf(items[|items| - 1])
  }

  function Acls(items: seq<Item>): (r: seq<seq<byte>>)
  {
    if items == [] then []
    else Acls(items[..|items| - 1]) + AclOf(items[|items| - 1])
  }

  /** Between packets: the deframer at its start, the reassembly empty. */
  predicate Idle(rx: Rx)
  {
    rx.state == Start && rx.host.partial == [] && rx.host.length == 0 && !rx.host.failed
  }

  // ---------------------------------------------------------------- one item

  /** The content bytes complete the packet and call back once. */
  lemma {:induction false} ContentDelivered(rx: Rx, rest: seq<byte>)
    requires rx.state == Content && rx.need == |rest| > 0 && |rx.buf| + |rest| <= BUFFER_SIZE
    ensures Run(Feed, rx, rest) == CallBack(rx.(buf := rx.buf + rest, need := 0))
    decreases |rest|
  {
    var b, tail := rest[0], rest[1..];
    RunConcat(Feed, rx, [b], tail);
    RunOne(rx, b);
    assert [b] + tail == rest && rx.buf + [b] + tail == rx.buf + rest;
    if tail == [] {
      assert rx.buf + [b] == rx.buf + rest;
    } else {
      ContentDelivered(Feed(rx, b), tail);
    }
  }

  lemma RunOne(rx: Rx, b: byte)
    ensures Run(Feed, rx, [b]) == Feed(rx, b)
  {
    assert [b][..0] == [];
    assert Run(Feed, rx, []) == rx;
  }

  lemma RunHead(rx: Rx, s: seq<byte>)
    requires s != []
    ensures Run(Feed, rx, s) == Run(Feed, Feed(rx, s[0]), s[1..])
  {
    RunConcat(Feed, rx, [s[0]], s[1..]);
    RunOne(rx, s[0]);
    assert [s[0]] + s[1..] == s;
  }

  lemma RunNothing(rx: Rx)
    ensures Run(Feed, rx, []) == rx
  {
  }

  /** A packet that is whole goes to its queue and leaves nothing behind. */
  lemma WholeDelivered(h: Host, prefix: byte, b: seq<byte>)
    requires h.partial == [] && !h.failed && b != [] && Announced(prefix, b) == Some(|b|)
    ensures Deliver(h, prefix, b)
         == h.(prefix := prefix, length := 0,
               data := if prefix == PREFIX_DATA then h.data + [b] else h.data,
               events := if prefix == PREFIX_DATA then h.events else h.events + [b])
  {
    assert [] + b == b;
  }

  /** The state after prefix, event code and length. */
  lemma EventHead(rx: Rx, b: seq<byte>)
    requires rx.state == Start && |b| >= 2
    ensures Run(Feed, rx, [PREFIX_EVENT] + b)
         == Run(Feed, Feed(Rx(EventLength, PREFIX_EVENT, 0, [b[0]], rx.host), b[1]), b[2..])
  {
    var w, tail := [PREFIX_EVENT] + b, b[1..];
    RunHead(rx, w);
    assert w[0] == PREFIX_EVENT && w[1..] == b;
    var r1 := Rx(EventHeader, PREFIX_EVENT, 0, [], rx.host);
    assert Feed(rx, PREFIX_EVENT) == r1;
    RunHead(r1, b);
    assert [] + [b[0]] == [b[0]];
    var r2 := Rx(EventLength, PREFIX_EVENT, 0, [b[0]], rx.host);
    assert Feed(r1, b[0]) == r2;
    RunHead(r2, tail);
    assert tail[0] == b[1] && tail[1..] == b[2..];
  }

  /** Once the length is known, the content follows and the packet is called back. */
  lemma Finish(rx: Rx, head: seq<byte>, rest: seq<byte>, prefix: byte)
    requires rx == Rx(Content, prefix, |rest|, head, rx.host) && rest != [] && |head| + |rest| <= BUFFER_SIZE
    requires Announced(prefix, head + rest) == Some(|head + rest|)
    requires rx.host.partial == [] && rx.host.length == 0 && !rx.host.failed
    ensures var t := Run(Feed, rx, rest);
            && Idle(t)
            && t.host.data == (if prefix == PREFIX_DATA then rx.host.data + [head + rest] else rx.host.data)
            && t.host.events == (if prefix == PREFIX_DATA then rx.host.events else rx.host.events + [head + rest])
  {
    ContentDelivered(rx, rest);
    WholeDelivered(rx.host, prefix, head + rest);
  }

  /** The deframer after the last header byte: called back at once when no content follows. */
  lemma Ending(rx: Rx, r: Rx, head: seq<byte>, rest: seq<byte>, b: seq<byte>, prefix: byte)
    requires Idle(rx) && b == head + rest && head != [] && |b| <= BUFFER_SIZE && Announced(prefix, b) == Some(|b|)
    requires r == if rest == [] then CallBack(Rx(DataHeader, prefix, 0, b, rx.host))
             else Rx(Content, prefix, |rest|, head, rx.host)
    ensures var t := Run(Feed, r, rest);
            && Idle(t)
            && t.host.data == (if prefix == PREFIX_DATA then rx.host.data + [b] else rx.host.data)
            && t.host.events == (if prefix == PREFIX_DATA then rx.host.events else rx.host.events + [b])
  {
    if rest == [] {
      WholeDelivered(rx.host, prefix, b);
      RunNothing(r);
    } else {
      Finish(r, head, rest, prefix);
    }
  }

  lemma EventSized(h: Host, b: seq<byte>)
    requires WellFormed(Event(b))
    ensures Announced(PREFIX_EVENT, b) == Some(|b|) && |b| <= BUFFER_SIZE
    ensures Feed(Rx(EventLength, PREFIX_EVENT, 0, [b[0]], h), b[1])
         == if b[2..] == [] then CallBack(Rx(DataHeader, PREFIX_EVENT, 0, b, h))
            else Rx(Content, PREFIX_EVENT, |b[2..]|, b[..2], h)
  {
    assert [b[0]] + [b[1]] == b[..2];
    assert b[2..] == [] ==> b[..2] == b;
  }

  lemma EventDelivered(rx: Rx, b: seq<byte>)
    requires Idle(rx) && WellFormed(Event(b))
    ensures var t := Run(Feed, rx, [PREFIX_EVENT] + b);
            Idle(t) && t.host.events == rx.host.events + [b] && t.host.data == rx.host.data
  {
    EventHead(rx, b);
    EventSized(rx.host, b);
    assert b[..2] + b[2..] == b;
    Ending(rx, Feed(Rx(EventLength, PREFIX_EVENT, 0, [b[0]], rx.host), b[1]), b[..2], b[2..], b, PREFIX_EVENT);
  }

  /** The state after prefix and the first three header bytes. */
  lemma AclHead(rx: Rx, b: seq<byte>)
    requires rx.state == Start && |b| >= 4
    ensures Run(Feed, rx, [PREFIX_DATA] + b)
         == Run(Feed, Feed(Rx(DataHeader, PREFIX_DATA, 0, [b[0], b[1], b[2]], rx.host), b[3]), b[4..])
  {
    var w := [PREFIX_DATA] + b;
    RunHead(rx, w);
    assert w[0] == PREFIX_DATA && w[1..] == b;
    AclHeadBytes(rx.host, b);
  }

  lemma AclHeadBytes(h: Host, b: seq<byte>)
    requires |b| >= 4
    ensures Run(Feed, Rx(DataHeader, PREFIX_DATA, 0, [], h), b)
         == Run(Feed, Feed(Rx(DataHeader, PREFIX_DATA, 0, [b[0], b[1], b[2]], h), b[3]), b[4..])
  {
    HeaderByte(h, [], b);
    assert [] + [b[0]] == [b[0]];
    HeaderByte(h, [b[0]], b[1..]);
    assert [b[0]] + [b[1]] == [b[0], b[1]] && b[1..][1..] == b[2..];
    HeaderByte(h, [b[0], b[1]], b[2..]);
    assert [b[0], b[1]] + [b[2]] == [b[0], b[1], b[2]] && b[2..][1..] == b[3..];
    RunHead(Rx(DataHeader, PREFIX_DATA, 0, [b[0], b[1], b[2]], h), b[3..]);
    assert b[3..][1..] == b[4..];
  }

  lemma HeaderByte(h: Host, got: seq<byte>, s: seq<byte>)
    requires s != [] && |got| < 3
    ensures Run(Feed, Rx(DataHeader, PREFIX_DATA, 0, got, h), s)
         == Run(Feed, Rx(DataHeader, PREFIX_DATA, 0, got + [s[0]], h), s[1..])
  {
    RunHead(Rx(DataHeader, PREFIX_DATA, 0, got, h), s);
  }

  lemma AclDelivered(rx: Rx, b: seq<byte>)
    requires Idle(rx) && WellFormed(Acl(b))
    ensures var t := Run(Feed, rx, [PREFIX_DATA] + b);
            Idle(t) && t.host.data == rx.host.data + [b] && t.host.events == rx.host.events
  {
    AclHead(rx, b);
    var r := Feed(Rx(DataHeader, PREFIX_DATA, 0, [b[0], b[1], b[2]], rx.host), b[3]);
    AclLength(rx.host, b);
    AclAnnounced(b);
    assert b[..4] + b[4..] == b;
    Ending(rx, r, b[..4], b[4..], b, PREFIX_DATA);
  }

  lemma AclAnnounced(b: seq<byte>)
    requires WellFormed(Acl(b))
    ensures Announced(PREFIX_DATA, b) == Some(|b|) && |b| <= BUFFER_SIZE
  {
  }

  /** The last header byte decides whether content follows. */
  lemma AclLength(h: Host, b: seq<byte>)
    requires WellFormed(Acl(b))
    ensures Feed(Rx(DataHeader, PREFIX_DATA, 0, [b[0], b[1], b[2]], h), b[3])
         == if b[4..] == [] then CallBack(Rx(DataHeader, PREFIX_DATA, 0, b, h))
            else Rx(Content, PREFIX_DATA, |b[4..]|, b[..4], h)
  {
    assert [b[0], b[1], b[2]] + [b[3]] == b[..4];
    assert b[4..] == [] ==> b[..4] == b;
  }

  lemma {:induction false} NoiseIgnored(rx: Rx, b: seq<byte>)
    requires Idle(rx) && WellFormed(Noise(b))
    ensures var t := Run(Feed, rx, b); Idle(t) && t.host == rx.host
    decreases |b|
  {
    if b != [] {
      var n := |b| - 1;
      assert forall x | x in b[..n] :: x in b;
      assert b[n] in b;
      NoiseIgnored(rx, b[..n]);
    }
  }

  /** The deframer is idle, and its host has these events and packets more. */
  predicate Received(rx: Rx, t: Rx, events: seq<seq<byte>>, data: seq<seq<byte>>)
  {
    Idle(t) && t.host.events == rx.host.events + events && t.host.data == rx.host.data + data
  }

  lemma ItemDelivered(rx: Rx, i: Item)
    requires Idle(rx) && WellFormed(i)
    ensures Received(rx, Run(Feed, rx, OnWire(i)), EventOf(i), AclOf(i))
  {
    match i {
      case Event(b) => EventDelivered(rx, b);
      case Acl(b) => AclDelivered(rx, b);
      case Noise(b) => NoiseIgnored(rx, b);
    }
  }

  /**
    Fed one byte at a time, any sequence of packets with noise in between reaches the queues whole, in
    order and once each, and the deframer and the reassembly end where they began.
  */
  lemma {:induction false} StreamDelivered(rx: Rx, items: seq<Item>)
    requires Idle(rx) && forall i | 0 <= i < |items| :: WellFormed(items[i])
    ensures var t := Run(Feed, rx, Stream(items));
            && Idle(t)
            && t.host.events == rx.host.events + Events(items)
            && t.host.data == rx.host.data + Acls(items)
    decreases |items|
  {
    if items == [] {
      RunNothing(rx);
    } else {
      var n := |items| - 1;
      StreamDelivered(rx, items[..n]);
      var mid := Run(Feed, rx, Stream(items[..n]));
      RunConcat(Feed, rx, Stream(items[..n]), OnWire(items[n]));
      ItemDelivered(mid, items[n]);
      Regroup(rx.host.events, Events(items[..n]), EventOf(items[n]));
      Regroup(rx.host.data, Acls(items[..n]), AclOf(items[n]));
    }
  }

  lemma Regroup<T>(a: seq<T>, b: seq<T>, c: seq<T>)
    ensures (a + b) + c == a + (b + c)
  {
  }

  /** Feeding read after read: the state after each read carries over to the next. */
  function FeedChunks(rx: Rx, chunks: seq<seq<byte>>): (r: Rx)
    decreases |chunks|
  {
    if chunks == [] then rx else Run(Feed, FeedChunks(rx, chunks[..|chunks| - 1]), chunks[|chunks| - 1])
  }

  /** How the reads cut the stream makes no difference. */
  lemma {:induction false} ChunksDoNotMatter(rx: Rx, chunks: seq<seq<byte>>)
    ensures FeedChunks(rx, chunks) == Run(Feed, rx, Flatten(chunks))
    decreases |chunks|
  {
    if chunks == [] {
      assert Flatten(chunks) == [];
    } else {
      var n := |chunks| - 1;
      ChunksDoNotMatter(rx, chunks[..n]);
      assert chunks == chunks[..n] + [chunks[n]];
      FlattenSnoc(chunks[..n], chunks[n]);
      RunConcat(Feed, rx, Flatten(chunks[..n]), chunks[n]);
    }
  }
}
