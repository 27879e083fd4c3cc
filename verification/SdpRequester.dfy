/**
  The SDP request object of sdp.c: frames appended as responses arrive, transaction IDs drawn from the
  context all requests share, and packets written through a moving pointer. Then the whole of a
  discovery, from the split attribute list to the parsed records.
*/
module SdpRequester {
  import opened Bytes
  import opened SdpClient
  import opened SdpElements
  import opened SdpTheorems
  import opened SdpFrames
  import opened SdpRecords
  import opened SdpParser

  // ---------------------------------------------------------------- writing a buffer

  /** SET_BYTE. */
  method SetByte(buf: array<byte>, p: nat, b: byte) returns (p': nat)
    requires p < buf.Length
    modifies buf
    ensures p' == p + 1 && buf[..p'] == old(buf[..p]) + [b]
  {
    buf[p] := b;
    p' := p + 1;
  }

  /** SET_WORD of a little-endian word. */
  method SetWord(buf: array<byte>, p: nat, w: word) returns (p': nat)
    requires p + 2 <= buf.Length
    modifies buf
    ensures p' == p + 2 && buf[..p'] == old(buf[..p]) + Le16(w)
  {
    buf[p] := w % 256;
    buf[p + 1] := w / 256;
    p' := p + 2;
  }

  /** be: the two bytes of a word swapped. */
  function Swap(w: word): (r: word)
    ensures Le16(r) == Be16(w)
  {
    (w % 256) * 256 + w / 256
  }

  /** SET_COPY. */
  method SetCopy(buf: array<byte>, p: nat, s: seq<byte>) returns (p': nat)
    requires p + |s| <= buf.Length
    modifies buf
    ensures p' == p + |s| && buf[..p'] == old(buf[..p]) + s
  {
    var i := 0;
    while i < |s|
      invariant 0 <= i <= |s|
      invariant buf[..p + i] == old(buf[..p]) + s[..i]
    {
      buf[p + i] := s[i];
      i := i + 1;
    }
    p' := p + |s|;
  }

  /** sdpDiscoveryRequest: the request packet, with the parameter length filled in last. */
  method DiscoveryRequest(buf: array<byte>, q: Query, txn: word, cont: seq<byte>) returns (len: nat)
    requires buf.Length == MAX_PACKET && PacketFits(cont) && |cont| < 256 && q.handle < 0x2000
    modifies buf
    ensures len <= buf.Length && buf[..len] == RequestPacket(q, txn, cont)
  {
    ghost var head, body := RequestHead(q, txn), RequestParameters(q, cont);
    var sdpLen := WriteHead(buf, q, txn);
    var p := SetWord(buf, sdpLen, Swap(0));
    p := WriteParameters(buf, p, q, cont);
    len := p;
    assert buf[..len] == head + Be16(0) + body;
    PatchWord(buf, sdpLen, Swap(len - 4 - 4 - 5), head, body, len);
    HeadAndParameters(q, txn, cont);
  }

  /** Everything before the parameter length. */
  function RequestHead(q: Query, txn: word): (s: seq<byte>)
    requires q.handle < 0x2000
    ensures |s| == 11
  {
    Le16(q.handle + 0x2000) + Le16(0) + Le16(0) + Le16(q.remoteCid) + [SEARCH_ATTR_REQUEST] + Be16(txn)
  }

  lemma HeadAndParameters(q: Query, txn: word, cont: seq<byte>)
    requires |cont| < 256 && q.handle < 0x2000
    ensures RequestHead(q, txn) + Be16(|RequestParameters(q, cont)|) + RequestParameters(q, cont)
            == RequestPacket(q, txn, cont)
  {
  }

  method WriteHead(buf: array<byte>, q: Query, txn: word) returns (p: nat)
    requires buf.Length == MAX_PACKET && q.handle < 0x2000
    modifies buf
    ensures p == 11 && buf[..p] == RequestHead(q, txn)
  {
    p := SetWord(buf, 0, q.handle + 0x2000);
    p := SetWord(buf, p, 0);
    p := SetWord(buf, p, 0);
    p := SetWord(buf, p, q.remoteCid);
    p := SetByte(buf, p, SEARCH_ATTR_REQUEST);
    p := SetWord(buf, p, Swap(txn));
  }

  /** The parameters, behind whatever the buffer holds up to p. */
  method WriteParameters(buf: array<byte>, p: nat, q: Query, cont: seq<byte>) returns (p': nat)
    requires p + 15 + |cont| <= buf.Length && |cont| < 256
    modifies buf
    ensures p' == p + 15 + |cont| && buf[..p'] == old(buf[..p]) + RequestParameters(q, cont)
  {
    ghost var start := buf[..p];
    p' := WriteElement(buf, p, 0x35, 0x03, 0x19, q.service, 0xFFFF);
    ghost var first: seq<byte> := [0x35, 0x03, 0x19] + Be16(q.service) + Be16(0xFFFF);
    p' := WriteElement(buf, p', 0x35, 0x05, 0x0A, q.begin, q.end);
    ghost var second: seq<byte> := [0x35, 0x05, 0x0A] + Be16(q.begin) + Be16(q.end);
    p' := SetByte(buf, p', |cont|);
    if |cont| > 0 {
      p' := SetCopy(buf, p', cont);
    }
    assert buf[..p'] == start + (first + second + [|cont|] + cont);
    assert RequestParameters(q, cont) == first + second + [|cont|] + cont;
  }

  /** Three bytes and two big-endian words. */
  method WriteElement(buf: array<byte>, p: nat, a: byte, b: byte, c: byte, w1: word, w2: word) returns (p': nat)
    requires p + 7 <= buf.Length
    modifies buf
    ensures p' == p + 7 && buf[..p'] == old(buf[..p]) + ([a, b, c] + Be16(w1) + Be16(w2))
  {
    p' := SetByte(buf, p, a);
    p' := SetByte(buf, p', b);
    p' := SetByte(buf, p', c);
    p' := SetWord(buf, p', Swap(w1));
    p' := SetWord(buf, p', Swap(w2));
  }

  /** Overwrite the two bytes between head and body. */
  method PatchWord(buf: array<byte>, at: nat, w: word, ghost head: seq<byte>, ghost body: seq<byte>, len: nat)
    requires at == |head| && len == |head| + 2 + |body| <= buf.Length
    requires buf[..at] == head && buf[at + 2..len] == body
    modifies buf
    ensures buf[..len] == head + Le16(w) + body
  {
    buf[at] := w % 256;
    buf[at + 1] := w / 256;
    assert buf[..len] == buf[..at] + buf[at..at + 2] + buf[at + 2..len];
  }

  // ---------------------------------------------------------------- the request object

  class SdpContext {
    var nextTxn: word   // m_next_txn_id, shared by all requests

    constructor ()
      ensures nextTxn == 0xAAAA
    {
      nextTxn := 0xAAAA;
    }

    method Draw() returns (txn: word)
      modifies this
      ensures txn == old(nextTxn) && nextTxn == Bump(txn)
    {
      txn := nextTxn;
      nextTxn := (nextTxn + 1) % 0x1_0000;
    }
  }

  class SdpRequest {
    const context: SdpContext
    const query: Query
    var frames: seq<ResultFrame>

    ghost function Abs(): (r: Client)
      reads this, context
    {
      Client(query, frames, context.nextTxn)
    }

    /** sdpLayer_doSdpRequest: a request with its first frame waiting. */
    constructor (ctx: SdpContext, q: Query)
      modifies ctx
      ensures context == ctx && Abs() == Begin(q, old(ctx.nextTxn))
    {
      context := ctx;
      query := q;
      new;
      var txn := ctx.Draw();
      frames := [ResultFrame(txn, [], None)];
    }

    /** The packet for the last frame. */
    method Ask(buf: array<byte>) returns (packet: seq<byte>)
      requires buf.Length == MAX_PACKET && query.handle < 0x2000
      requires frames != [] && PacketFits(frames[|frames| - 1].cont)
      modifies buf
      ensures packet == RequestPacket(query, frames[|frames| - 1].txn, frames[|frames| - 1].cont)
    {
      var f := frames[|frames| - 1];
      var len := DiscoveryRequest(buf, query, f.txn, f.cont);
      packet := buf[..len];
    }

    /** The response branch of lcapEvent. */
    method LcapData(p: seq<byte>, buf: array<byte>) returns (out: Outcome)
      requires Waiting(Abs()) && buf.Length == MAX_PACKET
      modifies this, context, buf
      ensures (Abs(), out) == OnPdu(old(Abs()), p)
    {
      var decoded := DecodeResponse(p);
      if decoded.None? { return Ignored; }
      var r := decoded.value;
      var last := |frames| - 1;
      if r.txn != frames[last].txn { return Mismatch; }
      frames := frames[last := frames[last].(data := Some(r.piece))];
      if r.token == [] { return Finished; }
      if |frames| == MAX_RESULT_FRAMES { return NoRoom; }
      var txn := context.Draw();
      frames := frames + [ResultFrame(txn, r.token, None)];
      if !PacketFits(r.token) { return TooLong; }
      var packet := Ask(buf);
      out := Asked(packet);
    }
  }

  // ---------------------------------------------------------------- discovery from end to end

  /**
    A whole discovery: however the server cuts the encoding of a record list into at most fifteen pieces,
    none of them cutting through a string, URL or uuid-128, the frames the client ends with parse to the
    records of the list and to the channel its leaves name, just as the unsplit list does.
  */
  lemma DiscoveryParses(v: Server, q: Query, txn: word, e: Elem, armed: bool)
    requires Splits(v) && q.handle < 0x2000 && Parsable(v.pieces)
    requires Legal(e) && IsRecordList(e) && Flatten(v.pieces) == Encode(e) && Fits(Lens(v.pieces), e, 0)
    ensures Sum(Lens(v.pieces)) == |Encode(e)| == Sum([|Encode(e)|])
    ensures var c := Converse(v, 0, Begin(q, txn), RequestPacket(q, txn, []));
            && c.Complete? && DataOf(c.frames) == v.pieces
            && ReadService(Flatten(DataOf(c.frames)), Lens(DataOf(c.frames)), armed)
               == ReadService(Encode(e), [|Encode(e)|], armed)
            && (var r := ReadService(Encode(e), Lens(v.pieces), armed);
                r.Done? && r.value == RecordsOf(e.elems)
                    && ExtractorOf(r.next) == FoldLeaves(Extractor(armed, 255), Leaves(e)))
  {
    ContinuationLossless(v, q, txn);
    SumLens(v.pieces);
    SingleFrame(Encode(e));
    ServiceRoundTrip(e, Lens(v.pieces), armed);
    WholeFits(e, |Encode(e)|);
    ServiceRoundTrip(e, [|Encode(e)|], armed);
    SameScan(ReadService(Encode(e), Lens(v.pieces), armed).next, ReadService(Encode(e), [|Encode(e)|], armed).next);
  }

  /** The parser, run on the frames of such a discovery, gives the records and the channel. */
  method ParseDiscovered(frames: seq<ResultFrame>, armed: bool,
                         ghost v: Server, ghost q: Query, ghost txn: word, ghost e: Elem)
    returns (records: Option<seq<Record>>, channel: byte)
    requires Splits(v) && q.handle < 0x2000 && Parsable(v.pieces)
    requires Legal(e) && IsRecordList(e) && Flatten(v.pieces) == Encode(e) && Fits(Lens(v.pieces), e, 0)
    requires Converse(v, 0, Begin(q, txn), RequestPacket(q, txn, [])) == Complete(frames, |v.pieces|)
    ensures records == Some(RecordsOf(e.elems)) && channel == FoldLeaves(Extractor(armed, 255), Leaves(e)).channel
  {
    DiscoveryParses(v, q, txn, e, armed);
    var parser := new Parser(DataOf(frames), armed);
    records := parser.ParseServiceRecords(ReadService(parser.d, parser.lens, armed));
    channel := parser.channel;
  }

  lemma SameScan(s: Scan, t: Scan)
    requires s.pos == t.pos && ExtractorOf(s) == ExtractorOf(t)
    ensures s == t
  {
  }

  /** In a single frame nothing straddles. */
  lemma WholeFits(e: Elem, n: nat)
    requires Legal(e) && n == |Encode(e)|
    ensures Fits([n], e, 0)
  {
    var d, s := Encode(e), Scan(0, false, 0);
    SingleFrame(d);
    ElemRoundTrip(d, [n], e, s);
    FrameIndependence(d, [n], [n], s);
  }
}
