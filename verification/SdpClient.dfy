/**
  The SDP client of sdp.c: ServiceSearchAttribute requests and their continuation (Bluetooth Core
  Specification, Vol 3 Part B, sections 4.3 and 4.7). A server may hand back an attribute list in pieces,
  each but the last followed by a token that the next request has to carry.
*/
module SdpClient {
  import opened Bytes

  const SEARCH_ATTR_REQUEST: byte := 0x06
  const SEARCH_ATTR_RESPONSE: byte := 0x07
  const MAX_RESULT_FRAMES := 15
  const MAX_PACKET := 259

  /** What a request is about: connection handle, remote CID, service and attribute range. */
  datatype Query = Query(handle: word, remoteCid: word, service: word, begin: word, end: word)

  /** A result frame: the request that asks for it, and the data once it has come. */
  datatype ResultFrame = ResultFrame(txn: word, cont: seq<byte>, data: Option<seq<byte>>)

  function Be16(w: word): (s: seq<byte>)
    ensures |s| == 2
  {
    [w / 256, w % 256]
  }

  function FromBe16(hi: byte, lo: byte): (w: word)
  {
    256 * hi + lo
  }

  // ---------------------------------------------------------------- the PDUs

  /** The parameters of a request: service pattern, maximum byte count, attribute range, continuation. */
  function RequestParameters(q: Query, cont: seq<byte>): (r: seq<byte>)
    requires |cont| < 256
  {
    [0x35, 0x03, 0x19] + Be16(q.service) + Be16(0xFFFF)
    + [0x35, 0x05, 0x0A] + Be16(q.begin) + Be16(q.end)
    + [|cont|] + cont
  }

  /** The request PDU: PDU ID, transaction ID, parameter length, parameters. */
  function RequestPdu(q: Query, txn: word, cont: seq<byte>): (r: seq<byte>)
    requires |cont| < 256
  {
    [SEARCH_ATTR_REQUEST] + Be16(txn) + Be16(|RequestParameters(q, cont)|) + RequestParameters(q, cont)
  }

  /** The packet: handle and remote CID, with the HCI and L2CAP lengths still zero, then the PDU. */
  function RequestPacket(q: Query, txn: word, cont: seq<byte>): (r: seq<byte>)
    requires |cont| < 256 && q.handle < 0x2000
  {
    Le16(q.handle + 0x2000) + [0, 0, 0, 0] + Le16(q.remoteCid) + RequestPdu(q, txn, cont)
  }

  /** A server's response PDU to transaction txn: attribute byte count, attributes, continuation. */
  function ResponsePdu(txn: word, piece: seq<byte>, token: seq<byte>): (r: seq<byte>)
    requires |piece| + |token| + 3 < 0x1_0000 && |token| < 256
  {
    [SEARCH_ATTR_RESPONSE] + Be16(txn) + Be16(|piece| + |token| + 3) + Be16(|piece|) + piece + [|token|] + token
  }

  /** What the client reads in a response: transaction, attributes, continuation token. */
  datatype Response = Response(txn: word, piece: seq<byte>, token: seq<byte>)

  /** None is a PDU that is not a response or is shorter than its length fields say. */
  function DecodeResponse(p: seq<byte>): (r: Option<Response>)
  {
    if |p| < 8 || p[0] != SEARCH_ATTR_RESPONSE then None
    else
      var n := FromBe16(p[5], p[6]);
      if |p| < 8 + n then None
      else
        var k: nat := p[7 + n];
        if |p| < 8 + n + k then None
        else Some(Response(FromBe16(p[1], p[2]), p[7..7 + n], p[8 + n..8 + n + k]))
  }

  /** What a server reads in a request: transaction, service, range and continuation, if the length is right. */
  datatype Request = Request(txn: word, service: word, begin: word, end: word, cont: seq<byte>)

  function DecodeRequest(p: seq<byte>): (r: Option<Request>)
  {
    if |p| < 20 || p[0] != SEARCH_ATTR_REQUEST then None
    else if FromBe16(p[3], p[4]) != |p| - 5 then None
    else if p[5..8] != [0x35, 0x03, 0x19] || p[12..15] != [0x35, 0x05, 0x0A] then None
    else
      var k: nat := p[19];
      if |p| != 20 + k then None
      else
        Some(Request(FromBe16(p[1], p[2]), FromBe16(p[8], p[9]),
                     FromBe16(p[15], p[16]), FromBe16(p[17], p[18]), p[20..]))
  }

  lemma Be16RoundTrip(w: word)
    ensures FromBe16(Be16(w)[0], Be16(w)[1]) == w
  {
  }

  /** A server that checks the length reads the request as it was meant: the length field is right. */
  lemma RequestRoundTrip(q: Query, txn: word, cont: seq<byte>)
    requires |cont| < 256
    ensures DecodeRequest(RequestPdu(q, txn, cont)) == Some(Request(txn, q.service, q.begin, q.end, cont))
  {
    var p := RequestPdu(q, txn, cont);
    Be16RoundTrip(txn);
    Be16RoundTrip(q.service);
    Be16RoundTrip(q.begin);
    Be16RoundTrip(q.end);
    Be16RoundTrip(15 + |cont|);
    assert p[5..8] == [0x35, 0x03, 0x19];
    assert p[12..15] == [0x35, 0x05, 0x0A];
    assert p[20..] == cont;
  }

  lemma ResponseRoundTrip(txn: word, piece: seq<byte>, token: seq<byte>)
    requires |piece| + |token| + 3 < 0x1_0000 && |token| < 256
    ensures DecodeResponse(ResponsePdu(txn, piece, token)) == Some(Response(txn, piece, token))
  {
    var p := ResponsePdu(txn, piece, token);
    Be16RoundTrip(txn);
    Be16RoundTrip(|piece|);
    assert p[7..7 + |piece|] == piece;
    assert p[7 + |piece|] == |token|;
    assert p[8 + |piece|..8 + |piece| + |token|] == token;
  }

  // ---------------------------------------------------------------- the client as a state machine

  datatype Client = Client(query: Query, frames: seq<ResultFrame>, nextTxn: word)

  datatype Outcome =
    | Asked(packet: seq<byte>)   // another request was sent
    | Finished                   // the last piece: close the connection and parse
    | Mismatch                   // the transaction ID assertion fails
    | NoRoom                     // a sixteenth frame, past the end of the array
    | TooLong                    // a token that overruns the 259-byte packet buffer
    | Ignored                    // not a search attribute response

  predicate Waiting(c: Client)
  {
    0 < |c.frames| <= MAX_RESULT_FRAMES && c.query.handle < 0x2000
  }

  predicate PacketFits(token: seq<byte>) { 28 + |token| <= MAX_PACKET }

  function Bump(txn: word): (r: word) { (txn + 1) % 0x1_0000 }

  /** The response branch of lcapEvent. */
  function OnPdu(c: Client, p: seq<byte>): (Client, Outcome)
    requires Waiting(c)
  {
    match DecodeResponse(p)
    case None => (c, Ignored)
    case Some(r) =>
      var last := |c.frames| - 1;
      if r.txn != c.frames[last].txn then (c, Mismatch)
      else
        var frames := c.frames[last := c.frames[last].(data := Some(r.piece))];
        if r.token == [] then (c.(frames := frames), Finished)
        else if |frames| == MAX_RESULT_FRAMES then (c.(frames := frames), NoRoom)
        else
          var next := c.(frames := frames + [ResultFrame(c.nextTxn, r.token, None)], nextTxn := Bump(c.nextTxn));
          if PacketFits(r.token) then (next, Asked(RequestPacket(c.query, c.nextTxn, r.token))) else (next, TooLong)
  }

  /** sdpLayer_doSdpRequest, and the request sent when the connection is up. */
  function Begin(q: Query, nextTxn: word): (r: Client)
  {
    Client(q, [ResultFrame(nextTxn, [], None)], Bump(nextTxn))
  }

  // ---------------------------------------------------------------- a server that splits its answer

  /** pieces are what it sends, token i comes with piece i and is empty with the last. */
  datatype Server = Server(pieces: seq<seq<byte>>, tokens: seq<seq<byte>>)

  predicate Splits(v: Server)
  {
    && |v.pieces| == |v.tokens| > 0 && v.tokens[|v.tokens| - 1] == []
    && (forall i | 0 <= i < |v.tokens| - 1 :: v.tokens[i] != [])
    && (forall i | 0 <= i < |v.tokens| :: PacketFits(v.tokens[i]) && 0 < |v.pieces[i]| < 0xFF00)
  }

  /** The server answers a request for piece i only with the right service, length field and token. */
  function Serve(v: Server, q: Query, i: nat, packet: seq<byte>): (r: Option<seq<byte>>)
    requires Splits(v) && i < |v.pieces|
  {
    if |packet| < 8 then None
    else
      match DecodeRequest(packet[8..])
      case None => None
      case Some(r) =>
        if r.cont == (if i == 0 then [] else v.tokens[i - 1]) && r.service == q.service && r.begin == q.begin
            && r.end == q.end
        then Some(ResponsePdu(r.txn, v.pieces[i], v.tokens[i])) else None
  }

  datatype Ending = Complete(frames: seq<ResultFrame>, requests: nat) | Broken

  /** The exchange from piece i on, with packet the client's latest request. */
  function Converse(v: Server, i: nat, c: Client, packet: seq<byte>): (r: Ending)
    requires Splits(v) && i < |v.pieces| && Waiting(c)
    decreases |v.pieces| - i
  {
    match Serve(v, c.query, i, packet)
    case None => Broken
    case Some(pdu) =>
      var (c', out) := OnPdu(c, pdu);
      match out
      case Finished => Complete(c'.frames, i + 1)
      case Asked(p) => if i + 1 < |v.pieces| && Waiting(c') then Converse(v, i + 1, c', p) else Broken
      case _ => Broken
  }

  function DataOf(frames: seq<ResultFrame>): (r: seq<seq<byte>>)
  {
    if frames == [] then []
    else DataOf(frames[..|frames| - 1]) + (match frames[|frames| - 1].data case None => [] case Some(d) => [d])
  }

  /** The client has the pieces before i and has just asked for piece i. */
  predicate AskedFor(v: Server, i: nat, c: Client, packet: seq<byte>)
    requires Splits(v) && i < |v.pieces|
  {
    && Waiting(c) && |c.frames| == i + 1
    && DataOf(c.frames[..i]) == v.pieces[..i]
    && c.frames[i].cont == (if i == 0 then [] else v.tokens[i - 1])
    && c.frames[i].data == None
    && packet == RequestPacket(c.query, c.frames[i].txn, c.frames[i].cont)
  }

  lemma DataSnoc(frames: seq<ResultFrame>, f: ResultFrame)
    ensures DataOf(frames + [f]) == DataOf(frames) + (match f.data case None => [] case Some(d) => [d])
  {
    assert (frames + [f])[..|frames|] == frames;
  }

  /** The server understands what the client asks: token, length field and range are right. */
  lemma ServedWhatWasAsked(v: Server, i: nat, c: Client, packet: seq<byte>)
    requires Splits(v) && i < |v.pieces| && AskedFor(v, i, c, packet)
    ensures Serve(v, c.query, i, packet) == Some(ResponsePdu(c.frames[i].txn, v.pieces[i], v.tokens[i]))
  {
  }

  /** One round: the piece is stored, and the next one asked for if there is room. */
  lemma Round(v: Server, i: nat, c: Client, packet: seq<byte>)
    requires Splits(v) && i < |v.pieces| && AskedFor(v, i, c, packet)
    ensures var (c', out) := OnPdu(c, ResponsePdu(c.frames[i].txn, v.pieces[i], v.tokens[i]));
            && (i + 1 == |v.pieces| ==> out == Finished && |c'.frames| == i + 1 && DataOf(c'.frames) == v.pieces)
            && (i + 1 < |v.pieces| && i + 1 < MAX_RESULT_FRAMES ==> out.Asked? && AskedFor(v, i + 1, c', out.packet))
            && (i + 1 < |v.pieces| && i + 1 == MAX_RESULT_FRAMES ==> out == NoRoom)
  {
    var f := c.frames[i];
    ResponseRoundTrip(f.txn, v.pieces[i], v.tokens[i]);
    var stored := c.frames[i := f.(data := Some(v.pieces[i]))];
    assert stored == c.frames[..i] + [f.(data := Some(v.pieces[i]))];
    DataSnoc(c.frames[..i], f.(data := Some(v.pieces[i])));
    assert DataOf(stored) == v.pieces[..i] + [v.pieces[i]] == v.pieces[..i + 1];
    if i + 1 == |v.pieces| {
      assert v.pieces[..i + 1] == v.pieces;
    } else {
      assert (stored + [ResultFrame(c.nextTxn, v.tokens[i], None)])[..i + 1] == stored;
    }
  }

  /** From any point of the exchange on: it completes with every piece exactly when at most 15 are to come. */
  lemma {:induction false} ConverseFrom(v: Server, i: nat, c: Client, packet: seq<byte>)
    requires Splits(v) && i < |v.pieces| && AskedFor(v, i, c, packet)
    ensures var e := Converse(v, i, c, packet);
            if |v.pieces| <= MAX_RESULT_FRAMES then e.Complete? && e.requests == |v.pieces|
                && DataOf(e.frames) == v.pieces
            else e == Broken
    decreases |v.pieces| - i
  {
    ServedWhatWasAsked(v, i, c, packet);
    Round(v, i, c, packet);
    var pdu := ResponsePdu(c.frames[i].txn, v.pieces[i], v.tokens[i]);
    var (c', out) := OnPdu(c, pdu);
    if out.Asked? && i + 1 < |v.pieces| {
      ConverseFrom(v, i + 1, c', out.packet);
    }
  }

  /**
    Continuation is lossless: however a server splits its attribute list, the client asks once a piece,
    gives back the token just received, and ends with frames that are the pieces, exactly when there are
    at most fifteen of them.
  */
  lemma ContinuationLossless(v: Server, q: Query, txn: word)
    requires Splits(v) && q.handle < 0x2000
    ensures var e := Converse(v, 0, Begin(q, txn), RequestPacket(q, txn, []));
            if |v.pieces| <= MAX_RESULT_FRAMES then e.Complete? && e.requests == |v.pieces|
                && DataOf(e.frames) == v.pieces
            else e == Broken
  {
    ConverseFrom(v, 0, Begin(q, txn), RequestPacket(q, txn, []));
  }
}
