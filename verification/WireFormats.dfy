/**
  The bytes of packets between the layers, written out: events and ACL packets on the serial line, L2CAP
  packets and signalling commands, the SDP request and response, and client data from a buffer to the wire.
*/
module WireFormats {
  import opened Bytes
  import opened Folds
  import opened L2capPackets
  import opened SdpClient
  import EndToEnd
  import RfcommBytes
  import opened RfcommSession
  import RfcommTable
  import Transport

  // ---------------------------------------------------------------- the serial line

  /** 04, an event code, a length and so many bytes: one event, and the deframer is idle again. */
  lemma EventOnLine(rx: Transport.Rx, code: byte, parameters: seq<byte>, line: seq<byte>)
    requires Transport.Idle(rx) && |parameters| < 256 && line == [0x04, code, |parameters|] + parameters
    ensures var t := Run(Transport.Feed, rx, line);
            Transport.Idle(t) && t.host.data == rx.host.data && t.host.events == rx.host.events + [line[1..]]
  {
    assert line == [0x04] + line[1..];
    Transport.EventDelivered(rx, line[1..]);
  }

  /** 02, a handle, a length and so many bytes, up to 65531: one ACL packet. */
  lemma AclOnLine(rx: Transport.Rx, handle: word, data: seq<byte>, line: seq<byte>)
    requires Transport.Idle(rx) && |data| <= 65531
    requires line == [0x02, handle % 256, handle / 256, |data| % 256, |data| / 256] + data
    ensures var t := Run(Transport.Feed, rx, line);
            Transport.Idle(t) && t.host.events == rx.host.events && t.host.data == rx.host.data + [line[1..]]
  {
    assert line == [0x02] + line[1..];
    Transport.AclDelivered(rx, line[1..]);
  }

  // ---------------------------------------------------------------- L2CAP

  function Low(w: word): (b: byte) { w % 256 }

  function High(w: word): (b: byte) { w / 256 }

  /** The header of a packet whose L2CAP body has n bytes. */
  function Header(handle: word, cid: word, n: nat): (b: seq<byte>)
    requires n < 0x1_0000 - 4
  {
    [Low(handle), High(handle), Low(n + 4), High(n + 4), Low(n), High(n), Low(cid), High(cid)]
  }

  lemma PacketBytes(handle: word, cid: word, body: seq<byte>)
    requires |body| < 0x1_0000 - 4
    ensures Packet(handle, cid, body) == Header(handle, cid, |body|) + body
  {
  }

  /** The bytes of a signalling command: code, identifier, length and fields, on CID 1. */
  function SignalBytes(id: byte, c: Command): (b: seq<byte>)
    ensures |b| <= 12
  {
    match c
    case ConnectReq(psm, scid) => [0x02, id, 4, 0, Low(psm), High(psm), Low(scid), High(scid)]
    case ConnectRsp(dcid, scid, result, status) =>
      [0x03, id, 8, 0, Low(dcid), High(dcid), Low(scid), High(scid), Low(result), High(result),
       Low(status), High(status)]
    case ConfigReq(dcid, flags) =>
      [0x04, id, 8, 0, Low(dcid), High(dcid), Low(flags), High(flags), 0x01, 0x02, 0x00, 0x02]
    case ConfigRsp(dcid, flags, result) =>
      [0x05, id, 6, 0, Low(dcid), High(dcid), Low(flags), High(flags), Low(result), High(result)]
    case DisconnectReq(dcid, scid) => [0x06, id, 4, 0, Low(dcid), High(dcid), Low(scid), High(scid)]
    case DisconnectRsp(dcid, scid) => [0x07, id, 4, 0, Low(dcid), High(dcid), Low(scid), High(scid)]
  }

  lemma SignalBody(id: byte, c: Command)
    ensures [Code(c), id] + Le16(|Fields(c)|) + Fields(c) == SignalBytes(id, c)
  {
  }

  lemma SignalOnWire(handle: word, id: byte, c: Command)
    ensures Encode(handle, id, c) == Header(handle, 1, |SignalBytes(id, c)|) + SignalBytes(id, c)
  {
    SignalBody(id, c);
    PacketBytes(handle, 1, SignalBytes(id, c));
  }

  /** Two bytes of a packet. */
  function At(b: seq<byte>, i: nat): (w: word)
    requires i + 2 <= |b|
  {
    b[i] as int + 256 * (b[i + 1] as int)
  }

  /** What is read from the bytes of a signalling packet. */
  lemma SignalRead(b: seq<byte>)
    requires |b| >= 20 && At(b, 6) == 1
    ensures b[8] == 0x02 ==> Decode(b) == Signal(At(b, 0), b[9], ConnectReq(At(b, 12), At(b, 14)))
    ensures b[8] == 0x03 ==>
              Decode(b) == Signal(At(b, 0), b[9], ConnectRsp(At(b, 12), At(b, 14), At(b, 16), At(b, 18)))
    ensures b[8] == 0x04 ==> Decode(b) == Signal(At(b, 0), b[9], ConfigReq(At(b, 12), At(b, 14)))
    ensures b[8] == 0x05 ==> Decode(b) == Signal(At(b, 0), b[9], ConfigRsp(At(b, 12), At(b, 14), At(b, 16)))
    ensures b[8] == 0x06 ==> Decode(b) == Signal(At(b, 0), b[9], DisconnectReq(At(b, 12), At(b, 14)))
    ensures b[8] == 0x07 ==> Decode(b) == Signal(At(b, 0), b[9], DisconnectRsp(At(b, 12), At(b, 14)))
    ensures b[8] < 0x02 || b[8] > 0x07 ==> Decode(b) == Input.Ignored
  {
    assert b[12..][0] == b[12] && b[12..][1] == b[13] && b[12..][2] == b[14] && b[12..][3] == b[15];
    assert b[12..][4] == b[16] && b[12..][5] == b[17] && b[12..][6] == b[18] && b[12..][7] == b[19];
  }

  /** And from one on another CID: so many bytes as its L2CAP length says. */
  lemma ClientRead(b: seq<byte>)
    requires |b| >= 8 && At(b, 6) != 1
    ensures Decode(b)
         == if 8 + At(b, 4) <= |b| then Input.Client(At(b, 0), At(b, 6), b[8..8 + At(b, 4)]) else Input.Ignored
  {
  }

  // ---------------------------------------------------------------- SDP

  /** The request packet, with the lengths of the lower layers still zero. */
  lemma RequestBytes(q: Query, txn: word, cont: seq<byte>)
    requires |cont| < 256 && q.handle < 0x2000
    ensures RequestPacket(q, txn, cont)
         == [Low(q.handle), High(q.handle) + 0x20, 0, 0, 0, 0, Low(q.remoteCid), High(q.remoteCid),
             0x06, High(txn), Low(txn), High(15 + |cont|), Low(15 + |cont|),
             0x35, 0x03, 0x19, High(q.service), Low(q.service), 0xFF, 0xFF,
             0x35, 0x05, 0x0A, High(q.begin), Low(q.begin), High(q.end), Low(q.end), |cont|] + cont
  {
    HandleFlag(q.handle);
    assert |RequestParameters(q, cont)| == 15 + |cont|;
  }

  lemma HandleFlag(handle: word)
    requires handle < 0x2000
    ensures Le16(handle + 0x2000) == [Low(handle), High(handle) + 0x20]
  {
  }

  /** A response: transaction, a length that is not looked at, so many attribute bytes, and the token. */
  lemma ResponseRead(txn: word, length: word, piece: seq<byte>, token: seq<byte>, more: seq<byte>)
    requires |piece| < 0x1_0000 && |token| < 256
    ensures DecodeResponse([0x07, High(txn), Low(txn), High(length), Low(length), High(|piece|), Low(|piece|)]
                           + piece + [|token|] + token + more)
         == Some(Response(txn, piece, token))
  {
    var p := [0x07, High(txn), Low(txn), High(length), Low(length), High(|piece|), Low(|piece|)]
             + piece + [|token|] + token + more;
    assert p[7..7 + |piece|] == piece && p[7 + |piece|] == |token|;
    assert p[8 + |piece|..8 + |piece| + |token|] == token;
  }

  /** Up to fifteen pieces are put together, and not more. */
  lemma FifteenPieces(v: Server, q: Query, txn: word)
    requires Splits(v) && q.handle < 0x2000
    ensures var e := Converse(v, 0, Begin(q, txn), RequestPacket(q, txn, []));
            && (e.Complete? <==> |v.pieces| <= 15)
            && (e.Complete? ==> e.requests == |v.pieces| && DataOf(e.frames) == v.pieces)
  {
    ContinuationLossless(v, q, txn);
  }

  // ---------------------------------------------------------------- client data

  /** Every chunk of a buffer but the last has 127 bytes, and the last has at least one. */
  lemma {:induction false} ChunkSizes(buf: seq<byte>, i: nat)
    requires i < |EndToEnd.Chunks(buf)|
    ensures var chunks := EndToEnd.Chunks(buf);
            if i + 1 < |chunks| then |chunks[i]| == 127 else 1 <= |chunks[i]| <= 127
    decreases |buf|
  {
    if |buf| > 127 && i > 0 {
      ChunkSizes(buf[127..], i - 1);
    } else if |buf| > 127 {
      assert EndToEnd.Chunks(buf[127..]) != [];
    }
  }

  /** The frame for a chunk: the channel's, as a command, the chunk, and a check a peer accepts. */
  lemma ChunkFrame(n: nat, chunk: seq<byte>) returns (fcs: byte)
    requires EndToEnd.Sendable(n, chunk)
    ensures EndToEnd.FrameFor(n, chunk) == [8 * n + 3, 0xEF, 2 * |chunk| + 1] + chunk + [fcs]
    ensures RfcommBytes.Accepted(EndToEnd.FrameFor(n, chunk))
  {
    var a := Sent(n, RfcommFrames.Data(n, chunk), true);
    var b := EndToEnd.FrameFor(n, chunk);
    assert RfcommTable.FramesOut(a) == [b];
    RfcommBytes.FrameOnWire(a, b);
    fcs := b[|b| - 1];
    assert b == b[..|b| - 1] + [fcs];
  }

  /** And its packet. */
  lemma ChunkBytes(handle: word, cid: word, n: nat, chunk: seq<byte>) returns (fcs: byte)
    requires EndToEnd.Sendable(n, chunk) && handle < 0x2000
    ensures EndToEnd.PacketFor(handle, cid, n, chunk)
         == Header(handle + 0x2000, cid, |chunk| + 4) + ([8 * n + 3, 0xEF, 2 * |chunk| + 1] + chunk + [fcs])
  {
    fcs := ChunkFrame(n, chunk);
    PacketBytes(handle + 0x2000, cid, EndToEnd.FrameFor(n, chunk));
  }
}
