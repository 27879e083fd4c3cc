/**
  L2CAP packets (Bluetooth Core Specification, Vol 3 Part A, sections 3.1 and 4) as l2cap.c writes and
  reads them: the HCI and L2CAP headers with the lengths lcapLayer_sendData and hci_send_data fill in,
  then client data or one signalling command.
*/
module L2capPackets {
  import opened Bytes

  const SIGNAL_CID: word := 1

  /** The signalling commands that concern connections. */
  datatype Command =
    | ConnectReq(psm: word, scid: word)
    | ConnectRsp(dcid: word, scid: word, result: word, status: word)
    | ConfigReq(dcid: word, flags: word)
    | ConfigRsp(dcid: word, flags: word, result: word)
    | DisconnectReq(dcid: word, scid: word)
    | DisconnectRsp(dcid: word, scid: word)

  /** What a received packet is: client data, a signalling command, or neither. */
  datatype Input =
    | Client(handle: word, cid: word, payload: seq<byte>)
    | Signal(handle: word, id: byte, command: Command)
    | Ignored

  function Code(c: Command): (r: byte)
  {
    match c
    case ConnectReq(_, _) => 0x02
    case ConnectRsp(_, _, _, _) => 0x03
    case ConfigReq(_, _) => 0x04
    case ConfigRsp(_, _, _) => 0x05
    case DisconnectReq(_, _) => 0x06
    case DisconnectRsp(_, _) => 0x07
  }

  /** The fields of a command; our config request carries the MTU option 0x0200. */
  function Fields(c: Command): (s: seq<byte>)
    ensures |s| <= 8
  {
    match c
    case ConnectReq(psm, scid) => Le16(psm) + Le16(scid)
    case ConnectRsp(dcid, scid, result, status) => Le16(dcid) + Le16(scid) + Le16(result) + Le16(status)
    case ConfigReq(dcid, flags) => Le16(dcid) + Le16(flags) + [1, 2, 0, 2]
    case ConfigRsp(dcid, flags, result) => Le16(dcid) + Le16(flags) + Le16(result)
    case DisconnectReq(dcid, scid) => Le16(dcid) + Le16(scid)
    case DisconnectRsp(dcid, scid) => Le16(dcid) + Le16(scid)
  }

  /** handle | 0x2000: the packet-boundary bit is set once. */
  function WithBoundary(handle: word): (r: word)
  {
    if (handle / 0x2000) % 2 == 1 then handle else handle + 0x2000
  }

  /** An ACL packet with its two lengths. */
  function Packet(handle: word, cid: word, body: seq<byte>): (r: seq<byte>)
    requires |body| < 0x1_0000 - 4
  {
    Le16(handle) + Le16(|body| + 4) + Le16(|body|) + Le16(cid) + body
  }

  function Encode(handle: word, id: byte, c: Command): (r: seq<byte>)
  {
    Packet(handle, SIGNAL_CID, [Code(c), id] + Le16(|Fields(c)|) + Fields(c))
  }

  // ---------------------------------------------------------------- reading

  function Word(b: seq<byte>, at: nat): (r: word)
    requires at + 2 <= |b|
  {
    FromLe16(b[at], b[at + 1])
  }

  function DecodeCommand(code: byte, f: seq<byte>): (r: Option<Command>)
  {
    if |f| < 4 then None
    else if code == 0x02 then Some(ConnectReq(Word(f, 0), Word(f, 2)))
    else if code == 0x03 then if |f| < 8 then None else Some(ConnectRsp(Word(f, 0), Word(f, 2), Word(f, 4), Word(f, 6)))
    else if code == 0x04 then Some(ConfigReq(Word(f, 0), Word(f, 2)))
    else if code == 0x05 then if |f| < 6 then None else Some(ConfigRsp(Word(f, 0), Word(f, 2), Word(f, 4)))
    else if code == 0x06 then Some(DisconnectReq(Word(f, 0), Word(f, 2)))
    else if code == 0x07 then Some(DisconnectRsp(Word(f, 0), Word(f, 2)))
    else None
  }

  /** l2cap_handle_hci_data's reading of a packet; too short for the fields it reads is Ignored. */
  function Decode(b: seq<byte>): (r: Input)
  {
    if |b| < 8 then Ignored
    else if Word(b, 6) != SIGNAL_CID then
      if 8 + Word(b, 4) <= |b| then Client(Word(b, 0), Word(b, 6), b[8..8 + Word(b, 4)]) else Ignored
    else if |b| < 12 then Ignored
    else
      match DecodeCommand(b[8], b[12..])
      case None => Ignored
      case Some(c) => Signal(Word(b, 0), b[9], c)
  }

  /** The header fields of a packet and what follows them. */
  lemma PacketShape(handle: word, cid: word, body: seq<byte>)
    requires |body| < 0x1_0000 - 4
    ensures var b := Packet(handle, cid, body);
            && |b| == 8 + |body| && b[8..] == body
            && Word(b, 0) == handle && Word(b, 2) == |body| + 4 && Word(b, 4) == |body| && Word(b, 6) == cid
  {
  }

  lemma CommandRoundTrip(c: Command)
    ensures DecodeCommand(Code(c), Fields(c)) == Some(c)
  {
  }

  /** A peer reads back every command that is sent. */
  lemma SignalRoundTrip(handle: word, id: byte, c: Command)
    ensures Decode(Encode(handle, id, c)) == Signal(handle, id, c)
  {
    var body := [Code(c), id] + Le16(|Fields(c)|) + Fields(c);
    PacketShape(handle, SIGNAL_CID, body);
    var b := Encode(handle, id, c);
    assert b[8] == b[8..][0] == Code(c) && b[9] == b[8..][1] == id;
    assert b[12..] == b[8..][4..] == Fields(c);
    CommandRoundTrip(c);
  }

  /** Client data is read back with its channel, for every body a packet can hold. */
  lemma ClientRoundTrip(handle: word, cid: word, body: seq<byte>)
    requires cid != SIGNAL_CID && |body| < 0x1_0000 - 4
    ensures Decode(Packet(handle, cid, body)) == Client(handle, cid, body)
  {
    PacketShape(handle, cid, body);
  }
}
