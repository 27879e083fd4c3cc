/**
  RFCOMM frames (Bluetooth RFCOMM with TS 07.10): the frames the multiplexer understands, the bytes
  sendPacket writes for them and what rfEventHandler reads from bytes.
*/
module RfcommFrames {
  import opened Bytes
  import Fcs

  const FRAME_SABM: byte := 0x2F
  const FRAME_UA: byte := 0x63
  const FRAME_UIH: byte := 0xEF
  const POLL_FINAL: byte := 0x10

  const CONTROL_MSC := 0x38   // 0xE0 >> 2
  const CONTROL_RPN := 0x24   // 0x90 >> 2
  const CONTROL_PN := 0x20    // 0x80 >> 2

  /** The PN parameters after the DLCI. */
  datatype PnParams = PnParams(flow: byte, priority: byte, timer: byte, mtu: word, retries: byte, window: byte)

  /** command is the inner command/response bit of a control message. */
  datatype Frame =
    | Sabm(n: nat)
    | Ua(n: nat)
    | Data(n: nat, payload: seq<byte>)
    | Overrun(n: nat, known: seq<byte>, len: nat)   // client data that claims len bytes, more than the frame has
    | Pn(command: bool, dlci: byte, params: PnParams)
    | Msc(command: bool, dlci: byte, signals: byte, breaks: Option<byte>)
    | Rpn(command: bool, dlci: byte, rest: seq<byte>)
    | Control          // a control message of another type
    | Other(n: nat)    // DM, DISC, unknown types

  /** The channel a control message is about: PN shifts out one bit, MSC and RPN three. */
  function Target(f: Frame): (r: nat)
  {
    match f
    case Sabm(n) => n
    case Ua(n) => n
    case Data(n, _) => n
    case Overrun(n, _, _) => n
    case Pn(_, dlci, _) => dlci / 2
    case Msc(_, dlci, _, _) => dlci / 8
    case Rpn(_, dlci, _) => dlci / 8
    case Control => 0
    case Other(n) => n
  }

  /** The channel whose address the frame carries. */
  function Carrier(f: Frame): (r: nat)
  {
    match f
    case Sabm(n) => n
    case Ua(n) => n
    case Data(n, _) => n
    case Overrun(n, _, _) => n
    case Other(n) => n
    case _ => 0
  }

  function SetLow(b: byte): (r: byte) { if b % 2 == 0 then b + 1 else b }

  function ControlByte(kind: nat, command: bool): (r: byte)
    requires kind < 64
  {
    kind * 4 + if command then 3 else 1
  }

  /** What sendPacket is given as data. */
  function Payload(f: Frame): (r: seq<byte>)
  {
    match f
    case Data(_, payload) => payload
    case Pn(command, dlci, p) =>
      [ControlByte(CONTROL_PN, command), 0x11, dlci, p.flow, p.priority, p.timer] + Le16(p.mtu) + [p.retries, p.window]
    case Msc(command, dlci, signals, None) => [ControlByte(CONTROL_MSC, command), 0x05, dlci, SetLow(signals)]
    case Msc(command, dlci, signals, Some(breaks)) =>
      [ControlByte(CONTROL_MSC, command), 0x07, dlci, SetLow(signals), SetLow(breaks)]
    case Rpn(command, dlci, rest) => [ControlByte(CONTROL_RPN, command), 0x11, dlci] + rest
    case _ => []
  }

  function FrameType(f: Frame): (r: byte)
  {
    match f
    case Sabm(_) => FRAME_SABM
    case Ua(_) => FRAME_UA
    case _ => FRAME_UIH
  }

  /** The address byte: the channel number is cut to what the byte holds. */
  function Address(n: nat, command: bool): (r: byte)
  {
    (n * 8 + if command then 3 else 1) % 256
  }

  function Control1(frameType: byte, command: bool): (r: byte)
  {
    if command && frameType != FRAME_UIH && (frameType / 16) % 2 == 0 then (frameType + POLL_FINAL) % 256 else frameType
  }

  function ToBv(s: seq<byte>): (r: seq<bv8>)
  {
    seq(|s|, i requires 0 <= i < |s| => s[i] as bv8)
  }

  /** The header check over two bytes for UIH frames and three for the others. */
  function HeaderCheck(header: seq<byte>, frameType: byte): (r: byte)
    requires |header| == 3
  {
    Fcs.Check(ToBv(if frameType == FRAME_UIH then header[..2] else header)) as int
  }

  /** The frame sendPacket builds for channel n: address, control, length, data and check. */
  function FrameBytes(n: nat, command: bool, frameType: byte, data: seq<byte>): (b: seq<byte>)
    requires |data| < 128
    ensures |b| == 4 + |data|
  {
    var header := [Address(n, command), Control1(frameType, command), 2 * |data| + 1];
    header + data + [HeaderCheck(header, frameType)]
  }

  // ---------------------------------------------------------------- reading

  function ClearPoll(b: byte): (r: byte) { if (b / 16) % 2 == 1 then b - 16 else b }

  /** The length of a long frame whose second length byte is 1. */
  function LongLength(b2: nat): (r: nat) { (b2 + 256) / 2 }

  /**
    A UIH frame on a nonzero channel: the byte after the length decides between short and long. The length
    is not held against the frame's own: a longer one takes in what follows in memory.
  */
  function DecodeData(n: nat, b: seq<byte>): (r: Frame)
    requires |b| >= 4
  {
    var long := b[3] == 1;
    var start, len := if long then 4 else 3, if long then LongLength(b[2]) else b[2] / 2;
    if start + len <= |b| then Data(n, b[start..start + len]) else Overrun(n, b[start..], len)
  }

  /** A UIH frame on channel 0: control type, command bit, length, values. */
  function DecodeControl(b: seq<byte>): (r: Frame)
    requires |b| >= 5
  {
    var kind, command, len := b[3] / 4, (b[3] / 2) % 2 == 1, b[4] / 2;
    if kind == CONTROL_PN && |b| >= 13 then
      Pn(command, b[5], PnParams(b[6], b[7], b[8], FromLe16(b[9], b[10]), b[11], b[12]))
    else if kind == CONTROL_MSC && (len == 2 || len == 3) && |b| >= 5 + len then
      Msc(command, b[5], b[6] - b[6] % 2, if len == 3 then Some(MaskBreaks(b[7])) else None)
    else if kind == CONTROL_RPN && |b| >= 13 then
      Rpn(command, b[5], b[6..13])
    else Control
  }

  /** The break byte with bits 2 and 3 cleared. */
  function MaskBreaks(b: byte): (r: byte) { b - ((b / 4) % 4) * 4 }

  /** What rfEventHandler makes of a buffer; None is a buffer too short for the fields it reads. */
  function Decode(b: seq<byte>): (r: Option<Frame>)
  {
    if |b| < 3 then None
    else
      var n, frameType := b[0] / 8, ClearPoll(b[1]);
      if frameType == FRAME_SABM then Some(Sabm(n))
      else if frameType == FRAME_UA then Some(Ua(n))
      else if frameType != FRAME_UIH then Some(Other(n))
      else if n != 0 then if |b| >= 4 then Some(DecodeData(n, b)) else None
      else if |b| >= 5 then Some(DecodeControl(b)) else None
  }

  /** What the client is called back with: bytes of the frame, and how many bytes it is told there are. */
  datatype Call = Call(known: seq<byte>, len: nat)

  predicate IsClientData(f: Frame) { f.Data? || f.Overrun? }

  function CallOf(f: Frame): (r: Call)
    requires IsClientData(f)
  {
    match f
    case Data(_, payload) => Call(payload, |payload|)
    case Overrun(_, known, len) => Call(known, len)
  }

  // ---------------------------------------------------------------- round trips

  /** The frames this stack can send for channels 1 to 31, and that a conforming peer sends. */
  predicate WellFormed(f: Frame)
  {
    match f
    case Sabm(n) => n < 32
    case Ua(n) => n < 32
    case Data(n, payload) => 1 <= n < 32 && 1 <= |payload| < 128
    case Msc(_, _, signals, breaks) =>
      signals % 2 == 0 && (breaks.Some? ==> breaks.value % 2 == 1 && MaskBreaks(breaks.value) == breaks.value)
    case Rpn(_, _, rest) => |rest| == 7
    case Pn(_, _, _) => true
    case _ => false
  }

  function Encode(f: Frame, command: bool): (r: seq<byte>)
    requires WellFormed(f)
  {
    FrameBytes(Carrier(f), command, FrameType(f), Payload(f))
  }

  lemma AddressRoundTrip(n: nat, command: bool)
    requires n < 32
    ensures Address(n, command) / 8 == n
  {
  }

  lemma ControlRoundTrip(kind: nat, command: bool)
    requires kind < 64
    ensures var b := ControlByte(kind, command); b / 4 == kind && ((b / 2) % 2 == 1) == command
  {
  }

  lemma TypeRoundTrip(f: Frame, command: bool)
    ensures ClearPoll(Control1(FrameType(f), command)) == FrameType(f)
  {
  }

  lemma EncodeShape(f: Frame, command: bool)
    requires WellFormed(f)
    ensures var b := Encode(f, command);
            && |b| == 4 + |Payload(f)|
            && b[0] / 8 == Carrier(f) && ClearPoll(b[1]) == FrameType(f) && b[2] == 2 * |Payload(f)| + 1
            && b[3..3 + |Payload(f)|] == Payload(f)
  {
    AddressRoundTrip(Carrier(f), command);
    TypeRoundTrip(f, command);
  }

  lemma SignalsRoundTrip(b: byte)
    ensures b % 2 == 0 ==> SetLow(b) - SetLow(b) % 2 == b
    ensures b % 2 == 1 ==> SetLow(b) == b
  {
  }

  /** The peer reads back every frame but client data exactly as it was sent. */
  lemma ControlFramesRoundTrip(f: Frame, command: bool)
    requires WellFormed(f) && !f.Data?
    ensures Decode(Encode(f, command)) == Some(f)
  {
    EncodeShape(f, command);
    var b, p := Encode(f, command), Payload(f);
    assert forall i {:trigger p[i]} :: 0 <= i < |p| ==> b[3..3 + |p|][i] == b[3 + i] == p[i];
    match f {
      case Sabm(_) =>
      case Ua(_) =>
      case Pn(c, dlci, params) =>
        ControlRoundTrip(CONTROL_PN, c);
        assert p[0] == ControlByte(CONTROL_PN, c) && p[2] == dlci && p[3] == params.flow && p[4] == params.priority;
        assert p[5] == params.timer && p[6] == Le16(params.mtu)[0] && p[7] == Le16(params.mtu)[1];
        assert p[8] == params.retries && p[9] == params.window;
        Le16RoundTrip(params.mtu);
      case Msc(c, dlci, signals, breaks) =>
        ControlRoundTrip(CONTROL_MSC, c);
        assert p[0] == ControlByte(CONTROL_MSC, c) && p[2] == dlci && p[3] == SetLow(signals);
        SignalsRoundTrip(signals);
        if breaks.Some? {
          assert p[4] == SetLow(breaks.value);
          SignalsRoundTrip(breaks.value);
        }
      case Rpn(c, dlci, rest) =>
        ControlRoundTrip(CONTROL_RPN, c);
        assert p[0] == ControlByte(CONTROL_RPN, c) && p[2] == dlci;
        assert p[3..10] == rest;
        assert b[6..13] == b[3..3 + |p|][3..10];
    }
  }

  /** Client data arrives as it was sent exactly when its first byte is not 1, the long-frame test. */
  lemma DataRoundTrip(n: nat, payload: seq<byte>, command: bool)
    requires 1 <= n < 32 && 1 <= |payload| < 128
    ensures Decode(Encode(Data(n, payload), command)) == Some(Data(n, payload)) <==> payload[0] != 1
  {
    var f := Data(n, payload);
    EncodeShape(f, command);
    var b := Encode(f, command);
    assert b[3] == b[3..3 + |payload|][0] == payload[0];
    assert b[2] / 2 == |payload|;
  }

  /** The check byte at the end of a frame. */
  function CheckOf(n: nat, payload: seq<byte>, command: bool): (r: byte)
    requires |payload| < 128
  {
    HeaderCheck([Address(n, command), Control1(FRAME_UIH, command), 2 * |payload| + 1], FRAME_UIH)
  }

  /**
    Client data that starts with 1 is taken for a long frame: the client is told of 128 bytes more than
    were sent, and gets the rest of the payload, the check byte and then whatever follows in memory.
  */
  lemma DataMisread(n: nat, payload: seq<byte>, command: bool)
    requires 1 <= n < 32 && 1 <= |payload| < 128 && payload[0] == 1
    ensures Decode(Encode(Data(n, payload), command))
         == Some(Overrun(n, payload[1..] + [CheckOf(n, payload, command)], 128 + |payload|))
  {
    var f := Data(n, payload);
    EncodeShape(f, command);
    var b := Encode(f, command);
    assert b[3] == b[3..3 + |payload|][0] == payload[0];
    assert b[4..] == payload[1..] + [CheckOf(n, payload, command)];
    assert b[2] / 2 == |payload| && LongLength(b[2]) == 128 + |payload|;
  }

  /** A data frame as TS 07.10 has a peer send it: two length bytes from 128 bytes of payload on. */
  function PeerData(n: nat, payload: seq<byte>, fcs: byte): (r: seq<byte>)
    requires |payload| < 0x8000
  {
    var len := |payload|;
    [Address(n, true), FRAME_UIH]
    + (if len < 128 then [2 * len + 1] else [2 * (len % 128), len / 128])
    + payload + [fcs]
  }

  /**
    Up to the 512 bytes this stack offers as its MTU, a peer's data frame is understood exactly when it
    is short and does not start with 1, or its length is 128 to 255: longer frames are misread.
  */
  lemma PeerDataUnderstood(n: nat, payload: seq<byte>, fcs: byte)
    requires 1 <= n < 32 && 1 <= |payload| <= 512
    ensures Decode(PeerData(n, payload, fcs)) == Some(Data(n, payload))
       <==> (if |payload| < 128 then payload[0] != 1 else |payload| < 256)
  {
  }
}
