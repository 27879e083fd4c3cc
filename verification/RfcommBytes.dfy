/**
  The bytes of RFCOMM frames, written out (Bluetooth RFCOMM with TS 07.10, sections 5.2.1 and 5.4.6): what
  goes on the wire for each frame of a run, with a check a receiver accepts, and what is made of the bytes
  that come.
*/
module RfcommBytes {
  import opened Bytes
  import opened Folds
  import opened RfcommFrames
  import opened RfcommOrder
  import opened RfcommSafety
  import opened RfcommSends
  import opened RfcommSession
  import opened RfcommTable

  // ---------------------------------------------------------------- the check

  /** How many bytes the check of a frame is over: two for UIH frames, three for the others. */
  function Checked(b: seq<byte>): (k: nat)
    requires |b| >= 4
    ensures k < |b|
  {
    if b[1] == 0xEF then 2 else 3
  }

  /** A receiver that runs the register over these and the check byte ends with 0xCF. */
  predicate Accepted(b: seq<byte>)
  {
    |b| >= 4 && Fcs.Register(0xFF, ToBv(b[..Checked(b)] + [b[|b| - 1]])) == 0xCF
  }

  lemma ToBvSnoc(s: seq<byte>, x: byte)
    ensures ToBv(s + [x]) == ToBv(s) + [x as bv8]
  {
  }

  lemma CheckAccepted(header: seq<byte>, frameType: byte, k: nat)
    requires |header| == 3 && k == if frameType == 0xEF then 2 else 3
    ensures Fcs.Register(0xFF, ToBv(header[..k] + [HeaderCheck(header, frameType)])) == 0xCF
  {
    var fcs := HeaderCheck(header, frameType);
    assert header[..3] == header;
    ToBvSnoc(header[..k], fcs);
    Fcs.GoodResidue(ToBv(header[..k]), fcs as bv8);
  }

  lemma ControlByteKinds(frameType: byte, command: bool)
    requires frameType in {0x2F, 0x63, 0xEF}
    ensures Control1(frameType, command) == if frameType == 0xEF then 0xEF
                                            else if command then frameType + 0x10 else frameType
  {
  }

  // ---------------------------------------------------------------- a frame that is sent

  /** The channel in the address: that of SABM, UA and data, and 0 for control messages. */
  function AddressOf(f: Frame): (n: nat)
  {
    match f
    case Sabm(n) => n
    case Ua(n) => n
    case Data(n, _) => n
    case Overrun(n, _, _) => n
    case Other(n) => n
    case _ => 0
  }

  /** The second byte. */
  function TypeByte(f: Frame, command: bool): (b: byte)
  {
    match f
    case Sabm(_) => if command then 0x3F else 0x2F
    case Ua(_) => if command then 0x73 else 0x63
    case _ => 0xEF
  }

  /** What a frame carries. */
  function Carried(f: Frame): (data: seq<byte>)
  {
    match f
    case Data(_, payload) => payload
    case Pn(command, dlci, p) =>
      [if command then 0x83 else 0x81, 0x11, dlci, p.flow, p.priority, p.timer, p.mtu % 256, p.mtu / 256,
       p.retries, p.window]
    case Msc(command, dlci, signals, None) => [if command then 0xE3 else 0xE1, 0x05, dlci, Odd(signals)]
    case Msc(command, dlci, signals, Some(breaks)) =>
      [if command then 0xE3 else 0xE1, 0x07, dlci, Odd(signals), Odd(breaks)]
    case Rpn(command, dlci, rest) => [if command then 0x93 else 0x91, 0x11, dlci] + rest
    case _ => []
  }

  lemma PayloadIsCarried(f: Frame)
    ensures Payload(f) == Carried(f)
  {
  }

  /**
    A frame without its check: the address with 3 for a command and 1 for a response, the type, the length and
    what it carries.
  */
  function Front(f: Frame, command: bool): (b: seq<byte>)
    requires |Carried(f)| < 128
  {
    [(8 * AddressOf(f) + if command then 3 else 1) % 256, TypeByte(f, command), 2 * |Carried(f)| + 1] + Carried(f)
  }

  /** Every frame that is sent is this and a check that a receiver accepts. */
  lemma FrameOnWire(a: Act, b: seq<byte>)
    requires a.Sent? && b in FramesOut(a)
    ensures |b| >= 4 && Accepted(b) && |Carried(a.frame)| < 128 && b[..|b| - 1] == Front(a.frame, a.command)
  {
    PayloadIsCarried(a.frame);
    FrameParts(Carrier(a.frame), a.command, FrameType(a.frame), Payload(a.frame), b);
    FrontIs(a.frame, a.command);
  }

  lemma FrontIs(f: Frame, command: bool)
    requires |Payload(f)| < 128 && Payload(f) == Carried(f)
    ensures Front(f, command)
         == [Address(Carrier(f), command), Control1(FrameType(f), command), 2 * |Payload(f)| + 1] + Payload(f)
  {
    ControlByteKinds(FrameType(f), command);
  }

  lemma FrameParts(n: nat, command: bool, frameType: byte, data: seq<byte>, b: seq<byte>)
    requires |data| < 128 && b == FrameBytes(n, command, frameType, data) && frameType in {0x2F, 0x63, 0xEF}
    ensures Accepted(b)
    ensures b[..|b| - 1] == [Address(n, command), Control1(frameType, command), 2 * |data| + 1] + data
  {
    var header := [Address(n, command), Control1(frameType, command), 2 * |data| + 1];
    var k := if frameType == 0xEF then 2 else 3;
    ControlByteKinds(frameType, command);
    CheckAccepted(header, frameType, k);
    assert b == header + data + [HeaderCheck(header, frameType)];
    assert b[..k] == header[..k] && b[|b| - 1] == HeaderCheck(header, frameType);
  }

  // ---------------------------------------------------------------- our commands on the wire

  /** The outer bit of a control message, as an address byte of channel 0. */
  function Outer(incoming: bool): (b: byte) { if incoming then 1 else 3 }

  /** The bytes of our command or data for channel n, before the check. */
  function OwnBytes(f: Frame, n: nat, p: Params, incoming: bool): (b: seq<byte>)
    requires n < 32 && |Carried(f)| < 128
  {
    match f
    case Sabm(_) => [8 * n + 3, 0x3F, 0x01]
    case Pn(_, _, _) =>
      [Outer(incoming), 0xEF, 0x15, 0x83, 0x11, 2 * n, 0, p.priority, 0, p.mtu % 256, p.mtu / 256, 0, 7]
    case Msc(_, _, _, _) => [Outer(incoming), 0xEF, 0x09, 0xE3, 0x05, 8 * n + 3, 0x8D]
    case Rpn(_, _, _) =>
      [Outer(incoming), 0xEF, 0x15, 0x93, 0x11, 8 * n + 3, 0x07, 0, 0, 0, 0, 0x7F, 0x3F]
    case Data(_, payload) => [8 * n + 3, 0xEF, 2 * |payload| + 1] + payload
    case _ => []
  }

  lemma PnFront(n: nat, p: Params, incoming: bool)
    requires n < 32
    ensures var f := Pn(true, 2 * n, PnParams(0, p.priority, 0, p.mtu, 0, 7));
            |Carried(f)| < 128 && Front(f, !incoming) == OwnBytes(f, n, p, incoming)
  {
  }

  lemma MscFront(n: nat, p: Params, incoming: bool)
    requires n < 32
    ensures var f := Msc(true, 8 * n + 3, 0x8C, None);
            |Carried(f)| < 128 && Front(f, !incoming) == OwnBytes(f, n, p, incoming)
  {
  }

  lemma RpnFront(n: nat, p: Params, incoming: bool)
    requires n < 32
    ensures var f := Rpn(true, 8 * n + 3, [0x07, 0, 0, 0, 0, 0x7F, 0x3F]);
            |Carried(f)| < 128 && Front(f, !incoming) == OwnBytes(f, n, p, incoming)
  {
  }

  lemma PlainFront(f: Frame, n: nat, p: Params, incoming: bool)
    requires n < 32 && |Carried(f)| < 128 && (f == Sabm(n) || (f.Data? && f.n == n))
    ensures Front(f, true) == OwnBytes(f, n, p, incoming)
  {
  }

  /** Our commands and data, each with its own front. */
  lemma OwnFront(f: Frame, command: bool, n: nat, p: Params, incoming: bool)
    requires n < 32 && IsOwn(f, n, p) && |Carried(f)| < 128 && command == (f.Sabm? || f.Data? || !incoming)
    ensures Front(f, command) == OwnBytes(f, n, p, incoming)
  {
    if f.Pn? {
      PnFront(n, p, incoming);
    } else if f.Msc? {
      MscFront(n, p, incoming);
    } else if f.Rpn? {
      RpnFront(n, p, incoming);
    } else {
      PlainFront(f, n, p, incoming);
    }
  }

  lemma OwnOnWire(a: Act, p: Params, incoming: bool, b: seq<byte>)
    requires a.Sent? && a.n < 32 && IsOwn(a.frame, a.n, p) && OuterBit(a, incoming) && b in FramesOut(a)
    ensures |b| >= 4 && Accepted(b) && |Carried(a.frame)| < 128
    ensures b[..|b| - 1] == OwnBytes(a.frame, a.n, p, incoming)
  {
    FrameOnWire(a, b);
    PayloadIsCarried(a.frame);
    OwnNotUa(a.frame, a.n, p);
    OwnFront(a.frame, a.command, a.n, p, incoming);
  }

  lemma OwnNotUa(f: Frame, n: nat, p: Params)
    requires IsOwn(f, n, p)
    ensures !f.Ua?
  {
  }

  /**
    In every run, the bytes of each command of ours and of client data, for a channel that an address can hold:
    with the parameters that channel has by then, and a check a receiver accepts.
  */
  lemma OwnFramesOnWire(start: Session, events: seq<Event>, k: nat, b: seq<byte>)
    requires IsStart(start) && k < |Run(Step, start, events).trace|
    requires var a := Run(Step, start, events).trace[k];
             a.Sent? && a.n < 32 && (IsOurs(a.frame) || a.frame.Data?) && b in FramesOut(a)
    ensures var trace := Run(Step, start, events).trace;
            var a := trace[k];
            && |b| >= 4 && Accepted(b) && |Carried(a.frame)| < 128
            && b[..|b| - 1] == OwnBytes(a.frame, a.n, ParamsAt(trace[..k], a.n), IsIncoming(start))
  {
    FramesAreRight(start, events, k);
    var trace := Run(Step, start, events).trace;
    var a := trace[k];
    OursIsOwn(trace[..k], a, IsIncoming(start));
    OwnOnWire(a, ParamsAt(trace[..k], a.n), IsIncoming(start), b);
  }

  lemma OursIsOwn(history: seq<Act>, a: Act, incoming: bool)
    requires a.Sent? && IsOurs(a.frame) && Right(history, a, incoming)
    ensures IsOwn(a.frame, a.n, ParamsAt(history, a.n)) && OuterBit(a, incoming)
  {
  }

  // ---------------------------------------------------------------- frames that come

  /** The type byte, with or without the poll bit. */
  lemma TypeRead(b: seq<byte>)
    requires |b| >= 3
    ensures b[1] in {0x2F, 0x3F} ==> Decode(b) == Some(Sabm(b[0] / 8))
    ensures b[1] in {0x63, 0x73} ==> Decode(b) == Some(Ua(b[0] / 8))
    ensures b[1] !in {0x2F, 0x3F, 0x63, 0x73, 0xEF, 0xFF} ==> Decode(b) == Some(Other(b[0] / 8))
  {
  }

  /** A UIH frame on a channel: a length byte and so much data, unless the byte after the length is 1. */
  lemma DataRead(b: seq<byte>)
    requires |b| >= 4 && b[1] in {0xEF, 0xFF} && b[0] >= 8
    ensures b[3] != 1 && 3 + b[2] / 2 <= |b| ==> Decode(b) == Some(Data(b[0] / 8, b[3..3 + b[2] / 2]))
    ensures b[3] != 1 && 3 + b[2] / 2 > |b| ==> Decode(b) == Some(Overrun(b[0] / 8, b[3..], b[2] / 2))
    ensures b[3] == 1 && 4 + 128 + b[2] / 2 <= |b| ==>
              Decode(b) == Some(Data(b[0] / 8, b[4..4 + 128 + b[2] / 2]))
    ensures b[3] == 1 && 4 + 128 + b[2] / 2 > |b| ==> Decode(b) == Some(Overrun(b[0] / 8, b[4..], 128 + b[2] / 2))
  {
  }

  /** A control message: 8x is PN, Ex is MSC and 9x is RPN, as a command with the bit 2 and as a response without. */
  lemma ControlRead(b: seq<byte>)
    requires |b| >= 13 && b[1] in {0xEF, 0xFF} && b[0] < 8
    ensures b[3] in {0x80, 0x81, 0x82, 0x83} ==>
              Decode(b) == Some(Pn(b[3] >= 0x82, b[5],
                                   PnParams(b[6], b[7], b[8], b[9] as int + 256 * (b[10] as int), b[11], b[12])))
    ensures b[3] in {0xE0, 0xE1, 0xE2, 0xE3} && b[4] in {0x04, 0x05} ==>
              Decode(b) == Some(Msc(b[3] >= 0xE2, b[5], b[6] - b[6] % 2, None))
    ensures b[3] in {0xE0, 0xE1, 0xE2, 0xE3} && b[4] in {0x06, 0x07} ==>
              Decode(b) == Some(Msc(b[3] >= 0xE2, b[5], b[6] - b[6] % 2, Some(b[7] - 4 * (b[7] / 4 % 4))))
    ensures b[3] in {0x90, 0x91, 0x92, 0x93} ==> Decode(b) == Some(Rpn(b[3] >= 0x92, b[5], b[6..13]))
    ensures b[3] / 4 !in {0x20, 0x38, 0x24} ==> Decode(b) == Some(Control)
  {
  }

  /** Whom a control message is about: the DLCI of PN without its lowest bit, and of MSC and RPN without three. */
  lemma AboutWhom(f: Frame)
    ensures f.Pn? ==> Target(f) == f.dlci / 2
    ensures f.Msc? || f.Rpn? ==> Target(f) == f.dlci / 8
    ensures f.Control? ==> Target(f) == 0
  {
  }
}
