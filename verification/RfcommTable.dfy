/**
  The RFCOMM session object of rfcomm.c: the table of channel slots changed in place, with the packets
  handed to L2CAP. Each method is one C function, tied to the step of RfcommSession it performs.
*/
module RfcommTable {
  import opened Bytes
  import opened RfcommFrames
  import opened RfcommSession
  import opened L2capPackets
  import opened L2capSend

  /** The frame an act sends. */
  function FramesOut(a: Act): (frames: seq<seq<byte>>)
    ensures |frames| <= 1 && (frames != [] ==> |frames[0]| <= MAX_FRAME)
  {
    if a.Sent? && |Payload(a.frame)| < 128
    then [FrameBytes(Carrier(a.frame), a.command, FrameType(a.frame), Payload(a.frame))]
    else []
  }

  const MAX_FRAME := 131           // 127 bytes of data in a frame
  const MAX_RFCOMM_FRAME := 256    // the buffer

  /** The packet that carries it on a connection. */
  function PacketsOut(handle: word, cid: word, a: Act): (packets: seq<seq<byte>>)
  {
    if FramesOut(a) == [] then [] else [Packet(WithBoundary(handle), cid, FramesOut(a)[0])]
  }

  /** What a trace hands down, one packet for each frame sent. */
  function Wire(handle: word, cid: word, trace: seq<Act>): (packets: seq<seq<byte>>)
    decreases |trace|
  {
    if trace == [] then []
    else Wire(handle, cid, trace[..|trace| - 1]) + PacketsOut(handle, cid, trace[|trace| - 1])
  }

  lemma WireSnoc(handle: word, cid: word, trace: seq<Act>, a: Act)
    ensures Wire(handle, cid, trace + [a]) == Wire(handle, cid, trace) + PacketsOut(handle, cid, a)
  {
    assert (trace + [a])[..|trace|] == trace;
  }

  class RfSession {
    const channel: array<Slot>
    const handle: word            // lcn->device->handle
    const remoteCid: word         // lcn->remote_cid
    var hasClient: bool
    var packets: seq<seq<byte>>   // what sendPacket handed down, in order
    ghost var trace: seq<Act>

    ghost predicate Valid()
      reads this, channel
    {
      channel.Length == MAX_CHANNELS && packets == Wire(handle, remoteCid, trace)
    }

    ghost function Abs(): (r: Session)
      reads this, channel
    {
      Session(channel[..], trace, hasClient)
    }

    constructor (h: word, cid: word, client: bool)
      ensures handle == h && remoteCid == cid
      ensures Valid() && fresh(channel) && Abs() == Session(EMPTY_TABLE, [], client)
    {
      channel := new Slot[MAX_CHANNELS](_ => Free);
      handle, remoteCid := h, cid;
      hasClient, packets, trace := client, [], [];
      new;
      assert channel[..] == EMPTY_TABLE;
    }

    /** findChannel: the index of the channel, or the table size. */
    method FindChannel(n: nat) returns (i: nat)
      requires Valid()
      ensures i == Find(channel[..], n)
    {
      i := 0;
      while i < channel.Length
        invariant i <= channel.Length
        invariant forall k | 0 <= k < i :: !IsChannel(channel[k], n)
      {
        if channel[i].Channel? && channel[i].num == n {
          assert IsChannel(channel[..][i], n);
          return;
        }
        i := i + 1;
      }
    }

    /** The first free slot, or the table size. */
    method FreeSlot() returns (i: nat)
      requires Valid()
      ensures i == FirstFree(channel[..])
    {
      i := 0;
      while i < channel.Length
        invariant i <= channel.Length
        invariant forall k | 0 <= k < i :: channel[k].Channel?
      {
        if channel[i].Free? {
          assert channel[..][i].Free?;
          return;
        }
        i := i + 1;
      }
    }

    /** addChannel: the index of the new channel, or the table size when there is no room. */
    method AddChannel(n: nat) returns (i: nat)
      requires Valid()
      modifies this`trace, channel
      ensures Valid() && i == FirstFree(old(channel[..])) && Abs() == Add(old(Abs()), n)
    {
      i := FreeSlot();
      if i == channel.Length { return; }
      var bits := {};
      if n != 0 && channel[0].Channel? && Incoming in channel[0].bits {
        bits := {Incoming};
      }
      AddIs(Abs(), n, bits);
      channel[i] := Channel(n, bits, OUR_PRIORITY, OUR_MTU);
      WireSnoc(handle, remoteCid, trace, Added(n));
      trace := trace + [Added(n)];
    }

    /** sendPacket on behalf of channel n: header and frame are written to a buffer, which goes down to L2CAP. */
    method SendPacket(n: nat, f: Frame, command: bool)
      requires Valid() && |Payload(f)| < 128
      modifies this`packets, this`trace
      ensures Valid() && Abs() == Record(old(Abs()), Sent(n, f, command))
      ensures packets == old(packets) + PacketsOut(handle, remoteCid, Sent(n, f, command))
    {
      var frame := FrameBytes(Carrier(f), command, FrameType(f), Payload(f));
      var packet := Hand(frame);
      packets := packets + [packet];
      OnePacket(handle, remoteCid, n, f, command);
      WireSnoc(handle, remoteCid, trace, Sent(n, f, command));
      trace := trace + [Sent(n, f, command)];
    }

    /** The buffer of sendPacket with the HCI and L2CAP headers in front of the frame, sent down. */
    method Hand(frame: seq<byte>) returns (packet: seq<byte>)
      requires |frame| <= MAX_FRAME
      ensures packet == Packet(WithBoundary(handle), remoteCid, frame)
    {
      var buf := new byte[MAX_RFCOMM_FRAME](_ => 0);
      var h: word := WithBoundary(handle);
      PutWord(buf, 0, h);
      PutWord(buf, 6, remoteCid);
      forall k | 0 <= k < |frame| { buf[8 + k] := frame[k]; }
      HeaderWord(buf[..], 0, h);
      HeaderWord(buf[..], 6, remoteCid);
      assert buf[8..8 + |frame|] == frame;
      packet := LcapSendData(buf, 8 + |frame|);
    }

    /** channel_state |= bits. */
    method SetBits(i: nat, bits: set<Bit>)
      requires Valid() && i < channel.Length && channel[i].Channel?
      modifies channel
      ensures Valid() && channel[..] == old(channel[..])[i := old(channel[i]).(bits := old(channel[i]).bits + bits)]
    {
      channel[i] := channel[i].(bits := channel[i].bits + bits);
    }

    /** processChannel. */
    method ProcessChannel(i: nat)
      requires Valid() && i < channel.Length && channel[i].Channel?
      modifies this`packets, this`trace, channel
      ensures Valid() && Abs() == Process(old(Abs()), i)
    {
      var c := channel[i];
      if c.num == 0 {
        if Incoming !in c.bits && SabmDone !in c.bits {
          SendPacket(0, Sabm(0), true);
          SetBits(i, {SabmDone});
        }
        return;
      }
      var dlc0 := FindChannel(0);
      if dlc0 == channel.Length { return; }
      if SabmDone !in channel[dlc0].bits || UaDone !in channel[dlc0].bits { return; }
      AdvanceChannel(i);
    }

    /** One move for channel i: send the command that belongs to it, if any, and set its bit. */
    method Perform(i: nat, m: Move)
      requires Valid() && i < channel.Length && channel[i].Channel? && channel[i].num != 0 && Ready(Abs())
      requires m == NextMove(channel[i].bits)
      modifies this`packets, this`trace, channel
      ensures Valid() && Abs() == Process(old(Abs()), i)
    {
      var c := channel[i];
      var f := None;
      if m.SendPn? {
        f := Some(Pn(true, (c.num * 2) % 256, PnParams(0, c.priority, 0, c.mtu, 0, 7)));
      } else if m.SendSabm? {
        f := Some(Sabm(c.num));
      } else if m.SendMsc? {
        f := Some(Msc(true, (c.num * 8 + 3) % 256, OUR_SIGNALS, None));
      } else if m.SendRpn? {
        f := Some(Rpn(true, (c.num * 8 + 3) % 256, OUR_RPN));
      }
      assert f == FrameOf(m, c);
      ProcessIs(Abs(), i);
      if f.Some? {
        OurPayload(m, c);
        SendPacket(c.num, f.value, f.value.Sabm? || Incoming !in c.bits);
        SetBits(i, RaisedBy(m));
      } else {
        SetBits(i, RaisedBy(m));
      }
    }

    /** The rest of processChannel: one move of the state machine of a nonzero channel. */
    method AdvanceChannel(i: nat)
      requires Valid() && i < channel.Length && channel[i].Channel? && channel[i].num != 0 && Ready(Abs())
      modifies this`packets, this`trace, channel
      ensures Valid() && Abs() == Process(old(Abs()), i)
    {
      var bits := channel[i].bits;
      ProcessIs(Abs(), i);
      if Open in bits {
      } else if PnSent !in bits {
        Perform(i, SendPn);
      } else if PnAnswered !in bits {
      } else if Incoming !in bits && SabmDone !in bits {
        Perform(i, SendSabm);
      } else if UaDone !in bits {
      } else if MscSent !in bits {
        Perform(i, SendMsc);
      } else if MscAnswered !in bits {
      } else if MscReceived !in bits {
      } else if MscReplied !in bits {
      } else if RpnSent !in bits {
        Perform(i, SendRpn);
      } else if RpnAnswered !in bits {
      } else {
        Perform(i, DeclareOpen);
      }
    }

    // -------------------------------------------------------------- received frames

    /** controlModemStatus: note the signals, or note them and answer. */
    method ControlModemStatus(f: Frame)
      requires Valid() && f.Msc?
      modifies this`packets, this`trace, channel
      ensures Valid() && Abs() == Absorb(old(Abs()), f)
    {
      var i := FindChannel(f.dlci / 8);
      if i == channel.Length { return; }
      if f.command {
        var breaks := if f.breaks.Some? then Some(SetLow(f.breaks.value)) else None;
        AnswerFrame(i, f, {MscReceived, MscReplied}, Msc(false, f.dlci - f.dlci % 8 + 3, f.signals, breaks));
      } else {
        NoAnswer(Abs(), f);
        HearFrame(i, f, {MscAnswered});
      }
    }

    /** controlParamNegotiation: adds the channel when it is new. */
    method ControlParamNegotiation(f: Frame)
      requires Valid() && f.Pn?
      modifies this`packets, this`trace, channel
      ensures Valid() && Abs() == Absorb(AddIfMissing(old(Abs()), f.dlci / 2), f)
    {
      var n := f.dlci / 2;
      var i := EnsureChannel(n);
      if i == channel.Length || n == 0 { return; }
      if f.command {
        AnswerFrame(i, f, {PnReceived, PnReplied}, Pn(false, f.dlci, f.params.(flow := 0)));
      } else {
        NoAnswer(Abs(), f);
        HearFrame(i, f, {PnAnswered});
      }
    }

    /** controlRemotePortNegotiation. */
    method ControlRemotePortNegotiation(f: Frame)
      requires Valid() && f.Rpn? && |f.rest| == 7
      modifies this`packets, this`trace, channel
      ensures Valid() && Abs() == Absorb(old(Abs()), f)
    {
      var i := FindChannel(f.dlci / 8);
      if i == channel.Length { return; }
      if f.command {
        AnswerFrame(i, f, {RpnReceived, RpnReplied}, Rpn(false, f.dlci, f.rest));
      } else {
        NoAnswer(Abs(), f);
        HearFrame(i, f, {RpnAnswered});
      }
    }

    /** Set the bits of a received command and send the answer to it. */
    method AnswerFrame(i: nat, f: Frame, bits: set<Bit>, reply: Frame)
      requires Valid() && i < channel.Length && i == Find(channel[..], Target(f)) && bits == Heard(f)
      requires Reply(f) == Some(reply) && Effective(Abs(), f) && |Payload(reply)| < 128
      modifies this`packets, this`trace, channel
      ensures Valid() && Abs() == Absorb(old(Abs()), f)
    {
      var isResponse := Incoming in channel[i].bits;
      AnswerIs(Abs(), f, reply);
      HearFrame(i, f, bits);
      SendPacket(Target(f), reply, reply.Ua? || !isResponse);
    }

    /** findChannel, then addChannel when there is none. */
    method EnsureChannel(n: nat) returns (i: nat)
      requires Valid()
      modifies this`trace, channel
      ensures Valid() && Abs() == AddIfMissing(old(Abs()), n) && i == Find(channel[..], n)
    {
      i := FindChannel(n);
      if i == channel.Length {
        i := AddChannel(n);
        i := FindChannel(n);
      }
    }

    /** Set the bits a frame raises on its channel, and the parameters a PN command carries. */
    method HearFrame(i: nat, f: Frame, bits: set<Bit>)
      requires Valid() && i < channel.Length && i == Find(channel[..], Target(f)) && bits == Heard(f)
      modifies this`trace, channel
      ensures Valid() && Abs() == Hear(old(Abs()), f)
    {
      HearIs(Abs(), f);
      var c := channel[i].(bits := channel[i].bits + bits);
      if f.Pn? && f.command {
        c := c.(priority := f.params.priority, mtu := f.params.mtu);
      }
      assert c == HeardSlot(channel[i], f);
      StoreSlot(i, c);
      WireSnoc(handle, remoteCid, trace, Got(f));
      trace := trace + [Got(f)];
    }

    method StoreSlot(i: nat, c: Slot)
      requires Valid() && i < channel.Length
      modifies channel
      ensures Valid() && channel[..] == old(channel[..])[i := c]
    {
      channel[i] := c;
    }

    /** The frame-type switch of rfEventHandler. */
    method DispatchFrame(i: nat, f: Frame)
      requires Valid() && i < channel.Length && i == Find(channel[..], Carrier(f)) && (f.Rpn? ==> |f.rest| == 7)
      modifies this`packets, this`trace, channel
      ensures Valid() && Abs() == Dispatch(old(Abs()), f)
    {
      NoAnswer(Abs(), f);
      match f {
        case Sabm(n) => AnswerFrame(i, f, {SabmDone, UaDone}, Ua(n));
        case Ua(_) => HearFrame(i, f, {UaDone});
        case Data(_, _) => HearFrame(i, f, {});
        case Overrun(_, _, _) => HearFrame(i, f, {});
        case Pn(_, _, _) => ControlParamNegotiation(f);
        case Msc(_, _, _, _) => ControlModemStatus(f);
        case Rpn(_, _, _) => ControlRemotePortNegotiation(f);
        case Control => HearFrame(i, f, {});
        case Other(_) => HearFrame(i, f, {});
      }
    }

    /** rfEventHandler, from the bytes of a frame. */
    method RfEventHandler(buffer: seq<byte>)
      requires Valid()
      modifies this`packets, this`trace, channel
      ensures Valid()
      ensures Abs() == match RfcommFrames.Decode(buffer) case None => old(Abs()) case Some(f) => Handle(old(Abs()), f)
    {
      var of := RfcommFrames.Decode(buffer);
      if of.None? { return; }
      var f := of.value;
      var i := EnsureChannel(Carrier(f));
      if i == channel.Length { return; }
      DispatchFrame(i, f);
      if f.Sabm? || (IsClientData(f) && hasClient) { return; }
      ProcessChannels();
    }

    /** The loop at the end of rfEventHandler. */
    method ProcessChannels()
      requires Valid()
      modifies this`packets, this`trace, channel
      ensures Valid() && Abs() == ProcessFrom(old(Abs()), 0)
    {
      var i := 0;
      while i < channel.Length
        invariant i <= channel.Length && Valid()
        invariant ProcessFrom(Abs(), i) == ProcessFrom(old(Abs()), 0)
      {
        if channel[i].Channel? {
          ProcessChannel(i);
        }
        i := i + 1;
      }
    }

    // -------------------------------------------------------------- the client and the link

    /** openRFChannel on an existing session: true when the channel was added. */
    method OpenRFChannel(n: nat) returns (ok: bool)
      requires Valid()
      modifies this`trace, channel
      ensures Valid() && Abs() == Step(old(Abs()), OpenChannel(n))
      ensures ok ==> Has(Abs(), n) && !old(Has(Abs(), n))
    {
      ok := false;
      var i := FindChannel(n);
      if i < channel.Length { return; }
      i := AddChannel(n);
      i := FindChannel(n);
      ok := i < channel.Length;
    }

    /** closeRFChannel on a nonzero channel. */
    method CloseRFChannel(i: nat)
      requires Valid() && i < channel.Length && channel[i].Channel? && channel[i].num != 0
      modifies this`trace, channel
      ensures Valid() && Abs() == Step(old(Abs()), CloseChannel(i))
    {
      WireSnoc(handle, remoteCid, trace, Removed(channel[i].num));
      trace := trace + [Removed(channel[i].num)];
      channel[i] := Free;
    }

    /** rfLayer_sendData. */
    method SendClientData(i: nat, data: seq<byte>)
      requires Valid() && i < channel.Length && channel[i].Channel? && |data| < 128
      modifies this`packets, this`trace
      ensures Valid() && Abs() == Step(old(Abs()), SendData(i, data))
    {
      if channel[i].num == 0 { return; }
      if Open !in channel[i].bits { return; }
      SendPacket(channel[i].num, Data(channel[i].num, data), true);
    }

    /** LCAP_EVENT_CONNECTED on a session that has DLC0. */
    method LinkConnected()
      requires Valid() && Has(Abs(), 0)
      modifies this`packets, this`trace, channel
      ensures Valid() && Abs() == Step(old(Abs()), LinkUp)
    {
      var i := FindChannel(0);
      ProcessChannel(i);
    }
  }

  lemma OnePacket(handle: word, cid: word, n: nat, f: Frame, command: bool)
    requires |Payload(f)| < 128
    ensures PacketsOut(handle, cid, Sent(n, f, command))
         == [Packet(WithBoundary(handle), cid, FrameBytes(Carrier(f), command, FrameType(f), Payload(f)))]
  {
  }

  lemma HeaderWord(b: seq<byte>, at: nat, w: word)
    requires at + 2 <= |b| && b[at] == w % 256 && b[at + 1] == w / 256
    ensures Word(b, at) == w
  {
  }

  lemma AddIs(s: Session, n: nat, bits: set<Bit>)
    requires FirstFree(s.slots) < |s.slots|
    requires bits == if n != 0 && s.slots[0].Channel? && Incoming in s.slots[0].bits then {Incoming} else {}
    ensures Add(s, n) == s.(slots := s.slots[FirstFree(s.slots) := Channel(n, bits, OUR_PRIORITY, OUR_MTU)],
                            trace := s.trace + [Added(n)])
  {
  }

  lemma FindUnique(slots: seq<Slot>, n: nat, i: nat)
    requires i < |slots| && IsChannel(slots[i], n)
    requires forall k | 0 <= k < i :: !IsChannel(slots[k], n)
    ensures Find(slots, n) == i
  {
  }

  function HeardSlot(c: Slot, f: Frame): (r: Slot)
    requires c.Channel?
  {
    var heard := c.(bits := c.bits + Heard(f));
    if f.Pn? && f.command then heard.(priority := f.params.priority, mtu := f.params.mtu) else heard
  }

  /** Hearing a frame changes the one slot of its target. */
  lemma HearIs(s: Session, f: Frame)
    requires Has(s, Target(f))
    ensures var i := Find(s.slots, Target(f));
            Hear(s, f) == s.(slots := s.slots[i := HeardSlot(s.slots[i], f)], trace := s.trace + [Got(f)])
  {
    var i := Find(s.slots, Target(f));
    FindUnique(Raise(s, Target(f), Heard(f)).slots, Target(f), i);
  }

  /** A frame without an answer is only heard. */
  lemma NoAnswer(s: Session, f: Frame)
    ensures Effective(s, f) && Reply(f).None? ==> Absorb(s, f) == Hear(s, f)
  {
  }

  /** A frame with an answer is heard and then answered. */
  lemma AnswerIs(s: Session, f: Frame, reply: Frame)
    requires Effective(s, f) && Reply(f) == Some(reply)
    ensures var c := s.slots[Find(s.slots, Target(f))];
            Absorb(s, f) == Record(Hear(s, f), Sent(Target(f), reply, reply.Ua? || Incoming !in c.bits))
  {
  }

  lemma OurPayload(m: Move, c: Slot)
    requires c.Channel? && FrameOf(m, c).Some?
    ensures |Payload(FrameOf(m, c).value)| <= 10
  {
  }

  /** A move that only waits changes nothing; one that does not is one bit and at most one frame. */
  lemma ProcessIs(s: Session, i: nat)
    requires i < |s.slots| && s.slots[i].Channel? && s.slots[i].num != 0 && Ready(s)
    ensures var m, c := NextMove(s.slots[i].bits), s.slots[i];
            var slots := s.slots[i := c.(bits := c.bits + RaisedBy(m))];
            Process(s, i) == match FrameOf(m, c)
                             case None => s.(slots := slots)
                             case Some(f) =>
                               var a := Sent(c.num, f, f.Sabm? || Incoming !in c.bits);
                               s.(slots := slots, trace := s.trace + [a])
    ensures NextMove(s.slots[i].bits).Wait? ==> Process(s, i) == s
  {
    var c := s.slots[i];
    assert c.bits + {} == c.bits && s.trace + [] == s.trace && s.slots[i := c] == s.slots;
  }
}
