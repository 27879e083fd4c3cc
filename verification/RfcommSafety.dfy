/**
  What holds in every run of an RFCOMM session: the channel table stays well formed, the state bits of
  a channel are exactly what its history shows, our commands go out at most once and in order, and
  nothing is OPEN, and no client data is sent, before the whole handshake is in the trace.
*/
module RfcommSafety {
  import opened Bytes
  import opened RfcommFrames
  import opened RfcommSession

  // ---------------------------------------------------------------- reading a trace

  /** Our commands on behalf of a channel. */
  datatype Command = PnCommand | SabmCommand | MscCommand | RpnCommand

  function CommandIn(a: Act, n: nat): (r: seq<Command>)
  {
    if !a.Sent? || a.n != n then []
    else
      match a.frame
      case Pn(true, _, _) => [PnCommand]
      case Sabm(_) => [SabmCommand]
      case Msc(true, _, _, _) => [MscCommand]
      case Rpn(true, _, _) => [RpnCommand]
      case _ => []
  }

  function BitOf(c: Command): (r: Bit)
  {
    match c
    case PnCommand => PnSent
    case SabmCommand => SabmDone
    case MscCommand => MscSent
    case RpnCommand => RpnSent
  }

  /** The bits a received frame earns by itself: not those that stand for our answer to it. */
  function Earned(f: Frame): (bits: set<Bit>)
  {
    match f
    case Sabm(_) => {SabmDone}
    case Ua(_) => {UaDone}
    case Pn(command, _, _) => if command then {PnReceived} else {PnAnswered}
    case Msc(command, _, _, _) => if command then {MscReceived} else {MscAnswered}
    case Rpn(command, _, _) => if command then {RpnReceived} else {RpnAnswered}
    case _ => {}
  }

  /** The bits an answer of ours earns when it is sent. */
  function Replied(f: Frame): (bits: set<Bit>)
  {
    match f
    case Ua(_) => {UaDone}
    case Pn(false, _, _) => {PnReplied}
    case Msc(false, _, _, _) => {MscReplied}
    case Rpn(false, _, _) => {RpnReplied}
    case _ => {}
  }

  /** The bits an act justifies for channel n. */
  function Deed(a: Act, n: nat): (bits: set<Bit>)
  {
    if a.Got? && Target(a.frame) == n then Earned(a.frame)
    else if CommandIn(a, n) != [] then {BitOf(CommandIn(a, n)[0])}
    else if a.Sent? && a.n == n then Replied(a.frame)
    else {}
  }

  /** The bits justified since channel n was last added: one lifetime of its slot. */
  function Deeds(trace: seq<Act>, n: nat): (r: set<Bit>)
    decreases |trace|
  {
    if trace == [] then {}
    else
      var front, last := trace[..|trace| - 1], trace[|trace| - 1];
      if last == Added(n) then {} else Deeds(front, n) + Deed(last, n)
  }

  /** The commands we sent for channel n since it was last added. */
  function Commands(trace: seq<Act>, n: nat): (r: seq<Command>)
    decreases |trace|
  {
    if trace == [] then []
    else
      var front, last := trace[..|trace| - 1], trace[|trace| - 1];
      if last == Added(n) then [] else Commands(front, n) + CommandIn(last, n)
  }

  lemma DeedsSnoc(trace: seq<Act>, a: Act, n: nat)
    ensures Deeds(trace + [a], n) == if a == Added(n) then {} else Deeds(trace, n) + Deed(a, n)
    ensures Commands(trace + [a], n) == if a == Added(n) then [] else Commands(trace, n) + CommandIn(a, n)
  {
    assert (trace + [a])[..|trace|] == trace;
  }

  /** A deed goes back to an act after the last Added(n). */
  lemma {:induction false} DeedWitness(trace: seq<Act>, n: nat, b: Bit) returns (k: nat)
    requires b in Deeds(trace, n)
    ensures k < |trace| && b in Deed(trace[k], n)
    ensures forall j | k <= j < |trace| :: trace[j] != Added(n)
    decreases |trace|
  {
    var last := |trace| - 1;
    if b in Deed(trace[last], n) {
      k := last;
    } else {
      k := DeedWitness(trace[..last], n, b);
    }
  }

  // ---------------------------------------------------------------- the invariant

  /** Slot 0 is DLC0 and live channels have distinct numbers. */
  predicate TableOk(slots: seq<Slot>)
  {
    && |slots| == MAX_CHANNELS && IsChannel(slots[0], 0)
    && forall i, j | 0 <= i < j < |slots| && slots[i].Channel? && slots[j].Channel? :: slots[i].num != slots[j].num
  }

  function Ordered(pn: bool, sabm: bool, msc: bool, rpn: bool): (r: seq<Command>)
  {
    (if pn then [PnCommand] else []) + (if sabm then [SabmCommand] else [])
    + (if msc then [MscCommand] else []) + (if rpn then [RpnCommand] else [])
  }

  const BEFORE_MSC: set<Bit> := {PnSent, PnAnswered, UaDone}
  const BEFORE_RPN: set<Bit> := {MscSent, MscAnswered, MscReceived, MscReplied}
  const BEFORE_OPEN: set<Bit> := {RpnSent, RpnAnswered}

  /** A nonzero channel: the bits, the commands sent in this lifetime, and whether DLC0 is up. */
  predicate ProgressOk(bits: set<Bit>, cmds: seq<Command>, ready: bool)
  {
    && cmds == Ordered(PnSent in bits, SabmCommand in cmds, MscSent in bits, RpnSent in bits)
    && (SabmCommand in cmds ==> {PnSent, PnAnswered, SabmDone} <= bits && Incoming !in bits)
    && (MscSent in bits ==> BEFORE_MSC <= bits && (SabmDone in bits || Incoming in bits))
    && (RpnSent in bits ==> BEFORE_RPN <= bits)
    && (Open in bits ==> BEFORE_OPEN <= bits)
    && (PnSent in bits ==> ready)
  }

  /** DLC0: at most one SABM, none when incoming, and nothing else of ours. */
  predicate ControlOk(bits: set<Bit>, cmds: seq<Command>)
  {
    && (cmds == [] || cmds == [SabmCommand])
    && (cmds != [] ==> SabmDone in bits && Incoming !in bits)
    && {Open, PnSent, MscSent, RpnSent} !! bits
  }

  predicate SlotOk(c: Slot, trace: seq<Act>, ready: bool, incoming: bool)
  {
    c.Channel? ==>
      && c.bits - {Open, Incoming} == Deeds(trace, c.num)
      && (Incoming in c.bits <==> incoming)
      && (if c.num == 0 then ControlOk(c.bits, Commands(trace, 0))
           else ProgressOk(c.bits, Commands(trace, c.num), ready))
  }

  predicate IsIncoming(s: Session) { s.slots != [] && s.slots[0].Channel? && Incoming in s.slots[0].bits }

  predicate Inv(s: Session)
  {
    && TableOk(s.slots)
    && forall i | 0 <= i < |s.slots| :: SlotOk(s.slots[i], s.trace, Ready(s), IsIncoming(s))
  }

  // ---------------------------------------------------------------- table lemmas

  /** findChannel returns the unique channel with the number, or none. */
  lemma FindExact(slots: seq<Slot>, n: nat, i: nat)
    requires TableOk(slots) && i < |slots| && IsChannel(slots[i], n)
    ensures Find(slots, n) == i
  {
  }

  lemma ReadyHere(s: Session)
    requires TableOk(s.slots)
    ensures Ready(s) <==> {SabmDone, UaDone} <= s.slots[0].bits
  {
    FindExact(s.slots, 0, 0);
  }

  // ---------------------------------------------------------------- one slot changes

  /** The act concerns channel n and no other. */
  predicate AboutOnly(a: Act, n: nat)
  {
    (a.Got? && Target(a.frame) == n) || (a.Sent? && a.n == n) || a.Removed?
  }

  lemma OtherUntouched(trace: seq<Act>, a: Act, n: nat, m: nat)
    requires AboutOnly(a, n) && m != n
    ensures Deeds(trace + [a], m) == Deeds(trace, m) && Commands(trace + [a], m) == Commands(trace, m)
  {
    DeedsSnoc(trace, a, m);
    assert Deed(a, m) == {} && CommandIn(a, m) == [];
  }

  lemma OthersUntouched(trace: seq<Act>, acts: seq<Act>, n: nat, m: nat)
    requires m != n && 1 <= |acts| <= 2 && forall a | a in acts :: AboutOnly(a, n)
    ensures Deeds(trace + acts, m) == Deeds(trace, m) && Commands(trace + acts, m) == Commands(trace, m)
  {
    var a := acts[0];
    OtherUntouched(trace, a, n, m);
    if |acts| == 1 {
      assert acts == [a];
    } else {
      var b := acts[1];
      OtherUntouched(trace + [a], b, n, m);
      assert trace + acts == (trace + [a]) + [b];
    }
  }

  /** Changing one channel and recording acts about it keeps the other slots' invariants. */
  lemma Touch(s: Session, i: nat, c: Slot, acts: seq<Act>, t: Session)
    requires Inv(s) && i < |s.slots| && s.slots[i].Channel? && c.Channel? && c.num == s.slots[i].num
    requires t == s.(slots := s.slots[i := c], trace := s.trace + acts)
    requires 1 <= |acts| <= 2 && forall a | a in acts :: AboutOnly(a, c.num)
    requires s.slots[i].bits <= c.bits && (Incoming in c.bits <==> Incoming in s.slots[i].bits)
    requires SlotOk(c, t.trace, Ready(t), IsIncoming(s))
    ensures Inv(t) && IsIncoming(t) == IsIncoming(s) && (Ready(s) ==> Ready(t))
  {
    ReadyHere(s);
    ReadyHere(t);
    forall k | 0 <= k < |t.slots| ensures SlotOk(t.slots[k], t.trace, Ready(t), IsIncoming(t)) {
      if k != i && t.slots[k].Channel? {
        OthersUntouched(s.trace, acts, c.num, t.slots[k].num);
      }
    }
  }

  // ---------------------------------------------------------------- processChannel

  function CommandOf(m: Move): (r: seq<Command>)
  {
    match m
    case SendPn => [PnCommand]
    case SendSabm => [SabmCommand]
    case SendMsc => [MscCommand]
    case SendRpn => [RpnCommand]
    case _ => []
  }

  lemma MoveKeepsProgress(bits: set<Bit>, cmds: seq<Command>)
    requires ProgressOk(bits, cmds, true)
    ensures ProgressOk(bits + RaisedBy(NextMove(bits)), cmds + CommandOf(NextMove(bits)), true)
  {
    var sabm := SabmCommand in cmds;
    assert !sabm ==> cmds == Ordered(PnSent in bits, false, MscSent in bits, RpnSent in bits);
  }

  lemma SendSabm0Inv(s: Session, i: nat)
    requires Inv(s) && i < |s.slots| && IsChannel(s.slots[i], 0) && {Incoming, SabmDone} !! s.slots[i].bits
    ensures var t := Process(s, i);
            Inv(t) && IsIncoming(t) == IsIncoming(s) && (Ready(s) ==> Ready(t))
  {
    var c, a := s.slots[i], Sent(0, Sabm(0), true);
    DeedsSnoc(s.trace, a, 0);
    assert Deed(a, 0) == {SabmDone};
    Touch(s, i, c.(bits := c.bits + {SabmDone}), [a], Process(s, i));
  }

  /** A move's act is a command of its channel and earns the move's bit. */
  lemma MoveActs(m: Move, c: Slot, a: Act)
    requires c.Channel? && c.num != 0 && SentBy(m, c) == [a]
    ensures CommandIn(a, c.num) == CommandOf(m) && Deed(a, c.num) == RaisedBy(m) && AboutOnly(a, c.num)
  {
  }

  lemma RaisedApart(m: Move)
    requires m != DeclareOpen
    ensures RaisedBy(m) !! {Open, Incoming}
  {
  }

  lemma MoveSlotOk(c: Slot, trace: seq<Act>, incoming: bool, m: Move, a: Act)
    requires SlotOk(c, trace, true, incoming) && c.Channel? && c.num != 0
    requires m == NextMove(c.bits) && SentBy(m, c) == [a]
    ensures SlotOk(c.(bits := c.bits + RaisedBy(m)), trace + [a], true, incoming) && AboutOnly(a, c.num)
  {
    MoveKeepsProgress(c.bits, Commands(trace, c.num));
    DeedsSnoc(trace, a, c.num);
    MoveActs(m, c, a);
    RaisedApart(m);
    BitsGrow(c.bits, RaisedBy(m), Deeds(trace, c.num));
  }

  lemma SendMoveInv(s: Session, i: nat, m: Move, a: Act)
    requires Inv(s) && i < |s.slots| && s.slots[i].Channel? && s.slots[i].num != 0 && Ready(s)
    requires m == NextMove(s.slots[i].bits) && SentBy(m, s.slots[i]) == [a]
    ensures var c := s.slots[i];
            var t := s.(slots := s.slots[i := c.(bits := c.bits + RaisedBy(m))], trace := s.trace + [a]);
            Inv(t) && IsIncoming(t) == IsIncoming(s) && Ready(t)
  {
    var c := s.slots[i];
    var c' := c.(bits := c.bits + RaisedBy(m));
    var t := s.(slots := s.slots[i := c'], trace := s.trace + [a]);
    MoveSlotOk(c, s.trace, IsIncoming(s), m, a);
    ReadyHere(s);
    ReadyHere(t);
    Touch(s, i, c', [a], t);
  }

  lemma ProcessInv(s: Session, i: nat)
    requires Inv(s) && i < |s.slots|
    ensures var t := Process(s, i);
            Inv(t) && IsIncoming(t) == IsIncoming(s) && (Ready(s) ==> Ready(t))
  {
    var c, t := s.slots[i], Process(s, i);
    if c.Channel? && c.num == 0 {
      if Incoming !in c.bits && SabmDone !in c.bits { SendSabm0Inv(s, i); }
    } else if c.Channel? && Ready(s) {
      var m := NextMove(c.bits);
      match m {
        case Wait =>
          assert c.bits + RaisedBy(m) == c.bits;
          assert t.slots == s.slots && t.trace == s.trace;
        case DeclareOpen =>
          MoveKeepsProgress(c.bits, Commands(s.trace, c.num));
          assert t.trace == s.trace;
          OpenKeepsInv(s, i);
        case _ => SendMoveInv(s, i, m, SentBy(m, c)[0]);
      }
    }
  }

  lemma OpenKeepsInv(s: Session, i: nat)
    requires Inv(s) && i < |s.slots| && s.slots[i].Channel? && s.slots[i].num != 0
    requires ProgressOk(s.slots[i].bits + {Open}, Commands(s.trace, s.slots[i].num), Ready(s))
    ensures var t := s.(slots := s.slots[i := s.slots[i].(bits := s.slots[i].bits + {Open})]);
            Inv(t) && IsIncoming(t) == IsIncoming(s) && (Ready(s) ==> Ready(t))
  {
    var t := s.(slots := s.slots[i := s.slots[i].(bits := s.slots[i].bits + {Open})]);
    ReadyHere(s);
    ReadyHere(t);
  }

  lemma {:induction false} ProcessFromInv(s: Session, i: nat)
    requires Inv(s)
    ensures var t := ProcessFrom(s, i);
            Inv(t) && IsIncoming(t) == IsIncoming(s) && (Ready(s) ==> Ready(t))
    decreases |s.slots| - i
  {
    if i < |s.slots| {
      ProcessInv(s, i);
      ProcessFromInv(Process(s, i), i + 1);
    }
  }

  // ---------------------------------------------------------------- rfEventHandler

  lemma Kept(c: Slot, trace: seq<Act>, a: Act, ready: bool, ready': bool, incoming: bool)
    requires SlotOk(c, trace, ready, incoming) && (ready ==> ready')
    requires c.Channel? ==> a.Removed? || (a.Added? && a.n != c.num)
    ensures SlotOk(c, trace + [a], ready', incoming)
  {
  }

  lemma FreshOk(n: nat, trace: seq<Act>, bits: set<Bit>, ready: bool, incoming: bool)
    requires n != 0 && bits == if incoming then {Incoming} else {}
    ensures SlotOk(Channel(n, bits, OUR_PRIORITY, OUR_MTU), trace + [Added(n)], ready, incoming)
  {
    DeedsSnoc(trace, Added(n), n);
  }

  lemma AddInv(s: Session, n: nat)
    requires Inv(s) && !Has(s, n)
    ensures var t := Add(s, n);
            Inv(t) && IsIncoming(t) == IsIncoming(s) && (Ready(s) ==> Ready(t))
  {
    var i, t := FirstFree(s.slots), Add(s, n);
    FindExact(s.slots, 0, 0);
    if i < |s.slots| {
      assert TableOk(t.slots);
      ReadyHere(s);
      ReadyHere(t);
      FreshOk(n, s.trace, t.slots[i].bits, Ready(t), IsIncoming(s));
      forall k | 0 <= k < |t.slots| ensures SlotOk(t.slots[k], t.trace, Ready(t), IsIncoming(t)) {
        if k != i {
          Kept(s.slots[k], s.trace, Added(n), Ready(s), Ready(t), IsIncoming(s));
        }
      }
    }
  }

  lemma AddIfMissingInv(s: Session, n: nat)
    requires Inv(s)
    ensures var t := AddIfMissing(s, n);
            Inv(t) && IsIncoming(t) == IsIncoming(s) && (Ready(s) ==> Ready(t))
  {
    if !Has(s, n) {
      AddInv(s, n);
    }
  }

  /** Recording a frame that is neither command nor answer changes nothing. */
  lemma NoteInv(s: Session, i: nat, f: Frame, command: bool)
    requires Inv(s) && i < |s.slots| && s.slots[i].Channel?
    requires Deed(Sent(s.slots[i].num, f, command), s.slots[i].num) == {}
    ensures var t := Record(s, Sent(s.slots[i].num, f, command));
            Inv(t) && IsIncoming(t) == IsIncoming(s) && (Ready(s) ==> Ready(t))
  {
    var n := s.slots[i].num;
    var a := Sent(n, f, command);
    var t := Record(s, a);
    DeedsSnoc(s.trace, a, n);
    assert Commands(s.trace, n) + [] == Commands(s.trace, n);
    assert t.slots == s.slots[i := s.slots[i]];
    ReadyHere(s);
    ReadyHere(t);
    Touch(s, i, s.slots[i], [a], t);
  }

  /** What a frame leaves in the trace: that it came, and our answer to it. */
  function Acts(f: Frame, command: bool): (acts: seq<Act>)
  {
    match Reply(f)
    case None => [Got(f)]
    case Some(reply) => [Got(f), Sent(Target(f), reply, command)]
  }

  /** Whether our answer carries the outer command bit. */
  function AnswersAsCommand(s: Session, f: Frame): (command: bool)
    requires Reply(f).Some?
  {
    Reply(f).value.Ua? || Incoming !in BitsOf(s, Target(f))
  }

  function ActsOf(s: Session, f: Frame): (acts: seq<Act>)
  {
    Acts(f, Reply(f).Some? && AnswersAsCommand(s, f))
  }

  /** A frame that is heard changes its slot and leaves its acts in the trace. */
  lemma AbsorbIs(s: Session, f: Frame)
    requires TableOk(s.slots) && Effective(s, f)
    ensures var t := Absorb(s, f);
            var i := Find(s.slots, Target(f));
            && |t.slots| == |s.slots| && IsChannel(t.slots[i], Target(f))
            && t.slots[i].bits == s.slots[i].bits + Heard(f)
            && t == s.(slots := s.slots[i := t.slots[i]], trace := s.trace + ActsOf(s, f))
  {
    RaiseSlot(s, f);
    if Reply(f).Some? {
      var answer := Sent(Target(f), Reply(f).value, AnswersAsCommand(s, f));
      assert s.trace + [Got(f)] + [answer] == s.trace + [Got(f), answer];
    }
  }

  /** Raising bits and setting parameters changes one slot. */
  lemma RaiseSlot(s: Session, f: Frame)
    requires TableOk(s.slots) && Effective(s, f)
    ensures var t := Hear(s, f);
            var i := Find(s.slots, Target(f));
            && |t.slots| == |s.slots| && IsChannel(t.slots[i], Target(f))
            && t.slots[i].bits == s.slots[i].bits + Heard(f)
            && t == s.(slots := s.slots[i := t.slots[i]], trace := s.trace + [Got(f)])
  {
  }

  lemma HeardForeign(f: Frame)
    ensures Heard(f) !! {PnSent, MscSent, RpnSent, Open, Incoming}
  {
  }

  /** The bits a frame raises are those it earns and those its answer earns. */
  lemma HeardIsEarned(f: Frame)
    ensures Heard(f) == Earned(f) + if Reply(f).Some? then Replied(Reply(f).value) else {}
  {
  }

  /** The acts of a frame justify exactly the bits it raises, and are no commands of ours. */
  lemma ActsJustify(trace: seq<Act>, f: Frame, command: bool)
    ensures Deeds(trace + Acts(f, command), Target(f)) == Deeds(trace, Target(f)) + Heard(f)
    ensures Commands(trace + Acts(f, command), Target(f)) == Commands(trace, Target(f))
  {
    var n := Target(f);
    HeardIsEarned(f);
    DeedsSnoc(trace, Got(f), n);
    if Reply(f).Some? {
      var answer := Sent(n, Reply(f).value, command);
      DeedsSnoc(trace + [Got(f)], answer, n);
      assert trace + [Got(f)] + [answer] == trace + Acts(f, command);
      assert CommandIn(answer, n) == [];
    }
  }

  lemma BitsGrow(bits: set<Bit>, heard: set<Bit>, deeds: set<Bit>)
    requires bits - {Open, Incoming} == deeds && heard !! {Open, Incoming}
    ensures (bits + heard) - {Open, Incoming} == deeds + heard
  {
  }

  lemma HeardKeepsProgress(bits: set<Bit>, cmds: seq<Command>, ready: bool, ready': bool, heard: set<Bit>)
    requires heard !! {PnSent, MscSent, RpnSent, Open, Incoming} && (ready ==> ready')
    ensures ProgressOk(bits, cmds, ready) ==> ProgressOk(bits + heard, cmds, ready')
    ensures ControlOk(bits, cmds) ==> ControlOk(bits + heard, cmds)
  {
  }

  lemma HeardSlotOk(c: Slot, c': Slot, trace: seq<Act>, ready: bool, ready': bool, incoming: bool, f: Frame,
      command: bool)
    requires SlotOk(c, trace, ready, incoming) && (ready ==> ready') && IsChannel(c, Target(f))
             && IsChannel(c', Target(f))
    requires c'.bits == c.bits + Heard(f)
    ensures SlotOk(c', trace + Acts(f, command), ready', incoming)
  {
    var n, heard := Target(f), Heard(f);
    HeardForeign(f);
    ActsJustify(trace, f, command);
    BitsGrow(c.bits, heard, Deeds(trace, n));
    HeardKeepsProgress(c.bits, Commands(trace, n), ready, ready', heard);
  }

  lemma ActsAbout(f: Frame, command: bool)
    ensures forall a | a in Acts(f, command) :: AboutOnly(a, Target(f))
  {
  }

  lemma HeardAt(s: Session, i: nat, c: Slot, f: Frame, command: bool, t: Session)
    requires Inv(s) && i < |s.slots| && IsChannel(s.slots[i], Target(f)) && IsChannel(c, Target(f))
    requires c.bits == s.slots[i].bits + Heard(f)
    requires t == s.(slots := s.slots[i := c], trace := s.trace + Acts(f, command))
    ensures Inv(t) && IsIncoming(t) == IsIncoming(s) && (Ready(s) ==> Ready(t))
  {
    assert TableOk(t.slots);
    ReadyHere(s);
    ReadyHere(t);
    HeardForeign(f);
    ActsAbout(f, command);
    HeardSlotOk(s.slots[i], c, s.trace, Ready(s), Ready(t), IsIncoming(s), f, command);
    Touch(s, i, c, Acts(f, command), t);
  }

  lemma AbsorbInv(s: Session, f: Frame)
    requires Inv(s)
    ensures var t := Absorb(s, f);
            Inv(t) && IsIncoming(t) == IsIncoming(s) && (Ready(s) ==> Ready(t))
  {
    if Effective(s, f) {
      var i, t := Find(s.slots, Target(f)), Absorb(s, f);
      AbsorbIs(s, f);
      HeardAt(s, i, t.slots[i], f, Reply(f).Some? && AnswersAsCommand(s, f), t);
    }
  }

  lemma HandleInv(s: Session, f: Frame)
    requires Inv(s)
    ensures Inv(Handle(s, f)) && IsIncoming(Handle(s, f)) == IsIncoming(s)
  {
    AddIfMissingInv(s, Carrier(f));
    var s1 := AddIfMissing(s, Carrier(f));
    if Has(s1, Carrier(f)) {
      AddIfMissingInv(s1, Target(f));
      var s1' := if f.Pn? then AddIfMissing(s1, Target(f)) else s1;
      AbsorbInv(s1', f);
      ProcessFromInv(Absorb(s1', f), 0);
    }
  }

  lemma StepInv(s: Session, e: Event)
    requires Inv(s)
    ensures Inv(Step(s, e)) && IsIncoming(Step(s, e)) == IsIncoming(s)
  {
    match e {
      case LinkUp =>
        FindExact(s.slots, 0, 0);
        ProcessInv(s, 0);
      case Receive(f) => HandleInv(s, f);
      case OpenChannel(n) => AddIfMissingInv(s, n);
      case CloseChannel(i) => CloseInv(s, i);
      case SendData(i, payload) => SendInv(s, i, payload);
    }
  }

  lemma CloseInv(s: Session, i: nat)
    requires Inv(s)
    ensures Inv(Step(s, CloseChannel(i))) && IsIncoming(Step(s, CloseChannel(i))) == IsIncoming(s)
  {
    var t := Step(s, CloseChannel(i));
    if i < |s.slots| && s.slots[i].Channel? && s.slots[i].num != 0 {
      assert TableOk(t.slots);
      ReadyHere(s);
      ReadyHere(t);
      forall k | 0 <= k < |t.slots| ensures SlotOk(t.slots[k], t.trace, Ready(t), IsIncoming(t)) {
        if k != i {
          Kept(s.slots[k], s.trace, Removed(s.slots[i].num), Ready(s), Ready(t), IsIncoming(s));
        }
      }
    }
  }

  lemma SendInv(s: Session, i: nat, payload: seq<byte>)
    requires Inv(s)
    ensures Inv(Step(s, SendData(i, payload))) && IsIncoming(Step(s, SendData(i, payload))) == IsIncoming(s)
  {
    if i < |s.slots| && s.slots[i].Channel? {
      NoteInv(s, i, Data(s.slots[i].num, payload), true);
    }
  }
}
