/**
  The order of what an RFCOMM session sends, read off its trace: every command and every client data
  frame is sent only when its prerequisites are in the trace before it, and no command twice.
*/
module RfcommOrder {
  import opened Bytes
  import opened Folds
  import opened RfcommFrames
  import opened RfcommSession
  import opened RfcommSafety

  const LINK_UP: set<Bit> := {SabmDone, UaDone}

  /** The handshake of a nonzero channel, apart from SABM, which an incoming channel may skip. */
  const HANDSHAKE: set<Bit> :=
    {PnSent, PnAnswered, UaDone, MscSent, MscAnswered, MscReceived, MscReplied, RpnSent, RpnAnswered}

  /** What must be in the history of channel n, and of DLC0, before this frame is sent for it. */
  predicate Due(f: Frame, done: set<Bit>, incoming: bool)
  {
    match f
    case Pn(true, _, _) => PnSent !in done
    case Sabm(_) => {PnSent, PnAnswered} <= done && SabmDone !in done && !incoming
    case Msc(true, _, _, _) => BEFORE_MSC <= done && (SabmDone in done || incoming) && MscSent !in done
    case Rpn(true, _, _) => BEFORE_MSC + BEFORE_RPN <= done && (SabmDone in done || incoming) && RpnSent !in done
    case Data(_, _) => HANDSHAKE <= done && (SabmDone in done || incoming)
    case _ => true
  }

  predicate IsOurs(f: Frame)
  {
    f.Data? || f.Sabm? || (f.Pn? && f.command) || (f.Msc? && f.command) || (f.Rpn? && f.command)
  }

  /** An act may follow a history. */
  predicate Allowed(history: seq<Act>, a: Act, incoming: bool)
  {
    a.Sent? && IsOurs(a.frame) ==>
      if a.n == 0 then a.frame.Sabm? && SabmDone !in Deeds(history, 0) && !incoming
      else LINK_UP <= Deeds(history, 0) && Due(a.frame, Deeds(history, a.n), incoming)
  }

  predicate AllAllowed(trace: seq<Act>, incoming: bool)
    decreases |trace|
  {
    trace == [] ||
    (AllAllowed(trace[..|trace| - 1], incoming) && Allowed(trace[..|trace| - 1], trace[|trace| - 1], incoming))
  }

  lemma AllowedSnoc(trace: seq<Act>, a: Act, incoming: bool)
    ensures AllAllowed(trace + [a], incoming) <==> AllAllowed(trace, incoming) && Allowed(trace, a, incoming)
  {
    assert (trace + [a])[..|trace|] == trace;
  }

  lemma {:induction false} AllowedAt(trace: seq<Act>, incoming: bool, k: nat)
    requires AllAllowed(trace, incoming) && k < |trace|
    ensures Allowed(trace[..k], trace[k], incoming)
    decreases |trace|
  {
    var n := |trace| - 1;
    if k < n {
      AllowedAt(trace[..n], incoming, k);
      assert trace[..n][..k] == trace[..k];
    }
  }

  predicate Disciplined(s: Session) { AllAllowed(s.trace, IsIncoming(s)) }

  // ---------------------------------------------------------------- each step

  lemma SlotHistory(s: Session, i: nat)
    requires Inv(s) && i < |s.slots| && s.slots[i].Channel?
    ensures s.slots[i].bits - {Open, Incoming} == Deeds(s.trace, s.slots[i].num)
    ensures Incoming in s.slots[i].bits <==> IsIncoming(s)
    ensures Ready(s) ==> LINK_UP <= Deeds(s.trace, 0)
  {
    ReadyHere(s);
    assert SlotOk(s.slots[0], s.trace, Ready(s), IsIncoming(s));
  }

  lemma MoveDue(bits: set<Bit>, done: set<Bit>, cmds: seq<Command>, m: Move, c: Slot)
    requires ProgressOk(bits, cmds, true) && bits - {Open, Incoming} == done && c.Channel? && c.bits == bits
    requires m == NextMove(bits) && FrameOf(m, c).Some?
    ensures Due(FrameOf(m, c).value, done, Incoming in bits)
  {
  }

  lemma ProcessDisciplined(s: Session, i: nat)
    requires Inv(s) && Disciplined(s) && i < |s.slots|
    ensures Disciplined(Process(s, i))
  {
    ProcessInv(s, i);
    var c := s.slots[i];
    if c.Channel? {
      SlotHistory(s, i);
      if c.num == 0 {
        AllowedSnoc(s.trace, Sent(0, Sabm(0), true), IsIncoming(s));
      } else if Ready(s) {
        var m := NextMove(c.bits);
        if FrameOf(m, c).Some? {
          MoveDue(c.bits, Deeds(s.trace, c.num), Commands(s.trace, c.num), m, c);
          AllowedSnoc(s.trace, SentBy(m, c)[0], IsIncoming(s));
        } else {
          assert s.trace + SentBy(m, c) == s.trace;
        }
      }
    }
  }

  lemma {:induction false} ProcessFromDisciplined(s: Session, i: nat)
    requires Inv(s) && Disciplined(s)
    ensures Disciplined(ProcessFrom(s, i))
    decreases |s.slots| - i
  {
    if i < |s.slots| {
      ProcessDisciplined(s, i);
      ProcessInv(s, i);
      ProcessFromDisciplined(Process(s, i), i + 1);
    }
  }

  lemma AddDisciplined(s: Session, n: nat)
    requires Inv(s) && Disciplined(s)
    ensures Disciplined(AddIfMissing(s, n))
  {
    AddIfMissingInv(s, n);
    AllowedSnoc(s.trace, Added(n), IsIncoming(s));
  }

  lemma ReplyNotOurs(f: Frame)
    requires Reply(f).Some?
    ensures !IsOurs(Reply(f).value)
  {
  }

  lemma AbsorbDisciplined(s: Session, f: Frame)
    requires Inv(s) && Disciplined(s)
    ensures Disciplined(Absorb(s, f))
  {
    AbsorbInv(s, f);
    if Effective(s, f) {
      RaiseSlot(s, f);
      AllowedSnoc(s.trace, Got(f), IsIncoming(s));
      if Reply(f).Some? {
        ReplyNotOurs(f);
        AllowedSnoc(s.trace + [Got(f)], Absorb(s, f).trace[|s.trace| + 1], IsIncoming(s));
      }
    }
  }

  lemma HandleDisciplined(s: Session, f: Frame)
    requires Inv(s) && Disciplined(s)
    ensures Disciplined(Handle(s, f))
  {
    AddDisciplined(s, Carrier(f));
    AddIfMissingInv(s, Carrier(f));
    var s1 := AddIfMissing(s, Carrier(f));
    if Has(s1, Carrier(f)) {
      AddDisciplined(s1, Target(f));
      AddIfMissingInv(s1, Target(f));
      var s1' := if f.Pn? then AddIfMissing(s1, Target(f)) else s1;
      AbsorbDisciplined(s1', f);
      AbsorbInv(s1', f);
      ProcessFromDisciplined(Absorb(s1', f), 0);
    }
  }

  lemma StepDisciplined(s: Session, e: Event)
    requires Inv(s) && Disciplined(s)
    ensures Disciplined(Step(s, e))
  {
    StepInv(s, e);
    match e {
      case LinkUp =>
        FindExact(s.slots, 0, 0);
        ProcessDisciplined(s, 0);
      case Receive(f) => HandleDisciplined(s, f);
      case OpenChannel(n) => AddDisciplined(s, n);
      case CloseChannel(i) =>
        if i < |s.slots| && s.slots[i].Channel? {
          AllowedSnoc(s.trace, Removed(s.slots[i].num), IsIncoming(s));
        }
      case SendData(i, payload) => SendDisciplined(s, i, payload);
    }
  }

  /** What OPEN stands for. */
  lemma OpenMeans(bits: set<Bit>, done: set<Bit>, cmds: seq<Command>, ready: bool)
    requires ProgressOk(bits, cmds, ready) && bits - {Open, Incoming} == done && Open in bits
    ensures HANDSHAKE <= done && (SabmDone in done || Incoming in bits) && ready
  {
  }

  lemma OpenHistory(s: Session, i: nat)
    requires Inv(s) && i < |s.slots| && s.slots[i].Channel? && s.slots[i].num != 0 && Open in s.slots[i].bits
    ensures var done := Deeds(s.trace, s.slots[i].num);
            HANDSHAKE <= done && (SabmDone in done || IsIncoming(s)) && LINK_UP <= Deeds(s.trace, 0)
  {
    SlotHistory(s, i);
    OpenMeans(s.slots[i].bits, Deeds(s.trace, s.slots[i].num), Commands(s.trace, s.slots[i].num), Ready(s));
  }

  lemma SendDisciplined(s: Session, i: nat, payload: seq<byte>)
    requires Inv(s) && Disciplined(s)
    ensures Disciplined(Step(s, SendData(i, payload)))
  {
  }

  // ---------------------------------------------------------------- every run

  /** The sessions that exist: opened by the client for a nonzero channel, or by a peer. */
  ghost predicate IsStart(s: Session)
  {
    (exists n: nat :: n != 0 && s == NewOutgoing(n, s.client)) || s == NewIncoming(s.client)
  }

  lemma FirstSlot(client: bool)
    ensures var s := Add(Session(EMPTY_TABLE, [], client), 0);
            s.trace == [Added(0)] && s.slots == [Channel(0, {}, OUR_PRIORITY, OUR_MTU), Free, Free, Free, Free]
  {
    assert FirstFree(EMPTY_TABLE) == 0;
    assert [] + [Added(0)] == [Added(0)];
  }

  lemma BareInv(s: Session, bits: set<Bit>)
    requires s.trace == [Added(0)] && bits <= {Incoming}
    requires s.slots == [Channel(0, bits, OUR_PRIORITY, OUR_MTU), Free, Free, Free, Free]
    ensures Inv(s) && Disciplined(s)
  {
    DeedsSnoc([], Added(0), 0);
    AllowedSnoc([], Added(0), IsIncoming(s));
    assert [] + [Added(0)] == [Added(0)];
    ReadyHere(s);
    assert SlotOk(s.slots[0], s.trace, Ready(s), IsIncoming(s));
  }

  lemma OutgoingInv(n: nat, client: bool)
    requires n != 0
    ensures Inv(NewOutgoing(n, client)) && Disciplined(NewOutgoing(n, client))
  {
    var s0 := Add(Session(EMPTY_TABLE, [], client), 0);
    FirstSlot(client);
    BareInv(s0, {});
    assert !Has(s0, n);
    AddInv(s0, n);
    AddDisciplined(s0, n);
  }

  lemma IncomingInv(client: bool)
    ensures Inv(NewIncoming(client)) && Disciplined(NewIncoming(client))
  {
    var s0 := Add(Session(EMPTY_TABLE, [], client), 0);
    FirstSlot(client);
    BareInv(s0, {});
    FindExact(s0.slots, 0, 0);
    assert {} + {Incoming} == {Incoming};
    var s := s0.(slots := s0.slots[0 := s0.slots[0].(bits := {Incoming})]);
    assert s == NewIncoming(client);
    BareInv(s, {Incoming});
  }

  lemma StartInv(s: Session)
    requires IsStart(s)
    ensures Inv(s) && Disciplined(s)
  {
    if n: nat :| n != 0 && s == NewOutgoing(n, s.client) {
      OutgoingInv(n, s.client);
    } else {
      IncomingInv(s.client);
    }
  }

  lemma {:induction false} RunInv(s: Session, events: seq<Event>)
    requires Inv(s) && Disciplined(s)
    ensures var t := Run(Step, s, events);
            Inv(t) && Disciplined(t) && IsIncoming(t) == IsIncoming(s)
    decreases |events|
  {
    if events != [] {
      var n := |events| - 1;
      RunInv(s, events[..n]);
      StepInv(Run(Step, s, events[..n]), events[n]);
      StepDisciplined(Run(Step, s, events[..n]), events[n]);
    }
  }

  /**
    In every state of every run: slot 0 is DLC0, channel numbers are distinct, and findChannel returns
    the one slot with a number, or the end of the table when there is none.
  */
  lemma TableTheorem(start: Session, events: seq<Event>, n: nat)
    requires IsStart(start)
    ensures var s := Run(Step, start, events);
            && TableOk(s.slots)
            && (forall i | 0 <= i < |s.slots| :: IsChannel(s.slots[i], n) <==> i == Find(s.slots, n))
  {
    StartInv(start);
    RunInv(start, events);
    var s := Run(Step, start, events);
    forall i | 0 <= i < |s.slots| && IsChannel(s.slots[i], n) ensures i == Find(s.slots, n) {
      FindExact(s.slots, n, i);
    }
  }

  /** A nonzero channel is OPEN only after the whole handshake, since its slot was last filled. */
  lemma HandshakeSafety(start: Session, events: seq<Event>, n: nat)
    requires IsStart(start) && n != 0 && Open in BitsOf(Run(Step, start, events), n)
    ensures var s := Run(Step, start, events);
            && HANDSHAKE <= Deeds(s.trace, n) && (SabmDone in Deeds(s.trace, n) || IsIncoming(s))
            && LINK_UP <= Deeds(s.trace, 0)
  {
    StartInv(start);
    RunInv(start, events);
    var s := Run(Step, start, events);
    OpenHistory(s, Find(s.slots, n));
  }

  /** Every act of every run was due when it was done: our commands once and in order, data last of all. */
  lemma EverySendWasDue(start: Session, events: seq<Event>, k: nat)
    requires IsStart(start) && k < |Run(Step, start, events).trace|
    ensures var trace := Run(Step, start, events).trace;
            Allowed(trace[..k], trace[k], IsIncoming(start))
  {
    StartInv(start);
    RunInv(start, events);
    AllowedAt(Run(Step, start, events).trace, IsIncoming(start), k);
  }

  /** The commands of one lifetime: a prefix of PN, SABM, MSC, RPN, or of PN, MSC, RPN. */
  lemma CommandsInOrder(start: Session, events: seq<Event>, n: nat)
    requires IsStart(start) && n != 0 && Has(Run(Step, start, events), n)
    ensures var cmds := Commands(Run(Step, start, events).trace, n);
            cmds <= [PnCommand, SabmCommand, MscCommand, RpnCommand] || cmds <= [PnCommand, MscCommand, RpnCommand]
  {
    StartInv(start);
    RunInv(start, events);
    var s := Run(Step, start, events);
    var c := s.slots[Find(s.slots, n)];
    assert SlotOk(c, s.trace, Ready(s), IsIncoming(s));
    OrderedPrefix(c.bits, Commands(s.trace, n), Ready(s));
  }

  lemma OrderedPrefix(bits: set<Bit>, cmds: seq<Command>, ready: bool)
    requires ProgressOk(bits, cmds, ready)
    ensures cmds <= [PnCommand, SabmCommand, MscCommand, RpnCommand] || cmds <= [PnCommand, MscCommand, RpnCommand]
  {
    var sabm := SabmCommand in cmds;
    assert cmds == Ordered(PnSent in bits, sabm, MscSent in bits, RpnSent in bits);
  }

  /** DLC0: at most one SABM in the whole session, and none in one the peer started. */
  lemma ControlChannelSabm(start: Session, events: seq<Event>)
    requires IsStart(start)
    ensures var cmds := Commands(Run(Step, start, events).trace, 0);
            |cmds| <= 1 && (IsIncoming(start) ==> cmds == [])
  {
    StartInv(start);
    RunInv(start, events);
    var s := Run(Step, start, events);
    assert SlotOk(s.slots[0], s.trace, Ready(s), IsIncoming(s));
  }
}
