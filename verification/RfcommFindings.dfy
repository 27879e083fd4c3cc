/**
  Consequences of the session theorems: the schedule of the source's own comment, where that comment
  and the code part ways, and what channel numbers do on the wire.
*/
module RfcommFindings {
  import opened Bytes
  import opened Folds
  import opened RfcommFrames
  import opened RfcommSession
  import opened RfcommSafety
  import opened RfcommOrder
  import opened RfcommProgress
  import opened RfcommTable

  // ---------------------------------------------------------------- the outgoing schedule

  /** The peer's side of the outgoing handshake, its own MSC command coming at place p. */
  function PeerSchedule(n: nat, p: nat, params: PnParams, signals: byte, rest: seq<byte>): (r: seq<Frame>)
    requires 1 <= n < 32 && p <= 4
  {
    var answers := [Ua(0), Pn(false, n * 2, params), Ua(n), Msc(false, n * 8 + 3, signals, None)];
    answers[..p] + [Msc(true, n * 8 + 3, signals, None)] + answers[p..] + [Rpn(false, n * 8 + 3, rest)]
  }

  lemma ScheduleKeys(n: nat, p: nat, params: PnParams, signals: byte, rest: seq<byte>, k: nat)
    requires 1 <= n < 32 && p <= 4 && k <= 5
    ensures var f := PeerSchedule(n, p, params, signals, rest)[k];
            KeyOf(f, n) == if k == 5 then RpnAnswer else if k == p then MscOffer
                           else [LinkUa, PnAnswer, ChannelUa, MscAnswer][if k < p then k else k - 1]
  {
  }

  /** Each frame of the schedule comes after those it needs, PN's answer after DLC0's UA. */
  lemma ScheduleDue(n: nat, p: nat, params: PnParams, signals: byte, rest: seq<byte>, k: nat)
    requires 1 <= n < 32 && p <= 4 && k <= 5
    ensures DueAt(PeerSchedule(n, p, params, signals, rest), k, n)
  {
    var answers := [LinkUa, PnAnswer, ChannelUa, MscAnswer];
    var keys := Keys(PeerSchedule(n, p, params, signals, rest)[..k], n);
    ScheduleKeys(n, p, params, signals, rest, k);
    SchedulePrefix(n, p, params, signals, rest, k);
    if k == 5 {
      assert answers[3] in keys && MscOffer in keys;
    } else if k != p {
      var a := if k < p then k else k - 1;
      if a > 0 {
        assert answers[a - 1] in keys;
      }
    }
  }

  predicate DueAt(frames: seq<Frame>, k: nat, n: nat)
    requires k < |frames|
  {
    var key, keys := KeyOf(frames[k], n), Keys(frames[..k], n);
    key != Foul && Needs(key) <= keys && (key == PnAnswer ==> LinkUa in keys)
  }

  /** A frame that is due, after a fair beginning, is fair. */
  lemma DueIsFair(s: Session, n: nat, client: bool, front: seq<Frame>, f: Frame)
    requires s == Linked(n, client) && n != 0 && Watched(s, front, n).fair
    requires KeyOf(f, n) != Foul && Needs(KeyOf(f, n)) <= Keys(front, n)
    requires KeyOf(f, n) == PnAnswer ==> LinkUa in Keys(front, n)
    ensures Fair(f, n, Watched(s, front, n).keys, Watched(s, front, n).turned)
  {
    LinkedFresh(n, client);
    TurnedByLinkUa(s, n, front);
    WatchedIs(s, front, n);
  }

  lemma FairNext(s: Session, n: nat, frames: seq<Frame>)
    requires frames != []
    requires var w := Watched(s, frames[..|frames| - 1], n); w.fair && Fair(frames[|frames| - 1], n, w.keys, w.turned)
    ensures Watched(s, frames, n).fair
  {
  }

  lemma {:induction false} DueFramesFair(s: Session, n: nat, client: bool, frames: seq<Frame>)
    requires s == Linked(n, client) && n != 0 && forall j | 0 <= j < |frames| :: DueAt(frames, j, n)
    ensures Watched(s, frames, n).fair
    decreases |frames|
  {
    if frames != [] {
      var front, f := frames[..|frames| - 1], frames[|frames| - 1];
      forall j | 0 <= j < |front| ensures DueAt(front, j, n) {
        assert DueAt(frames, j, n) && front[..j] == frames[..j];
      }
      DueFramesFair(s, n, client, front);
      assert DueAt(frames, |front|, n);
      DueIsFair(s, n, client, front, f);
      FairNext(s, n, frames);
    }
  }

  lemma PrefixDue(frames: seq<Frame>, n: nat, k: nat)
    requires k <= |frames| && forall j | 0 <= j < |frames| :: DueAt(frames, j, n)
    ensures forall j | 0 <= j < k :: DueAt(frames[..k], j, n)
  {
    forall j | 0 <= j < k ensures DueAt(frames[..k], j, n) {
      assert DueAt(frames, j, n) && frames[..k][..j] == frames[..j];
    }
  }

  /** The documented outgoing exchange opens the channel, wherever the peer's MSC command comes, with its last frame. */
  lemma DocumentedOutgoingOpens(n: nat, client: bool, p: nat, params: PnParams, signals: byte, rest: seq<byte>)
    requires 1 <= n < 32 && p <= 4
    ensures var frames := PeerSchedule(n, p, params, signals, rest);
            && Open in BitsOf(Run(Handle, Linked(n, client), frames), n)
            && Open !in BitsOf(Run(Handle, Linked(n, client), frames[..5]), n)
  {
    var frames := PeerSchedule(n, p, params, signals, rest);
    forall k | 0 <= k < 6 ensures DueAt(frames, k, n) {
      ScheduleDue(n, p, params, signals, rest, k);
    }
    PrefixDue(frames, n, 5);
    DueFramesFair(Linked(n, client), n, client, frames);
    DueFramesFair(Linked(n, client), n, client, frames[..5]);
    ScheduleComplete(n, p, params, signals, rest);
    HandshakeProgress(n, client, frames);
    HandshakeProgress(n, client, frames[..5]);
    NoRpnYet(n, p, params, signals, rest);
  }

  lemma ScheduleComplete(n: nat, p: nat, params: PnParams, signals: byte, rest: seq<byte>)
    requires 1 <= n < 32 && p <= 4
    ensures ALL_SIX <= Keys(PeerSchedule(n, p, params, signals, rest), n)
  {
    var frames, answers := PeerSchedule(n, p, params, signals, rest), [LinkUa, PnAnswer, ChannelUa, MscAnswer];
    SchedulePrefix(n, p, params, signals, rest, 6);
    assert frames[..6] == frames;
    assert answers[0] in Keys(frames, n) && answers[1] in Keys(frames, n);
    assert answers[2] in Keys(frames, n) && answers[3] in Keys(frames, n);
  }

  lemma SchedulePrefix(n: nat, p: nat, params: PnParams, signals: byte, rest: seq<byte>, k: nat)
    requires 1 <= n < 32 && p <= 4 && k <= 6
    ensures var keys := Keys(PeerSchedule(n, p, params, signals, rest)[..k], n);
            && (k > p ==> MscOffer in keys) && (k == 6 ==> RpnAnswer in keys)
            && (forall a | 0 <= a < 4 && (if a < p then a < k else a + 1 < k) ::
                  [LinkUa, PnAnswer, ChannelUa, MscAnswer][a] in keys)
  {
    var frames := PeerSchedule(n, p, params, signals, rest);
    forall j | 0 <= j < k ensures KeyOf(frames[j], n) in Keys(frames[..k], n) {
      assert frames[..k][j] == frames[j];
    }
    if k > p { ScheduleKeys(n, p, params, signals, rest, p); }
    if k == 6 { ScheduleKeys(n, p, params, signals, rest, 5); }
    forall a | 0 <= a < 4 && (if a < p then a < k else a + 1 < k)
      ensures [LinkUa, PnAnswer, ChannelUa, MscAnswer][a] in Keys(frames[..k], n)
    {
      ScheduleKeys(n, p, params, signals, rest, if a < p then a else a + 1);
      assert KeyOf(frames[if a < p then a else a + 1], n) in Keys(frames[..k], n);
    }
  }

  lemma NoRpnYet(n: nat, p: nat, params: PnParams, signals: byte, rest: seq<byte>)
    requires 1 <= n < 32 && p <= 4
    ensures RpnAnswer !in Keys(PeerSchedule(n, p, params, signals, rest)[..5], n)
  {
  }

  // ---------------------------------------------------------------- the incoming comment

  lemma AddActs(s: Session, n: nat, a: Act)
    requires a in AddIfMissing(s, n).trace && a !in s.trace
    ensures a.Added?
  {
  }

  lemma AbsorbActs(s: Session, f: Frame, a: Act)
    requires a in Absorb(s, f).trace && a !in s.trace
    ensures a == Got(f) || a.Sent?
  {
    assert Raise(s, Target(f), Heard(f)).trace == s.trace;
  }

  lemma HandleActs(s: Session, f: Frame, a: Act)
    requires a in Handle(s, f).trace && a !in s.trace && a.Got?
    ensures a == Got(f)
  {
    var s1 := AddIfMissing(s, Carrier(f));
    if a in s1.trace { AddActs(s, Carrier(f), a); }
    if Has(s1, Carrier(f)) {
      var s2 := if f.Pn? then AddIfMissing(s1, Target(f)) else s1;
      if a in s2.trace { AddActs(s1, Target(f), a); }
      if a in Absorb(s2, f).trace { AbsorbActs(s2, f, a); }
      ProcessFromActs(Absorb(s2, f), 0);
    }
  }

  lemma NewActs(s: Session, e: Event, f: Frame)
    requires Got(f) in Step(s, e).trace && Got(f) !in s.trace
    ensures e == Receive(f)
  {
    match e {
      case Receive(g) => HandleActs(s, g, Got(f));
      case LinkUp =>
      case OpenChannel(n) => AddActs(s, n, Got(f));
      case CloseChannel(_) =>
      case SendData(_, _) =>
    }
  }

  lemma {:induction false} ProcessFromActs(s: Session, i: nat)
    ensures forall a | a in ProcessFrom(s, i).trace && a !in s.trace :: a.Sent?
    decreases |s.slots| - i
  {
    if i < |s.slots| {
      ProcessFromActs(Process(s, i), i + 1);
    }
  }

  /** What the trace says was received was received. */
  lemma {:induction false} GotFromEvents(start: Session, events: seq<Event>, f: Frame)
    requires IsStart(start) && Got(f) in Run(Step, start, events).trace
    ensures Receive(f) in events
    decreases |events|
  {
    if events == [] {
      FirstSlot(start.client);
    } else {
      var n := |events| - 1;
      var s := Run(Step, start, events[..n]);
      if Got(f) in s.trace {
        GotFromEvents(start, events[..n], f);
      } else {
        NewActs(s, events[n], f);
      }
    }
  }

  /** An OPEN channel had its PN and RPN commands answered by frames that were received. */
  lemma OpenWasAnswered(start: Session, events: seq<Event>, n: nat) returns (pn: Frame, rpn: Frame)
    requires IsStart(start) && n != 0 && Open in BitsOf(Run(Step, start, events), n)
    ensures Receive(pn) in events && pn.Pn? && !pn.command && Target(pn) == n
    ensures Receive(rpn) in events && rpn.Rpn? && !rpn.command && Target(rpn) == n
  {
    var trace := Run(Step, start, events).trace;
    HandshakeSafety(start, events, n);
    var k := DeedWitness(trace, n, PnAnswered);
    var m := DeedWitness(trace, n, RpnAnswered);
    AnsweredBy(trace[k], n);
    AnsweredBy(trace[m], n);
    pn, rpn := trace[k].frame, trace[m].frame;
    GotFromEvents(start, events, pn);
    GotFromEvents(start, events, rpn);
  }

  lemma AnsweredBy(a: Act, n: nat)
    ensures PnAnswered in Deed(a, n) ==> a.Got? && a.frame.Pn? && !a.frame.command && Target(a.frame) == n
    ensures RpnAnswered in Deed(a, n) ==> a.Got? && a.frame.Rpn? && !a.frame.command && Target(a.frame) == n
  {
  }

  predicate AnswersPn(e: Event, n: nat)
  {
    e.Receive? && e.frame.Pn? && !e.frame.command && Target(e.frame) == n
  }

  predicate AnswersRpn(e: Event, n: nat)
  {
    e.Receive? && e.frame.Rpn? && !e.frame.command && Target(e.frame) == n
  }

  /**
    Where the source's comment has an incoming channel open once both MSC exchanges are done, the code
    waits for answers to its own PN and RPN commands as well: without either, no channel ever opens.
  */
  lemma UnansweredNeverOpens(start: Session, events: seq<Event>, n: nat)
    requires IsStart(start) && n != 0
    requires (forall e | e in events :: !AnswersPn(e, n)) || (forall e | e in events :: !AnswersRpn(e, n))
    ensures Open !in BitsOf(Run(Step, start, events), n)
  {
    if Open in BitsOf(Run(Step, start, events), n) {
      var pn, rpn := OpenWasAnswered(start, events, n);
      assert AnswersPn(Receive(pn), n) && AnswersRpn(Receive(rpn), n);
    }
  }

  // ---------------------------------------------------------------- channel numbers on the wire

  /** Our SABM for channel n is, byte for byte, the SABM of DLC0 exactly when n is a multiple of 32. */
  lemma SabmAlias(n: nat)
    ensures FramesOut(Sent(n, Sabm(n), true)) == FramesOut(Sent(0, Sabm(0), true)) <==> n % 32 == 0
  {
    AddressOf(n);
    AddressOf(0);
    var p, q := FrameBytes(n, true, FRAME_SABM, []), FrameBytes(0, true, FRAME_SABM, []);
    assert FramesOut(Sent(n, Sabm(n), true)) == [p] && FramesOut(Sent(0, Sabm(0), true)) == [q];
    assert p[0] == Address(n, true) && q[0] == Address(0, true);
  }

  lemma AddressOf(n: nat)
    ensures Address(n, true) == (n % 32) * 8 + 3
  {
  }

  /** The channel numbers that fit the five bits of an address. */
  predicate NumbersFit(slots: seq<Slot>)
  {
    forall i | 0 <= i < |slots| && slots[i].Channel? :: slots[i].num < 32
  }

  /** Events that name only channels up to 31: what a client and a conforming peer do. */
  predicate Conforming(e: Event)
  {
    match e
    case Receive(f) => Carrier(f) < 32 && (f.Pn? ==> Target(f) < 32)
    case OpenChannel(n) => n < 32
    case _ => true
  }

  lemma {:induction false} LoopFits(s: Session, i: nat)
    requires NumbersFit(s.slots)
    ensures NumbersFit(ProcessFrom(s, i).slots)
    decreases |s.slots| - i
  {
    if i < |s.slots| {
      LoopFits(Process(s, i), i + 1);
    }
  }

  lemma AbsorbFits(s: Session, f: Frame)
    requires NumbersFit(s.slots)
    ensures NumbersFit(Absorb(s, f).slots)
  {
  }

  lemma StepFits(s: Session, e: Event)
    requires NumbersFit(s.slots) && Conforming(e)
    ensures NumbersFit(Step(s, e).slots)
  {
    match e {
      case Receive(f) => HandleFits(s, f);
      case _ =>
    }
  }

  lemma AddFits(s: Session, n: nat)
    requires NumbersFit(s.slots) && n < 32
    ensures NumbersFit(AddIfMissing(s, n).slots)
  {
  }

  lemma HandleFits(s: Session, f: Frame)
    requires NumbersFit(s.slots) && Conforming(Receive(f))
    ensures NumbersFit(Handle(s, f).slots)
  {
    AddFits(s, Carrier(f));
    var s1 := AddIfMissing(s, Carrier(f));
    if Has(s1, Carrier(f)) {
      if f.Pn? { AddFits(s1, Target(f)); }
      var s2 := if f.Pn? then AddIfMissing(s1, Target(f)) else s1;
      AbsorbFits(s2, f);
      LoopFits(Absorb(s2, f), 0);
    }
  }

  lemma {:induction false} NumbersStayFit(start: Session, events: seq<Event>)
    requires IsStart(start) && NumbersFit(start.slots) && forall e | e in events :: Conforming(e)
    ensures NumbersFit(Run(Step, start, events).slots)
    decreases |events|
  {
    if events != [] {
      var n := |events| - 1;
      assert forall e | e in events[..n] :: e in events;
      NumbersStayFit(start, events[..n]);
      StepFits(Run(Step, start, events[..n]), events[n]);
    }
  }

  /** No two live channels share an address, and the SABM of none reads as that of DLC0. */
  predicate AddressesApart(slots: seq<Slot>)
  {
    && (forall i, j | 0 <= i < j < |slots| && slots[i].Channel? && slots[j].Channel? ::
          Address(slots[i].num, true) != Address(slots[j].num, true))
    && (forall i | 0 <= i < |slots| && slots[i].Channel? && slots[i].num != 0 ::
          FramesOut(Sent(slots[i].num, Sabm(slots[i].num), true)) != FramesOut(Sent(0, Sabm(0), true)))
  }

  lemma FitApart(slots: seq<Slot>)
    requires TableOk(slots) && NumbersFit(slots)
    ensures AddressesApart(slots)
  {
    forall i, j | 0 <= i < j < |slots| && slots[i].Channel? && slots[j].Channel?
      ensures Address(slots[i].num, true) != Address(slots[j].num, true)
    {
      AddressOf(slots[i].num);
      AddressOf(slots[j].num);
    }
    forall i | 0 <= i < |slots| && slots[i].Channel? && slots[i].num != 0
      ensures FramesOut(Sent(slots[i].num, Sabm(slots[i].num), true)) != FramesOut(Sent(0, Sabm(0), true))
    {
      SabmAlias(slots[i].num);
    }
  }

  /**
    While no PN and no client names a channel above 31, live channels never share an address on the wire,
    and no SABM but DLC0's own looks like DLC0's.
  */
  lemma AddressesDistinct(start: Session, events: seq<Event>)
    requires IsStart(start) && NumbersFit(start.slots) && forall e | e in events :: Conforming(e)
    ensures AddressesApart(Run(Step, start, events).slots)
  {
    NumbersStayFit(start, events);
    TableTheorem(start, events, 0);
    FitApart(Run(Step, start, events).slots);
  }

  lemma {:induction false} LoopSends(s: Session, i: nat, k: nat)
    requires Inv(s) && SabmDone in s.slots[0].bits && Ready(s) && i <= k < |s.slots|
    requires s.slots[k].Channel? && s.slots[k].num != 0 && NextMove(s.slots[k].bits) == SendSabm
    ensures Sent(s.slots[k].num, Sabm(s.slots[k].num), true) in ProcessFrom(s, i).trace
    decreases |s.slots| - i
  {
    ProcessEffect(s, i);
    ProcessInv(s, i);
    if i < k {
      LoopSends(Process(s, i), i + 1, k);
    } else {
      LoopKeeps(Process(s, i), i + 1, Sent(s.slots[k].num, Sabm(s.slots[k].num), true));
    }
  }

  lemma {:induction false} LoopKeeps(s: Session, i: nat, a: Act)
    requires a in s.trace
    ensures a in ProcessFrom(s, i).trace
    decreases |s.slots| - i
  {
    if i < |s.slots| {
      LoopKeeps(Process(s, i), i + 1, a);
    }
  }

  lemma ChannelAdded(s: Session, f: Frame)
    requires Inv(s) && !IsIncoming(s) && Ready(s) && !Has(s, 32) && FirstFree(s.slots) < |s.slots|
    requires f.Pn? && f.command && f.dlci == 64
    ensures var t := Add(s, 32);
            && Inv(t) && !IsIncoming(t) && Ready(t) && Has(t, 32) && BitsOf(t, 32) == {} && Handle(s, f) == Handle(t, f)
  {
    ReadyHere(s);
    FindExact(s.slots, 0, 0);
    AddInv(s, 32);
    var t := Add(s, 32);
    FindExact(t.slots, 32, FirstFree(s.slots));
    FindExact(t.slots, 0, 0);
    ReadyHere(t);
  }

  /**
    With a PN command naming channel 32 the session does send a second SABM that reads as DLC0's: from
    any session whose link is up and whose table has room, PN command and PN answer suffice.
  */
  lemma PnAbove31SendsLinkSabm(s: Session, params: PnParams)
    requires Inv(s) && !IsIncoming(s) && Ready(s) && !Has(s, 32) && FirstFree(s.slots) < |s.slots|
    ensures var t := Handle(Handle(s, Pn(true, 64, params)), Pn(false, 64, params));
            Sent(32, Sabm(32), true) in t.trace
                && FramesOut(Sent(32, Sabm(32), true)) == FramesOut(Sent(0, Sabm(0), true))
  {
    SabmAlias(32);
    var f, g := Pn(true, 64, params), Pn(false, 64, params);
    ChannelAdded(s, f);
    PnTurn(Add(s, 32), f);
    AnsweredPnSends(Handle(s, f), g);
  }

  lemma AnsweredPnSends(s: Session, g: Frame)
    requires Inv(s) && !IsIncoming(s) && Ready(s) && Has(s, 32) && BitsOf(s, 32) == {PnReceived, PnReplied, PnSent}
    requires g.Pn? && !g.command && g.dlci == 64
    ensures Sent(32, Sabm(32), true) in Handle(s, g).trace
  {
    PnAbsorbed(s, g);
    var u := BeforeLoop(s, g);
    var k := Find(u.slots, 32);
    SabmIsNext(u.slots[k].bits);
    LoopSends(u, 0, k);
  }

  lemma SabmIsNext(bits: set<Bit>)
    requires bits == {PnReceived, PnReplied, PnSent} + {PnAnswered}
    ensures NextMove(bits) == SendSabm
  {
  }

  /** A PN frame about channel 32: what it raises before the loop. */
  lemma PnAbsorbed(s: Session, f: Frame)
    requires Inv(s) && !IsIncoming(s) && Ready(s) && Has(s, 32) && f.Pn? && f.dlci == 64
    ensures var u := BeforeLoop(s, f);
            && Inv(u) && !IsIncoming(u) && Ready(u) && Has(u, 32) && BitsOf(u, 32) == BitsOf(s, 32) + Heard(f)
            && SabmDone in u.slots[0].bits && Handle(s, f) == ProcessFrom(u, 0)
  {
    FindExact(s.slots, 0, 0);
    BeforeLoopEffect(s, f, 32);
    PnLeavesLink(s, f);
    ReadyHere(s);
    ReadyHere(BeforeLoop(s, f));
    HandleSplit(s, f);
  }

  lemma PnTurn(s: Session, f: Frame)
    requires Inv(s) && !IsIncoming(s) && Ready(s) && f.Pn? && f.command && f.dlci == 64
    requires Has(s, 32) && BitsOf(s, 32) == {}
    ensures var t := Handle(s, f);
            && Inv(t) && !IsIncoming(t) && Ready(t) && Has(t, 32) && BitsOf(t, 32) == {PnReceived, PnReplied, PnSent}
  {
    FindExact(s.slots, 0, 0);
    ReadyHere(s);
    HandleEffect(s, f, 32);
    PnMove(Heard(f));
  }

  lemma PnMove(heard: set<Bit>)
    requires heard == {PnReceived, PnReplied}
    ensures AfterMove({} + heard, true) == {PnReceived, PnReplied, PnSent}
  {
    assert {} + heard == heard && NextMove(heard) == SendPn;
  }
}
