/**
  Sessions that a peer starts: a channel of such a session is OPEN exactly when the peer has sent SABM for
  DLC0 and for the channel, its MSC command, and the answers to our PN, MSC and RPN commands. The comment in
  rfcomm.c asks for less.
*/
module RfcommIncoming {
  import opened Bytes
  import opened Folds
  import opened RfcommFrames
  import opened RfcommSession
  import opened RfcommSafety
  import opened RfcommOrder
  import RfcommProgress
  import RfcommFindings

  /** What a received frame is to an incoming channel n. */
  datatype Part = LinkSabm | ChannelSabm | PnAnswer | MscAnswer | MscOffer | RpnAnswer | NoPart | Unasked

  function PartOf(f: Frame, n: nat): (p: Part)
  {
    match f
    case Sabm(m) => if m == 0 then LinkSabm else if m == n then ChannelSabm else NoPart
    case Ua(m) => if m == 0 || m == n then Unasked else NoPart
    case Pn(command, dlci, _) => if dlci / 2 == n && !command then PnAnswer else NoPart
    case Msc(command, dlci, _, _) => if dlci / 8 != n then NoPart else if command then MscOffer else MscAnswer
    case Rpn(command, dlci, _) => if dlci / 8 == n && !command then RpnAnswer else NoPart
    case _ => NoPart
  }

  const ALL_PARTS: set<Part> := {LinkSabm, ChannelSabm, PnAnswer, MscAnswer, MscOffer, RpnAnswer}

  /**
    A frame a peer may send next: answers only to commands of ours that are out, no UA, which we never ask
    for, its MSC command once the channel is there, and its SABM while the table has room.
  */
  predicate Fair(s: Session, f: Frame, n: nat)
  {
    match PartOf(f, n)
    case PnAnswer => PnSent in BitsOf(s, n)
    case MscAnswer => MscSent in BitsOf(s, n)
    case RpnAnswer => RpnSent in BitsOf(s, n)
    case MscOffer => Has(s, n)
    case ChannelSabm => Has(s, n) || FirstFree(s.slots) < |s.slots|
    case Unasked => false
    case _ => true
  }

  /** A session watched while frames arrive. */
  datatype Watch = Watch(session: Session, parts: set<Part>, fair: bool)

  function Observe(w: Watch, f: Frame, n: nat): (w': Watch)
  {
    Watch(Handle(w.session, f), w.parts + {PartOf(f, n)}, w.fair && Fair(w.session, f, n))
  }

  function Watched(s: Session, frames: seq<Frame>, n: nat): (w: Watch)
    decreases |frames|
  {
    if frames == [] then Watch(s, {}, true)
    else Observe(Watched(s, frames[..|frames| - 1], n), frames[|frames| - 1], n)
  }

  /** What has arrived. */
  function Parts(frames: seq<Frame>, n: nat): (parts: set<Part>)
  {
    set f | f in frames :: PartOf(f, n)
  }

  lemma PartsSnoc(frames: seq<Frame>, f: Frame, n: nat)
    ensures Parts(frames + [f], n) == Parts(frames, n) + {PartOf(f, n)}
  {
    assert forall g :: g in frames + [f] <==> g in frames || g == f;
  }

  /** The session is the run of the frames, and the parts are theirs. */
  lemma {:induction false} WatchedIs(s: Session, frames: seq<Frame>, n: nat)
    ensures Watched(s, frames, n).session == Run(Handle, s, frames)
    ensures Watched(s, frames, n).parts == Parts(frames, n)
    decreases |frames|
  {
    if frames != [] {
      var front, f := frames[..|frames| - 1], frames[|frames| - 1];
      WatchedIs(s, front, n);
      PartsSnoc(front, f, n);
      assert frames == front + [f];
    }
  }

  // ---------------------------------------------------------------- the bits of the channel

  /** The bits that frames raise, as a function of what has arrived; answers follow what they answer. */
  predicate Tracks(bits: set<Bit>, parts: set<Part>)
  {
    && Incoming in bits
    && (PnAnswered in bits <==> PnAnswer in parts) && (PnAnswered in bits ==> PnSent in bits)
    && (UaDone in bits <==> ChannelSabm in parts)
    && (MscAnswered in bits <==> MscAnswer in parts) && (MscAnswered in bits ==> MscSent in bits)
    && (MscReceived in bits <==> MscOffer in parts) && (MscReplied in bits <==> MscOffer in parts)
    && (RpnAnswered in bits <==> RpnAnswer in parts) && (RpnAnswered in bits ==> RpnSent in bits)
    && (Open in bits <==> RpnAnswer in parts)
  }

  /** One turn of processChannel keeps track. */
  lemma TurnTracks(bits: set<Bit>, parts: set<Part>)
    requires Tracks(bits, parts)
    ensures Tracks(RfcommProgress.AfterMove(bits, true), parts)
  {
  }

  /** After a turn there is nothing more of ours to do. */
  lemma TurnWaits(bits: set<Bit>, parts: set<Part>)
    requires Tracks(bits, parts)
    ensures NextMove(RfcommProgress.AfterMove(bits, true)).Wait?
  {
  }

  /** Hearing a frame that is not the answer to RPN keeps track. */
  lemma HeardTracks(bits: set<Bit>, parts: set<Part>, f: Frame, n: nat)
    requires Tracks(bits, parts) && Target(f) == n && n != 0 && PartOf(f, n) != Unasked && PartOf(f, n) != RpnAnswer
    requires PartOf(f, n) == PnAnswer ==> PnSent in bits
    requires PartOf(f, n) == MscAnswer ==> MscSent in bits
    ensures Tracks(bits + Heard(f), parts + {PartOf(f, n)})
  {
  }

  /** The answer to RPN completes the handshake, and the turn it brings opens the channel. */
  lemma RpnAnswerOpens(bits: set<Bit>, parts: set<Part>, cmds: seq<Command>)
    requires Tracks(bits, parts) && ProgressOk(bits, cmds, true) && RpnSent in bits
    ensures Tracks(RfcommProgress.AfterMove(bits + {RpnAnswered}, true), parts + {RpnAnswer})
  {
  }

  /** Frames about other channels change nothing. */
  lemma ForeignTracks(bits: set<Bit>, parts: set<Part>, p: Part)
    requires Tracks(bits, parts) && (p == NoPart || p == LinkSabm)
    ensures Tracks(bits, parts + {p})
  {
  }

  // ---------------------------------------------------------------- one frame

  /** The invariant: what the channel's bits say has arrived, and DLC0 is up once its SABM has. */
  predicate InTune(w: Watch, n: nat)
  {
    && Inv(w.session) && IsIncoming(w.session) && n != 0
    && (Ready(w.session) <==> LinkSabm in w.parts)
    && (if Has(w.session, n) then Tracks(BitsOf(w.session, n), w.parts)
        else w.parts !! {ChannelSabm, PnAnswer, MscAnswer, MscOffer, RpnAnswer})
  }

  lemma SlotProgress(s: Session, n: nat)
    requires Inv(s) && Has(s, n) && n != 0
    ensures ProgressOk(BitsOf(s, n), Commands(s.trace, n), Ready(s))
    ensures Incoming in BitsOf(s, n) <==> IsIncoming(s)
  {
    assert SlotOk(s.slots[Find(s.slots, n)], s.trace, Ready(s), IsIncoming(s));
  }

  lemma NoRoomNoPart(s: Session, f: Frame, n: nat)
    requires Inv(s) && Has(s, n) && n != 0
    ensures !Has(AddIfMissing(s, Carrier(f)), Carrier(f)) ==> PartOf(f, n) == NoPart && Target(f) != n
  {
    FindExact(s.slots, 0, 0);
  }

  /** The bits of the channel after one frame. */
  lemma BitsInTune(bits: set<Bit>, parts: set<Part>, cmds: seq<Command>, ready: bool, f: Frame, n: nat, loops: bool)
    requires Tracks(bits, parts) && ProgressOk(bits, cmds, ready) && n != 0 && PartOf(f, n) != Unasked
    requires PartOf(f, n) == PnAnswer ==> PnSent in bits
    requires PartOf(f, n) == MscAnswer ==> MscSent in bits
    requires PartOf(f, n) == RpnAnswer ==> RpnSent in bits && ready && loops
    ensures var heard := if Target(f) == n then bits + Heard(f) else bits;
            Tracks(if loops then RfcommProgress.AfterMove(heard, ready) else heard, parts + {PartOf(f, n)})
  {
    if PartOf(f, n) == RpnAnswer {
      RpnAnswerOpens(bits, parts, cmds);
    } else if Target(f) == n {
      HeardTracks(bits, parts, f, n);
      TurnTracks(bits + Heard(f), parts + {PartOf(f, n)});
    } else {
      ForeignTracks(bits, parts, PartOf(f, n));
      TurnTracks(bits, parts + {PartOf(f, n)});
    }
  }

  /** A frame for a channel that is in the table. */
  lemma KnownChannel(w: Watch, f: Frame, n: nat)
    requires InTune(w, n) && Has(w.session, n) && Fair(w.session, f, n)
    ensures InTune(Observe(w, f, n), n) && Has(Observe(w, f, n).session, n)
  {
    var s := w.session;
    RfcommProgress.HandleEffect(s, f, n);
    SlotProgress(s, n);
    NoRoomNoPart(s, f, n);
    BitsInTune(BitsOf(s, n), w.parts, Commands(s.trace, n), Ready(s), f, n, RfcommProgress.Loops(s, f));
  }

  /** A frame that brings the channel in is handled as if the channel were there. */
  lemma AddsFirst(s: Session, f: Frame, n: nat)
    requires Inv(s) && !Has(s, n) && FirstFree(s.slots) < |s.slots| && n != 0
    requires Carrier(f) == n || (f.Pn? && Target(f) == n)
    ensures Handle(s, f) == Handle(Add(s, n), f)
  {
    AddInv(s, n);
    FindExact(s.slots, 0, 0);
    FindExact(Add(s, n).slots, 0, 0);
    FindExact(Add(s, n).slots, n, FirstFree(s.slots));
  }

  /** Other frames leave it out. */
  lemma StaysOut(s: Session, f: Frame, n: nat)
    requires Inv(s) && !Has(s, n) && n != 0
    requires (Carrier(f) != n && !(f.Pn? && Target(f) == n)) || FirstFree(s.slots) == |s.slots|
    ensures !Has(Handle(s, f), n)
  {
    var s1 := AddIfMissing(s, Carrier(f));
    FindExact(s.slots, 0, 0);
    AddOther(s, Carrier(f), n);
    AddIfMissingInv(s, Carrier(f));
    if Has(s1, Carrier(f)) {
      if f.Pn? { AddOther(s1, Target(f), n); }
      var s2 := if f.Pn? then AddIfMissing(s1, Target(f)) else s1;
      AddIfMissingInv(s1, Target(f));
      AbsorbNames(s2, f, n);
      LoopNames(Absorb(s2, f), 0, n);
    }
  }

  lemma AddOther(s: Session, m: nat, n: nat)
    requires !Has(s, n) && (m != n || FirstFree(s.slots) == |s.slots|)
    ensures !Has(AddIfMissing(s, m), n) && |AddIfMissing(s, m).slots| == |s.slots|
    ensures FirstFree(s.slots) == |s.slots| ==> AddIfMissing(s, m) == s
  {
    var t := AddIfMissing(s, m);
    NotThere(s.slots, n);
    if Find(t.slots, n) < |t.slots| {
      assert IsChannel(t.slots[Find(t.slots, n)], n);
    }
  }

  lemma NotThere(slots: seq<Slot>, n: nat)
    ensures Find(slots, n) == |slots| <==> forall k | 0 <= k < |slots| :: !IsChannel(slots[k], n)
  {
  }

  lemma AbsorbNames(s: Session, f: Frame, n: nat)
    requires Inv(s) && !Has(s, n)
    ensures !Has(Absorb(s, f), n)
  {
    NotThere(s.slots, n);
    if Effective(s, f) { AbsorbIs(s, f); }
    NotThere(Absorb(s, f).slots, n);
  }

  lemma {:induction false} LoopNames(s: Session, i: nat, n: nat)
    requires !Has(s, n)
    ensures !Has(ProcessFrom(s, i), n)
    decreases |s.slots| - i
  {
    if i < |s.slots| {
      NotThere(s.slots, n);
      NotThere(Process(s, i).slots, n);
      LoopNames(Process(s, i), i + 1, n);
    }
  }

  /** Add gives the new channel the INCOMING bit and no other. */
  lemma AddedIncoming(w: Watch, n: nat)
    requires InTune(w, n) && !Has(w.session, n) && FirstFree(w.session.slots) < |w.session.slots|
    ensures InTune(w.(session := Add(w.session, n)), n) && Has(Add(w.session, n), n)
  {
    var s, t := w.session, Add(w.session, n);
    AddInv(s, n);
    FindExact(s.slots, 0, 0);
    FindExact(t.slots, n, FirstFree(s.slots));
    ReadyHere(s);
    ReadyHere(t);
  }

  predicate Joins(s: Session, f: Frame, n: nat)
  {
    (Carrier(f) == n || (f.Pn? && Target(f) == n)) && FirstFree(s.slots) < |s.slots|
  }

  lemma ChannelJoins(w: Watch, f: Frame, n: nat)
    requires InTune(w, n) && !Has(w.session, n) && Fair(w.session, f, n) && Joins(w.session, f, n)
    ensures InTune(Observe(w, f, n), n)
  {
    var s := w.session;
    AddsFirst(s, f, n);
    AddedIncoming(w, n);
    FairStill(s, f, n);
    KnownChannel(w.(session := Add(s, n)), f, n);
  }

  lemma ChannelLeftOut(w: Watch, f: Frame, n: nat)
    requires InTune(w, n) && !Has(w.session, n) && Fair(w.session, f, n) && !Joins(w.session, f, n)
    ensures InTune(Observe(w, f, n), n)
  {
    StaysOut(w.session, f, n);
    LinkOnly(w.session, f, n);
  }

  lemma FairStill(s: Session, f: Frame, n: nat)
    requires Inv(s) && !Has(s, n) && Fair(s, f, n) && n != 0 && FirstFree(s.slots) < |s.slots|
    ensures Fair(Add(s, n), f, n)
  {
    AddInv(s, n);
    FindExact(Add(s, n).slots, n, FirstFree(s.slots));
  }

  /** What a frame that leaves the channel out does to DLC0. */
  lemma LinkOnly(s: Session, f: Frame, n: nat)
    requires Inv(s) && IsIncoming(s) && !Has(s, n) && n != 0 && Fair(s, f, n)
    requires Carrier(f) != n || FirstFree(s.slots) == |s.slots|
    ensures Inv(Handle(s, f)) && IsIncoming(Handle(s, f))
    ensures Ready(Handle(s, f)) <==> Ready(s) || f == Sabm(0)
    ensures PartOf(f, n) == NoPart || PartOf(f, n) == LinkSabm
  {
    HandleInv(s, f);
    RfcommProgress.BeforeLoopInv(s, f);
    FairLink(s, f, n);
    ReadyOnly(s, f);
  }

  /** Of the peer's frames for the channel, fair ones that leave it out are at most SABM for DLC0. */
  lemma FairLink(s: Session, f: Frame, n: nat)
    requires n != 0 && !Has(s, n) && Fair(s, f, n)
    requires Carrier(f) != n || FirstFree(s.slots) == |s.slots|
    ensures f != Ua(0) && (PartOf(f, n) == NoPart || PartOf(f, n) == LinkSabm)
  {
  }

  lemma ReadyOnly(s: Session, f: Frame)
    requires Inv(s) && IsIncoming(s) && f != Ua(0)
    ensures Ready(Handle(s, f)) <==> Ready(s) || f == Sabm(0)
  {
    RfcommProgress.HandleSplit(s, f);
    RfcommProgress.LinkAfter(s, f);
    RfcommProgress.BeforeLoopInv(s, f);
    LoopReady(RfcommProgress.BeforeLoop(s, f), 0);
  }

  lemma {:induction false} LoopReady(s: Session, i: nat)
    requires Inv(s) && RfcommProgress.LinkAsked(s)
    ensures Ready(ProcessFrom(s, i)) == Ready(s)
    decreases |s.slots| - i
  {
    if i < |s.slots| {
      RfcommProgress.ProcessEffect(s, i);
      ProcessInv(s, i);
      LoopReady(Process(s, i), i + 1);
    }
  }

  // ---------------------------------------------------------------- whole runs

  predicate FairlyInTune(w: Watch, n: nat) { w.fair ==> InTune(w, n) }

  lemma ObserveInTune(w: Watch, f: Frame, n: nat)
    requires FairlyInTune(w, n)
    ensures FairlyInTune(Observe(w, f, n), n)
  {
    if Observe(w, f, n).fair {
      if Has(w.session, n) {
        KnownChannel(w, f, n);
      } else {
        if Joins(w.session, f, n) { ChannelJoins(w, f, n); } else { ChannelLeftOut(w, f, n); }
      }
    }
  }

  lemma StartInTune(client: bool, n: nat)
    requires n != 0
    ensures InTune(Watch(NewIncoming(client), {}, true), n)
  {
    var s := NewIncoming(client);
    IncomingInv(client);
    FirstSlot(client);
    FindExact(s.slots, 0, 0);
    ReadyHere(s);
    NotThere(s.slots, n);
  }

  lemma {:induction false} RunInTune(client: bool, n: nat, frames: seq<Frame>)
    requires n != 0
    ensures FairlyInTune(Watched(NewIncoming(client), frames, n), n)
    decreases |frames|
  {
    if frames == [] {
      StartInTune(client, n);
    } else {
      RunInTune(client, n, frames[..|frames| - 1]);
      ObserveInTune(Watched(NewIncoming(client), frames[..|frames| - 1], n), frames[|frames| - 1], n);
    }
  }

  lemma OpenHasAll(w: Watch, n: nat)
    requires InTune(w, n)
    ensures Open in BitsOf(w.session, n) <==> ALL_PARTS <= w.parts
  {
    if Has(w.session, n) { SlotProgress(w.session, n); }
  }

  /**
    In a session a peer starts, with any other traffic in between, channel n is OPEN exactly when all six have
    arrived: SABM for DLC0 and for n, the MSC command, and the answers to our PN, MSC and RPN.
  */
  lemma IncomingOpensExactly(client: bool, n: nat, frames: seq<Frame>)
    requires n != 0 && Watched(NewIncoming(client), frames, n).fair
    ensures Open in BitsOf(Run(Handle, NewIncoming(client), frames), n) <==> ALL_PARTS <= Parts(frames, n)
  {
    RunInTune(client, n, frames);
    WatchedIs(NewIncoming(client), frames, n);
    OpenHasAll(Watched(NewIncoming(client), frames, n), n);
  }

  /**
    The channel asks as soon as it can: after a frame that reaches the loop, with the link up, our PN is out;
    MSC is, once PN is answered and the peer's SABM is there; and RPN, once both MSC exchanges are done.
    SABM itself does not reach the loop.
  */
  lemma IncomingAsks(w: Watch, f: Frame, n: nat)
    requires InTune(w, n) && Has(w.session, n) && Fair(w.session, f, n)
    requires RfcommProgress.Loops(w.session, f) && LinkSabm in w.parts
    ensures var t := Observe(w, f, n);
            var bits := BitsOf(t.session, n);
            && PnSent in bits
            && ({PnAnswer, ChannelSabm} <= t.parts ==> MscSent in bits)
            && ({PnAnswer, ChannelSabm, MscAnswer, MscOffer} <= t.parts ==> RpnSent in bits)
  {
    var s := w.session;
    KnownChannel(w, f, n);
    RfcommProgress.HandleEffect(s, f, n);
    SlotProgress(Observe(w, f, n).session, n);
    HeardWaits(s, w.parts, f, n);
  }

  /** Nothing of ours is left to send after the turn. */
  lemma HeardWaits(s: Session, parts: set<Part>, f: Frame, n: nat)
    requires Tracks(BitsOf(s, n), parts) && Fair(s, f, n) && n != 0
    ensures NextMove(RfcommProgress.AfterMove(RfcommProgress.Hearing(s, f, n), true)).Wait?
  {
    var bits := BitsOf(s, n);
    if Target(f) == n && PartOf(f, n) != RpnAnswer {
      HeardTracks(bits, parts, f, n);
      TurnWaits(bits + Heard(f), parts + {PartOf(f, n)});
    } else if Target(f) == n {
      RpnWaits(bits, parts);
    } else {
      TurnWaits(bits, parts);
    }
  }

  lemma RpnWaits(bits: set<Bit>, parts: set<Part>)
    requires Tracks(bits, parts) && RpnSent in bits
    ensures NextMove(RfcommProgress.AfterMove(bits + {RpnAnswered}, true)).Wait?
  {
  }

  // ---------------------------------------------------------------- the schedule of the comment, and one that works

  /** What the source's comment has the peer of an incoming channel send, and SABM for the channel. */
  predicate Documented(f: Frame, n: nat)
  {
    || f == Sabm(0) || f == Sabm(n) || (f.Pn? && f.command) || f.Msc? || (f.Rpn? && f.command)
  }

  /**
    Whatever of it arrives, in whatever order: the channel does not open, and even our MSC command, which the
    comment has us send, never goes out, for want of an answer to our PN.
  */
  lemma DocumentedIncomingStaysClosed(client: bool, n: nat, frames: seq<Frame>)
    requires n != 0 && forall f | f in frames :: Documented(f, n)
    ensures BitsOf(Run(Step, NewIncoming(client), Received(frames)), n) !! {PnAnswered, MscSent, Open}
  {
    var start, events := NewIncoming(client), Received(frames);
    StartInv(start);
    RunInv(start, events);
    if Has(Run(Step, start, events), n) {
      if PnAnswered in BitsOf(Run(Step, start, events), n) { PnWasAnswered(client, n, frames); }
      NothingWithoutPn(Run(Step, start, events), n);
    }
  }

  lemma NothingWithoutPn(s: Session, n: nat)
    requires Inv(s) && Has(s, n) && n != 0 && PnAnswered !in BitsOf(s, n)
    ensures BitsOf(s, n) !! {PnAnswered, MscSent, Open}
  {
    SlotProgress(s, n);
  }

  lemma PnWasAnswered(client: bool, n: nat, frames: seq<Frame>)
    requires n != 0 && Has(Run(Step, NewIncoming(client), Received(frames)), n)
    requires PnAnswered in BitsOf(Run(Step, NewIncoming(client), Received(frames)), n)
    ensures exists f | f in frames :: !Documented(f, n)
  {
    var start, events := NewIncoming(client), Received(frames);
    var s := Run(Step, start, events);
    StartInv(start);
    RunInv(start, events);
    SlotHistory(s, Find(s.slots, n));
    var k := DeedWitness(s.trace, n, PnAnswered);
    RfcommFindings.AnsweredBy(s.trace[k], n);
    var f := s.trace[k].frame;
    RfcommFindings.GotFromEvents(start, events, f);
    var j :| 0 <= j < |events| && events[j] == Receive(f);
    assert frames[j] == f && f in frames && !Documented(f, n);
  }

  function Received(frames: seq<Frame>): (events: seq<Event>)
  {
    seq(|frames|, i requires 0 <= i < |frames| => Receive(frames[i]))
  }

  /** A schedule that does open the channel: the peer's PN command brings our PN, and each answer our next command. */
  function WorkingSchedule(n: nat, params: PnParams, signals: byte, rest: seq<byte>): (frames: seq<Frame>)
    requires 1 <= n < 32
  {
    [Sabm(0), Sabm(n), Pn(true, n * 2, params), Pn(false, n * 2, params),
     Msc(false, n * 8 + 3, signals, None), Msc(true, n * 8 + 3, signals, None), Rpn(false, n * 8 + 3, rest)]
  }

  predicate Going(w: Watch, n: nat) { w.fair && InTune(w, n) && {LinkSabm, ChannelSabm} <= w.parts }

  lemma ControlLoops(s: Session, f: Frame)
    requires Inv(s) && (f.Pn? || f.Msc? || f.Rpn?)
    ensures RfcommProgress.Loops(s, f)
  {
    FindExact(s.slots, 0, 0);
  }

  /** A control message to a channel that is there, and what it makes us ask. */
  lemma NextControl(w: Watch, f: Frame, n: nat)
    requires Going(w, n) && Fair(w.session, f, n) && (f.Pn? || f.Msc? || f.Rpn?)
    ensures var t := Observe(w, f, n);
            var bits := BitsOf(t.session, n);
            && Going(t, n) && Has(t.session, n) && PnSent in bits && t.parts == w.parts + {PartOf(f, n)}
            && (PnAnswer in t.parts ==> MscSent in bits)
            && ({PnAnswer, MscAnswer, MscOffer} <= t.parts ==> RpnSent in bits)
  {
    ControlLoops(w.session, f);
    IncomingAsks(w, f, n);
    KnownChannel(w, f, n);
  }

  /** DLC0 and the channel, once both SABMs have come. */
  lemma Joined(client: bool, n: nat, w: Watch)
    requires n != 0 && w == Observe(Observe(Watch(NewIncoming(client), {}, true), Sabm(0), n), Sabm(n), n)
    ensures Going(w, n) && Has(w.session, n) && w.parts == {LinkSabm, ChannelSabm}
  {
    var w0 := Watch(NewIncoming(client), {}, true);
    StartInTune(client, n);
    ObserveInTune(w0, Sabm(0), n);
    RoomAfterLink(client);
    ObserveInTune(Observe(w0, Sabm(0), n), Sabm(n), n);
    assert {} + {LinkSabm} + {ChannelSabm} == {LinkSabm, ChannelSabm};
  }

  lemma RoomAfterLink(client: bool)
    ensures var s := Handle(NewIncoming(client), Sabm(0)); FirstFree(s.slots) < |s.slots|
  {
    FirstSlot(client);
    var s := NewIncoming(client);
    IncomingInv(client);
    FindExact(s.slots, 0, 0);
    AbsorbIs(s, Sabm(0));
    assert Handle(s, Sabm(0)).slots[1].Free?;
  }

  predicate IsControl(f: Frame) { f.Pn? || f.Msc? || f.Rpn? }

  /** The peer's PN command brings ours, and its answer our MSC. */
  lemma ExchangePn(w: Watch, f: Frame, g: Frame, n: nat, t: Watch)
    requires Going(w, n) && Has(w.session, n) && IsControl(f) && IsControl(g)
    requires PartOf(f, n) == NoPart && PartOf(g, n) == PnAnswer && t == Observe(Observe(w, f, n), g, n)
    ensures Going(t, n) && Has(t.session, n) && t.parts == w.parts + {NoPart, PnAnswer}
            && MscSent in BitsOf(t.session, n)
  {
    NextControl(w, f, n);
    NextControl(Observe(w, f, n), g, n);
  }

  /** Both MSC exchanges bring our RPN. */
  lemma ExchangeMsc(w: Watch, f: Frame, g: Frame, n: nat, t: Watch)
    requires Going(w, n) && Has(w.session, n) && IsControl(f) && IsControl(g)
    requires PnAnswer in w.parts && MscSent in BitsOf(w.session, n)
    requires PartOf(f, n) == MscAnswer && PartOf(g, n) == MscOffer && t == Observe(Observe(w, f, n), g, n)
    ensures Going(t, n) && Has(t.session, n) && t.parts == w.parts + {MscAnswer, MscOffer}
            && RpnSent in BitsOf(t.session, n)
  {
    NextControl(w, f, n);
    NextControl(Observe(w, f, n), g, n);
  }

  /** The watches along a run, one for each number of frames. */
  predicate IsTrail(ws: seq<Watch>, s: Session, frames: seq<Frame>, n: nat)
  {
    && |ws| == |frames| + 1 && ws[0] == Watch(s, {}, true)
    && forall k | 0 <= k < |frames| :: ws[k + 1] == Observe(ws[k], frames[k], n)
  }

  function Observer(n: nat): (step: (Watch, Frame) -> Watch)
  {
    (w, f) => Observe(w, f, n)
  }

  lemma {:induction false} WatchedIsRun(s: Session, frames: seq<Frame>, n: nat)
    ensures Watched(s, frames, n) == Run(Observer(n), Watch(s, {}, true), frames)
    decreases |frames|
  {
    if frames != [] {
      WatchedIsRun(s, frames[..|frames| - 1], n);
    }
  }

  lemma WatchTrail(s: Session, frames: seq<Frame>, n: nat) returns (ws: seq<Watch>)
    ensures IsTrail(ws, s, frames, n) && ws[|frames|] == Watched(s, frames, n)
  {
    ws := Trail(Observer(n), Watch(s, {}, true), frames);
    WatchedIsRun(s, frames, n);
    forall k | 0 <= k < |frames| ensures ws[k + 1] == Observe(ws[k], frames[k], n) {
      assert ws[k + 1] == Observer(n)(ws[k], frames[k]);
    }
  }

  /** The parts of the working schedule, in order. */
  predicate Works(frames: seq<Frame>, n: nat)
  {
    && |frames| == 7 && frames[0] == Sabm(0) && frames[1] == Sabm(n)
    && IsControl(frames[2]) && IsControl(frames[3]) && IsControl(frames[4]) && IsControl(frames[5])
    && IsControl(frames[6])
    && PartOf(frames[2], n) == NoPart && PartOf(frames[3], n) == PnAnswer
    && PartOf(frames[4], n) == MscAnswer && PartOf(frames[5], n) == MscOffer && PartOf(frames[6], n) == RpnAnswer
  }

  /** The frames after the SABMs are fair, and only the last completes the parts. */
  lemma ControlsFair(w2: Watch, w4: Watch, w6: Watch, frames: seq<Frame>, n: nat)
    requires n != 0 && Works(frames, n) && Going(w2, n) && Has(w2.session, n) && w2.parts == {LinkSabm, ChannelSabm}
    requires w4 == Observe(Observe(w2, frames[2], n), frames[3], n)
    requires w6 == Observe(Observe(w4, frames[4], n), frames[5], n)
    ensures w6.fair && Fair(w6.session, frames[6], n)
    ensures w6.parts == {LinkSabm, ChannelSabm, NoPart, PnAnswer, MscAnswer, MscOffer}
  {
    ExchangePn(w2, frames[2], frames[3], n, w4);
    ExchangeMsc(w4, frames[4], frames[5], n, w6);
  }

  /** Along the schedule every frame is fair, and only the last completes the parts. */
  lemma TrailFair(ws: seq<Watch>, client: bool, n: nat, frames: seq<Frame>)
    requires n != 0 && Works(frames, n) && IsTrail(ws, NewIncoming(client), frames, n)
    ensures ws[6].fair && RpnAnswer !in ws[6].parts && ws[7].fair && ALL_PARTS <= ws[7].parts
  {
    TrailJoined(ws, client, n, frames);
    TwoAt(ws, NewIncoming(client), frames, n, 2);
    TwoAt(ws, NewIncoming(client), frames, n, 4);
    ControlsFair(ws[2], ws[4], ws[6], frames, n);
    OneAt(ws, NewIncoming(client), frames, n, 6);
    LastFair(ws[6], frames[6], n, ws[7]);
  }

  lemma TrailJoined(ws: seq<Watch>, client: bool, n: nat, frames: seq<Frame>)
    requires n != 0 && Works(frames, n) && IsTrail(ws, NewIncoming(client), frames, n)
    ensures Going(ws[2], n) && Has(ws[2].session, n) && ws[2].parts == {LinkSabm, ChannelSabm}
  {
    TwoAt(ws, NewIncoming(client), frames, n, 0);
    Joined(client, n, ws[2]);
  }

  lemma OneAt(ws: seq<Watch>, s: Session, frames: seq<Frame>, n: nat, k: nat)
    requires IsTrail(ws, s, frames, n) && k < |frames|
    ensures ws[k + 1] == Observe(ws[k], frames[k], n)
  {
  }

  lemma TwoAt(ws: seq<Watch>, s: Session, frames: seq<Frame>, n: nat, k: nat)
    requires IsTrail(ws, s, frames, n) && k + 1 < |frames|
    ensures ws[k + 2] == Observe(Observe(ws[k], frames[k], n), frames[k + 1], n)
  {
    assert ws[k + 1] == Observe(ws[k], frames[k], n) && ws[k + 1 + 1] == Observe(ws[k + 1], frames[k + 1], n);
  }

  lemma LastFair(w: Watch, f: Frame, n: nat, t: Watch)
    requires t == Observe(w, f, n) && w.fair && Fair(w.session, f, n) && PartOf(f, n) == RpnAnswer
    requires w.parts == {LinkSabm, ChannelSabm, NoPart, PnAnswer, MscAnswer, MscOffer}
    ensures t.fair && ALL_PARTS <= t.parts
  {
  }

  /** The schedule opens the channel. */
  lemma ScheduleOpens(client: bool, n: nat, frames: seq<Frame>)
    requires n != 0 && Works(frames, n)
    ensures Open in BitsOf(Run(Handle, NewIncoming(client), frames), n)
  {
    var ws := WatchTrail(NewIncoming(client), frames, n);
    TrailFair(ws, client, n, frames);
    IncomingOpensExactly(client, n, frames);
    WatchedIs(NewIncoming(client), frames, n);
  }

  /** Without its last frame it does not: that is the answer to RPN. */
  lemma NotBeforeRpn(client: bool, n: nat, frames: seq<Frame>)
    requires n != 0 && forall f | f in frames :: PartOf(f, n) != RpnAnswer
    ensures Open !in BitsOf(Run(Step, NewIncoming(client), Received(frames)), n)
  {
    var events := Received(frames);
    forall e | e in events ensures !RfcommFindings.AnswersRpn(e, n) {
      var k :| 0 <= k < |events| && events[k] == e;
      assert e == Receive(frames[k]) && frames[k] in frames;
    }
    RfcommFindings.UnansweredNeverOpens(NewIncoming(client), events, n);
  }

  /** The schedule opens the channel; any frames without an answer to our RPN do not. */
  lemma WorkingScheduleOpens(client: bool, n: nat, params: PnParams, signals: byte, rest: seq<byte>)
    requires 1 <= n < 32
    ensures Open in BitsOf(Run(Handle, NewIncoming(client), WorkingSchedule(n, params, signals, rest)), n)
  {
    ScheduleOpens(client, n, WorkingSchedule(n, params, signals, rest));
  }
}
