/**
  Handshakes make progress: against a peer that answers, in any interleaving with other traffic, the state
  of an outgoing channel is at every moment a function of which frames of the handshake have arrived, and
  the channel is OPEN exactly when all have. This holds for the first channel of a session and for one
  opened later; that one asks for nothing before a frame reaches the loop over the channels.
*/
module RfcommProgress {
  import opened Folds
  import opened RfcommFrames
  import opened RfcommSession
  import opened RfcommSafety
  import opened RfcommOrder

  /** What a received frame is to the handshake of channel n. */
  datatype Key = LinkUa | PnAnswer | ChannelUa | MscAnswer | MscOffer | RpnAnswer | Neutral | Foul

  function KeyOf(f: Frame, n: nat): (k: Key)
  {
    match f
    case Sabm(m) => if m == 0 || m == n then Foul else Neutral
    case Ua(m) => if m == 0 then LinkUa else if m == n then ChannelUa else Neutral
    case Pn(command, dlci, _) => if dlci / 2 == n && !command then PnAnswer else Neutral
    case Msc(command, dlci, _, _) => if dlci / 8 != n then Neutral else if command then MscOffer else MscAnswer
    case Rpn(command, dlci, _) => if dlci / 8 == n && !command then RpnAnswer else Neutral
    case _ => Neutral
  }

  /** What has arrived before a peer sends this: each answer follows the frame that triggers our command. */
  function Needs(k: Key): (needs: set<Key>)
  {
    match k
    case ChannelUa => {PnAnswer}
    case MscAnswer => {ChannelUa}
    case RpnAnswer => {MscAnswer, MscOffer}
    case _ => {}
  }

  /** What has arrived. */
  function Keys(frames: seq<Frame>, n: nat): (keys: set<Key>)
  {
    set f | f in frames :: KeyOf(f, n)
  }

  /** Whether rfEventHandler gets to its loop. */
  predicate Loops(s: Session, f: Frame)
  {
    Has(AddIfMissing(s, Carrier(f)), Carrier(f)) && !ReturnsEarly(s, f)
  }

  /** The frame gets processChannel called for every channel, with DLC0 up. */
  predicate Turns(s: Session, f: Frame) { Loops(s, f) && Ready(BeforeLoop(s, f)) }

  /** A frame a peer that answers may send next: PN answers come after our PN, which a turn sends. */
  predicate Fair(f: Frame, n: nat, keys: set<Key>, turned: bool)
  {
    KeyOf(f, n) != Foul && Needs(KeyOf(f, n)) <= keys && (KeyOf(f, n) == PnAnswer ==> turned)
  }

  /**
    A session watched while frames arrive: which parts of the handshake of channel n have come, whether a
    frame has reached the loop, and turned a channel with the link up, and whether every frame was fair.
  */
  datatype Watch = Watch(session: Session, keys: set<Key>, looped: bool, turned: bool, fair: bool)

  function Observe(w: Watch, f: Frame, n: nat): (w': Watch)
  {
    Watch(Handle(w.session, f), w.keys + {KeyOf(f, n)}, w.looped || Loops(w.session, f),
          w.turned || Turns(w.session, f), w.fair && Fair(f, n, w.keys, w.turned))
  }

  function Watched(s: Session, frames: seq<Frame>, n: nat): (w: Watch)
    decreases |frames|
  {
    if frames == [] then Watch(s, {}, false, false, true)
    else Observe(Watched(s, frames[..|frames| - 1], n), frames[|frames| - 1], n)
  }

  /** The session is the run of the frames, and the keys are theirs. */
  lemma {:induction false} WatchedIs(s: Session, frames: seq<Frame>, n: nat)
    ensures var w := Watched(s, frames, n);
            w.session == Run(Handle, s, frames) && w.keys == Keys(frames, n)
    decreases |frames|
  {
    if frames != [] {
      var front, f := frames[..|frames| - 1], frames[|frames| - 1];
      WatchedIs(s, front, n);
      assert frames == front + [f];
      assert forall g :: g in frames <==> g in front || g == f;
    }
  }

  /** The peer answers our commands, never opens channel 0 or n itself, and may send anything else. */
  predicate Cooperative(s: Session, frames: seq<Frame>, n: nat) { Watched(s, frames, n).fair }

  const ALL_FIVE: set<Key> := {PnAnswer, ChannelUa, MscAnswer, MscOffer, RpnAnswer}

  /** The state bits of the channel as a function of what has arrived. */
  predicate Tracks(bits: set<Bit>, turned: bool, keys: set<Key>)
  {
    && Incoming !in bits
    && (PnSent in bits <==> turned)
    && (PnAnswered in bits <==> PnAnswer in keys)
    && (SabmDone in bits <==> PnAnswer in keys)
    && (UaDone in bits <==> ChannelUa in keys)
    && (MscSent in bits <==> ChannelUa in keys)
    && (MscAnswered in bits <==> MscAnswer in keys)
    && (MscReceived in bits <==> MscOffer in keys)
    && (MscReplied in bits <==> MscOffer in keys)
    && (RpnSent in bits <==> {MscAnswer, MscOffer} <= keys)
    && (RpnAnswered in bits <==> RpnAnswer in keys)
    && (Open in bits <==> RpnAnswer in keys)
  }

  /** Each key comes with those it needs. */
  predicate Closed(keys: set<Key>, turned: bool)
  {
    && (PnAnswer in keys ==> turned)
    && (ChannelUa in keys ==> PnAnswer in keys)
    && (MscAnswer in keys ==> ChannelUa in keys)
    && (RpnAnswer in keys ==> MscAnswer in keys && MscOffer in keys)
  }

  /** Channel n of the session tracks the keys; DLC0 has sent its SABM and is not incoming. */
  predicate InStep(s: Session, n: nat, keys: set<Key>, turned: bool)
  {
    && Inv(s) && !IsIncoming(s) && n != 0 && Has(s, n) && LinkAsked(s)
    && Closed(keys, turned) && Tracks(BitsOf(s, n), turned, keys) && (turned ==> Ready(s))
  }

  // ---------------------------------------------------------------- one frame, on bits

  function AfterMove(bits: set<Bit>, ready: bool): (after: set<Bit>)
  {
    if ready then bits + RaisedBy(NextMove(bits)) else bits
  }

  /** A turn sends PN, if it is not out; otherwise the channel waits for the peer. */
  lemma TurnInStep(bits: set<Bit>, turned: bool, keys: set<Key>)
    requires Tracks(bits, turned, keys) && Closed(keys, turned)
    ensures Tracks(AfterMove(bits, true), true, keys) && Closed(keys, true)
    ensures turned ==> AfterMove(bits, true) == bits
  {
  }

  /** What stands for the same keys. */
  predicate SameBits(bits: set<Bit>, bits': set<Bit>)
  {
    bits' - {PnReceived, PnReplied, RpnReceived, RpnReplied} == bits - {PnReceived, PnReplied, RpnReceived, RpnReplied}
  }

  lemma SameBitsTrack(bits: set<Bit>, bits': set<Bit>, turned: bool, keys: set<Key>, more: set<Key>)
    requires Tracks(bits, turned, keys) && SameBits(bits, bits') && more <= {LinkUa, Neutral}
    ensures Tracks(bits', turned, keys + more)
  {
    forall b | b !in {PnReceived, PnReplied, RpnReceived, RpnReplied} ensures b in bits' <==> b in bits {
      assert b in bits' <==> b in bits' - {PnReceived, PnReplied, RpnReceived, RpnReplied};
      assert b in bits <==> b in bits - {PnReceived, PnReplied, RpnReceived, RpnReplied};
    }
  }

  lemma PnAnswerTurn(bits: set<Bit>, keys: set<Key>)
    requires Tracks(bits, true, keys) && Closed(keys, true)
    ensures Tracks(AfterMove(bits + {PnAnswered}, true), true, keys + {PnAnswer}) && Closed(keys + {PnAnswer}, true)
  {
  }

  lemma ChannelUaTurn(bits: set<Bit>, keys: set<Key>)
    requires Tracks(bits, true, keys) && Closed(keys, true) && PnAnswer in keys
    ensures Tracks(AfterMove(bits + {UaDone}, true), true, keys + {ChannelUa}) && Closed(keys + {ChannelUa}, true)
  {
  }

  lemma MscAnswerTurn(bits: set<Bit>, keys: set<Key>)
    requires Tracks(bits, true, keys) && Closed(keys, true) && ChannelUa in keys
    ensures Tracks(AfterMove(bits + {MscAnswered}, true), true, keys + {MscAnswer}) && Closed(keys + {MscAnswer}, true)
  {
  }

  /** The peer's MSC command may come at any time, before the link is up too. */
  lemma MscOfferTurn(bits: set<Bit>, turned: bool, ready: bool, keys: set<Key>)
    requires Tracks(bits, turned, keys) && Closed(keys, turned) && (turned ==> ready)
    ensures Tracks(AfterMove(bits + {MscReceived, MscReplied}, ready), ready, keys + {MscOffer})
    ensures Closed(keys + {MscOffer}, ready)
  {
  }

  lemma RpnAnswerTurn(bits: set<Bit>, keys: set<Key>)
    requires Tracks(bits, true, keys) && Closed(keys, true) && {MscAnswer, MscOffer} <= keys
    ensures Tracks(AfterMove(bits + {RpnAnswered}, true), true, keys + {RpnAnswer}) && Closed(keys + {RpnAnswer}, true)
  {
  }

  /** A frame for the channel, and one turn of processChannel, keep it in step. */
  lemma ChannelFrame(bits: set<Bit>, turned: bool, ready: bool, keys: set<Key>, f: Frame, n: nat)
    requires Tracks(bits, turned, keys) && Closed(keys, turned) && Target(f) == n && n != 0 && (turned ==> ready)
    requires Fair(f, n, keys, turned)
    ensures Tracks(AfterMove(bits + Heard(f), ready), ready, keys + {KeyOf(f, n)})
    ensures Closed(keys + {KeyOf(f, n)}, ready)
  {
    match KeyOf(f, n) {
      case PnAnswer => PnAnswerTurn(bits, keys);
      case ChannelUa => ChannelUaTurn(bits, keys);
      case MscAnswer => MscAnswerTurn(bits, keys);
      case MscOffer => MscOfferTurn(bits, turned, ready, keys);
      case RpnAnswer => RpnAnswerTurn(bits, keys);
      case _ => OtherFrame(bits, turned, ready, keys, Heard(f), {Neutral});
    }
  }

  /** Traffic that is no part of the handshake. */
  lemma OtherFrame(bits: set<Bit>, turned: bool, ready: bool, keys: set<Key>, heard: set<Bit>, more: set<Key>)
    requires Tracks(bits, turned, keys) && Closed(keys, turned) && (turned ==> ready)
    requires heard <= {PnReceived, PnReplied, RpnReceived, RpnReplied} && more <= {LinkUa, Neutral}
    ensures Tracks(AfterMove(bits + heard, ready), ready, keys + more) && Closed(keys + more, ready)
  {
    SameBitsTrack(bits, bits + heard, turned, keys, more);
    if ready { TurnInStep(bits + heard, turned, keys + more); }
  }

  // ---------------------------------------------------------------- one frame, on the session

  /** Nothing is left to send on DLC0: our SABM is out, or the peer's is awaited. */
  predicate LinkAsked(s: Session)
  {
    s.slots != [] && s.slots[0].Channel? && (SabmDone in s.slots[0].bits || Incoming in s.slots[0].bits)
  }

  lemma AddEffect(s: Session, m: nat, n: nat)
    requires Inv(s) && Has(s, n)
    ensures var t := AddIfMissing(s, m); Has(t, n) && BitsOf(t, n) == BitsOf(s, n) && t.slots[0] == s.slots[0]
  {
    if !Has(s, m) && FirstFree(s.slots) < |s.slots| {
      AddInv(s, m);
      var k, t := Find(s.slots, n), Add(s, m);
      assert FirstFree(s.slots) != k && FirstFree(s.slots) != 0 && t.slots[k] == s.slots[k];
      FindExact(t.slots, n, k);
    }
  }

  lemma AbsorbEffect(s: Session, f: Frame, n: nat)
    requires Inv(s) && Has(s, n)
    ensures var t := Absorb(s, f);
            && Has(t, n)
            && BitsOf(t, n) == if Effective(s, f) && Target(f) == n then BitsOf(s, n) + Heard(f) else BitsOf(s, n)
  {
    if Effective(s, f) {
      RaiseSlot(s, f);
      AbsorbInv(s, f);
      var k, i, t := Find(s.slots, n), Find(s.slots, Target(f)), Absorb(s, f);
      assert t.slots == Hear(s, f).slots;
      if k != i {
        assert t.slots[k] == s.slots[k];
      }
      FindExact(t.slots, n, k);
    }
  }

  function Processed(c: Slot, ready: bool): (r: set<Bit>)
    requires c.Channel?
  {
    if c.num == 0 then c.bits else AfterMove(c.bits, ready)
  }

  lemma ProcessEffect(s: Session, i: nat)
    requires Inv(s) && LinkAsked(s) && i < |s.slots|
    ensures var t := Process(s, i);
            && LinkAsked(t) && Ready(t) == Ready(s)
            && (forall k | 0 <= k < |s.slots| && k != i :: t.slots[k] == s.slots[k])
            && (s.slots[i].Channel? ==> (
                  t.slots[i].Channel? && t.slots[i].num == s.slots[i].num &&
                  t.slots[i].bits == Processed(s.slots[i], Ready(s))))
  {
  }

  lemma {:induction false} ProcessFromEffect(s: Session, i: nat, k: nat)
    requires Inv(s) && LinkAsked(s) && k < |s.slots| && s.slots[k].Channel?
    ensures var t := ProcessFrom(s, i);
            && |t.slots| == |s.slots| && Ready(t) == Ready(s) && LinkAsked(t)
            && t.slots[k].Channel? && t.slots[k].num == s.slots[k].num
            && t.slots[k].bits == if i <= k then Processed(s.slots[k], Ready(s)) else s.slots[k].bits
    decreases |s.slots| - i
  {
    if i < |s.slots| {
      ProcessEffect(s, i);
      ProcessInv(s, i);
      ProcessFromEffect(Process(s, i), i + 1, k);
    }
  }

  /** The bits of channel n after the loop over all slots. */
  lemma LoopEffect(s: Session, n: nat)
    requires Inv(s) && LinkAsked(s) && Has(s, n) && n != 0
    ensures var t := ProcessFrom(s, 0);
            && Has(t, n) && BitsOf(t, n) == AfterMove(BitsOf(s, n), Ready(s)) && Ready(t) == Ready(s)
            && LinkAsked(t)
  {
    var k := Find(s.slots, n);
    ProcessFromEffect(s, 0, k);
    ProcessFromInv(s, 0);
    FindExact(ProcessFrom(s, 0).slots, n, k);
  }

  /** Everything Handle does before the loop: the target hears the frame, others keep their bits. */
  function BeforeLoop(s: Session, f: Frame): (r: Session)
  {
    var s1 := AddIfMissing(s, Carrier(f));
    if !Has(s1, Carrier(f)) then s1 else Dispatch(s1, f)
  }

  lemma BeforeLoopEffect(s: Session, f: Frame, n: nat)
    requires Inv(s) && Has(s, n) && (n == 0 ==> !f.Pn?)
    ensures var t := BeforeLoop(s, f);
            && Inv(t) && IsIncoming(t) == IsIncoming(s) && Has(t, n)
            && BitsOf(t, n) == if Target(f) == n then BitsOf(s, n) + Heard(f) else BitsOf(s, n)
  {
    FindExact(s.slots, 0, 0);
    var s1 := AddIfMissing(s, Carrier(f));
    AddIfMissingInv(s, Carrier(f));
    AddEffect(s, Carrier(f), n);
    if Has(s1, Carrier(f)) {
      var s2 := if f.Pn? then AddIfMissing(s1, Target(f)) else s1;
      AddIfMissingInv(s1, Target(f));
      AddEffect(s1, Target(f), n);
      AbsorbInv(s2, f);
      AbsorbEffect(s2, f, n);
    }
  }

  lemma PnLeavesLink(s: Session, f: Frame)
    requires Inv(s) && f.Pn?
    ensures var t := BeforeLoop(s, f);
            t.slots != [] && t.slots[0].Channel? && t.slots[0].bits == s.slots[0].bits
  {
    FindExact(s.slots, 0, 0);
    var s1 := AddIfMissing(s, Target(f));
    AddIfMissingInv(s, Target(f));
    AddEffect(s, Target(f), 0);
    AbsorbEffect(s1, f, 0);
    AbsorbInv(s1, f);
    var t := Absorb(s1, f);
    assert t == BeforeLoop(s, f);
    assert BitsOf(t, 0) == BitsOf(s, 0);
    FindExact(t.slots, 0, 0);
  }

  /** DLC0 keeps its bits and hears what is addressed to it. */
  lemma LinkEffect(s: Session, f: Frame)
    requires Inv(s)
    ensures var t := BeforeLoop(s, f);
            && t.slots != [] && t.slots[0].Channel?
            && t.slots[0].bits == if Target(f) == 0 && !f.Pn? then s.slots[0].bits + Heard(f) else s.slots[0].bits
  {
    if f.Pn? {
      PnLeavesLink(s, f);
    } else {
      FindExact(s.slots, 0, 0);
      BeforeLoopEffect(s, f, 0);
      FindExact(BeforeLoop(s, f).slots, 0, 0);
    }
  }

  lemma HandleSplit(s: Session, f: Frame)
    ensures Handle(s, f) == if Loops(s, f) then ProcessFrom(BeforeLoop(s, f), 0) else BeforeLoop(s, f)
  {
  }

  /** DLC0 is not undone by a frame, and is brought up by its UA. */
  lemma LinkAfter(s: Session, f: Frame)
    requires Inv(s) && LinkAsked(s)
    ensures var t := BeforeLoop(s, f);
            && LinkAsked(t) && (Ready(s) ==> Ready(t))
            && (Ready(t) && !Ready(s) ==> f == Ua(0) || f == Sabm(0))
            && (f == Ua(0) && !IsIncoming(s) ==> Ready(t)) && (f == Sabm(0) ==> Ready(t))
  {
    FindExact(s.slots, 0, 0);
    LinkEffect(s, f);
    BeforeLoopEffect(s, if f.Pn? then Ua(0) else f, 0);
    ReadyHere(s);
    BeforeLoopInv(s, f);
    ReadyHere(BeforeLoop(s, f));
  }

  lemma BeforeLoopInv(s: Session, f: Frame)
    requires Inv(s)
    ensures Inv(BeforeLoop(s, f)) && IsIncoming(BeforeLoop(s, f)) == IsIncoming(s)
  {
    var s1 := AddIfMissing(s, Carrier(f));
    AddIfMissingInv(s, Carrier(f));
    if Has(s1, Carrier(f)) {
      AddIfMissingInv(s1, Target(f));
      AbsorbInv(if f.Pn? then AddIfMissing(s1, Target(f)) else s1, f);
    }
  }

  /** Frames that do not reach the loop raise nothing on the channel and are no part of its handshake. */
  lemma NoLoop(s: Session, f: Frame, n: nat)
    requires Inv(s) && Has(s, n) && n != 0 && KeyOf(f, n) != Foul && !Loops(s, f)
    ensures KeyOf(f, n) == Neutral && (Target(f) == n ==> Heard(f) == {})
  {
    FindExact(s.slots, 0, 0);
  }

  /** The bits of channel n once the frame is heard. */
  function Hearing(s: Session, f: Frame, n: nat): (bits: set<Bit>)
  {
    if Target(f) == n then BitsOf(s, n) + Heard(f) else BitsOf(s, n)
  }

  /** What one frame does to channel n and to DLC0. */
  lemma HandleEffect(s: Session, f: Frame, n: nat)
    requires Inv(s) && LinkAsked(s) && Has(s, n) && n != 0
    ensures var t := Handle(s, f);
            && Inv(t) && IsIncoming(t) == IsIncoming(s) && Has(t, n) && LinkAsked(t)
            && Ready(t) == Ready(BeforeLoop(s, f)) && (Ready(s) ==> Ready(t))
            && (Ready(t) && !Ready(s) ==> f == Ua(0) || f == Sabm(0)) && (f == Sabm(0) ==> Ready(t))
            && BitsOf(t, n) == if Loops(s, f) then AfterMove(Hearing(s, f, n), Ready(t)) else Hearing(s, f, n)
  {
    HandleSplit(s, f);
    HandleInv(s, f);
    LinkAfter(s, f);
    BeforeLoopInv(s, f);
    BeforeLoopEffect(s, f, n);
    if Loops(s, f) { LoopEffect(BeforeLoop(s, f), n); }
  }

  /** The bits and keys after a frame that reaches the loop, or does not. */
  lemma BitsInStep(bits: set<Bit>, turned: bool, ready: bool, keys: set<Key>, f: Frame, n: nat, loops: bool)
    requires Tracks(bits, turned, keys) && Closed(keys, turned) && n != 0 && (turned ==> ready)
             && Fair(f, n, keys, turned)
    requires !loops ==> KeyOf(f, n) == Neutral && (Target(f) == n ==> Heard(f) == {})
    ensures var heard := if Target(f) == n then bits + Heard(f) else bits;
            && Tracks(if loops then AfterMove(heard, ready) else heard,
                      turned || (loops && ready), keys + {KeyOf(f, n)})
            && Closed(keys + {KeyOf(f, n)}, turned || (loops && ready))
  {
    assert bits + {} == bits;
    if loops && Target(f) == n {
      ChannelFrame(bits, turned, ready, keys, f, n);
    } else if loops {
      OtherFrame(bits, turned, ready, keys, {}, {KeyOf(f, n)});
    } else {
      SameBitsTrack(bits, bits, turned, keys, {Neutral});
    }
  }

  /** One frame keeps the channel in step. */
  lemma FrameInStep(s: Session, f: Frame, n: nat, keys: set<Key>, turned: bool)
    requires InStep(s, n, keys, turned) && Fair(f, n, keys, turned)
    ensures InStep(Handle(s, f), n, keys + {KeyOf(f, n)}, turned || Turns(s, f))
  {
    HandleEffect(s, f, n);
    if !Loops(s, f) { NoLoop(s, f, n); }
    BitsInStep(BitsOf(s, n), turned, Ready(Handle(s, f)), keys, f, n, Loops(s, f));
  }

  // ---------------------------------------------------------------- whole runs

  /** A channel just added: nothing sent or received yet. */
  predicate Fresh(s: Session, n: nat)
  {
    Inv(s) && !IsIncoming(s) && n != 0 && Has(s, n) && BitsOf(s, n) == {} && LinkAsked(s)
  }

  predicate WatchInStep(w: Watch, n: nat) { w.fair ==> InStep(w.session, n, w.keys, w.turned) }

  lemma ObserveInStep(w: Watch, f: Frame, n: nat)
    requires WatchInStep(w, n)
    ensures WatchInStep(Observe(w, f, n), n)
  {
    if Observe(w, f, n).fair { FrameInStep(w.session, f, n, w.keys, w.turned); }
  }

  lemma {:induction false} RunInStep(s: Session, n: nat, frames: seq<Frame>)
    requires Fresh(s, n)
    ensures WatchInStep(Watched(s, frames, n), n)
    decreases |frames|
  {
    if frames != [] {
      RunInStep(s, n, frames[..|frames| - 1]);
      ObserveInStep(Watched(s, frames[..|frames| - 1], n), frames[|frames| - 1], n);
    }
  }

  /**
    From a fresh channel, whatever else arrives in between, the channel is OPEN exactly when a turn has sent
    our PN and the peer's five frames have arrived, its MSC command at any place.
  */
  lemma OpenExactly(s: Session, n: nat, frames: seq<Frame>)
    requires Fresh(s, n) && Cooperative(s, frames, n)
    ensures var w := Watched(s, frames, n);
            Open in BitsOf(w.session, n) <==> w.turned && ALL_FIVE <= w.keys
  {
    RunInStep(s, n, frames);
  }

  /** At every moment of such a run our next command is out as soon as its trigger has arrived. */
  lemma CommandsFollow(s: Session, n: nat, frames: seq<Frame>)
    requires Fresh(s, n) && Cooperative(s, frames, n)
    ensures var w := Watched(s, frames, n);
            var bits := BitsOf(w.session, n);
            && (PnSent in bits <==> w.turned)
            && (SabmDone in bits <==> PnAnswer in w.keys)
            && (MscSent in bits <==> ChannelUa in w.keys)
            && (RpnSent in bits <==> {MscAnswer, MscOffer} <= w.keys)
  {
    RunInStep(s, n, frames);
  }

  // ---------------------------------------------------------------- the first channel of a session

  /** The session right after its link came up: DLC0's SABM is out. */
  function Linked(n: nat, client: bool): (s: Session)
  {
    Step(NewOutgoing(n, client), LinkUp)
  }

  lemma LinkedFresh(n: nat, client: bool)
    requires n != 0
    ensures Fresh(Linked(n, client), n) && !Ready(Linked(n, client))
  {
    var s := NewOutgoing(n, client);
    OutgoingInv(n, client);
    FirstSlot(client);
    assert s.slots == [Channel(0, {}, OUR_PRIORITY, OUR_MTU), Channel(n, {}, OUR_PRIORITY, OUR_MTU), Free, Free, Free];
    FindExact(s.slots, 0, 0);
    ProcessInv(s, 0);
    var t := Process(s, 0);
    assert {} + {SabmDone} == {SabmDone};
    assert t.slots == [Channel(0, {SabmDone}, OUR_PRIORITY, OUR_MTU), Channel(n, {}, OUR_PRIORITY, OUR_MTU),
                       Free, Free, Free];
    FindExact(t.slots, n, 1);
    ReadyHere(t);
  }

  lemma LinkUaTurns(s: Session, f: Frame, n: nat)
    requires Inv(s) && !IsIncoming(s) && LinkAsked(s) && Has(s, n) && n != 0 && KeyOf(f, n) != Foul
    ensures Ready(Handle(s, f)) <==> Ready(s) || f == Ua(0)
    ensures !Ready(s) ==> (Turns(s, f) <==> f == Ua(0))
    ensures f == Ua(0) <==> KeyOf(f, n) == LinkUa
  {
    HandleEffect(s, f, n);
    LinkAfter(s, f);
    FindExact(s.slots, 0, 0);
  }

  predicate LinkTold(w: Watch)
  {
    w.fair ==> (w.turned <==> LinkUa in w.keys) && (Ready(w.session) <==> LinkUa in w.keys)
  }

  lemma ObserveLink(w: Watch, f: Frame, n: nat)
    requires WatchInStep(w, n) && LinkTold(w)
    ensures LinkTold(Observe(w, f, n))
  {
    if Observe(w, f, n).fair { LinkUaTurns(w.session, f, n); }
  }

  /** Until the UA of DLC0 comes nothing turns; its arrival does. */
  lemma {:induction false} TurnedByLinkUa(s: Session, n: nat, frames: seq<Frame>)
    requires Fresh(s, n) && !Ready(s)
    ensures LinkTold(Watched(s, frames, n))
    decreases |frames|
  {
    if frames != [] {
      var front := frames[..|frames| - 1];
      RunInStep(s, n, front);
      TurnedByLinkUa(s, n, front);
      ObserveLink(Watched(s, front, n), frames[|frames| - 1], n);
    }
  }

  const ALL_SIX: set<Key> := {LinkUa} + ALL_FIVE

  /**
    For the first channel of a session the turn is the UA of DLC0: the channel is OPEN exactly when the
    six frames of the handshake have arrived.
  */
  lemma HandshakeProgress(n: nat, client: bool, frames: seq<Frame>)
    requires n != 0 && Cooperative(Linked(n, client), frames, n)
    ensures Open in BitsOf(Run(Handle, Linked(n, client), frames), n) <==> ALL_SIX <= Keys(frames, n)
  {
    var s := Linked(n, client);
    LinkedFresh(n, client);
    OpenExactly(s, n, frames);
    TurnedByLinkUa(s, n, frames);
    WatchedIs(s, frames, n);
  }

  // ---------------------------------------------------------------- a channel opened later

  /** Opening a channel on a live session adds it, when there is room, and sends nothing. */
  lemma OpenedFresh(s: Session, n: nat)
    requires Inv(s) && !IsIncoming(s) && LinkAsked(s) && n != 0 && !Has(s, n) && FirstFree(s.slots) < |s.slots|
    ensures var t := Step(s, OpenChannel(n));
            Fresh(t, n) && t.trace == s.trace + [Added(n)] && (Ready(s) ==> Ready(t))
  {
    AddInv(s, n);
    var t := Add(s, n);
    FindExact(t.slots, n, FirstFree(s.slots));
    FindExact(s.slots, 0, 0);
    ReadyHere(s);
    ReadyHere(t);
  }

  predicate LoopsTurn(w: Watch) { w.fair ==> Ready(w.session) && (w.turned <==> w.looped) }

  lemma ObserveLoop(w: Watch, f: Frame, n: nat)
    requires WatchInStep(w, n) && LoopsTurn(w)
    ensures LoopsTurn(Observe(w, f, n))
  {
    if Observe(w, f, n).fair { HandleEffect(w.session, f, n); }
  }

  /** With the link up, a turn is a frame that reaches the loop. */
  lemma {:induction false} TurnedByLoop(s: Session, n: nat, frames: seq<Frame>)
    requires Fresh(s, n) && Ready(s)
    ensures LoopsTurn(Watched(s, frames, n))
    decreases |frames|
  {
    if frames != [] {
      var front := frames[..|frames| - 1];
      RunInStep(s, n, front);
      TurnedByLoop(s, n, front);
      ObserveLoop(Watched(s, front, n), frames[|frames| - 1], n);
    }
  }

  /** PN is the first command of a channel. */
  lemma NoPnNoCommand(s: Session, n: nat)
    requires Inv(s) && n != 0 && Has(s, n)
    ensures PnSent !in BitsOf(s, n) ==> Commands(s.trace, n) == []
  {
    var c := s.slots[Find(s.slots, n)];
    assert SlotOk(c, s.trace, Ready(s), IsIncoming(s));
  }

  /**
    A channel opened on a session whose link is up: our PN is out exactly when a frame has reached the loop
    since; until then no command of the channel is; and it is OPEN exactly when in addition the peer's five
    frames have arrived.
  */
  lemma LaterChannelProgress(s: Session, n: nat, frames: seq<Frame>)
    requires Inv(s) && !IsIncoming(s) && Ready(s) && n != 0 && !Has(s, n) && FirstFree(s.slots) < |s.slots|
    requires Cooperative(Step(s, OpenChannel(n)), frames, n)
    ensures var w := Watched(Step(s, OpenChannel(n)), frames, n);
            && (PnSent in BitsOf(w.session, n) <==> w.looped)
            && (!w.looped ==> Commands(w.session.trace, n) == [])
            && (Open in BitsOf(w.session, n) <==> w.looped && ALL_FIVE <= w.keys)
  {
    ReadyHere(s);
    OpenedFresh(s, n);
    var t := Step(s, OpenChannel(n));
    RunInStep(t, n, frames);
    OpenExactly(t, n, frames);
    TurnedByLoop(t, n, frames);
    NoPnNoCommand(Watched(t, frames, n).session, n);
  }
}
