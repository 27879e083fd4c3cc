/**
  What an RFCOMM session sends, frame by frame, in every run: each frame names the channel it is sent for,
  our commands carry the parameters of that channel, and each answer follows the command it answers and
  gives back what that command said.
*/
module RfcommSends {
  import opened Bytes
  import opened Folds
  import opened RfcommFrames
  import opened RfcommOrder
  import opened RfcommSafety
  import opened RfcommSession

  // ---------------------------------------------------------------- the parameters of a channel

  datatype Params = Params(priority: byte, mtu: word)

  /** Priority 7 and MTU 0x200, until a PN command for the channel says otherwise. */
  function ParamsAt(trace: seq<Act>, n: nat): (p: Params)
    decreases |trace|
  {
    if trace == [] then Params(7, 0x200) else NextParams(ParamsAt(trace[..|trace| - 1], n), trace[|trace| - 1], n)
  }

  function NextParams(p: Params, a: Act, n: nat): (q: Params)
  {
    match a
    case Added(m) => if m == n then Params(7, 0x200) else p
    case Got(Pn(true, dlci, params)) =>
      if dlci / 2 == n && n != 0 then Params(params.priority, params.mtu) else p
    case _ => p
  }

  lemma ParamsSnoc(trace: seq<Act>, a: Act, n: nat)
    ensures ParamsAt(trace + [a], n) == NextParams(ParamsAt(trace, n), a, n)
  {
    assert (trace + [a])[..|trace|] == trace;
  }

  // ---------------------------------------------------------------- what a frame has to say

  /** A byte with its lowest bit set. */
  function Odd(b: byte): (r: byte) { if b % 2 == 0 then b + 1 else b }

  /** a answers the received frame f: UA to SABM, and to a control command its own contents. */
  predicate IsAnswer(f: Frame, a: Act)
  {
    a.Sent? &&
    match f
    case Sabm(n) => a.n == n && a.frame == Ua(n)
    case Pn(true, dlci, p) =>
      a.n == dlci / 2 && a.frame == Pn(false, dlci, PnParams(0, p.priority, p.timer, p.mtu, p.retries, p.window))
    case Msc(true, dlci, signals, None) =>
      a.n == dlci / 8 && a.frame == Msc(false, 8 * (dlci / 8) + 3, signals, None)
    case Msc(true, dlci, signals, Some(b)) =>
      a.n == dlci / 8 && a.frame == Msc(false, 8 * (dlci / 8) + 3, signals, Some(Odd(b)))
    case Rpn(true, dlci, rest) => a.n == dlci / 8 && a.frame == Rpn(false, dlci, rest)
    case _ => false
  }

  /** The frames that ask for an answer. */
  predicate Asks(f: Frame)
  {
    f.Sabm? || (f.Pn? && f.command) || (f.Msc? && f.command) || (f.Rpn? && f.command)
  }

  /** Our commands for channel n with parameters p, and client data. */
  predicate IsOwn(f: Frame, n: nat, p: Params)
  {
    match f
    case Sabm(m) => m == n
    case Pn(true, dlci, params) => dlci == (2 * n) % 256 && params == PnParams(0, p.priority, 0, p.mtu, 0, 7)
    case Msc(true, dlci, signals, breaks) => dlci == (8 * n + 3) % 256 && signals == 0x8C && breaks == None
    case Rpn(true, dlci, rest) => dlci == (8 * n + 3) % 256 && rest == [0x07, 0, 0, 0, 0, 0x7F, 0x3F]
    case Data(m, _) => m == n
    case _ => false
  }

  /** Control messages are commands on the outside when the session is ours; the other frames always are. */
  predicate OuterBit(a: Act, incoming: bool)
    requires a.Sent?
  {
    a.command == (a.frame.Sabm? || a.frame.Ua? || a.frame.Data? || !incoming)
  }

  /** A frame may be sent after a history: it is our own, or it answers the act just before it. */
  predicate Right(history: seq<Act>, a: Act, incoming: bool)
  {
    a.Sent? ==>
      && OuterBit(a, incoming)
      && (|| IsOwn(a.frame, a.n, ParamsAt(history, a.n))
          || (history != [] && history[|history| - 1].Got? && IsAnswer(history[|history| - 1].frame, a)))
  }

  predicate AllRight(trace: seq<Act>, incoming: bool)
    decreases |trace|
  {
    trace == [] ||
    (AllRight(trace[..|trace| - 1], incoming) && Right(trace[..|trace| - 1], trace[|trace| - 1], incoming))
  }

  lemma RightSnoc(trace: seq<Act>, a: Act, incoming: bool)
    ensures AllRight(trace + [a], incoming) <==> AllRight(trace, incoming) && Right(trace, a, incoming)
  {
    assert (trace + [a])[..|trace|] == trace;
  }

  lemma {:induction false} RightAt(trace: seq<Act>, incoming: bool, k: nat)
    requires AllRight(trace, incoming) && k < |trace|
    ensures Right(trace[..k], trace[k], incoming)
    decreases |trace|
  {
    var n := |trace| - 1;
    if k < n {
      RightAt(trace[..n], incoming, k);
      assert trace[..n][..k] == trace[..k];
    }
  }

  /** Every command that came was answered at once. */
  predicate AllAnswered(trace: seq<Act>)
  {
    forall k | 0 <= k < |trace| && trace[k].Got? && Asks(trace[k].frame) ::
      k + 1 < |trace| && IsAnswer(trace[k].frame, trace[k + 1])
  }

  lemma AnsweredSnoc(trace: seq<Act>, a: Act)
    requires AllAnswered(trace) && !(a.Got? && Asks(a.frame))
    ensures AllAnswered(trace + [a])
  {
  }

  lemma AnsweredPair(trace: seq<Act>, f: Frame, a: Act)
    requires AllAnswered(trace) && IsAnswer(f, a)
    ensures AllAnswered(trace + [Got(f), a])
  {
    var t := trace + [Got(f), a];
    forall k | 0 <= k < |t| && t[k].Got? && Asks(t[k].frame)
      ensures k + 1 < |t| && IsAnswer(t[k].frame, t[k + 1])
    {
      if k < |trace| { assert t[k] == trace[k] && t[k + 1] == trace[k + 1]; }
    }
  }

  // ---------------------------------------------------------------- the law of a session

  predicate SlotParams(c: Slot, trace: seq<Act>) { c.Channel? ==> Params(c.priority, c.mtu) == ParamsAt(trace, c.num) }

  predicate Configured(s: Session) { forall i | 0 <= i < |s.slots| :: SlotParams(s.slots[i], s.trace) }

  predicate Law(s: Session)
  {
    Inv(s) && AllRight(s.trace, IsIncoming(s)) && AllAnswered(s.trace) && Configured(s)
  }

  /** One of our own frames, and a slot that keeps its parameters. */
  lemma OwnKeeps(s: Session, i: nat, bits: set<Bit>, a: Act, t: Session)
    requires Law(s) && Inv(t) && IsIncoming(t) == IsIncoming(s) && i < |s.slots| && s.slots[i].Channel?
    requires t == s.(slots := s.slots[i := s.slots[i].(bits := bits)], trace := s.trace + [a])
    requires a.Sent? && Right(s.trace, a, IsIncoming(s))
    ensures Law(t)
  {
    RightSnoc(s.trace, a, IsIncoming(s));
    AnsweredSnoc(s.trace, a);
    forall k | 0 <= k < |t.slots| ensures SlotParams(t.slots[k], t.trace) {
      assert SlotParams(s.slots[k], s.trace);
      if s.slots[k].Channel? { ParamsSnoc(s.trace, a, s.slots[k].num); }
    }
  }

  lemma BitsKeep(s: Session, i: nat, bits: set<Bit>, t: Session)
    requires Law(s) && Inv(t) && IsIncoming(t) == IsIncoming(s) && i < |s.slots| && s.slots[i].Channel?
    requires t == s.(slots := s.slots[i := s.slots[i].(bits := bits)])
    ensures Law(t)
  {
    forall k | 0 <= k < |t.slots| ensures SlotParams(t.slots[k], t.trace) {
      assert SlotParams(s.slots[k], s.trace);
    }
  }

  /** What processChannel sends for a channel is its own. */
  lemma MoveIsOwn(m: Move, c: Slot)
    requires c.Channel? && FrameOf(m, c).Some?
    ensures IsOwn(FrameOf(m, c).value, c.num, Params(c.priority, c.mtu))
  {
  }

  lemma MoveIsCommand(m: Move, c: Slot)
    requires c.Channel? && FrameOf(m, c).Some?
    ensures !FrameOf(m, c).value.Ua? && !FrameOf(m, c).value.Data?
  {
  }

  lemma MoveRight(s: Session, i: nat, m: Move, a: Act)
    requires Law(s) && i < |s.slots| && s.slots[i].Channel? && SentBy(m, s.slots[i]) == [a]
    ensures a.Sent? && Right(s.trace, a, IsIncoming(s))
  {
    var c := s.slots[i];
    SlotHistory(s, i);
    assert SlotParams(c, s.trace);
    MoveIsOwn(m, c);
    MoveIsCommand(m, c);
  }

  lemma ProcessLaw(s: Session, i: nat)
    requires Law(s) && i < |s.slots|
    ensures Law(Process(s, i))
  {
    ProcessInv(s, i);
    var c, t := s.slots[i], Process(s, i);
    if c.Channel? && c.num == 0 {
      if Incoming !in c.bits && SabmDone !in c.bits {
        OwnKeeps(s, i, c.bits + {SabmDone}, Sent(0, Sabm(0), true), t);
      }
    } else if c.Channel? && Ready(s) {
      var m := NextMove(c.bits);
      if FrameOf(m, c).Some? {
        MoveRight(s, i, m, SentBy(m, c)[0]);
        OwnKeeps(s, i, c.bits + RaisedBy(m), SentBy(m, c)[0], t);
      } else {
        assert s.trace + [] == s.trace;
        BitsKeep(s, i, c.bits + RaisedBy(m), t);
      }
    }
  }

  lemma {:induction false} ProcessFromLaw(s: Session, i: nat)
    requires Law(s)
    ensures Law(ProcessFrom(s, i))
    decreases |s.slots| - i
  {
    if i < |s.slots| {
      ProcessLaw(s, i);
      ProcessFromLaw(Process(s, i), i + 1);
    }
  }

  /** An act that neither sends nor asks, and slots whose parameters it does not concern. */
  lemma NoteKeeps(s: Session, a: Act, t: Session)
    requires Law(s) && Inv(t) && IsIncoming(t) == IsIncoming(s) && t.trace == s.trace + [a] && (a.Added? || a.Removed?)
    requires |t.slots| == |s.slots|
    requires forall k | 0 <= k < |t.slots| && t.slots[k].Channel? ::
               || (t.slots[k] == s.slots[k] && !(a.Added? && a.n == t.slots[k].num))
               || (a.Added? && a.n == t.slots[k].num && t.slots[k].priority == 7 && t.slots[k].mtu == 0x200)
    ensures Law(t)
  {
    RightSnoc(s.trace, a, IsIncoming(s));
    AnsweredSnoc(s.trace, a);
    forall k | 0 <= k < |t.slots| ensures SlotParams(t.slots[k], t.trace) {
      assert SlotParams(s.slots[k], s.trace);
      if t.slots[k].Channel? { ParamsSnoc(s.trace, a, t.slots[k].num); }
    }
  }

  lemma AddLaw(s: Session, n: nat)
    requires Law(s)
    ensures Law(AddIfMissing(s, n))
  {
    AddIfMissingInv(s, n);
    if !Has(s, n) && FirstFree(s.slots) < |s.slots| {
      NoteKeeps(s, Added(n), Add(s, n));
    }
  }

  /** The answer a session gives is the right one, with the right outer bit. */
  lemma ReplyAnswers(f: Frame, command: bool)
    requires Reply(f).Some?
    ensures Asks(f) && IsAnswer(f, Sent(Target(f), Reply(f).value, command))
  {
  }

  lemma NoReplyNoAsk(f: Frame)
    requires Reply(f).None?
    ensures !Asks(f)
  {
  }

  lemma AnswerRight(history: seq<Act>, f: Frame, a: Act, incoming: bool)
    requires history != [] && history[|history| - 1] == Got(f) && IsAnswer(f, a) && OuterBit(a, incoming)
    ensures Right(history, a, incoming)
  {
  }

  lemma ActsRight(trace: seq<Act>, f: Frame, command: bool, incoming: bool)
    requires AllRight(trace, incoming) && AllAnswered(trace)
    requires Reply(f).Some? ==> command == (Reply(f).value.Ua? || !incoming)
    ensures AllRight(trace + Acts(f, command), incoming) && AllAnswered(trace + Acts(f, command))
  {
    RightSnoc(trace, Got(f), incoming);
    if Reply(f).Some? {
      ReplyAnswers(f, command);
      ReplyPlain(f);
      PairRight(trace, f, Sent(Target(f), Reply(f).value, command), incoming);
    } else {
      NoReplyNoAsk(f);
      AnsweredSnoc(trace, Got(f));
    }
  }

  lemma ReplyPlain(f: Frame)
    requires Reply(f).Some?
    ensures !Reply(f).value.Sabm? && !Reply(f).value.Data?
  {
  }

  lemma PairRight(trace: seq<Act>, f: Frame, a: Act, incoming: bool)
    requires AllRight(trace + [Got(f)], incoming) && AllAnswered(trace)
    requires IsAnswer(f, a) && OuterBit(a, incoming)
    ensures AllRight(trace + [Got(f), a], incoming) && AllAnswered(trace + [Got(f), a])
  {
    assert (trace + [Got(f)]) + [a] == trace + [Got(f), a];
    AnswerRight(trace + [Got(f)], f, a, incoming);
    RightSnoc(trace + [Got(f)], a, incoming);
    AnsweredPair(trace, f, a);
  }

  lemma ActsParams(trace: seq<Act>, f: Frame, command: bool, n: nat)
    ensures ParamsAt(trace + Acts(f, command), n) == NextParams(ParamsAt(trace, n), Got(f), n)
  {
    ParamsSnoc(trace, Got(f), n);
    if Reply(f).Some? {
      var a := Sent(Target(f), Reply(f).value, command);
      assert (trace + [Got(f)]) + [a] == trace + [Got(f), a];
      ParamsSnoc(trace + [Got(f)], a, n);
    }
  }

  /** A PN command sets the parameters of its channel; nothing else does. */
  lemma HeardParams(s: Session, f: Frame)
    requires TableOk(s.slots) && Effective(s, f)
    ensures var i := Find(s.slots, Target(f));
            var c := Absorb(s, f).slots[i];
            && c.Channel?
            && c.priority == (if f.Pn? && f.command then f.params.priority else s.slots[i].priority)
            && c.mtu == (if f.Pn? && f.command then f.params.mtu else s.slots[i].mtu)
  {
  }

  /** A slot before and after a frame was heard. */
  lemma HeardSlot(c: Slot, c': Slot, trace: seq<Act>, f: Frame, command: bool)
    requires SlotParams(c, trace) && (c.Channel? <==> c'.Channel?) && (c.Channel? ==> c'.num == c.num)
    requires c.Channel? && (!f.Pn? || !f.command || Target(f) != c.num || c.num == 0) ==>
               c'.priority == c.priority && c'.mtu == c.mtu
    requires c.Channel? && f.Pn? && f.command && Target(f) == c.num && c.num != 0 ==>
               c'.priority == f.params.priority && c'.mtu == f.params.mtu
    ensures SlotParams(c', trace + Acts(f, command))
  {
    if c.Channel? { ActsParams(trace, f, command, c.num); }
  }

  lemma OtherSlot(s: Session, f: Frame, i: nat, k: nat)
    requires TableOk(s.slots) && i < |s.slots| && IsChannel(s.slots[i], Target(f)) && k < |s.slots| && k != i
    ensures s.slots[k].Channel? ==> s.slots[k].num != Target(f)
  {
    var low, high := if i < k then i else k, if i < k then k else i;
    assert s.slots[low].Channel? && s.slots[high].Channel? ==> s.slots[low].num != s.slots[high].num;
  }

  lemma AbsorbLaw(s: Session, f: Frame)
    requires Law(s)
    ensures Law(Absorb(s, f))
  {
    AbsorbInv(s, f);
    if Effective(s, f) {
      var i, command := Find(s.slots, Target(f)), Reply(f).Some? && AnswersAsCommand(s, f);
      AbsorbIs(s, f);
      HeardParams(s, f);
      SlotHistory(s, i);
      ActsRight(s.trace, f, command, IsIncoming(s));
      AbsorbParams(s, f, i, command, Absorb(s, f));
    }
  }

  lemma AbsorbParams(s: Session, f: Frame, i: nat, command: bool, t: Session)
    requires TableOk(s.slots) && Configured(s) && i < |s.slots| && IsChannel(s.slots[i], Target(f))
    requires |t.slots| == |s.slots| && IsChannel(t.slots[i], Target(f)) && !(f.Pn? && Target(f) == 0)
    requires t == s.(slots := s.slots[i := t.slots[i]], trace := s.trace + Acts(f, command))
    requires t.slots[i].priority == if f.Pn? && f.command then f.params.priority else s.slots[i].priority
    requires t.slots[i].mtu == if f.Pn? && f.command then f.params.mtu else s.slots[i].mtu
    ensures Configured(t)
  {
    forall k | 0 <= k < |t.slots| ensures SlotParams(t.slots[k], t.trace) {
      assert SlotParams(s.slots[k], s.trace);
      if k != i { OtherSlot(s, f, i, k); }
      HeardSlot(s.slots[k], t.slots[k], s.trace, f, command);
    }
  }

  lemma HandleLaw(s: Session, f: Frame)
    requires Law(s)
    ensures Law(Handle(s, f))
  {
    AddLaw(s, Carrier(f));
    var s1 := AddIfMissing(s, Carrier(f));
    if Has(s1, Carrier(f)) {
      AddLaw(s1, Target(f));
      var s2 := if f.Pn? then AddIfMissing(s1, Target(f)) else s1;
      AbsorbLaw(s2, f);
      ProcessFromLaw(Absorb(s2, f), 0);
    }
  }

  lemma DataRight(s: Session, i: nat, payload: seq<byte>)
    requires Law(s)
    ensures Law(Step(s, SendData(i, payload)))
  {
    StepInv(s, SendData(i, payload));
    if i < |s.slots| && s.slots[i].Channel? && s.slots[i].num != 0 && Open in s.slots[i].bits {
      var c := s.slots[i];
      assert s.slots[i := c] == s.slots;
      OwnKeeps(s, i, c.bits, Sent(c.num, Data(c.num, payload), true), Step(s, SendData(i, payload)));
    }
  }

  lemma StepLaw(s: Session, e: Event)
    requires Law(s)
    ensures Law(Step(s, e))
  {
    StepInv(s, e);
    match e {
      case LinkUp =>
        FindExact(s.slots, 0, 0);
        ProcessLaw(s, 0);
      case Receive(f) => HandleLaw(s, f);
      case OpenChannel(n) => AddLaw(s, n);
      case CloseChannel(i) =>
        if i < |s.slots| && s.slots[i].Channel? && s.slots[i].num != 0 {
          NoteKeeps(s, Removed(s.slots[i].num), Step(s, e));
        }
      case SendData(i, payload) => DataRight(s, i, payload);
    }
  }

  // ---------------------------------------------------------------- every run

  lemma BareLaw(s: Session, bits: set<Bit>)
    requires s.trace == [Added(0)] && bits <= {Incoming}
    requires s.slots == [Channel(0, bits, OUR_PRIORITY, OUR_MTU), Free, Free, Free, Free]
    ensures Law(s)
  {
    BareInv(s, bits);
    RightSnoc([], Added(0), IsIncoming(s));
    ParamsSnoc([], Added(0), 0);
    assert [] + [Added(0)] == [Added(0)];
  }

  lemma OutgoingLaw(n: nat, client: bool)
    requires n != 0
    ensures Law(NewOutgoing(n, client))
  {
    var s0 := Add(Session(EMPTY_TABLE, [], client), 0);
    FirstSlot(client);
    BareLaw(s0, {});
    NotThere(s0, n);
    AddLaw(s0, n);
  }

  lemma NotThere(s: Session, n: nat)
    requires n != 0 && s.slots == [Channel(0, {}, OUR_PRIORITY, OUR_MTU), Free, Free, Free, Free]
    ensures !Has(s, n)
  {
  }

  lemma IncomingLaw(client: bool)
    ensures Law(NewIncoming(client))
  {
    var s0 := Add(Session(EMPTY_TABLE, [], client), 0);
    FirstSlot(client);
    BareLaw(s0, {});
    FindExact(s0.slots, 0, 0);
    assert {} + {Incoming} == {Incoming};
    assert NewIncoming(client) == s0.(slots := s0.slots[0 := s0.slots[0].(bits := {Incoming})]);
    BareLaw(NewIncoming(client), {Incoming});
  }

  lemma StartLaw(s: Session)
    requires IsStart(s)
    ensures Law(s)
  {
    if n: nat :| n != 0 && s == NewOutgoing(n, s.client) {
      OutgoingLaw(n, s.client);
    } else {
      IncomingLaw(s.client);
    }
  }

  lemma {:induction false} RunLaw(start: Session, events: seq<Event>)
    requires IsStart(start)
    ensures Law(Run(Step, start, events)) && IsIncoming(Run(Step, start, events)) == IsIncoming(start)
    decreases |events|
  {
    StartLaw(start);
    if events != [] {
      var n := |events| - 1;
      RunLaw(start, events[..n]);
      StepLaw(Run(Step, start, events[..n]), events[n]);
      StepInv(Run(Step, start, events[..n]), events[n]);
    }
  }

  /**
    Every frame of every run is our own, for the channel it is sent for and with that channel's parameters, or
    it answers the frame received just before it; and its outer command bit is right.
  */
  lemma FramesAreRight(start: Session, events: seq<Event>, k: nat)
    requires IsStart(start) && k < |Run(Step, start, events).trace|
    ensures var trace := Run(Step, start, events).trace; Right(trace[..k], trace[k], IsIncoming(start))
  {
    RunLaw(start, events);
    RightAt(Run(Step, start, events).trace, IsIncoming(start), k);
  }

  /** And every SABM, and every PN, MSC and RPN command that was taken, was answered by the very next act. */
  lemma CommandsAreAnswered(start: Session, events: seq<Event>, k: nat)
    requires IsStart(start) && k < |Run(Step, start, events).trace|
    requires var a := Run(Step, start, events).trace[k]; a.Got? && Asks(a.frame)
    ensures var trace := Run(Step, start, events).trace;
            k + 1 < |trace| && IsAnswer(trace[k].frame, trace[k + 1])
  {
    RunLaw(start, events);
  }

  /** So a frame sent for a channel names that channel, on the inside and, where it has an address of its own, there. */
  lemma FramesNameTheirChannel(start: Session, events: seq<Event>, k: nat)
    requires IsStart(start) && k < |Run(Step, start, events).trace|
    requires var a := Run(Step, start, events).trace[k]; a.Sent? && a.n < 32
    ensures var a := Run(Step, start, events).trace[k];
            && Target(a.frame) == a.n
            && (a.frame.Sabm? || a.frame.Ua? || a.frame.Data? ==> Carrier(a.frame) == a.n)
            && (a.frame.Pn? || a.frame.Msc? || a.frame.Rpn? ==> Carrier(a.frame) == 0)
  {
    FramesAreRight(start, events, k);
    var trace := Run(Step, start, events).trace;
    RightNames(trace[..k], trace[k], IsIncoming(start));
  }

  lemma RightNames(history: seq<Act>, a: Act, incoming: bool)
    requires Right(history, a, incoming) && a.Sent? && a.n < 32
    ensures Target(a.frame) == a.n
    ensures a.frame.Sabm? || a.frame.Ua? || a.frame.Data? ==> Carrier(a.frame) == a.n
  {
  }

  // ---------------------------------------------------------------- what does not reach the loop

  /** SABM for a channel that is there is answered by UA, and nothing else is sent. */
  lemma SabmAnsweredAlone(s: Session, n: nat)
    requires Inv(s) && Has(s, n)
    ensures Handle(s, Sabm(n)).trace == s.trace + [Got(Sabm(n)), Sent(n, Ua(n), true)]
    ensures BitsOf(Handle(s, Sabm(n)), n) == BitsOf(s, n) + {SabmDone, UaDone}
  {
    AbsorbIs(s, Sabm(n));
    AbsorbInv(s, Sabm(n));
    FindExact(Absorb(s, Sabm(n)).slots, n, Find(s.slots, n));
  }

  /** Client data for a channel that is there goes to the callback, and nothing is sent and no bit changes. */
  lemma ClientDataAlone(s: Session, f: Frame)
    requires Inv(s) && IsClientData(f) && s.client && Has(s, f.n)
    ensures Handle(s, f) == s.(trace := s.trace + [Got(f)])
  {
    AbsorbIs(s, f);
    HeardParams(s, f);
    var i := Find(s.slots, f.n);
    var c := Absorb(s, f).slots[i];
    assert c.bits == s.slots[i].bits + {} == s.slots[i].bits;
    assert s.slots[i := c] == s.slots;
  }

  /** What the client asks to send goes out on an OPEN channel, and nowhere else. */
  lemma DataIsSent(s: Session, i: nat, payload: seq<byte>)
    ensures var t := Step(s, SendData(i, payload));
            if i < |s.slots| && s.slots[i].Channel? && s.slots[i].num != 0 && Open in s.slots[i].bits then
              t == s.(trace := s.trace + [Sent(s.slots[i].num, Data(s.slots[i].num, payload), true)])
            else t == s
  {
  }
}
