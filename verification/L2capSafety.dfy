/**
  What holds in every run of the L2CAP layer, as long as no device has given out all its CIDs: live
  connections have distinct nonzero CIDs, the configuration bits of a connection are exactly what its
  history shows, our config request goes out at most once, and a client is told of a connection only
  after all four configuration steps, and exactly once they have happened.
*/
module L2capSafety {
  import opened Bytes
  import opened L2capPackets
  import opened L2cap

  const ALL_CIDS := 0xFF90

  // ---------------------------------------------------------------- reading a trace

  /** What an entry of the history stands for. */
  datatype Kind = BroughtUp | Did(bit: Bit) | ToldOpen | Otherwise

  function KindOf(w: What): (k: Kind)
  {
    match w
    case Opened => BroughtUp
    case Got(ConfigReq(_, _)) => Did(ReqReceived)
    case Got(ConfigRsp(_, _, _)) => Did(RspReceived)
    case Sent(Sending(_, _, ConfigRsp(_, _, _))) => Did(RspSent)
    case Sent(Sending(_, _, ConfigReq(_, _))) => Did(ReqSent)
    case Told(Connected) => ToldOpen
    case _ => Otherwise
  }

  /** Something that has happened to the connection with this local CID. A CID is one connection's lifetime. */
  datatype Fact = Fact(kind: Kind, device: nat, lcid: word)

  function FactOf(a: Act): (f: Fact) { Fact(KindOf(a.what), a.device, a.lcid) }

  function Facts(trace: seq<Act>): (facts: set<Fact>)
    decreases |trace|
  {
    if trace == [] then {} else Facts(trace[..|trace| - 1]) + {FactOf(trace[|trace| - 1])}
  }

  lemma FactsSnoc(trace: seq<Act>, a: Act)
    ensures Facts(trace + [a]) == Facts(trace) + {FactOf(a)}
  {
    assert (trace + [a])[..|trace|] == trace;
  }

  lemma {:induction false} FactWitness(trace: seq<Act>, f: Fact) returns (k: nat)
    requires f in Facts(trace)
    ensures k < |trace| && FactOf(trace[k]) == f
    decreases |trace|
  {
    var n := |trace| - 1;
    if FactOf(trace[n]) == f {
      k := n;
    } else {
      k := FactWitness(trace[..n], f);
    }
  }

  lemma {:induction false} FactIn(trace: seq<Act>, k: nat)
    requires k < |trace|
    ensures FactOf(trace[k]) in Facts(trace)
    decreases |trace|
  {
    if k < |trace| - 1 {
      FactIn(trace[..|trace| - 1], k);
    }
  }

  /** The configuration steps in the history of a connection. */
  function Config(facts: set<Fact>, d: nat, lcid: word): (steps: set<Bit>)
  {
    set b | b in FOUR && Fact(Did(b), d, lcid) in facts
  }

  /** A command that may reach the connection with a local CID. */
  predicate Rightly(c: Command, lcid: word)
  {
    !Refused(c) && !Forbidden(c) && (c.ConnectReq? || Named(c) == lcid)
  }

  /** An act may follow a history. */
  predicate Due(facts: set<Fact>, a: Act)
  {
    var k, config := KindOf(a.what), Config(facts, a.device, a.lcid);
    && (k != BroughtUp ==> Fact(BroughtUp, a.device, a.lcid) in facts)
    && (k == BroughtUp ==> a.lcid != 0 && forall f | f in facts :: f.device != a.device || f.lcid != a.lcid)
    && (a.what.Got? ==> Rightly(a.what.command, a.lcid))
    && (k == Did(RspSent) ==> ReqReceived in config && a.what.message.command == ConfigRsp(a.rcid, 0, 0))
    && (k == Did(ReqSent) ==> ReqReceived in config && ReqSent !in config && a.rcid != 0
                              && a.what.message.command == ConfigReq(a.rcid, 0))
    && (k == ToldOpen ==> FOUR <= config && a.rcid != 0)
  }

  predicate AllDue(trace: seq<Act>)
    decreases |trace|
  {
    trace == [] || (AllDue(trace[..|trace| - 1]) && Due(Facts(trace[..|trace| - 1]), trace[|trace| - 1]))
  }

  lemma AllDueSnoc(trace: seq<Act>, a: Act)
    ensures AllDue(trace + [a]) <==> AllDue(trace) && Due(Facts(trace), a)
  {
    assert (trace + [a])[..|trace|] == trace;
  }

  lemma {:induction false} DueAt(trace: seq<Act>, k: nat)
    requires AllDue(trace) && k < |trace|
    ensures Due(Facts(trace[..k]), trace[k])
    decreases |trace|
  {
    var n := |trace| - 1;
    if k < n {
      DueAt(trace[..n], k);
      assert trace[..n][..k] == trace[..k];
    }
  }

  // ---------------------------------------------------------------- the invariant

  /** For each device, the first CID it has not given out. */
  function Limits(devices: seq<Device>): (r: seq<nat>)
  {
    seq(|devices|, i requires 0 <= i < |devices| => STARTING_CID + devices[i].drawn)
  }

  predicate SlotOk(c: Conn, facts: set<Fact>, limits: seq<nat>)
  {
    c == VACANT ||
    (&& c.device.Some? && c.device.value < |limits| && STARTING_CID <= c.lcid < limits[c.device.value]
     && Fact(BroughtUp, c.device.value, c.lcid) in facts
     && c.bits * FOUR == Config(facts, c.device.value, c.lcid))
  }

  predicate FactsOk(facts: set<Fact>, limits: seq<nat>)
  {
    forall f | f in facts :: f.device < |limits| && f.lcid < limits[f.device]
  }

  predicate SameKey(c: Conn, c': Conn) { c.device == c'.device && c.lcid == c'.lcid }

  predicate Distinct(conns: seq<Conn>)
  {
    forall i, j | 0 <= i < j < |conns| && conns[i].lcid != 0 :: !SameKey(conns[i], conns[j])
  }

  predicate Core(s: Layer)
  {
    && (forall i | 0 <= i < |s.conns| :: SlotOk(s.conns[i], Facts(s.trace), Limits(s.devices)))
    && Distinct(s.conns)
    && FactsOk(Facts(s.trace), Limits(s.devices))
    && AllDue(s.trace)
  }

  predicate WasTold(c: Conn, facts: set<Fact>) { Fact(ToldOpen, DeviceOf(c), c.lcid) in facts }

  /** Between events: both answers are out as soon as they can be, and the client knows. */
  predicate Settled(c: Conn, facts: set<Fact>, clients: set<word>)
  {
    c.lcid != 0 ==>
      && (RspSent in c.bits <==> ReqReceived in c.bits)
      && (ReqSent in c.bits <==> ReqReceived in c.bits && c.rcid != 0)
      && (WasTold(c, facts) <==> c.psm in clients && FOUR <= c.bits)
  }

  /** Before checkLcapConnectionState. */
  predicate Unchecked(c: Conn, facts: set<Fact>, clients: set<word>)
  {
    && (RspSent in c.bits <==> ReqReceived in c.bits)
    && (ReqSent in c.bits ==> ReqReceived in c.bits && c.rcid != 0)
    && (WasTold(c, facts) ==> c.psm in clients && FOUR <= c.bits)
  }

  predicate SettledBut(s: Layer, i: nat)
  {
    forall j | 0 <= j < |s.conns| && j != i :: Settled(s.conns[j], Facts(s.trace), s.clients)
  }

  predicate AllSettled(s: Layer)
  {
    forall j | 0 <= j < |s.conns| :: Settled(s.conns[j], Facts(s.trace), s.clients)
  }

  predicate Inv(s: Layer) { Core(s) && AllSettled(s) }

  /** No device has given out its last CID and come round again. */
  predicate CidsLeft(s: Layer)
  {
    forall d | 0 <= d < |s.devices| :: s.devices[d].drawn <= ALL_CIDS
  }

  // ---------------------------------------------------------------- one slot changes

  /** The configuration step of a kind. */
  function StepsOf(k: Kind): (steps: set<Bit>) { if k.Did? then {k.bit} else {} }

  lemma ConfigMore(facts: set<Fact>, k: Kind, d: nat, lcid: word)
    ensures Config(facts + {Fact(k, d, lcid)}, d, lcid) == Config(facts, d, lcid) + (StepsOf(k) * FOUR)
  {
  }

  /** Slot i becomes c and a is noted. */
  function Advance(s: Layer, i: nat, c: Conn, a: Act): (r: Layer)
    requires i < |s.conns|
  {
    s.(conns := s.conns[i := c], trace := s.trace + [a])
  }

  predicate ActFor(a: Act, c: Conn) { c.device == Some(a.device) && c.lcid == a.lcid }

  lemma AdvanceKeeps(s: Layer, i: nat, c: Conn, a: Act)
    requires Core(s) && i < |s.conns| && s.conns[i].lcid != 0 && SameKey(c, s.conns[i]) && ActFor(a, c)
    requires !a.what.Opened? && Due(Facts(s.trace), a)
    requires SlotOk(c, Facts(s.trace) + {FactOf(a)}, Limits(s.devices))
    ensures Core(Advance(s, i, c, a))
    ensures SettledBut(s, i) ==> SettledBut(Advance(s, i, c, a), i)
  {
  }

  /** The bits that go with a note are the configuration step it stands for, apart from those that stand for none. */
  predicate Fitting(bits: set<Bit>, w: What) { bits * FOUR == StepsOf(KindOf(w)) }

  lemma DoKeeps(s: Layer, i: nat, bits: set<Bit>, w: What)
    requires Core(s) && i < |s.conns| && s.conns[i].lcid != 0 && Fitting(bits, w)
    requires !w.Opened? && Due(Facts(s.trace), ActOf(w, s.conns[i]))
    ensures Core(Do(s, i, bits, w))
    ensures SettledBut(s, i) ==> SettledBut(Do(s, i, bits, w), i)
  {
    var c, c' := s.conns[i], s.conns[i].(bits := s.conns[i].bits + bits);
    assert SlotOk(c, Facts(s.trace), Limits(s.devices));
    ConfigMore(Facts(s.trace), KindOf(w), c.device.value, c.lcid);
    assert c'.bits * FOUR == c.bits * FOUR + bits * FOUR && StepsOf(KindOf(w)) * FOUR == StepsOf(KindOf(w));
    AdvanceKeeps(s, i, c', ActOf(w, c));
    assert ActOf(w, c) == ActOf(w, c');
  }

  /** What it does to the slot itself and to what its client has been told. */
  lemma DoEffect(s: Layer, i: nat, bits: set<Bit>, w: What)
    requires i < |s.conns|
    ensures var c, t := s.conns[i], Do(s, i, bits, w);
            && t.conns[i] == c.(bits := c.bits + bits) && t.clients == s.clients && |t.conns| == |s.conns|
            && Facts(t.trace) == Facts(s.trace) + {Fact(KindOf(w), DeviceOf(c), c.lcid)}
            && (KindOf(w) != ToldOpen ==> WasTold(t.conns[i], Facts(t.trace)) == WasTold(c, Facts(s.trace)))
  {
    FactsSnoc(s.trace, ActOf(w, s.conns[i]));
  }

  /** A note that stands for nothing keeps everything. */
  lemma NoteKeeps(s: Layer, i: nat, w: What)
    requires Inv(s) && i < |s.conns| && s.conns[i].lcid != 0
    requires KindOf(w) == Otherwise && Due(Facts(s.trace), ActOf(w, s.conns[i]))
    ensures Inv(Do(s, i, {}, w)) && Do(s, i, {}, w) == Say(s, i, w)
  {
    var c := s.conns[i];
    assert c.bits + {} == c.bits && s.conns[i := c] == s.conns;
    DoKeeps(s, i, {}, w);
    DoEffect(s, i, {}, w);
    assert Settled(c, Facts(s.trace), s.clients);
  }

  /** What is sent besides config requests and responses. */
  predicate Plain(c: Command) { !c.ConfigReq? && !c.ConfigRsp? }

  lemma SendKeeps(s: Layer, i: nat, handle: word, id: byte, c: Command)
    requires Inv(s) && i < |s.conns| && s.conns[i].lcid != 0 && Plain(c)
    ensures Inv(Send(s, i, {}, handle, id, c)) && Send(s, i, {}, handle, id, c).conns == s.conns
    ensures Send(s, i, {}, handle, id, c).devices == s.devices && Send(s, i, {}, handle, id, c).clients == s.clients
  {
    var m := Sending(WithBoundary(handle), id, c);
    var s1 := s.(sent := s.sent + [m]);
    Unseen(s, s1, i);
    BitsAreHistory(s1, i);
    NoteKeeps(s1, i, Sent(m));
  }

  lemma SendNewKeeps(s: Layer, i: nat, d: nat, handle: word, c: Command)
    requires Inv(s) && i < |s.conns| && s.conns[i].lcid != 0 && Plain(c)
    ensures Inv(SendNew(s, i, {}, d, handle, c)) && SendNew(s, i, {}, d, handle, c).conns == s.conns
  {
    if d < |s.devices| {
      var dev := s.devices[d];
      var s1 := s.(devices := s.devices[d := dev.(nextId := (dev.nextId + 1) % 0x1_0000)]);
      NumbersUnseen(s, d);
      SendKeeps(s1, i, handle, dev.nextId % 256, c);
    }
  }

  /** Nor at the numbers commands get. */
  lemma NumbersUnseen(s: Layer, d: nat)
    requires Inv(s) && d < |s.devices|
    ensures var dev := s.devices[d];
            Inv(s.(devices := s.devices[d := dev.(nextId := (dev.nextId + 1) % 0x1_0000)]))
  {
    var dev := s.devices[d];
    var s1 := s.(devices := s.devices[d := dev.(nextId := (dev.nextId + 1) % 0x1_0000)]);
    assert Limits(s1.devices) == Limits(s.devices);
    Unseen(s, s1, 0);
  }

  /** A bit that stands for no configuration step. */
  lemma RaiseKeeps(s: Layer, i: nat, b: Bit)
    requires Core(s) && i < |s.conns| && s.conns[i].lcid != 0 && b !in FOUR
    ensures var t := Raise(s, i, b);
            && Core(t) && t.trace == s.trace && t.clients == s.clients
            && t.conns[i] == s.conns[i].(bits := s.conns[i].bits + {b})
            && (SettledBut(s, i) ==> SettledBut(t, i)) && (AllSettled(s) ==> AllSettled(t))
  {
    var c, c' := s.conns[i], s.conns[i].(bits := s.conns[i].bits + {b});
    assert c'.bits * FOUR == c.bits * FOUR;
    assert forall x | x in FOUR :: x in c'.bits <==> x in c.bits;
    assert SlotOk(c, Facts(s.trace), Limits(s.devices));
    assert SlotOk(c', Facts(s.trace), Limits(s.devices));
  }

  /** Core and Settled do not look at what is sent. */
  lemma Unseen(s: Layer, t: Layer, i: nat)
    requires t.conns == s.conns && t.trace == s.trace && t.clients == s.clients
             && Limits(t.devices) == Limits(s.devices)
    ensures Core(t) <==> Core(s)
    ensures SettledBut(t, i) <==> SettledBut(s, i)
    ensures AllSettled(t) <==> AllSettled(s)
  {
  }

  // ---------------------------------------------------------------- checkLcapConnectionState

  predicate At(s: Layer, i: nat) { i < |s.conns| && s.conns[i].lcid != 0 && Core(s) && SettledBut(s, i) }

  /** A live slot's bits are its history. */
  lemma BitsAreHistory(s: Layer, i: nat)
    requires Core(s) && i < |s.conns| && s.conns[i].lcid != 0
    ensures s.conns[i].device.Some? && s.conns[i].device.value < |s.devices|
    ensures s.conns[i].bits * FOUR == Config(Facts(s.trace), DeviceOf(s.conns[i]), s.conns[i].lcid)
    ensures Fact(BroughtUp, DeviceOf(s.conns[i]), s.conns[i].lcid) in Facts(s.trace)
  {
    assert SlotOk(s.conns[i], Facts(s.trace), Limits(s.devices));
  }

  lemma AskConfigKeeps(s: Layer, i: nat)
    requires At(s, i) && Unchecked(s.conns[i], Facts(s.trace), s.clients)
    ensures var t := AskConfig(s, i);
            && At(t, i) && Unchecked(t.conns[i], Facts(t.trace), t.clients)
            && (ReqSent in t.conns[i].bits <==> ReqReceived in t.conns[i].bits && t.conns[i].rcid != 0)
  {
    var c := s.conns[i];
    if MustAsk(c) {
      BitsAreHistory(s, i);
      var d := DeviceOf(c);
      var dev := s.devices[d];
      var m := Sending(WithBoundary(dev.handle), dev.nextId % 256, ConfigReq(c.rcid, 0));
      var s1 := s.(devices := s.devices[d := dev.(nextId := (dev.nextId + 1) % 0x1_0000)], sent := s.sent + [m]);
      assert Limits(s1.devices) == Limits(s.devices);
      Unseen(s, s1, i);
      assert AskConfig(s, i) == Do(s1, i, {ReqSent}, Sent(m));
      DoKeeps(s1, i, {ReqSent}, Sent(m));
      DoEffect(s1, i, {ReqSent}, Sent(m));
    }
  }

  lemma TellOpenKeeps(s: Layer, i: nat)
    requires At(s, i) && Unchecked(s.conns[i], Facts(s.trace), s.clients)
    requires ReqSent in s.conns[i].bits <==> ReqReceived in s.conns[i].bits && s.conns[i].rcid != 0
    ensures Core(TellOpen(s, i)) && AllSettled(TellOpen(s, i))
  {
    var c := s.conns[i];
    if FOUR <= c.bits && c.psm in s.clients {
      BitsAreHistory(s, i);
      assert c.bits + {} == c.bits && s.conns[i := c] == s.conns;
      DoKeeps(s, i, {}, Told(Connected));
      DoEffect(s, i, {}, Told(Connected));
    }
  }

  lemma CheckKeeps(s: Layer, i: nat)
    requires At(s, i) && Unchecked(s.conns[i], Facts(s.trace), s.clients)
    ensures Inv(Check(s, i))
  {
    AskConfigKeeps(s, i);
    TellOpenKeeps(AskConfig(s, i), i);
  }

  // ---------------------------------------------------------------- the commands

  lemma OnConfigReqKeeps(s: Layer, i: nat, handle: word, id: byte, c: Command)
    requires Inv(s) && i < |s.conns| && s.conns[i].lcid != 0 && c.ConfigReq? && Rightly(c, s.conns[i].lcid)
    ensures Inv(OnConfigReq(s, i, handle, id, c))
  {
    BitsAreHistory(s, i);
    DoKeeps(s, i, {ReqReceived}, Got(c));
    DoEffect(s, i, {ReqReceived}, Got(c));
    var s1 := Do(s, i, {ReqReceived}, Got(c));
    assert Settled(s.conns[i], Facts(s.trace), s.clients);
    RspSentKeeps(s1, i, handle, id);
    CheckKeeps(Send(s1, i, {RspSent}, handle, id, ConfigRsp(s1.conns[i].rcid, 0, 0)), i);
  }

  /** Our response, between the request and the check. */
  lemma RspSentKeeps(s: Layer, i: nat, handle: word, id: byte)
    requires At(s, i) && ReqReceived in s.conns[i].bits
    requires ReqSent in s.conns[i].bits ==> s.conns[i].rcid != 0
    requires WasTold(s.conns[i], Facts(s.trace)) ==> s.conns[i].psm in s.clients && FOUR <= s.conns[i].bits
    ensures var t := Send(s, i, {RspSent}, handle, id, ConfigRsp(s.conns[i].rcid, 0, 0));
            At(t, i) && Unchecked(t.conns[i], Facts(t.trace), t.clients)
  {
    var m := Sending(WithBoundary(handle), id, ConfigRsp(s.conns[i].rcid, 0, 0));
    var s1 := s.(sent := s.sent + [m]);
    Unseen(s, s1, i);
    BitsAreHistory(s1, i);
    DoKeeps(s1, i, {RspSent}, Sent(m));
    DoEffect(s1, i, {RspSent}, Sent(m));
  }

  lemma OnConfigRspKeeps(s: Layer, i: nat, c: Command)
    requires Inv(s) && i < |s.conns| && s.conns[i].lcid != 0 && c.ConfigRsp? && Rightly(c, s.conns[i].lcid)
    ensures Inv(OnConfigRsp(s, i, c))
  {
    BitsAreHistory(s, i);
    DoKeeps(s, i, {RspReceived}, Got(c));
    DoEffect(s, i, {RspReceived}, Got(c));
    assert Settled(s.conns[i], Facts(s.trace), s.clients);
    CheckKeeps(Do(s, i, {RspReceived}, Got(c)), i);
  }

  lemma SetRemoteKeeps(s: Layer, i: nat, rcid: word)
    requires Inv(s) && i < |s.conns| && s.conns[i].lcid != 0 && (s.conns[i].rcid == 0 || s.conns[i].rcid == rcid)
    ensures At(SetRemote(s, i, rcid), i)
    ensures Unchecked(SetRemote(s, i, rcid).conns[i], Facts(s.trace), s.clients)
  {
  }

  lemma OnConnectRspKeeps(s: Layer, i: nat, dcid: word, result: word)
    requires Inv(s) && i < |s.conns| && s.conns[i].lcid != 0
    ensures Inv(OnConnectRsp(s, i, dcid, result))
  {
    if s.conns[i].rcid == 0 || s.conns[i].rcid == dcid {
      SetRemoteKeeps(s, i, dcid);
      var s1 := SetRemote(s, i, dcid);
      if result == 0 {
        RaiseKeeps(s1, i, Linked);
        CheckKeeps(Raise(s1, i, Linked), i);
      } else {
        CheckKeeps(s1, i);
      }
    } else {
      Unseen(s, Fail(s), i);
    }
  }

  lemma TellKeeps(s: Layer, i: nat, e: ClientEvent)
    requires Inv(s) && i < |s.conns| && s.conns[i].lcid != 0 && !e.Connected?
    ensures Inv(Tell(s, i, e)) && Tell(s, i, e).conns == s.conns
  {
    if s.conns[i].psm in s.clients {
      BitsAreHistory(s, i);
      NoteKeeps(s, i, Told(e));
    }
  }

  lemma DeleteKeeps(s: Layer, i: nat)
    requires Inv(s) && i < |s.conns|
    ensures Inv(Delete(s, i))
  {
  }

  lemma OnDisconnectReqKeeps(s: Layer, i: nat, handle: word, id: byte, dcid: word, scid: word)
    requires Inv(s) && i < |s.conns| && s.conns[i].lcid != 0
    ensures Inv(OnDisconnectReq(s, i, handle, id, dcid, scid))
  {
    TellKeeps(s, i, Disconnected);
    var t := Tell(s, i, Disconnected);
    SendKeeps(t, i, handle, id, DisconnectRsp(dcid, scid));
    DeleteKeeps(Send(t, i, {}, handle, id, DisconnectRsp(dcid, scid)), i);
  }

  lemma OnDisconnectRspKeeps(s: Layer, i: nat)
    requires Inv(s) && i < |s.conns| && s.conns[i].lcid != 0
    ensures Inv(OnDisconnectRsp(s, i))
  {
    TellKeeps(s, i, Disconnected);
    DeleteKeeps(Tell(s, i, Disconnected), i);
  }

  /** That a command came. */
  lemma GotKeeps(s: Layer, i: nat, c: Command)
    requires Inv(s) && i < |s.conns| && s.conns[i].lcid != 0 && Plain(c) && Rightly(c, s.conns[i].lcid)
    ensures Inv(Say(s, i, Got(c)))
  {
    BitsAreHistory(s, i);
    NoteKeeps(s, i, Got(c));
  }

  lemma OnSlotKeeps(s: Layer, i: nat, handle: word, id: byte, c: Command)
    requires Inv(s) && i < |s.conns| && s.conns[i].lcid != 0 && Rightly(c, s.conns[i].lcid)
    ensures Inv(OnSlot(s, i, handle, id, c))
  {
    if Plain(c) { GotKeeps(s, i, c); }
    match c {
      case ConnectReq(_, _) =>
      case ConnectRsp(dcid, _, result, _) => OnConnectRspKeeps(Say(s, i, Got(c)), i, dcid, result);
      case ConfigReq(_, _) => OnConfigReqKeeps(s, i, handle, id, c);
      case ConfigRsp(_, _, _) => OnConfigRspKeeps(s, i, c);
      case DisconnectReq(dcid, scid) => OnDisconnectReqKeeps(Say(s, i, Got(c)), i, handle, id, dcid, scid);
      case DisconnectRsp(_, _) => OnDisconnectRspKeeps(Say(s, i, Got(c)), i);
    }
  }

  // ---------------------------------------------------------------- new connections

  /** A fresh CID is in no fact. */
  lemma NewKey(s: Layer, d: nat)
    requires Core(s) && d < |s.devices| && s.devices[d].drawn < ALL_CIDS
    ensures NextCid(s.devices[d]) == STARTING_CID + s.devices[d].drawn == Limits(s.devices)[d]
    ensures forall f | f in Facts(s.trace) :: f.device != d || f.lcid != NextCid(s.devices[d])
  {
  }

  lemma FactsGrow(facts: set<Fact>, limits: seq<nat>, limits': seq<nat>)
    requires FactsOk(facts, limits) && |limits| <= |limits'|
    requires forall k | 0 <= k < |limits| :: limits[k] <= limits'[k]
    ensures FactsOk(facts, limits')
  {
  }

  lemma FirstConfig(facts: set<Fact>, d: nat, lcid: word)
    requires forall f | f in facts :: f.device != d || f.lcid != lcid
    ensures Config(facts + {Fact(BroughtUp, d, lcid)}, d, lcid) == {}
  {
  }

  lemma OpenTrace(s: Layer, i: nat, d: nat, psm: word, rcid: word)
    requires Inv(s) && i < |s.conns| && d < |s.devices| && s.devices[d].drawn < ALL_CIDS
    ensures var t := Open(s, i, d, psm, rcid);
            && Facts(t.trace) == Facts(s.trace) + {Fact(BroughtUp, d, NextCid(s.devices[d]))}
            && AllDue(t.trace) && FactsOk(Facts(t.trace), Limits(t.devices))
  {
    NewKey(s, d);
    var a := Act(Opened, d, psm, NextCid(s.devices[d]), rcid);
    FactsSnoc(s.trace, a);
    AllDueSnoc(s.trace, a);
    LimitsOpen(s, i, d, psm, rcid);
    FactsGrow(Facts(s.trace), Limits(s.devices), Limits(Open(s, i, d, psm, rcid).devices));
  }

  lemma LimitsOpen(s: Layer, i: nat, d: nat, psm: word, rcid: word)
    requires i < |s.conns| && d < |s.devices|
    ensures var limits, limits' := Limits(s.devices), Limits(Open(s, i, d, psm, rcid).devices);
            |limits| == |limits'| && limits'[d] == limits[d] + 1
                && forall k | 0 <= k < |limits| :: limits[k] <= limits'[k]
  {
  }

  /** The slots that were there, after a CID was drawn. */
  lemma OpenOthers(s: Layer, i: nat, d: nat, psm: word, rcid: word, j: nat)
    requires Inv(s) && i < |s.conns| && j < |s.conns| && i != j && d < |s.devices| && s.devices[d].drawn < ALL_CIDS
    ensures var t := Open(s, i, d, psm, rcid);
            && SlotOk(t.conns[j], Facts(t.trace), Limits(t.devices)) && Settled(t.conns[j], Facts(t.trace), t.clients)
            && (t.conns[j].lcid != 0 ==> !SameKey(t.conns[j], t.conns[i]))
  {
    NewKey(s, d);
    OpenTrace(s, i, d, psm, rcid);
    LimitsOpen(s, i, d, psm, rcid);
    OldSlot(s, j, Act(Opened, d, psm, NextCid(s.devices[d]), rcid), Limits(Open(s, i, d, psm, rcid).devices));
  }

  /** The slot that was filled. */
  lemma OpenHere(s: Layer, i: nat, d: nat, psm: word, rcid: word)
    requires Inv(s) && i < |s.conns| && d < |s.devices| && s.devices[d].drawn < ALL_CIDS
    ensures var t := Open(s, i, d, psm, rcid);
            && t.conns[i] == Conn(Some(d), psm, NextCid(s.devices[d]), rcid, {}) && !WasTold(t.conns[i], Facts(t.trace))
            && SlotOk(t.conns[i], Facts(t.trace), Limits(t.devices)) && Settled(t.conns[i], Facts(t.trace), t.clients)
  {
    NewKey(s, d);
    OpenTrace(s, i, d, psm, rcid);
    LimitsOpen(s, i, d, psm, rcid);
    FirstConfig(Facts(s.trace), d, NextCid(s.devices[d]));
  }

  lemma OpenKeeps(s: Layer, i: nat, d: nat, psm: word, rcid: word)
    requires Inv(s) && i < |s.conns| && d < |s.devices| && s.devices[d].drawn < ALL_CIDS && s.conns[i].lcid == 0
    ensures var t := Open(s, i, d, psm, rcid);
            && Inv(t) && t.conns[i] == Conn(Some(d), psm, NextCid(s.devices[d]), rcid, {})
            && !WasTold(t.conns[i], Facts(t.trace))
  {
    OpenTrace(s, i, d, psm, rcid);
    OpenHere(s, i, d, psm, rcid);
    forall j | 0 <= j < |s.conns| && j != i
      ensures var t := Open(s, i, d, psm, rcid);
              && SlotOk(t.conns[j], Facts(t.trace), Limits(t.devices)) && Settled(t.conns[j], Facts(t.trace), t.clients)
              && (t.conns[j].lcid != 0 ==> !SameKey(t.conns[j], t.conns[i]))
    {
      OpenOthers(s, i, d, psm, rcid, j);
    }
  }

  lemma OldSlot(s: Layer, j: nat, a: Act, limits': seq<nat>)
    requires Inv(s) && j < |s.conns| && a.what == Opened
    requires |Limits(s.devices)| <= |limits'|
    requires forall k | 0 <= k < |s.devices| :: Limits(s.devices)[k] <= limits'[k]
    requires forall f | f in Facts(s.trace) :: f.device != a.device || f.lcid != a.lcid
    ensures SlotOk(s.conns[j], Facts(s.trace) + {FactOf(a)}, limits')
    ensures Settled(s.conns[j], Facts(s.trace) + {FactOf(a)}, s.clients)
    ensures s.conns[j].lcid != 0 ==> s.conns[j].device != Some(a.device) || s.conns[j].lcid != a.lcid
  {
  }

  lemma OnConnectReqKeeps(s: Layer, handle: word, id: byte, psm: word, scid: word)
    requires Inv(s) && CidsLeft(OnConnectReq(s, handle, id, psm, scid))
    ensures Inv(OnConnectReq(s, handle, id, psm, scid))
  {
    var d, i := FindDevice(s.devices, handle % 0x1000), FirstFreeFrom(s.conns, 0);
    if d < |s.devices| && FindRemoteFrom(s.conns, d, scid, 0) == |s.conns| && i < |s.conns| {
      var s1 := Open(s, i, d, psm, scid);
      var s2 := Say(s1, i, Got(ConnectReq(psm, scid)));
      var rsp := ConnectRsp(s2.conns[i].lcid, scid, 0, 0);
      var s3 := Send(s2, i, {}, handle % 0x1000, id, rsp);
      CheckDraws(s3, i);
      assert OnConnectReq(s, handle, id, psm, scid).devices[d].drawn == s.devices[d].drawn + 1;
      OpenKeeps(s, i, d, psm, scid);
      GotKeeps(s1, i, ConnectReq(psm, scid));
      SendKeeps(s2, i, handle % 0x1000, id, rsp);
      FreshUnchecked(s3, i);
      CheckKeeps(s3, i);
    }
  }

  /** A connection whose configuration has not begun. */
  lemma FreshUnchecked(s: Layer, i: nat)
    requires Inv(s) && i < |s.conns| && s.conns[i].lcid != 0 && s.conns[i].bits == {}
    ensures At(s, i) && Unchecked(s.conns[i], Facts(s.trace), s.clients)
  {
    assert Settled(s.conns[i], Facts(s.trace), s.clients);
  }

  predicate SameDraws(s: Layer, t: Layer)
  {
    |s.devices| == |t.devices| && forall d | 0 <= d < |s.devices| :: s.devices[d].drawn == t.devices[d].drawn
  }

  lemma CheckDraws(s: Layer, i: nat)
    requires i < |s.conns|
    ensures SameDraws(s, Check(s, i))
  {
  }

  lemma StartKeeps(s: Layer, d: nat, psm: word)
    requires Inv(s) && d < |s.devices| && CidsLeft(Start(s, d, psm))
    ensures Inv(Start(s, d, psm))
  {
    var i, h := FirstFreeFrom(s.conns, 0), s.devices[d].handle;
    if h < 0x8000 && i < |s.conns| {
      var s1 := Open(s, i, d, psm, 0);
      assert Start(s, d, psm).devices[d].drawn == s.devices[d].drawn + 1;
      OpenKeeps(s, i, d, psm, 0);
      if h % 0x1000 == 0 {
        RaiseKeeps(s1, i, Connecting);
      } else {
        SendNewKeeps(s1, i, d, h % 0x1000, ConnectReq(psm, s1.conns[i].lcid));
      }
    } else {
      Unseen(s, Fail(s), 0);
    }
  }

  // ---------------------------------------------------------------- the loops

  lemma AskOneKeeps(s: Layer, d: nat, i: nat)
    requires Inv(s) && i < |s.conns|
    ensures Inv(AskOne(s, d, i))
  {
    var c := s.conns[i];
    if c.device == Some(d) {
      assert SlotOk(c, Facts(s.trace), Limits(s.devices));
      SendNewKeeps(s, i, d, HandleOf(s, d) % 0x1000, ConnectReq(c.psm, c.lcid));
    }
  }

  lemma {:induction false} AskPendingKeeps(s: Layer, d: nat, i: nat)
    requires Inv(s)
    ensures Inv(AskPending(s, d, i))
    decreases |s.conns| - i
  {
    if i < |s.conns| {
      var t := AskOne(s, d, i);
      AskOneKeeps(s, d, i);
      AskPendingKeeps(t, d, i + 1);
    }
  }

  lemma TellOneKeeps(s: Layer, d: nat, error: bool, i: nat)
    requires Inv(s) && i < |s.conns|
    ensures Inv(TellOne(s, d, error, i))
  {
    var c := s.conns[i];
    if c.device == Some(d) && c.psm in s.clients {
      assert SlotOk(c, Facts(s.trace), Limits(s.devices));
      if error {
        RaiseKeeps(s, i, Failed);
        TellKeeps(Raise(s, i, Failed), i, Error);
      } else {
        TellKeeps(s, i, Disconnected);
        DeleteKeeps(Tell(s, i, Disconnected), i);
      }
    }
  }

  lemma {:induction false} TellAllKeeps(s: Layer, d: nat, error: bool, i: nat)
    requires Inv(s)
    ensures Inv(TellAll(s, d, error, i))
    decreases |s.conns| - i
  {
    if i < |s.conns| {
      var t := TellOne(s, d, error, i);
      TellOneKeeps(s, d, error, i);
      TellAllKeeps(t, d, error, i + 1);
    }
  }

  // ---------------------------------------------------------------- every event

  lemma FoundLive(s: Layer, handle: word, cid: word)
    requires Core(s) && FindLocal(s, handle, cid) < |s.conns|
    ensures var c := s.conns[FindLocal(s, handle, cid)]; c.lcid != 0 && c.lcid == cid
  {
    assert SlotOk(s.conns[FindLocal(s, handle, cid)], Facts(s.trace), Limits(s.devices));
  }

  lemma OnSignalKeeps(s: Layer, handle: word, id: byte, c: Command)
    requires Inv(s) && CidsLeft(OnSignal(s, handle, id, c))
    ensures Inv(OnSignal(s, handle, id, c))
  {
    if Refused(c) {
    } else if Forbidden(c) || handle % 0x1000 == 0 {
      Unseen(s, Fail(s), 0);
    } else if c.ConnectReq? {
      OnConnectReqKeeps(s, handle, id, c.psm, c.scid);
    } else {
      var i := FindLocal(s, handle, Named(c));
      if i < |s.conns| {
        FoundLive(s, handle, Named(c));
        OnSlotKeeps(s, i, handle, id, c);
      }
    }
  }

  lemma OnDataKeeps(s: Layer, handle: word, cid: word, payload: seq<byte>)
    requires Inv(s)
    ensures Inv(OnData(s, handle, cid, payload))
  {
    var i := FindLocal(s, handle, cid);
    if handle % 0x1000 != 0 && i < |s.conns| {
      if s.conns[i].psm in s.clients {
        FoundLive(s, handle, cid);
        TellKeeps(s, i, Data(payload));
      } else {
        Unseen(s, Fail(s), 0);
      }
    } else {
      Unseen(s, Fail(s), 0);
    }
  }

  lemma DevicesKeep(s: Layer, devices: seq<Device>)
    requires Inv(s) && |s.devices| <= |devices|
    requires forall d | 0 <= d < |s.devices| :: devices[d].drawn == s.devices[d].drawn
    ensures Inv(s.(devices := devices))
  {
  }

  lemma CloseKeeps(s: Layer, i: nat)
    requires Inv(s) && i < |s.conns|
    ensures Inv(Close(s, i))
  {
    var c := s.conns[i];
    if c.device.Some? {
      assert SlotOk(c, Facts(s.trace), Limits(s.devices));
      SendNewKeeps(s, i, DeviceOf(c), HandleOf(s, DeviceOf(c)), DisconnectReq(c.rcid, c.lcid));
    } else {
      Unseen(s, Fail(s), 0);
    }
  }

  lemma StepKeeps(s: Layer, e: Event)
    requires Inv(s) && CidsLeft(Step(s, e))
    ensures Inv(Step(s, e))
  {
    if !s.failed {
      match e {
        case AddDevice => DevicesKeep(s, s.devices + [Device(0, 0, 17)]);
        case SetHandle(d, h) =>
          if d < |s.devices| {
            DevicesKeep(s, s.devices[d := s.devices[d].(handle := h)]);
          }
        case HciConnected(d) => AskPendingKeeps(s, d, 0);
        case HciError(d) => TellAllKeeps(s, d, true, 0);
        case HciDisconnected(d) => TellAllKeeps(s, d, false, 0);
        case Receive(Client(handle, cid, payload)) => OnDataKeeps(s, handle, cid, payload);
        case Receive(Signal(handle, id, c)) => OnSignalKeeps(s, handle, id, c);
        case Receive(Ignored) =>
        case StartConnection(d, psm) =>
          if d < |s.devices| {
            StartKeeps(s, d, psm);
          }
        case CloseConnection(i) =>
          if i < |s.conns| {
            CloseKeeps(s, i);
          }
      }
    }
  }
}
