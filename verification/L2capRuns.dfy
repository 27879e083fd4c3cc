/** The L2CAP layer over whole runs: the invariant, what clients know, and which CIDs are used. */
module L2capRuns {
  import opened Bytes
  import opened Folds
  import opened L2capPackets
  import opened L2cap
  import opened L2capSafety

  // ---------------------------------------------------------------- CIDs only ever get used up

  predicate Grows(s: Layer, t: Layer)
  {
    |s.devices| <= |t.devices| && forall d | 0 <= d < |s.devices| :: s.devices[d].drawn <= t.devices[d].drawn
  }

  lemma CheckGrows(s: Layer, i: nat)
    requires i < |s.conns|
    ensures Grows(s, Check(s, i))
  {
    CheckDraws(s, i);
  }

  lemma OnConnectReqGrows(s: Layer, handle: word, id: byte, psm: word, scid: word)
    ensures Grows(s, OnConnectReq(s, handle, id, psm, scid))
  {
  }

  lemma OnConnectRspGrows(s: Layer, i: nat, dcid: word, result: word)
    requires i < |s.conns|
    ensures Grows(s, OnConnectRsp(s, i, dcid, result))
  {
    if s.conns[i].rcid == 0 || s.conns[i].rcid == dcid {
      var s1 := SetRemote(s, i, dcid);
      CheckGrows(if result == 0 then Raise(s1, i, Linked) else s1, i);
    }
  }

  lemma OnConfigReqGrows(s: Layer, i: nat, handle: word, id: byte, c: Command)
    requires i < |s.conns|
    ensures Grows(s, OnConfigReq(s, i, handle, id, c))
  {
    var s1 := Do(s, i, {ReqReceived}, Got(c));
    CheckGrows(Send(s1, i, {RspSent}, handle, id, ConfigRsp(s.conns[i].rcid, 0, 0)), i);
  }

  lemma OnSignalGrows(s: Layer, handle: word, id: byte, c: Command)
    ensures Grows(s, OnSignal(s, handle, id, c))
  {
    if !Refused(c) && !Forbidden(c) && handle % 0x1000 != 0 {
      var i := FindLocal(s, handle, Named(c));
      match c {
        case ConnectReq(psm, scid) => OnConnectReqGrows(s, handle, id, psm, scid);
        case ConnectRsp(dcid, _, result, _) =>
          if i < |s.conns| { OnConnectRspGrows(Say(s, i, Got(c)), i, dcid, result); }
        case ConfigReq(_, _) => if i < |s.conns| { OnConfigReqGrows(s, i, handle, id, c); }
        case ConfigRsp(_, _, _) => if i < |s.conns| { CheckGrows(Do(s, i, {RspReceived}, Got(c)), i); }
        case DisconnectReq(_, _) =>
        case DisconnectRsp(_, _) =>
      }
    }
  }

  lemma {:induction false} AskPendingGrows(s: Layer, d: nat, i: nat)
    ensures SameDraws(s, AskPending(s, d, i))
    decreases |s.conns| - i
  {
    if i < |s.conns| {
      AskPendingGrows(AskOne(s, d, i), d, i + 1);
    }
  }

  lemma {:induction false} TellAllGrows(s: Layer, d: nat, error: bool, i: nat)
    ensures SameDraws(s, TellAll(s, d, error, i))
    decreases |s.conns| - i
  {
    if i < |s.conns| {
      TellAllGrows(TellOne(s, d, error, i), d, error, i + 1);
    }
  }

  lemma StepGrows(s: Layer, e: Event)
    ensures Grows(s, Step(s, e))
  {
    if !s.failed {
      match e {
        case HciConnected(d) => AskPendingGrows(s, d, 0);
        case HciError(d) => TellAllGrows(s, d, true, 0);
        case HciDisconnected(d) => TellAllGrows(s, d, false, 0);
        case Receive(Signal(handle, id, c)) => OnSignalGrows(s, handle, id, c);
        case _ =>
      }
    }
  }

  // ---------------------------------------------------------------- runs

  /** What l2cap_init leads to after some calls. */
  function After(clients: set<word>, calls: seq<Event>): (r: Layer)
  {
    Run(Step, Initial(clients), calls)
  }

  lemma InitialInv(clients: set<word>)
    ensures Inv(Initial(clients))
  {
  }

  /** Every run keeps the invariant, while no device has used up its CIDs. */
  lemma {:induction false} RunKeeps(clients: set<word>, calls: seq<Event>)
    requires CidsLeft(After(clients, calls))
    ensures Inv(After(clients, calls))
    decreases |calls|
  {
    if calls == [] {
      InitialInv(clients);
    } else {
      var n := |calls| - 1;
      StepGrows(After(clients, calls[..n]), calls[n]);
      RunKeeps(clients, calls[..n]);
      StepKeeps(After(clients, calls[..n]), calls[n]);
    }
  }

  /** A CID is drawn for one connection only. */
  lemma CidDrawnOnce(clients: set<word>, calls: seq<Event>, j: nat, k: nat)
    requires CidsLeft(After(clients, calls)) && j < k < |After(clients, calls).trace|
    requires var t := After(clients, calls).trace; t[j].what == t[k].what == Opened && t[j].device == t[k].device
    ensures After(clients, calls).trace[j].lcid != After(clients, calls).trace[k].lcid
  {
    RunKeeps(clients, calls);
    var t := After(clients, calls).trace;
    DueAt(t, k);
    FactIn(t[..k], j);
    assert t[..k][j] == t[j];
  }

  /**
    The client of a live connection has been told it is open exactly when the peer's CID, its config
    request and its config response have all come, in whatever order.
  */
  lemma ToldExactlyWhenOpen(clients: set<word>, calls: seq<Event>, i: nat)
    requires CidsLeft(After(clients, calls))
    requires i < |After(clients, calls).conns| && After(clients, calls).conns[i].lcid != 0
    ensures var s := After(clients, calls);
            var c, facts := s.conns[i], Facts(s.trace);
            WasTold(c, facts) <==>
              && c.psm in s.clients && c.rcid != 0
              && Fact(Did(ReqReceived), DeviceOf(c), c.lcid) in facts
              && Fact(Did(RspReceived), DeviceOf(c), c.lcid) in facts
  {
    RunKeeps(clients, calls);
    var s := After(clients, calls);
    BitsAreHistory(s, i);
    var c, facts := s.conns[i], Facts(s.trace);
    assert Settled(c, facts, s.clients);
    HasStep(c, facts, ReqReceived);
    HasStep(c, facts, RspReceived);
  }

  lemma HasStep(c: Conn, facts: set<Fact>, b: Bit)
    requires b in FOUR && c.bits * FOUR == Config(facts, DeviceOf(c), c.lcid)
    ensures b in c.bits <==> Fact(Did(b), DeviceOf(c), c.lcid) in facts
  {
    assert b in c.bits * FOUR <==> b in c.bits;
  }

  // ---------------------------------------------------------------- finding a connection

  lemma {:induction false} FindLocalFromExact(conns: seq<Conn>, d: nat, cid: word, i: nat, from: nat)
    requires Distinct(conns) && from <= i < |conns| && HasLocal(conns[i], d, cid) && cid != 0
    ensures FindLocalFrom(conns, d, cid, from) == i
    decreases i - from
  {
  }

  /** In every run, findLocalCid returns a connection if and only if it is the one with that device and CID. */
  lemma FindLocalExact(clients: set<word>, calls: seq<Event>, handle: word, cid: word, i: nat)
    requires CidsLeft(After(clients, calls)) && i < |After(clients, calls).conns|
    ensures var s := After(clients, calls);
            var d := FindDevice(s.devices, handle % 0x1000);
            FindLocal(s, handle, cid) == i <==> d < |s.devices| && HasLocal(s.conns[i], d, cid)
  {
    RunKeeps(clients, calls);
    var s := After(clients, calls);
    var d := FindDevice(s.devices, handle % 0x1000);
    assert SlotOk(s.conns[i], Facts(s.trace), Limits(s.devices));
    if d < |s.devices| && HasLocal(s.conns[i], d, cid) {
      FindLocalFromExact(s.conns, d, cid, i, 0);
    }
  }

  /** The next connection of a device gets the CID 0, and its slot still counts as free, exactly when all were drawn. */
  lemma CidsRunOut(s: Layer, i: nat, d: nat, psm: word, rcid: word)
    requires i < |s.conns| && d < |s.devices| && s.devices[d].drawn <= ALL_CIDS
    ensures Open(s, i, d, psm, rcid).conns[i].lcid == 0 <==> s.devices[d].drawn == ALL_CIDS
  {
  }
}
