/**
  What each call into the L2CAP layer makes it send, message by message: the answers to a peer's commands,
  and the requests for connections of our own.
*/
module L2capAnswers {
  import opened Bytes
  import opened L2cap
  import opened L2capPackets

  /** The handle with the flag for the first fragment of a packet. */
  function First(handle: word): (r: word)
  {
    if (handle / 0x2000) % 2 == 0 then handle + 0x2000 else handle
  }

  // ---------------------------------------------------------------- connection requests

  /** The device of a handle: the first whose handle has the same low twelve bits. */
  predicate IsDevice(s: Layer, handle: word, d: nat)
  {
    && d < |s.devices| && s.devices[d].handle % 0x1000 == handle % 0x1000
    && forall k | 0 <= k < d :: s.devices[k].handle % 0x1000 != handle % 0x1000
  }

  lemma DeviceFound(s: Layer, handle: word, d: nat)
    ensures IsDevice(s, handle, d) <==> d == FindDevice(s.devices, handle % 0x1000) < |s.devices|
  {
    var f := FindDevice(s.devices, handle % 0x1000);
    if IsDevice(s, handle, d) {
      assert !(d < f) && !(f < d);
    }
  }

  /** A device asks for a connection that is not there yet, and a slot is free. */
  predicate Accepts(s: Layer, handle: word, scid: word, d: nat, i: nat)
  {
    && !s.failed && handle % 0x1000 != 0 && IsDevice(s, handle, d)
    && (forall k | 0 <= k < |s.conns| :: !HasRemote(s.conns[k], d, scid))
    && i < |s.conns| && s.conns[i].lcid == 0 && forall k | 0 <= k < i :: s.conns[k].lcid != 0
  }

  /**
    The connection is accepted: it gets the next CID of the device, and one message goes out, a response that
    gives the peer this CID for its own, with result 0, the identifier of the request and its handle.
  */
  lemma RequestAccepted(s: Layer, handle: word, id: byte, psm: word, scid: word, d: nat, i: nat)
    requires Accepts(s, handle, scid, d, i)
    ensures var t := Step(s, Receive(Signal(handle, id, ConnectReq(psm, scid))));
            var cid := (0x70 + s.devices[d].drawn) % 0x1_0000;
            && t.conns == s.conns[i := Conn(Some(d), psm, cid, scid, {})]
            && t.sent == s.sent + [Sending(handle % 0x1000 + 0x2000, id, ConnectRsp(cid, scid, 0, 0))]
            && t.devices == s.devices[d := s.devices[d].(drawn := s.devices[d].drawn + 1)] && !t.failed
  {
    DeviceFound(s, handle, d);
    assert FindRemoteFrom(s.conns, d, scid, 0) == |s.conns|;
    assert FirstFreeFrom(s.conns, 0) == i;
    var s1 := Say(Open(s, i, d, psm, scid), i, Got(ConnectReq(psm, scid)));
    var cid := s1.conns[i].lcid;
    var s2 := Send(s1, i, {}, handle % 0x1000, id, ConnectRsp(cid, scid, 0, 0));
    NothingToCheck(s2, i);
    assert s2.conns[i].bits + {} == s2.conns[i].bits;
  }

  lemma NothingToCheck(s: Layer, i: nat)
    requires i < |s.conns| && s.conns[i].bits == {}
    ensures Check(s, i) == s
  {
    assert RspSent in FOUR;
  }

  /** Otherwise nothing is sent and nothing changes: no such device, the connection is there, or no slot is free. */
  lemma RequestIgnored(s: Layer, handle: word, id: byte, psm: word, scid: word)
    requires !s.failed && handle % 0x1000 != 0 && forall d, i :: !Accepts(s, handle, scid, d, i)
    ensures Step(s, Receive(Signal(handle, id, ConnectReq(psm, scid)))) == s
  {
    var d, i := FindDevice(s.devices, handle % 0x1000), FirstFreeFrom(s.conns, 0);
    DeviceFound(s, handle, d);
    assert !Accepts(s, handle, scid, d, i);
  }

  // ---------------------------------------------------------------- commands for a connection

  /** The connection that a command is for: the first of the device with this local CID. */
  predicate At(s: Layer, handle: word, cid: word, i: nat)
  {
    && !s.failed && handle % 0x1000 != 0 && i < |s.conns| && s.conns[i].lcid == cid
    && s.conns[i].device.Some? && IsDevice(s, handle, s.conns[i].device.value)
    && forall k | 0 <= k < i :: s.conns[k].device != s.conns[i].device || s.conns[k].lcid != cid
  }

  lemma Found(s: Layer, handle: word, cid: word, i: nat)
    requires At(s, handle, cid, i)
    ensures FindLocal(s, handle, cid) == i
  {
    DeviceFound(s, handle, s.conns[i].device.value);
    var d := s.conns[i].device.value;
    var f := FindLocalFrom(s.conns, d, cid, 0);
    assert HasLocal(s.conns[i], d, cid);
    assert !(f < i) && !(i < f);
  }

  lemma FoundBack(s: Layer, handle: word, cid: word)
    requires !s.failed && handle % 0x1000 != 0 && FindLocal(s, handle, cid) < |s.conns|
    ensures At(s, handle, cid, FindLocal(s, handle, cid))
  {
    var d, i := FindDevice(s.devices, handle % 0x1000), FindLocal(s, handle, cid);
    DeviceFound(s, handle, d);
    assert HasLocal(s.conns[i], d, cid);
    forall k | 0 <= k < i ensures s.conns[k].device != s.conns[i].device || s.conns[k].lcid != cid {
      assert !HasLocal(s.conns[k], d, cid);
    }
  }

  /** The local CID that a command names: the peer's destination, and in its responses to us the source. */
  function CidOf(c: Command): (cid: word)
    requires !c.ConnectReq?
  {
    match c
    case ConnectRsp(_, scid, _, _) => scid
    case ConfigReq(dcid, _) => dcid
    case ConfigRsp(dcid, _, _) => dcid
    case DisconnectReq(dcid, _) => dcid
    case DisconnectRsp(_, scid) => scid
  }

  /** Commands and data for a connection that is not there do nothing. */
  lemma NobodyThere(s: Layer, handle: word, id: byte, c: Command, payload: seq<byte>)
    requires !s.failed && handle % 0x1000 != 0 && !c.ConnectReq? && forall i :: !At(s, handle, CidOf(c), i)
    requires c.ConfigReq? || c.ConfigRsp? ==> c.flags == 0 && (c.ConfigRsp? ==> c.result == 0)
    ensures Step(s, Receive(Signal(handle, id, c))) == s
    ensures Step(s, Receive(Client(handle, CidOf(c), payload))) == s
  {
    if FindLocal(s, handle, CidOf(c)) < |s.conns| {
      FoundBack(s, handle, CidOf(c));
    }
  }

  /** Handle 0 fails an assertion, but for refused connection responses, which are dropped before. */
  lemma NoHandle(s: Layer, handle: word, id: byte, c: Command, cid: word, payload: seq<byte>)
    requires !s.failed && handle % 0x1000 == 0
    ensures Step(s, Receive(Signal(handle, id, c))) == if c.ConnectRsp? && c.result > 1 then s else s.(failed := true)
    ensures Step(s, Receive(Client(handle, cid, payload))) == s.(failed := true)
  {
  }

  /** Our own config request, when it is due: the peer's has come, its CID is known, and ours is not out. */
  function OwnRequest(s: Layer, c: Conn, rcid: word, received: bool): (messages: seq<Sending>)
  {
    if rcid != 0 && received && ReqSent !in c.bits && DeviceOf(c) < |s.devices| then
      var dev := s.devices[DeviceOf(c)];
      [Sending(First(dev.handle), dev.nextId % 256, ConfigReq(rcid, 0))]
    else []
  }

  lemma CheckSends(s: Layer, i: nat)
    requires i < |s.conns|
    ensures var c := s.conns[i];
            Check(s, i).sent == s.sent + OwnRequest(s, c, c.rcid, ReqReceived in c.bits)
  {
    if !MustAsk(s.conns[i]) || DeviceOf(s.conns[i]) >= |s.devices| {
      assert s.sent + [] == s.sent;
    }
  }

  /** A config request is answered with result 0 towards the remote CID, and followed by our own when that is due. */
  lemma ConfigRequestAnswered(s: Layer, handle: word, id: byte, cid: word, i: nat)
    requires At(s, handle, cid, i)
    ensures var c, t := s.conns[i], Step(s, Receive(Signal(handle, id, ConfigReq(cid, 0))));
            && t.sent == s.sent + ([Sending(First(handle), id, ConfigRsp(c.rcid, 0, 0))]
                                   + OwnRequest(s, c, c.rcid, true))
            && ReqReceived in t.conns[i].bits && RspSent in t.conns[i].bits
  {
    Found(s, handle, cid, i);
    var c := s.conns[i];
    var s1 := Do(s, i, {ReqReceived}, Got(ConfigReq(cid, 0)));
    var s2 := Send(s1, i, {RspSent}, handle, id, ConfigRsp(c.rcid, 0, 0));
    CheckSends(s2, i);
  }

  /** A config response is not answered; our own request follows when it is due. */
  lemma ConfigResponseTaken(s: Layer, handle: word, id: byte, cid: word, i: nat)
    requires At(s, handle, cid, i)
    ensures var c, t := s.conns[i], Step(s, Receive(Signal(handle, id, ConfigRsp(cid, 0, 0))));
            && t.sent == s.sent + OwnRequest(s, c, c.rcid, ReqReceived in c.bits) && RspReceived in t.conns[i].bits
  {
    Found(s, handle, cid, i);
    CheckSends(Do(s, i, {RspReceived}, Got(ConfigRsp(cid, 0, 0))), i);
  }

  /** A connection response with result 0 or 1 gives the remote CID; with it our config request may be due. */
  lemma ConnectResponseTaken(
      s: Layer, handle: word, id: byte, dcid: word, scid: word, result: word, status: word, i: nat)
    requires At(s, handle, scid, i) && result <= 1 && (s.conns[i].rcid == 0 || s.conns[i].rcid == dcid)
    ensures var c, t := s.conns[i], Step(s, Receive(Signal(handle, id, ConnectRsp(dcid, scid, result, status))));
            && t.sent == s.sent + OwnRequest(s, c, dcid, ReqReceived in c.bits) && t.conns[i].rcid == dcid
  {
    Found(s, handle, scid, i);
    var s1 := SetRemote(Say(s, i, Got(ConnectRsp(dcid, scid, result, status))), i, dcid);
    CheckSends(if result == 0 then Raise(s1, i, Linked) else s1, i);
  }

  /** A disconnection request is answered with its own two CIDs, and the slot is free. */
  lemma DisconnectionAnswered(s: Layer, handle: word, id: byte, dcid: word, scid: word, i: nat)
    requires At(s, handle, dcid, i)
    ensures var t := Step(s, Receive(Signal(handle, id, DisconnectReq(dcid, scid))));
            && t.sent == s.sent + [Sending(First(handle), id, DisconnectRsp(dcid, scid))]
            && t.conns == s.conns[i := VACANT]
  {
    Found(s, handle, dcid, i);
    var s1 := Tell(Say(s, i, Got(DisconnectReq(dcid, scid))), i, Disconnected);
    assert s1.conns[i].bits + {} == s1.conns[i].bits;
  }

  /** A disconnection response frees the slot, and nothing is sent. */
  lemma DisconnectionDone(s: Layer, handle: word, id: byte, dcid: word, scid: word, i: nat)
    requires At(s, handle, scid, i)
    ensures var t := Step(s, Receive(Signal(handle, id, DisconnectRsp(dcid, scid))));
            t.sent == s.sent && t.conns == s.conns[i := VACANT]
  {
    Found(s, handle, scid, i);
  }

  /** Refused connection responses do nothing; flags, and results of a configuration, fail an assertion. */
  lemma RefusedAndForbidden(s: Layer, handle: word, id: byte, c: Command)
    requires !s.failed
    ensures c.ConnectRsp? && c.result > 1 ==> Step(s, Receive(Signal(handle, id, c))) == s
    ensures (c.ConfigReq? && c.flags != 0) || (c.ConfigRsp? && (c.flags != 0 || c.result != 0))
            ==> Step(s, Receive(Signal(handle, id, c))) == s.(failed := true)
  {
  }

  /** So does a connection response with another remote CID than the one known. */
  lemma OtherRemoteFails(s: Layer, handle: word, id: byte, dcid: word, scid: word, result: word, status: word, i: nat)
    requires At(s, handle, scid, i) && result <= 1 && s.conns[i].rcid != 0 && s.conns[i].rcid != dcid
    ensures Step(s, Receive(Signal(handle, id, ConnectRsp(dcid, scid, result, status)))).failed
  {
    Found(s, handle, scid, i);
  }

  /** Client data is handed to the client of its connection as it came, and does nothing else. */
  lemma DataGoesToClient(s: Layer, handle: word, cid: word, payload: seq<byte>, i: nat)
    requires At(s, handle, cid, i)
    ensures var c := s.conns[i];
            var told := Act(Told(Data(payload)), DeviceOf(c), c.psm, c.lcid, c.rcid);
            Step(s, Receive(Client(handle, cid, payload)))
            == if c.psm in s.clients then s.(trace := s.trace + [told]) else s.(failed := true)
  {
    Found(s, handle, cid, i);
  }

  // ---------------------------------------------------------------- connections of our own

  /** A connection that is started on a link asks for itself: its PSM and the CID it has just drawn. */
  lemma StartAsks(s: Layer, d: nat, psm: word, i: nat)
    requires !s.failed && d < |s.devices| && s.devices[d].handle < 0x8000 && s.devices[d].handle % 0x1000 != 0
    requires i < |s.conns| && s.conns[i].lcid == 0 && forall k | 0 <= k < i :: s.conns[k].lcid != 0
    ensures var dev, t := s.devices[d], Step(s, StartConnection(d, psm));
            var cid := (0x70 + dev.drawn) % 0x1_0000;
            && t.conns == s.conns[i := Conn(Some(d), psm, cid, 0, {})]
            && t.sent == s.sent + [Sending(dev.handle % 0x1000 + 0x2000, dev.nextId % 256, ConnectReq(psm, cid))]
  {
    assert FirstFreeFrom(s.conns, 0) == i;
    var none: set<Bit> := {};
    assert none + {} == none;
  }

  /** Closing asks for the disconnection of the two CIDs, and keeps the slot. */
  lemma CloseAsks(s: Layer, i: nat)
    requires !s.failed && i < |s.conns| && s.conns[i].device.Some? && s.conns[i].device.value < |s.devices|
    ensures var c, t := s.conns[i], Step(s, CloseConnection(i));
            var dev := s.devices[c.device.value];
            && t.conns == s.conns
            && t.sent == s.sent + [Sending(First(dev.handle), dev.nextId % 256, DisconnectReq(c.rcid, c.lcid))]
  {
    assert s.conns[i].bits + {} == s.conns[i].bits && s.conns[i := s.conns[i]] == s.conns;
  }

  // ---------------------------------------------------------------- every connection of a device

  /** The connections of a device whose client hears about it. */
  predicate Concerned(s: Layer, c: Conn, d: nat) { c.device == Some(d) && c.psm in s.clients }

  /** What the clients are told from slot i on, in the order of the slots. */
  function Tidings(s: Layer, d: nat, e: ClientEvent, i: nat): (acts: seq<Act>)
    decreases |s.conns| - i
  {
    if i >= |s.conns| then []
    else
      var c := s.conns[i];
      (if Concerned(s, c, d) then [Act(Told(e), d, c.psm, c.lcid, c.rcid)] else []) + Tidings(s, d, e, i + 1)
  }

  /** From a slot on, what the table holds decides the tidings. */
  lemma {:induction false} TidingsFrom(s: Layer, t: Layer, d: nat, e: ClientEvent, i: nat)
    requires t.clients == s.clients && |t.conns| == |s.conns|
    requires forall k | i <= k < |s.conns| :: t.conns[k] == s.conns[k]
    ensures Tidings(t, d, e, i) == Tidings(s, d, e, i)
    decreases |s.conns| - i
  {
    if i < |s.conns| { TidingsFrom(s, t, d, e, i + 1); }
  }

  /** What becomes of a slot. */
  function Left(s: Layer, c: Conn, d: nat, error: bool): (c': Conn)
  {
    if !Concerned(s, c, d) then c else if error then c.(bits := c.bits + {Failed}) else VACANT
  }

  lemma TellOneDoes(s: Layer, d: nat, error: bool, i: nat)
    requires i < |s.conns|
    ensures var c, t := s.conns[i], TellOne(s, d, error, i);
            && t.conns == s.conns[i := Left(s, c, d, error)] && t.clients == s.clients && t.sent == s.sent
            && t.trace == s.trace + if Concerned(s, c, d) then
                                      [Act(Told(if error then Error else Disconnected), d, c.psm, c.lcid, c.rcid)]
                                    else []
  {
    assert s.conns[i := s.conns[i]] == s.conns && s.trace + [] == s.trace;
  }

  lemma {:induction false} TellAllDoes(s: Layer, d: nat, error: bool, i: nat)
    ensures var t := TellAll(s, d, error, i);
            && |t.conns| == |s.conns| && t.sent == s.sent
            && (forall k | 0 <= k < |s.conns| ::
                  t.conns[k] == if k < i then s.conns[k] else Left(s, s.conns[k], d, error))
            && t.trace == s.trace + Tidings(s, d, if error then Error else Disconnected, i)
    decreases |s.conns| - i
  {
    if i < |s.conns| {
      var t := TellOne(s, d, error, i);
      TellOneDoes(s, d, error, i);
      TellAllDoes(t, d, error, i + 1);
      TidingsFrom(s, t, d, if error then Error else Disconnected, i + 1);
    } else {
      assert s.trace + [] == s.trace;
    }
  }

  /**
    When the link of a device is lost, every client of one of its connections is told, and these connections are
    gone; on an error they are told that and stay, marked. Nothing is sent, and no other slot changes.
  */
  lemma EveryClientIsTold(s: Layer, d: nat, error: bool)
    requires !s.failed
    ensures var t := Step(s, if error then HciError(d) else HciDisconnected(d));
            && t.sent == s.sent && |t.conns| == |s.conns|
            && (forall k | 0 <= k < |s.conns| :: t.conns[k] == Left(s, s.conns[k], d, error))
            && t.trace == s.trace + Tidings(s, d, if error then Error else Disconnected, 0)
  {
    TellAllDoes(s, d, error, 0);
  }

  /** The connection requests that wait for a device's link, from slot i on, numbered from id. */
  function Waiting(conns: seq<Conn>, d: nat, handle: word, id: word, i: nat): (messages: seq<Sending>)
    decreases |conns| - i
  {
    if i >= |conns| then []
    else
      var c := conns[i];
      if c.device == Some(d) && Connecting in c.bits then
        [Sending(First(handle % 0x1000), id % 256, ConnectReq(c.psm, c.lcid))]
        + Waiting(conns, d, handle, (id + 1) % 0x1_0000, i + 1)
      else Waiting(conns, d, handle, id, i + 1)
  }

  lemma AskOneDoes(s: Layer, d: nat, i: nat)
    requires i < |s.conns| && d < |s.devices|
    ensures var c, t, dev := s.conns[i], AskOne(s, d, i), s.devices[d];
            && t.conns == s.conns && |t.devices| == |s.devices| && t.devices[d].handle == dev.handle
            && (if c.device == Some(d) && Connecting in c.bits then
                  && t.devices[d].nextId == (dev.nextId + 1) % 0x1_0000
                  && t.sent == s.sent + [Sending(First(dev.handle % 0x1000), dev.nextId % 256,
                                                 ConnectReq(c.psm, c.lcid))]
                else t == s)
  {
    assert s.conns[i].bits + {} == s.conns[i].bits && s.conns[i := s.conns[i]] == s.conns;
  }

  lemma {:induction false} AskPendingDoes(s: Layer, d: nat, i: nat)
    requires d < |s.devices|
    ensures AskPending(s, d, i).conns == s.conns
    ensures AskPending(s, d, i).sent
         == s.sent + Waiting(s.conns, d, s.devices[d].handle, s.devices[d].nextId, i)
    decreases |s.conns| - i
  {
    if i < |s.conns| {
      AskOneDoes(s, d, i);
      AskPendingDoes(AskOne(s, d, i), d, i + 1);
    } else {
      assert s.sent + [] == s.sent;
    }
  }

  /** When the link of a device comes up, every connection that was waiting for it is asked for, once and in order. */
  lemma EveryPendingIsAsked(s: Layer, d: nat)
    requires !s.failed && d < |s.devices|
    ensures var t := Step(s, HciConnected(d));
            && t.conns == s.conns
            && t.sent == s.sent + Waiting(s.conns, d, s.devices[d].handle, s.devices[d].nextId, 0)
  {
    AskPendingDoes(s, d, 0);
  }
}
