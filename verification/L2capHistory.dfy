/**
  What one call into the L2CAP layer adds to its history and to what it has sent: the acts that came are
  the command of the call, the messages are those that were sent, and a client is told that its connection
  is open at most once a call.
*/
module L2capHistory {
  import opened Bytes
  import opened L2cap
  import opened L2capPackets
  import opened L2capSafety

  // ---------------------------------------------------------------- reading a history

  /** The messages of a history, in order. */
  function SentOf(trace: seq<Act>): (sent: seq<Sending>)
    decreases |trace|
  {
    if trace == [] then []
    else
      var a := trace[|trace| - 1];
      SentOf(trace[..|trace| - 1]) + if a.what.Sent? then [a.what.message] else []
  }

  /** How often something happened to a connection. */
  function Times(trace: seq<Act>, f: Fact): (times: nat)
    decreases |trace|
  {
    if trace == [] then 0
    else Times(trace[..|trace| - 1], f) + Count(FactOf(trace[|trace| - 1]) == f)
  }

  function Count(b: bool): (n: nat) { if b then 1 else 0 }

  lemma {:induction false} HistoryConcat(a: seq<Act>, b: seq<Act>, f: Fact)
    ensures SentOf(a + b) == SentOf(a) + SentOf(b)
    ensures Times(a + b, f) == Times(a, f) + Times(b, f)
    decreases |b|
  {
    if b == [] {
      assert a + b == a;
    } else {
      var k := |b| - 1;
      HistoryConcat(a, b[..k], f);
      assert (a + b)[..|a + b| - 1] == a + b[..k] && (a + b)[|a + b| - 1] == b[k];
    }
  }

  /** What has happened is what has happened at least once. */
  lemma {:induction false} FactsAreTimes(trace: seq<Act>, f: Fact)
    ensures f in Facts(trace) <==> Times(trace, f) > 0
    decreases |trace|
  {
    if trace != [] {
      FactsAreTimes(trace[..|trace| - 1], f);
    }
  }

  lemma OneAct(a: Act, f: Fact)
    ensures SentOf([a]) == if a.what.Sent? then [a.what.message] else []
    ensures Times([a], f) == Count(FactOf(a) == f)
  {
    assert [a][..0] == [];
  }

  // ---------------------------------------------------------------- what is added

  /** t has these acts more, and the messages among them. */
  predicate Added(s: Layer, t: Layer, acts: seq<Act>)
  {
    t.trace == s.trace + acts && t.sent == s.sent + SentOf(acts)
  }

  lemma AddedTwice(s: Layer, t: Layer, u: Layer, a: seq<Act>, b: seq<Act>)
    requires Added(s, t, a) && Added(t, u, b)
    ensures Added(s, u, a + b)
  {
    HistoryConcat(a, b, Fact(ToldOpen, 0, 0));
  }

  /** What a call brings: the handles of all devices at its start, and the packet with the device it comes from. */
  datatype Post = Post(handles: seq<word>, device: nat, input: Input)

  function Brought(s: Layer, e: Event): (p: Post)
  {
    Post(seq(|s.devices|, d requires 0 <= d < |s.devices| => s.devices[d].handle),
         if e.Receive? && e.input.Signal? then FindDevice(s.devices, e.input.handle % 0x1000) else 0,
         if e.Receive? then e.input else Ignored)
  }

  /** The packet is this command from this device. */
  predicate From(p: Post, device: nat, c: Command)
  {
    p.device == device && p.input.Signal? && p.input.command == c
  }

  predicate Came(a: Act, p: Post) { a.what.Got? ==> From(p, a.device, a.what.command) }

  /** A message bears this handle, apart from the flags, and the flag for the first fragment of a packet. */
  predicate Bears(m: Sending, handle: word) { m.handle % 0x1000 == handle % 0x1000 && (m.handle / 0x2000) % 2 == 1 }

  /** It answers the packet of the call: same handle, same identifier. */
  predicate Answers(m: Sending, p: Post) { p.input.Signal? && m.id == p.input.id && Bears(m, p.input.handle) }

  /** It goes to the device of the connection. */
  predicate OwnHandle(m: Sending, device: nat, p: Post) { device < |p.handles| && Bears(m, p.handles[device]) }

  /** A request of ours: what it asks for is the connection it is sent for. */
  predicate Asks(c: Command, psm: word, lcid: word, rcid: word)
  {
    match c
    case ConnectReq(p, scid) => p == psm && scid == lcid
    case ConfigReq(dcid, flags) => dcid == rcid && flags == 0
    case DisconnectReq(dcid, scid) => dcid == rcid && scid == lcid
    case _ => false
  }

  /**
    A response of ours: a connection response accepts the request of the call with the local CID that was
    drawn, a config response accepts a config request for the connection, towards the remote CID, and a
    disconnection response gives back the two CIDs of the request.
  */
  predicate Responds(c: Command, request: Command, psm: word, lcid: word, rcid: word)
  {
    match c
    case ConnectRsp(dcid, scid, result, status) =>
      request == ConnectReq(psm, scid) && dcid == lcid && scid == rcid && result == 0 && status == 0
    case ConfigRsp(dcid, flags, result) =>
      request.ConfigReq? && request.dcid == lcid && dcid == rcid && flags == 0 && result == 0
    case DisconnectRsp(dcid, scid) => request == DisconnectReq(dcid, scid) && dcid == lcid
    case _ => false
  }

  /** What a message says, who it goes to and what it answers. */
  predicate Fits(a: Act, p: Post)
  {
    a.what.Sent? ==>
      var m := a.what.message;
      || (Asks(m.command, a.psm, a.lcid, a.rcid) && OwnHandle(m, a.device, p))
      || (Answers(m, p) && Responds(m.command, p.input.command, a.psm, a.lcid, a.rcid))
  }

  /** Everything the acts say came, came with this call, and every message is right. */
  predicate Clean(acts: seq<Act>, p: Post)
  {
    forall a | a in acts :: Came(a, p) && Fits(a, p)
  }

  /** The handles of the devices are still those at the start of the call. */
  predicate Held(s: Layer, p: Post)
  {
    |s.devices| == |p.handles| && forall d | 0 <= d < |s.devices| :: s.devices[d].handle == p.handles[d]
  }

  lemma HeldAtFirst(s: Layer, e: Event)
    ensures Held(s, Brought(s, e))
  {
  }

  lemma SameHandles(s: Layer, t: Layer, p: Post)
    requires Held(s, p) && |t.devices| == |s.devices|
    requires forall d | 0 <= d < |s.devices| :: t.devices[d].handle == s.devices[d].handle
    ensures Held(t, p)
  {
  }

  lemma BoundaryOnly(h: word)
    ensures WithBoundary(h) % 0x1000 == h % 0x1000 && (WithBoundary(h) / 0x2000) % 2 == 1
  {
  }

  /** And nobody is told that anything is open. */
  predicate Quiet(acts: seq<Act>, p: Post)
  {
    Clean(acts, p) && forall a | a in acts :: KindOf(a.what) != ToldOpen
  }

  predicate Quietly(s: Layer, t: Layer, acts: seq<Act>, p: Post) { Added(s, t, acts) && Quiet(acts, p) }

  lemma {:induction false} QuietTellsNone(acts: seq<Act>, p: Post, f: Fact)
    requires Quiet(acts, p) && f.kind == ToldOpen
    ensures Times(acts, f) == 0
    decreases |acts|
  {
    if acts != [] {
      assert acts[|acts| - 1] in acts && forall a | a in acts[..|acts| - 1] :: a in acts;
      QuietTellsNone(acts[..|acts| - 1], p, f);
    }
  }

  lemma QuietTwice(s: Layer, t: Layer, u: Layer, a: seq<Act>, b: seq<Act>, p: Post)
    requires Quietly(s, t, a, p) && Quietly(t, u, b, p)
    ensures Quietly(s, u, a + b, p)
  {
    AddedTwice(s, t, u, a, b);
  }

  lemma SameAdds(s: Layer, t: Layer, p: Post)
    requires t.trace == s.trace && t.sent == s.sent
    ensures Quietly(s, t, [], p)
  {
    assert s.trace + [] == s.trace && s.sent + [] == s.sent;
  }

  /** Acts, and then something the history does not show. */
  lemma ThenSame(s: Layer, t: Layer, u: Layer, acts: seq<Act>)
    requires Added(s, t, acts) && u.trace == t.trace && u.sent == t.sent
    ensures Added(s, u, acts)
  {
  }

  lemma DoAdds(s: Layer, i: nat, bits: set<Bit>, w: What, p: Post) returns (acts: seq<Act>)
    requires i < |s.conns| && !w.Sent? && KindOf(w) != ToldOpen && Came(ActOf(w, s.conns[i]), p)
    ensures Quietly(s, Do(s, i, bits, w), acts, p) && Quietly(s, Say(s, i, w), acts, p)
  {
    acts := [ActOf(w, s.conns[i])];
    OneAct(acts[0], Fact(ToldOpen, 0, 0));
    assert s.sent + [] == s.sent;
  }

  lemma SendAdds(s: Layer, i: nat, bits: set<Bit>, handle: word, id: byte, c: Command, p: Post) returns (acts: seq<Act>)
    requires i < |s.conns|
    requires Fits(ActOf(Sent(Sending(WithBoundary(handle), id, c)), s.conns[i]), p)
    ensures Quietly(s, Send(s, i, bits, handle, id, c), acts, p)
  {
    acts := [ActOf(Sent(Sending(WithBoundary(handle), id, c)), s.conns[i])];
    OneAct(acts[0], Fact(ToldOpen, 0, 0));
  }

  /** An answer to the packet of the call. */
  lemma AnswerAdds(s: Layer, i: nat, bits: set<Bit>, handle: word, id: byte, c: Command, p: Post)
    returns (acts: seq<Act>)
    requires i < |s.conns| && p.input.Signal? && p.input.id == id && p.input.handle % 0x1000 == handle % 0x1000
    requires var conn := s.conns[i]; Responds(c, p.input.command, conn.psm, conn.lcid, conn.rcid)
    ensures Quietly(s, Send(s, i, bits, handle, id, c), acts, p)
  {
    BoundaryOnly(handle);
    acts := SendAdds(s, i, bits, handle, id, c, p);
  }

  lemma SendNewAdds(s: Layer, i: nat, bits: set<Bit>, d: nat, handle: word, c: Command, p: Post)
    returns (acts: seq<Act>)
    requires i < |s.conns| && Held(s, p) && d == DeviceOf(s.conns[i])
    requires d < |s.devices| ==> handle % 0x1000 == s.devices[d].handle % 0x1000
    requires var conn := s.conns[i]; Asks(c, conn.psm, conn.lcid, conn.rcid)
    ensures Quietly(s, SendNew(s, i, bits, d, handle, c), acts, p) && Held(SendNew(s, i, bits, d, handle, c), p)
  {
    BoundaryOnly(handle);
    if d < |s.devices| {
      var dev := s.devices[d];
      SameHandles(s, SendNew(s, i, bits, d, handle, c), p);
      var s1 := s.(devices := s.devices[d := dev.(nextId := (dev.nextId + 1) % 0x1_0000)]);
      acts := SendAdds(s1, i, bits, handle, dev.nextId % 256, c, p);
    } else {
      acts := [];
      SameAdds(s, s, p);
    }
  }

  /** What a client is told, besides that its connection is open. */
  lemma TellAdds(s: Layer, i: nat, e: ClientEvent, p: Post) returns (acts: seq<Act>)
    requires i < |s.conns| && !e.Connected?
    ensures Quietly(s, Tell(s, i, e), acts, p)
  {
    if s.conns[i].psm in s.clients {
      acts := DoAdds(s, i, {}, Told(e), p);
    } else {
      acts := [];
      SameAdds(s, s, p);
    }
  }

  // ---------------------------------------------------------------- checkLcapConnectionState

  predicate IsKey(c: Conn, f: Fact) { DeviceOf(c) == f.device && c.lcid == f.lcid }

  /** Whether checkLcapConnectionState tells the client that the connection is open. */
  predicate Tells(s: Layer, i: nat)
    requires i < |s.conns|
  {
    var t := AskConfig(s, i);
    FOUR <= t.conns[i].bits && t.conns[i].lcid != 0 && t.conns[i].psm in t.clients
  }

  lemma AskConfigSame(s: Layer, i: nat)
    requires i < |s.conns|
    ensures var t := AskConfig(s, i);
            && |t.conns| == |s.conns| && t.clients == s.clients
            && DeviceOf(t.conns[i]) == DeviceOf(s.conns[i]) && t.conns[i].lcid == s.conns[i].lcid
            && t.conns[i].psm == s.conns[i].psm && s.conns[i].bits <= t.conns[i].bits
  {
  }

  lemma AskAdds(s: Layer, i: nat, p: Post) returns (acts: seq<Act>)
    requires i < |s.conns| && Held(s, p)
    ensures Quietly(s, AskConfig(s, i), acts, p)
  {
    var c := s.conns[i];
    if MustAsk(c) {
      acts := SendNewAdds(s, i, {ReqSent}, DeviceOf(c), HandleOf(s, DeviceOf(c)), ConfigReq(c.rcid, 0), p);
    } else {
      acts := [];
      SameAdds(s, s, p);
    }
  }

  /** t has these acts more; the client of a connection is told that it is open once if told, and else not. */
  predicate Adds(s: Layer, t: Layer, acts: seq<Act>, p: Post, f: Fact, told: bool)
  {
    Added(s, t, acts) && Clean(acts, p) && Times(acts, f) == Count(told)
  }

  lemma CheckAdds(s: Layer, i: nat, p: Post, f: Fact) returns (acts: seq<Act>)
    requires i < |s.conns| && Held(s, p) && f.kind == ToldOpen
    ensures Adds(s, Check(s, i), acts, p, f, Tells(s, i) && IsKey(s.conns[i], f))
  {
    var t := AskConfig(s, i);
    AskConfigSame(s, i);
    acts := AskAdds(s, i, p);
    QuietTellsNone(acts, p, f);
    if Tells(s, i) {
      var a := ActOf(Told(Connected), t.conns[i]);
      OneAct(a, f);
      assert t.sent + [] == t.sent;
      assert Added(t, Check(s, i), [a]);
      AddedTwice(s, t, Check(s, i), acts, [a]);
      HistoryConcat(acts, [a], f);
      acts := acts + [a];
    }
  }

  /** Acts before a check, and the check. */
  lemma ThenCheck(s: Layer, t: Layer, i: nat, first: seq<Act>, p: Post, f: Fact) returns (acts: seq<Act>)
    requires i < |t.conns| && Held(t, p) && Quietly(s, t, first, p) && f.kind == ToldOpen
    ensures Adds(s, Check(t, i), acts, p, f, Tells(t, i) && IsKey(t.conns[i], f))
  {
    var checked := CheckAdds(t, i, p, f);
    QuietTellsNone(first, p, f);
    HistoryConcat(first, checked, f);
    AddedTwice(s, t, Check(t, i), first, checked);
    acts := first + checked;
  }

  lemma QuietAdds(s: Layer, t: Layer, acts: seq<Act>, p: Post, f: Fact)
    requires Quietly(s, t, acts, p) && f.kind == ToldOpen
    ensures Adds(s, t, acts, p, f, false)
  {
    QuietTellsNone(acts, p, f);
  }

  // ---------------------------------------------------------------- the commands

  /** A connection whose client knows that it is open. */
  predicate Ready(s: Layer, i: nat)
  {
    i < |s.conns| && s.conns[i].lcid != 0 && FOUR <= s.conns[i].bits && s.conns[i].psm in s.clients
  }

  lemma ReadyTells(s: Layer, i: nat)
    requires Ready(s, i)
    ensures Tells(s, i)
  {
    AskConfigSame(s, i);
  }

  lemma OnConfigReqAdds(s: Layer, i: nat, handle: word, id: byte, c: Command, p: Post, f: Fact)
    returns (acts: seq<Act>, told: bool)
    requires i < |s.conns| && c.ConfigReq? && f.kind == ToldOpen && Held(s, p)
    requires p.device == DeviceOf(s.conns[i]) && p.input == Signal(handle, id, c) && c.dcid == s.conns[i].lcid
    ensures Adds(s, OnConfigReq(s, i, handle, id, c), acts, p, f, told)
    ensures told ==> IsKey(s.conns[i], f)
    ensures Ready(s, i) ==> told == IsKey(s.conns[i], f)
  {
    var s1 := Do(s, i, {ReqReceived}, Got(c));
    var rsp := ConfigRsp(s.conns[i].rcid, 0, 0);
    var s2 := Send(s1, i, {RspSent}, handle, id, rsp);
    var a := DoAdds(s, i, {ReqReceived}, Got(c), p);
    var b := AnswerAdds(s1, i, {RspSent}, handle, id, rsp, p);
    QuietTwice(s, s1, s2, a, b, p);
    acts := ThenCheck(s, s2, i, a + b, p, f);
    told := Tells(s2, i) && IsKey(s2.conns[i], f);
    if Ready(s, i) { ReadyTells(s2, i); }
  }

  lemma OnConfigRspAdds(s: Layer, i: nat, c: Command, p: Post, f: Fact) returns (acts: seq<Act>, told: bool)
    requires i < |s.conns| && c.ConfigRsp? && From(p, DeviceOf(s.conns[i]), c) && f.kind == ToldOpen && Held(s, p)
    ensures Adds(s, OnConfigRsp(s, i, c), acts, p, f, told)
    ensures told ==> IsKey(s.conns[i], f)
    ensures Ready(s, i) ==> told == IsKey(s.conns[i], f)
  {
    var s1 := Do(s, i, {RspReceived}, Got(c));
    var a := DoAdds(s, i, {RspReceived}, Got(c), p);
    acts := ThenCheck(s, s1, i, a, p, f);
    told := Tells(s1, i) && IsKey(s1.conns[i], f);
    if Ready(s, i) { ReadyTells(s1, i); }
  }

  /** A connection response is taken, unless it gives another remote CID than the one known. */
  predicate Takes(c: Conn, dcid: word) { c.rcid == 0 || c.rcid == dcid }

  lemma OnConnectRspAdds(s: Layer, i: nat, c: Command, p: Post, f: Fact) returns (acts: seq<Act>, told: bool)
    requires i < |s.conns| && c.ConnectRsp? && From(p, DeviceOf(s.conns[i]), c) && f.kind == ToldOpen && Held(s, p)
    ensures Adds(s, OnConnectRsp(Say(s, i, Got(c)), i, c.dcid, c.result), acts, p, f, told)
    ensures told ==> IsKey(s.conns[i], f)
    ensures Ready(s, i) ==> told == (Takes(s.conns[i], c.dcid) && IsKey(s.conns[i], f))
  {
    var s1 := Say(s, i, Got(c));
    var a := DoAdds(s, i, {}, Got(c), p);
    if Takes(s.conns[i], c.dcid) {
      var s2 := SetRemote(s1, i, c.dcid);
      var s3 := if c.result == 0 then Raise(s2, i, Linked) else s2;
      ThenSame(s, s1, s3, a);
      acts := ThenCheck(s, s3, i, a, p, f);
      told := Tells(s3, i) && IsKey(s3.conns[i], f);
      if Ready(s, i) { ReadyTells(s3, i); }
    } else {
      acts, told := a, false;
      ThenSame(s, s1, Fail(s1), a);
      QuietAdds(s, Fail(s1), a, p, f);
    }
  }

  lemma OnDisconnectReqAdds(s: Layer, i: nat, handle: word, id: byte, dcid: word, scid: word, p: Post)
    returns (acts: seq<Act>)
    requires i < |s.conns| && p.input == Signal(handle, id, DisconnectReq(dcid, scid)) && dcid == s.conns[i].lcid
    ensures Quietly(s, OnDisconnectReq(s, i, handle, id, dcid, scid), acts, p)
  {
    var t := Tell(s, i, Disconnected);
    var u := Send(t, i, {}, handle, id, DisconnectRsp(dcid, scid));
    var a := TellAdds(s, i, Disconnected, p);
    var b := AnswerAdds(t, i, {}, handle, id, DisconnectRsp(dcid, scid), p);
    acts := a + b;
    QuietTwice(s, t, u, a, b, p);
    ThenSame(s, u, Delete(u, i), acts);
  }

  lemma OnDisconnectRspAdds(s: Layer, i: nat, p: Post) returns (acts: seq<Act>)
    requires i < |s.conns|
    ensures Quietly(s, OnDisconnectRsp(s, i), acts, p)
  {
    var t := Tell(s, i, Disconnected);
    acts := TellAdds(s, i, Disconnected, p);
    ThenSame(s, t, Delete(t, i), acts);
  }

  /** The commands that make the layer check a connection: config requests and responses, and connection responses. */
  predicate Checks(conn: Conn, c: Command)
  {
    c.ConfigReq? || c.ConfigRsp? || (c.ConnectRsp? && Takes(conn, c.dcid))
  }

  lemma OnSlotAdds(s: Layer, i: nat, handle: word, id: byte, c: Command, p: Post, f: Fact)
    returns (acts: seq<Act>, told: bool)
    requires i < |s.conns| && p.device == DeviceOf(s.conns[i]) && p.input == Signal(handle, id, c)
    requires f.kind == ToldOpen && Held(s, p) && Named(c) == s.conns[i].lcid
    ensures Adds(s, OnSlot(s, i, handle, id, c), acts, p, f, told)
    ensures told ==> IsKey(s.conns[i], f)
    ensures Ready(s, i) ==> told == (Checks(s.conns[i], c) && IsKey(s.conns[i], f))
  {
    match c {
      case ConnectReq(_, _) =>
        acts, told := [], false;
        SameAdds(s, s, p);
      case ConnectRsp(_, _, _, _) => acts, told := OnConnectRspAdds(s, i, c, p, f);
      case ConfigReq(_, _) => acts, told := OnConfigReqAdds(s, i, handle, id, c, p, f);
      case ConfigRsp(_, _, _) => acts, told := OnConfigRspAdds(s, i, c, p, f);
      case DisconnectReq(dcid, scid) =>
        acts := LeaveAdds(s, i, handle, id, c, p, f);
        told := false;
      case DisconnectRsp(_, _) =>
        acts := LeaveAdds(s, i, handle, id, c, p, f);
        told := false;
    }
  }

  lemma LeaveAdds(s: Layer, i: nat, handle: word, id: byte, c: Command, p: Post, f: Fact) returns (acts: seq<Act>)
    requires i < |s.conns| && p.device == DeviceOf(s.conns[i]) && p.input == Signal(handle, id, c)
    requires f.kind == ToldOpen && Held(s, p)
    requires (c.DisconnectReq? || c.DisconnectRsp?) && Named(c) == s.conns[i].lcid
    ensures Adds(s, OnSlot(s, i, handle, id, c), acts, p, f, false)
  {
    var s1 := Say(s, i, Got(c));
    var a := DoAdds(s, i, {}, Got(c), p);
    var b;
    if c.DisconnectReq? {
      b := OnDisconnectReqAdds(s1, i, handle, id, c.dcid, c.scid, p);
    } else {
      b := OnDisconnectRspAdds(s1, i, p);
    }
    acts := a + b;
    QuietTwice(s, s1, OnSlot(s, i, handle, id, c), a, b, p);
    QuietAdds(s, OnSlot(s, i, handle, id, c), acts, p, f);
  }

  lemma OnConnectReqAdds(s: Layer, handle: word, id: byte, psm: word, scid: word, p: Post, f: Fact)
    returns (acts: seq<Act>)
    requires p.device == FindDevice(s.devices, handle % 0x1000) && p.input == Signal(handle, id, ConnectReq(psm, scid))
    requires f.kind == ToldOpen && Held(s, p)
    ensures Adds(s, OnConnectReq(s, handle, id, psm, scid), acts, p, f, false)
  {
    var d, i := FindDevice(s.devices, handle % 0x1000), FirstFreeFrom(s.conns, 0);
    if d == |s.devices| || FindRemoteFrom(s.conns, d, scid, 0) < |s.conns| || i == |s.conns| {
      acts := [];
      SameAdds(s, s, p);
    } else {
      acts := AcceptAdds(s, i, d, handle % 0x1000, id, psm, scid, p, f);
    }
  }

  /** A new connection is not open yet. */
  lemma AcceptAdds(s: Layer, i: nat, d: nat, handle: word, id: byte, psm: word, scid: word, p: Post, f: Fact)
    returns (acts: seq<Act>)
    requires i < |s.conns| && d < |s.devices| && From(p, d, ConnectReq(psm, scid)) && f.kind == ToldOpen && Held(s, p)
    requires p.input.id == id && p.input.handle % 0x1000 == handle % 0x1000
    ensures var s1 := Say(Open(s, i, d, psm, scid), i, Got(ConnectReq(psm, scid)));
            Adds(s, Check(Send(s1, i, {}, handle, id, ConnectRsp(s1.conns[i].lcid, scid, 0, 0)), i), acts, p, f, false)
  {
    var s0 := Open(s, i, d, psm, scid);
    var s1 := Say(s0, i, Got(ConnectReq(psm, scid)));
    var rsp := ConnectRsp(s1.conns[i].lcid, scid, 0, 0);
    var s2 := Send(s1, i, {}, handle, id, rsp);
    var a := OpenAdds(s, i, d, psm, scid, p);
    var b := DoAdds(s0, i, {}, Got(ConnectReq(psm, scid)), p);
    SameHandles(s, s2, p);
    var c := AnswerAdds(s1, i, {}, handle, id, rsp, p);
    QuietTwice(s, s0, s1, a, b, p);
    QuietTwice(s, s1, s2, a + b, c, p);
    acts := ThenCheck(s, s2, i, a + b + c, p, f);
    NewTellsNone(s2, i);
  }

  lemma NewTellsNone(s: Layer, i: nat)
    requires i < |s.conns| && s.conns[i].bits == {}
    ensures !Tells(s, i)
  {
    assert RspSent in FOUR && !MustAsk(s.conns[i]);
  }

  lemma OpenAdds(s: Layer, i: nat, d: nat, psm: word, rcid: word, p: Post) returns (acts: seq<Act>)
    requires i < |s.conns| && d < |s.devices|
    ensures Quietly(s, Open(s, i, d, psm, rcid), acts, p)
  {
    acts := [Act(Opened, d, psm, NextCid(s.devices[d]), rcid)];
    OneAct(acts[0], Fact(ToldOpen, 0, 0));
    assert s.sent + [] == s.sent;
  }

  // ---------------------------------------------------------------- the other calls

  lemma StartAdds(s: Layer, d: nat, psm: word, p: Post) returns (acts: seq<Act>)
    requires d < |s.devices| && Held(s, p)
    ensures Quietly(s, Start(s, d, psm), acts, p)
  {
    var i, h := FirstFreeFrom(s.conns, 0), s.devices[d].handle;
    if h >= 0x8000 || i == |s.conns| {
      acts := [];
      SameAdds(s, Fail(s), p);
    } else {
      var s1 := Open(s, i, d, psm, 0);
      acts := OpenAdds(s, i, d, psm, 0, p);
      if h % 0x1000 == 0 {
        ThenSame(s, s1, Raise(s1, i, Connecting), acts);
      } else {
        var req := ConnectReq(psm, s1.conns[i].lcid);
        SameHandles(s, s1, p);
        var b := SendNewAdds(s1, i, {}, d, h % 0x1000, req, p);
        QuietTwice(s, s1, SendNew(s1, i, {}, d, h % 0x1000, req), acts, b, p);
        acts := acts + b;
      }
    }
  }

  lemma CloseAdds(s: Layer, i: nat, p: Post) returns (acts: seq<Act>)
    requires i < |s.conns| && Held(s, p)
    ensures Quietly(s, Close(s, i), acts, p)
  {
    var c := s.conns[i];
    if c.device.None? {
      acts := [];
      SameAdds(s, Fail(s), p);
    } else {
      acts := SendNewAdds(s, i, {}, DeviceOf(c), HandleOf(s, DeviceOf(c)), DisconnectReq(c.rcid, c.lcid), p);
    }
  }

  lemma OnDataAdds(s: Layer, handle: word, cid: word, payload: seq<byte>, p: Post) returns (acts: seq<Act>)
    ensures Quietly(s, OnData(s, handle, cid, payload), acts, p)
  {
    var i := FindLocal(s, handle, cid);
    if handle % 0x1000 != 0 && i < |s.conns| && s.conns[i].psm in s.clients {
      acts := TellAdds(s, i, Data(payload), p);
    } else {
      acts := [];
      SameAdds(s, OnData(s, handle, cid, payload), p);
    }
  }

  lemma AskOneAdds(s: Layer, d: nat, i: nat, p: Post) returns (acts: seq<Act>)
    requires i < |s.conns| && Held(s, p)
    ensures Quietly(s, AskOne(s, d, i), acts, p) && Held(AskOne(s, d, i), p)
  {
    var c := s.conns[i];
    if c.device == Some(d) && Connecting in c.bits {
      acts := SendNewAdds(s, i, {}, d, HandleOf(s, d) % 0x1000, ConnectReq(c.psm, c.lcid), p);
    } else {
      acts := [];
      SameAdds(s, s, p);
    }
  }

  lemma {:induction false} AskPendingAdds(s: Layer, d: nat, i: nat, p: Post) returns (acts: seq<Act>)
    requires Held(s, p)
    ensures Quietly(s, AskPending(s, d, i), acts, p)
    decreases |s.conns| - i
  {
    if i >= |s.conns| {
      acts := [];
      SameAdds(s, s, p);
    } else {
      var t := AskOne(s, d, i);
      var a := AskOneAdds(s, d, i, p);
      var b := AskPendingAdds(t, d, i + 1, p);
      QuietTwice(s, t, AskPending(t, d, i + 1), a, b, p);
      acts := a + b;
    }
  }

  lemma TellOneAdds(s: Layer, d: nat, error: bool, i: nat, p: Post) returns (acts: seq<Act>)
    requires i < |s.conns|
    ensures Quietly(s, TellOne(s, d, error, i), acts, p)
  {
    var c := s.conns[i];
    if c.device != Some(d) || c.psm !in s.clients {
      acts := [];
      SameAdds(s, s, p);
    } else if error {
      acts := TellAdds(Raise(s, i, Failed), i, Error, p);
    } else {
      acts := TellAdds(s, i, Disconnected, p);
      ThenSame(s, Tell(s, i, Disconnected), Delete(Tell(s, i, Disconnected), i), acts);
    }
  }

  lemma {:induction false} TellAllAdds(s: Layer, d: nat, error: bool, i: nat, p: Post) returns (acts: seq<Act>)
    ensures Quietly(s, TellAll(s, d, error, i), acts, p)
    decreases |s.conns| - i
  {
    if i >= |s.conns| {
      acts := [];
      SameAdds(s, s, p);
    } else {
      var t := TellOne(s, d, error, i);
      var a := TellOneAdds(s, d, error, i, p);
      var b := TellAllAdds(t, d, error, i + 1, p);
      QuietTwice(s, t, TellAll(t, d, error, i + 1), a, b, p);
      acts := a + b;
    }
  }

  // ---------------------------------------------------------------- every call

  /** The slot that a call's command is for, or the table size. */
  function SlotOf(s: Layer, e: Event): (i: nat)
  {
    if e.Receive? && e.input.Signal? then FindLocal(s, e.input.handle, Named(e.input.command)) else |s.conns|
  }

  /** A call makes the layer check a connection that is there. */
  predicate Rechecks(s: Layer, e: Event, f: Fact)
  {
    var i := SlotOf(s, e);
    && !s.failed && i < |s.conns| && IsKey(s.conns[i], f) && Checks(s.conns[i], e.input.command)
    && !Refused(e.input.command) && !Forbidden(e.input.command) && e.input.handle % 0x1000 != 0
  }

  lemma OnSignalAdds(s: Layer, handle: word, id: byte, c: Command, f: Fact) returns (acts: seq<Act>, told: bool)
    requires !s.failed && f.kind == ToldOpen
    ensures var e := Receive(Signal(handle, id, c));
            && Adds(s, OnSignal(s, handle, id, c), acts, Brought(s, e), f, told)
            && (told ==> Rechecks(s, e, f) || !Ready(s, SlotOf(s, e)))
            && (Ready(s, SlotOf(s, e)) && Rechecks(s, e, f) ==> told)
            && (told ==> SlotOf(s, e) < |s.conns| && IsKey(s.conns[SlotOf(s, e)], f))
  {
    var e := Receive(Signal(handle, id, c));
    var p := Brought(s, e);
    var i := FindLocal(s, handle, Named(c));
    acts, told := [], false;
    HeldAtFirst(s, e);
    if Refused(c) || Forbidden(c) || handle % 0x1000 == 0 {
      SameAdds(s, OnSignal(s, handle, id, c), p);
    } else if c.ConnectReq? {
      acts := OnConnectReqAdds(s, handle, id, c.psm, c.scid, p, f);
    } else if i < |s.conns| {
      acts, told := OnSlotAdds(s, i, handle, id, c, p, f);
    } else {
      SameAdds(s, s, p);
    }
  }

  /** What any call adds; told is whether it tells the client of a connection that it is open. */
  lemma StepAdds(s: Layer, e: Event, f: Fact) returns (acts: seq<Act>, told: bool)
    requires f.kind == ToldOpen
    ensures Adds(s, Step(s, e), acts, Brought(s, e), f, told)
    ensures told ==> SlotOf(s, e) < |s.conns| && IsKey(s.conns[SlotOf(s, e)], f)
    ensures Ready(s, SlotOf(s, e)) ==> told == Rechecks(s, e, f)
  {
    if !s.failed && e.Receive? && e.input.Signal? {
      acts, told := OnSignalAdds(s, e.input.handle, e.input.id, e.input.command, f);
    } else {
      acts := OtherAdds(s, e, f);
      told := false;
    }
  }

  lemma OtherAdds(s: Layer, e: Event, f: Fact) returns (acts: seq<Act>)
    requires s.failed || !e.Receive? || !e.input.Signal?
    requires f.kind == ToldOpen
    ensures Adds(s, Step(s, e), acts, Brought(s, e), f, false)
  {
    var p := Brought(s, e);
    HeldAtFirst(s, e);
    if s.failed {
      acts := [];
      SameAdds(s, s, p);
    } else {
      acts := QuietCall(s, e, p);
    }
    QuietAdds(s, Step(s, e), acts, p, f);
  }

  lemma QuietCall(s: Layer, e: Event, p: Post) returns (acts: seq<Act>)
    requires !s.failed && (!e.Receive? || !e.input.Signal?) && Held(s, p)
    ensures Quietly(s, Step(s, e), acts, p)
  {
    acts := [];
    match e {
      case AddDevice => SameAdds(s, Step(s, e), p);
      case SetHandle(d, h) => SameAdds(s, Step(s, e), p);
      case HciConnected(d) => acts := AskPendingAdds(s, d, 0, p);
      case HciError(d) => acts := TellAllAdds(s, d, true, 0, p);
      case HciDisconnected(d) => acts := TellAllAdds(s, d, false, 0, p);
      case Receive(Client(handle, cid, payload)) => acts := OnDataAdds(s, handle, cid, payload, p);
      case Receive(Ignored) => SameAdds(s, s, p);
      case StartConnection(d, psm) =>
        if d < |s.devices| { acts := StartAdds(s, d, psm, p); } else { SameAdds(s, s, p); }
      case CloseConnection(i) =>
        if i < |s.conns| { acts := CloseAdds(s, i, p); } else { SameAdds(s, s, p); }
    }
  }
}
