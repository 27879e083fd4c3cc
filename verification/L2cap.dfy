/**
  L2CAP connections (l2cap.c): the table of connections, the state bits of each, what is sent and what
  the clients are told. Step is one call into the layer, start to finish.
*/
module L2cap {
  import opened Bytes
  import opened L2capPackets

  const MAX_CONNECTIONS := 100
  const STARTING_CID := 0x70

  datatype Bit =
    | Connecting | Linked | Failed
    | ReqReceived | RspSent | ReqSent | RspReceived   // configuration

  /** The four configuration steps of a connection. */
  const FOUR: set<Bit> := {ReqReceived, RspSent, ReqSent, RspReceived}

  /** A table slot; memset leaves it VACANT. A slot counts as free when its local CID is zero. */
  datatype Conn = Conn(device: Option<nat>, psm: word, lcid: word, rcid: word, bits: set<Bit>)

  const VACANT := Conn(None, 0, 0, 0, {})

  /** drawn counts the CIDs a device has given out; nextId numbers our commands. */
  datatype Device = Device(handle: word, drawn: nat, nextId: word)

  /** next_lcap_cid, a 16-bit counter from 0x70. */
  function NextCid(d: Device): (r: word) { (STARTING_CID + d.drawn) % 0x1_0000 }

  datatype ClientEvent = Connected | Disconnected | Error | Data(payload: seq<byte>)

  /** A signalling command on its way out. */
  datatype Sending = Sending(handle: word, id: byte, command: Command)

  datatype What =
    | Opened                   // addConnection drew a local CID
    | Got(command: Command)    // a command for the connection came
    | Sent(message: Sending)   // one went out on its behalf
    | Told(event: ClientEvent)

  /** An entry of the history: what happened to the connection with this PSM, local and remote CID. */
  datatype Act = Act(what: What, device: nat, psm: word, lcid: word, rcid: word)

  datatype Layer = Layer(
    conns: seq<Conn>, devices: seq<Device>, clients: set<word>,
    trace: seq<Act>, sent: seq<Sending>, failed: bool)

  /** Calls from the HCI below and the clients above. failed is a failed assertion. */
  datatype Event =
    | AddDevice
    | SetHandle(device: nat, handle: word)
    | HciConnected(device: nat)
    | HciError(device: nat)
    | HciDisconnected(device: nat)
    | Receive(input: Input)
    | StartConnection(device: nat, psm: word)
    | CloseConnection(slot: nat)

  // ---------------------------------------------------------------- lookups

  function FindDeviceFrom(devices: seq<Device>, h: word, i: nat): (r: nat)
    requires i <= |devices|
    ensures i <= r <= |devices|
    ensures r < |devices| ==> devices[r].handle % 0x1000 == h
    ensures forall k | i <= k < r :: devices[k].handle % 0x1000 != h
    decreases |devices| - i
  {
    if i == |devices| || devices[i].handle % 0x1000 == h then i else FindDeviceFrom(devices, h, i + 1)
  }

  /** findDeviceByHandle: the first device whose handle has these low twelve bits. */
  function FindDevice(devices: seq<Device>, h: word): (r: nat) { FindDeviceFrom(devices, h, 0) }

  predicate HasLocal(c: Conn, d: nat, cid: word) { c.device == Some(d) && c.lcid == cid }

  predicate HasRemote(c: Conn, d: nat, cid: word) { c.device == Some(d) && c.rcid == cid }

  function FindLocalFrom(conns: seq<Conn>, d: nat, cid: word, i: nat): (r: nat)
    requires i <= |conns|
    ensures i <= r <= |conns|
    ensures r < |conns| ==> HasLocal(conns[r], d, cid)
    ensures forall k | i <= k < r :: !HasLocal(conns[k], d, cid)
    decreases |conns| - i
  {
    if i == |conns| || HasLocal(conns[i], d, cid) then i else FindLocalFrom(conns, d, cid, i + 1)
  }

  function FindRemoteFrom(conns: seq<Conn>, d: nat, cid: word, i: nat): (r: nat)
    requires i <= |conns|
    ensures i <= r <= |conns|
    ensures r < |conns| ==> HasRemote(conns[r], d, cid)
    ensures forall k | i <= k < r :: !HasRemote(conns[k], d, cid)
    decreases |conns| - i
  {
    if i == |conns| || HasRemote(conns[i], d, cid) then i else FindRemoteFrom(conns, d, cid, i + 1)
  }

  function FirstFreeFrom(conns: seq<Conn>, i: nat): (r: nat)
    requires i <= |conns|
    ensures i <= r <= |conns|
    ensures r < |conns| ==> conns[r].lcid == 0
    ensures forall k | i <= k < r :: conns[k].lcid != 0
    decreases |conns| - i
  {
    if i == |conns| || conns[i].lcid == 0 then i else FirstFreeFrom(conns, i + 1)
  }

  /** The slot of a handle and local CID, or the table size. */
  function FindLocal(s: Layer, handle: word, cid: word): (r: nat)
    ensures r <= |s.conns|
  {
    var d := FindDevice(s.devices, handle % 0x1000);
    if d == |s.devices| then |s.conns| else FindLocalFrom(s.conns, d, cid, 0)
  }

  // ---------------------------------------------------------------- single effects

  function Fail(s: Layer): (r: Layer) { s.(failed := true) }

  function DeviceOf(c: Conn): (r: nat) { if c.device.Some? then c.device.value else 0 }

  function ActOf(w: What, c: Conn): (r: Act) { Act(w, DeviceOf(c), c.psm, c.lcid, c.rcid) }

  function Say(s: Layer, i: nat, w: What): (r: Layer)
    requires i < |s.conns|
  {
    s.(trace := s.trace + [ActOf(w, s.conns[i])])
  }

  /** Set state bits, and note what they stand for. */
  function Do(s: Layer, i: nat, bits: set<Bit>, w: What): (t: Layer)
    requires i < |s.conns|
  {
    Say(s.(conns := s.conns[i := s.conns[i].(bits := s.conns[i].bits + bits)]), i, w)
  }

  /** Set a state bit that stands for no message. */
  function Raise(s: Layer, i: nat, b: Bit): (t: Layer)
    requires i < |s.conns|
  {
    s.(conns := s.conns[i := s.conns[i].(bits := s.conns[i].bits + {b})])
  }

  function Tell(s: Layer, i: nat, e: ClientEvent): (r: Layer)
    requires i < |s.conns|
  {
    if s.conns[i].psm in s.clients then Say(s, i, Told(e)) else s
  }

  function SetRemote(s: Layer, i: nat, rcid: word): (r: Layer)
    requires i < |s.conns|
  {
    s.(conns := s.conns[i := s.conns[i].(rcid := rcid)])
  }

  function Delete(s: Layer, i: nat): (r: Layer)
    requires i < |s.conns|
  {
    s.(conns := s.conns[i := VACANT])
  }

  /** A command goes out for the connection in slot i, with the state bits it sets. */
  function Send(s: Layer, i: nat, bits: set<Bit>, handle: word, id: byte, c: Command): (t: Layer)
    requires i < |s.conns|
  {
    var m := Sending(WithBoundary(handle), id, c);
    Do(s.(sent := s.sent + [m]), i, bits, Sent(m))
  }

  /** A command of our own: the device's next identifier, cut to a byte. */
  function SendNew(s: Layer, i: nat, bits: set<Bit>, d: nat, handle: word, c: Command): (t: Layer)
    requires i < |s.conns|
  {
    if d >= |s.devices| then s
    else
      var dev := s.devices[d];
      var s1 := s.(devices := s.devices[d := dev.(nextId := (dev.nextId + 1) % 0x1_0000)]);
      Send(s1, i, bits, handle, dev.nextId % 256, c)
  }

  /** addConnection at the free slot i: draw a CID. */
  function Open(s: Layer, i: nat, d: nat, psm: word, rcid: word): (r: Layer)
    requires i < |s.conns| && d < |s.devices|
  {
    var dev := s.devices[d];
    Say(s.(conns := s.conns[i := Conn(Some(d), psm, NextCid(dev), rcid, {})],
           devices := s.devices[d := dev.(drawn := dev.drawn + 1)]),
        i, Opened)
  }

  // ---------------------------------------------------------------- checkLcapConnectionState

  /** Our one config request, due once the peer's has come and its CID is known. */
  predicate MustAsk(c: Conn)
  {
    c.rcid != 0 && ReqReceived in c.bits && ReqSent !in c.bits
  }

  function HandleOf(s: Layer, d: nat): (r: word) { if d < |s.devices| then s.devices[d].handle else 0 }

  function AskConfig(s: Layer, i: nat): (r: Layer)
    requires i < |s.conns|
  {
    if MustAsk(s.conns[i]) then
      var c := s.conns[i];
      SendNew(s, i, {ReqSent}, DeviceOf(c), HandleOf(s, DeviceOf(c)), ConfigReq(c.rcid, 0))
    else s
  }

  function TellOpen(s: Layer, i: nat): (r: Layer)
    requires i < |s.conns|
  {
    if FOUR <= s.conns[i].bits && s.conns[i].lcid != 0 then Tell(s, i, Connected) else s
  }

  function Check(s: Layer, i: nat): (r: Layer)
    requires i < |s.conns|
  {
    TellOpen(AskConfig(s, i), i)
  }

  // ---------------------------------------------------------------- signalling

  function OnConnectReq(s: Layer, handle: word, id: byte, psm: word, scid: word): (r: Layer)
  {
    var d := FindDevice(s.devices, handle % 0x1000);
    if d == |s.devices| || FindRemoteFrom(s.conns, d, scid, 0) < |s.conns| then s
    else
      var i := FirstFreeFrom(s.conns, 0);
      if i == |s.conns| then s
      else
        var s1 := Say(Open(s, i, d, psm, scid), i, Got(ConnectReq(psm, scid)));
        Check(Send(s1, i, {}, handle % 0x1000, id, ConnectRsp(s1.conns[i].lcid, scid, 0, 0)), i)
  }

  function OnConnectRsp(s: Layer, i: nat, dcid: word, result: word): (t: Layer)
    requires i < |s.conns|
  {
    if s.conns[i].rcid != 0 && s.conns[i].rcid != dcid then Fail(s)
    else
      var s1 := SetRemote(s, i, dcid);
      Check(if result == 0 then Raise(s1, i, Linked) else s1, i)
  }

  function OnConfigReq(s: Layer, i: nat, handle: word, id: byte, c: Command): (t: Layer)
    requires i < |s.conns|
  {
    var s1 := Do(s, i, {ReqReceived}, Got(c));
    Check(Send(s1, i, {RspSent}, handle, id, ConfigRsp(s.conns[i].rcid, 0, 0)), i)
  }

  function OnConfigRsp(s: Layer, i: nat, c: Command): (t: Layer)
    requires i < |s.conns|
  {
    Check(Do(s, i, {RspReceived}, Got(c)), i)
  }

  function OnDisconnectReq(s: Layer, i: nat, handle: word, id: byte, dcid: word, scid: word): (t: Layer)
    requires i < |s.conns|
  {
    Delete(Send(Tell(s, i, Disconnected), i, {}, handle, id, DisconnectRsp(dcid, scid)), i)
  }

  function OnDisconnectRsp(s: Layer, i: nat): (t: Layer)
    requires i < |s.conns|
  {
    Delete(Tell(s, i, Disconnected), i)
  }

  /** The local CID a command names. */
  function Named(c: Command): (r: word)
  {
    match c
    case ConnectReq(_, _) => 0
    case ConnectRsp(_, scid, _, _) => scid
    case ConfigReq(dcid, _) => dcid
    case ConfigRsp(dcid, _, _) => dcid
    case DisconnectReq(dcid, _) => dcid
    case DisconnectRsp(_, scid) => scid
  }

  /** A command for the connection in slot i. */
  function OnSlot(s: Layer, i: nat, handle: word, id: byte, c: Command): (r: Layer)
    requires i < |s.conns|
  {
    match c
    case ConnectReq(_, _) => s
    case ConnectRsp(dcid, _, result, _) => OnConnectRsp(Say(s, i, Got(c)), i, dcid, result)
    case ConfigReq(_, _) => OnConfigReq(s, i, handle, id, c)
    case ConfigRsp(_, _, _) => OnConfigRsp(s, i, c)
    case DisconnectReq(dcid, scid) => OnDisconnectReq(Say(s, i, Got(c)), i, handle, id, dcid, scid)
    case DisconnectRsp(_, _) => OnDisconnectRsp(Say(s, i, Got(c)), i)
  }

  /** What is refused before any lookup: connection results over 1. */
  predicate Refused(c: Command) { c.ConnectRsp? && c.result > 1 }

  /** What an assertion forbids: config flags and config results. */
  predicate Forbidden(c: Command)
  {
    (c.ConfigReq? && c.flags != 0) || (c.ConfigRsp? && (c.result != 0 || c.flags != 0))
  }

  function OnSignal(s: Layer, handle: word, id: byte, c: Command): (r: Layer)
  {
    if Refused(c) then s
    else if Forbidden(c) || handle % 0x1000 == 0 then Fail(s)
    else if c.ConnectReq? then OnConnectReq(s, handle, id, c.psm, c.scid)
    else
      var i := FindLocal(s, handle, Named(c));
      if i == |s.conns| then s else OnSlot(s, i, handle, id, c)
  }

  function OnData(s: Layer, handle: word, cid: word, payload: seq<byte>): (r: Layer)
  {
    if handle % 0x1000 == 0 then Fail(s)
    else
      var i := FindLocal(s, handle, cid);
      if i == |s.conns| then s
      else if s.conns[i].psm in s.clients then Say(s, i, Told(Data(payload)))
      else Fail(s)
  }

  // ---------------------------------------------------------------- calls from below and above

  /** HCC_EVENT_CONNECTED: the connection requests that were waiting for the link. */
  function AskPending(s: Layer, d: nat, i: nat): (r: Layer)
    decreases |s.conns| - i
  {
    if i >= |s.conns| then s
    else AskPending(AskOne(s, d, i), d, i + 1)
  }

  function AskOne(s: Layer, d: nat, i: nat): (t: Layer)
    requires i < |s.conns|
    ensures |t.conns| == |s.conns|
  {
    if s.conns[i].device == Some(d) && Connecting in s.conns[i].bits
    then SendNew(s, i, {}, d, HandleOf(s, d) % 0x1000, ConnectReq(s.conns[i].psm, s.conns[i].lcid))
    else s
  }

  /** dispatchEvents: an error or a disconnection, to every client of a device. */
  function TellAll(s: Layer, d: nat, error: bool, i: nat): (r: Layer)
    decreases |s.conns| - i
  {
    if i >= |s.conns| then s
    else TellAll(TellOne(s, d, error, i), d, error, i + 1)
  }

  function TellOne(s: Layer, d: nat, error: bool, i: nat): (t: Layer)
    requires i < |s.conns|
    ensures |t.conns| == |s.conns|
  {
    if s.conns[i].device != Some(d) || s.conns[i].psm !in s.clients then s
    else if error then Tell(Raise(s, i, Failed), i, Error)
    else Delete(Tell(s, i, Disconnected), i)
  }

  function Start(s: Layer, d: nat, psm: word): (r: Layer)
    requires d < |s.devices|
  {
    var i, h := FirstFreeFrom(s.conns, 0), s.devices[d].handle;
    if h >= 0x8000 || i == |s.conns| then Fail(s)
    else
      var s1 := Open(s, i, d, psm, 0);
      if h % 0x1000 == 0 then Raise(s1, i, Connecting)
      else SendNew(s1, i, {}, d, h % 0x1000, ConnectReq(psm, s1.conns[i].lcid))
  }

  function Close(s: Layer, i: nat): (r: Layer)
    requires i < |s.conns|
  {
    var c := s.conns[i];
    if c.device.None? then Fail(s)
    else SendNew(s, i, {}, DeviceOf(c), HandleOf(s, DeviceOf(c)), DisconnectReq(c.rcid, c.lcid))
  }

  function OnInput(s: Layer, input: Input): (r: Layer)
  {
    match input
    case Client(handle, cid, payload) => OnData(s, handle, cid, payload)
    case Signal(handle, id, c) => OnSignal(s, handle, id, c)
    case Ignored => s
  }

  function Step(s: Layer, e: Event): (r: Layer)
  {
    if s.failed then s
    else
      match e
      case AddDevice => s.(devices := s.devices + [Device(0, 0, 17)])
      case SetHandle(d, h) =>
        if d < |s.devices| then s.(devices := s.devices[d := s.devices[d].(handle := h)]) else s
      case HciConnected(d) => AskPending(s, d, 0)
      case HciError(d) => TellAll(s, d, true, 0)
      case HciDisconnected(d) => TellAll(s, d, false, 0)
      case Receive(input) => OnInput(s, input)
      case StartConnection(d, psm) => if d < |s.devices| then Start(s, d, psm) else s
      case CloseConnection(i) => if i < |s.conns| then Close(s, i) else s
  }

  function EmptyTable(): (r: seq<Conn>) { seq(MAX_CONNECTIONS, _ => VACANT) }

  /** l2cap_init, with the clients that register. */
  function Initial(clients: set<word>): (r: Layer)
  {
    Layer(EmptyTable(), [], clients, [], [], false)
  }
}
