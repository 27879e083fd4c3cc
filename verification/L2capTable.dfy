/**
  The L2CAP layer object of l2cap.c: its connection table, changed in place, the devices it draws CIDs
  from, and the commands it hands down. Each method is one C function, tied to the step of L2cap it performs.
*/
module L2capTable {
  import opened Bytes
  import opened L2capPackets
  import opened L2cap

  class L2capLayer {
    const conns: array<Conn>
    var devices: seq<Device>
    const clients: seq<word>      // the PSMs of the registered clients
    var sent: seq<Sending>
    var failed: bool
    ghost var trace: seq<Act>

    ghost predicate Valid()
      reads this
    {
      conns.Length == MAX_CONNECTIONS
    }

    ghost function Abs(): (r: Layer)
      reads this, conns
    {
      Layer(conns[..], devices, (set p | p in clients), trace, sent, failed)
    }

    constructor (psms: seq<word>)
      ensures Valid() && fresh(conns) && Abs() == Initial(set p | p in psms)
    {
      conns := new Conn[MAX_CONNECTIONS](_ => VACANT);
      devices, clients, sent, failed, trace := [], psms, [], false, [];
      new;
      assert conns[..] == EmptyTable();
    }

    // -------------------------------------------------------------- lookups

    /** findDeviceByHandle, after its assertion. */
    method FindDeviceByHandle(h: word) returns (d: nat)
      ensures d == FindDevice(devices, h)
    {
      d := 0;
      while d < |devices| && devices[d].handle % 0x1000 != h
        invariant d <= |devices|
        invariant FindDevice(devices, h) == FindDeviceFrom(devices, h, d)
      {
        d := d + 1;
      }
    }

    /** lcapLayer_findLocalCid: the slot, or the table size. */
    method FindLocalCid(handle: word, cid: word) returns (i: nat)
      ensures i == FindLocal(Abs(), handle, cid)
    {
      var d := FindDeviceByHandle(handle % 0x1000);
      if d == |devices| { return conns.Length; }
      i := 0;
      while i < conns.Length && !(conns[i].device == Some(d) && conns[i].lcid == cid)
        invariant i <= conns.Length
        invariant FindLocalFrom(conns[..], d, cid, 0) == FindLocalFrom(conns[..], d, cid, i)
      {
        i := i + 1;
      }
    }

    /** lcapLayer_findRemoteCid. */
    method FindRemoteCid(d: nat, cid: word) returns (i: nat)
      ensures i == FindRemoteFrom(conns[..], d, cid, 0)
    {
      i := 0;
      while i < conns.Length && !(conns[i].device == Some(d) && conns[i].rcid == cid)
        invariant i <= conns.Length
        invariant FindRemoteFrom(conns[..], d, cid, 0) == FindRemoteFrom(conns[..], d, cid, i)
      {
        i := i + 1;
      }
    }

    /** lcapLayer_findClientByPSM. */
    method FindClientByPsm(psm: word) returns (found: bool)
      ensures found <==> psm in clients
    {
      for k := 0 to |clients|
        invariant psm !in clients[..k]
      {
        if clients[k] == psm { return true; }
      }
      found := false;
    }

    // -------------------------------------------------------------- single effects

    ghost method Note(i: nat, w: What)
      requires Valid() && i < conns.Length
      modifies this`trace
      ensures Valid() && Abs() == Say(old(Abs()), i, w)
    {
      trace := trace + [ActOf(w, conns[i])];
    }

    method Store(i: nat, c: Conn)
      requires Valid() && i < conns.Length
      modifies conns
      ensures Valid() && conns[..] == old(conns[..])[i := c]
    {
      conns[i] := c;
    }

    /** lcap_state |= bit. */
    method SetBit(i: nat, b: Bit)
      requires Valid() && i < conns.Length
      modifies conns
      ensures Valid() && Abs() == Raise(old(Abs()), i, b)
    {
      Store(i, conns[i].(bits := conns[i].bits + {b}));
    }

    /** State bits, with what they stand for. */
    method SetBits(i: nat, bits: set<Bit>, ghost w: What)
      requires Valid() && i < conns.Length
      modifies this`trace, conns
      ensures Valid() && Abs() == Do(old(Abs()), i, bits, w)
    {
      Store(i, conns[i].(bits := conns[i].bits + bits));
      Note(i, w);
    }

    /** The client callback. */
    method TellClient(i: nat, e: ClientEvent)
      requires Valid() && i < conns.Length
      modifies this`trace
      ensures Valid() && Abs() == Tell(old(Abs()), i, e)
    {
      var found := FindClientByPsm(conns[i].psm);
      if found { Note(i, Told(e)); }
    }

    /** A command that goes out for slot i, with the bits it sets. */
    method SendAnswer(i: nat, bits: set<Bit>, handle: word, id: byte, c: Command)
      requires Valid() && i < conns.Length
      modifies this`sent, this`trace, conns
      ensures Valid() && Abs() == Send(old(Abs()), i, bits, handle, id, c)
    {
      var m := Sending(WithBoundary(handle), id, c);
      sent := sent + [m];
      SetBits(i, bits, Sent(m));
    }

    /** A command with the device's next identifier. */
    method SendCommand(i: nat, bits: set<Bit>, d: nat, handle: word, c: Command)
      requires Valid() && i < conns.Length
      modifies this`sent, this`devices, this`trace, conns
      ensures Valid() && Abs() == SendNew(old(Abs()), i, bits, d, handle, c)
    {
      if d >= |devices| { return; }
      var dev := devices[d];
      devices := devices[d := dev.(nextId := (dev.nextId + 1) % 0x1_0000)];
      SendAnswer(i, bits, handle, dev.nextId % 256, c);
    }

    /** lcapLayer_addConnection: the slot, or the table size when there is no room. */
    method AddConnection(d: nat, psm: word, rcid: word) returns (i: nat)
      requires Valid() && d < |devices|
      modifies this`devices, this`trace, conns
      ensures Valid() && i == FirstFreeFrom(old(conns[..]), 0)
      ensures Abs() == if i < conns.Length then Open(old(Abs()), i, d, psm, rcid) else old(Abs())
    {
      i := 0;
      while i < conns.Length && conns[i].lcid != 0
        invariant i <= conns.Length
        invariant FirstFreeFrom(conns[..], 0) == FirstFreeFrom(conns[..], i)
      {
        i := i + 1;
      }
      if i == conns.Length { return; }
      var dev := devices[d];
      Store(i, Conn(Some(d), psm, NextCid(dev), rcid, {}));
      devices := devices[d := dev.(drawn := dev.drawn + 1)];
      Note(i, Opened);
    }

    /** lcapLayer_deleteConnection: memset. */
    method DeleteConnection(i: nat)
      requires Valid() && i < conns.Length
      modifies conns
      ensures Valid() && Abs() == Delete(old(Abs()), i)
    {
      Store(i, VACANT);
    }

    /** lcapLayer_checkLcapConnectionState. */
    method CheckLcapConnectionState(i: nat)
      requires Valid() && i < conns.Length
      modifies this`sent, this`devices, this`trace, conns
      ensures Valid() && Abs() == Check(old(Abs()), i)
    {
      var c := conns[i];
      if c.rcid != 0 && ReqReceived in c.bits && ReqSent !in c.bits {
        var d := if c.device.Some? then c.device.value else 0;
        var handle := if d < |devices| then devices[d].handle else 0;
        SendCommand(i, {ReqSent}, d, handle, ConfigReq(c.rcid, 0));
      }
      var b := conns[i].bits;
      if ReqReceived in b && RspSent in b && ReqSent in b && RspReceived in b && conns[i].lcid != 0 {
        TellClient(i, Connected);
      }
    }

    // -------------------------------------------------------------- l2cap_handle_hci_data

    method HandleConnectRequest(handle: word, id: byte, psm: word, scid: word)
      requires Valid()
      modifies this`sent, this`devices, this`trace, conns
      ensures Valid() && Abs() == OnConnectReq(old(Abs()), handle, id, psm, scid)
    {
      var d := FindDeviceByHandle(handle % 0x1000);
      if d == |devices| { return; }
      var taken := FindRemoteCid(d, scid);
      if taken < conns.Length { return; }
      var i := AddConnection(d, psm, scid);
      if i == conns.Length { return; }
      Note(i, Got(ConnectReq(psm, scid)));
      SendAnswer(i, {}, handle % 0x1000, id, ConnectRsp(conns[i].lcid, scid, 0, 0));
      CheckLcapConnectionState(i);
    }

    method HandleConnectResponse(i: nat, dcid: word, result: word)
      requires Valid() && i < conns.Length
      modifies this`sent, this`devices, this`trace, this`failed, conns
      ensures Valid() && Abs() == OnConnectRsp(old(Abs()), i, dcid, result)
    {
      if conns[i].rcid != 0 && conns[i].rcid != dcid {
        failed := true;
        return;
      }
      Store(i, conns[i].(rcid := dcid));
      if result == 0 { SetBit(i, Linked); }
      CheckLcapConnectionState(i);
    }

    method HandleConfigureRequest(i: nat, handle: word, id: byte, ghost c: Command)
      requires Valid() && i < conns.Length
      modifies this`sent, this`devices, this`trace, conns
      ensures Valid() && Abs() == OnConfigReq(old(Abs()), i, handle, id, c)
    {
      var rcid := conns[i].rcid;
      SetBits(i, {ReqReceived}, Got(c));
      SendAnswer(i, {RspSent}, handle, id, ConfigRsp(rcid, 0, 0));
      CheckLcapConnectionState(i);
    }

    /** The command switch, once the connection is found. */
    method HandleCommand(i: nat, handle: word, id: byte, c: Command)
      requires Valid() && i < conns.Length
      modifies this`sent, this`devices, this`trace, this`failed, conns
      ensures Valid() && Abs() == OnSlot(old(Abs()), i, handle, id, c)
    {
      match c {
        case ConnectReq(_, _) =>
        case ConnectRsp(dcid, _, result, _) =>
          Note(i, Got(c));
          HandleConnectResponse(i, dcid, result);
        case ConfigReq(_, _) => HandleConfigureRequest(i, handle, id, c);
        case ConfigRsp(_, _, _) =>
          SetBits(i, {RspReceived}, Got(c));
          CheckLcapConnectionState(i);
        case DisconnectReq(dcid, scid) =>
          Note(i, Got(c));
          TellClient(i, Disconnected);
          SendAnswer(i, {}, handle, id, DisconnectRsp(dcid, scid));
          DeleteConnection(i);
        case DisconnectRsp(_, _) =>
          Note(i, Got(c));
          TellClient(i, Disconnected);
          DeleteConnection(i);
      }
    }

    method HandleSignal(handle: word, id: byte, c: Command)
      requires Valid()
      modifies this`sent, this`devices, this`trace, this`failed, conns
      ensures Valid() && Abs() == OnSignal(old(Abs()), handle, id, c)
    {
      if Refused(c) { return; }
      if Forbidden(c) || handle % 0x1000 == 0 {
        failed := true;
        return;
      }
      if c.ConnectReq? {
        HandleConnectRequest(handle, id, c.psm, c.scid);
        return;
      }
      var i := FindLocalCid(handle, Named(c));
      if i == conns.Length { return; }
      HandleCommand(i, handle, id, c);
    }

    method HandleClientData(handle: word, cid: word, payload: seq<byte>)
      requires Valid()
      modifies this`trace, this`failed
      ensures Valid() && Abs() == OnData(old(Abs()), handle, cid, payload)
    {
      if handle % 0x1000 == 0 {
        failed := true;
        return;
      }
      var i := FindLocalCid(handle, cid);
      if i == conns.Length { return; }
      var known := FindClientByPsm(conns[i].psm);
      if known { Note(i, Told(Data(payload))); } else { failed := true; }
    }

    /** l2cap_handle_hci_data, from the bytes of a packet. */
    method HandleHciData(buffer: seq<byte>)
      requires Valid() && !failed
      modifies this`sent, this`devices, this`trace, this`failed, conns
      ensures Valid() && Abs() == Step(old(Abs()), Receive(Decode(buffer)))
    {
      match Decode(buffer) {
        case Client(handle, cid, payload) => HandleClientData(handle, cid, payload);
        case Signal(handle, id, c) => HandleSignal(handle, id, c);
        case Ignored =>
      }
    }

    // -------------------------------------------------------------- receiveEvent

    /** HCC_EVENT_CONNECTED. */
    method StartPending(d: nat)
      requires Valid() && !failed
      modifies this`sent, this`devices, this`trace, conns
      ensures Valid() && Abs() == Step(old(Abs()), HciConnected(d))
    {
      var i := 0;
      while i < conns.Length
        invariant i <= conns.Length && Valid()
        invariant AskPending(Abs(), d, i) == AskPending(old(Abs()), d, 0)
      {
        if conns[i].device == Some(d) && Connecting in conns[i].bits {
          var handle := if d < |devices| then devices[d].handle else 0;
          SendCommand(i, {}, d, handle % 0x1000, ConnectReq(conns[i].psm, conns[i].lcid));
        }
        i := i + 1;
      }
    }

    method DispatchOne(d: nat, error: bool, i: nat)
      requires Valid() && i < conns.Length
      modifies this`trace, conns
      ensures Valid() && Abs() == TellOne(old(Abs()), d, error, i)
    {
      var known := FindClientByPsm(conns[i].psm);
      if conns[i].device != Some(d) || !known { return; }
      if error {
        SetBit(i, Failed);
        TellClient(i, Error);
      } else {
        TellClient(i, Disconnected);
        DeleteConnection(i);
      }
    }

    /** lcapLayer_dispatchEvents. */
    method DispatchEvents(d: nat, error: bool)
      requires Valid() && !failed
      modifies this`trace, conns
      ensures Valid() && Abs() == Step(old(Abs()), if error then HciError(d) else HciDisconnected(d))
    {
      var i := 0;
      while i < conns.Length
        invariant i <= conns.Length && Valid()
        invariant TellAll(Abs(), d, error, i) == TellAll(old(Abs()), d, error, 0)
      {
        DispatchOne(d, error, i);
        i := i + 1;
      }
    }

    // -------------------------------------------------------------- calls from the clients

    method StartLcapConnection(d: nat, psm: word)
      requires Valid() && !failed && d < |devices|
      modifies this`sent, this`devices, this`trace, this`failed, conns
      ensures Valid() && Abs() == Step(old(Abs()), StartConnection(d, psm))
    {
      var h := devices[d].handle;
      if h >= 0x8000 {
        failed := true;
        return;
      }
      var i := AddConnection(d, psm, 0);
      if i == conns.Length {
        failed := true;
      } else if h % 0x1000 == 0 {
        SetBit(i, Connecting);
      } else {
        SendCommand(i, {}, d, h % 0x1000, ConnectReq(psm, conns[i].lcid));
      }
    }

    method CloseLcapConnection(i: nat)
      requires Valid() && !failed && i < conns.Length
      modifies this`sent, this`devices, this`trace, this`failed, conns
      ensures Valid() && Abs() == Step(old(Abs()), CloseConnection(i))
    {
      var c := conns[i];
      if c.device.None? {
        failed := true;
        return;
      }
      var d := c.device.value;
      SendCommand(i, {}, d, if d < |devices| then devices[d].handle else 0, DisconnectReq(c.rcid, c.lcid));
    }
  }
}
