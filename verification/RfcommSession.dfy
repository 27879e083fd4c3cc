/**
  The life of an RFCOMM session (rfcomm.c): a table of five channel slots, each a set of state bits,
  and the trace of what was added, removed, received and sent. Step is one event, start to finish.
*/
module RfcommSession {
  import opened Bytes
  import opened RfcommFrames

  const MAX_CHANNELS := 5
  const OUR_PRIORITY: byte := 7
  const OUR_MTU: word := 0x200
  const OUR_SIGNALS: byte := 0x8C   // RTC, RTR and DV

  datatype Bit =
    | PnSent | PnAnswered | PnReceived | PnReplied
    | SabmDone | UaDone
    | MscSent | MscReceived | MscAnswered | MscReplied
    | RpnSent | RpnAnswered | RpnReceived | RpnReplied
    | Open | Incoming

  /** A slot of the channel table; memset makes it Free. */
  datatype Slot = Free | Channel(num: nat, bits: set<Bit>, priority: byte, mtu: word)

  datatype Act =
    | Added(n: nat)
    | Removed(n: nat)
    | Got(frame: Frame)
    | Sent(n: nat, frame: Frame, command: bool)   // on behalf of channel n, with the outer command bit

  /** client tells whether a data callback is registered. */
  datatype Session = Session(slots: seq<Slot>, trace: seq<Act>, client: bool)

  /** close and send name a table slot, as the client's pointer does. */
  datatype Event =
    | LinkUp
    | Receive(frame: Frame)
    | OpenChannel(n: nat)
    | CloseChannel(slot: nat)
    | SendData(slot: nat, payload: seq<byte>)

  // ---------------------------------------------------------------- the table

  predicate IsChannel(c: Slot, n: nat) { c.Channel? && c.num == n }

  /** findChannel: the first slot with this number, or the table size. */
  function Find(slots: seq<Slot>, n: nat): (i: nat)
    ensures i <= |slots|
    ensures i < |slots| ==> IsChannel(slots[i], n)
    ensures forall k | 0 <= k < i :: !IsChannel(slots[k], n)
  {
    if slots == [] then 0 else if IsChannel(slots[0], n) then 0 else 1 + Find(slots[1..], n)
  }

  function FirstFree(slots: seq<Slot>): (i: nat)
    ensures i <= |slots|
    ensures i < |slots| ==> slots[i].Free?
    ensures forall k | 0 <= k < i :: slots[k].Channel?
  {
    if slots == [] then 0 else if slots[0].Free? then 0 else 1 + FirstFree(slots[1..])
  }

  predicate Has(s: Session, n: nat) { Find(s.slots, n) < |s.slots| }

  /** The bits of channel n; none when it is not in the table. */
  function BitsOf(s: Session, n: nat): (r: set<Bit>)
  {
    var i := Find(s.slots, n);
    if i < |s.slots| then s.slots[i].bits else {}
  }

  /** addChannel: the first free slot, with the INCOMING bit of slot 0. */
  function Add(s: Session, n: nat): (r: Session)
  {
    var i := FirstFree(s.slots);
    if i == |s.slots| then s
    else
      var inherited := if n != 0 && s.slots[0].Channel? && Incoming in s.slots[0].bits then {Incoming} else {};
      s.(slots := s.slots[i := Channel(n, inherited, OUR_PRIORITY, OUR_MTU)], trace := s.trace + [Added(n)])
  }

  function AddIfMissing(s: Session, n: nat): (r: Session)
  {
    if Has(s, n) then s else Add(s, n)
  }

  function Raise(s: Session, n: nat, bits: set<Bit>): (r: Session)
  {
    var i := Find(s.slots, n);
    if i == |s.slots| then s else s.(slots := s.slots[i := s.slots[i].(bits := s.slots[i].bits + bits)])
  }

  function Record(s: Session, a: Act): (r: Session)
  {
    s.(trace := s.trace + [a])
  }

  // ---------------------------------------------------------------- processChannel

  datatype Move = Wait | SendPn | SendSabm | SendMsc | SendRpn | DeclareOpen

  /** What processChannel does for a nonzero channel once DLC0 is up. */
  function NextMove(bits: set<Bit>): (r: Move)
  {
    if Open in bits then Wait
    else if PnSent !in bits then SendPn
    else if PnAnswered !in bits then Wait
    else if Incoming !in bits && SabmDone !in bits then SendSabm
    else if UaDone !in bits then Wait
    else if MscSent !in bits then SendMsc
    else if MscAnswered !in bits || MscReceived !in bits || MscReplied !in bits then Wait
    else if RpnSent !in bits then SendRpn
    else if RpnAnswered !in bits then Wait
    else DeclareOpen
  }

  function RaisedBy(m: Move): (r: set<Bit>)
  {
    match m
    case Wait => {}
    case SendPn => {PnSent}
    case SendSabm => {SabmDone}
    case SendMsc => {MscSent}
    case SendRpn => {RpnSent}
    case DeclareOpen => {Open}
  }

  /** baud 115200, everything else default, all parameters valid. */
  const OUR_RPN: seq<byte> := [0x07, 0, 0, 0, 0, 0x7F, 0x3F]

  /** The frame a move sends for channel c. */
  function FrameOf(m: Move, c: Slot): (r: Option<Frame>)
    requires c.Channel?
  {
    match m
    case SendPn => Some(Pn(true, (c.num * 2) % 256, PnParams(0, c.priority, 0, c.mtu, 0, 7)))
    case SendSabm => Some(Sabm(c.num))
    case SendMsc => Some(Msc(true, (c.num * 8 + 3) % 256, OUR_SIGNALS, None))
    case SendRpn => Some(Rpn(true, (c.num * 8 + 3) % 256, OUR_RPN))
    case _ => None
  }

  /** Control messages carry the response bit on incoming channels; SABM is always a command. */
  function SentBy(m: Move, c: Slot): (r: seq<Act>)
    requires c.Channel?
  {
    match FrameOf(m, c)
    case None => []
    case Some(f) => [Sent(c.num, f, f.Sabm? || Incoming !in c.bits)]
  }

  predicate Ready(s: Session)
  {
    Has(s, 0) && {SabmDone, UaDone} <= BitsOf(s, 0)
  }

  function Process(s: Session, i: nat): (r: Session)
    requires i < |s.slots|
  {
    var c := s.slots[i];
    if c.Free? then s
    else if c.num == 0 then
      if Incoming !in c.bits && SabmDone !in c.bits then
        s.(slots := s.slots[i := c.(bits := c.bits + {SabmDone})], trace := s.trace + [Sent(0, Sabm(0), true)])
      else s
    else if !Ready(s) then s
    else
      var m := NextMove(c.bits);
      s.(slots := s.slots[i := c.(bits := c.bits + RaisedBy(m))], trace := s.trace + SentBy(m, c))
  }

  /** The loop over all slots at the end of rfEventHandler. */
  function ProcessFrom(s: Session, i: nat): (r: Session)
    decreases |s.slots| - i
  {
    if i >= |s.slots| then s else ProcessFrom(Process(s, i), i + 1)
  }

  // ---------------------------------------------------------------- rfEventHandler

  /** The bits a received frame raises on its target channel. */
  function Heard(f: Frame): (r: set<Bit>)
  {
    match f
    case Sabm(_) => {SabmDone, UaDone}
    case Ua(_) => {UaDone}
    case Pn(command, _, _) => if command then {PnReceived, PnReplied} else {PnAnswered}
    case Msc(command, _, _, _) => if command then {MscReceived, MscReplied} else {MscAnswered}
    case Rpn(command, _, _) => if command then {RpnReceived, RpnReplied} else {RpnAnswered}
    case _ => {}
  }

  /** Our answer to a received frame: UA, or the same control message with the inner bit cleared. */
  function Reply(f: Frame): (r: Option<Frame>)
  {
    match f
    case Sabm(n) => Some(Ua(n))
    case Pn(true, dlci, p) => Some(Pn(false, dlci, p.(flow := 0)))
    case Msc(true, dlci, signals, breaks) =>
      Some(Msc(false, dlci - dlci % 8 + 3, signals, if breaks.Some? then Some(SetLow(breaks.value)) else None))
    case Rpn(true, dlci, rest) => Some(Rpn(false, dlci, rest))
    case _ => None
  }

  /** PN commands also set the channel's parameters. */
  function Configure(s: Session, f: Frame): (r: Session)
  {
    if f.Pn? && f.command && Has(s, Target(f)) then
      var i := Find(s.slots, Target(f));
      s.(slots := s.slots[i := s.slots[i].(priority := f.params.priority, mtu := f.params.mtu)])
    else s
  }

  /** Whether a frame has an effect on its target: PN about DLC0 is ignored, as are frames for missing channels. */
  predicate Effective(s: Session, f: Frame)
  {
    Has(s, Target(f)) && !(f.Pn? && Target(f) == 0)
  }

  /** The bits and parameters a frame sets. */
  function Hear(s: Session, f: Frame): (r: Session)
  {
    Record(Configure(Raise(s, Target(f), Heard(f)), f), Got(f))
  }

  /** The effect of a frame on its target channel, before the processing loop. */
  function Absorb(s: Session, f: Frame): (r: Session)
  {
    if !Effective(s, f) then s
    else
      var r := Hear(s, f);
      match Reply(f)
      case None => r
      case Some(reply) => Record(r, Sent(Target(f), reply, reply.Ua? || Incoming !in BitsOf(s, Target(f))))
  }

  /** SABM and delivered client data return before the processing loop. */
  predicate ReturnsEarly(s: Session, f: Frame)
  {
    f.Sabm? || (IsClientData(f) && s.client)
  }

  /** The frame-type switch: only PN adds the channel it names. */
  function Dispatch(s: Session, f: Frame): (r: Session)
  {
    Absorb(if f.Pn? then AddIfMissing(s, Target(f)) else s, f)
  }

  /** rfEventHandler. A frame for which addChannel finds no room is dropped. */
  function Handle(s: Session, f: Frame): (r: Session)
  {
    var s1 := AddIfMissing(s, Carrier(f));
    if !Has(s1, Carrier(f)) then s1
    else if ReturnsEarly(s, f) then Dispatch(s1, f)
    else ProcessFrom(Dispatch(s1, f), 0)
  }

  function Step(s: Session, e: Event): (r: Session)
  {
    match e
    case LinkUp => if Has(s, 0) then Process(s, Find(s.slots, 0)) else s
    case Receive(f) => Handle(s, f)
    case OpenChannel(n) => AddIfMissing(s, n)
    case CloseChannel(i) =>
      if i < |s.slots| && s.slots[i].Channel? && s.slots[i].num != 0 then
        s.(slots := s.slots[i := Free], trace := s.trace + [Removed(s.slots[i].num)])
      else s
    case SendData(i, payload) =>
      if i < |s.slots| && s.slots[i].Channel? && s.slots[i].num != 0 && Open in s.slots[i].bits then
        Record(s, Sent(s.slots[i].num, Data(s.slots[i].num, payload), true))
      else s
  }

  const EMPTY_TABLE: seq<Slot> := [Free, Free, Free, Free, Free]

  /** The session openRFChannel creates: DLC0 and the requested channel. */
  function NewOutgoing(n: nat, client: bool): (r: Session)
  {
    Add(Add(Session(EMPTY_TABLE, [], client), 0), n)
  }

  /** The session LCAP_EVENT_CONNECTED creates for a peer's connection. */
  function NewIncoming(client: bool): (r: Session)
  {
    Raise(Add(Session(EMPTY_TABLE, [], client), 0), 0, {Incoming})
  }
}
