/**
  The HCI host (hci.c, hci_events.c): command and data queues drained against credits, and the handling
  of the events that grant credits and drive firmware download and bring-up. Commands and packets are
  byte strings as they leave for the transport, without the prefix.
*/
module Hci {
  import opened Bytes

  const RESET: word := 0x0C03
  const MINIDRIVER: word := 0xFC2E
  const WRITE_RAM: word := 0xFC4C
  const LAUNCH_RAM: word := 0xFC4E
  const READ_BD_ADDR: word := 0x1009
  const READ_FEATURES: word := 0x1003
  const WRITE_CLASS: word := 0x0C24
  const WRITE_NAME: word := 0x0C13
  const WRITE_PAIRING: word := 0x0C56
  const READ_PAIRING: word := 0x0C55
  const WRITE_SCAN: word := 0x0C1A
  const EVENT_MASK: word := 0x0C01

  const BD_ADDR_LENGTH := 12   // the completion of READ_BD_ADDR carries an address

  /** Firmware is the image in the program; the local name is a buffer of 248 bytes. */
  datatype Config = Config(image: seq<byte>, localName: seq<byte>)

  datatype Act =
    | CommandQueued(bytes: seq<byte>)
    | DataQueued(bytes: seq<byte>)
    | CommandTaken(bytes: seq<byte>, sent: bool)   // off the queue, handed to the transport or lost
    | DataTaken(bytes: seq<byte>, sent: bool)
    | Granted(n: byte)
    | Completed(packets: nat)

  /** wire is what the transport took, commands and data alike, each behind its prefix. */
  datatype Host = Host(
    canCommand: nat, canData: word, vendorSetup: bool, baseSetup: bool, offset: nat,
    commands: seq<seq<byte>>, data: seq<seq<byte>>, wire: seq<seq<byte>>, trace: seq<Act>, failed: bool)

  /** hci_init. */
  const INITIAL := Host(1, 1, false, false, 0, [], [], [], [], false)

  datatype HciEvent =
    | CommandStatus(n: byte)
    | CommandComplete(n: byte, opcode: word, status: byte, length: nat)
    | CompletedPackets(counts: seq<word>)
    | OtherEvent
    | BadEvent   // an assertion fails, or fields lie past the end

  /** A command: opcode, length, parameters. */
  function Command(opcode: word, parameters: seq<byte>): (c: seq<byte>)
    requires |parameters| < 256
    ensures |c| == 3 + |parameters|
  {
    Le16(opcode) + [|parameters|] + parameters
  }

  /** Opcode and length come before the parameters. */
  function RecordLength(parameters: nat): (r: nat) { 3 + parameters }

  /** hci_send_command writes the length of the parameters into the header. */
  function WithLength(command: seq<byte>): (c: seq<byte>)
    requires 3 <= |command| < 3 + 256
    ensures |c| == |command|
  {
    command[2 := |command| - 3]
  }

  lemma LengthRight(command: seq<byte>)
    requires 3 <= |command| < 3 + 256 && |command| == RecordLength(command[2])
    ensures WithLength(command) == command
  {
  }

  function OpcodeOf(command: seq<byte>): (r: word)
    requires |command| >= 2
  {
    FromLe16(command[0], command[1])
  }

  // ---------------------------------------------------------------- queues

  function Note(h: Host, a: Act): (r: Host) { h.(trace := h.trace + [a]) }

  /** hci_send_command. */
  function QueueCommand(h: Host, c: seq<byte>): (r: Host)
  {
    Note(h.(commands := h.commands + [c]), CommandQueued(c))
  }

  /** hci_send_data. */
  function QueueData(h: Host, d: seq<byte>): (r: Host)
  {
    Note(h.(data := h.data + [d]), DataQueued(d))
  }

  const PREFIX_COMMAND: byte := 0x01
  const PREFIX_DATA: byte := 0x02

  /** hci_send_hci_command and hci_send_hci_data: the bytes behind their prefix. */
  function HandOver(h: Host, prefix: byte, b: seq<byte>, sent: bool): (h': Host)
  {
    if sent then h.(wire := h.wire + [[prefix] + b]) else h
  }

  /** One turn of the command loop; a refused packet is gone and costs no credit. */
  function TakeCommand(h: Host, sent: bool): (r: Host)
    requires h.canCommand > 0 && h.commands != []
  {
    var t := h.(commands := h.commands[1..], canCommand := if sent then h.canCommand - 1 else h.canCommand);
    Note(HandOver(t, PREFIX_COMMAND, h.commands[0], sent), CommandTaken(h.commands[0], sent))
  }

  function TakeData(h: Host, sent: bool): (r: Host)
    requires h.canData > 0 && h.data != []
  {
    var t := h.(data := h.data[1..], canData := if sent then h.canData - 1 else h.canData);
    Note(HandOver(t, PREFIX_DATA, h.data[0], sent), DataTaken(h.data[0], sent))
  }

  /** The command loop of process_serial_data; the transport accepts so many packets and then refuses. */
  function DrainCommands(h: Host, accept: nat): (r: Host)
    decreases accept
  {
    if h.canCommand == 0 || h.commands == [] then h
    else if accept == 0 then TakeCommand(h, false)
    else DrainCommands(TakeCommand(h, true), accept - 1)
  }

  function DrainData(h: Host, accept: nat): (r: Host)
    decreases accept
  {
    if h.canData == 0 || h.data == [] then h
    else if accept == 0 then TakeData(h, false)
    else DrainData(TakeData(h, true), accept - 1)
  }

  // ---------------------------------------------------------------- events

  /** The 16-bit credit counter. */
  function AddWrap(credits: nat, n: nat): (r: word) { (credits + n) % 0x1_0000 }

  function Sum(counts: seq<word>): (r: nat)
  {
    if counts == [] then 0 else Sum(counts[..|counts| - 1]) + counts[|counts| - 1]
  }

  /** The length of a completed-packets event: handles and counts, two bytes each. */
  function CompletedLength(entries: nat): (r: nat) { 3 + 4 * entries }

  /** The counts that follow the handles in a completed-packets event. */
  function Counts(b: seq<byte>, entries: nat, i: nat): (c: seq<word>)
    requires CompletedLength(entries) <= |b| && i <= entries
    ensures |c| == i
    decreases i
  {
    if i == 0 then []
    else Counts(b, entries, i - 1) + [CountAt(b, 3 + 2 * (entries + i - 1))]
  }

  function CountAt(b: seq<byte>, at: nat): (r: word)
    requires at + 2 <= |b|
  {
    FromLe16(b[at], b[at + 1])
  }

  /** The counts of an event that gives each handle its count: handle, count, handle, count. */
  function Interleaved(b: seq<byte>, entries: nat, i: nat): (c: seq<word>)
    requires CompletedLength(entries) <= |b| && i <= entries
    ensures |c| == i
    decreases i
  {
    if i == 0 then []
    else Interleaved(b, entries, i - 1) + [CountAt(b, 3 + 4 * (i - 1) + 2)]
  }

  /** Where the two layouts differ, word by word. */
  lemma {:induction false} LayoutsAgree(b: seq<byte>, entries: nat, i: nat)
    requires CompletedLength(entries) <= |b| && i <= entries
    ensures Counts(b, entries, i) == Interleaved(b, entries, i)
       <==> forall k | 0 <= k < i :: CountAt(b, 3 + 2 * (entries + k)) == CountAt(b, 3 + 4 * k + 2)
    decreases i
  {
    if i > 0 {
      LayoutsAgree(b, entries, i - 1);
      var c, d := Counts(b, entries, i), Interleaved(b, entries, i);
      assert c[..i - 1] == Counts(b, entries, i - 1) && d[..i - 1] == Interleaved(b, entries, i - 1);
    }
  }

  /**
    Such an event is credited with its own counts when it has one entry; with two, exactly when the second
    handle is the first count.
  */
  lemma CreditsReported(b: seq<byte>)
    requires |b| >= 3 && 1 <= b[2] <= 2 && CompletedLength(b[2]) <= |b|
    ensures b[2] == 1 ==> Counts(b, 1, 1) == Interleaved(b, 1, 1)
    ensures b[2] == 2 ==> (Sum(Counts(b, 2, 2)) == Sum(Interleaved(b, 2, 2)) <==> CountAt(b, 7) == CountAt(b, 5))
  {
    if b[2] == 1 {
      LayoutsAgree(b, 1, 1);
    } else {
      SumTwo(CountAt(b, 7), CountAt(b, 9));
      SumTwo(CountAt(b, 5), CountAt(b, 9));
      assert Counts(b, 2, 2) == Counts(b, 2, 1) + [CountAt(b, 9)] && Counts(b, 2, 1) == [CountAt(b, 7)];
      assert Interleaved(b, 2, 2) == Interleaved(b, 2, 1) + [CountAt(b, 9)] && Interleaved(b, 2, 1) == [CountAt(b, 5)];
    }
  }

  lemma SumTwo(c: word, d: word)
    ensures Sum([c] + [d]) == c + d
  {
    var s := [c] + [d];
    assert s[..1] == [c] && s[1] == d && [c][..0] == [];
    assert Sum([c]) == Sum([c][..0]) + c;
  }

  /** processEvent's reading of the events modelled here. */
  function DecodeEvent(b: seq<byte>): (r: HciEvent)
  {
    if |b| < 2 then OtherEvent
    else if b[0] == 0x0F then if |b| < 6 then BadEvent else CommandStatus(b[3])
    else if b[0] == 0x0E then
      if |b| < 6 then BadEvent else CommandComplete(b[2], FromLe16(b[3], b[4]), b[5], |b|)
    else if b[0] == 0x13 then
      if |b| < 3 || b[2] == 0 || |b| < CompletedLength(b[2]) then BadEvent else CompletedPackets(Counts(b, b[2], b[2]))
    else OtherEvent
  }

  /** Queue the firmware record at the offset; an image that ends inside it fails an assertion. */
  function QueueRecord(image: seq<byte>, h: Host): (r: Host)
  {
    if h.offset + 3 > |image| then h.(failed := true)
    else
      var next := h.offset + RecordLength(image[h.offset + 2]);
      if next > |image| then h.(failed := true) else QueueCommand(h.(offset := next), image[h.offset..next])
  }

  function Launched(h: Host): (r: Host) { h.(vendorSetup := true, baseSetup := false) }

  /** m_pVendor_processCommandCompleteEvent: each completion sends the next firmware record. */
  function Vendor(cfg: Config, h: Host, opcode: word): (r: Host)
  {
    if opcode == MINIDRIVER || opcode == WRITE_RAM then QueueRecord(cfg.image, h)
    else if opcode == LAUNCH_RAM then QueueCommand(Launched(h), Command(READ_BD_ADDR, []))
    else h
  }

  /** The command that follows the completion of a base command. */
  function AfterBase(cfg: Config, opcode: word): (r: Option<seq<byte>>)
    requires |cfg.localName| < 256
  {
    if opcode == READ_BD_ADDR then Some(Command(READ_FEATURES, []))
    else if opcode == READ_FEATURES then Some(Command(WRITE_CLASS, [0x0C, 0x02, 0x7A]))
    else if opcode == WRITE_CLASS then Some(Command(WRITE_NAME, cfg.localName))
    else if opcode == WRITE_NAME then Some(Command(WRITE_PAIRING, [1]))
    else if opcode == WRITE_PAIRING then Some(Command(READ_PAIRING, []))
    else if opcode == READ_PAIRING then Some(Command(WRITE_SCAN, [3]))
    else if opcode == WRITE_SCAN then Some(Command(EVENT_MASK, [0xFF, 0xFF, 0xFF, 0xFF, 0xFF, 0xFF, 0xFF, 0xFF]))
    else None
  }

  /** hcibase_processCommandCompleteEvent. */
  function Base(cfg: Config, h: Host, opcode: word, length: nat): (r: Host)
    requires |cfg.localName| < 256
  {
    if opcode == READ_BD_ADDR && length < BD_ADDR_LENGTH then h.(failed := true)
    else QueueNext(h, AfterBase(cfg, opcode), opcode == WRITE_SCAN)
  }

  /** Queue the command, if any; after the last completion that counts, the base is set up. */
  function QueueNext(h: Host, c: Option<seq<byte>>, last: bool): (r: Host)
  {
    match c
    case None => h
    case Some(b) => if last then QueueCommand(h, b).(baseSetup := true) else QueueCommand(h, b)
  }

  function OnComplete(cfg: Config, h: Host, opcode: word, length: nat): (r: Host)
    requires |cfg.localName| < 256
  {
    if opcode == RESET then QueueCommand(h, Command(MINIDRIVER, [])).(vendorSetup := false)
    else if !h.vendorSetup then Vendor(cfg, h, opcode)
    else if !h.baseSetup then Base(cfg, h, opcode, length)
    else h
  }

  function Process(cfg: Config, h: Host, e: HciEvent): (r: Host)
    requires |cfg.localName| < 256
  {
    if h.failed then h
    else
      match e
      case CommandStatus(n) => Note(h.(canCommand := n), Granted(n))
      case CommandComplete(n, opcode, status, length) =>
        var g := Note(h.(canCommand := n), Granted(n));
        if status != 0 then g else OnComplete(cfg, g, opcode, length)
      case CompletedPackets(counts) =>
        Note(h.(canData := AddWrap(h.canData, Sum(counts))), Completed(Sum(counts)))
      case OtherEvent => h
      case BadEvent => h.(failed := true)
  }
}
