/** The HCI context object of hci.c: credits, flags and queues changed in place by event handler and sending loops. */
module HciDevice {
  import opened Bytes
  import opened Hci

  class HciContext {
    var canSendCommand: nat
    var canSendData: word
    var vendorIsSetup: bool
    var baseIsSetup: bool
    var firmwareOffset: nat
    var commandQueue: seq<seq<byte>>
    var dataQueue: seq<seq<byte>>
    var transport: seq<seq<byte>>      // what was handed over, commands and data alike
    var failed: bool
    const config: Config
    ghost var trace: seq<Act>

    ghost predicate Valid()
      reads this
    {
      |config.localName| < 256
    }

    ghost function Abs(): (r: Host)
      reads this
    {
      Host(canSendCommand, canSendData, vendorIsSetup, baseIsSetup, firmwareOffset, commandQueue, dataQueue,
          transport, trace, failed)
    }

    /** hci_init. */
    constructor (cfg: Config)
      requires |cfg.localName| < 256
      ensures Valid() && config == cfg && Abs() == INITIAL
    {
      canSendCommand, canSendData := 1, 1;
      vendorIsSetup, baseIsSetup, firmwareOffset := false, false, 0;
      commandQueue, dataQueue, transport, failed := [], [], [], false;
      config, trace := cfg, [];
    }

    /** hci_send_command: the length is filled in, and the command queued. */
    method HciSendCommand(command: seq<byte>)
      requires Valid() && 3 <= |command| < 3 + 256
      modifies this`commandQueue, this`trace
      ensures Valid() && Abs() == QueueCommand(old(Abs()), WithLength(command))
    {
      var c := command[2 := |command| - 3];
      commandQueue := commandQueue + [c];
      trace := trace + [CommandQueued(c)];
    }

    method SendParameters(opcode: word, parameters: seq<byte>)
      requires Valid() && |parameters| < 256
      modifies this`commandQueue, this`trace
      ensures Valid() && Abs() == QueueCommand(old(Abs()), Command(opcode, parameters))
    {
      var command := Le16(opcode) + [0] + parameters;
      assert WithLength(command) == Command(opcode, parameters);
      HciSendCommand(command);
    }

    method HciSendData(packet: seq<byte>)
      requires Valid()
      modifies this`dataQueue, this`trace
      ensures Valid() && Abs() == QueueData(old(Abs()), packet)
    {
      dataQueue := dataQueue + [packet];
      trace := trace + [DataQueued(packet)];
    }

    // -------------------------------------------------------------- process_serial_data

    /** Dequeue a command and hand it over; a refused one is destroyed all the same. */
    method SendOneCommand(accepted: bool)
      requires Valid() && canSendCommand > 0 && |commandQueue| > 0
      modifies this`canSendCommand, this`commandQueue, this`transport, this`trace
      ensures Valid() && Abs() == TakeCommand(old(Abs()), accepted)
    {
      var entry := commandQueue[0];
      commandQueue := commandQueue[1..];
      if accepted {
        transport := transport + [[PREFIX_COMMAND] + entry];
        canSendCommand := canSendCommand - 1;
      }
      trace := trace + [CommandTaken(entry, accepted)];
    }

    /** The command loop, with a transport that accepts so many packets and then refuses. */
    method SendCommands(accept: nat)
      requires Valid()
      modifies this`canSendCommand, this`commandQueue, this`transport, this`trace
      ensures Valid() && Abs() == DrainCommands(old(Abs()), accept)
    {
      var left := accept;
      while canSendCommand > 0 && |commandQueue| > 0
        invariant Valid() && DrainCommands(Abs(), left) == DrainCommands(old(Abs()), accept)
        decreases |commandQueue|
      {
        SendOneCommand(left > 0);
        if left == 0 { return; }
        left := left - 1;
      }
    }

    /** Dequeue a data packet and hand it over. */
    method SendOnePacket(accepted: bool)
      requires Valid() && canSendData > 0 && |dataQueue| > 0
      modifies this`canSendData, this`dataQueue, this`transport, this`trace
      ensures Valid() && Abs() == TakeData(old(Abs()), accepted)
    {
      var entry := dataQueue[0];
      dataQueue := dataQueue[1..];
      if accepted {
        transport := transport + [[PREFIX_DATA] + entry];
        canSendData := canSendData - 1;
      }
      trace := trace + [DataTaken(entry, accepted)];
    }

    /** The data loop. */
    method SendPackets(accept: nat)
      requires Valid()
      modifies this`canSendData, this`dataQueue, this`transport, this`trace
      ensures Valid() && Abs() == DrainData(old(Abs()), accept)
    {
      var left := accept;
      while canSendData > 0 && |dataQueue| > 0
        invariant Valid() && DrainData(Abs(), left) == DrainData(old(Abs()), accept)
        decreases |dataQueue|
      {
        SendOnePacket(left > 0);
        if left == 0 { return; }
        left := left - 1;
      }
    }

    // -------------------------------------------------------------- processEvent

    /** The next firmware record, byte by byte; false when the image ends inside it. */
    method FetchRecord() returns (command: seq<byte>, ok: bool)
      modifies this`firmwareOffset
      ensures ok <==> old(firmwareOffset) + 3 <= |config.image|
                      && old(firmwareOffset) + RecordLength(config.image[old(firmwareOffset) + 2]) <= |config.image|
      ensures ok ==> firmwareOffset == old(firmwareOffset) + RecordLength(config.image[old(firmwareOffset) + 2])
                     && command == config.image[old(firmwareOffset)..firmwareOffset]
    {
      var start := firmwareOffset;
      if start + 3 > |config.image| { return [], false; }
      command := config.image[start..start + 3];
      var length: nat := config.image[start + 2];
      firmwareOffset := start + 3;
      var i := 0;
      while i < length
        invariant i <= length && firmwareOffset == start + 3 + i <= |config.image|
        invariant command == config.image[start..firmwareOffset]
      {
        if firmwareOffset >= |config.image| { return [], false; }
        command := command + [config.image[firmwareOffset]];
        firmwareOffset := firmwareOffset + 1;
        i := i + 1;
      }
      ok := true;
    }

    /** m_pVendor_processCommandCompleteEvent; after a failed assertion the offset is anywhere in the record. */
    method VendorCommandComplete(opcode: word)
      requires Valid() && !failed
      modifies this`commandQueue, this`trace, this`firmwareOffset, this`failed, this`vendorIsSetup, this`baseIsSetup
      ensures Valid() && failed == Vendor(config, old(Abs()), opcode).failed
      ensures !failed ==> Abs() == Vendor(config, old(Abs()), opcode)
    {
      if opcode == MINIDRIVER || opcode == WRITE_RAM {
        var command, ok := FetchRecord();
        if ok {
          LengthRight(command);
          HciSendCommand(command);
        } else {
          failed := true;
        }
      } else if opcode == LAUNCH_RAM {
        vendorIsSetup := true;
        SendParameters(READ_BD_ADDR, []);
        baseIsSetup := false;
      }
    }

    /** hcibase_processCommandCompleteEvent. */
    method BaseCommandComplete(opcode: word, length: nat)
      requires Valid() && !failed
      modifies this`commandQueue, this`trace, this`failed, this`baseIsSetup
      ensures Valid() && Abs() == Base(config, old(Abs()), opcode, length)
    {
      if opcode == READ_BD_ADDR {
        if length < BD_ADDR_LENGTH {
          failed := true;
          return;
        }
        SendParameters(READ_FEATURES, []);
      } else if opcode == READ_FEATURES {
        SendParameters(WRITE_CLASS, [0x0C, 0x02, 0x7A]);
      } else if opcode == WRITE_CLASS {
        SendParameters(WRITE_NAME, config.localName);
      } else if opcode == WRITE_NAME {
        SendParameters(WRITE_PAIRING, [1]);
      } else if opcode == WRITE_PAIRING {
        SendParameters(READ_PAIRING, []);
      } else if opcode == READ_PAIRING {
        SendParameters(WRITE_SCAN, [3]);
      } else if opcode == WRITE_SCAN {
        SendParameters(EVENT_MASK, [0xFF, 0xFF, 0xFF, 0xFF, 0xFF, 0xFF, 0xFF, 0xFF]);
        baseIsSetup := true;
      }
    }

    method CommandCompleted(opcode: word, length: nat)
      requires Valid() && !failed
      modifies this`commandQueue, this`trace, this`firmwareOffset, this`failed, this`vendorIsSetup, this`baseIsSetup
      ensures Valid() && failed == OnComplete(config, old(Abs()), opcode, length).failed
      ensures !failed ==> Abs() == OnComplete(config, old(Abs()), opcode, length)
    {
      if opcode == RESET {
        SendParameters(MINIDRIVER, []);
        vendorIsSetup := false;
      } else if !vendorIsSetup {
        VendorCommandComplete(opcode);
      } else if !baseIsSetup {
        BaseCommandComplete(opcode, length);
      }
    }

    method Grant(n: byte)
      requires Valid()
      modifies this`canSendCommand, this`trace
      ensures Valid() && Abs() == Note(old(Abs()).(canCommand := n), Granted(n))
    {
      canSendCommand := n;
      trace := trace + [Granted(n)];
    }

    /** The counts, added to the credits one by one. */
    method AddCompleted(b: seq<byte>)
      requires Valid() && |b| >= 3 && |b| >= CompletedLength(b[2])
      modifies this`canSendData, this`trace
      ensures Valid()
      ensures var sum := Sum(Counts(b, b[2], b[2]));
              Abs() == Note(old(Abs()).(canData := AddWrap(old(canSendData), sum)), Completed(sum))
    {
      var entries: nat := b[2];
      AddCounts(b, entries);
      trace := trace + [Completed(Sum(Counts(b, entries, entries)))];
    }

    method AddCounts(b: seq<byte>, entries: nat)
      requires |b| >= CompletedLength(entries)
      modifies this`canSendData
      ensures canSendData == AddWrap(old(canSendData), Sum(Counts(b, entries, entries)))
    {
      ghost var before: nat := canSendData;
      ghost var sum: nat := 0;
      var i := 0;
      while i < entries
        invariant i <= entries && sum == Sum(Counts(b, entries, i))
        invariant canSendData == AddWrap(before, sum)
      {
        var count: nat := CountAt(b, 3 + 2 * (entries + i));
        CountsStep(b, entries, i);
        AddWraps(before, sum, count);
        canSendData := AddWrap(canSendData, count);
        sum := sum + count;
        i := i + 1;
      }
    }

    /** processEvent; after a failed assertion only the failure counts. */
    method ProcessEvent(b: seq<byte>)
      requires Valid() && !failed
      modifies this`canSendCommand, this`canSendData, this`commandQueue, this`trace, this`firmwareOffset, this`failed,
               this`vendorIsSetup, this`baseIsSetup
      ensures Valid() && failed == Process(config, old(Abs()), DecodeEvent(b)).failed
      ensures !failed ==> Abs() == Process(config, old(Abs()), DecodeEvent(b))
    {
      match DecodeEvent(b) {
        case CommandStatus(n) => Grant(n);
        case CommandComplete(n, opcode, status, length) =>
          Grant(n);
          if status == 0 { CommandCompleted(opcode, length); }
        case CompletedPackets(_) => AddCompleted(b);
        case OtherEvent =>
        case BadEvent => failed := true;
      }
    }
  }

  lemma CountsStep(b: seq<byte>, entries: nat, i: nat)
    requires CompletedLength(entries) <= |b| && i < entries
    ensures Sum(Counts(b, entries, i + 1))
         == Sum(Counts(b, entries, i)) + CountAt(b, 3 + 2 * (entries + i))
  {
    var c := Counts(b, entries, i + 1);
    assert c[..i] == Counts(b, entries, i);
  }

  lemma AddWraps(x: nat, y: nat, z: nat)
    ensures AddWrap(AddWrap(x, y), z) == AddWrap(x, y + z)
  {
  }
}
