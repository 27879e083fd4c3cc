/**
  The bytes of HCI commands and events, written out (Bluetooth Core Specification, Vol 4 Part E, sections 5.4
  and 7): what each event means to the host, what it sends to bring the controller up, and that the
  completions of those commands, as bytes, take it from one to the next.
*/
module HciFormats {
  import opened Bytes
  import opened BringUp
  import opened Hci
  import opened HciCredits

  // ---------------------------------------------------------------- events

  /** A command complete event: credit, opcode, status, and what the command returns. */
  function CompleteEvent(n: byte, opcode: word, status: byte, rest: seq<byte>): (b: seq<byte>)
    requires |rest| <= 251
  {
    [0x0E, 4 + |rest|, n, opcode % 256, opcode / 256, status] + rest
  }

  lemma CompleteRead(n: byte, opcode: word, status: byte, rest: seq<byte>)
    requires |rest| <= 251
    ensures DecodeEvent(CompleteEvent(n, opcode, status, rest)) == CommandComplete(n, opcode, status, 6 + |rest|)
  {
  }

  /** A command status event: status, credit, opcode. */
  lemma StatusRead(n: byte, opcode: word, status: byte)
    ensures DecodeEvent([0x0F, 4, status, n, opcode % 256, opcode / 256]) == CommandStatus(n)
  {
  }

  /** Words, low byte first. */
  function WordBytes(words: seq<word>): (b: seq<byte>)
    ensures |b| == 2 * |words|
    decreases |words|
  {
    if words == [] then []
    else
      var w := words[|words| - 1];
      WordBytes(words[..|words| - 1]) + [w % 256, w / 256]
  }

  lemma {:induction false} WordAt(words: seq<word>, i: nat)
    requires i < |words|
    ensures WordBytes(words)[2 * i] == words[i] % 256 && WordBytes(words)[2 * i + 1] == words[i] / 256
    decreases |words|
  {
    if i < |words| - 1 {
      WordAt(words[..|words| - 1], i);
    }
  }

  /** A completed packets event as the program reads it: all handles, then all counts. */
  function CompletedEvent(handles: seq<word>, counts: seq<word>): (b: seq<byte>)
    requires |handles| == |counts| < 64
  {
    [0x13, 1 + 4 * |counts|, |counts|] + WordBytes(handles) + WordBytes(counts)
  }

  lemma CountRead(handles: seq<word>, counts: seq<word>, i: nat)
    requires |handles| == |counts| < 64 && i < |counts|
    ensures CountAt(CompletedEvent(handles, counts), 3 + 2 * (|counts| + i)) == counts[i]
  {
    var b, at := CompletedEvent(handles, counts), 3 + 2 * (|counts| + i);
    assert b[3 + 2 * |counts|..] == WordBytes(counts);
    WordAt(counts, i);
    assert b[at] == b[3 + 2 * |counts|..][2 * i] && b[at + 1] == b[3 + 2 * |counts|..][2 * i + 1];
  }

  lemma {:induction false} CountsRead(handles: seq<word>, counts: seq<word>, i: nat)
    requires |handles| == |counts| < 64 && i <= |counts|
    ensures Counts(CompletedEvent(handles, counts), |counts|, i) == counts[..i]
    decreases i
  {
    if i > 0 {
      CountsRead(handles, counts, i - 1);
      CountRead(handles, counts, i - 1);
      assert counts[..i] == counts[..i - 1] + [counts[i - 1]];
    }
  }

  lemma CompletedRead(handles: seq<word>, counts: seq<word>)
    requires |handles| == |counts| < 64 && counts != []
    ensures DecodeEvent(CompletedEvent(handles, counts)) == CompletedPackets(counts)
  {
    CountsRead(handles, counts, |counts|);
    assert counts[..|counts|] == counts;
  }

  /** Other events are not the business of this model; these, cut short, fail an assertion. */
  lemma OtherEvents(b: seq<byte>)
    requires |b| >= 2
    ensures b[0] !in {0x0E, 0x0F, 0x13} ==> DecodeEvent(b) == OtherEvent
    ensures b[0] in {0x0E, 0x0F} && |b| < 6 ==> DecodeEvent(b) == BadEvent
    ensures b[0] == 0x13 && (|b| < 3 || b[2] == 0) ==> DecodeEvent(b) == BadEvent
  {
  }

  // ---------------------------------------------------------------- what events do to the credits

  lemma Credits(cfg: Config, h: Host, n: byte, opcode: word, status: byte, length: nat, counts: seq<word>)
    requires |cfg.localName| < 256 && !h.failed
    ensures Process(cfg, h, CommandStatus(n)).canCommand == n
    ensures Process(cfg, h, CommandComplete(n, opcode, status, length)).canCommand == n
    ensures Process(cfg, h, CompletedPackets(counts)).canData == (h.canData + Sum(counts)) % 0x1_0000
    ensures h.canCommand > 0 && h.commands != [] ==> TakeCommand(h, true).canCommand == h.canCommand - 1
    ensures h.canData > 0 && h.data != [] ==> TakeData(h, true).canData == h.canData - 1
  {
  }

  /** The commands that the transport took since the last grant. */
  function SentSince(trace: seq<Act>): (n: nat)
    decreases |trace|
  {
    if trace == [] then 0
    else
      match trace[|trace| - 1]
      case Granted(_) => 0
      case CommandTaken(_, true) => SentSince(trace[..|trace| - 1]) + 1
      case _ => SentSince(trace[..|trace| - 1])
  }

  /** The data packets that the transport took. */
  function DataSent(trace: seq<Act>): (packets: seq<seq<byte>>)
    decreases |trace|
  {
    if trace == [] then []
    else
      var a := trace[|trace| - 1];
      DataSent(trace[..|trace| - 1]) + if a.DataTaken? && a.sent then [a.bytes] else []
  }

  lemma {:induction false} BooksCount(trace: seq<Act>)
    ensures BooksOf(trace).used == SentSince(trace) && BooksOf(trace).packets.sent == DataSent(trace)
    decreases |trace|
  {
    if trace != [] {
      BooksCount(trace[..|trace| - 1]);
    }
  }

  /** The credit that the last status or complete event of a run granted; one before the first. */
  function LastGrant(cfg: Config, calls: seq<Call>): (n: nat)
    requires |cfg.localName| < 256
    decreases |calls|
  {
    if calls == [] then 1
    else
      var front, c := calls[..|calls| - 1], calls[|calls| - 1];
      if c.OnEvent? && !HciCredits.After(cfg, front).failed then
        match c.event
        case CommandStatus(n) => n
        case CommandComplete(n, _, _, _) => n
        case _ => LastGrant(cfg, front)
      else LastGrant(cfg, front)
  }

  /** The packets that the completed packets events of a run reported. */
  function Reported(cfg: Config, calls: seq<Call>): (n: nat)
    requires |cfg.localName| < 256
    decreases |calls|
  {
    if calls == [] then 0
    else
      var front, c := calls[..|calls| - 1], calls[|calls| - 1];
      Reported(cfg, front)
      + if c.OnEvent? && c.event.CompletedPackets? && !HciCredits.After(cfg, front).failed then
          Sum(c.event.counts)
        else 0
  }

  /** The books after more acts, as far as grants and completions go. */
  predicate SameGrants(h: Host, t: Host)
  {
    && BooksOf(t.trace).granted == BooksOf(h.trace).granted
    && BooksOf(t.trace).completed == BooksOf(h.trace).completed
  }

  lemma QueueSame(h: Host, c: seq<byte>)
    ensures SameGrants(h, QueueCommand(h, c)) && SameGrants(h, QueueData(h, c))
  {
    BooksSnoc(h.trace, CommandQueued(c));
    BooksSnoc(h.trace, DataQueued(c));
  }

  lemma TakeSame(h: Host, sent: bool)
    ensures h.canCommand > 0 && h.commands != [] ==> SameGrants(h, TakeCommand(h, sent))
    ensures h.canData > 0 && h.data != [] ==> SameGrants(h, TakeData(h, sent))
  {
    if h.canCommand > 0 && h.commands != [] { BooksSnoc(h.trace, CommandTaken(h.commands[0], sent)); }
    if h.canData > 0 && h.data != [] { BooksSnoc(h.trace, DataTaken(h.data[0], sent)); }
  }

  lemma {:induction false} CommandLoopSame(h: Host, accept: nat)
    ensures SameGrants(h, DrainCommands(h, accept))
    decreases accept
  {
    TakeSame(h, accept > 0);
    if h.canCommand > 0 && h.commands != [] && accept > 0 { CommandLoopSame(TakeCommand(h, true), accept - 1); }
  }

  lemma {:induction false} DataLoopSame(h: Host, accept: nat)
    ensures SameGrants(h, DrainData(h, accept))
    decreases accept
  {
    TakeSame(h, accept > 0);
    if h.canData > 0 && h.data != [] && accept > 0 { DataLoopSame(TakeData(h, true), accept - 1); }
  }

  lemma RecordSame(image: seq<byte>, h: Host)
    ensures SameGrants(h, QueueRecord(image, h))
  {
    if h.offset + 3 <= |image| {
      var next := h.offset + RecordLength(image[h.offset + 2]);
      if next <= |image| { QueueSame(h.(offset := next), image[h.offset..next]); }
    }
  }

  lemma NextSame(h: Host, c: Option<seq<byte>>, last: bool)
    ensures SameGrants(h, QueueNext(h, c, last))
  {
    if c.Some? { QueueSame(h, c.value); }
  }

  lemma OnCompleteSame(cfg: Config, h: Host, opcode: word, length: nat)
    requires |cfg.localName| < 256
    ensures SameGrants(h, OnComplete(cfg, h, opcode, length))
  {
    if opcode == RESET {
      QueueSame(h, Command(MINIDRIVER, []));
    } else if !h.vendorSetup {
      RecordSame(cfg.image, h);
      QueueSame(Launched(h), Command(READ_BD_ADDR, []));
    } else if !h.baseSetup {
      NextSame(h, AfterBase(cfg, opcode), opcode == WRITE_SCAN);
    }
  }

  lemma GrantBooks(h: Host, n: byte)
    ensures var k := BooksOf(Note(h.(canCommand := n), Granted(n)).trace);
            k.granted == n && k.completed == BooksOf(h.trace).completed
  {
    BooksSnoc(h.trace, Granted(n));
  }

  /** What one event does to the books. */
  lemma EventBooks(cfg: Config, h: Host, e: HciEvent)
    requires |cfg.localName| < 256 && !h.failed
    ensures var k, k' := BooksOf(h.trace), BooksOf(Process(cfg, h, e).trace);
            && k'.granted == (match e
                              case CommandStatus(n) => n
                              case CommandComplete(n, _, _, _) => n
                              case _ => k.granted)
            && k'.completed == k.completed + if e.CompletedPackets? then Sum(e.counts) else 0
  {
    match e {
      case CommandStatus(n) => GrantBooks(h, n);
      case CommandComplete(n, opcode, status, length) =>
        GrantBooks(h, n);
        OnCompleteSame(cfg, Note(h.(canCommand := n), Granted(n)), opcode, length);
      case CompletedPackets(counts) => BooksSnoc(h.trace, Completed(Sum(counts)));
      case OtherEvent =>
      case BadEvent =>
    }
  }

  /** The books of a run say what its events granted and reported. */
  lemma {:induction false} BooksFollowEvents(cfg: Config, calls: seq<Call>)
    requires |cfg.localName| < 256
    ensures var k := BooksOf(HciCredits.After(cfg, calls).trace);
            k.granted == LastGrant(cfg, calls) && k.completed == Reported(cfg, calls)
    decreases |calls|
  {
    if calls != [] {
      var front, c := calls[..|calls| - 1], calls[|calls| - 1];
      var h := HciCredits.After(cfg, front);
      BooksFollowEvents(cfg, front);
      match c {
        case OnEvent(e) => if !h.failed { EventBooks(cfg, h, e); }
        case SendCommand(b) => QueueSame(h, b);
        case SendData(b) => QueueSame(h, b);
        case CommandLoop(accept) => CommandLoopSame(h, accept);
        case DataLoop(accept) => DataLoopSame(h, accept);
      }
    }
  }

  predicate Balance(credit: nat, sent: nat, completed: nat)
  {
    && (credit + sent) % 0x1_0000 == (1 + completed) % 0x1_0000
    && (completed < 0xFFFF ==> credit + sent == 1 + completed)
  }

  lemma BooksBalance(cfg: Config, calls: seq<Call>)
    requires |cfg.localName| < 256
    ensures var h := HciCredits.After(cfg, calls);
            Balance(h.canData, |BooksOf(h.trace).packets.sent|, BooksOf(h.trace).completed)
  {
    DataCredits(cfg, calls);
  }

  /**
    In every run, data credits and data packets sent add up to one and the packets the events reported, modulo
    the 16-bit counter, and exactly while fewer than 65535 were.
  */
  lemma DataCreditsOfEvents(cfg: Config, calls: seq<Call>)
    requires |cfg.localName| < 256
    ensures var h := HciCredits.After(cfg, calls);
            Balance(h.canData, |DataSent(h.trace)|, Reported(cfg, calls))
  {
    BooksCount(HciCredits.After(cfg, calls).trace);
    BooksFollowEvents(cfg, calls);
    BooksBalance(cfg, calls);
  }

  /** And the commands sent since the last event that granted credit are within what it granted. */
  lemma CommandCreditsOfEvents(cfg: Config, calls: seq<Call>)
    requires |cfg.localName| < 256
    ensures var h := HciCredits.After(cfg, calls);
            h.canCommand + SentSince(h.trace) == LastGrant(cfg, calls)
  {
    BooksCount(HciCredits.After(cfg, calls).trace);
    BooksFollowEvents(cfg, calls);
    CommandCredits(cfg, calls);
  }

  // ---------------------------------------------------------------- the loops

  /** Unless the transport refuses, a loop goes on until its queue is empty or its credit is used up. */
  lemma {:induction false} CommandLoopEmpties(h: Host, accept: nat)
    requires accept >= |h.commands|
    ensures var t := DrainCommands(h, accept);
            t.canCommand + (|h.commands| - |t.commands|) == h.canCommand && (t.commands == [] || t.canCommand == 0)
    decreases accept
  {
    if h.canCommand > 0 && h.commands != [] { CommandLoopEmpties(TakeCommand(h, true), accept - 1); }
  }

  lemma {:induction false} DataLoopEmpties(h: Host, accept: nat)
    requires accept >= |h.data|
    ensures var t := DrainData(h, accept);
            t.canData + (|h.data| - |t.data|) == h.canData && (t.data == [] || t.canData == 0)
    decreases accept
  {
    if h.canData > 0 && h.data != [] { DataLoopEmpties(TakeData(h, true), accept - 1); }
  }

  // ---------------------------------------------------------------- commands

  /** A WRITE_RAM record is 4C FC, a length and so many bytes; a LAUNCH_RAM record 4E FC. */
  lemma RecordBytes(r: seq<byte>)
    ensures IsRecord(r, WRITE_RAM) <==> |r| >= 3 && r[0] == 0x4C && r[1] == 0xFC && |r| - 3 == r[2]
    ensures IsRecord(r, LAUNCH_RAM) <==> |r| >= 3 && r[0] == 0x4E && r[1] == 0xFC && |r| - 3 == r[2]
  {
  }

  /** Everything the host sends from reset to set up, byte by byte. */
  lemma ScriptBytes(cfg: Config, records: seq<seq<byte>>)
    requires |cfg.localName| < 256
    ensures Script(cfg, records)
         == [[0x03, 0x0C, 0], [0x2E, 0xFC, 0]] + records
            + [[0x09, 0x10, 0], [0x03, 0x10, 0], [0x24, 0x0C, 3, 0x0C, 0x02, 0x7A],
               [0x13, 0x0C, |cfg.localName|] + cfg.localName, [0x56, 0x0C, 1, 1], [0x55, 0x0C, 0], [0x1A, 0x0C, 1, 3],
               [0x01, 0x0C, 8, 0xFF, 0xFF, 0xFF, 0xFF, 0xFF, 0xFF, 0xFF, 0xFF]]
  {
    HeaderBytes(RESET, []);
    HeaderBytes(MINIDRIVER, []);
    assert Command(RESET, []) == [0x03, 0x0C, 0] && Command(MINIDRIVER, []) == [0x2E, 0xFC, 0];
    BaseBytes(cfg);
    assert Script(cfg, records) == [Command(RESET, []), Command(MINIDRIVER, [])] + records + BaseCommands(cfg);
  }

  lemma HeaderBytes(opcode: word, p: seq<byte>)
    requires |p| < 256
    ensures Command(opcode, p) == [opcode % 256, opcode / 256, |p|] + p
  {
  }

  lemma BaseBytes(cfg: Config)
    requires |cfg.localName| < 256
    ensures BaseCommands(cfg)
         == [[0x09, 0x10, 0], [0x03, 0x10, 0], [0x24, 0x0C, 3, 0x0C, 0x02, 0x7A],
             [0x13, 0x0C, |cfg.localName|] + cfg.localName, [0x56, 0x0C, 1, 1], [0x55, 0x0C, 0], [0x1A, 0x0C, 1, 3],
             [0x01, 0x0C, 8, 0xFF, 0xFF, 0xFF, 0xFF, 0xFF, 0xFF, 0xFF, 0xFF]]
  {
    var c := BaseCommands(cfg);
    assert c[0] == [0x09, 0x10, 0] && c[1] == [0x03, 0x10, 0] && c[2] == [0x24, 0x0C, 3, 0x0C, 0x02, 0x7A];
    assert c[3] == [0x13, 0x0C, |cfg.localName|] + cfg.localName;
    assert c[4] == [0x56, 0x0C, 1, 1] && c[5] == [0x55, 0x0C, 0] && c[6] == [0x1A, 0x0C, 1, 3];
    assert c[7] == [0x01, 0x0C, 8, 0xFF, 0xFF, 0xFF, 0xFF, 0xFF, 0xFF, 0xFF, 0xFF];
  }

  /** What the transport gets: commands behind 01, data packets behind 02. */
  lemma PrefixBytes(h: Host, b: seq<byte>)
    ensures h.canCommand > 0 && h.commands != [] ==>
              TakeCommand(h, true).wire == h.wire + [[0x01] + h.commands[0]]
    ensures h.canData > 0 && h.data != [] ==> TakeData(h, true).wire == h.wire + [[0x02] + h.data[0]]
  {
  }

  // ---------------------------------------------------------------- bring-up in bytes

  /** With at least the six bytes of an address behind the status, the length of a completion does not matter. */
  lemma LengthEnough(cfg: Config, h: Host, opcode: word, length: nat)
    requires |cfg.localName| < 256 && length >= 12
    ensures OnComplete(cfg, h, opcode, length) == OnComplete(cfg, h, opcode, BD_ADDR_LENGTH)
  {
  }

  /**
    The completion of command number done of the script, as bytes: status 0, the opcode of that command and at
    least six bytes more. The host queues the next command of the script and is in the next phase.
  */
  lemma CompletionInBytes(cfg: Config, records: seq<seq<byte>>, h: Host, done: nat, n: byte, rest: seq<byte>)
    requires Loaded(cfg, records) && Phase(cfg, records, h, done) && done < |Script(cfg, records)|
    requires 6 <= |rest| <= 251
    ensures |Script(cfg, records)[done]| >= 3
    ensures var c := Script(cfg, records)[done];
            var t := Process(cfg, h, DecodeEvent([0x0E, 4 + |rest|, n, c[0], c[1], 0] + rest));
            && Phase(cfg, records, t, done + 1) && t.canCommand == n
            && t.commands == h.commands
                 + if done + 1 < |Script(cfg, records)| then [Script(cfg, records)[done + 1]] else []
  {
    ScriptSizes(cfg, records, done);
    var c := Script(cfg, records)[done];
    var opcode := OpcodeOf(c);
    OpcodeBytes(c);
    CompleteRead(n, opcode, 0, rest);
    var g := Note(h.(canCommand := n), Granted(n));
    SamePhase(cfg, records, h, g, Granted(n), done);
    PhaseNext(cfg, records, g, done);
    LengthEnough(cfg, g, opcode, 6 + |rest|);
    CreditKept(cfg, g, opcode);
  }

  lemma OpcodeBytes(c: seq<byte>)
    requires |c| >= 2
    ensures OpcodeOf(c) % 256 == c[0] && OpcodeOf(c) / 256 == c[1]
  {
  }

  lemma CreditKept(cfg: Config, h: Host, opcode: word)
    requires |cfg.localName| < 256
    ensures OnComplete(cfg, h, opcode, BD_ADDR_LENGTH).canCommand == h.canCommand
  {
  }
}
