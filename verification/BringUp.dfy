/**
  From reset to set up (hci.c, hci_events.c): the host resets the controller, downloads the firmware one
  record per completion, launches it and configures the base controller. The controller here completes
  the commands it was sent, one at a time, with any status and any credit, and may report status in between.
*/
module BringUp {
  import opened Bytes
  import opened Hci
  import opened HciCredits

  // ---------------------------------------------------------------- the firmware image

  /** A firmware record is a whole command: opcode, length, that many bytes. */
  predicate IsRecord(r: seq<byte>, opcode: word)
  {
    |r| >= 3 && OpcodeOf(r) == opcode && |r| == RecordLength(r[2])
  }

  /** WRITE_RAM records and one LAUNCH_RAM record at the end. */
  predicate IsFirmware(records: seq<seq<byte>>)
  {
    && records != [] && IsRecord(records[|records| - 1], LAUNCH_RAM)
    && forall i | 0 <= i < |records| - 1 :: IsRecord(records[i], WRITE_RAM)
  }

  // ---------------------------------------------------------------- the system

  /** The host, the commands on their way to completion, and how many were completed with success. */
  datatype System = System(host: Host, pending: seq<seq<byte>>, done: nat)

  datatype Move =
    | Send(accepted: bool)              // one turn of the command loop
    | Complete(n: byte, status: byte)   // the controller completes the oldest command
    | Status(n: byte)

  /** hci_base_reset on a fresh context. */
  function Begin(): (r: System)
  {
    System(QueueCommand(INITIAL, Command(RESET, [])), [], 0)
  }

  function Step(cfg: Config, s: System, m: Move): (r: System)
    requires |cfg.localName| < 256
  {
    match m
    case Send(accepted) =>
      if s.host.canCommand == 0 || s.host.commands == [] then s
      else
        System(TakeCommand(s.host, accepted),
               if accepted then s.pending + [s.host.commands[0]] else s.pending, s.done)
    case Complete(n, status) =>
      if s.pending == [] || |s.pending[0]| < 2 then s
      else
        System(Process(cfg, s.host, CommandComplete(n, OpcodeOf(s.pending[0]), status, BD_ADDR_LENGTH)),
               s.pending[1..], if status == 0 then s.done + 1 else s.done)
    case Status(n) => System(Process(cfg, s.host, CommandStatus(n)), s.pending, s.done)
  }

  function RunFrom(cfg: Config, s: System, moves: seq<Move>): (r: System)
    requires |cfg.localName| < 256
    decreases |moves|
  {
    if moves == [] then s else Step(cfg, RunFrom(cfg, s, moves[..|moves| - 1]), moves[|moves| - 1])
  }

  function After(cfg: Config, moves: seq<Move>): (r: System)
    requires |cfg.localName| < 256
  {
    RunFrom(cfg, Begin(), moves)
  }

  lemma RunSnoc(cfg: Config, s: System, moves: seq<Move>, m: Move)
    requires |cfg.localName| < 256
    ensures RunFrom(cfg, s, moves + [m]) == Step(cfg, RunFrom(cfg, s, moves), m)
  {
    assert (moves + [m])[..|moves|] == moves;
  }

  // ---------------------------------------------------------------- the script

  /** The commands between launching the firmware and being set up, and the one after. */
  function BaseCommands(cfg: Config): (c: seq<seq<byte>>)
    requires |cfg.localName| < 256
    ensures |c| == 8
  {
    [Command(READ_BD_ADDR, []), Command(READ_FEATURES, []), Command(WRITE_CLASS, [0x0C, 0x02, 0x7A]),
     Command(WRITE_NAME, cfg.localName), Command(WRITE_PAIRING, [1]), Command(READ_PAIRING, []),
     Command(WRITE_SCAN, [3]), Command(EVENT_MASK, [0xFF, 0xFF, 0xFF, 0xFF, 0xFF, 0xFF, 0xFF, 0xFF])]
  }

  /** Everything the host sends from reset to set up, in order. */
  function Script(cfg: Config, records: seq<seq<byte>>): (c: seq<seq<byte>>)
    requires |cfg.localName| < 256
    ensures |c| == |records| + 10
  {
    [Command(RESET, []), Command(MINIDRIVER, [])] + records + BaseCommands(cfg)
  }

  function Min(a: nat, b: nat): (r: nat) { if a < b then a else b }

  /** The firmware records queued after so many completions. */
  function RecordsOut(done: nat, total: nat): (k: nat)
    ensures k <= total
  {
    if done == 0 then 0 else Min(done - 1, total)
  }

  /** The commands queued in a history. */
  function QueuedIn(trace: seq<Act>): (r: seq<seq<byte>>) { BooksOf(trace).commands.queued }

  lemma QueuedSnoc(trace: seq<Act>, a: Act)
    ensures QueuedIn(trace + [a]) == if a.CommandQueued? then QueuedIn(trace) + [a.bytes] else QueuedIn(trace)
  {
    BooksSnoc(trace, a);
  }

  /** The state after so many successful completions. */
  predicate Phase(cfg: Config, records: seq<seq<byte>>, h: Host, done: nat)
    requires |cfg.localName| < 256
  {
    var script, r := Script(cfg, records), |records|;
    && done <= |script| && !h.failed
    && QueuedIn(h.trace) == script[..Min(done + 1, |script|)]
    && (h.vendorSetup <==> done >= r + 2) && (h.baseSetup <==> done >= r + 9)
    && h.offset == |Flatten(records[..RecordsOut(done, r)])|
  }

  /** At most one command is outstanding, and it is the next of the script. */
  predicate Outstanding(cfg: Config, records: seq<seq<byte>>, s: System)
    requires |cfg.localName| < 256
  {
    var out := s.pending + s.host.commands;
    out == [] || (s.done < |Script(cfg, records)| && out == [Script(cfg, records)[s.done]])
  }

  predicate Inv(cfg: Config, records: seq<seq<byte>>, s: System)
    requires |cfg.localName| < 256
  {
    Phase(cfg, records, s.host, s.done) && Outstanding(cfg, records, s)
  }

  // ---------------------------------------------------------------- firmware records in the image

  lemma RecordAt(records: seq<seq<byte>>, i: nat)
    requires i < |records|
    ensures var image, at := Flatten(records), |Flatten(records[..i])|;
            && at + |records[i]| == |Flatten(records[..i + 1])| <= |image|
            && image[at..at + |records[i]|] == records[i]
  {
    var a, b := records[..i], records[i + 1..];
    assert records[..i + 1] == a + [records[i]] && records == a + [records[i]] + b;
    FlattenSnoc(a, records[i]);
    FlattenConcat(a + [records[i]], b);
    var image, at := Flatten(records), |Flatten(a)|;
    assert image == Flatten(a) + records[i] + Flatten(b);
  }

  lemma RecordShape(records: seq<seq<byte>>, i: nat)
    requires IsFirmware(records) && i < |records|
    ensures IsRecord(records[i], if i == |records| - 1 then LAUNCH_RAM else WRITE_RAM)
  {
  }

  lemma ScriptFirmware(cfg: Config, records: seq<seq<byte>>, k: nat)
    requires |cfg.localName| < 256 && k < |records|
    ensures Script(cfg, records)[k + 2] == records[k]
  {
  }

  lemma ScriptBase(cfg: Config, records: seq<seq<byte>>, k: nat)
    requires |cfg.localName| < 256 && k < 8
    ensures Script(cfg, records)[|records| + 2 + k] == BaseCommands(cfg)[k]
  {
  }

  /** Each base command's completion brings the next one. */
  lemma BaseChain(cfg: Config, k: nat)
    requires |cfg.localName| < 256 && k < 7
    ensures var opcode := OpcodeOf(BaseCommands(cfg)[k]);
            && opcode != RESET && AfterBase(cfg, opcode) == Some(BaseCommands(cfg)[k + 1])
            && (opcode == WRITE_SCAN <==> k == 6)
  {
  }

  // ---------------------------------------------------------------- one completion

  /** t has queued next and has these flags and this offset. */
  predicate Advanced(h: Host, t: Host, next: seq<seq<byte>>, vendor: bool, base: bool, offset: nat)
  {
    && !t.failed && t.commands == h.commands + next && t.vendorSetup == vendor && t.baseSetup == base
    && t.offset == offset
    && QueuedIn(t.trace) == QueuedIn(h.trace) + next
  }

  lemma Queued(h: Host, c: seq<byte>)
    requires !h.failed
    ensures Advanced(h, QueueCommand(h, c), [c], h.vendorSetup, h.baseSetup, h.offset)
  {
    QueuedSnoc(h.trace, CommandQueued(c));
  }

  /** The record at the offset is queued whole. */
  lemma VendorQueues(cfg: Config, h: Host, rec: seq<byte>, opcode: word)
    requires !h.failed && (opcode == MINIDRIVER || opcode == WRITE_RAM)
    requires |rec| >= 3 && |rec| == RecordLength(rec[2]) && h.offset + |rec| <= |cfg.image|
    requires cfg.image[h.offset..h.offset + |rec|] == rec
    ensures Advanced(h, Vendor(cfg, h, opcode), [rec], h.vendorSetup, h.baseSetup, h.offset + |rec|)
  {
    assert rec[2] == cfg.image[h.offset + 2];
    Queued(h.(offset := h.offset + |rec|), rec);
  }

  lemma RecordDone(cfg: Config, records: seq<seq<byte>>, h: Host, i: nat, opcode: word)
    requires |cfg.localName| < 256 && !h.failed && !h.vendorSetup && (opcode == MINIDRIVER || opcode == WRITE_RAM)
    requires cfg.image == Flatten(records) && IsFirmware(records) && i < |records|
             && h.offset == |Flatten(records[..i])|
    ensures Advanced(h, OnComplete(cfg, h, opcode, BD_ADDR_LENGTH), [records[i]], false, h.baseSetup,
            |Flatten(records[..i + 1])|)
  {
    RecordAt(records, i);
    RecordShape(records, i);
    VendorQueues(cfg, h, records[i], opcode);
  }

  lemma BaseDone(cfg: Config, h: Host, k: nat)
    requires |cfg.localName| < 256 && !h.failed && h.vendorSetup && !h.baseSetup && k < 7
    ensures Advanced(h, OnComplete(cfg, h, OpcodeOf(BaseCommands(cfg)[k]), BD_ADDR_LENGTH), [BaseCommands(cfg)[k + 1]],
                     true, k == 6, h.offset)
  {
    BaseChain(cfg, k);
    Queued(h, BaseCommands(cfg)[k + 1]);
  }

  /** What comes after command number done of the script. */
  function Next(cfg: Config, records: seq<seq<byte>>, done: nat): (r: seq<seq<byte>>)
    requires |cfg.localName| < 256
  {
    if done + 1 < |Script(cfg, records)| then [Script(cfg, records)[done + 1]] else []
  }

  lemma ScriptGrows(cfg: Config, records: seq<seq<byte>>, done: nat)
    requires |cfg.localName| < 256 && done < |Script(cfg, records)|
    ensures var script := Script(cfg, records);
            script[..Min(done + 1, |script|)] + Next(cfg, records, done) == script[..Min(done + 2, |script|)]
  {
  }

  /** The completion of command number done of the script takes the host to the next phase. */
  predicate Follows(cfg: Config, records: seq<seq<byte>>, h: Host, done: nat)
    requires |cfg.localName| < 256 && done < |Script(cfg, records)| && |Script(cfg, records)[done]| >= 2
  {
    var r := |records|;
    Advanced(h, OnComplete(cfg, h, OpcodeOf(Script(cfg, records)[done]), BD_ADDR_LENGTH), Next(cfg, records, done),
             done + 1 >= r + 2, done + 1 >= r + 9, |Flatten(records[..RecordsOut(done + 1, r)])|)
  }

  lemma ScriptSizes(cfg: Config, records: seq<seq<byte>>, done: nat)
    requires |cfg.localName| < 256 && IsFirmware(records) && done < |Script(cfg, records)|
    ensures |Script(cfg, records)[done]| >= 3
  {
  }

  predicate Loaded(cfg: Config, records: seq<seq<byte>>)
  {
    |cfg.localName| < 256 && IsFirmware(records) && cfg.image == Flatten(records)
  }

  lemma FollowsReset(cfg: Config, records: seq<seq<byte>>, h: Host)
    requires Loaded(cfg, records) && Phase(cfg, records, h, 0)
    ensures |Script(cfg, records)[0]| >= 2 && Follows(cfg, records, h, 0)
  {
  }

  lemma FollowsDriver(cfg: Config, records: seq<seq<byte>>, h: Host)
    requires Loaded(cfg, records) && Phase(cfg, records, h, 1)
    ensures |Script(cfg, records)[1]| >= 2 && Follows(cfg, records, h, 1)
  {
  }

  lemma FollowsRecord(cfg: Config, records: seq<seq<byte>>, h: Host, done: nat)
    requires Loaded(cfg, records) && Phase(cfg, records, h, done) && 2 <= done <= |records|
    ensures |Script(cfg, records)[done]| >= 2 && Follows(cfg, records, h, done)
  {
    var i := done - 2;
    ScriptFirmware(cfg, records, i);
    RecordShape(records, i);
    RecordDone(cfg, records, h, i + 1, WRITE_RAM);
    ScriptFirmware(cfg, records, i + 1);
  }

  lemma FollowsLaunch(cfg: Config, records: seq<seq<byte>>, h: Host)
    requires Loaded(cfg, records) && Phase(cfg, records, h, |records| + 1)
    ensures |Script(cfg, records)[|records| + 1]| >= 2 && Follows(cfg, records, h, |records| + 1)
  {
  }

  lemma FollowsBase(cfg: Config, records: seq<seq<byte>>, h: Host, k: nat)
    requires Loaded(cfg, records) && k < 7 && Phase(cfg, records, h, |records| + 2 + k)
    ensures |Script(cfg, records)[|records| + 2 + k]| >= 2 && Follows(cfg, records, h, |records| + 2 + k)
  {
    ScriptBase(cfg, records, k);
    ScriptBase(cfg, records, k + 1);
    BaseDone(cfg, h, k);
  }

  lemma FollowsMask(cfg: Config, records: seq<seq<byte>>, h: Host)
    requires Loaded(cfg, records) && Phase(cfg, records, h, |records| + 9)
    ensures |Script(cfg, records)[|records| + 9]| >= 2 && Follows(cfg, records, h, |records| + 9)
  {
  }

  lemma CompletionFollows(cfg: Config, records: seq<seq<byte>>, h: Host, done: nat)
    requires Loaded(cfg, records) && Phase(cfg, records, h, done) && done < |Script(cfg, records)|
    ensures |Script(cfg, records)[done]| >= 2 && Follows(cfg, records, h, done)
  {
    var r := |records|;
    if done == 0 {
      FollowsReset(cfg, records, h);
    } else if done == 1 {
      FollowsDriver(cfg, records, h);
    } else if done <= r {
      FollowsRecord(cfg, records, h, done);
    } else if done == r + 1 {
      FollowsLaunch(cfg, records, h);
    } else if done < r + 9 {
      FollowsBase(cfg, records, h, done - r - 2);
    } else {
      FollowsMask(cfg, records, h);
    }
  }

  // ---------------------------------------------------------------- every move

  lemma PhaseNext(cfg: Config, records: seq<seq<byte>>, h: Host, done: nat)
    requires Loaded(cfg, records) && Phase(cfg, records, h, done) && done < |Script(cfg, records)|
    requires |Script(cfg, records)[done]| >= 2
    ensures var t := OnComplete(cfg, h, OpcodeOf(Script(cfg, records)[done]), BD_ADDR_LENGTH);
            Phase(cfg, records, t, done + 1) && t.commands == h.commands + Next(cfg, records, done)
  {
    CompletionFollows(cfg, records, h, done);
    ScriptGrows(cfg, records, done);
  }

  /** Credits and what is taken off the queue play no part in the phase. */
  lemma SamePhase(cfg: Config, records: seq<seq<byte>>, h: Host, t: Host, a: Act, done: nat)
    requires |cfg.localName| < 256 && Phase(cfg, records, h, done) && !a.CommandQueued?
    requires t.trace == h.trace + [a] && !t.failed && t.offset == h.offset
    requires t.vendorSetup == h.vendorSetup && t.baseSetup == h.baseSetup
    ensures Phase(cfg, records, t, done)
  {
    QueuedSnoc(h.trace, a);
  }

  lemma OneOut<T>(a: seq<T>, b: seq<T>, x: T)
    requires a + b == [x]
    ensures b != [] ==> b == [x] && a == []
    ensures a != [] ==> a == [x] && b == []
  {
    assert (a + b)[0] == x;
  }

  lemma SendKeeps(cfg: Config, records: seq<seq<byte>>, s: System, accepted: bool)
    requires Loaded(cfg, records) && Inv(cfg, records, s)
    ensures Inv(cfg, records, Step(cfg, s, Send(accepted)))
  {
    if s.host.canCommand > 0 && s.host.commands != [] {
      var c := s.host.commands[0];
      SamePhase(cfg, records, s.host, TakeCommand(s.host, accepted), CommandTaken(c, accepted), s.done);
      OneOut(s.pending, s.host.commands, Script(cfg, records)[s.done]);
    }
  }

  lemma StatusKeeps(cfg: Config, records: seq<seq<byte>>, s: System, n: byte)
    requires Loaded(cfg, records) && Inv(cfg, records, s)
    ensures Inv(cfg, records, Step(cfg, s, Status(n)))
  {
    SamePhase(cfg, records, s.host, Process(cfg, s.host, CommandStatus(n)), Granted(n), s.done);
  }

  /** The command completed is the next of the script, and the queue behind it is empty. */
  lemma CompletesNext(cfg: Config, records: seq<seq<byte>>, s: System, n: byte)
    requires Loaded(cfg, records) && Inv(cfg, records, s) && s.pending != []
    ensures s.done < |Script(cfg, records)| && s.pending == [Script(cfg, records)[s.done]] && s.host.commands == []
    ensures |s.pending[0]| >= 2 && s.pending[1..] == []
    ensures Phase(cfg, records, Note(s.host.(canCommand := n), Granted(n)), s.done)
  {
    OneOut(s.pending, s.host.commands, Script(cfg, records)[s.done]);
    ScriptSizes(cfg, records, s.done);
    SamePhase(cfg, records, s.host, Note(s.host.(canCommand := n), Granted(n)), Granted(n), s.done);
  }

  /** A completion with success brings the next command. */
  lemma SuccessKeeps(cfg: Config, records: seq<seq<byte>>, s: System, n: byte)
    requires Loaded(cfg, records) && Inv(cfg, records, s) && s.pending != []
    ensures var t := Step(cfg, s, Complete(n, 0));
            Inv(cfg, records, t) && t.pending == [] && t.done == s.done + 1
                && t.host.commands == Next(cfg, records, s.done)
  {
    CompletesNext(cfg, records, s, n);
    var g := Note(s.host.(canCommand := n), Granted(n));
    PhaseNext(cfg, records, g, s.done);
    assert g.commands + Next(cfg, records, s.done) == Next(cfg, records, s.done);
  }

  /** One with an error leaves nothing outstanding. */
  lemma ErrorKeeps(cfg: Config, records: seq<seq<byte>>, s: System, n: byte, status: byte)
    requires Loaded(cfg, records) && Inv(cfg, records, s) && s.pending != [] && status != 0
    ensures var t := Step(cfg, s, Complete(n, status));
            Inv(cfg, records, t) && t.pending == [] && t.host.commands == [] && t.done == s.done
  {
    CompletesNext(cfg, records, s, n);
  }

  lemma CompletionKeeps(cfg: Config, records: seq<seq<byte>>, s: System, n: byte, status: byte)
    requires Loaded(cfg, records) && Inv(cfg, records, s) && s.pending != []
    ensures Inv(cfg, records, Step(cfg, s, Complete(n, status)))
  {
    if status == 0 {
      SuccessKeeps(cfg, records, s, n);
    } else {
      ErrorKeeps(cfg, records, s, n, status);
    }
  }

  lemma BeginInv(cfg: Config, records: seq<seq<byte>>)
    requires Loaded(cfg, records)
    ensures Inv(cfg, records, Begin()) && Begin().host.commands == [Script(cfg, records)[0]] && Begin().done == 0
  {
  }

  /** Every run keeps the invariant. */
  lemma {:induction false} RunKeeps(cfg: Config, records: seq<seq<byte>>, moves: seq<Move>)
    requires Loaded(cfg, records)
    ensures Inv(cfg, records, After(cfg, moves))
    decreases |moves|
  {
    if moves == [] {
      BeginInv(cfg, records);
    } else {
      var n := |moves| - 1;
      RunKeeps(cfg, records, moves[..n]);
      var s := After(cfg, moves[..n]);
      match moves[n] {
        case Send(accepted) => SendKeeps(cfg, records, s, accepted);
        case Complete(k, status) => if s.pending != [] { CompletionKeeps(cfg, records, s, k, status); }
        case Status(k) => StatusKeeps(cfg, records, s, k);
      }
    }
  }

  // ---------------------------------------------------------------- on the wire

  /** Commands as the transport gets them. */
  function Commands(c: seq<seq<byte>>): (wire: seq<seq<byte>>)
    ensures |wire| == |c|
  {
    seq(|c|, i requires 0 <= i < |c| => [PREFIX_COMMAND] + c[i])
  }

  /** What was handed over is the script so far: the commands completed, and one more if it waits for that or failed. */
  predicate Wired(cfg: Config, records: seq<seq<byte>>, s: System)
    requires |cfg.localName| < 256
  {
    var script, sent := Script(cfg, records), |s.host.wire|;
    && s.done <= sent <= s.done + 1 && sent <= |script| && s.host.wire == Commands(script[..sent])
    && (s.pending != [] ==> sent == s.done + 1) && (s.host.commands != [] ==> sent == s.done)
  }

  lemma ProcessSendsNone(cfg: Config, h: Host, e: HciEvent)
    requires |cfg.localName| < 256
    ensures Process(cfg, h, e).wire == h.wire
  {
  }

  lemma CommandsSnoc(c: seq<seq<byte>>, n: nat)
    requires n < |c|
    ensures Commands(c[..n + 1]) == Commands(c[..n]) + [[PREFIX_COMMAND] + c[n]]
  {
  }

  lemma SendWired(cfg: Config, records: seq<seq<byte>>, s: System, accepted: bool)
    requires Loaded(cfg, records) && Inv(cfg, records, s) && Wired(cfg, records, s)
    ensures Wired(cfg, records, Step(cfg, s, Send(accepted)))
  {
    if s.host.canCommand > 0 && s.host.commands != [] {
      OneOut(s.pending, s.host.commands, Script(cfg, records)[s.done]);
      CommandsSnoc(Script(cfg, records), s.done);
    }
  }

  lemma CompletionWired(cfg: Config, records: seq<seq<byte>>, s: System, n: byte, status: byte)
    requires Loaded(cfg, records) && Inv(cfg, records, s) && Wired(cfg, records, s) && s.pending != []
    ensures Wired(cfg, records, Step(cfg, s, Complete(n, status)))
  {
    CompletesNext(cfg, records, s, n);
    var e := CommandComplete(n, OpcodeOf(s.pending[0]), status, BD_ADDR_LENGTH);
    ProcessSendsNone(cfg, s.host, e);
    if status == 0 {
      SuccessKeeps(cfg, records, s, n);
    } else {
      ErrorKeeps(cfg, records, s, n, status);
    }
  }

  lemma {:induction false} RunWired(cfg: Config, records: seq<seq<byte>>, moves: seq<Move>)
    requires Loaded(cfg, records)
    ensures Wired(cfg, records, After(cfg, moves))
    decreases |moves|
  {
    if moves != [] {
      var n := |moves| - 1;
      var s := After(cfg, moves[..n]);
      RunWired(cfg, records, moves[..n]);
      RunKeeps(cfg, records, moves[..n]);
      match moves[n] {
        case Send(accepted) => SendWired(cfg, records, s, accepted);
        case Complete(k, status) => if s.pending != [] { CompletionWired(cfg, records, s, k, status); }
        case Status(k) => ProcessSendsNone(cfg, s.host, CommandStatus(k));
      }
    }
  }

  // ---------------------------------------------------------------- what it means

  /**
    In every run no assertion fails, at most one command is outstanding, the commands queued are the script
    up to the next one, those handed to the transport are the script up to at most one beyond what was
    completed, and the firmware offset is the length of the records queued.
  */
  lemma FollowsTheScript(cfg: Config, records: seq<seq<byte>>, moves: seq<Move>)
    requires Loaded(cfg, records)
    ensures var s := After(cfg, moves);
            var script := Script(cfg, records);
            && !s.host.failed && |s.pending| + |s.host.commands| <= 1 && s.done <= |script|
            && QueuedIn(s.host.trace) == script[..Min(s.done + 1, |script|)]
            && Wired(cfg, records, s)
            && s.host.offset <= |cfg.image|
            && cfg.image[..s.host.offset] == Flatten(records[..RecordsOut(s.done, |records|)])
  {
    RunKeeps(cfg, records, moves);
    RunWired(cfg, records, moves);
    var k := RecordsOut(After(cfg, moves).done, |records|);
    assert records == records[..k] + records[k..];
    FlattenConcat(records[..k], records[k..]);
  }

  /**
    The vendor flag is set exactly after the records and two commands more have completed, the base flag
    exactly seven completions later; either way the whole image has been queued by then.
  */
  lemma SetUpExactly(cfg: Config, records: seq<seq<byte>>, moves: seq<Move>)
    requires Loaded(cfg, records)
    ensures var s := After(cfg, moves);
            && (s.host.vendorSetup <==> s.done >= |records| + 2)
            && (s.host.baseSetup <==> s.done >= |records| + 9)
            && (s.host.vendorSetup || s.host.baseSetup ==> s.host.offset == |cfg.image|)
  {
    RunKeeps(cfg, records, moves);
    assert records[..|records|] == records;
  }

  /** The transport takes the command, or the controller completes it with success. */
  predicate Smooth(m: Move) { (m.Send? ==> m.accepted) && (m.Complete? ==> m.status == 0) }

  /** One command is outstanding, until the script is done. */
  predicate Busy(cfg: Config, records: seq<seq<byte>>, s: System)
    requires |cfg.localName| < 256
  {
    |s.pending| + |s.host.commands| == if s.done < |Script(cfg, records)| then 1 else 0
  }

  lemma SmoothStep(cfg: Config, records: seq<seq<byte>>, s: System, m: Move)
    requires Loaded(cfg, records) && Inv(cfg, records, s) && Busy(cfg, records, s) && Smooth(m)
    ensures Busy(cfg, records, Step(cfg, s, m))
  {
    if m.Complete? && s.pending != [] {
      CompletesNext(cfg, records, s, m.n);
      SuccessKeeps(cfg, records, s, m.n);
    }
  }

  /** In every run without an error or a refused send, exactly one command is outstanding until the script is done. */
  lemma {:induction false} NeverIdle(cfg: Config, records: seq<seq<byte>>, moves: seq<Move>)
    requires Loaded(cfg, records) && forall m | m in moves :: Smooth(m)
    ensures Busy(cfg, records, After(cfg, moves))
    decreases |moves|
  {
    if moves == [] {
      BeginInv(cfg, records);
    } else {
      var n := |moves| - 1;
      assert moves[n] in moves && forall m | m in moves[..n] :: m in moves;
      NeverIdle(cfg, records, moves[..n]);
      RunKeeps(cfg, records, moves[..n]);
      SmoothStep(cfg, records, After(cfg, moves[..n]), moves[n]);
    }
  }

  predicate Halted(s: System) { s.pending == [] && s.host.commands == [] }

  lemma StaysHalted(cfg: Config, s: System, m: Move)
    requires |cfg.localName| < 256 && Halted(s)
    ensures var t := Step(cfg, s, m);
            && Halted(t) && t.done == s.done
            && QueuedIn(t.host.trace) == QueuedIn(s.host.trace)
  {
  }

  lemma {:induction false} HaltedForGood(cfg: Config, s: System, more: seq<Move>)
    requires |cfg.localName| < 256 && Halted(s)
    ensures var t := RunFrom(cfg, s, more);
            && Halted(t) && t.done == s.done
            && QueuedIn(t.host.trace) == QueuedIn(s.host.trace)
    decreases |more|
  {
    if more != [] {
      var k := |more| - 1;
      HaltedForGood(cfg, s, more[..k]);
      StaysHalted(cfg, RunFrom(cfg, s, more[..k]), more[k]);
    }
  }

  /** After a completion with an error nothing is outstanding, and whatever follows, nothing more is ever queued. */
  lemma ErrorHalts(cfg: Config, records: seq<seq<byte>>, s: System, n: byte, status: byte, more: seq<Move>)
    requires Loaded(cfg, records) && Inv(cfg, records, s) && s.pending != [] && status != 0
    ensures var t := RunFrom(cfg, Step(cfg, s, Complete(n, status)), more);
            && Halted(t) && t.done == s.done
            && QueuedIn(t.host.trace) == Script(cfg, records)[..s.done + 1]
  {
    ErrorKeeps(cfg, records, s, n, status);
    HaltedForGood(cfg, Step(cfg, s, Complete(n, status)), more);
  }

  /** From where the next command is queued, three moves complete it: a status with credit, a send, a completion. */
  lemma ThreeMoves(cfg: Config, records: seq<seq<byte>>, s: System)
    requires Loaded(cfg, records) && Inv(cfg, records, s)
    requires s.done < |Script(cfg, records)| && s.pending == [] && s.host.commands == [Script(cfg, records)[s.done]]
    ensures var t := Step(cfg, Step(cfg, Step(cfg, s, Status(1)), Send(true)), Complete(1, 0));
            && Inv(cfg, records, t) && t.done == s.done + 1
            && t.pending == [] && t.host.commands == Next(cfg, records, s.done)
  {
    StatusKeeps(cfg, records, s, 1);
    var s1 := Step(cfg, s, Status(1));
    SendKeeps(cfg, records, s1, true);
    var s2 := Step(cfg, s1, Send(true));
    assert s2.pending == [] + [Script(cfg, records)[s.done]];
    SuccessKeeps(cfg, records, s2, 1);
  }

  function Rounds(k: nat): (r: seq<Move>)
  {
    if k == 0 then [] else Rounds(k - 1) + [Status(1), Send(true), Complete(1, 0)]
  }

  lemma AfterThree(cfg: Config, moves: seq<Move>)
    requires |cfg.localName| < 256
    ensures After(cfg, moves + [Status(1), Send(true), Complete(1, 0)])
         == Step(cfg, Step(cfg, Step(cfg, After(cfg, moves), Status(1)), Send(true)), Complete(1, 0))
  {
    RunSnoc(cfg, Begin(), moves, Status(1));
    RunSnoc(cfg, Begin(), moves + [Status(1)], Send(true));
    RunSnoc(cfg, Begin(), moves + [Status(1)] + [Send(true)], Complete(1, 0));
    assert moves + [Status(1)] + [Send(true)] + [Complete(1, 0)] == moves + [Status(1), Send(true), Complete(1, 0)];
  }

  /** A controller that completes each command with success brings the host through the whole script. */
  lemma {:induction false} SetUpReached(cfg: Config, records: seq<seq<byte>>, k: nat)
    requires Loaded(cfg, records) && k <= |Script(cfg, records)|
    ensures var s := After(cfg, Rounds(k));
            && s.done == k && Inv(cfg, records, s) && s.pending == []
            && s.host.commands == (if k == 0 then [Script(cfg, records)[0]] else Next(cfg, records, k - 1))
  {
    if k == 0 {
      BeginInv(cfg, records);
    } else {
      SetUpReached(cfg, records, k - 1);
      var moves := Rounds(k - 1);
      ThreeMoves(cfg, records, After(cfg, moves));
      AfterThree(cfg, moves);
    }
  }

  // ---------------------------------------------------------------- a second reset

  /** The host after a reset completes, and after the driver download it asks for then completes. */
  function ResetAgain(cfg: Config, h: Host, n: byte): (t: Host)
    requires |cfg.localName| < 256
  {
    Process(cfg, h, CommandComplete(n, RESET, 0, BD_ADDR_LENGTH))
  }

  function DownloadAgain(cfg: Config, h: Host, n: byte): (t: Host)
    requires |cfg.localName| < 256
  {
    Process(cfg, h, CommandComplete(n, MINIDRIVER, 0, BD_ADDR_LENGTH))
  }

  /**
    The offset is never set back. Whenever a reset completes once more, the driver download is asked for
    again, and its completion fails an assertion if and only if the whole image has been queued by then;
    before that, the download goes on with the next record instead of the first.
  */
  lemma SecondReset(cfg: Config, records: seq<seq<byte>>, moves: seq<Move>, n: byte, m: byte)
    requires Loaded(cfg, records)
    ensures var s := After(cfg, moves);
            var k := RecordsOut(s.done, |records|);
            var t := ResetAgain(cfg, s.host, n);
            var u := DownloadAgain(cfg, t, m);
            && t.commands == s.host.commands + [Command(MINIDRIVER, [])] && !t.failed
            && (u.failed <==> k == |records|)
            && (k < |records| ==> u.commands == t.commands + [records[k]])
  {
    RunKeeps(cfg, records, moves);
    var s := After(cfg, moves);
    var k := RecordsOut(s.done, |records|);
    var t := ResetAgain(cfg, s.host, n);
    if k < |records| {
      RecordAt(records, k);
      RecordShape(records, k);
      VendorQueues(cfg, Note(t.(canCommand := m), Granted(m)), records[k], MINIDRIVER);
    } else {
      assert records[..k] == records;
    }
  }

  /** So once everything is set up, it always fails. */
  lemma SecondResetFails(cfg: Config, records: seq<seq<byte>>, moves: seq<Move>, n: byte, m: byte)
    requires Loaded(cfg, records) && After(cfg, moves).host.baseSetup
    ensures DownloadAgain(cfg, ResetAgain(cfg, After(cfg, moves).host, n), m).failed
  {
    SetUpExactly(cfg, records, moves);
    SecondReset(cfg, records, moves, n, m);
  }

  /** The completion of a driver download or RAM write is answered exactly when a whole record is left in the image. */
  lemma RecordLeftIff(cfg: Config, h: Host, opcode: word)
    requires |cfg.localName| < 256 && !h.failed && !h.vendorSetup && (opcode == MINIDRIVER || opcode == WRITE_RAM)
    ensures !OnComplete(cfg, h, opcode, BD_ADDR_LENGTH).failed
       <==> h.offset + 3 <= |cfg.image| && h.offset + RecordLength(cfg.image[h.offset + 2]) <= |cfg.image|
  {
  }
}
