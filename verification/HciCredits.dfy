/**
  Credits and queues of the HCI host over every run: data packets sent and data credits left add up to
  one plus what the controller completed, commands never exceed the credit last granted, and what leaves
  a queue is what entered it, in order.
*/
module HciCredits {
  import opened Bytes
  import opened Hci

  /** Everything that touches the host: its own two loops, the layers above, and events from below. */
  datatype Call =
    | OnEvent(event: HciEvent)
    | SendCommand(bytes: seq<byte>)
    | SendData(bytes: seq<byte>)
    | CommandLoop(accept: nat)
    | DataLoop(accept: nat)

  function Apply(cfg: Config, h: Host, c: Call): (r: Host)
    requires |cfg.localName| < 256
  {
    match c
    case OnEvent(e) => Process(cfg, h, e)
    case SendCommand(b) => QueueCommand(h, b)
    case SendData(b) => QueueData(h, b)
    case CommandLoop(accept) => DrainCommands(h, accept)
    case DataLoop(accept) => DrainData(h, accept)
  }

  function After(cfg: Config, calls: seq<Call>): (r: Host)
    requires |cfg.localName| < 256
    decreases |calls|
  {
    if calls == [] then INITIAL else Apply(cfg, After(cfg, calls[..|calls| - 1]), calls[|calls| - 1])
  }

  // ---------------------------------------------------------------- the books of a trace

  /** What entered a queue, what left it, and what of that the transport took. */
  datatype Log = Log(queued: seq<seq<byte>>, taken: seq<seq<byte>>, sent: seq<seq<byte>>)

  /**
    Both queues, what was handed to the transport, the credit last granted for commands and the commands
    sent since, the packets reported as completed, and the data credit with whether it was ever overdrawn.
  */
  datatype Books = Books(
    commands: Log, packets: Log, wire: seq<seq<byte>>,
    granted: nat, used: nat, completed: nat, credit: int, overdrawn: bool)

  const NO_LOG := Log([], [], [])

  function In(l: Log, b: seq<byte>): (r: Log) { l.(queued := l.queued + [b]) }

  function Out(l: Log, b: seq<byte>, sent: bool): (r: Log)
  {
    if sent then l.(taken := l.taken + [b], sent := l.sent + [b]) else l.(taken := l.taken + [b])
  }

  function Enter(k: Books, a: Act): (r: Books)
  {
    match a
    case CommandQueued(b) => k.(commands := In(k.commands, b))
    case DataQueued(b) => k.(packets := In(k.packets, b))
    case CommandTaken(b, false) => k.(commands := Out(k.commands, b, false))
    case CommandTaken(b, true) =>
      k.(commands := Out(k.commands, b, true), used := k.used + 1, wire := k.wire + [[PREFIX_COMMAND] + b])
    case DataTaken(b, false) => k.(packets := Out(k.packets, b, false))
    case DataTaken(b, true) => SpendOn(k, b)
    case Granted(n) => k.(granted := n, used := 0)
    case Completed(n) => k.(completed := k.completed + n, credit := Wrapped(k.credit + n))
  }

  function Wrapped(credit: int): (r: int) { credit % 0x1_0000 }

  function SpendOn(k: Books, b: seq<byte>): (r: Books)
  {
    k.(packets := Out(k.packets, b, true), wire := k.wire + [[PREFIX_DATA] + b],
       credit := k.credit - 1, overdrawn := k.overdrawn || k.credit <= 0)
  }

  function BooksOf(trace: seq<Act>): (r: Books)
    decreases |trace|
  {
    if trace == [] then Books(NO_LOG, NO_LOG, [], 1, 0, 0, 1, false)
    else Enter(BooksOf(trace[..|trace| - 1]), trace[|trace| - 1])
  }

  lemma BooksSnoc(trace: seq<Act>, a: Act)
    ensures BooksOf(trace + [a]) == Enter(BooksOf(trace), a)
  {
    assert (trace + [a])[..|trace|] == trace;
  }

  // ---------------------------------------------------------------- the invariant

  predicate Agree(h: Host, k: Books)
  {
    && k.commands.queued == k.commands.taken + h.commands
    && k.packets.queued == k.packets.taken + h.data
    && h.canCommand + k.used == k.granted
    && h.canData == k.credit && !k.overdrawn
    && h.wire == k.wire
  }

  predicate Inv(h: Host) { Agree(h, BooksOf(h.trace)) }

  lemma QueueCommandKeeps(h: Host, c: seq<byte>)
    requires Inv(h)
    ensures Inv(QueueCommand(h, c))
  {
    BooksSnoc(h.trace, CommandQueued(c));
  }

  lemma QueueDataKeeps(h: Host, d: seq<byte>)
    requires Inv(h)
    ensures Inv(QueueData(h, d))
  {
    BooksSnoc(h.trace, DataQueued(d));
  }

  lemma TakeCommandAgrees(h: Host, k: Books, sent: bool)
    requires Agree(h, k) && h.canCommand > 0 && h.commands != []
    ensures Agree(TakeCommand(h, sent), Enter(k, CommandTaken(h.commands[0], sent)))
  {
    assert h.commands == [h.commands[0]] + h.commands[1..];
  }

  lemma TakeCommandKeeps(h: Host, sent: bool)
    requires Inv(h) && h.canCommand > 0 && h.commands != []
    ensures Inv(TakeCommand(h, sent))
  {
    BooksSnoc(h.trace, CommandTaken(h.commands[0], sent));
    TakeCommandAgrees(h, BooksOf(h.trace), sent);
  }

  lemma TakeDataAgrees(h: Host, k: Books, sent: bool)
    requires Agree(h, k) && h.canData > 0 && h.data != []
    ensures Agree(TakeData(h, sent), Enter(k, DataTaken(h.data[0], sent)))
  {
    assert h.data == [h.data[0]] + h.data[1..];
  }

  lemma TakeDataKeeps(h: Host, sent: bool)
    requires Inv(h) && h.canData > 0 && h.data != []
    ensures Inv(TakeData(h, sent))
  {
    BooksSnoc(h.trace, DataTaken(h.data[0], sent));
    TakeDataAgrees(h, BooksOf(h.trace), sent);
  }

  lemma {:induction false} DrainCommandsKeeps(h: Host, accept: nat)
    requires Inv(h)
    ensures Inv(DrainCommands(h, accept))
    decreases accept
  {
    if h.canCommand > 0 && h.commands != [] {
      TakeCommandKeeps(h, accept > 0);
      if accept > 0 {
        DrainCommandsKeeps(TakeCommand(h, true), accept - 1);
      }
    }
  }

  lemma {:induction false} DrainDataKeeps(h: Host, accept: nat)
    requires Inv(h)
    ensures Inv(DrainData(h, accept))
    decreases accept
  {
    if h.canData > 0 && h.data != [] {
      TakeDataKeeps(h, accept > 0);
      if accept > 0 {
        DrainDataKeeps(TakeData(h, true), accept - 1);
      }
    }
  }

  lemma GrantKeeps(h: Host, n: byte)
    requires Inv(h)
    ensures Inv(Note(h.(canCommand := n), Granted(n)))
  {
    BooksSnoc(h.trace, Granted(n));
  }

  lemma CompletedKeeps(h: Host, packets: nat)
    requires Inv(h)
    ensures Inv(Note(h.(canData := AddWrap(h.canData, packets)), Completed(packets)))
  {
    BooksSnoc(h.trace, Completed(packets));
  }

  /** Flags and the firmware offset have no part in the accounts. */
  lemma Unaccounted(h: Host, t: Host)
    requires Inv(h) && t.trace == h.trace && t.commands == h.commands && t.data == h.data
    requires t.canCommand == h.canCommand && t.canData == h.canData && t.wire == h.wire
    ensures Inv(t)
  {
  }

  lemma QueueRecordKeeps(image: seq<byte>, h: Host)
    requires Inv(h)
    ensures Inv(QueueRecord(image, h))
  {
  }

  lemma VendorKeeps(cfg: Config, h: Host, opcode: word)
    requires Inv(h)
    ensures Inv(Vendor(cfg, h, opcode))
  {
    QueueRecordKeeps(cfg.image, h);
    Unaccounted(h, Launched(h));
    QueueCommandKeeps(Launched(h), Command(READ_BD_ADDR, []));
  }

  lemma QueueNextKeeps(h: Host, c: Option<seq<byte>>, last: bool)
    requires Inv(h)
    ensures Inv(QueueNext(h, c, last))
  {
    match c {
      case None =>
      case Some(b) =>
        QueueCommandKeeps(h, b);
        var t := QueueCommand(h, b);
        Unaccounted(t, t.(baseSetup := true));
    }
  }

  lemma BaseKeeps(cfg: Config, h: Host, opcode: word, length: nat)
    requires Inv(h) && |cfg.localName| < 256
    ensures Inv(Base(cfg, h, opcode, length))
  {
    Unaccounted(h, h.(failed := true));
    QueueNextKeeps(h, AfterBase(cfg, opcode), opcode == WRITE_SCAN);
  }

  lemma OnCompleteKeeps(cfg: Config, h: Host, opcode: word, length: nat)
    requires Inv(h) && |cfg.localName| < 256
    ensures Inv(OnComplete(cfg, h, opcode, length))
  {
    if opcode == RESET {
      QueueCommandKeeps(h, Command(MINIDRIVER, []));
    } else if !h.vendorSetup {
      VendorKeeps(cfg, h, opcode);
    } else if !h.baseSetup {
      BaseKeeps(cfg, h, opcode, length);
    }
  }

  lemma ApplyKeeps(cfg: Config, h: Host, c: Call)
    requires Inv(h) && |cfg.localName| < 256
    ensures Inv(Apply(cfg, h, c))
  {
    match c {
      case OnEvent(e) =>
        if !h.failed {
          match e {
            case CommandStatus(n) => GrantKeeps(h, n);
            case CommandComplete(n, opcode, status, length) =>
              GrantKeeps(h, n);
              if status == 0 {
                OnCompleteKeeps(cfg, Note(h.(canCommand := n), Granted(n)), opcode, length);
              }
            case CompletedPackets(counts) => CompletedKeeps(h, Sum(counts));
            case OtherEvent =>
            case BadEvent => Unaccounted(h, h.(failed := true));
          }
        }
      case SendCommand(b) => QueueCommandKeeps(h, b);
      case SendData(b) => QueueDataKeeps(h, b);
      case CommandLoop(accept) => DrainCommandsKeeps(h, accept);
      case DataLoop(accept) => DrainDataKeeps(h, accept);
    }
  }

  lemma {:induction false} RunKeeps(cfg: Config, calls: seq<Call>)
    requires |cfg.localName| < 256
    ensures Inv(After(cfg, calls))
    decreases |calls|
  {
    if calls != [] {
      var n := |calls| - 1;
      RunKeeps(cfg, calls[..n]);
      ApplyKeeps(cfg, After(cfg, calls[..n]), calls[n]);
    }
  }

  // ---------------------------------------------------------------- what it means

  /** Data credits and packets sent against packets completed, in a history that never overdrew. */
  predicate Balanced(k: Books)
  {
    Wrapped(k.credit + |k.packets.sent|) == Wrapped(1 + k.completed)
  }

  lemma WrapAdd(credit: int, n: nat, sent: nat, completed: nat)
    requires Wrapped(credit + sent) == Wrapped(1 + completed)
    ensures Wrapped(Wrapped(credit + n) + sent) == Wrapped(1 + (completed + n))
  {
  }

  lemma {:induction false} AlwaysBalanced(trace: seq<Act>)
    ensures Balanced(BooksOf(trace))
    decreases |trace|
  {
    if trace != [] {
      var n := |trace| - 1;
      AlwaysBalanced(trace[..n]);
      BalancedNext(BooksOf(trace[..n]), trace[n]);
    }
  }

  lemma BalancedNext(k: Books, a: Act)
    requires Balanced(k)
    ensures Balanced(Enter(k, a))
  {
    if a.Completed? {
      WrapAdd(k.credit, a.packets, |k.packets.sent|, k.completed);
    }
  }

  /** While fewer than 65535 packets were completed, the counter has not wrapped. */
  predicate Exact(k: Books)
  {
    k.completed < 0xFFFF && !k.overdrawn ==> 0 <= k.credit == 1 + k.completed - |k.packets.sent|
  }

  lemma {:induction false} AlwaysExact(trace: seq<Act>)
    ensures Exact(BooksOf(trace))
    decreases |trace|
  {
    if trace != [] {
      var n := |trace| - 1;
      AlwaysExact(trace[..n]);
      ExactNext(BooksOf(trace[..n]), trace[n]);
    }
  }

  lemma ExactNext(k: Books, a: Act)
    requires Exact(k)
    ensures Exact(Enter(k, a))
  {
  }

  /**
    In every run, data credits plus data packets handed over are one plus the packets completed, modulo
    the 16-bit counter, and exactly so while fewer than 65535 were completed.
  */
  lemma DataCredits(cfg: Config, calls: seq<Call>)
    requires |cfg.localName| < 256
    ensures var h := After(cfg, calls);
            var k := BooksOf(h.trace);
            && (h.canData + |k.packets.sent|) % 0x1_0000 == (1 + k.completed) % 0x1_0000
            && (k.completed < 0xFFFF ==> h.canData + |k.packets.sent| == 1 + k.completed)
  {
    RunKeeps(cfg, calls);
    AlwaysBalanced(After(cfg, calls).trace);
    AlwaysExact(After(cfg, calls).trace);
  }

  /**
    In every run, the commands sent since the last status or complete event are within the credit it
    granted, and the counter is the rest of that credit.
  */
  lemma CommandCredits(cfg: Config, calls: seq<Call>)
    requires |cfg.localName| < 256
    ensures var h := After(cfg, calls);
            var k := BooksOf(h.trace);
            k.used <= k.granted && h.canCommand == k.granted - k.used
  {
    RunKeeps(cfg, calls);
  }

  /**
    What left each queue is a prefix of what entered it and what is left is the rest; what is on the wire
    is what left, commands and data in the order they did, without those the transport refused.
  */
  lemma QueuesInOrder(cfg: Config, calls: seq<Call>)
    requires |cfg.localName| < 256
    ensures var h := After(cfg, calls);
            var k := BooksOf(h.trace);
            && k.commands.queued == k.commands.taken + h.commands
            && k.packets.queued == k.packets.taken + h.data
            && h.wire == k.wire
  {
    RunKeeps(cfg, calls);
  }

  /** Unless the transport refuses one, all that left the queues was handed to it. */
  lemma {:induction false} SentUnlessRefused(trace: seq<Act>)
    requires forall a | a in trace :: (a.CommandTaken? || a.DataTaken?) ==> a.sent
    ensures var k := BooksOf(trace); k.commands.sent == k.commands.taken && k.packets.sent == k.packets.taken
    decreases |trace|
  {
    if trace != [] {
      var n := |trace| - 1;
      assert forall a | a in trace[..n] :: a in trace;
      assert trace[n] in trace;
      SentUnlessRefused(trace[..n]);
    }
  }

  // ---------------------------------------------------------------- the data on the wire

  /** What of the wire is for the peer: the bytes behind the data prefix. */
  function DataOf(wire: seq<seq<byte>>): (data: seq<seq<byte>>)
    decreases |wire|
  {
    if wire == [] then []
    else
      var last := wire[|wire| - 1];
      DataOf(wire[..|wire| - 1]) + if last != [] && last[0] == PREFIX_DATA then [last] else []
  }

  function Prefixed(packets: seq<seq<byte>>): (items: seq<seq<byte>>)
  {
    seq(|packets|, i requires 0 <= i < |packets| => [PREFIX_DATA] + packets[i])
  }

  lemma DataSnoc(wire: seq<seq<byte>>, w: seq<byte>)
    ensures DataOf(wire + [w]) == DataOf(wire) + if w != [] && w[0] == PREFIX_DATA then [w] else []
  {
    assert (wire + [w])[..|wire|] == wire;
  }

  lemma PrefixedSnoc(packets: seq<seq<byte>>, p: seq<byte>)
    ensures Prefixed(packets + [p]) == Prefixed(packets) + [[PREFIX_DATA] + p]
  {
  }

  lemma EnterData(k: Books, a: Act)
    requires DataOf(k.wire) == Prefixed(k.packets.sent)
    ensures DataOf(Enter(k, a).wire) == Prefixed(Enter(k, a).packets.sent)
  {
    match a {
      case CommandTaken(b, true) =>
        DataSnoc(k.wire, [PREFIX_COMMAND] + b);
        assert DataOf(k.wire) + [] == DataOf(k.wire);
      case DataTaken(b, true) =>
        DataSnoc(k.wire, [PREFIX_DATA] + b);
        PrefixedSnoc(k.packets.sent, b);
      case _ =>
    }
  }

  /** The data packets of the wire are those sent from the data queue, behind their prefix. */
  lemma {:induction false} DataOnWire(trace: seq<Act>)
    ensures DataOf(BooksOf(trace).wire) == Prefixed(BooksOf(trace).packets.sent)
    decreases |trace|
  {
    if trace != [] {
      DataOnWire(trace[..|trace| - 1]);
      EnterData(BooksOf(trace[..|trace| - 1]), trace[|trace| - 1]);
    }
  }
}
