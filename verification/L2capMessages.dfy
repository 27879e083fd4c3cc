/**
  L2CAP connections in terms of messages, over whole runs: what the history says came was received, what
  it says went out was sent, our config request goes out once, an open connection was configured both
  ways, and how often a client is told that its connection is open.
*/
module L2capMessages {
  import opened Bytes
  import opened L2cap
  import opened L2capHistory
  import opened L2capPackets
  import opened L2capRuns
  import opened L2capSafety

  // ---------------------------------------------------------------- the history is what was sent and received

  lemma AfterSnoc(clients: set<word>, calls: seq<Event>)
    requires calls != []
    ensures After(clients, calls) == Step(After(clients, calls[..|calls| - 1]), calls[|calls| - 1])
  {
  }

  /** The messages sent are those of the history, in this order and no others. */
  lemma {:induction false} SentIsHistory(clients: set<word>, calls: seq<Event>)
    ensures After(clients, calls).sent == SentOf(After(clients, calls).trace)
    decreases |calls|
  {
    if calls != [] {
      var n := |calls| - 1;
      var s, f := After(clients, calls[..n]), Fact(ToldOpen, 0, 0);
      SentIsHistory(clients, calls[..n]);
      AfterSnoc(clients, calls);
      var acts, told := StepAdds(s, calls[n], f);
      HistoryConcat(s.trace, acts, f);
    }
  }

  /** Call j brings a command from a device. */
  predicate Received(clients: set<word>, calls: seq<Event>, j: nat, device: nat, c: Command)
    requires j < |calls|
  {
    From(Brought(After(clients, calls[..j]), calls[j]), device, c)
  }

  /** Act a was added by call j: what it says came, came with that call, and the message it says went out is right. */
  predicate ByCall(clients: set<word>, calls: seq<Event>, j: nat, a: Act)
    requires j < |calls|
  {
    var p := Brought(After(clients, calls[..j]), calls[j]);
    Came(a, p) && Fits(a, p)
  }

  /** The history before call j, and after it. */
  predicate Within(clients: set<word>, calls: seq<Event>, j: nat, k: nat)
    requires j < |calls|
  {
    |After(clients, calls[..j]).trace| <= k < |After(clients, calls[..j + 1]).trace|
  }

  lemma EarlierCall(clients: set<word>, calls: seq<Event>, n: nat, j: nat, a: Act, k: nat)
    requires j < n <= |calls| && ByCall(clients, calls[..n], j, a) && Within(clients, calls[..n], j, k)
    ensures ByCall(clients, calls, j, a) && Within(clients, calls, j, k)
  {
    assert calls[..n][..j] == calls[..j] && calls[..n][..j + 1] == calls[..j + 1] && calls[..n][j] == calls[j];
  }

  /** What one call adds. */
  lemma FromCall(s: Layer, e: Event, k: nat)
    requires k < |Step(s, e).trace|
    ensures var a, p := Step(s, e).trace[k], Brought(s, e);
            if k < |s.trace| then s.trace[k] == a else Came(a, p) && Fits(a, p)
  {
    var acts, told := StepAdds(s, e, Fact(ToldOpen, 0, 0));
    if k >= |s.trace| {
      assert acts[k - |s.trace|] in acts;
    }
  }

  /**
    Every act in the history of a run was added by one of its calls. What the act says came, came in the packet
    of that call; and a message that it says went out asks for the connection it is sent for, on the device's
    own handle, or answers the packet of the call as it should.
  */
  lemma {:induction false} ActFromCall(clients: set<word>, calls: seq<Event>, k: nat) returns (j: nat)
    requires k < |After(clients, calls).trace|
    ensures j < |calls| && Within(clients, calls, j, k) && ByCall(clients, calls, j, After(clients, calls).trace[k])
    decreases |calls|
  {
    if calls == [] {
      assert false;
    } else {
      var n := |calls| - 1;
      var s, a := After(clients, calls[..n]), After(clients, calls).trace[k];
      AfterSnoc(clients, calls);
      FromCall(s, calls[n], k);
      if k < |s.trace| {
        j := ActFromCall(clients, calls[..n], k);
        EarlierCall(clients, calls, n, j, a, k);
      } else {
        j := n;
        assert calls[..n + 1] == calls;
      }
    }
  }

  /** What the history says came from a device, came from it. */
  lemma GotFromCalls(clients: set<word>, calls: seq<Event>, k: nat) returns (j: nat)
    requires k < |After(clients, calls).trace| && After(clients, calls).trace[k].what.Got?
    ensures var a := After(clients, calls).trace[k];
            j < |calls| && Received(clients, calls, j, a.device, a.what.command)
  {
    j := ActFromCall(clients, calls, k);
  }

  /**
    Every message of a run. Requests carry the PSM and the CIDs of the connection they are sent for; responses
    answer a packet received in the same call: a connection request, with the local CID given to the peer's; a
    config request; or a disconnection request, with its two CIDs.
  */
  lemma MessagesAreRight(clients: set<word>, calls: seq<Event>, k: nat) returns (j: nat)
    requires k < |After(clients, calls).trace| && After(clients, calls).trace[k].what.Sent?
    ensures j < |calls|
    ensures var a := After(clients, calls).trace[k];
            var m, p := a.what.message, Brought(After(clients, calls[..j]), calls[j]);
            && m in After(clients, calls).sent
            && (match m.command
                case ConnectReq(psm, scid) => psm == a.psm && scid == a.lcid && OwnHandle(m, a.device, p)
                case ConfigReq(dcid, flags) => dcid == a.rcid && flags == 0 && OwnHandle(m, a.device, p)
                case DisconnectReq(dcid, scid) => dcid == a.rcid && scid == a.lcid && OwnHandle(m, a.device, p)
                case ConnectRsp(dcid, scid, result, status) =>
                  && dcid == a.lcid && scid == a.rcid && result == 0 && status == 0
                  && Answers(m, p) && p.input.command == ConnectReq(a.psm, scid)
                case ConfigRsp(dcid, flags, result) =>
                  && dcid == a.rcid && flags == 0 && result == 0
                  && Answers(m, p) && p.input.command.ConfigReq? && p.input.command.dcid == a.lcid
                case DisconnectRsp(dcid, scid) =>
                  dcid == a.lcid && Answers(m, p) && p.input.command == DisconnectReq(dcid, scid))
  {
    j := ActFromCall(clients, calls, k);
    SentIsHistory(clients, calls);
    SentAt(After(clients, calls).trace, k);
  }

  lemma {:induction false} SentAt(trace: seq<Act>, k: nat)
    requires k < |trace| && trace[k].what.Sent?
    ensures trace[k].what.message in SentOf(trace)
    decreases |trace|
  {
    if k < |trace| - 1 {
      SentAt(trace[..|trace| - 1], k);
    }
  }

  // ---------------------------------------------------------------- our config request

  /** The config requests sent for a connection. */
  function ConfigReqsOf(trace: seq<Act>, d: nat, lcid: word): (requests: seq<Sending>)
    decreases |trace|
  {
    if trace == [] then []
    else
      var a := trace[|trace| - 1];
      ConfigReqsOf(trace[..|trace| - 1], d, lcid)
      + if FactOf(a) == Fact(Did(ReqSent), d, lcid) then [a.what.message] else []
  }

  lemma {:induction false} AtMostOne(trace: seq<Act>, d: nat, lcid: word)
    requires AllDue(trace)
    ensures |ConfigReqsOf(trace, d, lcid)| == Count(Fact(Did(ReqSent), d, lcid) in Facts(trace))
    decreases |trace|
  {
    if trace != [] {
      AtMostOne(trace[..|trace| - 1], d, lcid);
    }
  }

  /**
    At most one config request is sent for a connection, to the remote CID it has then; and every message
    that is sent is in the history of a connection.
  */
  lemma OneConfigRequest(clients: set<word>, calls: seq<Event>, d: nat, lcid: word)
    requires CidsLeft(After(clients, calls))
    ensures var s := After(clients, calls);
            && s.sent == SentOf(s.trace)
            && |ConfigReqsOf(s.trace, d, lcid)| <= 1
            && (forall a | a in s.trace && KindOf(a.what) == Did(ReqSent) ::
                  a.rcid != 0 && a.what.message.command == ConfigReq(a.rcid, 0))
  {
    RunKeeps(clients, calls);
    SentIsHistory(clients, calls);
    var trace := After(clients, calls).trace;
    AtMostOne(trace, d, lcid);
    forall a | a in trace && KindOf(a.what) == Did(ReqSent)
      ensures a.rcid != 0 && a.what.message.command == ConfigReq(a.rcid, 0)
    {
      var k :| 0 <= k < |trace| && trace[k] == a;
      DueAt(trace, k);
    }
  }

  // ---------------------------------------------------------------- an open connection was configured

  /** A step that was taken before an act of a connection. */
  lemma StepBefore(trace: seq<Act>, k: nat, b: Bit) returns (j: nat)
    requires AllDue(trace) && k < |trace| && b in Config(Facts(trace[..k]), trace[k].device, trace[k].lcid)
    ensures j < k && FactOf(trace[j]) == Fact(Did(b), trace[k].device, trace[k].lcid)
            && Due(Facts(trace[..j]), trace[j])
  {
    j := FactWitness(trace[..k], Fact(Did(b), trace[k].device, trace[k].lcid));
    DueAt(trace, j);
  }

  /** A config request or response for a connection came in some call. */
  predicate WasReceived(clients: set<word>, calls: seq<Event>, device: nat, c: Command)
  {
    exists j | 0 <= j < |calls| :: Received(clients, calls, j, device, c)
  }

  /** A command went out. */
  predicate WasSent(sent: seq<Sending>, c: Command)
  {
    exists m | m in sent :: m.command == c
  }

  lemma StepReceived(clients: set<word>, calls: seq<Event>, k: nat, b: Bit, c: Command)
    requires CidsLeft(After(clients, calls)) && AllDue(After(clients, calls).trace)
    requires k < |After(clients, calls).trace|
    requires var a := After(clients, calls).trace[k];
             && b in Config(Facts(After(clients, calls).trace[..k]), a.device, a.lcid)
             && ((b == ReqReceived && c == ConfigReq(a.lcid, 0)) || (b == RspReceived && c == ConfigRsp(a.lcid, 0, 0)))
    ensures WasReceived(clients, calls, After(clients, calls).trace[k].device, c)
  {
    var trace := After(clients, calls).trace;
    var j := StepBefore(trace, k, b);
    assert trace[j].what == Got(c);
    var call := GotFromCalls(clients, calls, j);
  }

  lemma StepSent(clients: set<word>, calls: seq<Event>, k: nat, b: Bit) returns (j: nat)
    requires AllDue(After(clients, calls).trace) && k < |After(clients, calls).trace| && b in {ReqSent, RspSent}
    requires var t := After(clients, calls).trace; b in Config(Facts(t[..k]), t[k].device, t[k].lcid)
    ensures var t := After(clients, calls).trace;
            && j < k && FactOf(t[j]) == Fact(Did(b), t[k].device, t[k].lcid)
            && WasSent(After(clients, calls).sent,
                       if b == ReqSent then ConfigReq(t[j].rcid, 0) else ConfigRsp(t[j].rcid, 0, 0))
            && (b == ReqSent ==> t[j].rcid != 0)
  {
    var trace := After(clients, calls).trace;
    j := StepBefore(trace, k, b);
    SentIsHistory(clients, calls);
    SentAt(trace, j);
  }

  /**
    Before a client is told that its connection is open, a config request and a config response for it came
    from its device, and a config response and a config request went out to the remote CID it had then; both
    its CIDs are known.
  */
  lemma OpenWasConfigured(clients: set<word>, calls: seq<Event>, k: nat) returns (rsp: nat, req: nat)
    requires CidsLeft(After(clients, calls))
    requires k < |After(clients, calls).trace| && After(clients, calls).trace[k].what == Told(Connected)
    ensures var s := After(clients, calls);
            var a := s.trace[k];
            && a.lcid != 0 && a.rcid != 0
            && WasReceived(clients, calls, a.device, ConfigReq(a.lcid, 0))
            && WasReceived(clients, calls, a.device, ConfigRsp(a.lcid, 0, 0))
            && rsp < k && WasSent(s.sent, ConfigRsp(s.trace[rsp].rcid, 0, 0))
            && FactOf(s.trace[rsp]) == Fact(Did(RspSent), a.device, a.lcid)
            && req < k && WasSent(s.sent, ConfigReq(s.trace[req].rcid, 0)) && s.trace[req].rcid != 0
            && FactOf(s.trace[req]) == Fact(Did(ReqSent), a.device, a.lcid)
  {
    RunKeeps(clients, calls);
    var trace := After(clients, calls).trace;
    var a := trace[k];
    DueAt(trace, k);
    assert forall b | b in FOUR :: b in Config(Facts(trace[..k]), a.device, a.lcid);
    StepReceived(clients, calls, k, ReqReceived, ConfigReq(a.lcid, 0));
    StepReceived(clients, calls, k, RspReceived, ConfigRsp(a.lcid, 0, 0));
    rsp := StepSent(clients, calls, k, RspSent);
    req := StepSent(clients, calls, k, ReqSent);
    NotZero(trace, k);
  }

  lemma NotZero(trace: seq<Act>, k: nat)
    requires AllDue(trace) && k < |trace|
    ensures trace[k].lcid != 0
  {
    DueAt(trace, k);
    if KindOf(trace[k].what) != BroughtUp {
      var j := FactWitness(trace[..k], Fact(BroughtUp, trace[k].device, trace[k].lcid));
      DueAt(trace, j);
    }
  }

  // ---------------------------------------------------------------- how often a client is told

  /**
    The client of f's connection, already told that it is open, is told again by a call exactly when the call
    makes the layer check the connection; a connection response does so when it repeats the remote CID.
  */
  lemma TellsAgain(s: Layer, e: Event, f: Fact)
    requires Inv(s) && f.kind == ToldOpen && f in Facts(s.trace)
    ensures Times(Step(s, e).trace, f) == Times(s.trace, f) + Count(Rechecks(s, e, f))
    ensures Rechecks(s, e, f) && e.input.command.ConnectRsp? ==> e.input.command.dcid == s.conns[SlotOf(s, e)].rcid
  {
    var acts, told := StepAdds(s, e, f);
    HistoryConcat(s.trace, acts, f);
    var i := SlotOf(s, e);
    if i < |s.conns| && IsKey(s.conns[i], f) {
      FoundLive(s, e.input.handle, Named(e.input.command));
      assert Settled(s.conns[i], Facts(s.trace), s.clients);
      assert Ready(s, i);
    }
  }

  /** A call checks f's connection when its client has already been told. */
  predicate ChecksAgain(s: Layer, e: Event, f: Fact) { f in Facts(s.trace) && Rechecks(s, e, f) }

  /** For each call of a run, whether it checks f's connection again. */
  function Again(clients: set<word>, calls: seq<Event>, f: Fact): (marks: seq<bool>)
    ensures |marks| == |calls|
    decreases |calls|
  {
    if calls == [] then []
    else
      var n := |calls| - 1;
      Again(clients, calls[..n], f) + [ChecksAgain(After(clients, calls[..n]), calls[n], f)]
  }

  function Trues(marks: seq<bool>): (n: nat)
    decreases |marks|
  {
    if marks == [] then 0 else Trues(marks[..|marks| - 1]) + Count(marks[|marks| - 1])
  }

  lemma TruesSnoc(marks: seq<bool>, mark: bool)
    ensures Trues(marks + [mark]) == Trues(marks) + Count(mark)
  {
    assert (marks + [mark])[..|marks|] == marks;
  }

  lemma {:induction false} NoTrues(marks: seq<bool>)
    ensures Trues(marks) == 0 <==> true !in marks
    decreases |marks|
  {
    if marks != [] {
      NoTrues(marks[..|marks| - 1]);
      assert marks == marks[..|marks| - 1] + [marks[|marks| - 1]];
    }
  }

  lemma CidsWereLeft(clients: set<word>, calls: seq<Event>)
    requires calls != [] && CidsLeft(After(clients, calls))
    ensures CidsLeft(After(clients, calls[..|calls| - 1]))
  {
    StepGrows(After(clients, calls[..|calls| - 1]), calls[|calls| - 1]);
  }

  /** A client is told once, and once more for each call that checks its open connection again. */
  lemma {:induction false} TimesToldExactly(clients: set<word>, calls: seq<Event>, f: Fact)
    requires CidsLeft(After(clients, calls)) && f.kind == ToldOpen
    ensures var trace := After(clients, calls).trace;
            Times(trace, f) == Count(f in Facts(trace)) + Trues(Again(clients, calls, f))
    decreases |calls|
  {
    if calls != [] {
      var n := |calls| - 1;
      var s := After(clients, calls[..n]);
      CidsWereLeft(clients, calls);
      TimesToldExactly(clients, calls[..n], f);
      RunKeeps(clients, calls[..n]);
      AfterSnoc(clients, calls);
      OneCallMore(s, calls[n], f);
      TruesSnoc(Again(clients, calls[..n], f), ChecksAgain(s, calls[n], f));
    }
  }

  lemma OneCallMore(s: Layer, e: Event, f: Fact)
    requires Inv(s) && f.kind == ToldOpen
    ensures var t := Step(s, e);
            Times(t.trace, f) - Times(s.trace, f)
            == Count(f in Facts(t.trace)) - Count(f in Facts(s.trace)) + Count(ChecksAgain(s, e, f))
  {
    FactsAreTimes(s.trace, f);
    FactsAreTimes(Step(s, e).trace, f);
    if f in Facts(s.trace) {
      TellsAgain(s, e, f);
    } else {
      var acts, told := StepAdds(s, e, f);
      HistoryConcat(s.trace, acts, f);
    }
  }

  /** So a client is told exactly once if and only if no later call checks its connection again. */
  lemma ToldOnceIff(clients: set<word>, calls: seq<Event>, f: Fact)
    requires CidsLeft(After(clients, calls)) && f.kind == ToldOpen && f in Facts(After(clients, calls).trace)
    ensures Times(After(clients, calls).trace, f) == 1 <==> true !in Again(clients, calls, f)
  {
    TimesToldExactly(clients, calls, f);
    NoTrues(Again(clients, calls, f));
  }
}
