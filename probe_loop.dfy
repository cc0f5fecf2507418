/** The two probing loops of the monitor, `ping_server` and `tcp_check`.
    Each runs forever, probing one target, feeding the outcome through the
    shared transition table and logging the message it calls for.  Here the
    probe is replaced by the next element of a finite sequence of outcomes,
    and the log by the sequence of message texts the loop writes. */
module ProbeLoop {
  import opened ConnectionState

  /** Which loop: ping to an address, or a TCP connection to a host. */
  datatype Strategy = Ping | Tcp

  /** The text of a message.  The ping loop mentions the address it pings,
      the TCP loop the host name of its (host, port) pair; both put the
      target at the end of the text. */
  function Message(strategy: Strategy, target: string, e: Event): (m: string)
    ensures strategy == Ping ==> |m| > |target| && m[|m| - |target| - 1..] == target + ")"
    ensures strategy == Tcp ==> |m| >= |target| && m[|m| - |target|..] == target
  {
    match (strategy, e)
    case (Ping, Restored) => "Connection restored (via ping to " + target + ")"
    case (Ping, Lost) => "Connection lost (via ping to " + target + ")"
    case (Ping, StillDown) => "Connection still down (via ping to " + target + ")"
    case (Tcp, Restored) => "TCP connection established with " + target
    case (Tcp, Lost) => "Failed to establish TCP connection with " + target
    case (Tcp, StillDown) => "TCP connection still down with " + target
  }

  /** A logged text tells which kind of message it is and which target it
      is about: within one loop, two equal texts come from the same event
      and the same target. */
  lemma MessageIdentifies(strategy: Strategy, t1: string, e1: Event, t2: string, e2: Event)
    requires Message(strategy, t1, e1) == Message(strategy, t2, e2)
    ensures e1 == e2 && t1 == t2
  {
    var m := Message(strategy, t1, e1);
    if strategy == Ping {
      assert m[11] == Message(strategy, t2, e2)[11];
    } else {
      assert m[0] == Message(strategy, t2, e2)[0];
      assert m[15] == Message(strategy, t2, e2)[15];
    }
    assert |t1| == |t2|;
    if strategy == Ping {
      assert t1 == (t1 + ")")[..|t1|] == m[|m| - |t1| - 1..][..|t1|] == (t2 + ")")[..|t2|] == t2;
    }
  }

  /** All loops write to one shared logger, and a line also tells which
      loop wrote it: no ping message equals any TCP message. */
  lemma MessageNamesLoop(t1: string, e1: Event, t2: string, e2: Event)
    ensures Message(Ping, t1, e1) != Message(Tcp, t2, e2)
  {
    assert Message(Ping, t1, e1)[0] != Message(Tcp, t2, e2)[0];
  }

  /** The loop body run once per outcome, with `lastState` a local of the
      loop as in the source: it starts unknown, the message of each probe is
      appended to the log, and the state is set to what the probe reported.
      The events logged are those of the transition table, in order, and
      they form a well-formed log; each line of text is the message of the
      corresponding event. */
  method Monitor(strategy: Strategy, target: string, outcomes: seq<Outcome>)
    returns (lastState: State, events: seq<Event>, lines: seq<string>)
    ensures Fold(lastState, events) == Replay(Unknown, outcomes)
    ensures WellFormedLog(events)
    ensures |lines| == |events|
    ensures forall i :: 0 <= i < |lines| ==> lines[i] == Message(strategy, target, events[i])
  {
    lastState := Unknown;
    events, lines := [], [];
    var i := 0;
    while i < |outcomes|
      invariant 0 <= i <= |outcomes|
      invariant Fold(lastState, events) == Replay(Unknown, outcomes[..i])
      invariant |lines| == |events|
      invariant forall k :: 0 <= k < |lines| ==> lines[k] == Message(strategy, target, events[k])
    {
      assert outcomes[..i + 1][..i] == outcomes[..i];
      match outcomes[i] {
        case Success =>
          if lastState == Down || lastState == Unknown {
            events, lines := events + [Restored], lines + [Message(strategy, target, Restored)];
          }
          lastState := Up;
        case Failure =>
          if lastState == Up || lastState == Unknown {
            events, lines := events + [Lost], lines + [Message(strategy, target, Lost)];
          } else {
            events, lines := events + [StillDown], lines + [Message(strategy, target, StillDown)];
          }
          lastState := Down;
      }
      i := i + 1;
    }
    assert outcomes[..i] == outcomes;
    EventsWellFormed(outcomes);
  }

  /** `ping_server(address)`: the lines logged for a run of ping outcomes. */
  method PingServer(address: string, outcomes: seq<Outcome>) returns (lines: seq<string>)
    ensures |lines| == |Events(outcomes)|
    ensures forall i :: 0 <= i < |lines| ==> lines[i] == Message(Ping, address, Events(outcomes)[i])
  {
    var _, _, log := Monitor(Ping, address, outcomes);
    lines := log;
  }

  /** `tcp_check((host, port))`: the lines logged for a run of connection
      attempts; the port is used only by the probe, never in a message. */
  method TcpCheck(host: string, port: int, outcomes: seq<Outcome>) returns (lines: seq<string>)
    ensures |lines| == |Events(outcomes)|
    ensures forall i :: 0 <= i < |lines| ==> lines[i] == Message(Tcp, host, Events(outcomes)[i])
  {
    var _, _, log := Monitor(Tcp, host, outcomes);
    lines := log;
  }
}
