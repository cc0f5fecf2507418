/** The per-target connectivity state machine of the internet connection
    monitor.  Each probing loop keeps the last observed state of its target
    (nothing yet, up or down); every probe either succeeds or fails, and from
    the old state and the outcome the loop decides whether to log a message
    and what the new state is.  The ping loop and the TCP loop share this one
    transition table and differ only in the wording of their messages. */
module ConnectionState {

  /** `last_state`: `None` before the first probe, then `'up'` or `'down'`. */
  datatype State = Unknown | Up | Down

  /** What one probe reports: it returned normally, or it raised the
      exception that the loop catches. */
  datatype Outcome = Success | Failure

  /** The three kinds of message a loop logs: connection restored (or
      established), connection lost (or failed), connection still down. */
  datatype Event = Restored | Lost | StillDown

  datatype Option<T> = None | Some(value: T)

  /** The effect of one probe: the new state and the message logged, if any. */
  datatype Transition = Transition(next: State, event: Option<Event>)

  /** One pass of a probing loop's body.  A success logs "restored" unless the
      target was already known to be up; a failure always logs, "lost" unless
      the target was already known to be down, and "still down" otherwise.
      The new state is whatever the probe just reported. */
  function Step(last: State, outcome: Outcome): (t: Transition)
    ensures t.next != Unknown
    ensures t.next == Up <==> outcome == Success
    ensures t.event == Some(Restored) <==> outcome == Success && last != Up
    ensures t.event == Some(Lost) <==> outcome == Failure && last != Down
    ensures t.event == Some(StillDown) <==> outcome == Failure && last == Down
    ensures t.event == None <==> outcome == Success && last == Up
  {
    match outcome
    case Success =>
      Transition(Up, if last == Down || last == Unknown then Some(Restored) else None)
    case Failure =>
      Transition(Down, Some(if last == Up || last == Unknown then Lost else StillDown))
  }

  /** The messages logged by one transition, as a sequence of at most one. */
  function Emitted(e: Option<Event>): seq<Event>
  {
    match e
    case None => []
    case Some(x) => [x]
  }

  /** The state of a loop after a run of probes, and every message it logged. */
  datatype Fold = Fold(last: State, events: seq<Event>)

  /** The loop run over a finite sequence of probe outcomes, starting from
      `start`: each outcome is fed to `Step` in order and the messages are
      appended to the log.  At most one message per probe; once a probe has
      been made the state is never `Unknown` again, and it reflects the most
      recent probe alone. */
  function Replay(start: State, outcomes: seq<Outcome>): (r: Fold)
    ensures |r.events| <= |outcomes|
    ensures outcomes == [] ==> r == Fold(start, [])
    ensures outcomes != [] ==> r.last == (if outcomes[|outcomes| - 1] == Success then Up else Down)
    decreases |outcomes|
  {
    if outcomes == [] then Fold(start, [])
    else
      var before := Replay(start, outcomes[..|outcomes| - 1]);
      var t := Step(before.last, outcomes[|outcomes| - 1]);
      Fold(t.next, before.events + Emitted(t.event))
  }

  /** The messages a freshly started loop logs for the given outcomes. */
  function Events(outcomes: seq<Outcome>): seq<Event>
  {
    Replay(Unknown, outcomes).events
  }

  /** Which message may directly follow which in a loop's log: a "lost" only
      after a "restored"; a "restored" or a "still down" never right after
      a "restored". */
  predicate MayFollow(prev: Event, next: Event)
  {
    match next
    case Lost => prev == Restored
    case Restored => prev != Restored
    case StillDown => prev != Restored
  }

  /** The shape of every log a loop can produce: it never opens with "still
      down", and each message may follow its predecessor. */
  predicate WellFormedLog(events: seq<Event>)
  {
    (events != [] ==> events[0] != StillDown) &&
    forall i :: 0 < i < |events| ==> MayFollow(events[i - 1], events[i])
  }

  /** Number of failed probes. */
  function Failures(outcomes: seq<Outcome>): (n: nat)
    ensures n <= |outcomes|
    decreases |outcomes|
  {
    if outcomes == [] then 0
    else Failures(outcomes[..|outcomes| - 1]) + (if outcomes[|outcomes| - 1] == Failure then 1 else 0)
  }

  /** Number of "lost" and "still down" messages in a log. */
  function LossReports(events: seq<Event>): (n: nat)
    ensures n <= |events|
    decreases |events|
  {
    if events == [] then 0
    else LossReports(events[..|events| - 1]) + (if events[|events| - 1] == Restored then 0 else 1)
  }

  /** The "restored" and "lost" messages of a log, in order, with the
      "still down" messages dropped. */
  function Edges(events: seq<Event>): (r: seq<Event>)
    ensures |r| <= |events|
    decreases |events|
  {
    if events == [] then []
    else
      var e := events[|events| - 1];
      Edges(events[..|events| - 1]) + (if e == StillDown then [] else [e])
  }

  /** Every log a freshly started loop produces is well formed; after at least
      one probe the log is not empty, and the loop believes the target is up
      exactly when the last message it logged was "restored". */
  lemma {:induction false} EventsWellFormed(outcomes: seq<Outcome>)
    ensures WellFormedLog(Events(outcomes))
    ensures outcomes != [] ==> Events(outcomes) != []
    ensures outcomes != [] ==>
      (Replay(Unknown, outcomes).last == Up <==> Events(outcomes)[|Events(outcomes)| - 1] == Restored)
    decreases |outcomes|
  {
    if outcomes != [] {
      var prefix := outcomes[..|outcomes| - 1];
      EventsWellFormed(prefix);
      var before := Replay(Unknown, prefix);
      var t := Step(before.last, outcomes[|outcomes| - 1]);
      var evs := before.events + Emitted(t.event);
      assert Events(outcomes) == evs;
      if prefix == [] {
        assert before.last == Unknown;
      } else {
        assert evs[..|before.events|] == before.events;
      }
    }
  }

  /** The probe outcomes that replay a given log: a success for each
      "restored", a failure for each "lost" or "still down". */
  function ProbesFor(events: seq<Event>): (outcomes: seq<Outcome>)
    ensures |outcomes| == |events|
  {
    seq(|events|, i requires 0 <= i < |events| => if events[i] == Restored then Success else Failure)
  }

  /** Conversely, every well-formed log is produced by some run of a loop,
      so `WellFormedLog` describes exactly the logs a loop can write. */
  lemma {:induction false} EveryWellFormedLogOccurs(events: seq<Event>)
    requires WellFormedLog(events)
    ensures Events(ProbesFor(events)) == events
    ensures events != [] ==>
      Replay(Unknown, ProbesFor(events)).last == (if events[|events| - 1] == Restored then Up else Down)
    decreases |events|
  {
    if events != [] {
      var n := |events|;
      var prefix := events[..n - 1];
      assert WellFormedLog(prefix) by {
        forall i | 0 < i < |prefix| ensures MayFollow(prefix[i - 1], prefix[i]) {
          assert MayFollow(events[i - 1], events[i]);
        }
      }
      EveryWellFormedLogOccurs(prefix);
      var probes := ProbesFor(events);
      assert probes[..n - 1] == ProbesFor(prefix);
      var before := Replay(Unknown, ProbesFor(prefix));
      if n > 1 {
        assert MayFollow(events[n - 2], events[n - 1]);
      }
      assert Step(before.last, probes[n - 1]).event == Some(events[n - 1]);
      assert events == prefix + [events[n - 1]];
    }
  }

  /** In any run of a loop, "restored" and "lost" messages strictly
      alternate; a "still down" message is never the first and only ever
      follows a "lost" or another "still down". */
  lemma {:induction false} RestoredAndLostAlternate(outcomes: seq<Outcome>)
    ensures forall i :: 0 < i < |Edges(Events(outcomes))| ==>
      Edges(Events(outcomes))[i] != Edges(Events(outcomes))[i - 1]
    ensures forall i :: 0 <= i < |Events(outcomes)| && Events(outcomes)[i] == StillDown ==>
      i > 0 && Events(outcomes)[i - 1] in {Lost, StillDown}
  {
    EventsWellFormed(outcomes);
    var events := Events(outcomes);
    EdgesAlternate(events);
    forall i | 0 <= i < |events| && events[i] == StillDown
      ensures i > 0 && events[i - 1] in {Lost, StillDown}
    {
      if i > 0 {
        assert MayFollow(events[i - 1], events[i]);
      }
    }
  }

  /** In a well-formed log the "restored"/"lost" messages alternate, and the
      last of them is "restored" exactly when the log ends in "restored". */
  lemma {:induction false} EdgesAlternate(events: seq<Event>)
    requires WellFormedLog(events)
    ensures forall i :: 0 < i < |Edges(events)| ==> Edges(events)[i] != Edges(events)[i - 1]
    ensures events != [] ==>
      Edges(events) != [] &&
      Edges(events)[|Edges(events)| - 1] == (if events[|events| - 1] == Restored then Restored else Lost)
    decreases |events|
  {
    if events != [] {
      var n := |events|;
      var prefix := events[..n - 1];
      assert WellFormedLog(prefix) by {
        forall i | 0 < i < |prefix| ensures MayFollow(prefix[i - 1], prefix[i]) {
          assert MayFollow(events[i - 1], events[i]);
        }
      }
      EdgesAlternate(prefix);
      if n > 1 {
        assert MayFollow(events[n - 2], events[n - 1]);
      }
    }
  }

  /** Every failed probe logs exactly one message, "lost" or "still down",
      and no success does; so a run logs one message per failure plus one
      per "restored". */
  lemma {:induction false} OneReportPerFailure(outcomes: seq<Outcome>)
    ensures LossReports(Events(outcomes)) == Failures(outcomes)
    decreases |outcomes|
  {
    if outcomes != [] {
      var prefix := outcomes[..|outcomes| - 1];
      OneReportPerFailure(prefix);
      var last := outcomes[|outcomes| - 1];
      var before := Replay(Unknown, prefix);
      var t := Step(before.last, last);
      assert Events(outcomes) == before.events + Emitted(t.event);
      assert Failures(outcomes) == Failures(prefix) + (if last == Failure then 1 else 0);
      match t.event
      case None =>
        assert before.events + Emitted(t.event) == before.events;
      case Some(e) =>
        var evs := before.events + [e];
        assert evs[..|evs| - 1] == before.events;
        assert LossReports(evs) == LossReports(before.events) + (if e == Restored then 0 else 1);
    }
  }
}
