/** `Worker::run_loop` as a fold of `Step` over an already serialised sequence
    of loop iterations, each stamped with the wall-clock time at which it ran,
    and the invariants that hold along it. */
module RunLoop {

  import opened Optional
  import opened Librespot
  import opened Events
  import opened SpotifyWorker

  /** One loop iteration and the time, in milliseconds, at which it ran. */
  datatype Stamped = Stamped(atMs: int, input: Input)

  /** What a run has done so far: the worker's `active`, every event sent and
      call made in order, how many times the refresh tick called `trigger()`,
      whether the loop is still going, and how many iterations it has taken. */
  datatype Trace = Trace(
    active: bool,
    sent: seq<Event>,
    calls: seq<Call>,
    refreshTriggers: nat,
    running: bool,
    consumed: nat)

  /** The trace before any iteration, for a worker whose `active` is `init`. */
  function Start(init: bool): Trace
  {
    Trace(init, [], [], 0, true, 0)
  }

  /** Appends one iteration's reaction to a trace. */
  function Extend(t: Trace, r: Reaction): Trace
  {
    Trace(r.active, t.sent + r.sent, t.calls + r.calls,
          t.refreshTriggers + (if r.refreshTriggered then 1 else 0), r.continues, t.consumed + 1)
  }

  /** The loop run over `ins` from a worker whose `active` is `init`. Once an
      iteration breaks the loop, later inputs are never looked at. */
  function Run(init: bool, ins: seq<Stamped>, parse: UriParser): (t: Trace)
    ensures t.consumed <= |ins|
    ensures t.running ==> t.consumed == |ins|
    ensures |t.sent| <= t.consumed && t.refreshTriggers <= t.consumed
    decreases |ins|
  {
    if |ins| == 0 then Start(init)
    else
      var t := Run(init, ins[..|ins| - 1], parse);
      if !t.running then t
      else Extend(t, Step(t.active, ins[|ins| - 1].input, ins[|ins| - 1].atMs, parse))
  }

  // ---------------------------------------------------------------------------
  // Reference definitions, stated without Step

  /** `active` as the last reported playback status in `ins` says, or `init`
      when no player event has reported one. */
  function ActiveAfter(init: bool, ins: seq<Stamped>): bool
    decreases |ins|
  {
    if |ins| == 0 then init
    else
      match ReportedStatus(ins[|ins| - 1].input)
      case Some(b) => b
      case None => ActiveAfter(init, ins[..|ins| - 1])
  }

  /** The positions of the refresh ticks in `ins` that arrive while the last
      reported status is "playing". */
  function TriggerTicks(init: bool, ins: seq<Stamped>): set<nat>
  {
    set i: nat | i < |ins| && ins[i].input == Ready(UiRefresh) && ActiveAfter(init, ins[..i])
  }

  // ---------------------------------------------------------------------------
  // Properties of the run

  /** The worker's `active` at any point is the last playback status a player
      event reported (and `init` before any did). */
  lemma {:induction false} RunActiveIsLastReported(init: bool, ins: seq<Stamped>, parse: UriParser)
    ensures var t := Run(init, ins, parse);
            t.active == ActiveAfter(init, ins[..t.consumed])
    decreases |ins|
  {
    if |ins| > 0 {
      var front := ins[..|ins| - 1];
      RunActiveIsLastReported(init, front, parse);
      var t := Run(init, front, parse);
      assert front[..t.consumed] == ins[..t.consumed];
      if t.running {
        assert ins[..|ins|] == ins;
        assert ins[..t.consumed] == front;
      }
    }
  }

  /** Splitting off the last input: it adds its own position to the tick set
      exactly when it is a tick arriving while active. */
  lemma TriggerTicksSnoc(init: bool, ins: seq<Stamped>, x: Stamped)
    ensures TriggerTicks(init, ins + [x])
            == TriggerTicks(init, ins)
               + (if x.input == Ready(UiRefresh) && ActiveAfter(init, ins) then {|ins|} else {})
    ensures |ins| !in TriggerTicks(init, ins)
  {
    var all := ins + [x];
    forall i: nat | i < |ins|
      ensures all[..i] == ins[..i] && all[i] == ins[i]
    {
    }
    assert all[..|ins|] == ins;
  }

  /** The number of refresh `trigger()` calls equals the number of refresh
      ticks that arrived while the last reported status was "playing". */
  lemma {:induction false} RunTriggersMatchTicks(init: bool, ins: seq<Stamped>, parse: UriParser)
    ensures var t := Run(init, ins, parse);
            t.refreshTriggers == |TriggerTicks(init, ins[..t.consumed])|
    decreases |ins|
  {
    if |ins| > 0 {
      var front := ins[..|ins| - 1];
      RunTriggersMatchTicks(init, front, parse);
      RunActiveIsLastReported(init, front, parse);
      var t := Run(init, front, parse);
      assert front[..t.consumed] == ins[..t.consumed];
      if t.running {
        assert ins[..t.consumed] == front;
        assert ins[..|ins|] == front + [ins[|ins| - 1]];
        TriggerTicksSnoc(init, front, ins[|ins| - 1]);
      }
    }
  }

  /** The loop stops exactly at the first iteration that finds the session
      invalid or the player-event channel closed, and runs through every input
      when there is none. */
  lemma {:induction false} RunStopsAtFirstEnd(init: bool, ins: seq<Stamped>, parse: UriParser)
    ensures var t := Run(init, ins, parse);
            && (t.running <==> forall i | 0 <= i < |ins| :: !Ends(ins[i].input))
            && (!t.running ==> 0 < t.consumed && Ends(ins[t.consumed - 1].input))
            && (forall i | 0 <= i < t.consumed - 1 :: !Ends(ins[i].input))
    decreases |ins|
  {
    if |ins| > 0 {
      var front := ins[..|ins| - 1];
      RunStopsAtFirstEnd(init, front, parse);
      var t := Run(init, front, parse);
      assert forall i | 0 <= i < |front| :: front[i] == ins[i];
    }
  }

  /** Once the loop has stopped, further inputs change nothing. */
  lemma {:induction false} RunIgnoresLaterInputs(init: bool, ins: seq<Stamped>, more: seq<Stamped>, parse: UriParser)
    requires !Run(init, ins, parse).running
    ensures Run(init, ins + more, parse) == Run(init, ins, parse)
    decreases |more|
  {
    if |more| > 0 {
      var front := more[..|more| - 1];
      RunIgnoresLaterInputs(init, ins, front, parse);
      assert (ins + more)[..|ins + more| - 1] == ins + front;
    } else {
      assert ins + more == ins;
    }
  }

  /** From a new worker, as long as the loop runs, `active` is true exactly
      when the last `Playing`, `Paused` or `Stopped` event sent is `Playing`. */
  lemma {:induction false} RunKeepsAgreement(ins: seq<Stamped>, parse: UriParser)
    ensures var t := Run(InitiallyActive, ins, parse);
            t.running ==> Agrees(t.active, t.sent)
    decreases |ins|
  {
    if |ins| > 0 {
      var front := ins[..|ins| - 1];
      RunKeepsAgreement(front, parse);
      var t := Run(InitiallyActive, front, parse);
      if t.running {
        StepKeepsAgreement(t.active, t.sent, ins[|ins| - 1].input, ins[|ins| - 1].atMs, parse);
      }
    }
  }

  /** A new worker stays inactive, and its refresh tick never calls
      `trigger()`, until librespot reports `Playing`. */
  lemma {:induction false} SilentUntilPlaying(ins: seq<Stamped>, parse: UriParser)
    requires forall i | 0 <= i < |ins| :: ReportedStatus(ins[i].input) != Some(true)
    ensures var t := Run(InitiallyActive, ins, parse);
            !t.active && t.refreshTriggers == 0
    decreases |ins|
  {
    if |ins| > 0 {
      var front := ins[..|ins| - 1];
      assert forall i | 0 <= i < |front| :: front[i] == ins[i];
      SilentUntilPlaying(front, parse);
    }
  }

  // ---------------------------------------------------------------------------
  // The loop itself

  /** `run_loop` over a finite, serialised input sequence: starts from a new
      worker and iterates until an input breaks the loop or the inputs run
      out. */
  method RunWorker(ins: seq<Stamped>, parse: UriParser) returns (t: Trace)
    ensures t == Run(InitiallyActive, ins, parse)
    ensures t.active == ActiveAfter(InitiallyActive, ins[..t.consumed])
    ensures t.running ==> Agrees(t.active, t.sent)
  {
    t := Start(InitiallyActive);
    var i := 0;
    while i < |ins|
      invariant 0 <= i <= |ins|
      invariant t.running && t.consumed == i
      invariant t == Run(InitiallyActive, ins[..i], parse)
      invariant t.active == ActiveAfter(InitiallyActive, ins[..i])
      invariant Agrees(t.active, t.sent)
    {
      var r := Step(t.active, ins[i].input, ins[i].atMs, parse);
      StepKeepsAgreement(t.active, t.sent, ins[i].input, ins[i].atMs, parse);
      assert ins[..i + 1][..i] == ins[..i];
      t := Extend(t, r);
      if !r.continues {
        assert ins[..i + 1] == ins[..t.consumed];
        RunIgnoresLaterInputs(InitiallyActive, ins[..i + 1], ins[i + 1..], parse);
        assert ins[..i + 1] + ins[i + 1..] == ins;
        return;
      }
      i := i + 1;
    }
    assert ins[..i] == ins;
  }
}
