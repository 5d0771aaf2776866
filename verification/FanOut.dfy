/**
 The fan-out/fan-in shape shared by the web UI's collecting handlers.

 The handler starts one worker goroutine per input, each with its own unbuffered channel,
 then receives from the channels in order, closing each after one receive.  `plans[i]` is
 what worker `i` sends, in order, given how its calls turn out.  Sending on a closed
 channel, or being blocked in a send when the channel is closed, panics.
 */
module FanOut {
  datatype Worker = Worker(sent: nat, sending: bool)

  datatype State<R> = State(
    workers: seq<Worker>,
    received: seq<R>,
    holding: bool,
    results: seq<R>,
    panicked: bool)

  /** `Spawn` starts the next worker, `Arrive(i)` is worker `i` reaching its next send,
      `Receive` the hand-off to the collector and `Close` its close and append. */
  datatype Event = Spawn | Arrive(i: nat) | Receive | Close

  function Init<R>(): State<R> {
    State([], [], false, [], false)
  }

  predicate Enabled<R>(plans: seq<seq<R>>, s: State<R>, e: Event) {
    && !s.panicked
    && |s.workers| <= |plans|
    && match e
       case Spawn => |s.workers| < |plans|
       case Arrive(i) => i < |s.workers| && !s.workers[i].sending && s.workers[i].sent < |plans[i]|
       case Receive =>
         var k := |s.results|;
         && |s.workers| == |plans| && !s.holding && k < |plans|
         && s.workers[k].sending && s.workers[k].sent < |plans[k]|
       case Close => s.holding && |s.results| < |s.workers| && |s.received| > 0
  }

  /** Channels below the collector's position are closed. */
  function Apply<R>(plans: seq<seq<R>>, s: State<R>, e: Event): State<R>
    requires Enabled(plans, s, e)
  {
    var k := |s.results|;
    match e
    case Spawn => s.(workers := s.workers + [Worker(0, false)])
    case Arrive(i) =>
      if i < k then s.(panicked := true)
      else s.(workers := s.workers[i := s.workers[i].(sending := true)])
    case Receive =>
      s.(workers := s.workers[k := Worker(s.workers[k].sent + 1, false)],
         received := s.received + [plans[k][s.workers[k].sent]],
         holding := true)
    case Close =>
      if s.workers[k].sending then s.(panicked := true)
      else s.(holding := false, results := s.results + [s.received[|s.received| - 1]])
  }

  predicate Runs<R>(plans: seq<seq<R>>, s: State<R>, es: seq<Event>)
    decreases |es|
  {
    |es| == 0 || (Enabled(plans, s, es[0]) && Runs(plans, Apply(plans, s, es[0]), es[1..]))
  }

  function Exec<R>(plans: seq<seq<R>>, s: State<R>, es: seq<Event>): State<R>
    requires Runs(plans, s, es)
    decreases |es|
  {
    if |es| == 0 then s else Exec(plans, Apply(plans, s, es[0]), es[1..])
  }

  /** No goroutine can take another step. */
  ghost predicate Terminal<R>(plans: seq<seq<R>>, s: State<R>) {
    forall e :: !Enabled(plans, s, e)
  }

  /** What a handler without concurrency would collect. */
  function Firsts<R>(plans: seq<seq<R>>): seq<R>
    requires forall i :: 0 <= i < |plans| ==> |plans[i]| >= 1
  {
    seq(|plans|, i requires 0 <= i < |plans| => plans[i][0])
  }

  predicate EachSends<R>(plans: seq<seq<R>>) {
    forall i :: 0 <= i < |plans| ==> |plans[i]| >= 1
  }

  predicate EachSendsOnce<R>(plans: seq<seq<R>>) {
    forall i :: 0 <= i < |plans| ==> |plans[i]| == 1
  }

  // ----- Invariant ------------------------------------------------------------------

  ghost predicate Inv<R>(plans: seq<seq<R>>, s: State<R>) {
    var k := |s.results|;
    && EachSends(plans)
    && k <= |s.received| <= |s.workers| <= |plans|
    && (|s.received| > 0 ==> |s.workers| == |plans|)
    && |s.received| == k + (if s.holding then 1 else 0)
    && s.results <= s.received
    && (forall i :: 0 <= i < |s.received| ==> s.received[i] == plans[i][0] && s.workers[i].sent == 1)
    && (forall i :: |s.received| <= i < |s.workers| ==> s.workers[i].sent == 0)
    && (forall i :: 0 <= i < |s.workers| && s.workers[i].sending ==> s.workers[i].sent < |plans[i]|)
    && (forall i :: 0 <= i < k ==> !s.workers[i].sending)
    && (s.panicked ==> !EachSendsOnce(plans))
  }

  lemma InvStep<R>(plans: seq<seq<R>>, s: State<R>, e: Event)
    requires Inv(plans, s) && Enabled(plans, s, e)
    ensures Inv(plans, Apply(plans, s, e))
  {}

  lemma {:induction false} InvRun<R>(plans: seq<seq<R>>, s: State<R>, es: seq<Event>)
    requires Inv(plans, s) && Runs(plans, s, es)
    ensures Inv(plans, Exec(plans, s, es))
    decreases |es|
  {
    if |es| > 0 {
      InvStep(plans, s, es[0]);
      InvRun(plans, Apply(plans, s, es[0]), es[1..]);
    }
  }

  // ----- Termination ------------------------------------------------------------------

  function Owed<R>(plans: seq<seq<R>>, ws: seq<Worker>): nat
    decreases |plans|
  {
    if plans == [] then 0
    else if ws == [] then 1 + 2 * |plans[0]| + Owed(plans[1..], [])
    else
      var left := 2 * |plans[0]| - 2 * ws[0].sent - (if ws[0].sending then 1 else 0);
      (if left < 0 then 0 else left) + Owed(plans[1..], ws[1..])
  }

  /** What is still to do: spawns, arrivals, hand-offs and closes; zero after a panic. */
  function Measure<R>(plans: seq<seq<R>>, s: State<R>): nat {
    if s.panicked then 0
    else 1 + Owed(plans, s.workers) + (if |s.results| <= |plans| then |plans| - |s.results| else 0)
  }

  lemma {:induction false} OwedSpawn<R>(plans: seq<seq<R>>, ws: seq<Worker>)
    requires |ws| < |plans|
    ensures Owed(plans, ws + [Worker(0, false)]) + 1 == Owed(plans, ws)
    decreases |plans|
  {
    if ws == [] {
      assert (ws + [Worker(0, false)])[1..] == [];
    } else {
      assert (ws + [Worker(0, false)])[1..] == ws[1..] + [Worker(0, false)];
      OwedSpawn(plans[1..], ws[1..]);
    }
  }

  lemma {:induction false} OwedUpdate<R>(plans: seq<seq<R>>, ws: seq<Worker>, i: nat, w: Worker)
    requires |ws| <= |plans| && i < |ws|
    requires w.sent <= |plans[i]| && (w.sending ==> w.sent < |plans[i]|)
    requires ws[i].sent <= |plans[i]| && (ws[i].sending ==> ws[i].sent < |plans[i]|)
    requires 2 * w.sent + (if w.sending then 1 else 0) == 2 * ws[i].sent + (if ws[i].sending then 1 else 0) + 1
    ensures Owed(plans, ws[i := w]) + 1 == Owed(plans, ws)
    decreases |plans|
  {
    if i == 0 {
      assert ws[i := w][1..] == ws[1..];
    } else {
      assert ws[i := w][1..] == ws[1..][i - 1 := w];
      OwedUpdate(plans[1..], ws[1..], i - 1, w);
    }
  }

  /** Every step of every goroutine brings the handler closer to its end. */
  lemma MeasureFalls<R>(plans: seq<seq<R>>, s: State<R>, e: Event)
    requires Inv(plans, s) && Enabled(plans, s, e)
    ensures Measure(plans, Apply(plans, s, e)) < Measure(plans, s)
  {
    var k := |s.results|;
    match e
    case Spawn => OwedSpawn(plans, s.workers);
    case Arrive(i) =>
      if i >= k {
        OwedUpdate(plans, s.workers, i, s.workers[i].(sending := true));
      }
    case Receive => OwedUpdate(plans, s.workers, k, Worker(s.workers[k].sent + 1, false));
    case Close =>
  }

  /** No schedule is longer than the initial measure. */
  lemma {:induction false} RunsAreBounded<R>(plans: seq<seq<R>>, s: State<R>, es: seq<Event>)
    requires Inv(plans, s) && Runs(plans, s, es)
    ensures |es| + Measure(plans, Exec(plans, s, es)) <= Measure(plans, s)
    decreases |es|
  {
    if |es| > 0 {
      MeasureFalls(plans, s, es[0]);
      InvStep(plans, s, es[0]);
      RunsAreBounded(plans, Apply(plans, s, es[0]), es[1..]);
    }
  }

  // ----- Outcome -----------------------------------------------------------------------

  /** Where no goroutine can move, either something panicked or everything is collected. */
  lemma TerminalIsDone<R>(plans: seq<seq<R>>, s: State<R>)
    requires Inv(plans, s) && Terminal(plans, s) && !s.panicked
    ensures s.results == Firsts(plans)
    ensures |s.workers| == |plans| && forall i :: 0 <= i < |plans| ==> |plans[i]| == 1
  {
    var k := |s.results|;
    assert !Enabled(plans, s, Spawn);
    assert !Enabled(plans, s, Close);
    forall i | 0 <= i < |s.workers|
      ensures s.workers[i].sending || s.workers[i].sent >= |plans[i]|
    {
      assert !Enabled(plans, s, Arrive(i));
    }
    assert !Enabled(plans, s, Receive);
  }

  /** For every schedule: while it runs, what is collected is a prefix of the sequential
      result, in order; it cannot run for ever; and when it ends, some send hit a closed
      channel exactly if some worker sends more than once, and otherwise the handler has
      the sequential result. */
  lemma EverySchedule<R>(plans: seq<seq<R>>, es: seq<Event>)
    requires EachSends(plans) && Runs(plans, Init(), es)
    ensures var s := Exec(plans, Init(), es);
            && s.results <= Firsts(plans)
            && |es| <= Measure(plans, Init())
            && (s.panicked ==> !EachSendsOnce(plans))
            && (Terminal(plans, s) ==>
                  && (s.panicked <==> !EachSendsOnce(plans))
                  && (EachSendsOnce(plans) ==> s.results == Firsts(plans)))
  {
    var s := Exec(plans, Init(), es);
    InvRun(plans, Init(), es);
    RunsAreBounded(plans, Init(), es);
    if Terminal(plans, s) && !s.panicked {
      TerminalIsDone(plans, s);
    }
  }

  /** Some goroutine can move unless the handler is done or has panicked: no deadlock. */
  lemma NoDeadlock<R>(plans: seq<seq<R>>, es: seq<Event>)
    requires EachSends(plans) && Runs(plans, Init(), es)
    ensures var s := Exec(plans, Init(), es);
            s.panicked || s.results == Firsts(plans) || exists e :: Enabled(plans, s, e)
  {
    var s := Exec(plans, Init(), es);
    InvRun(plans, Init(), es);
    if !s.panicked && !(exists e :: Enabled(plans, s, e)) {
      TerminalIsDone(plans, s);
    }
  }
}
