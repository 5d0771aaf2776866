/**
 The stream hook over whole runs: one timer at most, when a silent connection is dropped, which
 sockets are never closed, and what the page shows.
 */
module StreamTheorems {
  import opened Options
  import opened StreamTimer

  // ----- Runs with exact timers ---------------------------------------------------------------

  datatype Timed = Timed(now: int, event: Event)

  /** Time does not pass a timer's due moment without the timer firing. */
  ghost predicate Can(h: Hook, clock: int, step: Timed) {
    && clock <= step.now
    && (forall id :: id in h.timers ==> step.now <= h.timers[id])
    && Enabled(h, step.event, step.now)
  }

  ghost predicate Runs(h: Hook, clock: int, run: seq<Timed>)
    decreases |run|
  {
    run != [] ==> Can(h, clock, run[0]) && Runs(Step(h, run[0].event, run[0].now), run[0].now, run[1..])
  }

  ghost function Exec(h: Hook, clock: int, run: seq<Timed>): Hook
    requires Runs(h, clock, run)
    decreases |run|
  {
    if run == [] then h else Exec(Step(h, run[0].event, run[0].now), run[0].now, run[1..])
  }

  function ClockAfter(clock: int, run: seq<Timed>): int {
    if run == [] then clock else run[|run| - 1].now
  }

  // ----- The invariant --------------------------------------------------------------------------

  ghost predicate TimersOk(h: Hook, clock: int) {
    forall id :: id in h.timers ==>
      && h.interval == Some(id)
      && clock <= h.timers[id] <= clock + PING_INTERVAL
      && (h.current.Some? && h.lastPong > 0 ==> h.timers[id] - h.lastPong <= PING_INTERVAL + PONG_TIMEOUT)
  }

  ghost predicate Inv(h: Hook, clock: int) {
    && 0 < clock && 0 <= h.lastPong <= clock
    && (h.current.Some? ==> h.interval.Some? && h.interval.value in h.timers)
    && TimersOk(h, clock)
  }

  lemma {:induction false} InvStart(h: Hook, clock: int, kind: Kind, hosts: seq<string>, constructed: bool, now: int)
    requires Inv(h, clock) && clock <= now
    ensures Inv(Started(h, kind, hosts, constructed, now), now)
  {}

  lemma {:induction false} InvTick(h: Hook, clock: int, timer: nat, now: int)
    requires Inv(h, clock) && Can(h, clock, Timed(now, Tick(timer)))
    ensures Inv(Ticked(h, timer, now), now)
  {}

  lemma {:induction false} InvStep(h: Hook, clock: int, step: Timed)
    requires Inv(h, clock) && Can(h, clock, step)
    ensures Inv(Step(h, step.event, step.now), step.now)
  {
    match step.event
    case Start(kind, hosts, constructed) => InvStart(h, clock, kind, hosts, constructed, step.now);
    case Tick(timer) => InvTick(h, clock, timer, step.now);
    case _ =>
  }

  /** Every run keeps the invariant. */
  lemma {:induction false} InvRun(h: Hook, clock: int, run: seq<Timed>)
    requires Inv(h, clock) && Runs(h, clock, run)
    ensures Inv(Exec(h, clock, run), ClockAfter(clock, run))
    decreases |run|
  {
    if run != [] {
      InvStep(h, clock, run[0]);
      InvRun(Step(h, run[0].event, run[0].now), run[0].now, run[1..]);
    }
  }

  // ----- The timer and the timeout -----------------------------------------------------------------

  /** Whatever happens, and in whatever order, at most one interval timer is live, and a stream
      that has a socket has its timer. */
  lemma {:induction false} AtMostOneTimer(clock: int, run: seq<Timed>)
    requires 0 < clock && Runs(Fresh(), clock, run)
    ensures var h := Exec(Fresh(), clock, run);
            |h.timers.Keys| <= 1 && (h.current.Some? ==> |h.timers.Keys| == 1)
  {
    InvRun(Fresh(), clock, run);
    var h := Exec(Fresh(), clock, run);
    if h.interval.Some? && h.interval.value in h.timers {
      assert h.timers.Keys == {h.interval.value};
    } else {
      assert h.timers.Keys == {};
    }
  }

  /** In every reachable state, a tick drops the stream exactly when the last pong (or the first
      ping, before any pong) is more than ten seconds old; it is then at most fifteen seconds old;
      and an open socket that survives the tick is being watched. */
  lemma {:induction false} TimeoutWindow(clock: int, run: seq<Timed>, timer: nat, now: int)
    requires 0 < clock && Runs(Fresh(), clock, run)
    requires var h := Exec(Fresh(), clock, run);
             Can(h, ClockAfter(clock, run), Timed(now, Tick(timer))) && h.current.Some?
    ensures var h := Exec(Fresh(), clock, run);
            var after := Step(h, Tick(timer), now);
            && (after.current.None? <==> h.lastPong > 0 && now - h.lastPong > 10000)
            && (after.current.None? ==> 10000 < now - h.lastPong <= 15000)
            && (after.current.None? ==> ReadyOf(after, h.current.value) in {Closing, Closed})
            && (after.current.Some? && ReadyOf(h, h.current.value) == Open ==> after.lastPong > 0)
  {
    InvRun(Fresh(), clock, run);
  }

  /** In every reachable state with a stream, the time kept as the last sign of life, be it a pong
      on whichever socket or the first ping, is at most fifteen seconds old. */
  lemma {:induction false} SilenceIsBounded(clock: int, run: seq<Timed>)
    requires 0 < clock && Runs(Fresh(), clock, run)
    ensures var h := Exec(Fresh(), clock, run);
            h.current.Some? && h.lastPong > 0 ==> ClockAfter(clock, run) - h.lastPong <= 15000
  {
    InvRun(Fresh(), clock, run);
  }

  // ----- Sockets that nobody closes --------------------------------------------------------------------

  predicate Live(h: Hook, s: nat) {
    ReadyOf(h, s) == Connecting || ReadyOf(h, s) == Open
  }

  ghost predicate NotClosedByPeer(run: seq<Timed>, s: nat) {
    forall k :: 0 <= k < |run| ==> run[k].event != SocketClosed(s)
  }

  ghost predicate Dropped(h: Hook, s: nat) {
    s < |h.sockets| && h.current != Some(s)
  }

  lemma {:induction false} DroppedStep(h: Hook, s: nat, e: Event, now: int)
    requires Enabled(h, e, now) && Dropped(h, s) && e != SocketClosed(s)
    ensures Dropped(Step(h, e, now), s) && (Live(Step(h, e, now), s) <==> Live(h, s))
  {}

  /** No run makes the hook close a socket that it no longer refers to. */
  lemma {:induction false} DroppedStaysAsItIs(h: Hook, s: nat, clock: int, run: seq<Timed>)
    requires Runs(h, clock, run) && Dropped(h, s) && NotClosedByPeer(run, s)
    ensures Dropped(Exec(h, clock, run), s) && (Live(Exec(h, clock, run), s) <==> Live(h, s))
    decreases |run|
  {
    if run != [] {
      DroppedStep(h, s, run[0].event, run[0].now);
      assert NotClosedByPeer(run[1..], s) by {
        forall k | 0 <= k < |run[1..]| ensures run[1..][k].event != SocketClosed(s) {
          assert run[1..][k] == run[k + 1];
        }
      }
      DroppedStaysAsItIs(Step(h, run[0].event, run[0].now), s, run[0].now, run[1..]);
    }
  }

  /** Cancelling closes the stream's socket if and only if it is open: one that is still
      connecting stays alive, whatever the page does afterwards. */
  lemma {:induction false} CancelClosesIffOpen(h: Hook, s: nat, append: bool, clock: int, run: seq<Timed>)
    requires h.current == Some(s) && s < |h.sockets| && Live(h, s)
    requires Runs(Cancelled(h, append), clock, run) && NotClosedByPeer(run, s)
    ensures Live(Exec(Cancelled(h, append), clock, run), s) <==> ReadyOf(h, s) == Connecting
  {
    DroppedStaysAsItIs(Cancelled(h, append), s, clock, run);
  }

  // ----- What ends a stream -------------------------------------------------------------------------------

  /** A page action, the close of any socket, or a tick at which the last sign of life is too old. */
  predicate Ends(h: Hook, e: Event, now: int) {
    match e
    case Start(_, _, _) => true
    case Cancel(_) => true
    case Unmount => true
    case SocketClosed(_) => true
    case Tick(_) => h.lastPong > 0 && now - h.lastPong > PONG_TIMEOUT
    case _ => false
  }

  ghost predicate NothingEnds(h: Hook, clock: int, run: seq<Timed>)
    requires Runs(h, clock, run)
    decreases |run|
  {
    run != [] ==>
      && !Ends(h, run[0].event, run[0].now)
      && NothingEnds(Step(h, run[0].event, run[0].now), run[0].now, run[1..])
  }

  lemma {:induction false} StepEndsIff(h: Hook, s: nat, e: Event, now: int)
    requires Enabled(h, e, now) && h.current == Some(s) && s < |h.sockets|
    ensures var h' := Step(h, e, now);
            s < |h'.sockets| && (h'.current == Some(s) <==> !Ends(h, e, now))
  {}

  lemma {:induction false} EndedStaysEnded(h: Hook, s: nat, clock: int, run: seq<Timed>)
    requires Runs(h, clock, run) && h.current != Some(s) && s < |h.sockets|
    ensures Exec(h, clock, run).current != Some(s)
    decreases |run|
  {
    if run != [] {
      EndedStaysEnded(Step(h, run[0].event, run[0].now), s, run[0].now, run[1..]);
    }
  }

  /** Exactly when a stream survives a run: no page action, no close event of any socket, whether
      its own or one it replaced, and no tick that finds its last sign of life too old. */
  lemma {:induction false} StreamSurvivesIff(h: Hook, s: nat, clock: int, run: seq<Timed>)
    requires Runs(h, clock, run) && h.current == Some(s) && s < |h.sockets|
    ensures Exec(h, clock, run).current == Some(s) <==> NothingEnds(h, clock, run)
    decreases |run|
  {
    if run != [] {
      var h' := Step(h, run[0].event, run[0].now);
      StepEndsIff(h, s, run[0].event, run[0].now);
      if h'.current == Some(s) {
        StreamSurvivesIff(h', s, run[0].now, run[1..]);
      } else {
        EndedStaysEnded(h', s, run[0].now, run[1..]);
      }
    }
  }

  ghost predicate NoStart(run: seq<Timed>) {
    forall k :: 0 <= k < |run| ==> !run[k].event.Start?
  }

  lemma {:induction false} NoneStaysNone(h: Hook, clock: int, run: seq<Timed>)
    requires Runs(h, clock, run) && NoStart(run) && h.current == None
    ensures Exec(h, clock, run).current == None
    decreases |run|
  {
    if run != [] {
      assert !run[0].event.Start?;
      assert forall k :: 0 <= k < |run| - 1 ==> run[1..][k] == run[k + 1];
      NoneStaysNone(Step(h, run[0].event, run[0].now), run[0].now, run[1..]);
    }
  }

  ghost predicate SocketEvents(run: seq<Timed>) {
    forall k :: 0 <= k < |run| ==> run[k].event.Opened? || run[k].event.Received? || run[k].event.SocketClosed?
  }

  ghost predicate NoClose(run: seq<Timed>) {
    forall k :: 0 <= k < |run| ==> !run[k].event.SocketClosed?
  }

  /** Among the events of the sockets alone, a stream survives exactly if none of them is a close,
      of whichever socket. */
  lemma {:induction false} SurvivesSocketEventsIff(h: Hook, s: nat, clock: int, run: seq<Timed>)
    requires Runs(h, clock, run) && SocketEvents(run) && h.current == Some(s)
    ensures Exec(h, clock, run).current == Some(s) <==> NoClose(run)
    decreases |run|
  {
    if run != [] {
      var h' := Step(h, run[0].event, run[0].now);
      assert run[0].event.Opened? || run[0].event.Received? || run[0].event.SocketClosed?;
      assert forall k :: 0 <= k < |run| - 1 ==> run[1..][k] == run[k + 1];
      if run[0].event.SocketClosed? {
        assert NoStart(run[1..]);
        NoneStaysNone(h', run[0].now, run[1..]);
      } else {
        SurvivesSocketEventsIff(h', s, run[0].now, run[1..]);
        assert NoClose(run) <==> NoClose(run[1..]) by {
          if NoClose(run[1..]) {
            forall k | 0 <= k < |run| ensures !run[k].event.SocketClosed? {
              assert k > 0 ==> run[k] == run[1..][k - 1];
            }
          }
        }
      }
    }
  }

  function RestartRun(kind: Kind, first: seq<string>, second: seq<string>, now: int): seq<Timed> {
    [Timed(now, Start(kind, first, true)), Timed(now, Opened(0)), Timed(now, Start(kind, second, true)),
     Timed(now, SocketClosed(0))]
  }

  lemma {:induction false} RunsStep(h: Hook, clock: int, run: seq<Timed>)
    requires run != [] && Can(h, clock, run[0])
    requires Runs(Step(h, run[0].event, run[0].now), run[0].now, run[1..])
    ensures Runs(h, clock, run)
    ensures Exec(h, clock, run) == Exec(Step(h, run[0].event, run[0].now), run[0].now, run[1..])
  {}

  function StartedAndOpened(kind: Kind, first: seq<string>, now: int): Hook {
    var h := Started(Fresh(), kind, first, true, now);
    h.(sockets := SetReady(h.sockets, 0, Open), text := SetAll(first, ""))
  }

  lemma {:induction false} SecondStart(kind: Kind, first: seq<string>, second: seq<string>, now: int)
    requires first != [] && second != []
    ensures var h := Started(StartedAndOpened(kind, first, now), kind, second, true, now);
            && h.current == Some(1) && |h.sockets| == 2 && h.sockets[0].ready == Closing && h.sockets[1].ready == Connecting
            && h.timers == map[1 := now + PING_INTERVAL]
  {
    var o := StartedAndOpened(kind, first, now);
    assert o.timers - {0} == map[];
  }

  /** The input: when the page restarts a stream, the late close event of the first socket makes
      the hook forget the second stream, whose socket stays alive. */
  lemma {:induction false} LateCloseStopsNewStream(kind: Kind, first: seq<string>, second: seq<string>, clock: int, now: int)
    requires first != [] && second != [] && clock <= now
    ensures var run := RestartRun(kind, first, second, now);
            && Runs(Fresh(), clock, run)
            && var h := Exec(Fresh(), clock, run);
               Dropped(h, 1) && Live(h, 1) && !h.streaming && |h.timers| == 1
  {
    var run := RestartRun(kind, first, second, now);
    var h0 := Started(Fresh(), kind, first, true, now);
    var h1 := StartedAndOpened(kind, first, now);
    var h2 := Started(h1, kind, second, true, now);
    SecondStart(kind, first, second, now);
    var h3 := Step(h2, SocketClosed(0), now);
    assert run[1..][1..][1..][1..] == [];
    assert run[1..][1..][1..][0] == Timed(now, SocketClosed(0));
    RunsStep(h2, now, run[1..][1..][1..]);
    RunsStep(h1, now, run[1..][1..]);
    RunsStep(h0, now, run[1..]);
    RunsStep(Fresh(), clock, run);
  }

  // ----- What the page shows -----------------------------------------------------------------------------

  function Piece(kind: Kind, m: Message, host: string): string {
    match m
    case Pong => ""
    case Garbled => ""
    case Notice(h) => if h == host then Disconnected(kind) else ""
    case Item(h, formatted) => if h == host && formatted.Some? then formatted.value else ""
  }

  /** Everything the messages say about one host, in order. */
  function Said(kind: Kind, run: seq<Timed>, host: string): string {
    if run == [] then ""
    else (if run[0].event.Received? then Piece(kind, run[0].event.message, host) else "") + Said(kind, run[1..], host)
  }

  ghost predicate OneConnection(run: seq<Timed>, s: nat) {
    forall k :: 0 <= k < |run| ==>
      run[k].event.Tick? || (run[k].event.Received? && run[k].event.socket == s)
  }

  lemma {:induction false} ShownAfter(text: map<string, string>, kind: Kind, m: Message, host: string)
    ensures Shown(Display(text, kind, m), host) == Shown(text, host) + Piece(kind, m, host)
  {}

  lemma {:induction false} AssocText(a: string, b: string, c: string)
    ensures (a + b) + c == a + (b + c)
  {}

  lemma {:induction false} StepShows(h: Hook, s: nat, e: Event, now: int, host: string)
    requires Enabled(h, e, now) && h.current == Some(s) && s < |h.sockets|
    requires e.Tick? || (e.Received? && e.socket == s)
    ensures var h' := Step(h, e, now);
            && |h'.sockets| == |h.sockets| && h'.sockets[s].kind == h.sockets[s].kind
            && (h'.current == Some(s) || h'.current == None)
            && (h'.current == Some(s) ==>
                  Shown(h'.text, host) == Shown(h.text, host) + if e.Received? then Piece(h.sockets[s].kind, e.message, host) else "")
  {
    if e.Received? {
      ShownAfter(h.text, h.sockets[s].kind, e.message, host);
    }
  }

  /** As long as the connection is not dropped, each host's pane grows by exactly what the messages
      say about that host, in the order they arrive, whatever the other hosts send. */
  lemma {:induction false} PaneIsWhatWasSaid(h: Hook, s: nat, clock: int, run: seq<Timed>, host: string)
    requires Runs(h, clock, run) && OneConnection(run, s) && h.current == Some(s) && s < |h.sockets|
    requires Exec(h, clock, run).current == Some(s)
    ensures Shown(Exec(h, clock, run).text, host) == Shown(h.text, host) + Said(h.sockets[s].kind, run, host)
    decreases |run|
  {
    if run != [] {
      var e, now := run[0].event, run[0].now;
      var h' := Step(h, e, now);
      StepShows(h, s, e, now, host);
      assert forall k :: 0 <= k < |run| - 1 ==> run[1..][k] == run[k + 1];
      if h'.current == None {
        assert NoStart(run[1..]);
        NoneStaysNone(h', now, run[1..]);
      } else {
        PaneIsWhatWasSaid(h', s, now, run[1..], host);
        AssocText(Shown(h.text, host), if e.Received? then Piece(h.sockets[s].kind, e.message, host) else "",
                  Said(h.sockets[s].kind, run[1..], host));
      }
    }
  }

  /** Every pane is empty when the connection opens. */
  lemma {:induction false} PaneEmptyWhenOpened(hosts: seq<string>, host: string)
    ensures Shown(SetAll(hosts, ""), host) == ""
  {
    if hosts != [] {
      PaneEmptyWhenOpened(hosts[..|hosts| - 1], host);
    }
  }

  // ----- A connection's own pongs --------------------------------------------------------------------------

  /** The time of the last pong in the run, or `before`. */
  function LastPongFrom(run: seq<Timed>, before: Option<int>): Option<int> {
    if run == [] then before
    else LastPongFrom(run[1..], if run[0].event.Received? && run[0].event.message == Pong then Some(run[0].now) else before)
  }

  lemma {:induction false} OwnPongIsKept(h: Hook, s: nat, clock: int, run: seq<Timed>, before: Option<int>)
    requires Runs(h, clock, run) && OneConnection(run, s) && h.current == Some(s)
    requires Exec(h, clock, run).current == Some(s)
    requires 0 < clock && (before.Some? ==> 0 < before.value == h.lastPong)
    ensures var last := LastPongFrom(run, before);
            last.Some? ==> 0 < last.value == Exec(h, clock, run).lastPong
    decreases |run|
  {
    if run != [] {
      var e, now := run[0].event, run[0].now;
      var h' := Step(h, e, now);
      assert e.Tick? || (e.Received? && e.socket == s);
      assert forall k :: 0 <= k < |run| - 1 ==> run[1..][k] == run[k + 1];
      if h'.current == None {
        assert NoStart(run[1..]);
        NoneStaysNone(h', now, run[1..]);
      } else {
        OwnPongIsKept(h', s, now, run[1..], if e.Received? && e.message == Pong then Some(now) else before);
      }
    }
  }

  /** While a reachable stream runs on one connection and is not dropped, the last pong on that
      connection is at most fifteen seconds old. */
  lemma {:induction false} OwnSilenceIsBounded(clock: int, run: seq<Timed>, s: nat, more: seq<Timed>)
    requires 0 < clock && Runs(Fresh(), clock, run)
    requires var h := Exec(Fresh(), clock, run);
             && h.current == Some(s) && Runs(h, ClockAfter(clock, run), more) && OneConnection(more, s)
             && Exec(h, ClockAfter(clock, run), more).current == Some(s)
    ensures LastPongFrom(more, None).Some? ==>
              ClockAfter(ClockAfter(clock, run), more) - LastPongFrom(more, None).value <= 15000
  {
    var h, start := Exec(Fresh(), clock, run), ClockAfter(clock, run);
    InvRun(Fresh(), clock, run);
    InvRun(h, start, more);
    OwnPongIsKept(h, s, start, more, None);
  }
}
