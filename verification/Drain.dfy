/**
 The WebSocket manager: a wait group counts the functions it runs, and a shutdown waits for the
 count to reach zero or for its grace period to end.  Joined with a group of goroutines, it
 tells which shutdowns succeed.
 */
module Drain {
  import opened Options
  import AdapterStream

  datatype Result = Drained | TimedOut

  /** `closed` is the channel that the waiting goroutine closes. */
  datatype State = State(running: nat, called: bool, closed: bool, expired: bool, result: Option<Result>)

  const INIT := State(0, false, false, false, None)

  datatype Event = Run | Return | Call | WaitReturns | Expire | Choose(result: Result)

  predicate Enabled(s: State, e: Event) {
    match e
    case Run => true
    case Return => s.running > 0
    case Call => !s.called
    case WaitReturns => s.called && !s.closed && s.running == 0
    case Expire => true
    case Choose(Drained) => s.called && s.result == None && s.closed
    case Choose(TimedOut) => s.called && s.result == None && s.expired
  }

  function Apply(s: State, e: Event): State
    requires Enabled(s, e)
  {
    match e
    case Run => s.(running := s.running + 1)
    case Return => s.(running := s.running - 1)
    case Call => s.(called := true)
    case WaitReturns => s.(closed := true)
    case Expire => s.(expired := true)
    case Choose(r) => s.(result := Some(r))
  }

  // ----- The manager object --------------------------------------------------------------

  class Manager {
    var running: nat
    var called: bool
    var closed: bool
    var expired: bool
    var result: Option<Result>

    ghost function View(): State
      reads this
    {
      State(running, called, closed, expired, result)
    }

    constructor ()
      ensures View() == INIT
    {
      running, called, closed, expired, result := 0, false, false, false, None;
    }

    method RunWSFunc()
      modifies this`running
      ensures View() == Apply(old(View()), Run)
    {
      running := running + 1;
    }

    method FuncReturned()
      requires running > 0
      modifies this`running
      ensures View() == Apply(old(View()), Return)
    {
      running := running - 1;
    }

    method CallShutdown()
      requires !called
      modifies this`called
      ensures View() == Apply(old(View()), Call)
    {
      called := true;
    }

    method GraceEnds()
      modifies this`expired
      ensures View() == Apply(old(View()), Expire)
    {
      expired := true;
    }

    /** The goroutine that waits for the group; it blocks while functions run. */
    method Waiter() returns (moved: bool)
      modifies this`closed
      ensures moved == Enabled(old(View()), WaitReturns)
      ensures View() == if moved then Apply(old(View()), WaitReturns) else old(View())
    {
      moved := called && !closed && running == 0;
      if moved {
        closed := true;
      }
    }

    /** The `select` of the shutdown; `pick` is the case it prefers when both are ready. */
    method Select(pick: Result) returns (moved: bool, chosen: Result)
      modifies this`result
      ensures moved == (Enabled(old(View()), Choose(Drained)) || Enabled(old(View()), Choose(TimedOut)))
      ensures moved ==> Enabled(old(View()), Choose(chosen)) && View() == Apply(old(View()), Choose(chosen))
      ensures !moved ==> View() == old(View())
    {
      chosen := if closed && expired then pick else if closed then Drained else TimedOut;
      moved := called && result == None && (closed || expired);
      if moved {
        result := Some(chosen);
      }
    }
  }

  /** The shutdown waits exactly while the channel is open and the grace period lasts; and what
      keeps the channel open is a running function. */
  lemma {:induction false} ShutdownWaitsIff(s: State)
    requires s.called && s.result == None
    ensures (forall e: Event :: e.WaitReturns? || e.Choose? ==> !Enabled(s, e)) <==> s.running > 0 && !s.closed && !s.expired
  {
    assert Enabled(s, WaitReturns) <==> !s.closed && s.running == 0;
    assert Enabled(s, Choose(Drained)) <==> s.closed;
    assert Enabled(s, Choose(TimedOut)) <==> s.expired;
  }

  // ----- Runs of the manager ----------------------------------------------------------------

  predicate Runs(s: State, es: seq<Event>)
    decreases |es|
  {
    |es| == 0 || (Enabled(s, es[0]) && Runs(Apply(s, es[0]), es[1..]))
  }

  function Exec(s: State, es: seq<Event>): State
    requires Runs(s, es)
    decreases |es|
  {
    if |es| == 0 then s else Exec(Apply(s, es[0]), es[1..])
  }

  lemma {:induction false} RunsSnoc(s: State, es: seq<Event>, e: Event)
    requires Runs(s, es) && Enabled(Exec(s, es), e)
    ensures Runs(s, es + [e]) && Exec(s, es + [e]) == Apply(Exec(s, es), e)
    decreases |es|
  {
    if |es| == 0 {
      assert [e][1..] == [];
    } else {
      assert (es + [e])[1..] == es[1..] + [e];
      RunsSnoc(Apply(s, es[0]), es[1..], e);
    }
  }

  /** One turn of the code around the manager, with what its environment answers. */
  datatype Turn = RunTurn | ReturnTurn | CallTurn | WaiterTurn | GraceTurn | SelectTurn(pick: Result)

  /** A turn that cannot be taken changes nothing. */
  method Take(manager: Manager, turn: Turn) returns (moved: bool, ghost e: Event)
    modifies manager
    ensures moved ==> Enabled(old(manager.View()), e)
    ensures manager.View() == if moved then Apply(old(manager.View()), e) else old(manager.View())
  {
    moved, e := true, Expire;
    match turn
    case RunTurn =>
      e := Run;
      manager.RunWSFunc();
    case ReturnTurn =>
      moved := manager.running > 0;
      e := Return;
      if moved {
        manager.FuncReturned();
      }
    case CallTurn =>
      moved := !manager.called;
      e := Call;
      if moved {
        manager.CallShutdown();
      }
    case WaiterTurn =>
      e := WaitReturns;
      moved := manager.Waiter();
    case GraceTurn =>
      manager.GraceEnds();
    case SelectTurn(pick) =>
      var chosen;
      moved, chosen := manager.Select(pick);
      e := Choose(chosen);
  }

  /** Any schedule of turns is a run of the manager. */
  method Drive(manager: Manager, schedule: seq<Turn>) returns (ghost es: seq<Event>)
    modifies manager
    ensures Runs(old(manager.View()), es) && manager.View() == Exec(old(manager.View()), es)
  {
    es := [];
    for n := 0 to |schedule|
      invariant Runs(old(manager.View()), es) && manager.View() == Exec(old(manager.View()), es)
    {
      var moved, e := Take(manager, schedule[n]);
      if moved {
        RunsSnoc(old(manager.View()), es, e);
        es := es + [e];
      }
    }
  }

  function Times(es: seq<Event>, e: Event): nat {
    if es == [] then 0 else (if es[0] == e then 1 else 0) + Times(es[1..], e)
  }

  /** In every run the count is the functions started less those returned, and the other fields say
      which steps there have been. */
  lemma {:induction false} RunSays(s: State, es: seq<Event>)
    requires Runs(s, es)
    ensures var s' := Exec(s, es);
            && s'.running + Times(es, Return) == s.running + Times(es, Run)
            && (s'.called <==> s.called || Call in es)
            && (s'.closed <==> s.closed || WaitReturns in es)
            && (s'.expired <==> s.expired || Expire in es)
            && (s'.result == None <==> s.result == None && Choose(Drained) !in es && Choose(TimedOut) !in es)
    decreases |es|
  {
    if |es| > 0 {
      RunSays(Apply(s, es[0]), es[1..]);
      assert forall e :: e in es <==> e == es[0] || e in es[1..];
    }
  }

  /** At some moment of the run, after the shutdown was called, no function was running. */
  predicate IdleOnce(s: State, es: seq<Event>)
    requires Runs(s, es)
    decreases |es|
  {
    (s.called && s.running == 0) || (|es| > 0 && IdleOnce(Apply(s, es[0]), es[1..]))
  }

  lemma {:induction false} ClosedMeansIdle(s: State, es: seq<Event>)
    requires Runs(s, es) && !s.closed && s.result != Some(Drained)
    ensures Exec(s, es).closed || Exec(s, es).result == Some(Drained) ==> IdleOnce(s, es)
    decreases |es|
  {
    if |es| > 0 && !(s.called && s.running == 0) {
      ClosedMeansIdle(Apply(s, es[0]), es[1..]);
    }
  }

  /** In every run a shutdown reports success only if no function was running at some moment since
      it was called, and failure only if its grace period ended. */
  lemma {:induction false} ResultIsEarned(es: seq<Event>)
    requires Runs(INIT, es)
    ensures Exec(INIT, es).result == Some(Drained) ==> IdleOnce(INIT, es)
    ensures Exec(INIT, es).result == Some(TimedOut) ==> Exec(INIT, es).expired
  {
    ClosedMeansIdle(INIT, es);
    FailureMeansExpired(INIT, es);
  }

  lemma {:induction false} FailureMeansExpired(s: State, es: seq<Event>)
    requires Runs(s, es) && (s.result == Some(TimedOut) ==> s.expired)
    ensures Exec(s, es).result == Some(TimedOut) ==> Exec(s, es).expired
    decreases |es|
  {
    if |es| > 0 {
      FailureMeansExpired(Apply(s, es[0]), es[1..]);
    }
  }

  // ----- The manager joined with what it runs ---------------------------------------------------

  /** A group of goroutines as the manager sees it: its steps and how many have not returned. */
  datatype System<!S, !E> = System(enabled: (S, E) -> bool, step: (S, E) -> S, live: S -> nat)

  datatype Joint<S> = Joint(group: S, manager: State)

  datatype JointEvent<E> = Group(e: E) | Manage(m: Event)

  /** Nothing is started any more; a function returns when its goroutine does. */
  predicate JointEnabled<S, E>(sys: System<S, E>, j: Joint<S>, e: JointEvent<E>) {
    match e
    case Group(g) => sys.enabled(j.group, g)
    case Manage(m) => !m.Run? && !m.Return? && Enabled(j.manager, m)
  }

  function JointApply<S, E>(sys: System<S, E>, j: Joint<S>, e: JointEvent<E>): Joint<S>
    requires JointEnabled(sys, j, e)
  {
    match e
    case Group(g) =>
      var next := sys.step(j.group, g);
      Joint(next, j.manager.(running := sys.live(next)))
    case Manage(m) => j.(manager := Apply(j.manager, m))
  }

  predicate JointRuns<S, E>(sys: System<S, E>, j: Joint<S>, es: seq<JointEvent<E>>)
    decreases |es|
  {
    |es| == 0 || (JointEnabled(sys, j, es[0]) && JointRuns(sys, JointApply(sys, j, es[0]), es[1..]))
  }

  function JointExec<S, E>(sys: System<S, E>, j: Joint<S>, es: seq<JointEvent<E>>): Joint<S>
    requires JointRuns(sys, j, es)
    decreases |es|
  {
    if |es| == 0 then j else JointExec(sys, JointApply(sys, j, es[0]), es[1..])
  }

  /** Each step of the group is no return or one return. */
  ghost predicate ReturnOneByOne<S(!new), E(!new)>(sys: System<S, E>) {
    forall s, e :: sys.enabled(s, e) ==> sys.live(s) - 1 <= sys.live(sys.step(s, e)) <= sys.live(s)
  }

  /** What the manager sees of a run: its own steps, and the returns. */
  function Seen<S, E>(sys: System<S, E>, j: Joint<S>, es: seq<JointEvent<E>>): seq<Event>
    requires JointRuns(sys, j, es)
    decreases |es|
  {
    if |es| == 0 then []
    else
      var rest := Seen(sys, JointApply(sys, j, es[0]), es[1..]);
      match es[0]
      case Group(e) => if sys.live(sys.step(j.group, e)) < sys.live(j.group) then [Return] + rest else rest
      case Manage(m) => [m] + rest
  }

  /** What the manager sees of a run of the two together is a run of the manager, and leaves it in
      the same state; so what is proved of the manager's runs holds of the joint ones. */
  lemma {:induction false} SeenIsARun<S(!new), E(!new)>(sys: System<S, E>, j: Joint<S>, es: seq<JointEvent<E>>)
    requires ReturnOneByOne(sys) && JointRuns(sys, j, es) && j.manager.running == sys.live(j.group)
    ensures Runs(j.manager, Seen(sys, j, es))
    ensures Exec(j.manager, Seen(sys, j, es)) == JointExec(sys, j, es).manager
    decreases |es|
  {
    if |es| > 0 {
      var next := JointApply(sys, j, es[0]);
      SeenIsARun(sys, next, es[1..]);
      var rest := Seen(sys, next, es[1..]);
      match es[0]
      case Group(e) =>
        if sys.live(next.group) < sys.live(j.group) {
          assert ([Return] + rest)[1..] == rest;
        } else {
          assert next.manager == j.manager;
        }
      case Manage(m) => assert ([m] + rest)[1..] == rest;
    }
  }

  /** A shutdown is waiting and counts the group. */
  predicate Waiting<S, E>(sys: System<S, E>, j: Joint<S>) {
    && j.manager.called && !j.manager.closed && j.manager.result == None
    && j.manager.running == sys.live(j.group)
  }

  ghost predicate CanSucceed<S(!new), E(!new)>(sys: System<S, E>, j: Joint<S>) {
    exists es :: JointRuns(sys, j, es) && JointExec(sys, j, es).manager.result == Some(Drained)
  }

  /** A shutdown that succeeds leaves nobody behind: everybody in the group has returned. */
  lemma {:induction false} SuccessMeansGone<S(!new), E(!new)>(sys: System<S, E>, j: Joint<S>, es: seq<JointEvent<E>>)
    requires ReturnOneByOne(sys) && JointRuns(sys, j, es) && j.manager.running == sys.live(j.group)
    requires j.manager.closed || j.manager.result == Some(Drained) ==> sys.live(j.group) == 0
    ensures var end := JointExec(sys, j, es);
            end.manager.closed || end.manager.result == Some(Drained) ==> sys.live(end.group) == 0
    decreases |es|
  {
    if |es| > 0 {
      SuccessMeansGone(sys, JointApply(sys, j, es[0]), es[1..]);
    }
  }

  /** `stuck` is kept by every step of the group, and in it some goroutine is alive. */
  ghost predicate Trap<S(!new), E(!new)>(sys: System<S, E>, stuck: S -> bool) {
    && (forall s :: stuck(s) ==> sys.live(s) > 0)
    && (forall s, e :: stuck(s) && sys.enabled(s, e) ==> stuck(sys.step(s, e)))
  }

  /** A shutdown never succeeds once the group is in a trap. */
  lemma {:induction false} TrapNeverSucceeds<S(!new), E(!new)>(sys: System<S, E>, stuck: S -> bool, j: Joint<S>,
                                                               es: seq<JointEvent<E>>)
    requires Trap(sys, stuck) && stuck(j.group) && JointRuns(sys, j, es)
    requires !j.manager.closed && j.manager.running == sys.live(j.group) && j.manager.result != Some(Drained)
    ensures JointExec(sys, j, es).manager.result != Some(Drained)
    decreases |es|
  {
    if |es| > 0 {
      TrapNeverSucceeds(sys, stuck, JointApply(sys, j, es[0]), es[1..]);
    }
  }

  lemma {:induction false} TrappedCannotSucceed<S(!new), E(!new)>(sys: System<S, E>, stuck: S -> bool, j: Joint<S>)
    requires Trap(sys, stuck) && stuck(j.group) && Waiting(sys, j)
    ensures !CanSucceed(sys, j)
  {
    forall es | JointRuns(sys, j, es)
      ensures JointExec(sys, j, es).manager.result != Some(Drained)
    {
      TrapNeverSucceeds(sys, stuck, j, es);
    }
  }

  lemma {:induction false} CanSucceedBefore<S(!new), E(!new)>(sys: System<S, E>, j: Joint<S>, e: JointEvent<E>)
    requires JointEnabled(sys, j, e) && CanSucceed(sys, JointApply(sys, j, e))
    ensures CanSucceed(sys, j)
  {
    var next := JointApply(sys, j, e);
    var es :| JointRuns(sys, next, es) && JointExec(sys, next, es).manager.result == Some(Drained);
    assert ([e] + es)[1..] == es;
    assert JointRuns(sys, j, [e] + es) && JointExec(sys, j, [e] + es) == JointExec(sys, next, es);
  }

  /** A waiting shutdown can succeed when nobody is alive. */
  lemma {:induction false} IdleCanSucceed<S(!new), E(!new)>(sys: System<S, E>, j: Joint<S>)
    requires Waiting(sys, j) && sys.live(j.group) == 0
    ensures CanSucceed(sys, j)
  {
    var j1 := JointApply(sys, j, Manage(WaitReturns));
    var j2 := JointApply(sys, j1, Manage(Choose(Drained)));
    assert JointRuns(sys, j2, []) && JointExec(sys, j2, []).manager.result == Some(Drained);
    CanSucceedBefore(sys, j1, Manage(Choose(Drained)));
    CanSucceedBefore(sys, j, Manage(WaitReturns));
  }

  // ----- An adapter's stream ------------------------------------------------------------------------

  function StreamLive(s: AdapterStream.State): nat {
    (if s.producer.ProducerDone? then 0 else 1) + (if s.writer.WriterDone? then 0 else 1)
    + (if s.reader.ReaderDone? then 0 else 1)
  }

  function StreamSystem(copied: bool): System<AdapterStream.State, AdapterStream.Event> {
    System((s, e) => AdapterStream.Enabled(s, e),
           (s, e) => if AdapterStream.Enabled(s, e) then AdapterStream.Apply(copied, s, e) else s,
           s => StreamLive(s))
  }

  /** A step of the stream is no return, or one return. */
  lemma {:induction false} StreamReturnsOneByOne(copied: bool)
    ensures ReturnOneByOne(StreamSystem(copied))
  {
    forall s, e | AdapterStream.Enabled(s, e)
      ensures StreamLive(s) - 1 <= StreamLive(AdapterStream.Apply(copied, s, e)) <= StreamLive(s)
    {}
  }

  /** Exactly when a shutdown that waits for a stream can still succeed, from every state of the two:
      no message is offered to a writer that has returned. */
  lemma {:induction false} StreamShutdownIff(copied: bool, j: Joint<AdapterStream.State>)
    requires Waiting(StreamSystem(copied), j)
    ensures CanSucceed(StreamSystem(copied), j) <==> !AdapterStream.Abandoned(j.group)
    decreases AdapterStream.StepsLeft(j.group)
  {
    var sys := StreamSystem(copied);
    if AdapterStream.Abandoned(j.group) {
      TrappedCannotSucceed(sys, s => AdapterStream.Abandoned(s), j);
    } else if AdapterStream.Drained(j.group) {
      IdleCanSucceed(sys, j);
    } else {
      var e := AdapterStream.TowardsDrained(j.group);
      AdapterStream.StepTowardsDrained(copied, j.group);
      StreamShutdownIff(copied, JointApply(sys, j, Group(e)));
      CanSucceedBefore(sys, j, Group(e));
    }
  }
}
