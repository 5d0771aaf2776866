/**
 Exactly when a server's shutdown can still see all goroutines of a hub return.

 What a reader or the client may still put into a channel is that channel's demand.  Without a
 writer the demands must fit into the channels as they are.  With a writer that keeps receiving,
 `msg` can always be emptied, but receiving a token may leave no adapter living, and then the
 writer returns after announcing it.
 */
module HubDrain {
  import opened Options
  import opened Hub
  import opened HubInvariants
  import HubTheorems
  import Drain

  // ----- Counting readers ------------------------------------------------------------------

  /** What is counted of a reader: that it has not returned, that it reports its failure, that it
      hands on a frame, that its next frame will have to be handed on, or the steps it has left. */
  datatype Measure = Alive | Reports | Sends | MustSend | Steps

  /** Every frame of reader `i` can be marshalled. */
  ghost predicate AlwaysSends(cfg: Config, i: nat) {
    i < |cfg.targets| && forall body :: Marshal(cfg, cfg.targets[i], body).Some?
  }

  ghost function Cost(cfg: Config, what: Measure, i: nat, pc: ReaderPc): nat {
    match what
    case Alive => if pc.Stopped? then 0 else 1
    case Reports => if pc.Reporting? then 1 else 0
    case Sends => if pc.Sending? then 1 else 0
    case MustSend => if pc.Reading? && AlwaysSends(cfg, i) then 1 else 0
    case Steps =>
      match pc
      case Stopped => 0
      case Polling => 1
      case Sending(_) => 4
      case Reporting => 6
      case Reading => 7
  }

  ghost function Total(cfg: Config, what: Measure, readers: seq<ReaderPc>): nat {
    if readers == [] then 0
    else
      var last := |readers| - 1;
      Total(cfg, what, readers[..last]) + Cost(cfg, what, last, readers[last])
  }

  lemma {:induction false} TotalUpdate(cfg: Config, what: Measure, readers: seq<ReaderPc>, i: nat, pc: ReaderPc)
    requires i < |readers|
    ensures Total(cfg, what, readers[i := pc]) ==
            Total(cfg, what, readers) - Cost(cfg, what, i, readers[i]) + Cost(cfg, what, i, pc)
    ensures Cost(cfg, what, i, readers[i]) <= Total(cfg, what, readers)
  {
    var last := |readers| - 1;
    if i == last {
      assert readers[i := pc][..last] == readers[..last];
    } else {
      TotalUpdate(cfg, what, readers[..last], i, pc);
      assert readers[i := pc][..last] == readers[..last][i := pc];
    }
  }

  lemma {:induction false} TotalsBounded(cfg: Config, readers: seq<ReaderPc>)
    ensures Total(cfg, Reports, readers) + Total(cfg, Sends, readers) + Total(cfg, MustSend, readers)
            <= Total(cfg, Alive, readers) <= |readers|
  {
    if readers != [] {
      TotalsBounded(cfg, readers[..|readers| - 1]);
    }
  }

  // ----- The hub as the manager sees it ----------------------------------------------------

  ghost function HubLive(cfg: Config, s: State): nat {
    Total(cfg, Alive, s.readers) + (if s.client.ClientStopped? then 0 else 1) + (if s.writer.Returned? then 0 else 1)
  }

  ghost function HubSystem(cfg: Config): Drain.System<State, Event> {
    Drain.System((s, e) => Enabled(cfg, s, e),
           (s, e) => if Enabled(cfg, s, e) then Apply(cfg, s, e) else s,
           s => HubLive(cfg, s))
  }

  /** The reader that an event moves. */
  function Moved(e: Event): Option<nat> {
    match e
    case ReaderPoll(i) => Some(i)
    case ReaderRead(i, _) => Some(i)
    case ReaderFail(i) => Some(i)
    case ReaderSend(i) => Some(i)
    case ReaderToken(i) => Some(i)
    case _ => None
  }

  lemma {:induction false} TotalStep(cfg: Config, what: Measure, s: State, e: Event)
    requires Enabled(cfg, s, e)
    ensures var s' := Apply(cfg, s, e);
            match Moved(e)
            case None => s'.readers == s.readers
            case Some(i) =>
              && i < |s.readers| == |s'.readers|
              && Total(cfg, what, s'.readers) ==
                 Total(cfg, what, s.readers) - Cost(cfg, what, i, s.readers[i]) + Cost(cfg, what, i, s'.readers[i])
              && Cost(cfg, what, i, s.readers[i]) <= Total(cfg, what, s.readers)
  {
    if Moved(e).Some? {
      var i := Moved(e).value;
      TotalUpdate(cfg, what, s.readers, i, Apply(cfg, s, e).readers[i]);
    }
  }

  lemma {:induction false} HubReturnsOneByOne(cfg: Config)
    ensures Drain.ReturnOneByOne(HubSystem(cfg))
  {
    forall s, e | Enabled(cfg, s, e)
      ensures HubLive(cfg, s) - 1 <= HubLive(cfg, Apply(cfg, s, e)) <= HubLive(cfg, s)
    {
      TotalStep(cfg, Alive, s, e);
    }
  }

  // ----- The condition ---------------------------------------------------------------------

  /** Tokens in `dead` and readers that have yet to put theirs there. */
  ghost function DeadDemand(cfg: Config, s: State): nat {
    |s.dead| + Total(cfg, Reports, s.readers)
  }

  /** Messages in `msg` and goroutines that have yet to put theirs there. */
  ghost function MsgDemand(cfg: Config, s: State): nat {
    |s.msg| + Total(cfg, Sends, s.readers) + (if s.client.ClientSending? then 1 else 0)
    + (if s.writer.Requeueing? then 1 else 0)
  }

  /** The writer has returned, or its next check makes it return. */
  predicate WriterEnds(s: State) {
    s.writer.Returned? || (s.living == {} && (s.writer.Checking? || s.writer.Requeueing?))
  }

  /** How many of the tokens the writer can receive, up to the one that makes it return. */
  function Receivable(cfg: Config, living: set<string>, dead: seq<Token>): nat {
    if dead == [] then 0
    else
      var left := living - {dead[0].host};
      1 + if left == {} && Notice(cfg, dead[0]).Some? then 0 else Receivable(cfg, left, dead[1..])
  }

  /** Both demands fit, and so does what readers now reading will put into one or the other. */
  ghost predicate FitsWithoutWriter(cfg: Config, s: State) {
    && DeadDemand(cfg, s) <= Capacity(cfg)
    && MsgDemand(cfg, s) <= Capacity(cfg)
    && DeadDemand(cfg, s) + MsgDemand(cfg, s) + Total(cfg, MustSend, s.readers) <= 2 * Capacity(cfg)
  }

  /** The writer can receive the tokens that do not fit, and is not blocked on its own channel. */
  ghost predicate FitsWithWriter(cfg: Config, s: State) {
    && DeadDemand(cfg, s) <= Capacity(cfg) + Receivable(cfg, s.living, s.dead)
    && (s.writer.Requeueing? ==> |s.msg| < Capacity(cfg))
  }

  ghost predicate Fits(cfg: Config, s: State) {
    if WriterEnds(s) then FitsWithoutWriter(cfg, s) else FitsWithWriter(cfg, s)
  }

  ghost predicate Sized(cfg: Config, s: State) {
    ValidConfig(cfg) && Shape(cfg, s)
  }

  lemma {:induction false} ReceivableSnoc(cfg: Config, living: set<string>, dead: seq<Token>, t: Token)
    ensures Receivable(cfg, living, dead) <= |dead|
    ensures var more := Receivable(cfg, living, dead + [t]);
            && Receivable(cfg, living, dead) <= more <= Receivable(cfg, living, dead) + 1
            && (Receivable(cfg, living, dead) < |dead| ==> more == Receivable(cfg, living, dead))
    decreases |dead|
  {
    if dead == [] {
      assert (dead + [t])[1..] == [];
    } else {
      assert (dead + [t])[1..] == dead[1..] + [t];
      ReceivableSnoc(cfg, living - {dead[0].host}, dead[1..], t);
    }
  }

  // ----- What does not fit never will ------------------------------------------------------

  /** Whoever moves but the writer, the demands do not fall. */
  lemma {:induction false} DemandsStay(cfg: Config, s: State, e: Event)
    requires Sized(cfg, s) && Enabled(cfg, s, e) && !WriterEvent(e)
    ensures var s' := Apply(cfg, s, e);
            && Sized(cfg, s') && s'.writer == s.writer && s'.living == s.living && |s'.msg| >= |s.msg|
            && DeadDemand(cfg, s') >= DeadDemand(cfg, s) && MsgDemand(cfg, s') >= MsgDemand(cfg, s)
            && DeadDemand(cfg, s') + MsgDemand(cfg, s') + Total(cfg, MustSend, s'.readers)
               >= DeadDemand(cfg, s) + MsgDemand(cfg, s) + Total(cfg, MustSend, s.readers)
  {
    TotalStep(cfg, Reports, s, e);
    TotalStep(cfg, Sends, s, e);
    TotalStep(cfg, MustSend, s, e);
  }

  lemma {:induction false} UnreceivableStays(cfg: Config, s: State, e: Event)
    requires Sized(cfg, s) && Enabled(cfg, s, e) && !WriterEvent(e)
    requires DeadDemand(cfg, s) > Capacity(cfg) + Receivable(cfg, s.living, s.dead)
    ensures var s' := Apply(cfg, s, e); DeadDemand(cfg, s') > Capacity(cfg) + Receivable(cfg, s'.living, s'.dead)
  {
    DemandsStay(cfg, s, e);
    TotalsBounded(cfg, s.readers);
    match e
    case ReaderToken(i) => ReceivableSnoc(cfg, s.living, s.dead, Token(cfg.targets[i], ReadFailed(i)));
    case PingToken(k) => ReceivableSnoc(cfg, s.living, s.dead, Token(s.pingers[k].host, PingFailed));
    case _ =>
  }

  lemma {:induction false} UnfitStep(cfg: Config, s: State, e: Event)
    requires Sized(cfg, s) && !Fits(cfg, s) && Enabled(cfg, s, e)
    ensures Sized(cfg, Apply(cfg, s, e)) && !Fits(cfg, Apply(cfg, s, e))
  {
    if WriterEvent(e) {
      assert Apply(cfg, s, e).readers == s.readers;
    } else {
      DemandsStay(cfg, s, e);
      if DeadDemand(cfg, s) > Capacity(cfg) + Receivable(cfg, s.living, s.dead) {
        UnreceivableStays(cfg, s, e);
      }
    }
  }

  // ----- What fits can drain ---------------------------------------------------------------

  /** How many steps towards the end are left, at most. */
  ghost function StepsLeft(cfg: Config, s: State): nat {
    (if s.shutdown then 0 else 1) + Total(cfg, Steps, s.readers) + 2 * |s.msg| + 5 * |s.dead|
    + (match s.client case ClientStopped => 0 case ClientPolling => 1 case ClientReading => 1 case ClientSending => 4)
    + (match s.writer case Returned(_) => 0 case Selecting => 1 case Checking => 2 case Writing(_) => 2
                      case Requeueing(_) => 5)
  }

  /** A step towards the end, after which everything still fits. */
  ghost predicate Advances(cfg: Config, s: State, e: Event) {
    && Enabled(cfg, s, e) && Sized(cfg, Apply(cfg, s, e)) && Fits(cfg, Apply(cfg, s, e))
    && StepsLeft(cfg, Apply(cfg, s, e)) < StepsLeft(cfg, s)
  }

  ghost predicate CanAdvance(cfg: Config, s: State) {
    exists e :: Advances(cfg, s, e)
  }

  lemma {:induction false} WriterAdvances(cfg: Config, s: State, e: Event)
    requires Sized(cfg, s) && Fits(cfg, s) && Enabled(cfg, s, e)
    requires e == WriterWrite(false) || e == WriterCheck || e == WriterRequeue || e == WriterDequeue
    ensures CanAdvance(cfg, s)
  {
    var s' := Apply(cfg, s, e);
    assert s'.readers == s.readers && s'.dead == s.dead && s'.living == s.living;
    assert StepsLeft(cfg, s') < StepsLeft(cfg, s);
    assert Sized(cfg, s') && Fits(cfg, s');
    assert Advances(cfg, s, e);
  }

  lemma {:induction false} ClientAdvances(cfg: Config, s: State)
    requires Sized(cfg, s) && Fits(cfg, s) && s.shutdown && !s.client.ClientStopped?
    requires s.writer.Returned? || (s.writer.Selecting? && s.msg == [])
    ensures CanAdvance(cfg, s)
  {
    var e := match s.client
      case ClientPolling => ClientPoll
      case ClientReading => ClientFail
      case _ => ClientSend;
    assert Apply(cfg, s, e).readers == s.readers;
    assert Advances(cfg, s, e);
  }

  /** A frame that keeps the reader from having to send, if there is one. */
  ghost function SomeFrame(cfg: Config, i: nat): (frame: Frame)
    requires i < |cfg.targets|
    ensures AlwaysSends(cfg, i) || Envelope(cfg, i, frame) == None
  {
    if AlwaysSends(cfg, i) then Frame(Text, "")
    else
      var body :| Marshal(cfg, cfg.targets[i], body).None?;
      Frame(Text, body)
  }

  lemma {:induction false} PollAdvances(cfg: Config, s: State, i: nat)
    requires Sized(cfg, s) && Fits(cfg, s) && s.shutdown && i < |s.readers| && s.readers[i].Polling?
    ensures CanAdvance(cfg, s)
  {
    var e := ReaderPoll(i);
    forall what
      ensures Total(cfg, what, Apply(cfg, s, e).readers) <= Total(cfg, what, s.readers)
    {
      TotalStep(cfg, what, s, e);
    }
    TotalStep(cfg, Steps, s, e);
    assert Advances(cfg, s, e);
  }

  lemma {:induction false} SendAdvances(cfg: Config, s: State, i: nat)
    requires Sized(cfg, s) && Fits(cfg, s) && i < |s.readers| && s.readers[i].Sending?
    requires |s.msg| < Capacity(cfg) && !s.writer.Requeueing?
    ensures CanAdvance(cfg, s)
  {
    var e := ReaderSend(i);
    TotalStep(cfg, Reports, s, e);
    TotalStep(cfg, Sends, s, e);
    TotalStep(cfg, MustSend, s, e);
    TotalStep(cfg, Steps, s, e);
    assert Advances(cfg, s, e);
  }

  lemma {:induction false} ReportAdvances(cfg: Config, s: State, i: nat)
    requires Sized(cfg, s) && Fits(cfg, s)
    requires i < |s.readers| && s.readers[i].Reporting? && |s.dead| < Capacity(cfg)
    ensures CanAdvance(cfg, s)
  {
    var e := ReaderToken(i);
    TotalStep(cfg, Reports, s, e);
    TotalStep(cfg, Sends, s, e);
    TotalStep(cfg, MustSend, s, e);
    TotalStep(cfg, Steps, s, e);
    ReceivableSnoc(cfg, s.living, s.dead, Token(cfg.targets[i], ReadFailed(i)));
    assert Advances(cfg, s, e);
  }

  /** A reader that is to read may read a frame that cannot be marshalled, or one that can if that
      fits or the writer receives. */
  lemma {:induction false} ReadAdvances(cfg: Config, s: State, i: nat)
    requires Sized(cfg, s) && Fits(cfg, s) && i < |s.readers| && s.readers[i].Reading?
    requires s.writer.Selecting? || (s.writer.Returned? && (AlwaysSends(cfg, i) ==> MsgDemand(cfg, s) < Capacity(cfg)))
    ensures CanAdvance(cfg, s)
  {
    var e := ReaderRead(i, SomeFrame(cfg, i));
    TotalStep(cfg, Reports, s, e);
    TotalStep(cfg, Sends, s, e);
    TotalStep(cfg, MustSend, s, e);
    TotalStep(cfg, Steps, s, e);
    assert Advances(cfg, s, e);
  }

  /** With the writer gone, it may also fail if there is room for its report. */
  lemma {:induction false} FailAdvances(cfg: Config, s: State, i: nat)
    requires Sized(cfg, s) && Fits(cfg, s) && s.writer.Returned? && i < |s.readers| && s.readers[i].Reading?
    requires AlwaysSends(cfg, i) && DeadDemand(cfg, s) < Capacity(cfg)
    ensures CanAdvance(cfg, s)
  {
    var e := ReaderFail(i);
    TotalStep(cfg, Reports, s, e);
    TotalStep(cfg, Sends, s, e);
    TotalStep(cfg, MustSend, s, e);
    TotalStep(cfg, Steps, s, e);
    assert Advances(cfg, s, e);
  }

  lemma {:induction false} ReaderAdvances(cfg: Config, s: State, i: nat)
    requires Sized(cfg, s) && Fits(cfg, s) && s.shutdown && i < |s.readers| && !s.readers[i].Stopped?
    requires s.writer.Returned? || (s.writer.Selecting? && s.msg == [] && !s.readers[i].Reporting?)
    ensures CanAdvance(cfg, s)
  {
    forall what
      ensures Cost(cfg, what, i, s.readers[i]) <= Total(cfg, what, s.readers)
    {
      TotalUpdate(cfg, what, s.readers, i, s.readers[i]);
    }
    match s.readers[i]
    case Polling => PollAdvances(cfg, s, i);
    case Sending(_) => SendAdvances(cfg, s, i);
    case Reporting => ReportAdvances(cfg, s, i);
    case Reading =>
      if s.writer.Returned? && AlwaysSends(cfg, i) && DeadDemand(cfg, s) < Capacity(cfg) {
        FailAdvances(cfg, s, i);
      } else {
        assert Cost(cfg, MustSend, i, s.readers[i]) <= Total(cfg, MustSend, s.readers);
        ReadAdvances(cfg, s, i);
      }
  }

  lemma {:induction false} OnlyReports(cfg: Config, readers: seq<ReaderPc>)
    requires forall i :: 0 <= i < |readers| ==> readers[i].Stopped? || readers[i].Reporting?
    ensures Total(cfg, Sends, readers) == Total(cfg, MustSend, readers) == 0
  {
    if readers != [] {
      OnlyReports(cfg, readers[..|readers| - 1]);
    }
  }

  lemma {:induction false} AllStopped(cfg: Config, readers: seq<ReaderPc>)
    requires forall i :: 0 <= i < |readers| ==> readers[i].Stopped?
    ensures Total(cfg, Alive, readers) == 0
  {
    if readers != [] {
      AllStopped(cfg, readers[..|readers| - 1]);
    }
  }

  /** With only reports left, the writer makes room for them, or for the last of them. */
  lemma {:induction false} TokenAdvances(cfg: Config, s: State, i: nat)
    requires Sized(cfg, s) && Fits(cfg, s) && s.client.ClientStopped? && s.writer.Selecting? && s.msg == []
    requires i < |s.readers| && s.readers[i].Reporting? && |s.dead| == Capacity(cfg)
    requires forall k :: 0 <= k < |s.readers| ==> s.readers[k].Stopped? || s.readers[k].Reporting?
    ensures CanAdvance(cfg, s)
  {
    OnlyReports(cfg, s.readers);
    TotalUpdate(cfg, Reports, s.readers, i, s.readers[i]);
    assert Apply(cfg, s, WriterToken).readers == s.readers;
    assert Advances(cfg, s, WriterToken);
  }

  lemma {:induction false} LastAdvances(cfg: Config, s: State)
    requires Sized(cfg, s) && s.shutdown && s.client.ClientStopped? && s.writer.Selecting? && s.msg == []
    requires forall i :: 0 <= i < |s.readers| ==> s.readers[i].Stopped?
    ensures CanAdvance(cfg, s)
  {
    AllStopped(cfg, s.readers);
    TotalsBounded(cfg, s.readers);
    assert Apply(cfg, s, WriterShutdown).readers == s.readers;
    assert Advances(cfg, s, WriterShutdown);
  }

  /** Unless everybody has returned, somebody can make a step towards it. */
  lemma {:induction false} FitAdvances(cfg: Config, s: State)
    requires Sized(cfg, s) && Fits(cfg, s) && HubLive(cfg, s) > 0
    ensures CanAdvance(cfg, s)
  {
    if !s.shutdown {
      assert Advances(cfg, s, Shutdown);
    } else if s.writer.Writing? {
      WriterAdvances(cfg, s, WriterWrite(false));
    } else if s.writer.Checking? {
      WriterAdvances(cfg, s, WriterCheck);
    } else if s.writer.Requeueing? {
      WriterAdvances(cfg, s, WriterRequeue);
    } else if s.writer.Selecting? && s.msg != [] {
      WriterAdvances(cfg, s, WriterDequeue);
    } else if !s.client.ClientStopped? {
      ClientAdvances(cfg, s);
    } else if i: nat :| i < |s.readers| && !s.readers[i].Stopped? && (s.writer.Returned? || !s.readers[i].Reporting?) {
      ReaderAdvances(cfg, s, i);
    } else if i: nat :| i < |s.readers| && s.readers[i].Reporting? {
      if |s.dead| < Capacity(cfg) {
        ReportAdvances(cfg, s, i);
      } else {
        TokenAdvances(cfg, s, i);
      }
    } else {
      if s.writer.Returned? {
        AllStopped(cfg, s.readers);
      }
      LastAdvances(cfg, s);
    }
  }

  lemma {:induction false} FitCanSucceed(cfg: Config, j: Drain.Joint<State>)
    requires Sized(cfg, j.group) && Fits(cfg, j.group) && Drain.Waiting(HubSystem(cfg), j)
    ensures Drain.CanSucceed(HubSystem(cfg), j)
    decreases StepsLeft(cfg, j.group)
  {
    var sys := HubSystem(cfg);
    if HubLive(cfg, j.group) == 0 {
      Drain.IdleCanSucceed(sys, j);
    } else {
      FitAdvances(cfg, j.group);
      var e :| Advances(cfg, j.group, e);
      FitCanSucceed(cfg, Drain.JointApply(sys, j, Drain.Group(e)));
      Drain.CanSucceedBefore(sys, j, Drain.Group(e));
    }
  }

  // ----- The shutdown of a hub -------------------------------------------------------------

  ghost predicate Unfit(cfg: Config, s: State) {
    Sized(cfg, s) && !Fits(cfg, s)
  }

  lemma {:induction false} UnfitIsTrap(cfg: Config)
    ensures Drain.Trap(HubSystem(cfg), s => Unfit(cfg, s))
  {
    forall s | Unfit(cfg, s)
      ensures HubLive(cfg, s) > 0
    {
      TotalsBounded(cfg, s.readers);
    }
    forall s, e | Unfit(cfg, s) && Enabled(cfg, s, e)
      ensures Unfit(cfg, Apply(cfg, s, e))
    {
      UnfitStep(cfg, s, e);
    }
  }

  /** From every state of a hub, whatever its goroutines are doing: exactly when a waiting shutdown
      can still succeed. */
  lemma {:induction false} HubShutdownIff(cfg: Config, es: seq<Event>, j: Drain.Joint<State>)
    requires HubTheorems.Reaches(cfg, es, j.group) && Drain.Waiting(HubSystem(cfg), j)
    ensures Drain.CanSucceed(HubSystem(cfg), j) <==> Fits(cfg, j.group)
  {
    HubTheorems.ReachesInv(cfg, es, j.group);
    if Fits(cfg, j.group) {
      FitCanSucceed(cfg, j);
    } else {
      UnfitIsTrap(cfg);
      Drain.TrappedCannotSucceed(HubSystem(cfg), s => Unfit(cfg, s), j);
    }
  }

  /** No goroutine alone is stuck. */
  ghost predicate NobodyStuck(cfg: Config, s: State) {
    && s.writer.Returned? && !s.client.ClientSending?
    && forall i: nat :: i < |s.readers| ==>
         !s.readers[i].Sending? && !(s.readers[i].Reporting? && HubTheorems.StaysForEver(cfg, s, HubTheorems.IsReporting(i)))
  }

  ghost predicate JointShortage(cfg: Config, es: seq<Event>, s: State) {
    HubTheorems.Reaches(cfg, es, s) && NobodyStuck(cfg, s) && !Fits(cfg, s)
  }

  /** One place is left in `dead`, two readers report and the writer has returned. */
  predicate TwoForOnePlace(cfg: Config, s: State) {
    && s.writer.Returned? && !s.client.ClientSending? && |s.dead| == Capacity(cfg) - 1
    && |s.readers| >= 2 && s.readers[0].Reporting? && s.readers[1].Reporting?
    && forall i :: 0 <= i < |s.readers| ==> !s.readers[i].Sending?
  }

  lemma {:induction false} TwoForOnePlaceReached(cfg: Config) returns (es: seq<Event>, s: State)
    requires |cfg.targets| >= 2
    ensures HubTheorems.Reaches(cfg, es, s) && TwoForOnePlace(cfg, s)
  {
    HubTheorems.FillDead(cfg, Capacity(cfg) - 1);
    es, s :| HubTheorems.DeadFilled(cfg, es, s, Capacity(cfg) - 1);
    es, s := HubTheorems.Step(cfg, es, s, ReaderPoll(0));
    es, s := HubTheorems.Step(cfg, es, s, ReaderFail(0));
    es, s := HubTheorems.Step(cfg, es, s, ReaderPoll(1));
    es, s := HubTheorems.Step(cfg, es, s, ReaderFail(1));
    es, s := HubTheorems.Step(cfg, es, s, Shutdown);
    es, s := HubTheorems.Step(cfg, es, s, WriterShutdown);
  }

  /** More than nobody being stuck is needed: with two targets or more some run ends with room for one
      report and two readers to report, and neither of them is stuck alone. */
  lemma {:induction false} ShortageCanBeJoint(cfg: Config)
    requires |cfg.targets| >= 2
    ensures exists es, s :: JointShortage(cfg, es, s)
  {
    var es, s := TwoForOnePlaceReached(cfg);
    forall i: nat | i < |s.readers| && s.readers[i].Reporting?
      ensures !HubTheorems.StaysForEver(cfg, s, HubTheorems.IsReporting(i))
    {
      HubTheorems.ReportStuckIff(cfg, es, s, i);
    }
    TwoReport(cfg, s.readers);
    assert JointShortage(cfg, es, s);
  }

  lemma {:induction false} TwoReport(cfg: Config, readers: seq<ReaderPc>)
    requires |readers| >= 2 && readers[0].Reporting? && readers[1].Reporting?
    ensures Total(cfg, Reports, readers) >= 2
  {
    TotalUpdate(cfg, Reports, readers, 0, Stopped);
    TotalUpdate(cfg, Reports, readers[0 := Stopped], 1, Stopped);
  }

  /** So it fails once the writer is blocked on its own channel, */
  lemma {:induction false} BlockedHubShutdownFails(cfg: Config, es: seq<Event>, j: Drain.Joint<State>)
    requires HubTheorems.Reaches(cfg, es, j.group) && HubTheorems.WriterBlocked(cfg, j.group)
    requires Drain.Waiting(HubSystem(cfg), j)
    ensures !Drain.CanSucceed(HubSystem(cfg), j)
  {
    HubTheorems.BlockedIffSelfSendOnFull(cfg, es, j.group);
    HubShutdownIff(cfg, es, j);
  }

  /** once a reader is left reporting to a full channel that nobody receives from, */
  lemma {:induction false} StuckReportShutdownFails(cfg: Config, es: seq<Event>, j: Drain.Joint<State>, i: nat)
    requires HubTheorems.Reaches(cfg, es, j.group) && HubTheorems.Reporting(j.group, i)
    requires HubTheorems.DeadAbandoned(cfg, j.group) && Drain.Waiting(HubSystem(cfg), j)
    ensures !Drain.CanSucceed(HubSystem(cfg), j)
  {
    TotalUpdate(cfg, Reports, j.group.readers, i, Stopped);
    HubShutdownIff(cfg, es, j);
  }

  /** or once a reader, or the client with its pong, is left sending to such a channel. */
  ghost predicate SendStuck(cfg: Config, s: State, i: nat) {
    HubTheorems.MsgAbandoned(cfg, s) && (HubTheorems.Sending(s, i) || s.client.ClientSending?)
  }

  lemma {:induction false} StuckSenderShutdownFails(cfg: Config, j: Drain.Joint<State>, i: nat)
    requires SendStuck(cfg, j.group, i) && Drain.Waiting(HubSystem(cfg), j)
    ensures !Drain.CanSucceed(HubSystem(cfg), j)
  {
    var sys := HubSystem(cfg);
    forall s | SendStuck(cfg, s, i)
      ensures HubLive(cfg, s) > 0
    {
      if i < |s.readers| {
        TotalUpdate(cfg, Alive, s.readers, i, Stopped);
      }
    }
    forall s, e | SendStuck(cfg, s, i) && Enabled(cfg, s, e)
      ensures SendStuck(cfg, Apply(cfg, s, e), i)
    {
      HubTheorems.SendersStay(cfg, s, e, i);
    }
    Drain.TrappedCannotSucceed(sys, s => SendStuck(cfg, s, i), j);
  }
}
