/**
 What a run of the hub says about why its goroutines stop, how often they still read, which pings
 are sent and how often one is reported.
 */
module HubCauses {
  import opened Options
  import opened Hub
  import opened HubInvariants
  import opened HubTheorems

  // ----- What happened is what the state says ----------------------------------------------

  /** The frames that reader `i` reads in the run. */
  function FramesRead(es: seq<Event>, i: nat): seq<Frame> {
    if es == [] then []
    else (if es[0].ReaderRead? && es[0].i == i then [es[0].frame] else []) + FramesRead(es[1..], i)
  }

  /** How many literal text pings the client sends in the run. */
  function ClientPings(es: seq<Event>): nat {
    if es == [] then 0 else (if es[0] == ClientRead(Frame(Text, "ping")) then 1 else 0) + ClientPings(es[1..])
  }

  lemma {:induction false} StepSays(cfg: Config, s: State, e: Event)
    requires Enabled(cfg, s, e)
    ensures var s' := Apply(cfg, s, e);
            && (s'.shutdown <==> s.shutdown || e == Shutdown)
            && (s'.clientDead <==> s.clientDead || e == ClientFail || e == WriterWrite(false))
            && (forall i :: i in s'.readFailed <==> i in s.readFailed || e == ReaderFail(i))
            && s'.pings == s.pings + if e == ClientRead(Frame(Text, "ping")) then 1 else 0
  {}

  /** In every run: the client is given up exactly after a failed read from it or a failed write to it,
      a reader has failed exactly after a failed read, the shutdown is seen exactly after it, and the
      pings counted are the literal text pings the client sent. */
  lemma {:induction false} RunSays(cfg: Config, s: State, es: seq<Event>)
    requires Runs(cfg, s, es)
    ensures var s' := Exec(cfg, s, es);
            && (s'.shutdown <==> s.shutdown || Shutdown in es)
            && (s'.clientDead <==> s.clientDead || ClientFail in es || WriterWrite(false) in es)
            && (forall i :: i in s'.readFailed <==> i in s.readFailed || ReaderFail(i) in es)
            && s'.pings == s.pings + ClientPings(es)
    decreases |es|
  {
    if |es| > 0 {
      StepSays(cfg, s, es[0]);
      RunSays(cfg, Apply(cfg, s, es[0]), es[1..]);
      assert forall e :: e in es <==> e == es[0] || e in es[1..];
    }
  }

  lemma {:induction false} ReadsStep(cfg: Config, s: State, e: Event, i: nat)
    requires Enabled(cfg, s, e) && i < |s.read|
    ensures var s' := Apply(cfg, s, e);
            && |s'.read| == |s.read|
            && s'.read[i] == s.read[i] + if e.ReaderRead? && e.i == i then [e.frame] else []
  {}

  /** What a reader is recorded to have read are the frames it read, in order. */
  lemma {:induction false} ReadsAreKept(cfg: Config, s: State, es: seq<Event>, i: nat)
    requires Runs(cfg, s, es) && i < |s.read|
    ensures |Exec(cfg, s, es).read| == |s.read| && Exec(cfg, s, es).read[i] == s.read[i] + FramesRead(es, i)
    decreases |es|
  {
    if |es| > 0 {
      ReadsStep(cfg, s, es[0], i);
      ReadsAreKept(cfg, Apply(cfg, s, es[0]), es[1..], i);
    }
  }

  // ----- Why somebody stopped ----------------------------------------------------------------

  /** Reader `i` is reporting its failure, or its token has been sent. */
  predicate Told(cfg: Config, s: State, i: nat) {
    && i < |s.readers| && i < |cfg.targets|
    && (s.readers[i].Reporting? || Token(cfg.targets[i], ReadFailed(i)) in s.tokens + s.dead)
  }

  /** Why the client reader and the writer have stopped. */
  predicate ClientCauses(s: State) {
    && (s.client.ClientStopped? ==> s.shutdown || s.clientDead)
    && (s.writeFailures > 0 ==> s.clientDead)
    && (s.clientDead ==> s.writeFailures > 0 || s.client.ClientStopped?)
    && (s.writer == Returned(ServerShutdown) ==> s.shutdown)
    && (s.writer == Returned(ClientGone) ==> s.clientDead)
    && (s.writer == Returned(NoAdapters) ==> s.living == {})
  }

  /** Why readers have stopped, and that none has failed quietly. */
  ghost predicate ReaderCauses(cfg: Config, s: State) {
    && (forall i :: 0 <= i < |s.readers| && s.readers[i].Stopped? ==> s.shutdown || i in s.readFailed)
    && (forall i :: 0 <= i < |s.readers| && s.readers[i].Reporting? ==> i in s.readFailed)
    && (forall i :: i in s.readFailed ==> Told(cfg, s, i))
  }

  lemma {:induction false} ToldStep(cfg: Config, s: State, e: Event, i: nat)
    requires Enabled(cfg, s, e) && |s.readers| == |cfg.targets|
    requires Told(cfg, s, i) || e == ReaderFail(i)
    ensures Told(cfg, Apply(cfg, s, e), i)
  {
    if e.WriterToken? {
      assert s.dead == [s.dead[0]] + s.dead[1..];
    }
  }

  lemma {:induction false} ClientCausesStep(cfg: Config, s: State, e: Event)
    requires ClientCauses(s) && Enabled(cfg, s, e)
    ensures ClientCauses(Apply(cfg, s, e))
  {}

  lemma {:induction false} StoppedStep(cfg: Config, s: State, e: Event, i: nat)
    requires Enabled(cfg, s, e) && i < |s.readers|
    requires s.readers[i].Stopped? ==> s.shutdown || i in s.readFailed
    requires s.readers[i].Reporting? ==> i in s.readFailed
    ensures var s' := Apply(cfg, s, e);
            && |s'.readers| == |s.readers|
            && (s'.readers[i].Stopped? ==> s'.shutdown || i in s'.readFailed)
            && (s'.readers[i].Reporting? ==> i in s'.readFailed)
  {}

  lemma {:induction false} ReaderCausesStep(cfg: Config, s: State, e: Event)
    requires ReaderCauses(cfg, s) && |s.readers| == |cfg.targets| && Enabled(cfg, s, e)
    ensures ReaderCauses(cfg, Apply(cfg, s, e))
  {
    var s' := Apply(cfg, s, e);
    StepSays(cfg, s, e);
    forall i: nat | i < |s.readers|
      ensures |s'.readers| == |s.readers|
      ensures s'.readers[i].Stopped? ==> s'.shutdown || i in s'.readFailed
      ensures s'.readers[i].Reporting? ==> i in s'.readFailed
    {
      StoppedStep(cfg, s, e, i);
    }
    forall i | i in s'.readFailed
      ensures Told(cfg, s', i)
    {
      ToldStep(cfg, s, e, i);
    }
  }

  lemma {:induction false} CausesRun(cfg: Config, s: State, es: seq<Event>)
    requires ClientCauses(s) && ReaderCauses(cfg, s) && Shape(cfg, s) && Runs(cfg, s, es)
    ensures ClientCauses(Exec(cfg, s, es)) && ReaderCauses(cfg, Exec(cfg, s, es))
    decreases |es|
  {
    if |es| > 0 {
      ClientCausesStep(cfg, s, es[0]);
      ReaderCausesStep(cfg, s, es[0]);
      ShapeStep(cfg, s, es[0]);
      CausesRun(cfg, Apply(cfg, s, es[0]), es[1..]);
    }
  }

  /** In every reachable state: the client reader stops only on shutdown or when the client is given
      up, which takes a failed write or a failed read and follows from either; the writer returns only
      for its reason; a reader stops only on shutdown or after its own failure, and no failure is kept
      quiet: the reader is reporting it or has sent its token. */
  lemma {:induction false} NobodyStopsWithoutCause(cfg: Config, es: seq<Event>, s: State)
    requires Reaches(cfg, es, s)
    ensures ClientCauses(s) && ReaderCauses(cfg, s)
  {
    InvInit(cfg);
    CausesRun(cfg, Init(cfg), es);
  }

  // ----- How often a stopped goroutine still reads ----------------------------------------------

  function ReadsOf(es: seq<Event>, i: nat): nat {
    if es == [] then 0
    else (if (es[0].ReaderRead? && es[0].i == i) || es[0] == ReaderFail(i) then 1 else 0) + ReadsOf(es[1..], i)
  }

  function ClientReads(es: seq<Event>): nat {
    if es == [] then 0 else (if es[0].ClientRead? || es[0].ClientFail? then 1 else 0) + ClientReads(es[1..])
  }

  /** Once the server shuts down, a reader finishes at most the read it is in; so does the client
      reader, which also stops once the client is given up. */
  lemma {:induction false} ReadsEnd(cfg: Config, s: State, es: seq<Event>, i: nat)
    requires Runs(cfg, s, es)
    ensures s.shutdown ==> ReadsOf(es, i) <= if i < |s.readers| && s.readers[i].Reading? then 1 else 0
    ensures s.shutdown || s.clientDead ==> ClientReads(es) <= if s.client.ClientReading? then 1 else 0
    decreases |es|
  {
    if |es| > 0 {
      ReadsEnd(cfg, Apply(cfg, s, es[0]), es[1..], i);
    }
  }

  // ----- Pings and pongs ---------------------------------------------------------------------------

  /** What the hub says itself, word for word. */
  predicate Literal(cfg: Config, m: Message) {
    match m.origin
    case FromAdapter(_) => true
    case FromClient => m.kind == Text && m.text == "pong"
    case Closed(t) => m.kind == Text && Marshal(cfg, t.host, "websocket closed") == Some(m.text)
  }

  ghost predicate AllLiteral(cfg: Config, s: State) {
    && (forall p :: 0 <= p < |Queue(s)| ==> Literal(cfg, Queue(s)[p]))
    && (s.writer.Requeueing? ==> Literal(cfg, s.writer.m))
  }

  lemma {:induction false} LiteralStep(cfg: Config, s: State, e: Event)
    requires AllLiteral(cfg, s) && Tagged(cfg, s) && Enabled(cfg, s, e)
    ensures AllLiteral(cfg, Apply(cfg, s, e))
  {
    QueueStep(cfg, s, e);
  }

  lemma {:induction false} LiteralRun(cfg: Config, s: State, es: seq<Event>)
    requires AllLiteral(cfg, s) && Tagged(cfg, s) && Runs(cfg, s, es)
    ensures AllLiteral(cfg, Exec(cfg, s, es))
    decreases |es|
  {
    if |es| > 0 {
      LiteralStep(cfg, s, es[0]);
      TaggedStep(cfg, s, es[0]);
      LiteralRun(cfg, Apply(cfg, s, es[0]), es[1..]);
    }
  }

  /** Each literal text ping of the client is answered by one message, the text `pong`, and nothing else
      it sends is; and every notice is the marshalled text that its host's websocket closed. */
  lemma {:induction false} LiteralPingsGetLiteralPongs(cfg: Config, es: seq<Event>, s: State)
    requires Reaches(cfg, es, s)
    ensures Pongs(Queue(s)) + (if s.client.ClientSending? then 1 else 0) == ClientPings(es)
    ensures AllLiteral(cfg, s)
  {
    PingsAnsweredOnce(cfg, es, s);
    InvInit(cfg);
    RunSays(cfg, Init(cfg), es);
    LiteralRun(cfg, Init(cfg), es);
  }

  // ----- Background pings -----------------------------------------------------------------------------

  /** A tick starts one ping for each living adapter and none else. */
  lemma {:induction false} TickPingsTheLiving(cfg: Config, s: State, order: seq<string>)
    requires Enabled(cfg, s, WriterTick(order))
    ensures var s' := Apply(cfg, s, WriterTick(order));
            && s.pingers <= s'.pingers
            && (forall h :: h in s.living <==> Pinging(h) in s'.pingers[|s.pingers|..])
            && (forall k :: |s.pingers| <= k < |s'.pingers| ==> s'.pingers[k].Pinging?)
            && (forall j, k :: |s.pingers| <= j < k < |s'.pingers| ==> s'.pingers[j] != s'.pingers[k])
  {
    var s' := Apply(cfg, s, WriterTick(order));
    var added := s'.pingers[|s.pingers|..];
    assert added == Spawned(order);
    forall h
      ensures h in s.living <==> Pinging(h) in added
    {
      assert h in s.living <==> h in (set x | x in order);
      if h in order {
        var k :| 0 <= k < |order| && order[k] == h;
        assert added[k] == Pinging(h);
      }
    }
    assert forall k :: |s.pingers| <= k < |s'.pingers| ==> s'.pingers[k] == Pinging(order[k - |s.pingers|]);
  }

  function PingTokens(ts: seq<Token>): nat {
    if ts == [] then 0 else (if ts[0].cause.PingFailed? then 1 else 0) + PingTokens(ts[1..])
  }

  lemma {:induction false} PingTokensConcat(a: seq<Token>, b: seq<Token>)
    ensures PingTokens(a + b) == PingTokens(a) + PingTokens(b)
    decreases |a|
  {
    if a == [] {
      assert a + b == b;
    } else {
      assert (a + b)[1..] == a[1..] + b;
      PingTokensConcat(a[1..], b);
    }
  }

  /** Pings that have not yet succeeded or been reported. */
  function Unfinished(ps: seq<PingPc>): nat {
    if ps == [] then 0 else (if ps[0].PingDone? then 0 else 1) + Unfinished(ps[1..])
  }

  lemma {:induction false} UnfinishedUpdate(ps: seq<PingPc>, k: nat, pc: PingPc)
    requires k < |ps|
    ensures Unfinished(ps[k := pc]) ==
            Unfinished(ps) - (if ps[k].PingDone? then 0 else 1) + (if pc.PingDone? then 0 else 1)
    decreases |ps|
  {
    if k > 0 {
      assert ps[k := pc][1..] == ps[1..][k - 1 := pc];
      UnfinishedUpdate(ps[1..], k - 1, pc);
    } else {
      assert ps[k := pc][1..] == ps[1..];
    }
  }

  lemma {:induction false} UnfinishedConcat(a: seq<PingPc>, b: seq<PingPc>)
    ensures Unfinished(a + b) <= Unfinished(a) + |b|
    decreases |a| + |b|
  {
    if a == [] {
      assert a + b == b;
      if b != [] {
        UnfinishedConcat(a, b[1..]);
        assert a + b[1..] == b[1..];
      }
    } else {
      assert (a + b)[1..] == a[1..] + b;
      UnfinishedConcat(a[1..], b);
    }
  }

  ghost predicate ReportedOnce(s: State) {
    PingTokens(s.tokens + s.dead) + Unfinished(s.pingers) <= |s.pingers|
  }

  lemma {:induction false} ReportedOnceStep(cfg: Config, s: State, e: Event)
    requires ReportedOnce(s) && Enabled(cfg, s, e)
    ensures ReportedOnce(Apply(cfg, s, e))
  {
    var s' := Apply(cfg, s, e);
    match e
    case WriterTick(order) => UnfinishedConcat(s.pingers, Spawned(order));
    case WriterToken => assert s'.tokens + s'.dead == s.tokens + s.dead;
    case ReaderToken(i) =>
      assert s'.tokens + s'.dead == (s.tokens + s.dead) + [s'.dead[|s.dead|]];
      PingTokensConcat(s.tokens + s.dead, [s'.dead[|s.dead|]]);
    case PingResult(k, ok) => UnfinishedUpdate(s.pingers, k, s'.pingers[k]);
    case PingToken(k) =>
      assert s'.tokens + s'.dead == (s.tokens + s.dead) + [s'.dead[|s.dead|]];
      PingTokensConcat(s.tokens + s.dead, [s'.dead[|s.dead|]]);
      UnfinishedUpdate(s.pingers, k, PingDone);
    case _ => assert s'.tokens + s'.dead == s.tokens + s.dead;
  }

  /** Over every run: no ping is reported twice, and one that has not finished has not been reported. */
  lemma {:induction false} PingsReportedOnce(cfg: Config, s: State, es: seq<Event>)
    requires ReportedOnce(s) && Runs(cfg, s, es)
    ensures ReportedOnce(Exec(cfg, s, es))
    decreases |es|
  {
    if |es| > 0 {
      ReportedOnceStep(cfg, s, es[0]);
      PingsReportedOnce(cfg, Apply(cfg, s, es[0]), es[1..]);
    }
  }

  // ----- Without adapters the writer leaves ---------------------------------------------------------------

  lemma {:induction false} CheckWithoutAdapters(cfg: Config, s: State, es: seq<Event>)
    requires s.living == {} && (s.writer.Checking? || s.writer.Returned?) && Runs(cfg, s, es)
    ensures Exec(cfg, s, es).out == s.out && Exec(cfg, s, es).written == s.written
    decreases |es|
  {
    if |es| > 0 {
      CheckWithoutAdapters(cfg, Apply(cfg, s, es[0]), es[1..]);
    }
  }

  /** With no adapter living, a tick, a successful write and a queued notice are each the last thing the
      writer does: it takes and writes nothing more. */
  lemma {:induction false} LastActWithoutAdapters(cfg: Config, s: State, e: Event, es: seq<Event>)
    requires s.living == {} && Enabled(cfg, s, e) && Runs(cfg, Apply(cfg, s, e), es)
    requires e == WriterWrite(true) || e.WriterTick? || e.WriterRequeue?
    ensures var s' := Apply(cfg, s, e);
            Exec(cfg, s', es).out == s'.out && Exec(cfg, s', es).written == s'.written
  {
    CheckWithoutAdapters(cfg, Apply(cfg, s, e), es);
  }
}
