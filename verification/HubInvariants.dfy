/** The inductive invariants of the hub, each kept by every step of every goroutine. */
module HubInvariants {
  import opened Options
  import opened Hub

  // ----- Filters and concatenation ------------------------------------------------

  lemma {:induction false} FromReaderConcat(a: seq<Message>, b: seq<Message>, i: nat)
    ensures FromReader(a + b, i) == FromReader(a, i) + FromReader(b, i)
  {
    if b == [] {
      assert a + b == a;
    } else {
      FromReaderConcat(a, b[..|b| - 1], i);
      assert (a + b)[..|a + b| - 1] == a + b[..|b| - 1];
    }
  }

  lemma {:induction false} NoticesConcat(a: seq<Message>, b: seq<Message>)
    ensures Notices(a + b) == Notices(a) + Notices(b)
  {
    if b == [] {
      assert a + b == a;
    } else {
      NoticesConcat(a, b[..|b| - 1]);
      assert (a + b)[..|a + b| - 1] == a + b[..|b| - 1];
    }
  }

  lemma {:induction false} FromReaderNone(ms: seq<Message>, i: nat)
    requires forall p :: 0 <= p < |ms| ==> ms[p].origin != FromAdapter(i)
    ensures FromReader(ms, i) == []
  {
    if ms != [] {
      FromReaderNone(ms[..|ms| - 1], i);
    }
  }

  lemma {:induction false} FromReaderSnoc(ms: seq<Message>, m: Message, i: nat)
    ensures FromReader(ms + [m], i) == FromReader(ms, i) + if m.origin == FromAdapter(i) then [m] else []
  {
    assert (ms + [m])[..|ms|] == ms;
  }

  lemma {:induction false} NoticesSnoc(ms: seq<Message>, m: Message)
    ensures Notices(ms + [m]) == Notices(ms) + if m.origin.Closed? then [m.origin.token] else []
  {
    assert (ms + [m])[..|ms|] == ms;
  }

  // ----- How a step changes the queue ---------------------------------------------

  /** The message a step puts into `msg`, if it puts one there. */
  function Pushed(s: State, e: Event): Option<Message>
    requires e.ReaderSend? ==> e.i < |s.readers| && s.readers[e.i].Sending?
    requires e.WriterRequeue? ==> s.writer.Requeueing?
  {
    match e
    case ReaderSend(i) => Some(s.readers[i].m)
    case ClientSend => Some(PONG)
    case WriterRequeue => Some(s.writer.m)
    case _ => None
  }

  /** The queue only ever grows at its end: `msg` is first in, first out. */
  lemma {:induction false} QueueStep(cfg: Config, s: State, e: Event)
    requires Enabled(cfg, s, e)
    ensures var s' := Apply(cfg, s, e);
            match Pushed(s, e)
            case Some(m) => Queue(s') == Queue(s) + [m] && s'.out == s.out
            case None => Queue(s') == Queue(s)
  {
    var s' := Apply(cfg, s, e);
    if e.WriterDequeue? {
      assert s.msg == [s.msg[0]] + s.msg[1..];
    }
  }

  // ----- Shape ---------------------------------------------------------------------

  ghost predicate Shape(cfg: Config, s: State) {
    && |s.readers| == |s.read| == |cfg.targets|
    && |s.msg| <= Capacity(cfg)
    && |s.dead| <= Capacity(cfg)
  }

  lemma {:induction false} ShapeStep(cfg: Config, s: State, e: Event)
    requires Shape(cfg, s) && Enabled(cfg, s, e)
    ensures Shape(cfg, Apply(cfg, s, e))
  {}

  // ----- Messages carry their sender ------------------------------------------------

  ghost predicate Tagged(cfg: Config, s: State) {
    && |s.readers| == |cfg.targets|
    && (forall i :: 0 <= i < |s.readers| && s.readers[i].Sending? ==>
          s.readers[i].m.origin == FromAdapter(i))
    && (s.writer.Requeueing? ==> s.writer.m.origin.Closed? && s.writer.m.origin.token in s.tokens)
  }

  lemma {:induction false} TaggedStep(cfg: Config, s: State, e: Event)
    requires Tagged(cfg, s) && Enabled(cfg, s, e)
    ensures Tagged(cfg, Apply(cfg, s, e))
  {}

  // ----- Nothing lost, duplicated or reordered per reader ---------------------------

  ghost predicate Fifo(cfg: Config, s: State) {
    && |s.readers| == |s.read| == |cfg.targets|
    && forall i: nat :: i < |cfg.targets| ==> FifoAt(cfg, s, i)
  }

  ghost predicate FifoAt(cfg: Config, s: State, i: nat)
    requires i < |cfg.targets|
  {
    && i < |s.readers| && i < |s.read|
    && Envelopes(cfg, i, s.read[i]) == FromReader(Queue(s), i) + Pending(s.readers[i])
  }

  lemma {:induction false} FifoAfterRead(cfg: Config, s: State, i: nat, frame: Frame)
    requires i < |cfg.targets| && FifoAt(cfg, s, i) && Enabled(cfg, s, ReaderRead(i, frame))
    ensures FifoAt(cfg, Apply(cfg, s, ReaderRead(i, frame)), i)
  {
    assert (s.read[i] + [frame])[..|s.read[i]|] == s.read[i];
  }

  lemma {:induction false} FifoAfterSend(cfg: Config, s: State, i: nat)
    requires i < |cfg.targets| && FifoAt(cfg, s, i) && Tagged(cfg, s) && Enabled(cfg, s, ReaderSend(i))
    ensures FifoAt(cfg, Apply(cfg, s, ReaderSend(i)), i)
  {
    QueueStep(cfg, s, ReaderSend(i));
    FromReaderSnoc(Queue(s), s.readers[i].m, i);
  }

  /** Nobody else touches what reader `i` read or holds. */
  lemma {:induction false} ReaderOwns(cfg: Config, s: State, e: Event, i: nat)
    requires i < |s.readers| && i < |s.read| && Enabled(cfg, s, e)
    requires !(e.ReaderRead? && e.i == i) && !(e.ReaderSend? && e.i == i)
    ensures var s' := Apply(cfg, s, e);
            && i < |s'.readers| && i < |s'.read|
            && s'.read[i] == s.read[i] && Pending(s'.readers[i]) == Pending(s.readers[i])
  {}

  /** Nobody else sends in the name of reader `i`. */
  lemma {:induction false} OthersPush(cfg: Config, s: State, e: Event, i: nat)
    requires Tagged(cfg, s) && Enabled(cfg, s, e) && !(e.ReaderSend? && e.i == i)
    ensures Pushed(s, e).Some? ==> Pushed(s, e).value.origin != FromAdapter(i)
  {}

  lemma {:induction false} FifoAtStep(cfg: Config, s: State, e: Event, i: nat)
    requires i < |cfg.targets| && FifoAt(cfg, s, i) && Tagged(cfg, s) && Enabled(cfg, s, e)
    ensures FifoAt(cfg, Apply(cfg, s, e), i)
  {
    if e.ReaderRead? && e.i == i {
      FifoAfterRead(cfg, s, i, e.frame);
    } else if e.ReaderSend? && e.i == i {
      FifoAfterSend(cfg, s, i);
    } else {
      ReaderOwns(cfg, s, e, i);
      OthersPush(cfg, s, e, i);
      QueueStep(cfg, s, e);
      if Pushed(s, e).Some? {
        FromReaderSnoc(Queue(s), Pushed(s, e).value, i);
      }
    }
  }

  lemma {:induction false} FifoStep(cfg: Config, s: State, e: Event)
    requires Fifo(cfg, s) && Tagged(cfg, s) && Enabled(cfg, s, e)
    ensures Fifo(cfg, Apply(cfg, s, e))
  {
    forall i: nat | i < |cfg.targets|
      ensures FifoAt(cfg, Apply(cfg, s, e), i)
    {
      assert FifoAt(cfg, s, i);
      FifoAtStep(cfg, s, e, i);
    }
  }

  // ----- Notices follow the frames of the reader that failed ------------------------

  ghost predicate KnownToken(cfg: Config, s: State, t: Token) {
    && t.host in cfg.targets
    && (match t.cause
        case ReadFailed(i) => i < |cfg.targets| && i < |s.readers| && cfg.targets[i] == t.host &&
                              i in s.readFailed && s.readers[i].Stopped?
        case PingFailed => t.host in s.pingFailed)
  }

  ghost predicate AllKnown(cfg: Config, s: State, ts: seq<Token>) {
    forall p :: 0 <= p < |ts| ==> KnownToken(cfg, s, ts[p])
  }

  ghost predicate FailuresSeen(cfg: Config, s: State) {
    && |s.readers| == |cfg.targets|
    && (forall i :: 0 <= i < |s.readers| && s.readers[i].Reporting? ==> i in s.readFailed)
    && (forall i :: i in s.readFailed ==> i < |s.readers| && (s.readers[i].Reporting? || s.readers[i].Stopped?))
  }

  ghost predicate PingersKnown(cfg: Config, s: State) {
    && (forall k :: 0 <= k < |s.pingers| ==>
          match s.pingers[k]
          case Pinging(h) => h in cfg.targets
          case PingReporting(h) => h in cfg.targets && h in s.pingFailed
          case PingDone => true)
    && (forall h :: h in s.living ==> h in cfg.targets)
  }

  ghost predicate Tokens(cfg: Config, s: State) {
    FailuresSeen(cfg, s) && PingersKnown(cfg, s) && AllKnown(cfg, s, s.dead) && AllKnown(cfg, s, s.tokens)
  }

  lemma {:induction false} KnownTokenStep(cfg: Config, s: State, e: Event, t: Token)
    requires Tokens(cfg, s) && Enabled(cfg, s, e) && KnownToken(cfg, s, t)
    ensures KnownToken(cfg, Apply(cfg, s, e), t)
  {}

  lemma {:induction false} FailuresSeenStep(cfg: Config, s: State, e: Event)
    requires FailuresSeen(cfg, s) && Enabled(cfg, s, e)
    ensures FailuresSeen(cfg, Apply(cfg, s, e))
  {}

  lemma {:induction false} OrderIsLiving(order: seq<string>, living: set<string>)
    requires Enumerates(order, living)
    ensures forall k :: 0 <= k < |order| ==> order[k] in living
  {
    forall k | 0 <= k < |order|
      ensures order[k] in living
    {
      assert order[k] in (set h | h in order);
    }
  }

  lemma {:induction false} PingersKnownStep(cfg: Config, s: State, e: Event)
    requires PingersKnown(cfg, s) && Enabled(cfg, s, e)
    ensures PingersKnown(cfg, Apply(cfg, s, e))
  {
    if e.WriterTick? {
      OrderIsLiving(e.order, s.living);
    }
  }

  /** A token that a step puts into `dead` is for a failure that was seen. */
  lemma {:induction false} SentTokenIsKnown(cfg: Config, s: State, e: Event)
    requires FailuresSeen(cfg, s) && PingersKnown(cfg, s) && Enabled(cfg, s, e)
    requires e.ReaderToken? || e.PingToken?
    ensures var s' := Apply(cfg, s, e);
            && |s'.dead| == |s.dead| + 1 && s'.dead[..|s.dead|] == s.dead
            && KnownToken(cfg, s', s'.dead[|s.dead|])
  {}

  lemma {:induction false} DeadStep(cfg: Config, s: State, e: Event)
    requires Enabled(cfg, s, e) && !e.ReaderToken? && !e.PingToken?
    ensures var s' := Apply(cfg, s, e);
            if e.WriterToken? then s'.dead == s.dead[1..] && s'.tokens == s.tokens + [s.dead[0]]
            else s'.dead == s.dead && s'.tokens == s.tokens
  {}

  lemma {:induction false} TokensStep(cfg: Config, s: State, e: Event)
    requires Tokens(cfg, s) && Enabled(cfg, s, e)
    ensures Tokens(cfg, Apply(cfg, s, e))
  {
    var s' := Apply(cfg, s, e);
    FailuresSeenStep(cfg, s, e);
    PingersKnownStep(cfg, s, e);
    forall t | KnownToken(cfg, s, t)
      ensures KnownToken(cfg, s', t)
    {
      KnownTokenStep(cfg, s, e, t);
    }
    if e.ReaderToken? || e.PingToken? {
      SentTokenIsKnown(cfg, s, e);
      assert forall p :: 0 <= p < |s.dead| ==> s'.dead[p] == s.dead[p];
    } else {
      DeadStep(cfg, s, e);
    }
  }

  /** `m` announces that reader `i` failed. */
  predicate NoticeOf(m: Message, i: nat) {
    m.origin.Closed? && m.origin.token.cause == ReadFailed(i)
  }

  ghost predicate Ordered(s: State) {
    && (forall p :: 0 <= p < |Queue(s)| && Queue(s)[p].origin.Closed? ==>
          Queue(s)[p].origin.token in s.tokens)
    && (forall p, q, i: nat :: 0 <= p < q < |Queue(s)| && NoticeOf(Queue(s)[p], i) ==>
          Queue(s)[q].origin != FromAdapter(i))
  }

  lemma {:induction false} OrderedStep(cfg: Config, s: State, e: Event)
    requires Tagged(cfg, s) && Tokens(cfg, s) && Ordered(s) && Enabled(cfg, s, e)
    ensures Ordered(Apply(cfg, s, e))
  {
    var s' := Apply(cfg, s, e);
    QueueStep(cfg, s, e);
    if e.ReaderSend? {
      var q := Queue(s);
      forall p, i: nat | 0 <= p < |q| && NoticeOf(q[p], i)
        ensures s.readers[e.i].m.origin != FromAdapter(i)
      {
        var k :| 0 <= k < |s.tokens| && s.tokens[k] == q[p].origin.token;
        assert KnownToken(cfg, s, s.tokens[k]);
      }
    }
  }

  // ----- The living adapters ---------------------------------------------------------

  ghost predicate Living(cfg: Config, s: State) {
    s.living == (set h | h in cfg.targets) - Hosts(s.tokens)
  }

  lemma {:induction false} LivingStep(cfg: Config, s: State, e: Event)
    requires Living(cfg, s) && Enabled(cfg, s, e)
    ensures Living(cfg, Apply(cfg, s, e))
  {
    if e.WriterToken? {
      assert Hosts(s.tokens + [s.dead[0]]) == Hosts(s.tokens) + {s.dead[0].host};
    }
  }

  // ----- One notice per token ----------------------------------------------------------

  ghost predicate Accounted(cfg: Config, s: State) {
    Announced(cfg, s.tokens) == Notices(Queue(s)) + Requeued(s.writer)
  }

  lemma {:induction false} AnnouncedSnoc(cfg: Config, ts: seq<Token>, t: Token)
    ensures Announced(cfg, ts + [t]) == Announced(cfg, ts) + if Notice(cfg, t).Some? then [t] else []
  {
    assert (ts + [t])[..|ts|] == ts;
  }

  lemma {:induction false} AccountedAfterToken(cfg: Config, s: State)
    requires Accounted(cfg, s) && Enabled(cfg, s, WriterToken)
    ensures Accounted(cfg, Apply(cfg, s, WriterToken))
  {
    AnnouncedSnoc(cfg, s.tokens, s.dead[0]);
    QueueStep(cfg, s, WriterToken);
  }

  /** Nothing but the writer pushes a notice. */
  lemma {:induction false} OnlyWriterPushesNotices(cfg: Config, s: State, e: Event)
    requires Tagged(cfg, s) && Enabled(cfg, s, e) && !WriterEvent(e)
    ensures Pushed(s, e).Some? ==> !Pushed(s, e).value.origin.Closed?
  {}

  lemma {:induction false} AccountedAfterRequeue(cfg: Config, s: State)
    requires Accounted(cfg, s) && Tagged(cfg, s) && Enabled(cfg, s, WriterRequeue)
    ensures Accounted(cfg, Apply(cfg, s, WriterRequeue))
  {
    QueueStep(cfg, s, WriterRequeue);
    NoticesSnoc(Queue(s), s.writer.m);
  }

  /** The other steps of the writer change neither the queue nor the tokens. */
  lemma {:induction false} WriterKeepsQueue(cfg: Config, s: State, e: Event)
    requires Enabled(cfg, s, e) && WriterEvent(e) && !e.WriterToken? && !e.WriterRequeue?
    ensures var s' := Apply(cfg, s, e);
            s'.tokens == s.tokens && Requeued(s'.writer) == Requeued(s.writer) == []
  {}

  lemma {:induction false} AccountedStep(cfg: Config, s: State, e: Event)
    requires Accounted(cfg, s) && Tagged(cfg, s) && Enabled(cfg, s, e)
    ensures Accounted(cfg, Apply(cfg, s, e))
  {
    if e.WriterToken? {
      AccountedAfterToken(cfg, s);
    } else if e.WriterRequeue? {
      AccountedAfterRequeue(cfg, s);
    } else {
      QueueStep(cfg, s, e);
      if WriterEvent(e) {
        WriterKeepsQueue(cfg, s, e);
      } else {
        WriterOwns(cfg, s, e);
        OnlyWriterPushesNotices(cfg, s, e);
        if Pushed(s, e).Some? {
          NoticesSnoc(Queue(s), Pushed(s, e).value);
        }
      }
    }
  }

  /** The last token received could be announced. */
  predicate LastAnnounced(cfg: Config, s: State) {
    s.tokens != [] && Notice(cfg, s.tokens[|s.tokens| - 1]).Some?
  }

  /** The writer leaves for want of adapters only when none is living, and once none is
      living it is on its way out, unless the last notice could not be marshalled. */
  ghost predicate Leaving(cfg: Config, s: State) {
    && (s.writer == Returned(NoAdapters) ==> s.living == {})
    && (s.living == {} ==> s.tokens != [])
    && (s.living == {} && LastAnnounced(cfg, s) ==>
          || s.writer.Requeueing?
          || ((s.writer.Checking? || s.writer.Returned?) && |Notices(s.out)| < |Announced(cfg, s.tokens)|))
  }

  /** Only the writer changes what the writer owns. */
  lemma {:induction false} WriterOwns(cfg: Config, s: State, e: Event)
    requires Enabled(cfg, s, e) && !WriterEvent(e)
    ensures var s' := Apply(cfg, s, e);
            && s'.writer == s.writer && s'.out == s.out && s'.written == s.written
            && s'.writeFailures == s.writeFailures && s'.living == s.living && s'.tokens == s.tokens
  {}

  lemma {:induction false} LeavingAfterToken(cfg: Config, s: State)
    requires Accounted(cfg, s) && Leaving(cfg, s) && Enabled(cfg, s, WriterToken)
    ensures Leaving(cfg, Apply(cfg, s, WriterToken))
  {
    assert (s.tokens + [s.dead[0]])[..|s.tokens|] == s.tokens;
  }

  lemma {:induction false} LeavingAfterRequeue(cfg: Config, s: State)
    requires Accounted(cfg, s) && Tagged(cfg, s) && Leaving(cfg, s) && Enabled(cfg, s, WriterRequeue)
    ensures Leaving(cfg, Apply(cfg, s, WriterRequeue))
  {
    NoticesConcat(s.out, s.msg);
  }

  lemma {:induction false} LeavingStep(cfg: Config, s: State, e: Event)
    requires ValidConfig(cfg) && Accounted(cfg, s) && Tagged(cfg, s) && Leaving(cfg, s) && Enabled(cfg, s, e)
    ensures Leaving(cfg, Apply(cfg, s, e))
  {
    if !WriterEvent(e) {
      WriterOwns(cfg, s, e);
    } else if e.WriterToken? {
      LeavingAfterToken(cfg, s);
    } else if e.WriterRequeue? {
      LeavingAfterRequeue(cfg, s);
    }
  }

  // ----- At most one token per failed reader ------------------------------------------

  ghost predicate Distinct(s: State) {
    forall p, q :: 0 <= p < q < |s.dead| && s.dead[p].cause.ReadFailed? ==> s.dead[p].cause != s.dead[q].cause
  }

  lemma {:induction false} DistinctStep(cfg: Config, s: State, e: Event)
    requires Tokens(cfg, s) && Distinct(s) && Enabled(cfg, s, e)
    ensures Distinct(Apply(cfg, s, e))
  {
    if e.ReaderToken? {
      forall p | 0 <= p < |s.dead| && s.dead[p].cause.ReadFailed?
        ensures s.dead[p].cause != ReadFailed(e.i)
      {
        assert KnownToken(cfg, s, s.dead[p]);
      }
    }
  }

  // ----- No literal ping, and one pong per client ping -----------------------------------

  ghost predicate NoPing(s: State) {
    && (forall i :: 0 <= i < |s.readers| && s.readers[i].Sending? ==>
          !IsPing(s.readers[i].m.kind, s.readers[i].m.text))
    && (s.writer.Requeueing? || s.writer.Writing? ==> !IsPing(s.writer.m.kind, s.writer.m.text))
    && (forall p :: 0 <= p < |Queue(s)| ==> !IsPing(Queue(s)[p].kind, Queue(s)[p].text))
  }

  /** A marshalled envelope starts with a brace. */
  lemma {:induction false} EnvelopeNotPing(cfg: Config, host: string, body: string)
    ensures Marshal(cfg, host, body).Some? ==> Marshal(cfg, host, body).value != "ping"
  {
    if Marshal(cfg, host, body).Some? {
      assert Marshal(cfg, host, body).value[0] == '{';
    }
  }

  lemma {:induction false} NoPingStep(cfg: Config, s: State, e: Event)
    requires NoPing(s) && Enabled(cfg, s, e)
    ensures NoPing(Apply(cfg, s, e))
  {
    QueueStep(cfg, s, e);
    if e.WriterDequeue? {
      assert Queue(s)[|s.out|] == s.msg[0];
    } else if e.ReaderRead? {
      EnvelopeNotPing(cfg, cfg.targets[e.i], e.frame.body);
    } else if e.WriterToken? {
      EnvelopeNotPing(cfg, s.dead[0].host, "websocket closed");
    }
  }

  ghost predicate PongCount(s: State) {
    Pongs(Queue(s)) + (if s.client.ClientSending? then 1 else 0) == s.pings
  }

  lemma {:induction false} PongsSnoc(ms: seq<Message>, m: Message)
    ensures Pongs(ms + [m]) == Pongs(ms) + if m.origin.FromClient? then 1 else 0
  {
    assert (ms + [m])[..|ms|] == ms;
  }

  /** Only the client reader's send pushes a pong, and settles one ping. */
  lemma {:induction false} PongsPushed(cfg: Config, s: State, e: Event)
    requires Tagged(cfg, s) && Enabled(cfg, s, e)
    ensures var s' := Apply(cfg, s, e);
            && (Pushed(s, e).Some? && Pushed(s, e).value.origin.FromClient? <==> e.ClientSend?)
            && s'.pings + (if s.client.ClientSending? then 1 else 0) ==
               s.pings + (if s'.client.ClientSending? then 1 else 0) + if e.ClientSend? then 1 else 0
  {}

  lemma {:induction false} PongCountStep(cfg: Config, s: State, e: Event)
    requires PongCount(s) && Tagged(cfg, s) && Enabled(cfg, s, e)
    ensures PongCount(Apply(cfg, s, e))
  {
    QueueStep(cfg, s, e);
    PongsPushed(cfg, s, e);
    if Pushed(s, e).Some? {
      PongsSnoc(Queue(s), Pushed(s, e).value);
    }
  }

  // ----- What the client is sent ------------------------------------------------------------

  ghost predicate Delivery(s: State) {
    && |s.out| == |s.written| + s.writeFailures + |InFlight(s.writer)|
    && (s.writeFailures == 0 ==> s.out == s.written + InFlight(s.writer))
  }

  lemma {:induction false} DeliveryStep(cfg: Config, s: State, e: Event)
    requires NoPing(s) && Delivery(s) && Enabled(cfg, s, e)
    ensures Delivery(Apply(cfg, s, e))
  {
    if !WriterEvent(e) {
      WriterOwns(cfg, s, e);
    } else if e.WriterDequeue? {
      assert Queue(s)[|s.out|] == s.msg[0];
    }
  }

  // ----- All of it, over whole runs -------------------------------------------------------------

  ghost predicate Inv(cfg: Config, s: State) {
    && ValidConfig(cfg)
    && Shape(cfg, s) && Tagged(cfg, s) && Fifo(cfg, s) && Tokens(cfg, s) && Ordered(s) && Living(cfg, s)
    && Accounted(cfg, s) && Leaving(cfg, s) && Distinct(s) && NoPing(s) && PongCount(s) && Delivery(s)
  }

  lemma {:induction false} InitReaders(cfg: Config)
    ensures Shape(cfg, Init(cfg)) && Tagged(cfg, Init(cfg)) && Fifo(cfg, Init(cfg))
  {
    assert Queue(Init(cfg)) == [];
  }

  lemma {:induction false} InitTokens(cfg: Config)
    ensures Tokens(cfg, Init(cfg)) && Living(cfg, Init(cfg)) && Accounted(cfg, Init(cfg))
  {
    assert Queue(Init(cfg)) == [];
  }

  lemma {:induction false} InvInit(cfg: Config)
    requires ValidConfig(cfg)
    ensures Inv(cfg, Init(cfg))
  {
    assert cfg.targets[0] in Init(cfg).living;
    assert Queue(Init(cfg)) == [];
    InitReaders(cfg);
    InitTokens(cfg);
  }

  lemma {:induction false} InvStep(cfg: Config, s: State, e: Event)
    requires Inv(cfg, s) && Enabled(cfg, s, e)
    ensures Inv(cfg, Apply(cfg, s, e))
  {
    ShapeStep(cfg, s, e);
    TaggedStep(cfg, s, e);
    FifoStep(cfg, s, e);
    TokensStep(cfg, s, e);
    OrderedStep(cfg, s, e);
    LivingStep(cfg, s, e);
    AccountedStep(cfg, s, e);
    LeavingStep(cfg, s, e);
    DistinctStep(cfg, s, e);
    NoPingStep(cfg, s, e);
    PongCountStep(cfg, s, e);
    DeliveryStep(cfg, s, e);
  }

  lemma {:induction false} InvRun(cfg: Config, s: State, es: seq<Event>)
    requires Inv(cfg, s) && Runs(cfg, s, es)
    ensures Inv(cfg, Exec(cfg, s, es))
    decreases |es|
  {
    if es == [] {
      assert Exec(cfg, s, es) == s;
    } else {
      InvStep(cfg, s, es[0]);
      InvRun(cfg, Apply(cfg, s, es[0]), es[1..]);
    }
  }
}
