/** What the hub guarantees over every run, and the runs in which it gets stuck. */
module HubTheorems {
  import opened Options
  import opened Hub
  import opened HubInvariants

  // ----- Runs ------------------------------------------------------------------------

  /** `s` is reached from the start by the steps `es`, in this order. */
  ghost predicate Reaches(cfg: Config, es: seq<Event>, s: State) {
    ValidConfig(cfg) && Runs(cfg, Init(cfg), es) && Exec(cfg, Init(cfg), es) == s
  }

  lemma {:induction false} ReachesInv(cfg: Config, es: seq<Event>, s: State)
    requires Reaches(cfg, es, s)
    ensures Inv(cfg, s)
  {
    InvInit(cfg);
    InvRun(cfg, Init(cfg), es);
  }

  lemma {:induction false} RunsConcat(cfg: Config, s: State, a: seq<Event>, b: seq<Event>)
    requires Runs(cfg, s, a) && Runs(cfg, Exec(cfg, s, a), b)
    ensures Runs(cfg, s, a + b) && Exec(cfg, s, a + b) == Exec(cfg, Exec(cfg, s, a), b)
    decreases |a|
  {
    if |a| == 0 {
      assert a + b == b;
    } else {
      assert (a + b)[1..] == a[1..] + b;
      RunsConcat(cfg, Apply(cfg, s, a[0]), a[1..], b);
    }
  }

  lemma {:induction false} RunsSnoc(cfg: Config, s: State, es: seq<Event>, e: Event)
    requires Runs(cfg, s, es) && Enabled(cfg, Exec(cfg, s, es), e)
    ensures Runs(cfg, s, es + [e]) && Exec(cfg, s, es + [e]) == Apply(cfg, Exec(cfg, s, es), e)
  {
    assert [e][1..] == [];
    RunsConcat(cfg, s, es, [e]);
  }

  lemma {:induction false} Step(cfg: Config, es: seq<Event>, s: State, e: Event) returns (es': seq<Event>, s': State)
    requires Reaches(cfg, es, s) && Enabled(cfg, s, e)
    ensures Reaches(cfg, es', s') && s' == Apply(cfg, s, e)
  {
    es', s' := es + [e], Apply(cfg, s, e);
    RunsSnoc(cfg, Init(cfg), es, e);
  }

  // ----- Delivery -----------------------------------------------------------------------

  /** Per reader: what it read is what the writer took out, then what waits in `msg`,
      then the one frame the reader may be blocked sending. */
  lemma {:induction false} NothingLostOrReordered(cfg: Config, es: seq<Event>, s: State, i: nat)
    requires Reaches(cfg, es, s) && i < |cfg.targets|
    ensures |s.readers| == |s.read| == |cfg.targets|
    ensures Envelopes(cfg, i, s.read[i]) ==
            FromReader(s.out, i) + FromReader(s.msg, i) + Pending(s.readers[i])
  {
    ReachesInv(cfg, es, s);
    assert FifoAt(cfg, s, i);
    FromReaderConcat(s.out, s.msg, i);
  }

  /** While no write has failed, the client has been sent exactly what was taken out, in
      order and unaltered, so it sees a prefix of every adapter's stream. */
  lemma {:induction false} ClientSeesPrefix(cfg: Config, es: seq<Event>, s: State, i: nat)
    requires Reaches(cfg, es, s) && i < |cfg.targets| && s.writeFailures == 0
    ensures s.out == s.written + InFlight(s.writer)
    ensures i < |s.read| && FromReader(s.written, i) <= Envelopes(cfg, i, s.read[i])
  {
    NothingLostOrReordered(cfg, es, s, i);
    ReachesInv(cfg, es, s);
    FromReaderConcat(s.written, InFlight(s.writer), i);
  }

  /** Once the writer has taken the notice that reader `i` failed, it had already taken
      every frame that reader ever read. */
  lemma {:induction false} NoticeFollowsAllFrames(cfg: Config, es: seq<Event>, s: State, p: nat, i: nat)
    requires Reaches(cfg, es, s) && p < |s.out| && NoticeOf(s.out[p], i)
    ensures i < |cfg.targets| == |s.read|
    ensures FromReader(s.out[..p], i) == Envelopes(cfg, i, s.read[i])
  {
    ReachesInv(cfg, es, s);
    assert Queue(s)[p] == s.out[p];
    var k :| 0 <= k < |s.tokens| && s.tokens[k] == s.out[p].origin.token;
    assert KnownToken(cfg, s, s.tokens[k]);
    assert FifoAt(cfg, s, i);
    var rest := Queue(s)[p..];
    assert Queue(s) == s.out[..p] + rest;
    FromReaderConcat(s.out[..p], rest, i);
    forall q | 0 <= q < |rest|
      ensures rest[q].origin != FromAdapter(i)
    {
      assert rest[q] == Queue(s)[p + q];
    }
    FromReaderNone(rest, i);
  }

  /** The rewrite of a literal ping never fires, and every client ping is answered once. */
  lemma {:induction false} PingsAnsweredOnce(cfg: Config, es: seq<Event>, s: State)
    requires Reaches(cfg, es, s)
    ensures forall p :: 0 <= p < |Queue(s)| ==> Rewrite(Queue(s)[p]) == Queue(s)[p]
    ensures Pongs(Queue(s)) + (if s.client.ClientSending? then 1 else 0) == s.pings
  {
    ReachesInv(cfg, es, s);
  }

  // ----- Living adapters -----------------------------------------------------------------

  /** Host `h` was seen to fail: one of its readers got a read error, or a ping to it failed. */
  ghost predicate Failed(cfg: Config, s: State, h: string) {
    h in s.pingFailed || exists i :: 0 <= i < |cfg.targets| && cfg.targets[i] == h && i in s.readFailed
  }

  /** The map of living adapters is the initial one without the hosts whose token the writer
      received, and a token is only ever sent for a host that failed. */
  lemma {:induction false} LivingIsExact(cfg: Config, es: seq<Event>, s: State)
    requires Reaches(cfg, es, s)
    ensures s.living == (set h | h in cfg.targets) - Hosts(s.tokens)
    ensures forall h :: h in Hosts(s.tokens) ==> h in cfg.targets && Failed(cfg, s, h)
  {
    ReachesInv(cfg, es, s);
    forall h | h in Hosts(s.tokens)
      ensures h in cfg.targets && Failed(cfg, s, h)
    {
      var t :| t in s.tokens && t.host == h;
      assert KnownToken(cfg, s, t);
    }
  }

  /** The client is closed for want of adapters only after every target failed. */
  lemma {:induction false} NoAdaptersMeansAllFailed(cfg: Config, es: seq<Event>, s: State, h: string)
    requires Reaches(cfg, es, s) && s.writer == Returned(NoAdapters) && h in cfg.targets
    ensures Failed(cfg, s, h)
  {
    ReachesInv(cfg, es, s);
    LivingIsExact(cfg, es, s);
    assert h in (set x | x in cfg.targets);
    assert h !in s.living;
    assert h in Hosts(s.tokens);
  }

  lemma {:induction false} ReturnedTakesNothing(cfg: Config, s: State, more: seq<Event>)
    requires s.writer.Returned? && Runs(cfg, s, more)
    ensures var s' := Exec(cfg, s, more);
            s'.writer == s.writer && s'.out == s.out && s'.written == s.written && s'.tokens == s.tokens
    decreases |more|
  {
    if |more| > 0 {
      ReturnedTakesNothing(cfg, Apply(cfg, s, more[0]), more[1..]);
    }
  }

  /** Where the notice queued last is, or -1. */
  function LastNotice(ms: seq<Message>): int {
    if ms == [] then -1
    else if ms[|ms| - 1].origin.Closed? then |ms| - 1
    else LastNotice(ms[..|ms| - 1])
  }

  lemma {:induction false} LastNoticeIn(a: seq<Message>, b: seq<Message>)
    ensures LastNotice(a + b) >= |a| <==> Notices(b) != []
    ensures LastNotice(a) < |a|
    decreases |a| + |b|
  {
    if b == [] {
      assert a + b == a;
      if a != [] {
        LastNoticeIn(a[..|a| - 1], []);
      }
    } else {
      assert (a + b)[..|a + b| - 1] == a + b[..|b| - 1];
      LastNoticeIn(a, b[..|b| - 1]);
    }
  }

  /** After the exit for want of adapters, for good: the notices taken out are the first of those
      owed, and some is left exactly when the one queued last is, which it always is when the last
      token could be announced. */
  lemma {:induction false} LastNoticeNeverSent(cfg: Config, es: seq<Event>, s: State, more: seq<Event>)
    requires Reaches(cfg, es, s) && s.writer == Returned(NoAdapters) && Runs(cfg, s, more)
    ensures var end := Exec(cfg, s, more);
            && end.out == s.out && end.tokens == s.tokens && Notices(s.out) <= Announced(cfg, s.tokens)
            && (Notices(s.out) < Announced(cfg, s.tokens) <==> LastNotice(Queue(s)) >= |s.out|)
    ensures LastAnnounced(cfg, s) ==> LastNotice(Queue(s)) >= |s.out|
  {
    ReachesInv(cfg, es, s);
    NoticesConcat(s.out, s.msg);
    LastNoticeIn(s.out, s.msg);
    ReturnedTakesNothing(cfg, s, more);
  }

  // ----- Where the writer can block --------------------------------------------------------

  /** The writer has not returned and none of its steps can happen. */
  ghost predicate WriterBlocked(cfg: Config, s: State) {
    !s.writer.Returned? && forall e :: WriterEvent(e) ==> !Enabled(cfg, s, e)
  }

  lemma {:induction false} SomeOrder(keys: set<string>)
    ensures exists order :: Enumerates(order, keys)
    decreases |keys|
  {
    if keys == {} {
      assert Enumerates([], keys);
    } else {
      var h :| h in keys;
      SomeOrder(keys - {h});
      var rest :| Enumerates(rest, keys - {h});
      var order := [h] + rest;
      assert forall k :: 0 <= k < |rest| ==> rest[k] in (set x | x in rest);
      assert (set x | x in order) == {h} + (set x | x in rest);
      assert Enumerates(order, keys);
    }
  }

  lemma {:induction false} WriterCanStep(cfg: Config, s: State)
    requires !s.writer.Returned? && (s.writer.Requeueing? ==> |s.msg| < Capacity(cfg))
    ensures !WriterBlocked(cfg, s)
  {
    match s.writer
    case Selecting =>
      SomeOrder(s.living);
      var order :| Enumerates(order, s.living);
      assert WriterEvent(WriterTick(order)) && Enabled(cfg, s, WriterTick(order));
    case Writing(_) => assert WriterEvent(WriterWrite(true)) && Enabled(cfg, s, WriterWrite(true));
    case Checking => assert WriterEvent(WriterCheck) && Enabled(cfg, s, WriterCheck);
    case Requeueing(_) => assert WriterEvent(WriterRequeue) && Enabled(cfg, s, WriterRequeue);
  }

  /** In every reachable state the writer is blocked exactly when it is sending to its own
      full channel. */
  lemma {:induction false} BlockedIffSelfSendOnFull(cfg: Config, es: seq<Event>, s: State)
    requires Reaches(cfg, es, s)
    ensures WriterBlocked(cfg, s) <==> s.writer.Requeueing? && |s.msg| == Capacity(cfg)
  {
    ReachesInv(cfg, es, s);
    assert |s.msg| <= Capacity(cfg);
    if !s.writer.Returned? && !(s.writer.Requeueing? && |s.msg| == Capacity(cfg)) {
      WriterCanStep(cfg, s);
    }
  }

  /** Nothing will ever be taken out of a full `msg`: its only consumer is gone or stuck. */
  ghost predicate Jammed(cfg: Config, s: State) {
    |s.msg| == Capacity(cfg) && (s.writer.Requeueing? || s.writer.Returned?)
  }

  /** All goroutines the WebSocket manager counts for this hub have returned. */
  ghost predicate Drained(s: State) {
    && (forall i :: 0 <= i < |s.readers| ==> s.readers[i].Stopped?)
    && s.client.ClientStopped?
    && s.writer.Returned?
  }

  /** A jam is permanent: from then on the writer and `msg` never change and every
      goroutine sending to `msg` stays where it is. */
  lemma {:induction false} JamIsPermanent(cfg: Config, s: State, es: seq<Event>)
    requires Jammed(cfg, s) && Runs(cfg, s, es)
    ensures var s' := Exec(cfg, s, es);
            && s'.msg == s.msg && s'.writer == s.writer && s'.out == s.out
            && |s'.readers| == |s.readers|
            && (forall i :: 0 <= i < |s.readers| && s.readers[i].Sending? ==> s'.readers[i] == s.readers[i])
            && (s.client.ClientSending? ==> s'.client.ClientSending?)
    decreases |es|
  {
    if |es| > 0 {
      JamIsPermanent(cfg, Apply(cfg, s, es[0]), es[1..]);
    }
  }

  /** After the writer blocks on its own channel no shutdown ever drains this hub. */
  lemma {:induction false} BlockedNeverDrains(cfg: Config, es: seq<Event>, s: State, more: seq<Event>)
    requires Reaches(cfg, es, s) && WriterBlocked(cfg, s) && Runs(cfg, s, more)
    ensures WriterBlocked(cfg, Exec(cfg, s, more)) && !Drained(Exec(cfg, s, more))
  {
    BlockedIffSelfSendOnFull(cfg, es, s);
    JamIsPermanent(cfg, s, more);
    RunsConcat(cfg, Init(cfg), es, more);
    BlockedIffSelfSendOnFull(cfg, es + more, Exec(cfg, s, more));
  }

  ghost predicate Quiet(cfg: Config, s: State) {
    && !s.shutdown && !s.clientDead && s.writer.Selecting? && s.client.ClientPolling?
    && s.living == (set h | h in cfg.targets)
    && |s.readers| == |s.read| == |cfg.targets|
    && forall i :: 0 <= i < |s.readers| ==> s.readers[i].Polling?
  }

  ghost predicate MsgFilled(cfg: Config, es: seq<Event>, s: State, k: nat) {
    Reaches(cfg, es, s) && Quiet(cfg, s) && |s.msg| == k && s.dead == []
  }

  /** Client pings alone fill `msg`. */
  lemma {:induction false} FillMsg(cfg: Config, k: nat)
    requires ValidConfig(cfg) && k <= Capacity(cfg)
    ensures exists es, s :: MsgFilled(cfg, es, s, k)
  {
    var es, s := [], Init(cfg);
    if k > 0 {
      FillMsg(cfg, k - 1);
      es, s :| MsgFilled(cfg, es, s, k - 1);
      es, s := Step(cfg, es, s, ClientPoll);
      es, s := Step(cfg, es, s, ClientRead(Frame(Text, "ping")));
      es, s := Step(cfg, es, s, ClientSend);
    }
    assert MsgFilled(cfg, es, s, k);
  }

  /** Some notice can be marshalled. */
  ghost predicate CanAnnounce(cfg: Config) {
    exists i :: 0 <= i < |cfg.targets| && Marshal(cfg, cfg.targets[i], "websocket closed").Some?
  }

  ghost predicate ReachesBlocked(cfg: Config, es: seq<Event>, s: State) {
    Reaches(cfg, es, s) && WriterBlocked(cfg, s)
  }

  lemma {:induction false} WriterCanBlock(cfg: Config, i: nat)
    requires ValidConfig(cfg) && i < |cfg.targets| && Marshal(cfg, cfg.targets[i], "websocket closed").Some?
    ensures exists es, s :: ReachesBlocked(cfg, es, s)
  {
    FillMsg(cfg, Capacity(cfg));
    var es, s :| MsgFilled(cfg, es, s, Capacity(cfg));
    es, s := Step(cfg, es, s, ReaderPoll(i));
    es, s := Step(cfg, es, s, ReaderFail(i));
    es, s := Step(cfg, es, s, ReaderToken(i));
    es, s := Step(cfg, es, s, WriterToken);
    BlockedIffSelfSendOnFull(cfg, es, s);
    assert ReachesBlocked(cfg, es, s);
  }

  lemma {:induction false} BlockedMeansAnnounced(cfg: Config, es: seq<Event>, s: State)
    requires Reaches(cfg, es, s) && WriterBlocked(cfg, s)
    ensures CanAnnounce(cfg)
  {
    ReachesInv(cfg, es, s);
    BlockedIffSelfSendOnFull(cfg, es, s);
    RequeueIsMarshalled(cfg, Init(cfg), es);
    var t := s.writer.m.origin.token;
    var k :| 0 <= k < |s.tokens| && s.tokens[k] == t;
    assert KnownToken(cfg, s, s.tokens[k]);
    var i :| 0 <= i < |cfg.targets| && cfg.targets[i] == t.host;
  }

  /** The writer can block for ever exactly when some notice can be marshalled at all. */
  lemma {:induction false} WriterCanBlockIff(cfg: Config)
    requires ValidConfig(cfg)
    ensures (exists es, s :: ReachesBlocked(cfg, es, s)) <==> CanAnnounce(cfg)
  {
    if CanAnnounce(cfg) {
      var i: nat :| i < |cfg.targets| && Marshal(cfg, cfg.targets[i], "websocket closed").Some?;
      WriterCanBlock(cfg, i);
    }
    if es, s :| ReachesBlocked(cfg, es, s) {
      BlockedMeansAnnounced(cfg, es, s);
    }
  }

  /** A notice being queued is the marshalled notice of its token. */
  lemma {:induction false} RequeueIsMarshalled(cfg: Config, s: State, es: seq<Event>)
    requires s.writer.Requeueing? && s.writer.m.origin.Closed? ==>
               Notice(cfg, s.writer.m.origin.token) == Some(s.writer.m)
    requires Runs(cfg, s, es)
    ensures var s' := Exec(cfg, s, es);
            s'.writer.Requeueing? && s'.writer.m.origin.Closed? ==>
              Notice(cfg, s'.writer.m.origin.token) == Some(s'.writer.m)
    decreases |es|
  {
    if |es| > 0 {
      RequeueIsMarshalled(cfg, Apply(cfg, s, es[0]), es[1..]);
    }
  }

  // ----- Where a reader can block on `dead` -------------------------------------------------

  /** Distinct numbers below `n` are at most `n` many. */
  lemma {:induction false} DistinctBelow(xs: seq<nat>, n: nat)
    requires forall p :: 0 <= p < |xs| ==> xs[p] < n
    requires forall p, q :: 0 <= p < q < |xs| ==> xs[p] != xs[q]
    ensures |xs| <= n
  {
    if xs != [] {
      assert xs[0] < n;
      if p :| 0 <= p < |xs| && xs[p] == n - 1 {
        DistinctBelow(xs[..p] + xs[p + 1..], n - 1);
      } else {
        DistinctBelow(xs, n - 1);
      }
    }
  }

  function ReportedBy(ts: seq<Token>): seq<nat>
    requires forall p :: 0 <= p < |ts| ==> ts[p].cause.ReadFailed?
  {
    seq(|ts|, p requires 0 <= p < |ts| => ts[p].cause.reader)
  }

  /** While no ping write has failed, a reader reporting its failure finds room in `dead`,
      even after the writer has returned. */
  lemma {:induction false} ReportNeverBlocks(cfg: Config, es: seq<Event>, s: State, i: nat)
    requires Reaches(cfg, es, s) && i < |s.readers| && s.readers[i].Reporting? && s.pingFailed == {}
    ensures Enabled(cfg, s, ReaderToken(i))
  {
    ReachesInv(cfg, es, s);
    forall p | 0 <= p < |s.dead|
      ensures s.dead[p].cause.ReadFailed? && s.dead[p].cause.reader < |cfg.targets| && s.dead[p].cause.reader != i
    {
      assert KnownToken(cfg, s, s.dead[p]);
    }
    var xs := ReportedBy(s.dead) + [i];
    DistinctBelow(xs, |cfg.targets|);
  }

  ghost predicate DeadFilled(cfg: Config, es: seq<Event>, s: State, k: nat) {
    Reaches(cfg, es, s) && Quiet(cfg, s) && |s.dead| == k
  }

  /** Failing pings alone fill `dead`. */
  lemma {:induction false} FillDead(cfg: Config, k: nat)
    requires ValidConfig(cfg) && k <= Capacity(cfg)
    ensures exists es, s :: DeadFilled(cfg, es, s, k)
  {
    var es, s := [], Init(cfg);
    if k > 0 {
      FillDead(cfg, k - 1);
      es, s :| DeadFilled(cfg, es, s, k - 1);
      SomeOrder(s.living);
      var order :| Enumerates(order, s.living);
      assert cfg.targets[0] in s.living;
      var j := |s.pingers|;
      es, s := Step(cfg, es, s, WriterTick(order));
      es, s := Step(cfg, es, s, WriterCheck);
      es, s := Step(cfg, es, s, PingResult(j, false));
      es, s := Step(cfg, es, s, PingToken(j));
    }
    assert DeadFilled(cfg, es, s, k);
  }

  predicate Reporting(s: State, i: nat) {
    i < |s.readers| && s.readers[i].Reporting?
  }

  /** `dead` is full and the writer will not receive from it again: it has returned, it is
      blocked on its own channel, or no adapter is living and its next check makes it return. */
  predicate DeadAbandoned(cfg: Config, s: State) {
    && |s.dead| == Capacity(cfg)
    && (|| s.writer.Returned?
        || (s.writer.Requeueing? && |s.msg| == Capacity(cfg))
        || (s.living == {} && (s.writer.Checking? || s.writer.Requeueing?)))
  }

  lemma {:induction false} DeadAbandonedStep(cfg: Config, s: State, e: Event, i: nat)
    requires DeadAbandoned(cfg, s) && |s.msg| <= Capacity(cfg) && Reporting(s, i) && Enabled(cfg, s, e)
    ensures var s' := Apply(cfg, s, e);
            DeadAbandoned(cfg, s') && |s'.msg| <= Capacity(cfg) && Reporting(s', i)
  {}

  /** A reader reporting to an abandoned `dead` reports for ever. */
  lemma {:induction false} ReportBlockedForEver(cfg: Config, s: State, i: nat, more: seq<Event>)
    requires DeadAbandoned(cfg, s) && |s.msg| <= Capacity(cfg) && Reporting(s, i) && Runs(cfg, s, more)
    ensures DeadAbandoned(cfg, Exec(cfg, s, more)) && Reporting(Exec(cfg, s, more), i)
    decreases |more|
  {
    if |more| > 0 {
      DeadAbandonedStep(cfg, s, more[0], i);
      ReportBlockedForEver(cfg, Apply(cfg, s, more[0]), i, more[1..]);
    }
  }

  /** No continuation leaves the place. */
  ghost predicate StaysForEver(cfg: Config, s: State, here: State -> bool) {
    forall more :: Runs(cfg, s, more) ==> here(Exec(cfg, s, more))
  }

  /** Some continuation leaves the place. */
  ghost predicate CanLeave(cfg: Config, s: State, here: State -> bool) {
    exists more :: Runs(cfg, s, more) && !here(Exec(cfg, s, more))
  }

  lemma {:induction false} CanLeaveAfter(cfg: Config, s: State, e: Event, here: State -> bool)
    requires Enabled(cfg, s, e) && CanLeave(cfg, Apply(cfg, s, e), here)
    ensures CanLeave(cfg, s, here)
  {
    var more :| Runs(cfg, Apply(cfg, s, e), more) && !here(Exec(cfg, Apply(cfg, s, e), more));
    assert ([e] + more)[1..] == more;
    assert Runs(cfg, s, [e] + more) && Exec(cfg, s, [e] + more) == Exec(cfg, Apply(cfg, s, e), more);
  }

  lemma {:induction false} LeavesNow(cfg: Config, s: State, e: Event, here: State -> bool)
    requires Enabled(cfg, s, e) && !here(Apply(cfg, s, e))
    ensures CanLeave(cfg, s, here)
  {
    var s' := Apply(cfg, s, e);
    assert Runs(cfg, s', []) && !here(Exec(cfg, s', []));
    CanLeaveAfter(cfg, s, e, here);
  }

  function IsReporting(i: nat): State -> bool {
    (s: State) => Reporting(s, i)
  }

  /** A full `dead` that is not abandoned can get room without any reader moving. */
  lemma {:induction false} DeadRoomCanCome(cfg: Config, s: State, here: State -> bool)
    requires 0 < |s.dead| == Capacity(cfg) && |s.msg| <= Capacity(cfg) && !DeadAbandoned(cfg, s)
    requires forall x: State :: x.readers == s.readers && |x.dead| < Capacity(cfg) ==> CanLeave(cfg, x, here)
    ensures CanLeave(cfg, s, here)
    decreases s.writer.Requeueing?
  {
    match s.writer
    case Selecting => CanLeaveAfter(cfg, s, WriterToken, here);
    case Writing(_) =>
      var s1 := Apply(cfg, s, WriterWrite(false));
      CanLeaveAfter(cfg, s1, WriterToken, here);
      CanLeaveAfter(cfg, s, WriterWrite(false), here);
    case Checking =>
      var s1 := Apply(cfg, s, WriterCheck);
      CanLeaveAfter(cfg, s1, WriterToken, here);
      CanLeaveAfter(cfg, s, WriterCheck, here);
    case Requeueing(_) =>
      DeadRoomCanCome(cfg, Apply(cfg, s, WriterRequeue), here);
      CanLeaveAfter(cfg, s, WriterRequeue, here);
    case Returned(_) => assert false;
  }

  /** Exactly when a reader that reports its failure is blocked for ever. */
  lemma {:induction false} ReportStuckIff(cfg: Config, es: seq<Event>, s: State, i: nat)
    requires Reaches(cfg, es, s) && Reporting(s, i)
    ensures StaysForEver(cfg, s, IsReporting(i)) <==> DeadAbandoned(cfg, s)
  {
    ReachesInv(cfg, es, s);
    if DeadAbandoned(cfg, s) {
      forall more | Runs(cfg, s, more)
        ensures Reporting(Exec(cfg, s, more), i)
      {
        ReportBlockedForEver(cfg, s, i, more);
      }
    } else {
      forall x: State | x.readers == s.readers && |x.dead| < Capacity(cfg)
        ensures CanLeave(cfg, x, IsReporting(i))
      {
        LeavesNow(cfg, x, ReaderToken(i), IsReporting(i));
      }
      if |s.dead| == Capacity(cfg) {
        DeadRoomCanCome(cfg, s, IsReporting(i));
      }
      assert CanLeave(cfg, s, IsReporting(i));
    }
  }

  // ----- Where a sender can block on `msg` ---------------------------------------------------

  /** `msg` is full and the writer will not receive from it again: it has returned, it is blocked
      sending to it itself, or no adapter is living and its check makes it return. */
  predicate MsgAbandoned(cfg: Config, s: State) {
    && |s.msg| == Capacity(cfg)
    && (s.writer.Returned? || s.writer.Requeueing? || (s.living == {} && s.writer.Checking?))
  }

  predicate Sending(s: State, i: nat) {
    i < |s.readers| && s.readers[i].Sending?
  }

  lemma {:induction false} SendersStay(cfg: Config, s: State, e: Event, i: nat)
    requires MsgAbandoned(cfg, s) && Enabled(cfg, s, e)
    ensures MsgAbandoned(cfg, Apply(cfg, s, e))
    ensures Sending(s, i) ==> Sending(Apply(cfg, s, e), i)
    ensures s.client.ClientSending? ==> Apply(cfg, s, e).client.ClientSending?
  {}

  /** Whoever sends to an abandoned `msg` sends for ever. */
  lemma {:induction false} SendBlockedForEver(cfg: Config, s: State, i: nat, more: seq<Event>)
    requires MsgAbandoned(cfg, s) && Runs(cfg, s, more)
    ensures Sending(s, i) ==> Sending(Exec(cfg, s, more), i)
    ensures s.client.ClientSending? ==> Exec(cfg, s, more).client.ClientSending?
    decreases |more|
  {
    if |more| > 0 {
      SendersStay(cfg, s, more[0], i);
      SendBlockedForEver(cfg, Apply(cfg, s, more[0]), i, more[1..]);
    }
  }

  /** A full `msg` that is not abandoned can get room without any sender moving. */
  lemma {:induction false} RoomCanCome(cfg: Config, s: State, here: State -> bool)
    requires 0 < |s.msg| == Capacity(cfg) && !MsgAbandoned(cfg, s)
    requires forall x: State :: x.readers == s.readers && x.client == s.client && |x.msg| < Capacity(cfg) ==>
               CanLeave(cfg, x, here)
    ensures CanLeave(cfg, s, here)
  {
    match s.writer
    case Selecting => CanLeaveAfter(cfg, s, WriterDequeue, here);
    case Writing(_) =>
      var s1 := Apply(cfg, s, WriterWrite(false));
      CanLeaveAfter(cfg, s1, WriterDequeue, here);
      CanLeaveAfter(cfg, s, WriterWrite(false), here);
    case Checking =>
      var s1 := Apply(cfg, s, WriterCheck);
      CanLeaveAfter(cfg, s1, WriterDequeue, here);
      CanLeaveAfter(cfg, s, WriterCheck, here);
    case Requeueing(_) => assert false;
    case Returned(_) => assert false;
  }

  function IsSending(i: nat): State -> bool {
    (s: State) => Sending(s, i)
  }

  function ClientIsSending(): State -> bool {
    (s: State) => s.client.ClientSending?
  }

  /** Exactly when a reader that hands on a frame is blocked for ever. */
  lemma {:induction false} SendStuckIff(cfg: Config, es: seq<Event>, s: State, i: nat)
    requires Reaches(cfg, es, s) && Sending(s, i)
    ensures StaysForEver(cfg, s, IsSending(i)) <==> MsgAbandoned(cfg, s)
  {
    ReachesInv(cfg, es, s);
    if MsgAbandoned(cfg, s) {
      forall more | Runs(cfg, s, more)
        ensures Sending(Exec(cfg, s, more), i)
      {
        SendBlockedForEver(cfg, s, i, more);
      }
    } else {
      forall x: State | x.readers == s.readers && x.client == s.client && |x.msg| < Capacity(cfg)
        ensures CanLeave(cfg, x, IsSending(i))
      {
        LeavesNow(cfg, x, ReaderSend(i), IsSending(i));
      }
      if |s.msg| == Capacity(cfg) {
        RoomCanCome(cfg, s, IsSending(i));
      }
      assert CanLeave(cfg, s, IsSending(i));
    }
  }

  /** Exactly when the client reader, answering a ping, is blocked for ever. */
  lemma {:induction false} PongStuckIff(cfg: Config, es: seq<Event>, s: State)
    requires Reaches(cfg, es, s) && s.client.ClientSending?
    ensures StaysForEver(cfg, s, ClientIsSending()) <==> MsgAbandoned(cfg, s)
  {
    ReachesInv(cfg, es, s);
    if MsgAbandoned(cfg, s) {
      forall more | Runs(cfg, s, more)
        ensures Exec(cfg, s, more).client.ClientSending?
      {
        SendBlockedForEver(cfg, s, 0, more);
      }
    } else {
      forall x: State | x.readers == s.readers && x.client == s.client && |x.msg| < Capacity(cfg)
        ensures CanLeave(cfg, x, ClientIsSending())
      {
        LeavesNow(cfg, x, ClientSend, ClientIsSending());
      }
      if |s.msg| == Capacity(cfg) {
        RoomCanCome(cfg, s, ClientIsSending());
      }
      assert CanLeave(cfg, s, ClientIsSending());
    }
  }

  /** A run after which reader `i` reports for ever and the connection is counted as open for ever. */
  ghost predicate ReportLost(cfg: Config, es: seq<Event>, s: State, i: nat) {
    && Reaches(cfg, es, s) && s.pingFailed != {} && Reporting(s, i) && StaysForEver(cfg, s, IsReporting(i))
    && forall more :: Runs(cfg, s, more) ==> !Drained(Exec(cfg, s, more))
  }

  /** With failed pings the bound on `dead` is lost: for every configuration and reader some
      run leaves that reader blocked for ever, and its connection counted as open. */
  lemma {:induction false} ReportCanBlock(cfg: Config, i: nat)
    requires ValidConfig(cfg) && i < |cfg.targets|
    ensures exists es, s :: ReportLost(cfg, es, s, i)
  {
    FillDead(cfg, Capacity(cfg));
    var es, s :| DeadFilled(cfg, es, s, Capacity(cfg));
    es, s := Step(cfg, es, s, ReaderPoll(i));
    es, s := Step(cfg, es, s, ReaderFail(i));
    if s.pingFailed == {} {
      ReportNeverBlocks(cfg, es, s, i);
    }
    es, s := Step(cfg, es, s, Shutdown);
    es, s := Step(cfg, es, s, WriterShutdown);
    ReportStuckIff(cfg, es, s, i);
    forall more | Runs(cfg, s, more)
      ensures !Drained(Exec(cfg, s, more))
    {
      ReachesInv(cfg, es, s);
      ReportBlockedForEver(cfg, s, i, more);
    }
    assert ReportLost(cfg, es, s, i);
  }
}
