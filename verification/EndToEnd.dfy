/**
 From the adapters' sockets to the page: what a host's pane shows while the stream runs is what
 the hub read from that host's adapter, in order, up to some frame.
 */
module EndToEnd {
  import opened Options
  import Hub
  import HubInvariants
  import HubTheorems
  import Stream = StreamTimer
  import Page = StreamTheorems
  import Graph

  const NOTICE := "websocket closed"

  // ----- Envelopes as the page decodes them ---------------------------------------------------

  /** A frame whose body is the hub's notice cannot be told from the notice. */
  function Decoded(format: string -> Option<string>, host: string, body: string): Stream.Message {
    if body == NOTICE then Stream.Notice(host) else Stream.Item(host, format(body))
  }

  /** `parse` undoes the hub's envelopes; `format` is the formatter of the stream. */
  ghost predicate Decodes(cfg: Hub.Config, parse: string -> Stream.Message, format: string -> Option<string>) {
    && parse("pong") == Stream.Pong
    && forall h, b :: h in cfg.targets && Hub.Marshal(cfg, h, b).Some? ==>
         parse(Hub.Marshal(cfg, h, b).value) == Decoded(format, h, b)
  }

  /** Only text frames reach the decoder as text. */
  function Receive(parse: string -> Stream.Message, m: Hub.Message): Stream.Message {
    if m.kind == Hub.Text then parse(m.text) else Stream.Garbled
  }

  function Receives(parse: string -> Stream.Message, ms: seq<Hub.Message>): seq<Stream.Message> {
    if ms == [] then [] else Receives(parse, ms[..|ms| - 1]) + [Receive(parse, ms[|ms| - 1])]
  }

  function Pane(kind: Stream.Kind, parse: string -> Stream.Message, ms: seq<Hub.Message>, host: string): string {
    if ms == [] then ""
    else Pane(kind, parse, ms[..|ms| - 1], host) + Page.Piece(kind, Receive(parse, ms[|ms| - 1]), host)
  }

  /** What the frames of host `i` are shown as: one that could not be marshalled, or that is not
      text, as nothing. */
  function FrameText(cfg: Hub.Config, kind: Stream.Kind, format: string -> Option<string>, i: nat, frame: Hub.Frame): string
    requires i < |cfg.targets|
  {
    if Hub.Marshal(cfg, cfg.targets[i], frame.body).Some? && frame.kind == Hub.Text then
      Page.Piece(kind, Decoded(format, cfg.targets[i], frame.body), cfg.targets[i])
    else ""
  }

  function FramesText(cfg: Hub.Config, kind: Stream.Kind, format: string -> Option<string>, i: nat, frames: seq<Hub.Frame>): string
    requires i < |cfg.targets|
  {
    if frames == [] then ""
    else FramesText(cfg, kind, format, i, frames[..|frames| - 1]) + FrameText(cfg, kind, format, i, frames[|frames| - 1])
  }

  // ----- The hub's messages are genuine ---------------------------------------------------------

  ghost predicate Genuine(cfg: Hub.Config, m: Hub.Message) {
    match m.origin
    case FromAdapter(i) => i < |cfg.targets| && exists body :: Hub.Marshal(cfg, cfg.targets[i], body) == Some(m.text)
    case FromClient => m == Hub.PONG
    case Closed(t) => t.host in cfg.targets && Hub.Marshal(cfg, t.host, NOTICE) == Some(m.text)
  }

  ghost predicate AllGenuine(cfg: Hub.Config, s: Hub.State) {
    && (forall i :: 0 <= i < |s.readers| && s.readers[i].Sending? ==> Genuine(cfg, s.readers[i].m))
    && (s.writer.Requeueing? ==> Genuine(cfg, s.writer.m))
    && (forall p :: 0 <= p < |Hub.Queue(s)| ==> Genuine(cfg, Hub.Queue(s)[p]))
  }

  lemma {:induction false} GenuineStep(cfg: Hub.Config, s: Hub.State, e: Hub.Event)
    requires HubInvariants.Tokens(cfg, s) && AllGenuine(cfg, s) && Hub.Enabled(cfg, s, e)
    ensures AllGenuine(cfg, Hub.Apply(cfg, s, e))
  {
    HubInvariants.QueueStep(cfg, s, e);
    if e.ReaderRead? {
      if Hub.Envelope(cfg, e.i, e.frame).Some? {
        assert Hub.Marshal(cfg, cfg.targets[e.i], e.frame.body) == Some(Hub.Envelope(cfg, e.i, e.frame).value.text);
      }
    } else if e.WriterToken? {
      assert HubInvariants.KnownToken(cfg, s, s.dead[0]);
    }
  }

  lemma {:induction false} GenuineRun(cfg: Hub.Config, s: Hub.State, es: seq<Hub.Event>)
    requires HubInvariants.Inv(cfg, s) && AllGenuine(cfg, s) && Hub.Runs(cfg, s, es)
    ensures AllGenuine(cfg, Hub.Exec(cfg, s, es))
    decreases |es|
  {
    if |es| > 0 {
      GenuineStep(cfg, s, es[0]);
      HubInvariants.InvStep(cfg, s, es[0]);
      GenuineRun(cfg, Hub.Apply(cfg, s, es[0]), es[1..]);
    }
  }

  // ----- Only a host's own messages reach its pane ------------------------------------------------

  ghost predicate NoNoticeOf(ms: seq<Hub.Message>, host: string) {
    forall p :: 0 <= p < |ms| ==> !(ms[p].origin.Closed? && ms[p].origin.token.host == host)
  }

  lemma {:induction false} OthersSayNothing(cfg: Hub.Config, kind: Stream.Kind, parse: string -> Stream.Message,
                                            format: string -> Option<string>, i: nat, m: Hub.Message)
    requires Decodes(cfg, parse, format) && Graph.NoDup(cfg.targets) && i < |cfg.targets|
    requires Genuine(cfg, m) && m.origin != Hub.FromAdapter(i)
    requires !(m.origin.Closed? && m.origin.token.host == cfg.targets[i])
    ensures Page.Piece(kind, Receive(parse, m), cfg.targets[i]) == ""
  {
    match m.origin
    case FromAdapter(j) =>
      var body :| Hub.Marshal(cfg, cfg.targets[j], body) == Some(m.text);
      assert parse(Hub.Marshal(cfg, cfg.targets[j], body).value) == Decoded(format, cfg.targets[j], body);
      assert cfg.targets[i] != cfg.targets[j];
    case FromClient =>
    case Closed(t) =>
      assert parse(Hub.Marshal(cfg, t.host, NOTICE).value) == Decoded(format, t.host, NOTICE);
  }

  lemma {:induction false} OnlyOwnMessages(cfg: Hub.Config, kind: Stream.Kind, parse: string -> Stream.Message,
                                           format: string -> Option<string>, i: nat, ms: seq<Hub.Message>)
    requires Decodes(cfg, parse, format) && Graph.NoDup(cfg.targets) && i < |cfg.targets|
    requires NoNoticeOf(ms, cfg.targets[i]) && forall p :: 0 <= p < |ms| ==> Genuine(cfg, ms[p])
    ensures Pane(kind, parse, ms, cfg.targets[i]) == Pane(kind, parse, Hub.FromReader(ms, i), cfg.targets[i])
  {
    if ms != [] {
      var init, m := ms[..|ms| - 1], ms[|ms| - 1];
      OnlyOwnMessages(cfg, kind, parse, format, i, init);
      if m.origin == Hub.FromAdapter(i) {
        PaneSnoc(kind, parse, Hub.FromReader(init, i), m, cfg.targets[i]);
      } else {
        OthersSayNothing(cfg, kind, parse, format, i, m);
      }
    }
  }

  lemma {:induction false} PaneSnoc(kind: Stream.Kind, parse: string -> Stream.Message, ms: seq<Hub.Message>,
                                    m: Hub.Message, host: string)
    ensures Pane(kind, parse, ms + [m], host) == Pane(kind, parse, ms, host) + Page.Piece(kind, Receive(parse, m), host)
  {
    assert (ms + [m])[..|ms|] == ms;
  }

  lemma {:induction false} EnvelopesShow(cfg: Hub.Config, kind: Stream.Kind, parse: string -> Stream.Message,
                                         format: string -> Option<string>, i: nat, frames: seq<Hub.Frame>)
    requires Decodes(cfg, parse, format) && i < |cfg.targets|
    ensures Pane(kind, parse, Hub.Envelopes(cfg, i, frames), cfg.targets[i]) == FramesText(cfg, kind, format, i, frames)
  {
    if frames != [] {
      var init, frame := frames[..|frames| - 1], frames[|frames| - 1];
      EnvelopesShow(cfg, kind, parse, format, i, init);
      match Hub.Envelope(cfg, i, frame)
      case Some(m) =>
        PaneSnoc(kind, parse, Hub.Envelopes(cfg, i, init), m, cfg.targets[i]);
        assert Receive(parse, m) ==
               if frame.kind == Hub.Text then parse(Hub.Marshal(cfg, cfg.targets[i], frame.body).value) else Stream.Garbled;
      case None =>
    }
  }

  ghost predicate EnvelopesOfFirst(cfg: Hub.Config, i: nat, frames: seq<Hub.Frame>, ms: seq<Hub.Message>, n: nat)
    requires i < |cfg.targets|
  {
    n <= |frames| && Hub.Envelopes(cfg, i, frames[..n]) == ms
  }

  lemma {:induction false} EnvelopesPrefix(cfg: Hub.Config, i: nat, frames: seq<Hub.Frame>, ms: seq<Hub.Message>)
    requires i < |cfg.targets| && ms <= Hub.Envelopes(cfg, i, frames)
    ensures exists n: nat :: EnvelopesOfFirst(cfg, i, frames, ms, n)
  {
    if ms == Hub.Envelopes(cfg, i, frames) {
      assert frames[..|frames|] == frames;
      assert EnvelopesOfFirst(cfg, i, frames, ms, |frames|);
    } else {
      var init := frames[..|frames| - 1];
      EnvelopesPrefix(cfg, i, init, ms);
      var n: nat :| EnvelopesOfFirst(cfg, i, init, ms, n);
      assert init[..n] == frames[..n];
      assert EnvelopesOfFirst(cfg, i, frames, ms, n);
    }
  }

  // ----- What the page has heard -----------------------------------------------------------------

  function Heard(run: seq<Page.Timed>): seq<Stream.Message> {
    if run == [] then []
    else (if run[0].event.Received? then [run[0].event.message] else []) + Heard(run[1..])
  }

  function SaidBy(kind: Stream.Kind, ms: seq<Stream.Message>, host: string): string {
    if ms == [] then "" else Page.Piece(kind, ms[0], host) + SaidBy(kind, ms[1..], host)
  }

  lemma {:induction false} SaidIsHeard(kind: Stream.Kind, run: seq<Page.Timed>, host: string)
    ensures Page.Said(kind, run, host) == SaidBy(kind, Heard(run), host)
  {
    if run != [] {
      SaidIsHeard(kind, run[1..], host);
      if run[0].event.Received? {
        assert Heard(run)[1..] == Heard(run[1..]);
      } else {
        assert Heard(run) == Heard(run[1..]);
      }
    }
  }

  lemma {:induction false} SaidBySnoc(kind: Stream.Kind, ms: seq<Stream.Message>, m: Stream.Message, host: string)
    ensures SaidBy(kind, ms + [m], host) == SaidBy(kind, ms, host) + Page.Piece(kind, m, host)
    decreases |ms|
  {
    if ms == [] {
      assert ms + [m] == [m];
      assert [m][1..] == [];
      assert SaidBy(kind, [m], host) == Page.Piece(kind, m, host) + SaidBy(kind, [], host);
    } else {
      assert (ms + [m])[1..] == ms[1..] + [m];
      SaidBySnoc(kind, ms[1..], m, host);
      Page.AssocText(Page.Piece(kind, ms[0], host), SaidBy(kind, ms[1..], host), Page.Piece(kind, m, host));
    }
  }

  lemma {:induction false} PaneIsSaid(kind: Stream.Kind, parse: string -> Stream.Message, ms: seq<Hub.Message>, host: string)
    ensures SaidBy(kind, Receives(parse, ms), host) == Pane(kind, parse, ms, host)
  {
    if ms != [] {
      PaneIsSaid(kind, parse, ms[..|ms| - 1], host);
      SaidBySnoc(kind, Receives(parse, ms[..|ms| - 1]), Receive(parse, ms[|ms| - 1]), host);
    }
  }

  // ----- End to end --------------------------------------------------------------------------------

  lemma {:induction false} OwnPartIsPrefix(cfg: Hub.Config, es: seq<Hub.Event>, s: Hub.State, i: nat, k: nat)
    requires HubTheorems.Reaches(cfg, es, s) && s.writeFailures == 0 && i < |cfg.targets| && k <= |s.written|
    ensures i < |s.read| && Hub.FromReader(s.written[..k], i) <= Hub.Envelopes(cfg, i, s.read[i])
  {
    HubTheorems.ClientSeesPrefix(cfg, es, s, i);
    assert s.written == s.written[..k] + s.written[k..];
    HubInvariants.FromReaderConcat(s.written[..k], s.written[k..], i);
  }

  /** What was written for reader `i` is an initial part of what it read. */
  lemma {:induction false} WrittenPartShows(cfg: Hub.Config, es: seq<Hub.Event>, s: Hub.State, i: nat, k: nat,
                                            kind: Stream.Kind, parse: string -> Stream.Message,
                                            format: string -> Option<string>)
    returns (n: nat)
    requires HubTheorems.Reaches(cfg, es, s) && s.writeFailures == 0
    requires i < |cfg.targets| && Graph.NoDup(cfg.targets) && Decodes(cfg, parse, format)
    requires k <= |s.written| && NoNoticeOf(s.written[..k], cfg.targets[i])
    ensures i < |s.read| && n <= |s.read[i]|
    ensures Pane(kind, parse, s.written[..k], cfg.targets[i]) == FramesText(cfg, kind, format, i, s.read[i][..n])
  {
    var ms := s.written[..k];
    OwnPartIsPrefix(cfg, es, s, i, k);
    assert forall p :: 0 <= p < |ms| ==> Genuine(cfg, ms[p]) by {
      HubTheorems.ReachesInv(cfg, es, s);
      WrittenIsGenuine(cfg, es, s);
    }
    OnlyOwnMessages(cfg, kind, parse, format, i, ms);
    EnvelopesPrefix(cfg, i, s.read[i], Hub.FromReader(ms, i));
    n :| EnvelopesOfFirst(cfg, i, s.read[i], Hub.FromReader(ms, i), n);
    EnvelopesShow(cfg, kind, parse, format, i, s.read[i][..n]);
  }

  lemma {:induction false} QueueIsGenuine(cfg: Hub.Config, es: seq<Hub.Event>, s: Hub.State)
    requires HubTheorems.Reaches(cfg, es, s)
    ensures forall p :: 0 <= p < |Hub.Queue(s)| ==> Genuine(cfg, Hub.Queue(s)[p])
  {
    HubInvariants.InvInit(cfg);
    assert Hub.Queue(Hub.Init(cfg)) == [];
    GenuineRun(cfg, Hub.Init(cfg), es);
  }

  lemma {:induction false} WrittenIsGenuine(cfg: Hub.Config, es: seq<Hub.Event>, s: Hub.State)
    requires HubTheorems.Reaches(cfg, es, s) && s.writeFailures == 0 && HubInvariants.Delivery(s)
    ensures forall p :: 0 <= p < |s.written| ==> Genuine(cfg, s.written[p])
  {
    QueueIsGenuine(cfg, es, s);
    assert s.out == s.written + Hub.InFlight(s.writer);
    assert forall p :: 0 <= p < |s.written| ==> Hub.Queue(s)[p] == s.written[p];
  }

  /** Suppose the page opened one connection, the hub is in any reachable state with no failed
      write, and the page has heard some first part of what the hub wrote.  Then, until the hub
      announces that the host is gone, the host's pane is exactly the text of the first `n` frames
      its reader read, however many hosts share the connection. */
  lemma {:induction false} PageShowsFramesInOrder(
    cfg: Hub.Config, es: seq<Hub.Event>, s: Hub.State, i: nat, k: nat,
    parse: string -> Stream.Message, format: string -> Option<string>,
    page: Stream.Hook, socket: nat, clock: int, run: seq<Page.Timed>)
    returns (n: nat)
    requires HubTheorems.Reaches(cfg, es, s) && s.writeFailures == 0
    requires i < |cfg.targets| && Graph.NoDup(cfg.targets) && Decodes(cfg, parse, format)
    requires Page.Runs(page, clock, run) && Page.OneConnection(run, socket)
    requires page.current == Some(socket) && socket < |page.sockets| && Stream.Shown(page.text, cfg.targets[i]) == ""
    requires Page.Exec(page, clock, run).current == Some(socket)
    requires k <= |s.written| && Heard(run) == Receives(parse, s.written[..k])
    requires NoNoticeOf(s.written[..k], cfg.targets[i])
    ensures i < |s.read| && n <= |s.read[i]|
    ensures Stream.Shown(Page.Exec(page, clock, run).text, cfg.targets[i]) ==
            FramesText(cfg, page.sockets[socket].kind, format, i, s.read[i][..n])
  {
    var kind, host := page.sockets[socket].kind, cfg.targets[i];
    n := WrittenPartShows(cfg, es, s, i, k, kind, parse, format);
    Page.PaneIsWhatWasSaid(page, socket, clock, run, host);
    SaidIsHeard(kind, run, host);
    PaneIsSaid(kind, parse, s.written[..k], host);
  }
}
