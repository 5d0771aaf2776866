/**
 The fan-in hub behind the web UI's streaming endpoints, as a transition system.

 One reader goroutine per adapter, one client reader, one writer and any number of
 short-lived ping goroutines share two buffered channels, a map of living adapters
 and two cancellation contexts.  An `Event` is one atomic step of one goroutine (or
 the server's shutdown); `Enabled` says when it can happen and `Apply` what it does.
 Every interleaving is a sequence of enabled events.

 The fields `read`, `out`, `written`, `writeFailures`, `tokens`, `pings`,
 `readFailed` and `pingFailed` are histories, and so is the `origin` of a message and
 the `cause` of a token: no branch of `Enabled` or `Apply` depends on them.
 */
module Hub {
  import opened Options

  // ----- Configuration ----------------------------------------------------------

  /** `fields(host, body)` is what the JSON encoder writes after the opening brace of
      the envelope for `host` and `body`, or None when marshalling fails. */
  datatype Config = Config(targets: seq<string>, fields: (string, string) -> Option<string>)

  predicate ValidConfig(cfg: Config) {
    |cfg.targets| >= 1
  }

  function Marshal(cfg: Config, host: string, body: string): Option<string> {
    match cfg.fields(host, body)
    case Some(rest) => Some("{" + rest)
    case None => None
  }

  function Capacity(cfg: Config): nat {
    |cfg.targets|
  }

  // ----- State ------------------------------------------------------------------

  datatype Kind = Text | Binary

  datatype Frame = Frame(kind: Kind, body: string)

  datatype Cause = ReadFailed(reader: nat) | PingFailed

  datatype Token = Token(host: string, cause: Cause)

  datatype Origin = FromAdapter(reader: nat) | FromClient | Closed(token: Token)

  datatype Message = Message(kind: Kind, text: string, origin: Origin)

  datatype ReaderPc = Polling | Reading | Sending(m: Message) | Reporting | Stopped

  datatype ClientPc = ClientPolling | ClientReading | ClientSending | ClientStopped

  datatype Exit = ServerShutdown | ClientGone | NoAdapters

  datatype WriterPc = Selecting | Writing(m: Message) | Requeueing(m: Message) | Checking | Returned(why: Exit)

  datatype PingPc = Pinging(host: string) | PingReporting(host: string) | PingDone

  datatype State = State(
    shutdown: bool,
    clientDead: bool,
    msg: seq<Message>,
    dead: seq<Token>,
    living: set<string>,
    readers: seq<ReaderPc>,
    client: ClientPc,
    writer: WriterPc,
    pingers: seq<PingPc>,
    read: seq<seq<Frame>>,
    out: seq<Message>,
    written: seq<Message>,
    writeFailures: nat,
    tokens: seq<Token>,
    pings: nat,
    readFailed: set<nat>,
    pingFailed: set<string>)

  function Init(cfg: Config): State {
    State(false, false, [], [], set h | h in cfg.targets,
          seq(|cfg.targets|, _ => Polling), ClientPolling, Selecting, [],
          seq(|cfg.targets|, _ => []), [], [], 0, [], 0, {}, {})
  }

  // ----- Steps ------------------------------------------------------------------

  datatype Event =
    | Shutdown
    | ReaderPoll(i: nat)
    | ReaderRead(i: nat, frame: Frame)
    | ReaderFail(i: nat)
    | ReaderSend(i: nat)
    | ReaderToken(i: nat)
    | ClientPoll
    | ClientRead(frame: Frame)
    | ClientFail
    | ClientSend
    | WriterShutdown
    | WriterClientDead
    | WriterTick(order: seq<string>)
    | WriterToken
    | WriterDequeue
    | WriterWrite(ok: bool)
    | WriterRequeue
    | WriterCheck
    | PingResult(k: nat, ok: bool)
    | PingToken(k: nat)

  predicate WriterEvent(e: Event) {
    e.WriterShutdown? || e.WriterClientDead? || e.WriterTick? || e.WriterToken? ||
    e.WriterDequeue? || e.WriterWrite? || e.WriterRequeue? || e.WriterCheck?
  }

  /** `order` lists the keys of the map once each, as a `range` over it does. */
  predicate Enumerates(order: seq<string>, keys: set<string>) {
    (set h | h in order) == keys && forall j, k :: 0 <= j < k < |order| ==> order[j] != order[k]
  }

  predicate Enabled(cfg: Config, s: State, e: Event) {
    match e
    case Shutdown => true
    case ReaderPoll(i) => i < |s.readers| && s.readers[i].Polling?
    case ReaderRead(i, _) => i < |s.readers| && i < |cfg.targets| && i < |s.read| && s.readers[i].Reading?
    case ReaderFail(i) => i < |s.readers| && s.readers[i].Reading?
    case ReaderSend(i) => i < |s.readers| && s.readers[i].Sending? && |s.msg| < Capacity(cfg)
    case ReaderToken(i) => i < |s.readers| && i < |cfg.targets| && s.readers[i].Reporting? && |s.dead| < Capacity(cfg)
    case ClientPoll => s.client.ClientPolling?
    case ClientRead(_) => s.client.ClientReading?
    case ClientFail => s.client.ClientReading?
    case ClientSend => s.client.ClientSending? && |s.msg| < Capacity(cfg)
    case WriterShutdown => s.writer.Selecting? && s.shutdown
    case WriterClientDead => s.writer.Selecting? && s.clientDead
    case WriterTick(order) => s.writer.Selecting? && Enumerates(order, s.living)
    case WriterToken => s.writer.Selecting? && |s.dead| > 0
    case WriterDequeue => s.writer.Selecting? && |s.msg| > 0
    case WriterWrite(_) => s.writer.Writing?
    case WriterRequeue => s.writer.Requeueing? && |s.msg| < Capacity(cfg)
    case WriterCheck => s.writer.Checking?
    case PingResult(k, _) => k < |s.pingers| && s.pingers[k].Pinging?
    case PingToken(k) => k < |s.pingers| && s.pingers[k].PingReporting? && |s.dead| < Capacity(cfg)
  }

  function Envelope(cfg: Config, i: nat, frame: Frame): Option<Message>
    requires i < |cfg.targets|
  {
    match Marshal(cfg, cfg.targets[i], frame.body)
    case Some(text) => Some(Message(frame.kind, text, FromAdapter(i)))
    case None => None
  }

  const PONG := Message(Text, "pong", FromClient)

  predicate IsPing(kind: Kind, text: string) {
    kind == Text && text == "ping"
  }

  /** The writer's answer to a queued literal ping. */
  function Rewrite(m: Message): Message {
    if IsPing(m.kind, m.text) then m.(text := "pong") else m
  }

  function Notice(cfg: Config, t: Token): Option<Message> {
    match Marshal(cfg, t.host, "websocket closed")
    case Some(text) => Some(Message(Text, text, Closed(t)))
    case None => None
  }

  function Spawned(order: seq<string>): seq<PingPc> {
    seq(|order|, k requires 0 <= k < |order| => Pinging(order[k]))
  }

  function Apply(cfg: Config, s: State, e: Event): State
    requires Enabled(cfg, s, e)
  {
    match e
    case Shutdown => s.(shutdown := true)
    case ReaderPoll(i) =>
      s.(readers := s.readers[i := if s.shutdown then Stopped else Reading])
    case ReaderRead(i, frame) =>
      var pc := match Envelope(cfg, i, frame) case Some(m) => Sending(m) case None => Polling;
      s.(readers := s.readers[i := pc], read := s.read[i := s.read[i] + [frame]])
    case ReaderFail(i) =>
      s.(readers := s.readers[i := Reporting], readFailed := s.readFailed + {i})
    case ReaderSend(i) =>
      s.(msg := s.msg + [s.readers[i].m], readers := s.readers[i := Polling])
    case ReaderToken(i) =>
      s.(dead := s.dead + [Token(cfg.targets[i], ReadFailed(i))], readers := s.readers[i := Stopped])
    case ClientPoll =>
      s.(client := if s.shutdown || s.clientDead then ClientStopped else ClientReading)
    case ClientRead(frame) =>
      if IsPing(frame.kind, frame.body) then s.(client := ClientSending, pings := s.pings + 1)
      else s.(client := ClientPolling)
    case ClientFail => s.(client := ClientStopped, clientDead := true)
    case ClientSend => s.(msg := s.msg + [PONG], client := ClientPolling)
    case WriterShutdown => s.(writer := Returned(ServerShutdown))
    case WriterClientDead => s.(writer := Returned(ClientGone))
    case WriterTick(order) => s.(pingers := s.pingers + Spawned(order), writer := Checking)
    case WriterToken =>
      var t := s.dead[0];
      var pc := match Notice(cfg, t) case Some(m) => Requeueing(m) case None => Selecting;
      s.(dead := s.dead[1..], living := s.living - {t.host}, tokens := s.tokens + [t], writer := pc)
    case WriterDequeue =>
      s.(msg := s.msg[1..], out := s.out + [s.msg[0]], writer := Writing(Rewrite(s.msg[0])))
    case WriterWrite(ok) =>
      if ok then s.(written := s.written + [s.writer.m], writer := Checking)
      else s.(writeFailures := s.writeFailures + 1, clientDead := true, writer := Selecting)
    case WriterRequeue => s.(msg := s.msg + [s.writer.m], writer := Checking)
    case WriterCheck => s.(writer := if s.living == {} then Returned(NoAdapters) else Selecting)
    case PingResult(k, ok) =>
      var host := s.pingers[k].host;
      if ok then s.(pingers := s.pingers[k := PingDone])
      else s.(pingers := s.pingers[k := PingReporting(host)], pingFailed := s.pingFailed + {host})
    case PingToken(k) =>
      s.(dead := s.dead + [Token(s.pingers[k].host, PingFailed)], pingers := s.pingers[k := PingDone])
  }

  /** `es` can happen, in this order, from `s`. */
  predicate Runs(cfg: Config, s: State, es: seq<Event>)
    decreases |es|
  {
    |es| == 0 || (Enabled(cfg, s, es[0]) && Runs(cfg, Apply(cfg, s, es[0]), es[1..]))
  }

  function Exec(cfg: Config, s: State, es: seq<Event>): State
    requires Runs(cfg, s, es)
    decreases |es|
  {
    if |es| == 0 then s else Exec(cfg, Apply(cfg, s, es[0]), es[1..])
  }

  // ----- Observations -----------------------------------------------------------

  /** Everything that ever entered `msg`, in order: what the writer took out, then what is left. */
  function Queue(s: State): seq<Message> {
    s.out + s.msg
  }

  /** The envelopes of the frames that could be marshalled. */
  function Envelopes(cfg: Config, i: nat, frames: seq<Frame>): seq<Message>
    requires i < |cfg.targets|
  {
    if frames == [] then []
    else
      var init := Envelopes(cfg, i, frames[..|frames| - 1]);
      match Envelope(cfg, i, frames[|frames| - 1])
      case Some(m) => init + [m]
      case None => init
  }

  function FromReader(ms: seq<Message>, i: nat): seq<Message> {
    if ms == [] then []
    else
      var init, m := FromReader(ms[..|ms| - 1], i), ms[|ms| - 1];
      if m.origin == FromAdapter(i) then init + [m] else init
  }

  function Pending(pc: ReaderPc): seq<Message> {
    if pc.Sending? then [pc.m] else []
  }

  function Notices(ms: seq<Message>): seq<Token> {
    if ms == [] then []
    else
      var init, m := Notices(ms[..|ms| - 1]), ms[|ms| - 1];
      if m.origin.Closed? then init + [m.origin.token] else init
  }

  /** The tokens whose notice can be marshalled. */
  function Announced(cfg: Config, ts: seq<Token>): seq<Token> {
    if ts == [] then []
    else
      var init, t := Announced(cfg, ts[..|ts| - 1]), ts[|ts| - 1];
      if Notice(cfg, t).Some? then init + [t] else init
  }

  function Requeued(pc: WriterPc): seq<Token> {
    if pc.Requeueing? && pc.m.origin.Closed? then [pc.m.origin.token] else []
  }

  function Pongs(ms: seq<Message>): nat {
    if ms == [] then 0
    else Pongs(ms[..|ms| - 1]) + if ms[|ms| - 1].origin.FromClient? then 1 else 0
  }

  function InFlight(pc: WriterPc): seq<Message> {
    if pc.Writing? then [pc.m] else []
  }

  function Hosts(ts: seq<Token>): set<string> {
    set t | t in ts :: t.host
  }
}
