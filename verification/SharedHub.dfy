/**
 The goroutines of the hub as imperative code over the shared channels, map and contexts.

 Each method is the step its goroutine takes next: it either moves or, when the operation
 it has reached blocks, leaves everything as it was.  The contracts tie each method to the
 transition system, whose invariants it therefore keeps.  Histories are ghost.
 */
module SharedHub {
  import opened Options
  import opened Hub
  import opened HubInvariants
  import opened HubTheorems
  import Strings

  /** What a socket read returns. */
  datatype ReadResult = Got(frame: Frame) | ReadError

  /** The case a `select` commits to. */
  datatype Case = OnShutdown | OnClientDead | OnTick(order: seq<string>) | OnDead | OnMsg

  class Channels {
    const cfg: Config
    var shutdown: bool
    var clientDead: bool
    var msg: seq<Message>
    var dead: seq<Token>
    var living: set<string>
    var readers: seq<ReaderPc>
    var client: ClientPc
    var writer: WriterPc
    var pingers: seq<PingPc>
    ghost var read: seq<seq<Frame>>
    ghost var out: seq<Message>
    ghost var written: seq<Message>
    ghost var writeFailures: nat
    ghost var tokens: seq<Token>
    ghost var pings: nat
    ghost var readFailed: set<nat>
    ghost var pingFailed: set<string>

    ghost function View(): State
      reads this
    {
      State(shutdown, clientDead, msg, dead, living, readers, client, writer, pingers,
            read, out, written, writeFailures, tokens, pings, readFailed, pingFailed)
    }

    ghost predicate Valid()
      reads this
    {
      ValidConfig(cfg) && Shape(cfg, View())
    }

    constructor (cfg: Config, conns: set<string>, readers: seq<ReaderPc>)
      requires ValidConfig(cfg)
      requires conns == (set h | h in cfg.targets)
      requires readers == seq(|cfg.targets|, _ => Polling)
      ensures Valid() && this.cfg == cfg && View() == Init(cfg)
    {
      this.cfg := cfg;
      shutdown, clientDead := false, false;
      msg, dead, living, this.readers := [], [], conns, readers;
      client, writer, pingers := ClientPolling, Selecting, [];
      read := seq(|cfg.targets|, _ => []);
      out, written, writeFailures, tokens, pings, readFailed, pingFailed := [], [], 0, [], 0, {}, {};
    }

    // ----- Adapter reader ------------------------------------------------------------

    ghost function ReaderEvent(i: nat, input: ReadResult): Event
      requires i < |readers|
      reads this
    {
      match readers[i]
      case Polling => ReaderPoll(i)
      case Reading => if input.Got? then ReaderRead(i, input.frame) else ReaderFail(i)
      case Sending(_) => ReaderSend(i)
      case Reporting => ReaderToken(i)
      case Stopped => ReaderToken(i)
    }

    method AdapterReader(i: nat, input: ReadResult) returns (moved: bool)
      requires Valid() && i < |readers|
      modifies this
      ensures Valid()
      ensures moved == Enabled(cfg, old(View()), old(ReaderEvent(i, input)))
      ensures View() == if moved then Apply(cfg, old(View()), old(ReaderEvent(i, input))) else old(View())
    {
      ghost var was, e := View(), ReaderEvent(i, input);
      moved := true;
      match readers[i]
      case Polling => PollShutdown(i);
      case Reading => ReadAdapter(i, input);
      case Sending(_) =>
        moved := |msg| < Capacity(cfg);
        if moved {
          SendFrame(i);
        }
      case Reporting =>
        moved := |dead| < Capacity(cfg);
        if moved {
          ReportDeath(i);
        }
      case Stopped => moved := false;
      if moved {
        ShapeStep(cfg, was, e);
      }
    }

    method PollShutdown(i: nat)
      requires Valid() && i < |readers| && readers[i].Polling?
      modifies this`readers
      ensures View() == Apply(cfg, old(View()), ReaderPoll(i))
    {
      readers := readers[i := if shutdown then Stopped else Reading];
    }

    method ReadAdapter(i: nat, input: ReadResult)
      requires Valid() && i < |readers| && readers[i].Reading?
      modifies this`readers, this`read, this`readFailed
      ensures View() == Apply(cfg, old(View()), if input.Got? then ReaderRead(i, input.frame) else ReaderFail(i))
    {
      match input
      case ReadError =>
        readers := readers[i := Reporting];
        readFailed := readFailed + {i};
      case Got(frame) =>
        read := read[i := read[i] + [frame]];
        match Marshal(cfg, cfg.targets[i], frame.body) {
          case None => readers := readers[i := Polling];
          case Some(text) => readers := readers[i := Sending(Message(frame.kind, text, FromAdapter(i)))];
        }
    }

    method SendFrame(i: nat)
      requires Valid() && i < |readers| && readers[i].Sending? && |msg| < Capacity(cfg)
      modifies this`readers, this`msg
      ensures View() == Apply(cfg, old(View()), ReaderSend(i))
    {
      msg := msg + [readers[i].m];
      readers := readers[i := Polling];
    }

    method ReportDeath(i: nat)
      requires Valid() && i < |readers| && readers[i].Reporting? && |dead| < Capacity(cfg)
      modifies this`readers, this`dead
      ensures View() == Apply(cfg, old(View()), ReaderToken(i))
    {
      dead := dead + [Token(cfg.targets[i], ReadFailed(i))];
      readers := readers[i := Stopped];
    }

    // ----- Client reader ---------------------------------------------------------------

    ghost function ClientEvent(input: ReadResult): Event
      reads this
    {
      match client
      case ClientPolling => ClientPoll
      case ClientReading => if input.Got? then ClientRead(input.frame) else ClientFail
      case ClientSending => ClientSend
      case ClientStopped => ClientSend
    }

    method ClientReader(input: ReadResult) returns (moved: bool)
      requires Valid()
      modifies this
      ensures Valid()
      ensures moved == Enabled(cfg, old(View()), old(ClientEvent(input)))
      ensures View() == if moved then Apply(cfg, old(View()), old(ClientEvent(input))) else old(View())
    {
      ghost var was, e := View(), ClientEvent(input);
      moved := true;
      match client
      case ClientPolling => client := if shutdown || clientDead then ClientStopped else ClientReading;
      case ClientReading => ReadClient(input);
      case ClientSending =>
        moved := |msg| < Capacity(cfg);
        if moved {
          SendPong();
        }
      case ClientStopped => moved := false;
      if moved {
        ShapeStep(cfg, was, e);
      }
    }

    method ReadClient(input: ReadResult)
      requires Valid() && client.ClientReading?
      modifies this`client, this`clientDead, this`pings
      ensures View() == Apply(cfg, old(View()), if input.Got? then ClientRead(input.frame) else ClientFail)
      ensures clientDead == (old(clientDead) || input.ReadError?)
      ensures client == if input.ReadError? then ClientStopped
                        else if input.frame == Frame(Text, "ping") then ClientSending else ClientPolling
    {
      match input
      case ReadError =>
        clientDead := true;
        client := ClientStopped;
      case Got(frame) =>
        if frame.kind == Text && frame.body == "ping" {
          pings := pings + 1;
          client := ClientSending;
        } else {
          client := ClientPolling;
        }
    }

    method SendPong()
      requires Valid() && client.ClientSending? && |msg| < Capacity(cfg)
      modifies this`client, this`msg
      ensures View() == Apply(cfg, old(View()), ClientSend)
    {
      msg := msg + [Message(Text, "pong", FromClient)];
      client := ClientPolling;
    }

    // ----- Client writer ------------------------------------------------------------------

    ghost function WriterEventFor(pick: Case, ok: bool): Event
      reads this
    {
      match writer
      case Selecting =>
        (match pick
         case OnShutdown => WriterShutdown
         case OnClientDead => WriterClientDead
         case OnTick(order) => WriterTick(order)
         case OnDead => WriterToken
         case OnMsg => WriterDequeue)
      case Writing(_) => WriterWrite(ok)
      case Requeueing(_) => WriterRequeue
      case Checking => WriterCheck
      case Returned(_) => WriterCheck
    }

    method ClientWriter(pick: Case, ok: bool) returns (moved: bool)
      requires Valid()
      requires pick.OnTick? ==> Enumerates(pick.order, living)
      modifies this
      ensures Valid()
      ensures moved == Enabled(cfg, old(View()), old(WriterEventFor(pick, ok)))
      ensures View() == if moved then Apply(cfg, old(View()), old(WriterEventFor(pick, ok))) else old(View())
    {
      ghost var was, e := View(), WriterEventFor(pick, ok);
      match writer
      case Selecting => moved := Select(pick);
      case Writing(_) =>
        moved := true;
        FinishWrite(ok);
      case Requeueing(m) =>
        moved := |msg| < Capacity(cfg);
        if moved {
          Requeue(m);
        }
      case Checking =>
        moved := true;
        CheckLiving();
      case Returned(_) => moved := false;
      if moved {
        ShapeStep(cfg, was, e);
      }
    }

    method Requeue(m: Message)
      requires Valid() && writer == Requeueing(m) && |msg| < Capacity(cfg)
      modifies this`msg, this`writer
      ensures View() == Apply(cfg, old(View()), WriterRequeue)
    {
      msg := msg + [m];
      writer := Checking;
    }

    method CheckLiving()
      requires Valid() && writer.Checking?
      modifies this`writer
      ensures View() == Apply(cfg, old(View()), WriterCheck)
    {
      writer := if living == {} then Returned(NoAdapters) else Selecting;
    }

    method FinishWrite(ok: bool)
      requires Valid() && writer.Writing?
      modifies this`writer, this`written, this`writeFailures, this`clientDead
      ensures View() == Apply(cfg, old(View()), WriterWrite(ok))
      ensures clientDead == (old(clientDead) || !ok) && writer == if ok then Checking else Selecting
    {
      if ok {
        written := written + [writer.m];
        writer := Checking;
      } else {
        writeFailures := writeFailures + 1;
        clientDead := true;
        writer := Selecting;
      }
    }

    method Select(pick: Case) returns (moved: bool)
      requires Valid() && writer.Selecting?
      requires pick.OnTick? ==> Enumerates(pick.order, living)
      modifies this
      ensures moved == Enabled(cfg, old(View()), old(WriterEventFor(pick, true)))
      ensures View() == if moved then Apply(cfg, old(View()), old(WriterEventFor(pick, true))) else old(View())
    {
      match pick
      case OnShutdown =>
        moved := shutdown;
        if shutdown {
          writer := Returned(ServerShutdown);
        }
      case OnClientDead =>
        moved := clientDead;
        if clientDead {
          writer := Returned(ClientGone);
        }
      case OnTick(order) =>
        moved := true;
        SpawnPings(order);
        writer := Checking;
      case OnDead =>
        moved := |dead| > 0;
        if moved {
          TakeToken();
        }
      case OnMsg =>
        moved := |msg| > 0;
        if moved {
          TakeMessage();
        }
    }

    method SpawnPings(order: seq<string>)
      modifies this`pingers
      ensures pingers == old(pingers) + Spawned(order)
    {
      for k := 0 to |order|
        invariant pingers == old(pingers) + Spawned(order[..k])
      {
        pingers := pingers + [Pinging(order[k])];
        assert Spawned(order[..k + 1]) == Spawned(order[..k]) + [Pinging(order[k])];
      }
      assert order[..|order|] == order;
    }

    method TakeToken()
      requires Valid() && writer.Selecting? && |dead| > 0
      modifies this`writer, this`dead, this`living, this`tokens
      ensures View() == Apply(cfg, old(View()), WriterToken)
    {
      var t := RemoveAdapter();
      Announce(t);
    }

    method RemoveAdapter() returns (t: Token)
      requires |dead| > 0
      modifies this`dead, this`living, this`tokens
      ensures t == old(dead)[0]
      ensures View() == old(View()).(dead := old(dead)[1..], living := old(living) - {t.host}, tokens := old(tokens) + [t])
    {
      t := dead[0];
      dead := dead[1..];
      living := living - {t.host};
      tokens := tokens + [t];
    }

    method Announce(t: Token)
      modifies this`writer
      ensures View() == old(View()).(writer := match Notice(cfg, t) case Some(m) => Requeueing(m) case None => Selecting)
    {
      match Marshal(cfg, t.host, "websocket closed")
      case None => writer := Selecting;
      case Some(text) => writer := Requeueing(Message(Text, text, Closed(t)));
    }

    method TakeMessage()
      requires Valid() && writer.Selecting? && |msg| > 0
      modifies this`writer, this`msg, this`out
      ensures View() == Apply(cfg, old(View()), WriterDequeue)
    {
      var m := msg[0];
      msg := msg[1..];
      out := out + [m];
      if m.kind == Text && m.text == "ping" {
        m := m.(text := "pong");
      }
      writer := Writing(m);
    }

    // ----- Background ping -------------------------------------------------------------------

    ghost function PingEvent(k: nat, ok: bool): Event
      requires k < |pingers|
      reads this
    {
      if pingers[k].Pinging? then PingResult(k, ok) else PingToken(k)
    }

    method Pinger(k: nat, ok: bool) returns (moved: bool)
      requires Valid() && k < |pingers|
      modifies this
      ensures Valid()
      ensures moved == Enabled(cfg, old(View()), old(PingEvent(k, ok)))
      ensures View() == if moved then Apply(cfg, old(View()), old(PingEvent(k, ok))) else old(View())
    {
      moved := true;
      match pingers[k]
      case Pinging(host) =>
        if ok {
          pingers := pingers[k := PingDone];
        } else {
          pingFailed := pingFailed + {host};
          pingers := pingers[k := PingReporting(host)];
        }
      case PingReporting(host) =>
        if |dead| == Capacity(cfg) {
          moved := false;
          return;
        }
        dead := dead + [Token(host, PingFailed)];
        pingers := pingers[k := PingDone];
      case PingDone =>
        moved := false;
        return;
    }

    method Stop()
      requires Valid()
      modifies this
      ensures Valid() && View() == old(View()).(shutdown := true)
    {
      shutdown := true;
    }
  }

  /** One turn given to one goroutine by the scheduler, with what its environment answers. */
  datatype Turn =
    | AdapterTurn(i: nat, input: ReadResult)
    | ClientTurn(input: ReadResult)
    | WriterTurn(pick: Case, ok: bool)
    | PingTurn(k: nat, ok: bool)
    | StopTurn

  /** A turn of a goroutine that does not exist, or of one that is blocked, changes nothing. */
  method Take(hub: Channels, turn: Turn) returns (moved: bool, ghost e: Event)
    requires hub.Valid()
    modifies hub
    ensures hub.Valid()
    ensures moved ==> Enabled(hub.cfg, old(hub.View()), e)
    ensures hub.View() == if moved then Apply(hub.cfg, old(hub.View()), e) else old(hub.View())
  {
    moved, e := false, Shutdown;
    match turn
    case AdapterTurn(i, input) =>
      if i < |hub.readers| {
        e := hub.ReaderEvent(i, input);
        moved := hub.AdapterReader(i, input);
      }
    case ClientTurn(input) =>
      e := hub.ClientEvent(input);
      moved := hub.ClientReader(input);
    case WriterTurn(pick, ok) =>
      if pick.OnTick? ==> Enumerates(pick.order, hub.living) {
        e := hub.WriterEventFor(pick, ok);
        moved := hub.ClientWriter(pick, ok);
      }
    case PingTurn(k, ok) =>
      if k < |hub.pingers| {
        e := hub.PingEvent(k, ok);
        moved := hub.Pinger(k, ok);
      }
    case StopTurn =>
      hub.Stop();
      moved := true;
  }

  /** Any schedule of the goroutines is a run of the transition system, so everything proved
      of runs holds of the code. */
  method Drive(hub: Channels, schedule: seq<Turn>) returns (ghost es: seq<Event>)
    requires hub.Valid()
    modifies hub
    ensures hub.Valid()
    ensures Runs(hub.cfg, old(hub.View()), es) && hub.View() == Exec(hub.cfg, old(hub.View()), es)
  {
    es := [];
    for n := 0 to |schedule|
      invariant hub.Valid()
      invariant Runs(hub.cfg, old(hub.View()), es) && hub.View() == Exec(hub.cfg, old(hub.View()), es)
    {
      var moved, e := Take(hub, schedule[n]);
      if moved {
        RunsSnoc(hub.cfg, old(hub.View()), es, e);
        es := es + [e];
      }
    }
  }

  /** The k-th target has a known adapter that can be dialled. */
  predicate CanDial(targets: seq<string>, adapters: map<string, string>, dials: nat -> bool, k: nat)
    requires k < |targets|
  {
    targets[k] in adapters && adapters[targets[k]] != "" && dials(k)
  }

  /** The request handler: it dials the listed hosts in order and starts the hub only if all of
      them can be reached.  `hosts` is the query parameter, `dials(k)` whether dialling the k-th
      host succeeds, and `dialled` counts the connections made, which nobody closes when the hub
      does not start. */
  method RelativeWebsocket(path: string, hosts: string, adapters: map<string, string>, dials: nat -> bool,
                           fields: (string, string) -> Option<string>)
    returns (hub: Channels?, dialled: nat)
    ensures path == "" || hosts == "" ==> hub == null && dialled == 0
    ensures path != "" && hosts != "" ==>
              var targets := Strings.Split(hosts, ',');
              && dialled <= |targets|
              && (forall k :: 0 <= k < dialled ==> CanDial(targets, adapters, dials, k))
              && (dialled < |targets| ==> !CanDial(targets, adapters, dials, dialled))
              && (hub != null <==> dialled == |targets|)
    ensures hub != null ==>
              fresh(hub) && hub.Valid() && hub.cfg == Config(Strings.Split(hosts, ','), fields) &&
              hub.View() == Init(hub.cfg)
  {
    dialled := 0;
    if path == "" || hosts == "" {
      return null, 0;
    }
    var targets := Strings.Split(hosts, ',');
    var conns: set<string> := {};
    var readers: seq<ReaderPc> := [];
    for k := 0 to |targets|
      invariant dialled == k && forall j :: 0 <= j < k ==> CanDial(targets, adapters, dials, j)
      invariant conns == set h | h in targets[..k]
      invariant |readers| == k && forall j :: 0 <= j < k ==> readers[j] == Polling
    {
      if targets[k] !in adapters || adapters[targets[k]] == "" || !dials(k) {
        return null, dialled;
      }
      dialled := dialled + 1;
      conns := conns + {targets[k]};
      readers := readers + [Polling];
      assert targets[..k + 1] == targets[..k] + [targets[k]];
    }
    assert targets[..|targets|] == targets;
    hub := new Channels(Config(targets, fields), conns, readers);
  }
}
