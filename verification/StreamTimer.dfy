/**
 The browser's stream hook: one socket and one ping timer, driven by the page, by the socket's
 events and by the timer.
 */
module StreamTimer {
  import opened Options

  const PING_INTERVAL := 5000
  const PONG_TIMEOUT := 10000

  datatype Kind = Logs | BusEvents

  datatype Ready = Connecting | Open | Closing | Closed

  /** A browser socket, with what its handlers captured and the pings sent on it. */
  datatype Socket = Socket(ready: Ready, hosts: seq<string>, kind: Kind, pings: nat)

  /** The references and state of the hook, with the browser's sockets and its table of live
      interval timers (identity to next firing time). */
  datatype Hook = Hook(
    timers: map<nat, int>, nextTimer: nat, interval: Option<nat>,
    sockets: seq<Socket>, current: Option<nat>,
    lastPong: int, hosts: seq<string>, kind: Option<Kind>,
    streaming: bool, active: Option<Kind>, text: map<string, string>)

  function Fresh(): Hook {
    Hook(map[], 0, None, [], None, 0, [], None, false, None, map[])
  }

  function Disconnected(kind: Kind): string {
    match kind
    case Logs => "\n[logtap disconnected]"
    case BusEvents => "\n[bus events disconnected]"
  }

  function ConnectingTo(kind: Kind): string {
    match kind
    case Logs => "Connecting to log stream...\n"
    case BusEvents => "Connecting to bus events stream...\n"
  }

  function Shown(text: map<string, string>, host: string): string {
    if host in text then text[host] else ""
  }

  function Append(text: map<string, string>, host: string, s: string): map<string, string> {
    text[host := Shown(text, host) + s]
  }

  function AppendAll(text: map<string, string>, hosts: seq<string>, s: string): map<string, string> {
    if hosts == [] then text
    else Append(AppendAll(text, hosts[..|hosts| - 1], s), hosts[|hosts| - 1], s)
  }

  function SetAll(hosts: seq<string>, s: string): map<string, string> {
    if hosts == [] then map[] else SetAll(hosts[..|hosts| - 1], s)[hosts[|hosts| - 1] := s]
  }

  function ReadyOf(h: Hook, s: nat): Ready {
    if s < |h.sockets| then h.sockets[s].ready else Closed
  }

  function SetReady(sockets: seq<Socket>, s: nat, ready: Ready): seq<Socket> {
    if s < |sockets| then sockets[s := sockets[s].(ready := ready)] else sockets
  }

  // ----- Steps ------------------------------------------------------------------------------

  /** What a socket delivers: the text "pong", a frame that cannot be decoded, the hub's notice
      that a host is gone, or an item with what the stream's formatter makes of it. */
  datatype Message =
    | Pong
    | Garbled
    | Notice(host: string)
    | Item(host: string, formatted: Option<string>)

  datatype Event =
    | Start(kind: Kind, hosts: seq<string>, constructed: bool)
    | Cancel(append: bool)
    | Unmount
    | Opened(socket: nat)
    | Received(socket: nat, message: Message)
    | SocketClosed(socket: nat)
    | Tick(timer: nat)

  function Display(text: map<string, string>, kind: Kind, m: Message): map<string, string> {
    match m
    case Pong => text
    case Garbled => text
    case Notice(host) => Append(text, host, Disconnected(kind))
    case Item(host, formatted) => if formatted.Some? then Append(text, host, formatted.value) else text
  }

  function Cancelled(h: Hook, append: bool): Hook {
    var open := h.current.Some? && ReadyOf(h, h.current.value) == Open;
    h.(timers := if h.interval.Some? then h.timers - {h.interval.value} else h.timers,
       interval := None,
       lastPong := 0,
       text := if append && open && h.kind.Some? then AppendAll(h.text, h.hosts, Disconnected(h.kind.value)) else h.text,
       sockets := if open then SetReady(h.sockets, h.current.value, Closing) else h.sockets,
       current := None, hosts := [], kind := None, streaming := false, active := None)
  }

  /** The timer starts even when the socket could not be constructed. */
  function Started(h: Hook, kind: Kind, hosts: seq<string>, constructed: bool, now: int): Hook {
    var c := Cancelled(h, false);
    if hosts == [] then c
    else
      c.(timers := c.timers[c.nextTimer := now + PING_INTERVAL],
         nextTimer := c.nextTimer + 1,
         interval := Some(c.nextTimer),
         sockets := if constructed then c.sockets + [Socket(Connecting, hosts, kind, 0)] else c.sockets,
         current := if constructed then Some(|c.sockets|) else None,
         hosts := hosts, kind := Some(kind), streaming := true, active := Some(kind),
         text := SetAll(hosts, ConnectingTo(kind)))
  }

  /** Forgets the stream, but leaves the timer running. */
  function Forgotten(h: Hook): Hook {
    h.(current := None, lastPong := 0, hosts := [], kind := None, streaming := false, active := None)
  }

  predicate Stale(h: Hook, now: int) {
    h.current.Some? && h.lastPong > 0 && now - h.lastPong > PONG_TIMEOUT
  }

  function TimedOut(h: Hook): Hook
    requires h.current.Some?
  {
    Forgotten(h).(text := AppendAll(h.text, h.hosts, "\n[connection timeout]"),
                  sockets := SetReady(h.sockets, h.current.value, Closing))
  }

  function Pinged(h: Hook, now: int): Hook
    requires h.current.Some? && ReadyOf(h, h.current.value) == Open
  {
    var s := h.current.value;
    h.(sockets := h.sockets[s := h.sockets[s].(pings := h.sockets[s].pings + 1)],
       lastPong := if h.lastPong == 0 then now else h.lastPong)
  }

  function Ticked(h: Hook, timer: nat, now: int): Hook {
    var r := h.(timers := h.timers[timer := now + PING_INTERVAL]);
    if h.current.None? then r
    else if Stale(h, now) then TimedOut(r)
    else if ReadyOf(h, h.current.value) == Open then Pinged(r, now)
    else r
  }

  predicate Enabled(h: Hook, e: Event, now: int) {
    match e
    case Start(_, _, _) => true
    case Cancel(_) => true
    case Unmount => true
    case Opened(s) => ReadyOf(h, s) == Connecting
    case Received(s, _) => ReadyOf(h, s) == Open
    case SocketClosed(s) => ReadyOf(h, s) != Closed
    case Tick(timer) => timer in h.timers && h.timers[timer] == now
  }

  function Step(h: Hook, e: Event, now: int): Hook
    requires Enabled(h, e, now)
  {
    match e
    case Start(kind, hosts, constructed) => Started(h, kind, hosts, constructed, now)
    case Cancel(append) => Cancelled(h, append)
    case Unmount =>
      h.(timers := if h.interval.Some? then h.timers - {h.interval.value} else h.timers,
         sockets := if h.current.Some? && ReadyOf(h, h.current.value) != Closed
                    then SetReady(h.sockets, h.current.value, Closing) else h.sockets,
         current := None, hosts := [], kind := None, lastPong := 0)
    case Opened(s) =>
      h.(sockets := SetReady(h.sockets, s, Open), text := SetAll(h.sockets[s].hosts, ""))
    case Received(s, Pong) => h.(lastPong := now)
    case Received(s, m) => h.(text := Display(h.text, h.sockets[s].kind, m))
    case SocketClosed(s) =>
      var r := h.(sockets := SetReady(h.sockets, s, Closed));
      if h.current.Some? then Forgotten(r) else r
    case Tick(timer) => Ticked(h, timer, now)
  }

  // ----- The hook object ------------------------------------------------------------------------

  /** The hook's references and state as fields that its callbacks assign. */
  class StreamHook {
    var timers: map<nat, int>
    var nextTimer: nat
    var interval: Option<nat>
    var sockets: seq<Socket>
    var current: Option<nat>
    var lastPong: int
    var hosts: seq<string>
    var kind: Option<Kind>
    var streaming: bool
    var active: Option<Kind>
    var text: map<string, string>

    constructor ()
      ensures State() == Fresh()
    {
      timers, nextTimer, interval := map[], 0, None;
      sockets, current, lastPong := [], None, 0;
      hosts, kind, streaming, active, text := [], None, false, None, map[];
    }

    ghost function State(): Hook
      reads this
    {
      Hook(timers, nextTimer, interval, sockets, current, lastPong, hosts, kind, streaming, active, text)
    }

    method AppendEach(s: string)
      modifies this`text
      ensures text == AppendAll(old(text), hosts, s)
    {
      ghost var was := text;
      assert hosts[..0] == [];
      for k := 0 to |hosts|
        invariant text == AppendAll(was, hosts[..k], s)
      {
        assert hosts[..k + 1][..k] == hosts[..k];
        text := text[hosts[k] := (if hosts[k] in text then text[hosts[k]] else "") + s];
      }
      assert hosts[..|hosts|] == hosts;
    }

    method SetEach(targets: seq<string>, s: string)
      modifies this`text
      ensures text == SetAll(targets, s)
    {
      text := map[];
      assert targets[..0] == [];
      for k := 0 to |targets|
        invariant text == SetAll(targets[..k], s)
      {
        assert targets[..k + 1][..k] == targets[..k];
        text := text[targets[k] := s];
      }
      assert targets[..|targets|] == targets;
    }

    method ClearTimer()
      modifies this`timers, this`interval
      ensures interval == None
      ensures timers == if old(interval).Some? then old(timers) - {old(interval).value} else old(timers)
    {
      if interval.Some? {
        timers := timers - {interval.value};
        interval := None;
      }
    }

    method CloseIfOpen()
      modifies this`sockets
      ensures sockets == (if old(current).Some? && ReadyOf(old(State()), old(current).value) == Open
                          then SetReady(old(sockets), old(current).value, Closing) else old(sockets))
    {
      if current.Some? && current.value < |sockets| && sockets[current.value].ready == Open {
        sockets := sockets[current.value := sockets[current.value].(ready := Closing)];
      }
    }

    /** Drops the references to the stream; the interval keeps running. */
    method Forget()
      modifies this
      ensures State() == Forgotten(old(State()))
    {
      current, lastPong := None, 0;
      hosts, kind := [], None;
      streaming, active := false, None;
    }

    method CancelStreaming(append: bool)
      modifies this
      ensures State() == Cancelled(old(State()), append)
    {
      ClearTimer();
      if append && current.Some? && current.value < |sockets| && sockets[current.value].ready == Open && kind.Some? {
        AppendEach(Disconnected(kind.value));
      }
      CloseIfOpen();
      Forget();
    }

    method SetStream(k: Kind, targets: seq<string>)
      modifies this
      ensures State() == old(State()).(hosts := targets, kind := Some(k), streaming := true, active := Some(k),
                                       text := SetAll(targets, ConnectingTo(k)))
    {
      streaming, active := true, Some(k);
      hosts, kind := targets, Some(k);
      SetEach(targets, ConnectingTo(k));
    }

    method Connect(k: Kind, targets: seq<string>)
      modifies this
      ensures State() == old(State()).(sockets := old(sockets) + [Socket(Connecting, targets, k, 0)],
                                       current := Some(|old(sockets)|))
    {
      current := Some(|sockets|);
      sockets := sockets + [Socket(Connecting, targets, k, 0)];
    }

    method StartTimer(now: int)
      modifies this
      ensures State() == old(State()).(timers := old(timers)[old(nextTimer) := now + PING_INTERVAL],
                                       nextTimer := old(nextTimer) + 1, interval := Some(old(nextTimer)))
    {
      timers := timers[nextTimer := now + PING_INTERVAL];
      interval := Some(nextTimer);
      nextTimer := nextTimer + 1;
    }

    method StartStream(k: Kind, targets: seq<string>, constructed: bool, now: int)
      modifies this
      ensures State() == Started(old(State()), k, targets, constructed, now)
    {
      CancelStreaming(false);
      if targets != [] {
        SetStream(k, targets);
        if constructed {
          Connect(k, targets);
        }
        StartTimer(now);
      }
    }

    method OnOpen(s: nat)
      requires Enabled(State(), Opened(s), 0)
      modifies this
      ensures State() == Step(old(State()), Opened(s), 0)
    {
      sockets := sockets[s := sockets[s].(ready := Open)];
      SetEach(sockets[s].hosts, "");
    }

    method OnMessage(s: nat, m: Message, now: int)
      requires Enabled(State(), Received(s, m), now)
      modifies this
      ensures State() == Step(old(State()), Received(s, m), now)
    {
      match m
      case Pong => lastPong := now;
      case Garbled =>
      case Notice(host) => text := Append(text, host, Disconnected(sockets[s].kind));
      case Item(host, formatted) =>
        if formatted.Some? {
          text := Append(text, host, formatted.value);
        }
    }

    method OnClose(s: nat)
      requires Enabled(State(), SocketClosed(s), 0)
      modifies this
      ensures State() == Step(old(State()), SocketClosed(s), 0)
    {
      sockets := sockets[s := sockets[s].(ready := Closed)];
      if current.Some? {
        Forget();
      }
    }

    /** The clean-up on unmount clears the interval but keeps its reference. */
    method OnUnmount()
      modifies this
      ensures State() == Step(old(State()), Unmount, 0)
    {
      if interval.Some? {
        timers := timers - {interval.value};
      }
      if current.Some? {
        if current.value < |sockets| && sockets[current.value].ready != Closed {
          sockets := sockets[current.value := sockets[current.value].(ready := Closing)];
        }
        current := None;
      }
      hosts, kind, lastPong := [], None, 0;
    }

    method TimeOut()
      requires current.Some?
      modifies this
      ensures State() == TimedOut(old(State()))
    {
      AppendEach("\n[connection timeout]");
      var s := current.value;
      Forget();
      if s < |sockets| {
        sockets := sockets[s := sockets[s].(ready := Closing)];
      }
    }

    method SendPing(now: int)
      requires current.Some? && ReadyOf(State(), current.value) == Open
      modifies this
      ensures State() == Pinged(old(State()), now)
      ensures old(current.value) < |sockets| == |old(sockets)|
      ensures sockets[old(current.value)].pings == old(sockets[current.value].pings) + 1
    {
      var s := current.value;
      sockets := sockets[s := sockets[s].(pings := sockets[s].pings + 1)];
      if lastPong == 0 {
        lastPong := now;
      }
    }

    method OnInterval(timer: nat, now: int)
      requires Enabled(State(), Tick(timer), now)
      modifies this
      ensures State() == Step(old(State()), Tick(timer), now)
      ensures |sockets| == |old(sockets)| && forall s :: 0 <= s < |sockets| ==>
                sockets[s].pings == old(sockets)[s].pings +
                  if old(current) == Some(s) && old(sockets)[s].ready == Open && !(old(lastPong) > 0 && now - old(lastPong) > 10000)
                  then 1 else 0
    {
      timers := timers[timer := now + PING_INTERVAL];
      if current.Some? {
        if lastPong > 0 && now - lastPong > PONG_TIMEOUT {
          TimeOut();
        } else if current.value < |sockets| && sockets[current.value].ready == Open {
          SendPing(now);
        }
      }
    }
  }
}
