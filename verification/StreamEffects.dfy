/**
 What each event of the stream hook does to the sockets, the timer and the panes, and how many pings a
 socket is sent over a run.
 */
module StreamEffects {
  import opened Options
  import opened StreamTimer
  import opened StreamTheorems

  // ----- Pings ---------------------------------------------------------------------------

  /** A tick sends a ping on this socket: it is the stream's, it is open, and its last sign of life, if any,
      is not more than ten seconds old. */
  predicate SendsPing(h: Hook, e: Event, now: int, s: nat) {
    && e.Tick? && h.current == Some(s) && s < |h.sockets| && h.sockets[s].ready == Open
    && !(h.lastPong > 0 && now - h.lastPong > 10000)
  }

  function PingsOn(h: Hook, s: nat): nat {
    if s < |h.sockets| then h.sockets[s].pings else 0
  }

  ghost function PingingTicks(h: Hook, clock: int, run: seq<Timed>, s: nat): nat
    requires Runs(h, clock, run)
    decreases |run|
  {
    if run == [] then 0
    else
      (if SendsPing(h, run[0].event, run[0].now, s) then 1 else 0)
      + PingingTicks(Step(h, run[0].event, run[0].now), run[0].now, run[1..], s)
  }

  lemma {:induction false} StepPings(h: Hook, e: Event, now: int, s: nat)
    requires Enabled(h, e, now)
    ensures PingsOn(Step(h, e, now), s) == PingsOn(h, s) + if SendsPing(h, e, now, s) then 1 else 0
    ensures |h.sockets| <= |Step(h, e, now).sockets|
  {}

  /** Over every run the pings sent on a socket are the ticks that found it the stream's, open and not
      silent for too long. */
  lemma {:induction false} PingsAreTicks(h: Hook, clock: int, run: seq<Timed>, s: nat)
    requires Runs(h, clock, run)
    ensures PingsOn(Exec(h, clock, run), s) == PingsOn(h, s) + PingingTicks(h, clock, run, s)
    decreases |run|
  {
    if run != [] {
      StepPings(h, run[0].event, run[0].now, s);
      PingsAreTicks(Step(h, run[0].event, run[0].now), run[0].now, run[1..], s);
    }
  }

  // ----- The timer's period ------------------------------------------------------------------

  function TicksOf(run: seq<Timed>, timer: nat): nat {
    if run == [] then 0 else (if run[0].event == Tick(timer) then 1 else 0) + TicksOf(run[1..], timer)
  }

  ghost predicate TimersNumbered(h: Hook) {
    forall id :: id in h.timers ==> id < h.nextTimer
  }

  lemma {:induction false} TimerStep(h: Hook, e: Event, now: int, timer: nat)
    requires Enabled(h, e, now) && TimersNumbered(h) && timer < h.nextTimer
    ensures var r := Step(h, e, now);
            && TimersNumbered(r) && timer < r.nextTimer
            && (timer in r.timers ==>
                  timer in h.timers && r.timers[timer] == h.timers[timer] + if e == Tick(timer) then 5000 else 0)
  {}

  /** A timer fires every five seconds as long as it lives. */
  lemma {:induction false} TicksEveryFiveSeconds(h: Hook, clock: int, run: seq<Timed>, timer: nat)
    requires Runs(h, clock, run) && TimersNumbered(h) && timer < h.nextTimer
    requires timer in Exec(h, clock, run).timers
    ensures timer in h.timers && Exec(h, clock, run).timers[timer] == h.timers[timer] + 5000 * TicksOf(run, timer)
    decreases |run|
  {
    if run != [] {
      TimerStep(h, run[0].event, run[0].now, timer);
      TicksEveryFiveSeconds(Step(h, run[0].event, run[0].now), run[0].now, run[1..], timer);
    }
  }

  // ----- Panes ---------------------------------------------------------------------------------

  /** The text with `s` appended to it `n` times. */
  function Then(text: string, s: string, n: nat): string {
    if n == 0 then text else Then(text, s, n - 1) + s
  }

  function Occurs(hosts: seq<string>, host: string): nat {
    if hosts == [] then 0 else Occurs(hosts[..|hosts| - 1], host) + if hosts[|hosts| - 1] == host then 1 else 0
  }

  lemma {:induction false} AppendAllShows(text: map<string, string>, hosts: seq<string>, s: string, host: string)
    ensures Shown(AppendAll(text, hosts, s), host) == Then(Shown(text, host), s, Occurs(hosts, host))
  {
    if hosts != [] {
      AppendAllShows(text, hosts[..|hosts| - 1], s, host);
    }
  }

  lemma {:induction false} SetAllShows(hosts: seq<string>, s: string, host: string)
    ensures host in SetAll(hosts, s) <==> host in hosts
    ensures host in hosts ==> SetAll(hosts, s)[host] == s
  {
    if hosts != [] {
      SetAllShows(hosts[..|hosts| - 1], s, host);
      assert hosts == hosts[..|hosts| - 1] + [hosts[|hosts| - 1]];
    }
  }

  // ----- One event at a time -------------------------------------------------------------------------

  /** A start with hosts streams them from a socket of their own, if one could be constructed, under a new
      timer due in five seconds, and their panes, and no others, say that the connection is being made. */
  lemma {:induction false} StartExact(h: Hook, kind: Kind, hosts: seq<string>, constructed: bool, now: int)
    requires hosts != []
    ensures var r := Step(h, Start(kind, hosts, constructed), now);
            && r.streaming && r.active == Some(kind) && r.kind == Some(kind) && r.hosts == hosts && r.lastPong == 0
            && r.interval == Some(h.nextTimer) && r.nextTimer == h.nextTimer + 1
            && h.nextTimer in r.timers && r.timers[h.nextTimer] == now + 5000
            && (h.interval.Some? && h.interval.value != h.nextTimer ==> h.interval.value !in r.timers)
            && (constructed ==> |r.sockets| == |h.sockets| + 1 && r.current == Some(|h.sockets|)
                                && r.sockets[|h.sockets|] == Socket(Connecting, hosts, kind, 0))
            && (!constructed ==> |r.sockets| == |h.sockets| && r.current == None)
            && (forall host :: host in r.text <==> host in hosts)
            && (forall host :: host in hosts ==>
                  r.text[host] == if kind.Logs? then "Connecting to log stream...\n" else "Connecting to bus events stream...\n")
  {
    forall host
      ensures host in SetAll(hosts, ConnectingTo(kind)) <==> host in hosts
      ensures host in hosts ==> SetAll(hosts, ConnectingTo(kind))[host] == ConnectingTo(kind)
    {
      SetAllShows(hosts, ConnectingTo(kind), host);
    }
  }

  /** A start without hosts is a cancellation that appends nothing. */
  lemma {:induction false} StartWithoutHosts(h: Hook, kind: Kind, constructed: bool, now: int)
    ensures Step(h, Start(kind, [], constructed), now) == Step(h, Cancel(false), now)
  {}

  /** A cancellation ends the stream and its timer, closes its socket if that is open, and appends to the
      panes of its hosts, if asked to and the socket is open, that the stream was disconnected. */
  lemma {:induction false} CancelExact(h: Hook, append: bool, now: int, host: string)
    ensures var r, open := Step(h, Cancel(append), now), exists s: nat :: h.current == Some(s) && ReadyOf(h, s) == Open;
            && !r.streaming && r.active == None && r.kind == None && r.hosts == [] && r.current == None
            && r.lastPong == 0 && r.interval == None
            && (forall id :: id in r.timers <==> id in h.timers && h.interval != Some(id))
            && |r.sockets| == |h.sockets|
            && (forall s :: 0 <= s < |h.sockets| ==>
                  r.sockets[s] == if h.current == Some(s) && h.sockets[s].ready == Open
                                  then h.sockets[s].(ready := Closing) else h.sockets[s])
            && (append && open && h.kind == Some(Logs) ==>
                  Shown(r.text, host) == Then(Shown(h.text, host), "\n[logtap disconnected]", Occurs(h.hosts, host)))
            && (append && open && h.kind == Some(BusEvents) ==>
                  Shown(r.text, host) == Then(Shown(h.text, host), "\n[bus events disconnected]", Occurs(h.hosts, host)))
            && (!(append && open && h.kind.Some?) ==> r.text == h.text)
  {
    if h.kind.Some? {
      AppendAllShows(h.text, h.hosts, Disconnected(h.kind.value), host);
    }
  }

  /** An opened socket empties the panes of its own hosts, and no others are left. */
  lemma {:induction false} OpenExact(h: Hook, s: nat, now: int)
    requires Enabled(h, Opened(s), now)
    ensures var r := Step(h, Opened(s), now);
            && s < |h.sockets| && r == h.(sockets := r.sockets, text := r.text)
            && r.sockets == h.sockets[s := h.sockets[s].(ready := Open)]
            && (forall host :: host in r.text <==> host in h.sockets[s].hosts)
            && (forall host :: host in r.text ==> r.text[host] == "")
  {
    forall host
      ensures host in SetAll(h.sockets[s].hosts, "") <==> host in h.sockets[s].hosts
      ensures host in h.sockets[s].hosts ==> SetAll(h.sockets[s].hosts, "")[host] == ""
    {
      SetAllShows(h.sockets[s].hosts, "", host);
    }
  }

  /** A tick that finds the stream silent for more than ten seconds says so in the panes of its hosts, closes
      its socket and forgets the stream, but goes on ticking. */
  lemma {:induction false} TimeoutExact(h: Hook, timer: nat, now: int, s: nat, host: string)
    requires Enabled(h, Tick(timer), now) && h.current == Some(s) && s < |h.sockets|
    requires h.lastPong > 0 && now - h.lastPong > 10000
    ensures var r := Step(h, Tick(timer), now);
            && !r.streaming && r.active == None && r.kind == None && r.hosts == [] && r.current == None && r.lastPong == 0
            && r.interval == h.interval && timer in r.timers && r.timers[timer] == now + 5000
            && r.sockets == h.sockets[s := h.sockets[s].(ready := Closing)]
            && Shown(r.text, host) == Then(Shown(h.text, host), "\n[connection timeout]", Occurs(h.hosts, host))
  {
    AppendAllShows(h.text, h.hosts, "\n[connection timeout]", host);
  }

  /** Any other tick changes nothing but the pings and, if it is the first ping, the time counted from. */
  lemma {:induction false} QuietTick(h: Hook, timer: nat, now: int)
    requires Enabled(h, Tick(timer), now) && !(h.current.Some? && h.lastPong > 0 && now - h.lastPong > 10000)
    ensures var r := Step(h, Tick(timer), now);
            && r == h.(timers := r.timers, sockets := r.sockets, lastPong := r.lastPong)
            && (forall s :: 0 <= s < |h.sockets| ==> s < |r.sockets| && r.sockets[s].(pings := 0) == h.sockets[s].(pings := 0))
            && r.lastPong == if h.lastPong == 0 && exists s: nat :: SendsPing(h, Tick(timer), now, s) then now else h.lastPong
  {
    if h.current.Some? && ReadyOf(h, h.current.value) == Open {
      assert SendsPing(h, Tick(timer), now, h.current.value);
    }
  }

  /** A close event of any socket ends the stream there is, keeps its panes and leaves its timer running. */
  lemma {:induction false} CloseExact(h: Hook, s: nat, now: int)
    requires Enabled(h, SocketClosed(s), now)
    ensures var r := Step(h, SocketClosed(s), now);
            && s < |h.sockets| && r.sockets == h.sockets[s := h.sockets[s].(ready := Closed)]
            && r.text == h.text && r.timers == h.timers && r.interval == h.interval && r.current == None
            && (h.current.Some? ==> !r.streaming && r.active == None && r.kind == None && r.hosts == [] && r.lastPong == 0)
            && (h.current.None? ==> r == h.(sockets := r.sockets))
  {}

  /** When the page goes, the timer stops and the stream's socket is closed, open or not. */
  lemma {:induction false} UnmountExact(h: Hook, now: int)
    ensures var r := Step(h, Unmount, now);
            && (forall id :: id in r.timers <==> id in h.timers && h.interval != Some(id))
            && r.current == None && r.text == h.text && |r.sockets| == |h.sockets|
            && (forall s :: 0 <= s < |h.sockets| ==>
                  r.sockets[s] == if h.current == Some(s) && h.sockets[s].ready != Closed
                                  then h.sockets[s].(ready := Closing) else h.sockets[s])
  {}

  // ----- The stream there is ---------------------------------------------------------------------------

  /** The stream that the page shows is the one its socket was made for. */
  ghost predicate Matches(h: Hook) {
    && (h.streaming <==> h.active.Some?)
    && (h.current.Some? ==>
          && h.streaming && h.kind == h.active && h.hosts != [] && h.current.value < |h.sockets|
          && h.sockets[h.current.value].hosts == h.hosts && Some(h.sockets[h.current.value].kind) == h.kind)
  }

  /** Over every run the page's stream, while it has a socket, is the one that socket was made for. */
  lemma {:induction false} StreamMatchesSocket(h: Hook, clock: int, run: seq<Timed>)
    requires Matches(h) && Runs(h, clock, run)
    ensures Matches(Exec(h, clock, run))
    decreases |run|
  {
    if run != [] {
      StreamMatchesSocket(Step(h, run[0].event, run[0].now), run[0].now, run[1..]);
    }
  }
}
