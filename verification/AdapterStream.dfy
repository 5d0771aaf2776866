/**
 The adapter's side of a stream: a producer hands messages to a writer over an unbuffered
 channel while a reader watches the socket for its death.

 The bus-event producer marshals every event into a buffer of its own.  The log producer
 hands over a piece of the scanner's own buffer.  Whenever the next call of the scanner finds
 no whole line in the buffer it moves what is left to the front and reads more, whether it
 then finds a line, keeps waiting for one or ends, so what the writer holds can change under
 it.  `copied` tells the two apart.
 */
module AdapterStream {
  datatype Producer = Producing | Handing(token: string) | ProducerDone

  /** The writer holds the message it received; `view` is what its bytes show now. */
  datatype Writer = Selecting | Holding(token: string, view: string) | WriterDone

  datatype Reader = Polling | Reading | ReaderDone

  datatype State = State(
    shutdown: bool, dead: bool,
    producer: Producer, writer: Writer, reader: Reader,
    produced: seq<string>, received: seq<string>, written: seq<string>, writeFailed: bool)

  const INIT := State(false, false, Producing, Selecting, Polling, [], [], [], false)

  /** `Refill(after)` reuses the producer's buffer: a message still held then shows `after`.
      `Produce(token)` makes the next message out of what the buffer holds. */
  datatype Event =
    | Shutdown
    | Refill(after: string)
    | Produce(token: string)
    | ProducerEnd
    | HandOff
    | WriterShutdown
    | WriterDeath
    | Write(ok: bool)
    | ReaderPoll
    | ReaderRead
    | ReaderFail

  predicate Enabled(s: State, e: Event) {
    match e
    case Shutdown => true
    case Refill(after) => s.producer.Producing? && (s.writer.Holding? ==> |after| == |s.writer.view|)
    case Produce(_) => s.producer.Producing?
    case ProducerEnd => s.producer.Producing?
    case HandOff => s.producer.Handing? && s.writer.Selecting?
    case WriterShutdown => s.writer.Selecting? && s.shutdown
    case WriterDeath => s.writer.Selecting? && s.dead
    case Write(_) => s.writer.Holding?
    case ReaderPoll => s.reader.Polling?
    case ReaderRead => s.reader.Reading?
    case ReaderFail => s.reader.Reading?
  }

  function Apply(copied: bool, s: State, e: Event): State
    requires Enabled(s, e)
  {
    match e
    case Shutdown => s.(shutdown := true)
    case Refill(after) =>
      s.(writer := if s.writer.Holding? && !copied then Holding(s.writer.token, after) else s.writer)
    case Produce(token) => s.(producer := Handing(token), produced := s.produced + [token])
    case ProducerEnd => s.(producer := ProducerDone)
    case HandOff =>
      var token := s.producer.token;
      s.(producer := Producing, writer := Holding(token, token), received := s.received + [token])
    case WriterShutdown => s.(writer := WriterDone)
    case WriterDeath => s.(writer := WriterDone)
    case Write(ok) =>
      if ok then s.(writer := Selecting, written := s.written + [s.writer.view])
      else s.(writer := WriterDone, writeFailed := true)
    case ReaderPoll => s.(reader := if s.shutdown || s.dead then ReaderDone else Reading)
    case ReaderRead => s.(reader := Polling)
    case ReaderFail => s.(reader := ReaderDone, dead := true)
  }

  predicate Runs(copied: bool, s: State, es: seq<Event>)
    decreases |es|
  {
    |es| == 0 || (Enabled(s, es[0]) && Runs(copied, Apply(copied, s, es[0]), es[1..]))
  }

  function Exec(copied: bool, s: State, es: seq<Event>): State
    requires Runs(copied, s, es)
    decreases |es|
  {
    if |es| == 0 then s else Exec(copied, Apply(copied, s, es[0]), es[1..])
  }

  // ----- The goroutines -----------------------------------------------------------------

  /** The shared channel, contexts and buffer, and where each goroutine is. */
  class Session {
    const copied: bool
    var shutdown: bool
    var dead: bool
    var producer: Producer
    var writer: Writer
    var reader: Reader
    ghost var produced: seq<string>
    ghost var received: seq<string>
    ghost var written: seq<string>
    ghost var writeFailed: bool

    ghost function View(): State
      reads this
    {
      State(shutdown, dead, producer, writer, reader, produced, received, written, writeFailed)
    }

    constructor (copied: bool)
      ensures this.copied == copied && View() == INIT
    {
      this.copied := copied;
      shutdown, dead := false, false;
      producer, writer, reader := Producing, Selecting, Polling;
      produced, received, written, writeFailed := [], [], [], false;
    }

    /** What a call of the scanner does to its buffer before it returns. */
    method RefillBuffer(after: string)
      requires producer.Producing? && (writer.Holding? ==> |after| == |writer.view|)
      modifies this`writer
      ensures View() == Apply(copied, old(View()), Refill(after))
    {
      if !copied && writer.Holding? {
        writer := Holding(writer.token, after);
      }
    }

    /** The producer's loop from the answer to "is there more" up to its send. */
    method ProduceNext(more: bool, token: string)
      requires producer.Producing?
      modifies this`producer, this`produced
      ensures View() == Apply(copied, old(View()), if more then Produce(token) else ProducerEnd)
    {
      if !more {
        producer := ProducerDone;
        return;
      }
      produced := produced + [token];
      producer := Handing(token);
    }

    method Rendezvous()
      requires producer.Handing? && writer.Selecting?
      modifies this
      ensures View() == Apply(copied, old(View()), HandOff)
    {
      var token := producer.token;
      producer := Producing;
      writer := Holding(token, token);
      received := received + [token];
    }

    /** The writer's turn when no message is offered. */
    method StopWriter() returns (stopped: bool)
      requires writer.Selecting?
      modifies this
      ensures stopped == (old(shutdown) || old(dead))
      ensures View() == if stopped then old(View()).(writer := WriterDone) else old(View())
    {
      stopped := shutdown || dead;
      if stopped {
        writer := WriterDone;
      }
    }

    method WriteHeld(ok: bool)
      requires writer.Holding?
      modifies this
      ensures View() == Apply(copied, old(View()), Write(ok))
    {
      if ok {
        written := written + [writer.view];
        writer := Selecting;
      } else {
        writeFailed := true;
        writer := WriterDone;
      }
    }

    method ReadSocket(ok: bool)
      requires !reader.ReaderDone?
      modifies this
      ensures View() == Apply(copied, old(View()),
                              if old(reader).Polling? then ReaderPoll else if ok then ReaderRead else ReaderFail)
    {
      match reader
      case Polling =>
        if shutdown || dead {
          reader := ReaderDone;
        } else {
          reader := Reading;
        }
      case Reading =>
        if ok {
          reader := Polling;
        } else {
          dead := true;
          reader := ReaderDone;
        }
    }

    method Stop()
      modifies this`shutdown
      ensures View() == Apply(copied, old(View()), Shutdown)
    {
      shutdown := true;
    }
  }

  /** One turn given to one goroutine by the scheduler, with what its environment answers. */
  datatype Turn =
    | RefillTurn(after: string)
    | ProducerTurn(more: bool, token: string)
    | HandOffTurn
    | StopWriterTurn
    | WriteTurn(ok: bool)
    | ReaderTurn(ok: bool)
    | StopTurn

  /** A turn of a goroutine that cannot take it changes nothing. */
  method Take(session: Session, turn: Turn) returns (moved: bool, ghost e: Event)
    modifies session
    ensures moved ==> Enabled(old(session.View()), e)
    ensures session.View() == if moved then Apply(session.copied, old(session.View()), e) else old(session.View())
  {
    moved, e := false, Shutdown;
    match turn
    case RefillTurn(after) =>
      if session.producer.Producing? && (session.writer.Holding? ==> |after| == |session.writer.view|) {
        e := Refill(after);
        session.RefillBuffer(after);
        moved := true;
      }
    case ProducerTurn(more, token) =>
      if session.producer.Producing? {
        e := if more then Produce(token) else ProducerEnd;
        session.ProduceNext(more, token);
        moved := true;
      }
    case HandOffTurn =>
      if session.producer.Handing? && session.writer.Selecting? {
        e := HandOff;
        session.Rendezvous();
        moved := true;
      }
    case StopWriterTurn =>
      if session.writer.Selecting? {
        e := if session.shutdown then WriterShutdown else WriterDeath;
        moved := session.StopWriter();
      }
    case WriteTurn(ok) =>
      if session.writer.Holding? {
        e := Write(ok);
        session.WriteHeld(ok);
        moved := true;
      }
    case ReaderTurn(ok) =>
      if !session.reader.ReaderDone? {
        e := if session.reader.Polling? then ReaderPoll else if ok then ReaderRead else ReaderFail;
        session.ReadSocket(ok);
        moved := true;
      }
    case StopTurn =>
      session.Stop();
      moved := true;
  }

  /** Any schedule of the goroutines is a run, so everything proved of runs holds of the code. */
  method Drive(session: Session, schedule: seq<Turn>) returns (ghost es: seq<Event>)
    modifies session
    ensures Runs(session.copied, old(session.View()), es)
    ensures session.View() == Exec(session.copied, old(session.View()), es)
  {
    es := [];
    for n := 0 to |schedule|
      invariant Runs(session.copied, old(session.View()), es)
      invariant session.View() == Exec(session.copied, old(session.View()), es)
    {
      var moved, e := Take(session, schedule[n]);
      if moved {
        RunsOne(session.copied, Exec(session.copied, old(session.View()), es), e);
        RunsConcat(session.copied, old(session.View()), es, [e]);
        es := es + [e];
      }
    }
  }

  // ----- Order and bytes ---------------------------------------------------------------------

  function Offered(p: Producer): seq<string> {
    if p.Handing? then [p.token] else []
  }

  function Held(w: Writer): seq<string> {
    if w.Holding? then [w.view] else []
  }

  ghost predicate Inv(copied: bool, intact: bool, s: State) {
    && s.produced == s.received + Offered(s.producer)
    && |s.received| == |s.written| + |Held(s.writer)| + (if s.writeFailed then 1 else 0)
    && (s.writeFailed ==> s.writer.WriterDone?)
    && (copied || intact ==> s.written + Held(s.writer) <= s.received)
  }

  /** The event reuses the buffer of a message the writer still holds and changes what it shows. */
  predicate Clobbers(copied: bool, s: State, e: Event) {
    e.Refill? && !copied && s.writer.Holding? && e.after != s.writer.view
  }

  predicate NeverClobbers(copied: bool, s: State, es: seq<Event>)
    requires Runs(copied, s, es)
    decreases |es|
  {
    |es| == 0 || (!Clobbers(copied, s, es[0]) && NeverClobbers(copied, Apply(copied, s, es[0]), es[1..]))
  }

  lemma {:induction false} InvStep(copied: bool, intact: bool, s: State, e: Event)
    requires Inv(copied, intact, s) && Enabled(s, e) && (intact ==> !Clobbers(copied, s, e))
    ensures Inv(copied, intact, Apply(copied, s, e))
  {}

  lemma {:induction false} InvRun(copied: bool, intact: bool, s: State, es: seq<Event>)
    requires Inv(copied, intact, s) && Runs(copied, s, es)
    requires intact ==> NeverClobbers(copied, s, es)
    ensures Inv(copied, intact, Exec(copied, s, es))
    decreases |es|
  {
    if |es| > 0 {
      InvStep(copied, intact, s, es[0]);
      InvRun(copied, intact, Apply(copied, s, es[0]), es[1..]);
    }
  }

  /** In every run the writer receives the messages in the order they were made, all of them
      but at most one that is still being handed over, and writes as many as it received but
      for one it holds or one whose write failed. */
  lemma {:induction false} ReceivesInOrder(copied: bool, es: seq<Event>)
    requires Runs(copied, INIT, es)
    ensures var s := Exec(copied, INIT, es);
            && s.produced == s.received + Offered(s.producer)
            && |s.received| == |s.written| + |Held(s.writer)| + (if s.writeFailed then 1 else 0)
  {
    InvRun(copied, false, INIT, es);
  }

  /** Bus events are written byte for byte in every run. */
  lemma {:induction false} EventsWrittenIntact(es: seq<Event>)
    requires Runs(true, INIT, es)
    ensures var s := Exec(true, INIT, es); s.written + Held(s.writer) <= s.received <= s.produced
  {
    InvRun(true, false, INIT, es);
  }

  ghost predicate Intact(s: State) {
    s.written + Held(s.writer) <= s.received
  }

  /** The scanner reuses its buffer while the writer holds a line that is not empty. */
  predicate RefillsHeldLine(s: State, e: Event) {
    e.Refill? && s.writer.Holding? && s.writer.view != ""
  }

  predicate NoRefillWhileHeld(s: State, es: seq<Event>)
    requires Runs(false, s, es)
    decreases |es|
  {
    |es| == 0 || (!RefillsHeldLine(s, es[0]) && NoRefillWhileHeld(Apply(false, s, es[0]), es[1..]))
  }

  lemma {:induction false} NoRefillNoClobber(s: State, es: seq<Event>)
    requires Runs(false, s, es) && NoRefillWhileHeld(s, es)
    ensures NeverClobbers(false, s, es)
    decreases |es|
  {
    if |es| > 0 {
      NoRefillNoClobber(Apply(false, s, es[0]), es[1..]);
    }
  }

  /** Log lines are written byte for byte in every run in which the scanner does not reuse its
      buffer while the writer holds a line that is not empty. */
  lemma {:induction false} LogsWrittenIntact(es: seq<Event>)
    requires Runs(false, INIT, es) && NoRefillWhileHeld(INIT, es)
    ensures var s := Exec(false, INIT, es); s.written + Held(s.writer) <= s.received <= s.produced
  {
    NoRefillNoClobber(INIT, es);
    InvRun(false, true, INIT, es);
  }

  predicate SameTurn(a: Event, b: Event) {
    (a.Refill? && b.Refill?) || a == b
  }

  /** `es'` takes the turns of `es`, or the first of them; only what the buffer is refilled with
      may differ. */
  ghost predicate Follows(es': seq<Event>, es: seq<Event>) {
    |es'| <= |es| && forall k :: 0 <= k < |es'| ==> SameTurn(es'[k], es[k])
  }

  /** Whatever the scanner reads into its buffer, every line written or held is the line received. */
  ghost predicate AlwaysIntact(s: State, es: seq<Event>) {
    forall es' :: Follows(es', es) && Runs(false, s, es') ==> Intact(Exec(false, s, es'))
  }

  lemma {:induction false} SafeSchedule(s: State, es: seq<Event>, es': seq<Event>)
    requires Inv(false, true, s) && Runs(false, s, es) && NoRefillWhileHeld(s, es)
    requires Follows(es', es) && Runs(false, s, es')
    ensures Intact(Exec(false, s, es'))
    decreases |es'|
  {
    if |es'| > 0 {
      assert SameTurn(es'[0], es[0]);
      assert Apply(false, s, es'[0]) == Apply(false, s, es[0]);
      InvStep(false, true, s, es'[0]);
      assert forall k :: 0 <= k < |es'| - 1 ==> es'[1..][k] == es'[k + 1] && es[1..][k] == es[k + 1];
      SafeSchedule(Apply(false, s, es'[0]), es[1..], es'[1..]);
    }
  }

  function Other(line: string): (other: string)
    requires line != ""
    ensures |other| == |line| && other != line
  {
    var c := if line[0] == 'x' then 'y' else 'x';
    assert line[0 := c][0] != line[0];
    line[0 := c]
  }

  lemma {:induction false} RefillTears(s: State, e: Event)
    requires Inv(false, true, s) && Enabled(s, e) && RefillsHeldLine(s, e)
    ensures var torn := Refill(Other(s.writer.view));
            Enabled(s, torn) && !Intact(Apply(false, s, torn))
  {
    var other := Other(s.writer.view);
    assert s.received == s.written + [s.writer.view];
    assert (s.written + [other])[|s.written|] == other;
    assert s.received[|s.written|] == s.writer.view;
  }

  lemma {:induction false} UnsafeSchedule(s: State, es: seq<Event>)
    requires Inv(false, true, s) && Runs(false, s, es) && !NoRefillWhileHeld(s, es)
    ensures !AlwaysIntact(s, es)
    decreases |es|
  {
    var es';
    if RefillsHeldLine(s, es[0]) {
      RefillTears(s, es[0]);
      es' := [Refill(Other(s.writer.view))];
      RunsOne(false, s, es'[0]);
    } else {
      var s1 := Apply(false, s, es[0]);
      InvStep(false, true, s, es[0]);
      UnsafeSchedule(s1, es[1..]);
      var rest :| Follows(rest, es[1..]) && Runs(false, s1, rest) && !Intact(Exec(false, s1, rest));
      es' := [es[0]] + rest;
      RunsCons(false, s, es[0], rest);
      assert forall k :: 0 < k < |es'| ==> es'[k] == rest[k - 1] && es[k] == es[1..][k - 1];
    }
    assert Follows(es', es) && Runs(false, s, es') && !Intact(Exec(false, s, es'));
  }

  /** Exactly which schedules write every log line as it was handed over, whatever the scanner
      reads into its buffer. */
  lemma {:induction false} LogsIntactIff(es: seq<Event>)
    requires Runs(false, INIT, es)
    ensures AlwaysIntact(INIT, es) <==> NoRefillWhileHeld(INIT, es)
  {
    if NoRefillWhileHeld(INIT, es) {
      forall es' | Follows(es', es) && Runs(false, INIT, es')
        ensures Intact(Exec(false, INIT, es'))
      {
        SafeSchedule(INIT, es, es');
      }
    } else {
      UnsafeSchedule(INIT, es);
    }
  }

  lemma {:induction false} RunsCons(copied: bool, s: State, e: Event, rest: seq<Event>)
    requires Enabled(s, e) && Runs(copied, Apply(copied, s, e), rest)
    ensures Runs(copied, s, [e] + rest)
    ensures Exec(copied, s, [e] + rest) == Exec(copied, Apply(copied, s, e), rest)
  {
    assert ([e] + rest)[1..] == rest;
  }

  ghost predicate NoWrite(es: seq<Event>) {
    forall k :: 0 <= k < |es| ==> !es[k].Write?
  }

  /** What the writer holds is what it was handed until it writes it, in every continuation. */
  ghost predicate HeldUntilWritten(s: State) {
    forall es :: Runs(false, s, es) && NoWrite(es) ==> Exec(false, s, es).writer == s.writer
  }

  lemma {:induction false} HeldStays(s: State, es: seq<Event>)
    requires s.writer.Holding? && (!s.producer.Producing? || s.writer.view == "")
    requires Runs(false, s, es) && NoWrite(es)
    ensures Exec(false, s, es).writer == s.writer
    decreases |es|
  {
    if |es| > 0 {
      assert !es[0].Write?;
      assert forall k :: 0 <= k < |es| - 1 ==> es[1..][k] == es[k + 1];
      HeldStays(Apply(false, s, es[0]), es[1..]);
    }
  }

  /** Exactly when a held line is safe until it is written: the scanner is not looking for the
      next line, or the line is empty. */
  lemma {:induction false} HeldLineSafeIff(s: State)
    requires s.writer.Holding?
    ensures HeldUntilWritten(s) <==> !s.producer.Producing? || s.writer.view == ""
  {
    if !s.producer.Producing? || s.writer.view == "" {
      forall es | Runs(false, s, es) && NoWrite(es)
        ensures Exec(false, s, es).writer == s.writer
      {
        HeldStays(s, es);
      }
    } else {
      var torn := Refill(Other(s.writer.view));
      RunsOne(false, s, torn);
      assert NoWrite([torn]);
    }
  }

  /** A held line that is not safe can be written as any other bytes of its length, whether the
      scanner then finds another line or ends. */
  lemma {:induction false} LogLineTorn(s: State, line: string, after: string, more: bool, next: string)
    requires s.producer.Producing? && s.writer == Holding(line, line)
    requires |after| == |line| && after != line
    ensures var es := [Refill(after)] + ([if more then Produce(next) else ProducerEnd] + ([Write(true)] + []));
            && Runs(false, s, es) && !NoRefillWhileHeld(s, es)
            && Exec(false, s, es).received == s.received
            && Exec(false, s, es).written == s.written + [after]
  {
    var s1 := Apply(false, s, Refill(after));
    var e := if more then Produce(next) else ProducerEnd;
    var s2 := Apply(false, s1, e);
    RunsCons(false, s2, Write(true), []);
    RunsCons(false, s1, e, [Write(true)] + []);
    RunsCons(false, s, Refill(after), [e] + ([Write(true)] + []));
  }

  // ----- Draining --------------------------------------------------------------------------------

  /** All three goroutines the WebSocket manager counts have returned. */
  predicate Drained(s: State) {
    s.producer.ProducerDone? && s.writer.WriterDone? && s.reader.ReaderDone?
  }

  /** A message is offered and nobody will take it. */
  predicate Abandoned(s: State) {
    s.producer.Handing? && s.writer.WriterDone?
  }

  lemma {:induction false} AbandonedForEver(copied: bool, s: State, es: seq<Event>)
    requires Abandoned(s) && Runs(copied, s, es)
    ensures Abandoned(Exec(copied, s, es)) && !Drained(Exec(copied, s, es))
    decreases |es|
  {
    if |es| > 0 {
      AbandonedForEver(copied, Apply(copied, s, es[0]), es[1..]);
    }
  }

  /** A shutdown abandons a message when the writer chooses to stop before taking it. */
  lemma {:induction false} ShutdownCanAbandon(copied: bool, token: string)
    ensures var es := [Produce(token)] + ([Shutdown] + ([WriterShutdown] + []));
            Runs(copied, INIT, es) && Abandoned(Exec(copied, INIT, es))
  {
    var s1 := Apply(copied, INIT, Produce(token));
    var s2 := Apply(copied, s1, Shutdown);
    RunsCons(copied, s2, WriterShutdown, []);
    RunsCons(copied, s1, Shutdown, [WriterShutdown] + []);
    RunsCons(copied, INIT, Produce(token), [Shutdown] + ([WriterShutdown] + []));
  }

  lemma {:induction false} RunsOne(copied: bool, s: State, e: Event)
    requires Enabled(s, e)
    ensures Runs(copied, s, [e]) && Exec(copied, s, [e]) == Apply(copied, s, e)
  {
    assert [e][1..] == [];
  }

  lemma {:induction false} RunsConcat(copied: bool, s: State, a: seq<Event>, b: seq<Event>)
    requires Runs(copied, s, a) && Runs(copied, Exec(copied, s, a), b)
    ensures Runs(copied, s, a + b) && Exec(copied, s, a + b) == Exec(copied, Exec(copied, s, a), b)
    decreases |a|
  {
    if |a| == 0 {
      assert a + b == b;
    } else {
      assert (a + b)[1..] == a[1..] + b;
      RunsConcat(copied, Apply(copied, s, a[0]), a[1..], b);
    }
  }

  /** Some continuation lets all three goroutines return. */
  ghost predicate CanDrain(copied: bool, s: State) {
    exists es :: Runs(copied, s, es) && Drained(Exec(copied, s, es))
  }

  /** The next step of a stream that is to drain: shut down, take and write what is offered, then
      let everybody return. */
  function TowardsDrained(s: State): (e: Event)
    requires !Abandoned(s) && !Drained(s)
    ensures Enabled(s, e)
  {
    if !s.shutdown then Shutdown
    else if s.writer.Holding? then Write(true)
    else if s.producer.Producing? then ProducerEnd
    else if s.producer.Handing? then HandOff
    else if s.writer.Selecting? then WriterShutdown
    else if s.reader.Polling? then ReaderPoll
    else ReaderFail
  }

  /** How many such steps are left, at most. */
  function StepsLeft(s: State): nat {
    (if s.shutdown then 0 else 1)
    + (match s.producer case Handing(_) => 4 case Producing => 1 case ProducerDone => 0)
    + (match s.writer case Holding(_, _) => 2 case Selecting => 1 case WriterDone => 0)
    + (if s.reader.ReaderDone? then 0 else 1)
  }

  lemma {:induction false} StepTowardsDrained(copied: bool, s: State)
    requires !Abandoned(s) && !Drained(s)
    ensures var next := Apply(copied, s, TowardsDrained(s)); !Abandoned(next) && StepsLeft(next) < StepsLeft(s)
  {}

  lemma {:induction false} CanDrainUnlessAbandoned(copied: bool, s: State)
    requires !Abandoned(s)
    ensures CanDrain(copied, s)
    decreases StepsLeft(s)
  {
    if Drained(s) {
      assert Runs(copied, s, []) && Drained(Exec(copied, s, []));
    } else {
      var e := TowardsDrained(s);
      var next := Apply(copied, s, e);
      StepTowardsDrained(copied, s);
      CanDrainUnlessAbandoned(copied, next);
      var es :| Runs(copied, next, es) && Drained(Exec(copied, next, es));
      RunsCons(copied, s, e, es);
    }
  }

  /** From every state, a stream can still drain exactly when no message is offered to a writer that
      has returned. */
  lemma {:induction false} DrainsIffNotAbandoned(copied: bool, s: State)
    ensures CanDrain(copied, s) <==> !Abandoned(s)
  {
    if Abandoned(s) {
      forall es | Runs(copied, s, es)
        ensures !Drained(Exec(copied, s, es))
      {
        AbandonedForEver(copied, s, es);
      }
    } else {
      CanDrainUnlessAbandoned(copied, s);
    }
  }

  // ----- Why somebody stopped --------------------------------------------------------------------

  function Made(es: seq<Event>): seq<string> {
    if es == [] then [] else (if es[0].Produce? then [es[0].token] else []) + Made(es[1..])
  }

  function SocketReads(es: seq<Event>): nat {
    if es == [] then 0 else (if es[0].ReaderRead? || es[0].ReaderFail? then 1 else 0) + SocketReads(es[1..])
  }

  lemma {:induction false} StepSays(copied: bool, s: State, e: Event)
    requires Enabled(s, e)
    ensures var s' := Apply(copied, s, e);
            && (s'.shutdown <==> s.shutdown || e == Shutdown)
            && (s'.dead <==> s.dead || e == ReaderFail)
            && (s'.writeFailed <==> s.writeFailed || e == Write(false))
            && s'.produced == s.produced + if e.Produce? then [e.token] else []
  {}

  /** In every run: the socket is dead exactly after a failed read, and what was produced are the
      messages made, in order. */
  lemma {:induction false} RunSays(copied: bool, s: State, es: seq<Event>)
    requires Runs(copied, s, es)
    ensures var s' := Exec(copied, s, es);
            && (s'.shutdown <==> s.shutdown || Shutdown in es)
            && (s'.dead <==> s.dead || ReaderFail in es)
            && (s'.writeFailed <==> s.writeFailed || Write(false) in es)
            && s'.produced == s.produced + Made(es)
    decreases |es|
  {
    if |es| > 0 {
      StepSays(copied, s, es[0]);
      RunSays(copied, Apply(copied, s, es[0]), es[1..]);
      assert forall e :: e in es <==> e == es[0] || e in es[1..];
    }
  }

  /** Once the socket is dead or the server shuts down, the reader finishes at most the read it is in. */
  lemma {:induction false} ReadsEnd(copied: bool, s: State, es: seq<Event>)
    requires Runs(copied, s, es) && (s.shutdown || s.dead)
    ensures SocketReads(es) <= if s.reader.Reading? then 1 else 0
    decreases |es|
  {
    if |es| > 0 {
      ReadsEnd(copied, Apply(copied, s, es[0]), es[1..]);
    }
  }

  ghost predicate Causes(s: State) {
    && (s.dead ==> s.reader.ReaderDone?)
    && (s.reader.ReaderDone? ==> s.shutdown || s.dead)
    && (s.writer.WriterDone? ==> s.shutdown || s.dead || s.writeFailed)
  }

  /** Over every run: the reader stops only on shutdown or at a failed read, which makes the socket
      dead, and the writer only on shutdown, on a dead socket or at a failed write. */
  lemma {:induction false} NobodyStopsWithoutCause(copied: bool, s: State, es: seq<Event>)
    requires Causes(s) && Runs(copied, s, es)
    ensures Causes(Exec(copied, s, es))
    decreases |es|
  {
    if |es| > 0 {
      NobodyStopsWithoutCause(copied, Apply(copied, s, es[0]), es[1..]);
    }
  }

  /** Some continuation lets all three goroutines return without a shutdown. */
  ghost predicate DrainsAlone(copied: bool, s: State) {
    exists es :: Runs(copied, s, es) && Shutdown !in es && Drained(Exec(copied, s, es))
  }

  /** A dead socket is enough to end a stream, unless a message is offered to a writer that has
      returned: no shutdown is needed. */
  lemma {:induction false} DeadSocketEndsStream(copied: bool, s: State)
    requires s.dead && !Abandoned(s)
    ensures DrainsAlone(copied, s)
    decreases StepsLeft(s), if s.reader.Reading? then 1 else 0
  {
    if Drained(s) {
      assert Runs(copied, s, []) && Drained(Exec(copied, s, []));
    } else {
      var e := if s.writer.Holding? then Write(true)
               else if s.producer.Producing? then ProducerEnd
               else if s.producer.Handing? then HandOff
               else if s.writer.Selecting? then WriterDeath
               else if s.reader.Reading? then ReaderRead
               else ReaderPoll;
      var next := Apply(copied, s, e);
      DeadSocketEndsStream(copied, next);
      var es :| Runs(copied, next, es) && Shutdown !in es && Drained(Exec(copied, next, es));
      RunsCons(copied, s, e, es);
      assert Shutdown !in [e] + es;
    }
  }
}
