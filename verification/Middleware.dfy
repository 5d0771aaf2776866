/**
 Middleware chains: registering a handler folds the chain around it from the back, and the
 result behaves as an interpreter that goes through the chain from the front.
 */
module Middleware {
  import opened Options

  /** Who the request comes from, as far as the local client can tell. */
  datatype Caller = Caller(login: string, tags: seq<string>)

  datatype Note = Entered(stage: Stage) | Status(code: int) | BodyClosed | Logged(code: int) | Handled

  /** The raw request and response; `upgrade` holds the Upgrade headers, `upgradable` whether the
      upgrade succeeds, and `notes` what has happened so far. */
  datatype Raw = Raw(method_: string, upgrade: Option<seq<string>>, upgradable: bool, caller: Option<Caller>,
                     notes: seq<Note>)

  datatype Request = Request(raw: Raw, logger: bool, status: int, socket: bool, crashed: bool)

  datatype Stage =
    | RequestLogger
    | Post
    | Get
    | Websocket
    | UiAuth(allowed: seq<string>)
    | AdapterAuth(tag: string)

  type Handler = Request -> Request

  function Noted(r: Request, n: Note): Request {
    r.(raw := r.raw.(notes := r.raw.notes + [n]))
  }

  function SetStatus(r: Request, code: int): Request {
    Noted(r.(status := code), Status(code))
  }

  /** Writes to the request's logger; a request that has none panics. */
  function UseLogger(r: Request): Request {
    if r.logger then r else r.(crashed := true)
  }

  // ----- What a stage does before and after the rest ------------------------------------

  datatype Verdict = Pass(r: Request) | Stop(r: Request)

  /** Logs, then answers with `code`, unless logging panics. */
  function Refuse(r: Request, code: int): Verdict {
    var logged := UseLogger(r);
    if logged.crashed then Stop(logged) else Stop(SetStatus(logged, code))
  }

  function Guard(stage: Stage, before: Request): Verdict {
    var r := Noted(before, Entered(stage));
    match stage
    case RequestLogger => Pass(r.(logger := true))
    case Post =>
      if r.raw.method_ == "OPTIONS" then Stop(SetStatus(r, 200))
      else if r.raw.method_ != "POST" then Refuse(r, 405)
      else Pass(r)
    case Get => if r.raw.method_ != "GET" then Refuse(r, 405) else Pass(r)
    case Websocket =>
      if !(r.raw.upgrade.Some? && "websocket" in r.raw.upgrade.value) then Refuse(r, 426)
      else if !r.raw.upgradable then Refuse(r, 500)
      else Pass(r.(socket := true))
    case UiAuth(allowed) =>
      if r.raw.caller.None? then Refuse(r, 500)
      else
        var logged := UseLogger(r);
        if logged.crashed then Stop(logged)
        else if allowed == [] || r.raw.caller.value.login in allowed then Pass(logged)
        else Stop(SetStatus(logged, 403))
    case AdapterAuth(tag) =>
      if r.raw.caller.None? then Refuse(r, 500)
      else if tag !in r.raw.caller.value.tags then Stop(SetStatus(r, 403))
      else Pass(r)
  }

  /** What runs when the stage returns: deferred closes always, the log line unless something panicked. */
  function After(stage: Stage, r: Request): Request {
    match stage
    case RequestLogger => if r.crashed then r else Noted(r, Logged(if r.status == 0 then 200 else r.status))
    case Post => Noted(r, BodyClosed)
    case Get => Noted(r, BodyClosed)
    case Websocket => Noted(r, BodyClosed)
    case UiAuth(_) => r
    case AdapterAuth(_) => r
  }

  function Wrap(stage: Stage, next: Handler): Handler {
    (r: Request) =>
      match Guard(stage, r)
      case Pass(r') => After(stage, next(r'))
      case Stop(r') => After(stage, r')
  }

  function Fold(stages: seq<Stage>, final: Handler): Handler {
    if stages == [] then final else Wrap(stages[0], Fold(stages[1..], final))
  }

  /** A fresh request around the raw one. */
  function Convert(raw: Raw): Request {
    Request(raw, false, 0, false, false)
  }

  function Revert(final: Raw -> Raw): Handler {
    (r: Request) => r.(raw := final(r.raw))
  }

  // ----- The chain object --------------------------------------------------------------------

  class Chain {
    var stages: seq<Stage>
    var mux: map<string, Handler>

    constructor ()
      ensures stages == [RequestLogger] && mux == map[]
    {
      stages, mux := [RequestLogger], map[];
    }

    method Add(stage: Stage)
      modifies this`stages
      ensures stages == old(stages) + [stage]
    {
      stages := stages + [stage];
    }

    /** The multiplexer panics when a path is registered twice. */
    method Register(path: string, final: Handler)
      requires path !in mux
      modifies this`mux
      ensures mux == old(mux)[path := Fold(stages, final)]
    {
      var out := final;
      var k := |stages|;
      while k > 0
        invariant 0 <= k <= |stages| && out == Fold(stages[k..], final)
      {
        k := k - 1;
        out := Wrap(stages[k], out);
        assert stages[k..][1..] == stages[k + 1..];
      }
      assert stages[0..] == stages;
      mux := mux[path := out];
    }

    method RegisterSimple(path: string, final: Raw -> Raw)
      requires path !in mux
      modifies this`mux
      ensures mux == old(mux)[path := Fold(stages, Revert(final))]
    {
      Register(path, Revert(final));
    }
  }

  // ----- The in-order interpreter ----------------------------------------------------------------

  /** How far the guards let a request through: how many stages were entered, whether all
      passed, and the request then. */
  datatype Descent = Descent(entered: nat, passed: bool, r: Request)

  function Descend(stages: seq<Stage>, r: Request): Descent {
    if stages == [] then Descent(0, true, r)
    else
      match Guard(stages[0], r)
      case Stop(r') => Descent(1, false, r')
      case Pass(r') => var d := Descend(stages[1..], r'); d.(entered := d.entered + 1)
  }

  /** Leaves the first `n` stages, innermost first. */
  function Unwind(stages: seq<Stage>, n: nat, r: Request): Request
    requires n <= |stages|
  {
    if n == 0 then r else Unwind(stages, n - 1, After(stages[n - 1], r))
  }

  lemma {:induction false} DescendBound(stages: seq<Stage>, r: Request)
    ensures Descend(stages, r).entered <= |stages|
    ensures Descend(stages, r).passed ==> Descend(stages, r).entered == |stages|
    decreases |stages|
  {
    if stages != [] && Guard(stages[0], r).Pass? {
      DescendBound(stages[1..], Guard(stages[0], r).r);
    }
  }

  lemma {:induction false} UnwindTail(stages: seq<Stage>, n: nat, r: Request)
    requires 1 <= n <= |stages|
    ensures Unwind(stages, n, r) == After(stages[0], Unwind(stages[1..], n - 1, r))
  {
    if n > 1 {
      UnwindTail(stages, n - 1, After(stages[n - 1], r));
      assert stages[1..][n - 2] == stages[n - 1];
    }
  }

  /** For every chain and handler, the registered function lets the request through the guards
      in the order they were added, runs the handler exactly if all of them pass, and leaves
      the entered stages in reverse. */
  lemma {:induction false} FoldIsInOrder(stages: seq<Stage>, final: Handler, r: Request)
    ensures var d := Descend(stages, r);
            && d.entered <= |stages|
            && Fold(stages, final)(r) == Unwind(stages, d.entered, if d.passed then final(d.r) else d.r)
    decreases |stages|
  {
    DescendBound(stages, r);
    if stages != [] {
      match Guard(stages[0], r)
      case Stop(r') =>
        assert Unwind(stages, 1, r') == After(stages[0], r');
      case Pass(r') =>
        var d := Descend(stages[1..], r');
        FoldIsInOrder(stages[1..], final, r');
        UnwindTail(stages, d.entered + 1, if d.passed then final(d.r) else d.r);
    }
  }

  // ----- Each stage is entered once, in order -------------------------------------------------------

  function Entries(notes: seq<Note>): seq<Stage> {
    if notes == [] then []
    else
      var init, last := Entries(notes[..|notes| - 1]), notes[|notes| - 1];
      if last.Entered? then init + [last.stage] else init
  }

  lemma {:induction false} EntriesSnoc(notes: seq<Note>, n: Note)
    ensures Entries(notes + [n]) == Entries(notes) + if n.Entered? then [n.stage] else []
  {
    assert (notes + [n])[..|notes|] == notes;
  }

  ghost predicate Answers(before: seq<Note>, answer: seq<Note>, after: seq<Note>) {
    after == before + answer && (answer == [] || (|answer| == 1 && answer[0].Status?))
  }

  /** A guard notes that it is entered, and at most an answer after that. */
  lemma {:induction false} GuardNotes(stage: Stage, r: Request)
    ensures exists answer :: Answers(r.raw.notes + [Entered(stage)], answer, Guard(stage, r).r.raw.notes)
  {
    var before, after := r.raw.notes + [Entered(stage)], Guard(stage, r).r.raw.notes;
    assert Answers(before, after[|before|..], after);
  }

  lemma {:induction false} GuardEnters(stage: Stage, r: Request)
    ensures Entries(Guard(stage, r).r.raw.notes) == Entries(r.raw.notes) + [stage]
  {
    GuardNotes(stage, r);
    var entered := r.raw.notes + [Entered(stage)];
    var answer :| Answers(entered, answer, Guard(stage, r).r.raw.notes);
    EntriesSnoc(r.raw.notes, Entered(stage));
    if answer == [] {
      assert entered + answer == entered;
    } else {
      assert answer == [answer[0]];
      EntriesSnoc(entered, answer[0]);
    }
  }

  lemma {:induction false} OneMore(sofar: seq<Stage>, stages: seq<Stage>, n: nat)
    requires n < |stages|
    ensures (sofar + [stages[0]]) + stages[1..][..n] == sofar + stages[..n + 1]
  {}

  lemma {:induction false} DescendEnters(stages: seq<Stage>, r: Request)
    ensures var d := Descend(stages, r);
            d.entered <= |stages| && Entries(d.r.raw.notes) == Entries(r.raw.notes) + stages[..d.entered]
    decreases |stages|
  {
    DescendBound(stages, r);
    if stages != [] {
      GuardEnters(stages[0], r);
      if Guard(stages[0], r).Pass? {
        DescendEnters(stages[1..], Guard(stages[0], r).r);
        OneMore(Entries(r.raw.notes), stages, Descend(stages[1..], Guard(stages[0], r).r).entered);
      }
    }
  }

  lemma {:induction false} UnwindEntersNothing(stages: seq<Stage>, n: nat, r: Request)
    requires n <= |stages|
    ensures Entries(Unwind(stages, n, r).raw.notes) == Entries(r.raw.notes)
  {
    if n > 0 {
      var out := After(stages[n - 1], r);
      EntriesSnoc(r.raw.notes, BodyClosed);
      EntriesSnoc(r.raw.notes, Logged(if r.status == 0 then 200 else r.status));
      UnwindEntersNothing(stages, n - 1, out);
    }
  }

  /** The stages entered are the first ones of the chain, each once and in order. */
  lemma {:induction false} EnteredOnceInOrder(stages: seq<Stage>, final: Handler, r: Request)
    requires forall x: Request :: Entries(final(x).raw.notes) == Entries(x.raw.notes)
    ensures var d := Descend(stages, r);
            && d.entered <= |stages|
            && Entries(Fold(stages, final)(r).raw.notes) == Entries(r.raw.notes) + stages[..d.entered]
  {
    var d := Descend(stages, r);
    FoldIsInOrder(stages, final, r);
    DescendEnters(stages, r);
    UnwindEntersNothing(stages, d.entered, if d.passed then final(d.r) else d.r);
  }

  // ----- The logger is set before it is used -----------------------------------------------------------

  lemma {:induction false} LoggerStaysSet(stages: seq<Stage>, r: Request)
    requires r.logger && !r.crashed
    ensures Descend(stages, r).r.logger && !Descend(stages, r).r.crashed
    decreases |stages|
  {
    if stages != [] && Guard(stages[0], r).Pass? {
      LoggerStaysSet(stages[1..], Guard(stages[0], r).r);
    }
  }

  /** With the logger first no guard ever uses an unset logger. */
  lemma {:induction false} LoggerFirstNeverCrashes(stages: seq<Stage>, raw: Raw)
    requires stages != [] && stages[0] == RequestLogger
    ensures !Descend(stages, Convert(raw)).r.crashed
  {
    LoggerStaysSet(stages[1..], Guard(RequestLogger, Convert(raw)).r);
  }

  /** The guard needs a logger for this request. */
  predicate NeedsLogger(stage: Stage, raw: Raw) {
    match stage
    case RequestLogger => false
    case Post => raw.method_ != "OPTIONS" && raw.method_ != "POST"
    case Get => raw.method_ != "GET"
    case Websocket => !(raw.upgrade.Some? && "websocket" in raw.upgrade.value) || !raw.upgradable
    case UiAuth(_) => true
    case AdapterAuth(_) => raw.caller.None?
  }

  /** The guard lets this request through. */
  predicate Admits(stage: Stage, raw: Raw) {
    match stage
    case RequestLogger => true
    case Post => raw.method_ == "POST"
    case Get => raw.method_ == "GET"
    case Websocket => raw.upgrade.Some? && "websocket" in raw.upgrade.value && raw.upgradable
    case UiAuth(allowed) => raw.caller.Some? && (allowed == [] || raw.caller.value.login in allowed)
    case AdapterAuth(tag) => raw.caller.Some? && tag in raw.caller.value.tags
  }

  predicate SameRequest(a: Raw, b: Raw) {
    a.(notes := []) == b.(notes := [])
  }

  lemma {:induction false} GuardVerdict(stage: Stage, r: Request)
    requires !r.crashed
    ensures SameRequest(Guard(stage, r).r.raw, r.raw)
    ensures Guard(stage, r).r.crashed <==> NeedsLogger(stage, r.raw) && !r.logger
    ensures Guard(stage, r).Pass? <==> Admits(stage, r.raw) && !Guard(stage, r).r.crashed
    ensures Guard(stage, r).Pass? ==> Guard(stage, r).r.status == r.status
    ensures Guard(stage, r).Pass? ==> Guard(stage, r).r.logger == (r.logger || stage == RequestLogger)
  {}

  /** Stage `k` is the first that would log, is reached, and no logger precedes it. */
  ghost predicate CrashesAt(stages: seq<Stage>, raw: Raw, k: nat) {
    && k < |stages| && NeedsLogger(stages[k], raw)
    && forall j :: 0 <= j < k ==> stages[j] != RequestLogger && Admits(stages[j], raw) && !NeedsLogger(stages[j], raw)
  }

  /** Exactly when a chain in any other order would use an unset logger. */
  lemma {:induction false} CrashIff(stages: seq<Stage>, r: Request)
    requires !r.crashed && !r.logger
    ensures Descend(stages, r).r.crashed <==> exists k: nat :: CrashesAt(stages, r.raw, k)
    decreases |stages|
  {
    if stages != [] {
      var v := Guard(stages[0], r);
      GuardVerdict(stages[0], r);
      if v.Pass? {
        if stages[0] == RequestLogger {
          LoggerStaysSet(stages[1..], v.r);
        } else {
          CrashIff(stages[1..], v.r);
          SameVerdicts(stages[1..], v.r.raw, r.raw);
          if k: nat :| CrashesAt(stages[1..], r.raw, k) {
            assert forall j :: 0 < j < k + 1 ==> stages[j] == stages[1..][j - 1];
            assert CrashesAt(stages, r.raw, k + 1);
          }
          if k: nat :| CrashesAt(stages, r.raw, k) {
            assert k > 0;
            assert forall j :: 0 <= j < k ==> stages[1..][j] == stages[j + 1];
            assert CrashesAt(stages[1..], r.raw, k - 1);
          }
        }
      } else if v.r.crashed {
        assert CrashesAt(stages, r.raw, 0);
      }
    }
  }

  lemma {:induction false} SameVerdicts(stages: seq<Stage>, a: Raw, b: Raw)
    requires SameRequest(a, b)
    ensures forall k: nat :: CrashesAt(stages, a, k) <==> CrashesAt(stages, b, k)
  {
    assert a.method_ == b.method_ && a.upgrade == b.upgrade && a.upgradable == b.upgradable && a.caller == b.caller;
  }

  // ----- When the handler runs ----------------------------------------------------------------------------

  lemma {:induction false} PassesIff(stages: seq<Stage>, r: Request)
    requires r.logger && !r.crashed
    ensures Descend(stages, r).passed <==> forall k :: 0 <= k < |stages| ==> Admits(stages[k], r.raw)
    ensures Descend(stages, r).passed ==> Descend(stages, r).r.status == r.status
    decreases |stages|
  {
    if stages != [] {
      var v := Guard(stages[0], r);
      GuardVerdict(stages[0], r);
      if v.Pass? {
        PassesIff(stages[1..], v.r);
        forall k | 1 <= k < |stages|
          ensures Admits(stages[k], r.raw) <==> Admits(stages[1..][k - 1], v.r.raw)
        {
          assert stages[1..][k - 1] == stages[k];
        }
        assert forall k :: 0 <= k < |stages| - 1 ==> stages[1..][k] == stages[k + 1];
      }
    }
  }

  /** Behind the logger, the handler runs exactly for the requests that every guard admits. */
  lemma {:induction false} HandlerRunsIff(stages: seq<Stage>, raw: Raw)
    requires stages != [] && stages[0] == RequestLogger
    ensures Descend(stages, Convert(raw)).passed <==> forall k :: 0 <= k < |stages| ==> Admits(stages[k], raw)
    ensures Descend(stages, Convert(raw)).passed ==> Descend(stages, Convert(raw)).r.status == 0
  {
    var r := Guard(RequestLogger, Convert(raw)).r;
    PassesIff(stages[1..], r);
    forall k | 1 <= k < |stages|
      ensures Admits(stages[k], raw) <==> Admits(stages[1..][k - 1], r.raw)
    {
      assert stages[1..][k - 1] == stages[k];
    }
    assert forall k :: 0 <= k < |stages| - 1 ==> stages[1..][k] == stages[k + 1];
  }

  /** The answer of a guard that refuses a request. */
  function Answer(stage: Stage, raw: Raw): int {
    match stage
    case RequestLogger => 0
    case Post => if raw.method_ == "OPTIONS" then 200 else 405
    case Get => 405
    case Websocket => if raw.upgrade.Some? && "websocket" in raw.upgrade.value then 500 else 426
    case UiAuth(_) => if raw.caller.Some? then 403 else 500
    case AdapterAuth(_) => if raw.caller.Some? then 403 else 500
  }

  /** Stage `k` is the first that does not admit the request. */
  ghost predicate RefusedAt(stages: seq<Stage>, raw: Raw, k: int) {
    && 0 <= k < |stages| && !Admits(stages[k], raw)
    && forall j :: 0 <= j < k ==> Admits(stages[j], raw)
  }

  lemma {:induction false} RefusedShift(stages: seq<Stage>, a: Raw, b: Raw, k: int)
    requires stages != [] && SameRequest(a, b) && Admits(stages[0], b)
    requires RefusedAt(stages[1..], a, k)
    ensures RefusedAt(stages, b, k + 1) && Answer(stages[1..][k], a) == Answer(stages[k + 1], b)
  {
    assert a.method_ == b.method_ && a.upgrade == b.upgrade && a.upgradable == b.upgradable && a.caller == b.caller;
    assert forall j :: 1 <= j < |stages| ==> stages[1..][j - 1] == stages[j];
  }

  lemma {:induction false} RefusalStatus(stages: seq<Stage>, r: Request)
    requires r.logger && !r.crashed && !Descend(stages, r).passed
    ensures var d := Descend(stages, r);
            RefusedAt(stages, r.raw, d.entered - 1) && d.r.status == Answer(stages[d.entered - 1], r.raw)
    decreases |stages|
  {
    var v := Guard(stages[0], r);
    GuardVerdict(stages[0], r);
    if v.Pass? {
      RefusalStatus(stages[1..], v.r);
      RefusedShift(stages, v.r.raw, r.raw, Descend(stages[1..], v.r).entered - 1);
    } else {
      assert v.r.status == Answer(stages[0], r.raw);
    }
  }

  /** Behind the logger, a refused request is logged last, with the answer of the first guard
      that does not admit it. */
  lemma {:induction false} RefusalIsLogged(stages: seq<Stage>, final: Handler, raw: Raw)
    requires stages != [] && stages[0] == RequestLogger
    requires exists k :: 0 <= k < |stages| && !Admits(stages[k], raw)
    ensures var notes := Fold(stages, final)(Convert(raw)).raw.notes;
            var k := Descend(stages, Convert(raw)).entered - 1;
            && RefusedAt(stages, raw, k)
            && notes != [] && notes[|notes| - 1] == Logged(Answer(stages[k], raw))
  {
    var r := Guard(RequestLogger, Convert(raw)).r;
    var d := Descend(stages, Convert(raw));
    HandlerRunsIff(stages, raw);
    RefusalStatus(stages[1..], r);
    RefusedShift(stages, r.raw, raw, d.entered - 2);
    LoggerFirstNeverCrashes(stages, raw);
    FoldIsInOrder(stages, final, Convert(raw));
    UnwindTail(stages, d.entered, d.r);
    UnwindKeepsStatus(stages[1..], d.entered - 1, d.r);
  }

  /** A prebaked handler cannot report its status: whatever it answers, the log says 200. */
  lemma {:induction false} SimpleHandlersLog200(stages: seq<Stage>, final: Raw -> Raw, raw: Raw)
    requires stages != [] && stages[0] == RequestLogger
    requires forall k :: 0 <= k < |stages| ==> Admits(stages[k], raw)
    ensures var notes := Fold(stages, Revert(final))(Convert(raw)).raw.notes;
            notes != [] && notes[|notes| - 1] == Logged(200)
  {
    var d := Descend(stages, Convert(raw));
    HandlerRunsIff(stages, raw);
    LoggerFirstNeverCrashes(stages, raw);
    FoldIsInOrder(stages, Revert(final), Convert(raw));
    DescendBound(stages, Convert(raw));
    var r := Revert(final)(d.r);
    UnwindTail(stages, |stages|, r);
    UnwindKeepsStatus(stages[1..], |stages| - 1, r);
  }

  lemma {:induction false} UnwindKeepsStatus(stages: seq<Stage>, n: nat, r: Request)
    requires n <= |stages|
    ensures Unwind(stages, n, r).status == r.status && Unwind(stages, n, r).crashed == r.crashed
  {
    if n > 0 {
      UnwindKeepsStatus(stages, n - 1, After(stages[n - 1], r));
    }
  }

  // ----- What the client is answered ------------------------------------------------------------------------

  function Statuses(notes: seq<Note>): seq<int> {
    if notes == [] then []
    else
      var init, last := Statuses(notes[..|notes| - 1]), notes[|notes| - 1];
      if last.Status? then init + [last.code] else init
  }

  function Closings(notes: seq<Note>): nat {
    if notes == [] then 0 else Closings(notes[..|notes| - 1]) + if notes[|notes| - 1].BodyClosed? then 1 else 0
  }

  /** How many of the stages defer closing the request's body. */
  function Bodies(stages: seq<Stage>): nat {
    if stages == [] then 0
    else
      var last := stages[|stages| - 1];
      Bodies(stages[..|stages| - 1]) + if DefersClose(last) then 1 else 0
  }

  lemma {:induction false} NotesSnoc(notes: seq<Note>, n: Note)
    ensures Statuses(notes + [n]) == Statuses(notes) + if n.Status? then [n.code] else []
    ensures Closings(notes + [n]) == Closings(notes) + if n.BodyClosed? then 1 else 0
  {
    assert (notes + [n])[..|notes|] == notes;
  }

  /** A guard that lets the request through answers nothing; one that stops it answers its status, unless
      it panics; and none closes a body. */
  lemma {:induction false} GuardAnswers(stage: Stage, r: Request)
    requires !r.crashed
    ensures var v := Guard(stage, r);
            && Closings(v.r.raw.notes) == Closings(r.raw.notes)
            && Statuses(v.r.raw.notes) ==
                 Statuses(r.raw.notes) + (if v.Pass? || v.r.crashed then [] else [Answer(stage, r.raw)])
            && (v.Pass? ==> v.r.socket == (r.socket || stage == Websocket))
  {
    var entered := r.raw.notes + [Entered(stage)];
    NotesSnoc(r.raw.notes, Entered(stage));
    NotesSnoc(entered, Status(Answer(stage, r.raw)));
    GuardWrites(stage, r);
  }

  lemma {:induction false} GuardWrites(stage: Stage, r: Request)
    requires !r.crashed
    ensures var v, entered := Guard(stage, r), r.raw.notes + [Entered(stage)];
            && v.r.raw.notes == (if v.Pass? || v.r.crashed then entered else entered + [Status(Answer(stage, r.raw))])
            && (v.Pass? ==> v.r.socket == (r.socket || stage == Websocket))
  {}

  lemma {:induction false} DescendAnswers(stages: seq<Stage>, r: Request)
    requires r.logger && !r.crashed
    ensures var d := Descend(stages, r);
            && SameRequest(d.r.raw, r.raw) && 0 <= d.entered <= |stages|
            && Closings(d.r.raw.notes) == Closings(r.raw.notes)
            && (d.passed ==> Statuses(d.r.raw.notes) == Statuses(r.raw.notes))
            && (d.passed ==> d.r.socket == (r.socket || Websocket in stages))
            && (!d.passed ==>
                  d.entered >= 1 && Statuses(d.r.raw.notes) == Statuses(r.raw.notes) + [Answer(stages[d.entered - 1], r.raw)])
    decreases |stages|
  {
    if stages != [] {
      var v := Guard(stages[0], r);
      GuardVerdict(stages[0], r);
      GuardAnswers(stages[0], r);
      if v.Pass? {
        DescendAnswers(stages[1..], v.r);
        var d := Descend(stages[1..], v.r);
        if !d.passed {
          SameAnswer(stages[1..][d.entered - 1], v.r.raw, r.raw);
        }
      }
    }
  }

  lemma {:induction false} SameAnswer(stage: Stage, a: Raw, b: Raw)
    requires SameRequest(a, b)
    ensures Answer(stage, a) == Answer(stage, b)
  {
    assert a.method_ == b.method_ && a.upgrade == b.upgrade && a.upgradable == b.upgradable && a.caller == b.caller;
  }

  predicate DefersClose(stage: Stage) {
    stage.Post? || stage.Get? || stage.Websocket?
  }

  lemma {:induction false} AfterAnswers(stage: Stage, r: Request)
    ensures var out := After(stage, r).raw;
            && r.raw.notes <= out.notes && SameRequest(out, r.raw)
            && Statuses(out.notes) == Statuses(r.raw.notes)
            && Closings(out.notes) == Closings(r.raw.notes) + if DefersClose(stage) then 1 else 0
  {
    NotesSnoc(r.raw.notes, BodyClosed);
    NotesSnoc(r.raw.notes, Logged(if r.status == 0 then 200 else r.status));
  }

  lemma {:induction false} BodiesSnoc(stages: seq<Stage>, n: nat)
    requires 0 < n <= |stages|
    ensures Bodies(stages[..n]) == Bodies(stages[..n - 1]) + if DefersClose(stages[n - 1]) then 1 else 0
  {
    assert stages[..n][..n - 1] == stages[..n - 1];
  }

  /** Leaving the stages answers nothing, closes the body once per stage that defers it, and changes nothing
      else of the request. */
  lemma {:induction false} UnwindAnswers(stages: seq<Stage>, n: nat, r: Request)
    requires n <= |stages|
    ensures var out := Unwind(stages, n, r).raw;
            && r.raw.notes <= out.notes && SameRequest(out, r.raw)
            && Statuses(out.notes) == Statuses(r.raw.notes)
            && Closings(out.notes) == Closings(r.raw.notes) + Bodies(stages[..n])
  {
    if n > 0 {
      var left := After(stages[n - 1], r);
      AfterAnswers(stages[n - 1], r);
      BodiesSnoc(stages, n);
      UnwindAnswers(stages, n - 1, left);
    }
  }

  lemma {:induction false} AfterTheLogger(stages: seq<Stage>, raw: Raw)
    requires stages != [] && stages[0] == RequestLogger
    ensures var d := Descend(stages, Convert(raw));
            && SameRequest(d.r.raw, raw) && 0 <= d.entered <= |stages|
            && Closings(d.r.raw.notes) == Closings(raw.notes)
            && (d.passed ==> Statuses(d.r.raw.notes) == Statuses(raw.notes) && d.r.socket == (Websocket in stages))
            && (!d.passed ==>
                  d.entered >= 2 && Statuses(d.r.raw.notes) == Statuses(raw.notes) + [Answer(stages[d.entered - 1], raw)])
  {
    var r := Guard(RequestLogger, Convert(raw)).r;
    GuardAnswers(RequestLogger, Convert(raw));
    DescendAnswers(stages[1..], r);
    var d := Descend(stages[1..], r);
    assert Websocket in stages <==> Websocket in stages[1..];
    if !d.passed {
      SameAnswer(stages[1..][d.entered - 1], r.raw, raw);
    }
  }

  /** Behind the logger, a refused request is answered once, by the first guard that does not admit it, and
      the body is closed once per stage entered that defers it. */
  lemma {:induction false} RefusalIsAnswered(stages: seq<Stage>, final: Handler, raw: Raw)
    requires stages != [] && stages[0] == RequestLogger
    requires exists k :: 0 <= k < |stages| && !Admits(stages[k], raw)
    ensures var out, d := Fold(stages, final)(Convert(raw)), Descend(stages, Convert(raw));
            && RefusedAt(stages, raw, d.entered - 1)
            && Statuses(out.raw.notes) == Statuses(raw.notes) + [Answer(stages[d.entered - 1], raw)]
            && Closings(out.raw.notes) == Closings(raw.notes) + Bodies(stages[..d.entered])
  {
    var d := Descend(stages, Convert(raw));
    HandlerRunsIff(stages, raw);
    RefusalIsLogged(stages, final, raw);
    AfterTheLogger(stages, raw);
    FoldIsInOrder(stages, final, Convert(raw));
    UnwindAnswers(stages, d.entered, d.r);
  }

  /** Behind the logger, an admitted request reaches the handler as it came, unanswered, with a logger, and
      with a socket exactly if the chain upgrades; what the handler makes of it stays, and the bodies are
      closed after it. */
  lemma {:induction false} HandlerGetsTheRequest(stages: seq<Stage>, final: Handler, raw: Raw)
    requires stages != [] && stages[0] == RequestLogger
    requires forall k :: 0 <= k < |stages| ==> Admits(stages[k], raw)
    ensures var seen := Descend(stages, Convert(raw)).r;
            var out, done := Fold(stages, final)(Convert(raw)).raw, final(seen).raw;
            && SameRequest(seen.raw, raw) && seen.logger && !seen.crashed && seen.status == 0
            && seen.socket == (Websocket in stages)
            && Statuses(seen.raw.notes) == Statuses(raw.notes) && Closings(seen.raw.notes) == Closings(raw.notes)
            && done.notes <= out.notes && SameRequest(out, done)
            && Statuses(out.notes) == Statuses(done.notes)
            && Closings(out.notes) == Closings(done.notes) + Bodies(stages)
  {
    var d := Descend(stages, Convert(raw));
    HandlerRunsIff(stages, raw);
    LoggerStaysSet(stages[1..], Guard(RequestLogger, Convert(raw)).r);
    AfterTheLogger(stages, raw);
    FoldIsInOrder(stages, final, Convert(raw));
    DescendBound(stages, Convert(raw));
    UnwindAnswers(stages, |stages|, final(d.r));
    assert stages[..|stages|] == stages;
  }

  /** A handler that sees only the raw request is run on it, and what it makes of it stays. */
  lemma {:induction false} SimpleHandlerRuns(stages: seq<Stage>, final: Raw -> Raw, raw: Raw)
    requires stages != [] && stages[0] == RequestLogger
    requires forall k :: 0 <= k < |stages| ==> Admits(stages[k], raw)
    ensures var seen := Descend(stages, Convert(raw)).r.raw;
            var out := Fold(stages, Revert(final))(Convert(raw)).raw;
            && SameRequest(seen, raw) && SameRequest(out, final(seen))
            && final(seen).notes <= out.notes && Statuses(out.notes) == Statuses(final(seen).notes)
  {
    HandlerGetsTheRequest(stages, Revert(final), raw);
  }
}
