/**
 The collecting handlers of the web UI: what each worker sends for each way its call can
 turn out, the loops that start the workers and, over every schedule, the response.
 */
module Handlers {
  import opened Options
  import opened FanOut

  /** How a worker's call to its adapter turns out. */
  datatype Outcome<T> =
    | NotMarshalled(error: string)
    | NotCalled(error: string)
    | NotDecoded(error: string, partial: T)
    | Decoded(value: T)

  /** What a call reports as its error; an empty text counts as success. */
  function ErrorOf<T>(outcome: Outcome<T>): string {
    match outcome
    case NotMarshalled(error) => error
    case NotCalled(error) => error
    case NotDecoded(error, _) => error
    case Decoded(_) => ""
  }

  /** The response collected at the end of a schedule in which nothing panicked. */
  ghost predicate Responds<R>(plans: seq<seq<R>>, es: seq<Event>, response: seq<R>) {
    && Runs(plans, Init(), es)
    && Terminal(plans, Exec(plans, Init(), es))
    && !Exec(plans, Init(), es).panicked
    && Exec(plans, Init(), es).results == response
  }

  ghost predicate Panics<R>(plans: seq<seq<R>>, es: seq<Event>) {
    && Runs(plans, Init(), es)
    && Exec(plans, Init(), es).panicked
  }

  /** Workers that send once never panic, and every schedule run to its end responds with
      the sequential result. */
  lemma SingleSendsRespond<R>(plans: seq<seq<R>>, es: seq<Event>)
    requires EachSendsOnce(plans) && Runs(plans, Init(), es)
    ensures !Panics(plans, es)
    ensures Terminal(plans, Exec(plans, Init(), es)) ==> Responds(plans, es, Firsts(plans))
  {
    EverySchedule(plans, es);
  }

  // ----- Ping -------------------------------------------------------------------------

  datatype PingTargets = PingTargets(host: string, targets: seq<string>)

  datatype PingReply = PingReply(error: string, host: string, target: string, results: seq<string>)

  function Row(arg: PingTargets): seq<(string, string)> {
    seq(|arg.targets|, k requires 0 <= k < |arg.targets| => (arg.host, arg.targets[k]))
  }

  /** The (host, target) pairs of a request in the order of the nested loops. */
  function Pairs(args: seq<PingTargets>): seq<(string, string)> {
    if args == [] then [] else Pairs(args[..|args| - 1]) + Row(args[|args| - 1])
  }

  function PingAnswer(host: string, target: string, outcome: Outcome<seq<string>>): PingReply {
    match outcome
    case NotMarshalled(error) => PingReply(error, host, target, [])
    case NotCalled(error) => PingReply(error, host, target, [])
    case NotDecoded(error, _) => PingReply(error, host, target, [])
    case Decoded(results) => PingReply("", host, target, results)
  }

  method PingWorker(host: string, target: string, outcome: Outcome<seq<string>>) returns (sends: seq<PingReply>)
    ensures sends == [PingAnswer(host, target, outcome)]
    ensures |sends| == 1 && sends[0].error == ErrorOf(outcome)
    ensures sends[0].results == if outcome.Decoded? then outcome.value else []
  {
    var result := PingReply("", host, target, []);
    sends := [];
    match outcome
    case NotMarshalled(error) =>
      result := result.(error := error);
      sends := sends + [result];
      return;
    case NotCalled(error) =>
      result := result.(error := error);
      sends := sends + [result];
      return;
    case NotDecoded(error, _) =>
      result := result.(error := error);
      sends := sends + [result];
      return;
    case Decoded(results) =>
      result := result.(results := results);
      sends := sends + [result];
  }

  function PingPlans(pairs: seq<(string, string)>, calls: nat -> Outcome<seq<string>>): seq<seq<PingReply>> {
    seq(|pairs|, k requires 0 <= k < |pairs| => [PingAnswer(pairs[k].0, pairs[k].1, calls(k))])
  }

  function PingAnswers(pairs: seq<(string, string)>, calls: nat -> Outcome<seq<string>>): seq<PingReply> {
    seq(|pairs|, k requires 0 <= k < |pairs| => PingAnswer(pairs[k].0, pairs[k].1, calls(k)))
  }

  lemma {:induction false} PlansSnoc(pairs: seq<(string, string)>, pair: (string, string), calls: nat -> Outcome<seq<string>>)
    ensures PingPlans(pairs + [pair], calls) == PingPlans(pairs, calls) + [[PingAnswer(pair.0, pair.1, calls(|pairs|))]]
  {}

  /** The nested loops that start one worker per pair. */
  method StartPings(args: seq<PingTargets>, calls: nat -> Outcome<seq<string>>) returns (channels: seq<seq<PingReply>>)
    ensures channels == PingPlans(Pairs(args), calls)
  {
    channels := [];
    for a := 0 to |args|
      invariant channels == PingPlans(Pairs(args[..a]), calls)
    {
      ghost var before := Pairs(args[..a]);
      var arg := args[a];
      for k := 0 to |arg.targets|
        invariant channels == PingPlans(before + Row(arg)[..k], calls)
      {
        var sends := PingWorker(arg.host, arg.targets[k], calls(|channels|));
        channels := channels + [sends];
        PlansSnoc(before + Row(arg)[..k], Row(arg)[k], calls);
        assert before + Row(arg)[..k + 1] == before + Row(arg)[..k] + [Row(arg)[k]];
      }
      assert Row(arg)[..|arg.targets|] == Row(arg);
      assert args[..a + 1][..a] == args[..a];
    }
    assert args[..|args|] == args;
  }

  /** For every schedule the ping response is, in request order, one reply per requested
      pair, tagged with that pair and saying how the call for it turned out. */
  lemma PingRespondsInOrder(args: seq<PingTargets>, calls: nat -> Outcome<seq<string>>, es: seq<Event>)
    requires Runs(PingPlans(Pairs(args), calls), Init(), es)
    ensures !Panics(PingPlans(Pairs(args), calls), es)
    ensures Terminal(PingPlans(Pairs(args), calls), Exec(PingPlans(Pairs(args), calls), Init(), es)) ==>
              Responds(PingPlans(Pairs(args), calls), es, PingAnswers(Pairs(args), calls))
    ensures forall k :: 0 <= k < |Pairs(args)| ==>
              var reply := PingAnswers(Pairs(args), calls)[k];
              (reply.host, reply.target) == Pairs(args)[k]
  {
    var pairs := Pairs(args);
    SingleSendsRespond(PingPlans(pairs, calls), es);
    assert Firsts(PingPlans(pairs, calls)) == PingAnswers(pairs, calls);
    forall k | 0 <= k < |pairs|
      ensures (PingAnswers(pairs, calls)[k].host, PingAnswers(pairs, calls)[k].target) == pairs[k]
    {
      assert PingAnswers(pairs, calls)[k] == PingAnswer(pairs[k].0, pairs[k].1, calls(k));
    }
  }

  /** For every schedule, ping reply k is about pair k and carries what its call returned: the error if
      there was one, and the results exactly when the answer could be decoded. */
  lemma {:induction false} PingRepliesExact(args: seq<PingTargets>, calls: nat -> Outcome<seq<string>>, es: seq<Event>,
                                            response: seq<PingReply>, k: nat)
    requires Responds(PingPlans(Pairs(args), calls), es, response) && k < |Pairs(args)|
    ensures |response| == |Pairs(args)|
    ensures (response[k].host, response[k].target) == Pairs(args)[k]
    ensures response[k].error == ErrorOf(calls(k))
    ensures response[k].results == if calls(k).Decoded? then calls(k).value else []
  {
    PingRespondsInOrder(args, calls, es);
    assert response == PingAnswers(Pairs(args), calls);
  }

  // ----- Host tagged collectors ----------------------------------------------------------

  /** Runs one single-send worker per host. */
  function HostPlans<T, R>(hosts: seq<string>, answer: (string, Outcome<T>) -> R, calls: nat -> Outcome<T>): seq<seq<R>> {
    seq(|hosts|, k requires 0 <= k < |hosts| => [answer(hosts[k], calls(k))])
  }

  /** For every schedule the response lists the workers' answers in the order of the hosts. */
  lemma HostsRespondInOrder<T, R>(hosts: seq<string>, answer: (string, Outcome<T>) -> R, calls: nat -> Outcome<T>,
                                  es: seq<Event>)
    requires Runs(HostPlans(hosts, answer, calls), Init(), es)
    ensures !Panics(HostPlans(hosts, answer, calls), es)
    ensures Terminal(HostPlans(hosts, answer, calls), Exec(HostPlans(hosts, answer, calls), Init(), es)) ==>
              Responds(HostPlans(hosts, answer, calls), es,
                       seq(|hosts|, k requires 0 <= k < |hosts| => answer(hosts[k], calls(k))))
  {
    var plans := HostPlans(hosts, answer, calls);
    SingleSendsRespond(plans, es);
    assert Firsts(plans) == seq(|hosts|, k requires 0 <= k < |hosts| => answer(hosts[k], calls(k)));
  }

  // ----- Goroutines ------------------------------------------------------------------------

  datatype HostReply = HostReply(host: string, error: string, result: string)

  function GoroutinesAnswer(host: string, outcome: Outcome<string>): HostReply {
    match outcome
    case NotMarshalled(error) => HostReply(host, error, "")
    case NotCalled(error) => HostReply(host, error, "")
    case NotDecoded(error, partial) => HostReply(host, error, partial)
    case Decoded(body) => HostReply(host, "", body)
  }

  /** A failed read of the body is reported together with what was read. */
  method GoroutinesWorker(host: string, outcome: Outcome<string>) returns (sends: seq<HostReply>)
    ensures sends == [GoroutinesAnswer(host, outcome)]
  {
    var result := HostReply(host, "", "");
    if outcome.NotMarshalled? || outcome.NotCalled? {
      result := result.(error := outcome.error);
      return [result];
    }
    var body;
    if outcome.NotDecoded? {
      result := result.(error := outcome.error);
      body := outcome.partial;
    } else {
      body := outcome.value;
    }
    result := result.(result := body);
    sends := [result];
  }

  /** For every schedule goroutine reply k is about host k, with an error exactly when its call
      failed with one, and whatever was read of its body. */
  lemma {:induction false} GoroutinesRespondInOrder(hosts: seq<string>, calls: nat -> Outcome<string>, es: seq<Event>,
                                                    response: seq<HostReply>, k: nat)
    requires Responds(HostPlans(hosts, GoroutinesAnswer, calls), es, response) && k < |hosts|
    ensures |response| == |hosts| && response[k].host == hosts[k]
    ensures response[k].error == ErrorOf(calls(k))
    ensures response[k].result == match calls(k)
                                  case Decoded(body) => body
                                  case NotDecoded(_, partial) => partial
                                  case _ => ""
  {
    HostsRespondInOrder(hosts, GoroutinesAnswer, calls, es);
    assert response == seq(|hosts|, j requires 0 <= j < |hosts| => GoroutinesAnswer(hosts[j], calls(j)));
    assert response[k] == GoroutinesAnswer(hosts[k], calls(k));
  }

  // ----- DNS queries ---------------------------------------------------------------------------

  datatype DnsReply = DnsReply(error: string, host: string, header: string, responses: seq<string>, resolvers: seq<string>)

  /** The fields present in an adapter's answer; decoding leaves the others as they were. */
  datatype DnsFields = DnsFields(
    error: Option<string>, host: Option<string>, header: Option<string>,
    responses: Option<seq<string>>, resolvers: Option<seq<string>>)

  function Or<T>(o: Option<T>, d: T): T {
    match o case Some(v) => v case None => d
  }

  function Overlay(r: DnsReply, f: DnsFields): DnsReply {
    DnsReply(Or(f.error, r.error), Or(f.host, r.host), Or(f.header, r.header),
             Or(f.responses, r.responses), Or(f.resolvers, r.resolvers))
  }

  function DnsAnswer(host: string, outcome: Outcome<DnsFields>): DnsReply {
    var result := DnsReply("", host, "", [], []);
    match outcome
    case NotMarshalled(error) => result.(error := error)
    case NotCalled(error) => result.(error := error)
    case NotDecoded(error, fields) => Overlay(result, fields).(error := error)
    case Decoded(fields) => Overlay(result, fields)
  }

  method QueryDnsWorker(host: string, outcome: Outcome<DnsFields>) returns (sends: seq<DnsReply>)
    ensures sends == [DnsAnswer(host, outcome)]
  {
    var result := DnsReply("", host, "", [], []);
    if outcome.NotMarshalled? || outcome.NotCalled? {
      result := result.(error := outcome.error);
      return [result];
    }
    result := Overlay(result, if outcome.Decoded? then outcome.value else outcome.partial);
    if outcome.NotDecoded? {
      result := result.(error := outcome.error);
      return [result];
    }
    sends := [result];
  }

  /** The adapter's answer names another host. */
  predicate Renames(host: string, outcome: Outcome<DnsFields>) {
    match outcome
    case NotDecoded(_, fields) => fields.host.Some? && fields.host.value != host
    case Decoded(fields) => fields.host.Some? && fields.host.value != host
    case _ => false
  }

  /** For every schedule, reply k of a DNS query is about host k exactly when the adapter's
      answer does not name another host. */
  lemma DnsRepliesTagged(hosts: seq<string>, calls: nat -> Outcome<DnsFields>, es: seq<Event>,
                         response: seq<DnsReply>, k: nat)
    requires Responds(HostPlans(hosts, DnsAnswer, calls), es, response) && k < |hosts|
    ensures |response| == |hosts|
    ensures response[k].host == hosts[k] <==> !Renames(hosts[k], calls(k))
  {
    HostsRespondInOrder(hosts, DnsAnswer, calls, es);
    assert response == seq(|hosts|, j requires 0 <= j < |hosts| => DnsAnswer(hosts[j], calls(j)));
    assert response[k] == DnsAnswer(hosts[k], calls(k));
  }

  /** A field shows what the answer has for it, and otherwise what it was before. */
  predicate Shows<T(==)>(field: T, present: Option<T>, before: T) {
    match present case Some(v) => field == v case None => field == before
  }

  /** For every schedule, DNS reply k shows the fields of the adapter's answer as far as they could be
      decoded, and its error is the call's if there was one. */
  lemma {:induction false} DnsRepliesExact(hosts: seq<string>, calls: nat -> Outcome<DnsFields>, es: seq<Event>,
                                           response: seq<DnsReply>, k: nat)
    requires Responds(HostPlans(hosts, DnsAnswer, calls), es, response) && k < |hosts|
    ensures |response| == |hosts|
    ensures calls(k).Decoded? || response[k].error == ErrorOf(calls(k))
    ensures var r := response[k];
            match calls(k)
            case NotMarshalled(_) => r.header == "" && r.responses == [] && r.resolvers == []
            case NotCalled(_) => r.header == "" && r.responses == [] && r.resolvers == []
            case NotDecoded(_, f) =>
              Shows(r.header, f.header, "") && Shows(r.responses, f.responses, []) && Shows(r.resolvers, f.resolvers, [])
            case Decoded(f) =>
              && Shows(r.error, f.error, "") && Shows(r.header, f.header, "")
              && Shows(r.responses, f.responses, []) && Shows(r.resolvers, f.resolvers, [])
  {
    HostsRespondInOrder(hosts, DnsAnswer, calls, es);
    assert response == seq(|hosts|, j requires 0 <= j < |hosts| => DnsAnswer(hosts[j], calls(j)));
    assert response[k] == DnsAnswer(hosts[k], calls(k));
  }

  // ----- Relative JSON -----------------------------------------------------------------------------

  /** What the worker sends, in order: a failed decode is reported and then falls through. */
  function JsonSends(host: string, outcome: Outcome<string>): seq<HostReply> {
    match outcome
    case NotMarshalled(error) => [HostReply(host, error, "")]
    case NotCalled(error) => [HostReply(host, error, "")]
    case NotDecoded(error, partial) => [HostReply(host, error, ""), HostReply(host, error, partial)]
    case Decoded(value) => [HostReply(host, "", value)]
  }

  method RelativeJsonWorker(host: string, outcome: Outcome<string>) returns (sends: seq<HostReply>)
    ensures sends == JsonSends(host, outcome)
  {
    var result := HostReply(host, "", "");
    sends := [];
    if outcome.NotMarshalled? || outcome.NotCalled? {
      result := result.(error := outcome.error);
      sends := sends + [result];
      return;
    }
    if outcome.NotDecoded? {
      result := result.(error := outcome.error);
      sends := sends + [result];
    }
    result := result.(result := if outcome.Decoded? then outcome.value else outcome.partial);
    sends := sends + [result];
  }

  function JsonPlans(hosts: seq<string>, calls: nat -> Outcome<string>): seq<seq<HostReply>> {
    seq(|hosts|, k requires 0 <= k < |hosts| => JsonSends(hosts[k], calls(k)))
  }

  /** Some adapter's body cannot be decoded. */
  predicate SomeUndecodable(hosts: seq<string>, calls: nat -> Outcome<string>) {
    exists k :: 0 <= k < |hosts| && calls(k).NotDecoded?
  }

  /** Every schedule of the pass-through handler that runs to its end panics exactly when
      some body cannot be decoded, and otherwise responds in the order of the hosts. */
  lemma RelativeJsonPanicsIff(hosts: seq<string>, calls: nat -> Outcome<string>, es: seq<Event>)
    requires Runs(JsonPlans(hosts, calls), Init(), es)
    requires Terminal(JsonPlans(hosts, calls), Exec(JsonPlans(hosts, calls), Init(), es))
    ensures Panics(JsonPlans(hosts, calls), es) <==> SomeUndecodable(hosts, calls)
    ensures !SomeUndecodable(hosts, calls) ==>
              Responds(JsonPlans(hosts, calls), es,
                       seq(|hosts|, k requires 0 <= k < |hosts| => JsonSends(hosts[k], calls(k))[0]))
  {
    var plans := JsonPlans(hosts, calls);
    assert forall k :: 0 <= k < |plans| ==> plans[k] == JsonSends(hosts[k], calls(k));
    EverySchedule(plans, es);
    assert Firsts(plans) == seq(|hosts|, k requires 0 <= k < |hosts| => JsonSends(hosts[k], calls(k))[0]);
    if SomeUndecodable(hosts, calls) {
      var k :| 0 <= k < |hosts| && calls(k).NotDecoded?;
      assert |plans[k]| == 2;
    } else {
      forall k | 0 <= k < |plans|
        ensures |plans[k]| == 1
      {
        assert !calls(k).NotDecoded?;
      }
    }
  }

  /** In every run, whatever has been collected: reply k is about host k, has its call's error, and the
      value exactly when the body could be decoded. */
  lemma {:induction false} JsonRepliesExact(hosts: seq<string>, calls: nat -> Outcome<string>, es: seq<Event>, k: nat)
    requires Runs(JsonPlans(hosts, calls), Init(), es)
    requires k < |Exec(JsonPlans(hosts, calls), Init(), es).results|
    ensures var collected := Exec(JsonPlans(hosts, calls), Init(), es).results;
            && |collected| <= |hosts|
            && collected[k] == HostReply(hosts[k], ErrorOf(calls(k)), if calls(k).Decoded? then calls(k).value else "")
  {
    var plans := JsonPlans(hosts, calls);
    assert forall j :: 0 <= j < |plans| ==> plans[j] == JsonSends(hosts[j], calls(j));
    EverySchedule(plans, es);
    assert Firsts(plans)[k] == plans[k][0];
  }

  // ----- Profiles -------------------------------------------------------------------------------------

  datatype ProfileReply = ProfileReply(error: string, host: string, kind: string, pprof: string)

  function ProfileAnswer(kind: string): (string, Outcome<string>) -> ProfileReply {
    (host: string, outcome: Outcome<string>) =>
      match outcome
      case NotMarshalled(error) => ProfileReply(error, host, kind, "")
      case NotCalled(error) => ProfileReply(error, host, kind, "")
      case NotDecoded(error, _) => ProfileReply(error, host, kind, "")
      case Decoded(body) => ProfileReply("", host, kind, body)
  }

  method PprofWorker(kind: string, host: string, outcome: Outcome<string>) returns (sends: seq<ProfileReply>)
    ensures sends == [ProfileAnswer(kind)(host, outcome)]
  {
    var result := ProfileReply("", host, kind, "");
    if !outcome.Decoded? {
      result := result.(error := outcome.error);
      return [result];
    }
    result := result.(pprof := outcome.value);
    sends := [result];
  }

  /** How writing a profile turns out: a file that was created but not fully written holds `left`. */
  datatype WriteResult = Written | NotCreated(error: string) | Torn(error: string, left: string)

  function Stored(files: map<string, string>, reply: ProfileReply, write: WriteResult): map<string, string> {
    if reply.error != "" then files
    else
      match write
      case Written => files[reply.host := reply.pprof]
      case NotCreated(_) => files
      case Torn(_, left) => files[reply.host := left]
  }

  /** The files, named after their hosts, after the replies have been collected. */
  function Files(received: seq<ProfileReply>, writes: nat -> WriteResult): map<string, string> {
    if received == [] then map[]
    else
      var n := |received| - 1;
      Stored(Files(received[..n], writes), received[n], writes(n))
  }

  function Summary(reply: ProfileReply): ProfileReply {
    ProfileReply(reply.error, reply.host, "", "")
  }

  /** The collecting loop.  The error of a failed write is put into a reply that is then dropped. */
  method CollectProfiles(received: seq<ProfileReply>, writes: nat -> WriteResult)
    returns (response: seq<ProfileReply>, files: map<string, string>)
    ensures |response| == |received| && forall k :: 0 <= k < |received| ==> response[k] == Summary(received[k])
    ensures files == Files(received, writes)
  {
    response, files := [], map[];
    for n := 0 to |received|
      invariant |response| == n && forall k :: 0 <= k < n ==> response[k] == Summary(received[k])
      invariant files == Files(received[..n], writes)
    {
      var res := received[n];
      var tmp := ProfileReply(res.error, res.host, "", "");
      if res.error == "" {
        match writes(n) {
          case Written => files := files[res.host := res.pprof];
          case NotCreated(error) => res := res.(error := error);
          case Torn(error, left) =>
            files := files[res.host := left];
            res := res.(error := error);
        }
      }
      response := response + [tmp];
      assert received[..n + 1][..n] == received[..n];
    }
    assert received[..|received|] == received;
  }

  /** Reply `k` touches the file of `host`. */
  predicate Touches(received: seq<ProfileReply>, writes: nat -> WriteResult, host: string, k: nat) {
    k < |received| && received[k].host == host && received[k].error == "" && !writes(k).NotCreated?
  }

  ghost predicate LastTouch(received: seq<ProfileReply>, writes: nat -> WriteResult, host: string, k: nat) {
    && Touches(received, writes, host, k)
    && forall j :: k < j < |received| ==> !Touches(received, writes, host, j)
  }

  function Content(reply: ProfileReply, write: WriteResult): string {
    if write.Torn? then write.left else reply.pprof
  }

  lemma {:induction false} LastTouchDecides(received: seq<ProfileReply>, writes: nat -> WriteResult, host: string, k: nat)
    requires LastTouch(received, writes, host, k)
    ensures host in Files(received, writes) && Files(received, writes)[host] == Content(received[k], writes(k))
  {
    var n := |received| - 1;
    if k < n {
      assert !Touches(received, writes, host, n);
      forall j | k < j < n
        ensures !Touches(received[..n], writes, host, j)
      {
        assert !Touches(received, writes, host, j);
      }
      assert LastTouch(received[..n], writes, host, k);
      LastTouchDecides(received[..n], writes, host, k);
    }
  }

  lemma {:induction false} UntouchedHasNoFile(received: seq<ProfileReply>, writes: nat -> WriteResult, host: string)
    requires forall k: nat :: !Touches(received, writes, host, k)
    ensures host !in Files(received, writes)
  {
    if received != [] {
      var n := |received| - 1;
      assert !Touches(received, writes, host, n);
      forall k: nat
        ensures !Touches(received[..n], writes, host, k)
      {
        assert !Touches(received, writes, host, k);
      }
      UntouchedHasNoFile(received[..n], writes, host);
    }
  }

  /** Asking for a profile from `hosts[k]` succeeded and so wrote, fully or not, the file of `host`. */
  predicate Profiled(hosts: seq<string>, calls: nat -> Outcome<string>, writes: nat -> WriteResult, host: string, k: nat) {
    k < |hosts| && hosts[k] == host && ErrorOf(calls(k)) == "" && !writes(k).NotCreated?
  }

  ghost predicate LastProfiled(hosts: seq<string>, calls: nat -> Outcome<string>, writes: nat -> WriteResult,
                               host: string, k: nat)
  {
    && Profiled(hosts, calls, writes, host, k)
    && forall j :: k < j < |hosts| ==> !Profiled(hosts, calls, writes, host, j)
  }

  lemma {:induction false} ProfileReplies(hosts: seq<string>, kind: string, calls: nat -> Outcome<string>,
                                          es: seq<Event>, received: seq<ProfileReply>)
    requires Responds(HostPlans(hosts, ProfileAnswer(kind), calls), es, received)
    ensures |received| == |hosts|
    ensures forall k :: 0 <= k < |hosts| ==> received[k] == ProfileAnswer(kind)(hosts[k], calls(k))
  {
    HostsRespondInOrder(hosts, ProfileAnswer(kind), calls, es);
    assert received == seq(|hosts|, k requires 0 <= k < |hosts| => ProfileAnswer(kind)(hosts[k], calls(k)));
  }

  /** For every schedule, profile reply k is about host k and the profile asked for, says how its call
      turned out, and has the profile exactly when the call succeeded. */
  lemma {:induction false} ProfilesRespondInOrder(hosts: seq<string>, kind: string, calls: nat -> Outcome<string>,
                                                  es: seq<Event>, received: seq<ProfileReply>, k: nat)
    requires Responds(HostPlans(hosts, ProfileAnswer(kind), calls), es, received) && k < |hosts|
    ensures |received| == |hosts|
    ensures received[k] == ProfileReply(ErrorOf(calls(k)), hosts[k], kind, if calls(k).Decoded? then calls(k).value else "")
    ensures Summary(received[k]) == ProfileReply(ErrorOf(calls(k)), hosts[k], "", "")
  {
    ProfileReplies(hosts, kind, calls, es, received);
  }

  /** For every schedule, a host has a file exactly when some request for it succeeded and wrote
      one, and the file is what the last such request wrote. */
  lemma {:induction false} ProfileFilesExact(hosts: seq<string>, kind: string, calls: nat -> Outcome<string>,
                                             writes: nat -> WriteResult, es: seq<Event>, received: seq<ProfileReply>,
                                             host: string)
    requires Responds(HostPlans(hosts, ProfileAnswer(kind), calls), es, received)
    ensures host in Files(received, writes) <==> exists k: nat :: Profiled(hosts, calls, writes, host, k)
    ensures forall k: nat :: LastProfiled(hosts, calls, writes, host, k) ==>
              && host in Files(received, writes)
              && Files(received, writes)[host] ==
                 if writes(k).Torn? then writes(k).left else if calls(k).Decoded? then calls(k).value else ""
  {
    ProfileReplies(hosts, kind, calls, es, received);
    assert forall k: nat :: Touches(received, writes, host, k) <==> Profiled(hosts, calls, writes, host, k);
    if k: nat :| Touches(received, writes, host, k) {
      FindLastTouch(received, writes, host, k);
      var last: nat :| LastTouch(received, writes, host, last);
      LastTouchDecides(received, writes, host, last);
    } else {
      UntouchedHasNoFile(received, writes, host);
    }
    forall k: nat | LastTouch(received, writes, host, k)
      ensures host in Files(received, writes) && Files(received, writes)[host] == Content(received[k], writes(k))
    {
      LastTouchDecides(received, writes, host, k);
    }
    forall k: nat | LastProfiled(hosts, calls, writes, host, k)
      ensures LastTouch(received, writes, host, k)
    {
      assert Touches(received, writes, host, k);
    }
  }

  lemma {:induction false} FindLastTouch(received: seq<ProfileReply>, writes: nat -> WriteResult, host: string, k: nat)
    requires Touches(received, writes, host, k)
    ensures exists last: nat :: LastTouch(received, writes, host, last)
    decreases |received| - k
  {
    if j: nat :| k < j && Touches(received, writes, host, j) {
      FindLastTouch(received, writes, host, j);
    } else {
      assert LastTouch(received, writes, host, k);
    }
  }
}
