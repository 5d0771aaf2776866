/**
 The web UI's two-way index between hosts and adapters: two concurrent maps that every
 operation writes one after the other.
 */
module PeerIndex {
  import opened Options

  datatype Index = Index(adapters: map<string, string>, hosts: map<string, string>)

  datatype Op = Set(host: string, adapter: string) | Delete(adapter: string)

  function Get(m: map<string, string>, k: string): Option<string> {
    if k in m then Some(m[k]) else None
  }

  /** The index after `op` has run alone. */
  function Apply(x: Index, op: Op): Index {
    match op
    case Set(host, adapter) => Index(x.adapters[adapter := host], x.hosts[host := adapter])
    case Delete(adapter) =>
      match Get(x.adapters, adapter)
      case None => x
      case Some(host) => Index(x.adapters - {adapter}, x.hosts - {host})
  }

  function ApplyAll(x: Index, ops: seq<Op>): Index {
    if ops == [] then x else Apply(ApplyAll(x, ops[..|ops| - 1]), ops[|ops| - 1])
  }

  // ----- The source's object ----------------------------------------------------------

  class Client {
    var adapters: map<string, string>
    var hosts: map<string, string>

    ghost function View(): Index
      reads this
    {
      Index(adapters, hosts)
    }

    constructor ()
      ensures View() == Index(map[], map[])
    {
      adapters, hosts := map[], map[];
    }

    method SetKnownHost(host: string, adapter: string)
      modifies this
      ensures View() == Apply(old(View()), Set(host, adapter))
    {
      adapters := adapters[adapter := host];
      hosts := hosts[host := adapter];
    }

    method DeleteAdapter(adapter: string) returns (ok: bool)
      modifies this
      ensures View() == Apply(old(View()), Delete(adapter))
      ensures ok == (adapter in old(adapters))
    {
      var host;
      host, ok := GetHost(adapter);
      if !ok {
        return;
      }
      adapters := adapters - {adapter};
      hosts := hosts - {host};
    }

    method GetAdapter(host: string) returns (adapter: string, ok: bool)
      ensures ok == (host in hosts)
      ensures adapter == if ok then hosts[host] else ""
    {
      if host !in hosts {
        return "", false;
      }
      return hosts[host], true;
    }

    method GetHost(adapter: string) returns (host: string, ok: bool)
      ensures ok == (adapter in adapters)
      ensures host == if ok then adapters[adapter] else ""
    {
      if adapter !in adapters {
        return "", false;
      }
      return adapters[adapter], true;
    }

    /** Runs operations one after the other. */
    method Perform(ops: seq<Op>)
      modifies this
      ensures View() == ApplyAll(old(View()), ops)
    {
      for n := 0 to |ops|
        invariant View() == ApplyAll(old(View()), ops[..n])
      {
        match ops[n] {
          case Set(host, adapter) => SetKnownHost(host, adapter);
          case Delete(adapter) => var ok := DeleteAdapter(adapter);
        }
        assert ops[..n + 1][..n] == ops[..n];
      }
      assert ops[..|ops|] == ops;
    }
  }

  // ----- Exact inverses -------------------------------------------------------------------

  ghost predicate Inverse(x: Index) {
    && (forall h :: h in x.hosts ==> Get(x.adapters, x.hosts[h]) == Some(h))
    && (forall a :: a in x.adapters ==> Get(x.hosts, x.adapters[a]) == Some(a))
  }

  /** Neither side of the pair is already paired with something else. */
  predicate Fits(x: Index, op: Op) {
    op.Set? ==>
      && (op.host in x.hosts ==> x.hosts[op.host] == op.adapter)
      && (op.adapter in x.adapters ==> x.adapters[op.adapter] == op.host)
  }

  lemma {:induction false} RepairedHostBreaksInverse(x: Index, host: string, adapter: string)
    requires Inverse(x) && host in x.hosts && x.hosts[host] != adapter
    ensures !Inverse(Apply(x, Set(host, adapter)))
  {
    var y, stale := Apply(x, Set(host, adapter)), x.hosts[host];
    assert Get(x.adapters, stale) == Some(host);
    assert stale in y.adapters && Get(y.hosts, y.adapters[stale]) == Some(adapter);
  }

  lemma {:induction false} RepairedAdapterBreaksInverse(x: Index, host: string, adapter: string)
    requires Inverse(x) && adapter in x.adapters && x.adapters[adapter] != host
    ensures !Inverse(Apply(x, Set(host, adapter)))
  {
    var y, stale := Apply(x, Set(host, adapter)), x.adapters[adapter];
    assert Get(x.hosts, stale) == Some(adapter);
    assert stale in y.hosts && Get(y.adapters, y.hosts[stale]) == Some(host);
  }

  /** The maps stay exact inverses exactly when the stored pair does not re-pair a known host
      or adapter; a deletion always keeps them so. */
  lemma {:induction false} KeepsInverseIff(x: Index, op: Op)
    requires Inverse(x)
    ensures Inverse(Apply(x, op)) <==> Fits(x, op)
  {
    match op
    case Delete(_) =>
    case Set(host, adapter) =>
      if Fits(x, op) {
      } else if host in x.hosts && x.hosts[host] != adapter {
        RepairedHostBreaksInverse(x, host, adapter);
      } else {
        RepairedAdapterBreaksInverse(x, host, adapter);
      }
  }

  /** Stored pairs never share a host or an adapter unless they are the same pair. */
  ghost predicate OneToOne(ops: seq<Op>) {
    forall i, j :: 0 <= i < |ops| && 0 <= j < |ops| && ops[i].Set? && ops[j].Set? ==>
      (ops[i].host == ops[j].host <==> ops[i].adapter == ops[j].adapter)
  }

  ghost predicate FromOps(x: Index, ops: seq<Op>) {
    && (forall h :: h in x.hosts ==> Set(h, x.hosts[h]) in ops)
    && (forall a :: a in x.adapters ==> Set(x.adapters[a], a) in ops)
  }

  /** Over any sequence of operations on a one-to-one pairing the maps are exact inverses. */
  lemma {:induction false} OneToOneStaysInverse(ops: seq<Op>)
    requires OneToOne(ops)
    ensures Inverse(ApplyAll(Index(map[], map[]), ops)) && FromOps(ApplyAll(Index(map[], map[]), ops), ops)
  {
    if ops != [] {
      var init, op := ops[..|ops| - 1], ops[|ops| - 1];
      OneToOneStaysInverse(init);
      var x := ApplyAll(Index(map[], map[]), init);
      forall h | h in x.hosts
        ensures Set(h, x.hosts[h]) in ops
      {
        var i :| 0 <= i < |init| && init[i] == Set(h, x.hosts[h]);
        assert ops[i] == init[i];
      }
      forall a | a in x.adapters
        ensures Set(x.adapters[a], a) in ops
      {
        var i :| 0 <= i < |init| && init[i] == Set(x.adapters[a], a);
        assert ops[i] == init[i];
      }
      assert Fits(x, op);
      KeepsInverseIff(x, op);
    }
  }

  /** A host comes back under a new adapter while a call to its old adapter fails.  Deleting
      the old adapter last forgets the host although the new adapter is registered for it;
      deleting it first does not.  So such a pair of operations has no common outcome. */
  lemma {:induction false} StaleDeleteForgetsHost(x: Index, host: string, stale: string, adapter: string)
    requires Inverse(x) && Get(x.hosts, host) == Some(stale) && adapter != stale
    ensures var y := Apply(Apply(x, Set(host, adapter)), Delete(stale));
            Get(y.adapters, adapter) == Some(host) && Get(y.hosts, host) == None && !Inverse(y)
    ensures Get(Apply(Apply(x, Delete(stale)), Set(host, adapter)).hosts, host) == Some(adapter)
  {
    var y := Apply(Apply(x, Set(host, adapter)), Delete(stale));
    assert Get(x.adapters, stale) == Some(host);
    assert adapter in y.adapters && y.adapters[adapter] == host;
  }

  /** Two stores of the same pair or of pairs that share nothing; two deletions; a store and the
      deletion of an adapter that is neither the stored one nor the one known for the stored host. */
  predicate Commutes(x: Index, p: Op, q: Op) {
    match (p, q)
    case (Set(h, a), Set(g, b)) => a == b <==> h == g
    case (Delete(_), Delete(_)) => true
    case (Set(h, a), Delete(b)) => a != b && Get(x.adapters, b) != Some(h)
    case (Delete(b), Set(h, a)) => a != b && Get(x.adapters, b) != Some(h)
  }

  lemma {:induction false} UpdatesCommuteIff(m: map<string, string>, k: string, v: string, j: string, w: string)
    ensures m[k := v][j := w] == m[j := w][k := v] <==> (k == j ==> v == w)
  {
    if k == j && v != w {
      assert m[k := v][j := w][k] == w;
    }
  }

  lemma {:induction false} StoresCommuteIff(x: Index, h: string, a: string, g: string, b: string)
    ensures Apply(Apply(x, Set(h, a)), Set(g, b)) == Apply(Apply(x, Set(g, b)), Set(h, a)) <==>
              (a == b <==> h == g)
  {
    UpdatesCommuteIff(x.adapters, a, h, b, g);
    UpdatesCommuteIff(x.hosts, h, a, g, b);
  }

  lemma {:induction false} StoreAndDeletionCommuteIff(x: Index, h: string, a: string, b: string)
    ensures Apply(Apply(x, Set(h, a)), Delete(b)) == Apply(Apply(x, Delete(b)), Set(h, a)) <==>
              a != b && Get(x.adapters, b) != Some(h)
  {
    var y, z := Apply(Apply(x, Set(h, a)), Delete(b)), Apply(Apply(x, Delete(b)), Set(h, a));
    if a == b {
      assert a !in y.adapters && a in z.adapters;
    } else if Get(x.adapters, b) == Some(h) {
      assert h !in y.hosts && h in z.hosts;
    } else {
      assert y.adapters == z.adapters && y.hosts == z.hosts;
    }
  }

  /** Exactly when the order of two operations does not matter. */
  lemma {:induction false} CommuteIff(x: Index, p: Op, q: Op)
    ensures Apply(Apply(x, p), q) == Apply(Apply(x, q), p) <==> Commutes(x, p, q)
  {
    match (p, q)
    case (Set(h, a), Set(g, b)) => StoresCommuteIff(x, h, a, g, b);
    case (Delete(_), Delete(_)) =>
      var y, z := Apply(Apply(x, p), q), Apply(Apply(x, q), p);
      assert y.adapters == z.adapters && y.hosts == z.hosts;
    case (Set(h, a), Delete(b)) => StoreAndDeletionCommuteIff(x, h, a, b);
    case (Delete(b), Set(h, a)) => StoreAndDeletionCommuteIff(x, h, a, b);
  }

  // ----- Interleaved operations -------------------------------------------------------------

  /** How far a goroutine is with its operation; `Found` holds the host it looked up. */
  datatype Pc = Ready | Found(host: string) | Half(host: string) | Done

  datatype State = State(x: Index, pcs: seq<Pc>)

  function Start(x: Index, ops: seq<Op>): State {
    State(x, seq(|ops|, _ => Ready))
  }

  predicate CanStep(ops: seq<Op>, s: State, i: nat) {
    |s.pcs| == |ops| && i < |ops| && !s.pcs[i].Done?
  }

  /** The next atomic access of goroutine `i` to one of the maps. */
  function Step(ops: seq<Op>, s: State, i: nat): State
    requires CanStep(ops, s, i)
  {
    var x := s.x;
    match ops[i]
    case Set(host, adapter) =>
      (match s.pcs[i]
       case Half(_) => State(Index(x.adapters, x.hosts[host := adapter]), s.pcs[i := Done])
       case _ => State(Index(x.adapters[adapter := host], x.hosts), s.pcs[i := Half(host)]))
    case Delete(adapter) =>
      (match s.pcs[i]
       case Ready =>
         State(x, s.pcs[i := match Get(x.adapters, adapter) case Some(h) => Found(h) case None => Done])
       case Found(h) => State(Index(x.adapters - {adapter}, x.hosts), s.pcs[i := Half(h)])
       case Half(h) => State(Index(x.adapters, x.hosts - {h}), s.pcs[i := Done])
       case Done => s)
  }

  predicate Runs(ops: seq<Op>, s: State, schedule: seq<nat>)
    decreases |schedule|
  {
    |schedule| == 0 || (CanStep(ops, s, schedule[0]) && Runs(ops, Step(ops, s, schedule[0]), schedule[1..]))
  }

  function Exec(ops: seq<Op>, s: State, schedule: seq<nat>): State
    requires Runs(ops, s, schedule)
    decreases |schedule|
  {
    if |schedule| == 0 then s else Exec(ops, Step(ops, s, schedule[0]), schedule[1..])
  }

  predicate Quiescent(s: State) {
    forall i :: 0 <= i < |s.pcs| ==> s.pcs[i].Done?
  }

  /** The host whose entry the operation writes, judged before anything runs. */
  function HostOf(x: Index, op: Op): Option<string> {
    match op
    case Set(host, _) => Some(host)
    case Delete(adapter) => Get(x.adapters, adapter)
  }

  /** The operations are on different pairs. */
  ghost predicate Apart(x: Index, ops: seq<Op>) {
    forall i, j :: 0 <= i < j < |ops| ==>
      && ops[i].adapter != ops[j].adapter
      && (HostOf(x, ops[i]).Some? ==> HostOf(x, ops[i]) != HostOf(x, ops[j]))
  }

  function FinalHost(op: Op): Option<string> {
    if op.Set? then Some(op.host) else None
  }

  function FinalAdapter(op: Op): Option<string> {
    if op.Set? then Some(op.adapter) else None
  }

  predicate AdapterWritten(pc: Pc) {
    pc.Half? || pc.Done?
  }

  /** What goroutine `i` has and has not written so far. */
  ghost predicate Progress(x0: Index, op: Op, pc: Pc, x: Index) {
    && Get(x.adapters, op.adapter) ==
         (if AdapterWritten(pc) then FinalHost(op) else Get(x0.adapters, op.adapter))
    && (pc.Found? ==> op.Delete? && Some(pc.host) == HostOf(x0, op))
    && (pc.Half? ==> Some(pc.host) == HostOf(x0, op))
    && (HostOf(x0, op).Some? ==>
          Get(x.hosts, HostOf(x0, op).value) ==
            if pc.Done? then FinalAdapter(op) else Get(x0.hosts, HostOf(x0, op).value))
  }

  ghost predicate Untouched(x0: Index, ops: seq<Op>, x: Index) {
    && (forall a :: (forall i :: 0 <= i < |ops| ==> ops[i].adapter != a) ==>
          Get(x.adapters, a) == Get(x0.adapters, a))
    && (forall h :: (forall i :: 0 <= i < |ops| ==> HostOf(x0, ops[i]) != Some(h)) ==>
          Get(x.hosts, h) == Get(x0.hosts, h))
  }

  ghost predicate Inv(x0: Index, ops: seq<Op>, s: State) {
    && |s.pcs| == |ops|
    && (forall i :: 0 <= i < |ops| ==> Progress(x0, ops[i], s.pcs[i], s.x))
    && Untouched(x0, ops, s.x)
  }

  /** A step writes at most the adapter and the host of its own operation. */
  lemma {:induction false} StepWrites(x0: Index, ops: seq<Op>, s: State, i: nat)
    requires Inv(x0, ops, s) && CanStep(ops, s, i)
    ensures var s' := Step(ops, s, i);
            && |s'.pcs| == |ops|
            && Progress(x0, ops[i], s'.pcs[i], s'.x)
            && (forall a :: a != ops[i].adapter ==> Get(s'.x.adapters, a) == Get(s.x.adapters, a))
            && (forall h :: Some(h) != HostOf(x0, ops[i]) ==> Get(s'.x.hosts, h) == Get(s.x.hosts, h))
            && (forall j :: 0 <= j < |ops| && j != i ==> s'.pcs[j] == s.pcs[j])
  {
    assert Progress(x0, ops[i], s.pcs[i], s.x);
  }

  lemma {:induction false} InvStep(x0: Index, ops: seq<Op>, s: State, i: nat)
    requires Apart(x0, ops) && Inv(x0, ops, s) && CanStep(ops, s, i)
    ensures Inv(x0, ops, Step(ops, s, i))
  {
    var s' := Step(ops, s, i);
    StepWrites(x0, ops, s, i);
    forall j | 0 <= j < |ops|
      ensures Progress(x0, ops[j], s'.pcs[j], s'.x)
    {
      if j != i {
        assert Progress(x0, ops[j], s.pcs[j], s.x);
        assert ops[j].adapter != ops[i].adapter;
        assert HostOf(x0, ops[j]).Some? ==> HostOf(x0, ops[j]) != HostOf(x0, ops[i]);
      }
    }
  }

  lemma {:induction false} InvRun(x0: Index, ops: seq<Op>, s: State, schedule: seq<nat>)
    requires Apart(x0, ops) && Inv(x0, ops, s) && Runs(ops, s, schedule)
    ensures Inv(x0, ops, Exec(ops, s, schedule))
    decreases |schedule|
  {
    if |schedule| > 0 {
      InvStep(x0, ops, s, schedule[0]);
      InvRun(x0, ops, Step(ops, s, schedule[0]), schedule[1..]);
    }
  }

  /** `x` is what `ops` on different pairs leave behind, whatever their order. */
  ghost predicate Outcome(x0: Index, ops: seq<Op>, x: Index) {
    && (forall i :: 0 <= i < |ops| ==> Progress(x0, ops[i], Done, x))
    && Untouched(x0, ops, x)
  }

  lemma {:induction false} OutcomeUnique(x0: Index, ops: seq<Op>, x: Index, y: Index)
    requires Outcome(x0, ops, x) && Outcome(x0, ops, y)
    ensures x == y
  {
    forall a
      ensures Get(x.adapters, a) == Get(y.adapters, a)
    {
      if i :| 0 <= i < |ops| && ops[i].adapter == a {
        assert Progress(x0, ops[i], Done, x) && Progress(x0, ops[i], Done, y);
      }
    }
    forall h
      ensures Get(x.hosts, h) == Get(y.hosts, h)
    {
      if i :| 0 <= i < |ops| && HostOf(x0, ops[i]) == Some(h) {
        assert Progress(x0, ops[i], Done, x) && Progress(x0, ops[i], Done, y);
      }
    }
    SameMap(x.adapters, y.adapters);
    SameMap(x.hosts, y.hosts);
  }

  lemma {:induction false} SameMap(m: map<string, string>, n: map<string, string>)
    requires forall k :: Get(m, k) == Get(n, k)
    ensures m == n
  {
    assert forall k :: k in m <==> Get(m, k).Some?;
    assert forall k :: k in n <==> Get(n, k).Some?;
    assert forall k :: k in m ==> Get(m, k) == Some(m[k]) && Get(n, k) == Some(n[k]);
  }

  lemma {:induction false} ApartInit(x0: Index, init: seq<Op>, op: Op)
    requires Apart(x0, init + [op])
    ensures Apart(x0, init)
  {
    assert forall i :: 0 <= i < |init| ==> init[i] == (init + [op])[i];
  }

  lemma {:induction false} SequentialOutcome(x0: Index, ops: seq<Op>)
    requires Apart(x0, ops)
    ensures Outcome(x0, ops, ApplyAll(x0, ops))
  {
    if ops != [] {
      var init, op := ops[..|ops| - 1], ops[|ops| - 1];
      assert init + [op] == ops;
      ApartInit(x0, init, op);
      SequentialOutcome(x0, init);
      SequentialStep(x0, init, op, ApplyAll(x0, init));
    }
  }

  lemma {:induction false} SequentialStep(x0: Index, init: seq<Op>, op: Op, x: Index)
    requires Apart(x0, init + [op]) && Outcome(x0, init, x)
    ensures Outcome(x0, init + [op], Apply(x, op))
  {
    var ops, y := init + [op], Apply(x, op);
    assert forall i :: 0 <= i < |init| ==> ops[i] == init[i];
    forall i | 0 <= i < |init|
      ensures init[i].adapter != op.adapter
      ensures HostOf(x0, init[i]).Some? ==> HostOf(x0, init[i]) != HostOf(x0, op)
    {
      assert ops[i].adapter != ops[|init|].adapter;
      assert HostOf(x0, ops[i]).Some? ==> HostOf(x0, ops[i]) != HostOf(x0, ops[|init|]);
    }
    assert Get(x.adapters, op.adapter) == Get(x0.adapters, op.adapter);
    assert HostOf(x, op) == HostOf(x0, op);
    forall i | 0 <= i < |ops|
      ensures Progress(x0, ops[i], Done, y)
    {
      if i < |init| {
        assert Progress(x0, init[i], Done, x);
      }
    }
    forall a | forall i :: 0 <= i < |ops| ==> ops[i].adapter != a
      ensures Get(y.adapters, a) == Get(x0.adapters, a)
    {
      assert ops[|init|] == op;
      assert forall i :: 0 <= i < |init| ==> init[i].adapter != a;
    }
    forall h | forall i :: 0 <= i < |ops| ==> HostOf(x0, ops[i]) != Some(h)
      ensures Get(y.hosts, h) == Get(x0.hosts, h)
    {
      assert ops[|init|] == op;
      assert forall i :: 0 <= i < |init| ==> HostOf(x0, init[i]) != Some(h);
    }
  }

  /** Operations on different pairs are different operations. */
  lemma {:induction false} ApartNoRepeats(x0: Index, ops: seq<Op>, order: seq<Op>, i: nat, j: nat)
    requires Apart(x0, ops) && multiset(order) == multiset(ops) && i < j < |order|
    ensures order[i] != order[j]
  {
    if order[i] == order[j] {
      TwiceInMultiset(order, i, j);
      TwiceInSequence(ops, order[i]);
    }
  }

  lemma {:induction false} TwiceInMultiset(ops: seq<Op>, i: nat, j: nat)
    requires i < j < |ops| && ops[i] == ops[j]
    ensures multiset(ops)[ops[i]] >= 2
  {
    assert ops == ops[..j] + [ops[j]] + ops[j + 1..];
    assert ops[..j][i] == ops[i];
    assert multiset(ops[..j])[ops[i]] >= 1;
  }

  lemma {:induction false} TwiceInSequence(ops: seq<Op>, op: Op)
    requires multiset(ops)[op] >= 2
    ensures exists i, j :: 0 <= i < j < |ops| && ops[i] == op && ops[j] == op
  {
    var j :| 0 <= j < |ops| && ops[j] == op;
    assert ops == ops[..j] + [op] + ops[j + 1..];
    assert multiset(ops) == multiset(ops[..j]) + multiset{op} + multiset(ops[j + 1..]);
    if op in ops[..j] {
      var i :| 0 <= i < j && ops[..j][i] == op;
      assert ops[i] == op;
    } else {
      assert op in ops[j + 1..];
      var k :| 0 <= k < |ops[j + 1..]| && ops[j + 1..][k] == op;
      assert ops[j + 1 + k] == op;
    }
  }

  lemma {:induction false} SameOps(ops: seq<Op>, order: seq<Op>, op: Op)
    requires multiset(order) == multiset(ops)
    ensures op in order <==> op in ops
  {
    assert op in order <==> op in multiset(order);
    assert op in ops <==> op in multiset(ops);
  }

  lemma {:induction false} ApartInAnyOrder(x0: Index, ops: seq<Op>, order: seq<Op>)
    requires Apart(x0, ops) && multiset(order) == multiset(ops)
    ensures Apart(x0, order)
  {
    forall i, j | 0 <= i < j < |order|
      ensures order[i].adapter != order[j].adapter
      ensures HostOf(x0, order[i]).Some? ==> HostOf(x0, order[i]) != HostOf(x0, order[j])
    {
      ApartNoRepeats(x0, ops, order, i, j);
      SameOps(ops, order, order[i]);
      SameOps(ops, order, order[j]);
      var m :| 0 <= m < |ops| && ops[m] == order[i];
      var n :| 0 <= n < |ops| && ops[n] == order[j];
      assert if m < n then ops[m].adapter != ops[n].adapter else ops[n].adapter != ops[m].adapter;
    }
  }

  lemma {:induction false} OutcomeInAnyOrder(x0: Index, ops: seq<Op>, order: seq<Op>, x: Index)
    requires multiset(order) == multiset(ops) && Outcome(x0, order, x)
    ensures Outcome(x0, ops, x)
  {
    forall i | 0 <= i < |ops|
      ensures Progress(x0, ops[i], Done, x)
    {
      SameOps(ops, order, ops[i]);
      var k :| 0 <= k < |order| && order[k] == ops[i];
      assert Progress(x0, order[k], Done, x);
    }
    forall k | 0 <= k < |order|
      ensures order[k] in ops
    {
      SameOps(ops, order, order[k]);
    }
    forall a | forall i :: 0 <= i < |ops| ==> ops[i].adapter != a
      ensures Get(x.adapters, a) == Get(x0.adapters, a)
    {
      assert forall k :: 0 <= k < |order| ==> order[k].adapter != a;
    }
    forall h | forall i :: 0 <= i < |ops| ==> HostOf(x0, ops[i]) != Some(h)
      ensures Get(x.hosts, h) == Get(x0.hosts, h)
    {
      assert forall k :: 0 <= k < |order| ==> HostOf(x0, order[k]) != Some(h);
    }
  }

  /** Operations on different pairs leave the same index in every sequential order. */
  lemma {:induction false} EveryOrderIsTheSame(x0: Index, ops: seq<Op>, order: seq<Op>)
    requires Apart(x0, ops) && multiset(order) == multiset(ops)
    ensures ApplyAll(x0, order) == ApplyAll(x0, ops)
  {
    ApartInAnyOrder(x0, ops, order);
    SequentialOutcome(x0, ops);
    SequentialOutcome(x0, order);
    OutcomeInAnyOrder(x0, ops, order, ApplyAll(x0, order));
    OutcomeUnique(x0, ops, ApplyAll(x0, order), ApplyAll(x0, ops));
  }

  /** Goroutines operating on different pairs may interleave their map accesses in any way:
      once all are done the index is that of every sequential order. */
  lemma {:induction false} InterleavingIsSequential(x0: Index, ops: seq<Op>, schedule: seq<nat>, order: seq<Op>)
    requires Apart(x0, ops) && Runs(ops, Start(x0, ops), schedule)
    requires Quiescent(Exec(ops, Start(x0, ops), schedule))
    requires multiset(order) == multiset(ops)
    ensures Exec(ops, Start(x0, ops), schedule).x == ApplyAll(x0, order)
  {
    var s := Exec(ops, Start(x0, ops), schedule);
    InvRun(x0, ops, Start(x0, ops), schedule);
    forall i | 0 <= i < |ops|
      ensures Progress(x0, ops[i], Done, s.x)
    {
      assert Progress(x0, ops[i], s.pcs[i], s.x) && s.pcs[i].Done?;
    }
    SequentialOutcome(x0, ops);
    OutcomeUnique(x0, ops, s.x, ApplyAll(x0, ops));
    EveryOrderIsTheSame(x0, ops, order);
  }
}
