/**
 The graph of hosts and peers: each worker turns one adapter's status into edges and nodes,
 and the collector merges them in device order.
 */
module PeerMap {
  import opened Options
  import opened FanOut
  import opened Handlers
  import PeerIndex

  /** A peer entry of a status: its host name and the rest of its data. */
  datatype Peer = Peer(hostname: string, data: string)

  /** A decoded status; `peers` is in the order in which the map is ranged over. */
  datatype Status = Status(hostname: string, peers: seq<Peer>)

  datatype Link = Link(id: string, source: string, target: string)

  datatype Vertex = Vertex(id: string, caption: string, data: string)

  datatype PeerResult = PeerResult(nodes: map<string, Vertex>, edges: seq<Link>, error: string)

  function LinkOf(source: string, target: string): Link {
    Link(source + "->" + target, source, target)
  }

  // ----- One worker --------------------------------------------------------------------

  function EdgesOf(status: Status): seq<Link> {
    seq(|status.peers|, k requires 0 <= k < |status.peers| => LinkOf(status.hostname, status.peers[k].hostname))
  }

  /** The first peer with a host name supplies its node. */
  function NodesOf(peers: seq<Peer>): map<string, Vertex> {
    if peers == [] then map[]
    else
      var init, p := NodesOf(peers[..|peers| - 1]), peers[|peers| - 1];
      if p.hostname in init then init else init[p.hostname := Vertex(p.hostname, p.hostname, p.data)]
  }

  function ResultOf(outcome: Outcome<Status>): PeerResult {
    match outcome
    case NotMarshalled(error) => PeerResult(map[], [], error)
    case NotCalled(error) => PeerResult(map[], [], error)
    case NotDecoded(error, _) => PeerResult(map[], [], error)
    case Decoded(status) => PeerResult(NodesOf(status.peers), EdgesOf(status), "")
  }

  method PeerMapWorker(outcome: Outcome<Status>) returns (sends: seq<PeerResult>)
    ensures sends == [ResultOf(outcome)]
  {
    var result := PeerResult(map[], [], "");
    if !outcome.Decoded? {
      result := result.(error := outcome.error);
      return [result];
    }
    var status := outcome.value;
    for k := 0 to |status.peers|
      invariant result == PeerResult(NodesOf(status.peers[..k]), EdgesOf(status)[..k], "")
    {
      var peer := status.peers[k];
      result := result.(edges := result.edges + [LinkOf(status.hostname, peer.hostname)]);
      if peer.hostname !in result.nodes {
        result := result.(nodes := result.nodes[peer.hostname := Vertex(peer.hostname, peer.hostname, peer.data)]);
      }
      assert status.peers[..k + 1][..k] == status.peers[..k];
      assert EdgesOf(status)[..k + 1] == EdgesOf(status)[..k] + [EdgesOf(status)[k]];
    }
    assert status.peers[..|status.peers|] == status.peers;
    assert EdgesOf(status)[..|status.peers|] == EdgesOf(status);
    sends := [result];
  }

  // ----- The merge --------------------------------------------------------------------------

  function MergedNodes(results: seq<PeerResult>): map<string, Vertex> {
    if results == [] then map[] else MergedNodes(results[..|results| - 1]) + results[|results| - 1].nodes
  }

  function MergedEdges(results: seq<PeerResult>): seq<Link> {
    if results == [] then [] else MergedEdges(results[..|results| - 1]) + results[|results| - 1].edges
  }

  method Merge(results: seq<PeerResult>) returns (nodes: map<string, Vertex>, edges: seq<Link>)
    ensures nodes == MergedNodes(results) && edges == MergedEdges(results)
  {
    nodes, edges := map[], [];
    for n := 0 to |results|
      invariant nodes == MergedNodes(results[..n]) && edges == MergedEdges(results[..n])
    {
      edges := edges + results[n].edges;
      nodes := nodes + results[n].nodes;
      assert results[..n + 1][..n] == results[..n];
    }
    assert results[..|results|] == results;
  }

  /** Collects the values of the map, in whatever order it is ranged over. */
  method Values(nodes: map<string, Vertex>) returns (list: seq<Vertex>)
    requires forall k :: k in nodes ==> nodes[k].id == k
    ensures forall v :: v in list <==> v.id in nodes && nodes[v.id] == v
    ensures forall i, j :: 0 <= i < j < |list| ==> list[i].id != list[j].id
    ensures |list| == |nodes|
  {
    list := [];
    var keys := nodes.Keys;
    while keys != {}
      invariant keys <= nodes.Keys
      invariant forall v :: v in list <==> v.id in nodes && v.id !in keys && nodes[v.id] == v
      invariant forall i, j :: 0 <= i < j < |list| ==> list[i].id != list[j].id
      invariant |list| + |keys| == |nodes|
      decreases |keys|
    {
      var k :| k in keys;
      list := list + [nodes[k]];
      keys := keys - {k};
    }
  }

  // ----- What the merged graph is --------------------------------------------------------------

  function ResultsOf(outcomes: seq<Outcome<Status>>): seq<PeerResult> {
    seq(|outcomes|, k requires 0 <= k < |outcomes| => ResultOf(outcomes[k]))
  }

  function PeersOf(outcome: Outcome<Status>): seq<Peer> {
    if outcome.Decoded? then outcome.value.peers else []
  }

  function PeerCount(outcomes: seq<Outcome<Status>>): nat {
    if outcomes == [] then 0
    else PeerCount(outcomes[..|outcomes| - 1]) + |PeersOf(outcomes[|outcomes| - 1])|
  }

  /** Peer `name` is first seen, in a status, at position `j`. */
  ghost predicate FirstSeen(peers: seq<Peer>, name: string, j: nat) {
    j < |peers| && peers[j].hostname == name && forall i :: 0 <= i < j ==> peers[i].hostname != name
  }

  lemma {:induction false} NodesOfFirst(peers: seq<Peer>, name: string, j: nat)
    requires FirstSeen(peers, name, j)
    ensures name in NodesOf(peers) && NodesOf(peers)[name] == Vertex(name, name, peers[j].data)
  {
    var init := peers[..|peers| - 1];
    if j < |init| {
      NodesOfFirst(init, name, j);
    } else {
      NodesOfNone(init, name);
    }
  }

  lemma {:induction false} NodesOfNone(peers: seq<Peer>, name: string)
    requires forall i :: 0 <= i < |peers| ==> peers[i].hostname != name
    ensures name !in NodesOf(peers)
  {
    if peers != [] {
      NodesOfNone(peers[..|peers| - 1], name);
    }
  }

  lemma {:induction false} FirstIndex(peers: seq<Peer>, name: string, i: nat)
    requires i < |peers| && peers[i].hostname == name
    ensures exists j: nat :: FirstSeen(peers, name, j)
    decreases i
  {
    if k: nat :| k < i && peers[k].hostname == name {
      FirstIndex(peers, name, k);
    } else {
      assert FirstSeen(peers, name, i);
    }
  }

  /** Device `d` is the last one that saw `name`, first at position `j` of its status. */
  ghost predicate LastSaw(outcomes: seq<Outcome<Status>>, name: string, d: nat, j: nat) {
    && d < |outcomes| && FirstSeen(PeersOf(outcomes[d]), name, j)
    && forall e, i :: d < e < |outcomes| && 0 <= i < |PeersOf(outcomes[e])| ==>
         PeersOf(outcomes[e])[i].hostname != name
  }

  lemma ResultsOfInit(outcomes: seq<Outcome<Status>>)
    requires outcomes != []
    ensures ResultsOf(outcomes)[..|outcomes| - 1] == ResultsOf(outcomes[..|outcomes| - 1])
  {}

  lemma {:induction false} MergedNodesLast(outcomes: seq<Outcome<Status>>, name: string, d: nat, j: nat)
    requires LastSaw(outcomes, name, d, j)
    ensures name in MergedNodes(ResultsOf(outcomes))
    ensures MergedNodes(ResultsOf(outcomes))[name] == Vertex(name, name, PeersOf(outcomes[d])[j].data)
  {
    var n := |outcomes| - 1;
    ResultsOfInit(outcomes);
    if d < n {
      assert forall e :: d <= e < n ==> outcomes[..n][e] == outcomes[e];
      MergedNodesLast(outcomes[..n], name, d, j);
      NodesOfNone(PeersOf(outcomes[n]), name);
    } else {
      NodesOfFirst(PeersOf(outcomes[n]), name, j);
    }
  }

  ghost predicate Sees(outcomes: seq<Outcome<Status>>, name: string, d: nat, i: nat) {
    d < |outcomes| && i < |PeersOf(outcomes[d])| && PeersOf(outcomes[d])[i].hostname == name
  }

  lemma {:induction false} MergedNodesNone(outcomes: seq<Outcome<Status>>, name: string)
    requires forall d: nat, i: nat :: !Sees(outcomes, name, d, i)
    ensures name !in MergedNodes(ResultsOf(outcomes))
  {
    if outcomes != [] {
      var n := |outcomes| - 1;
      ResultsOfInit(outcomes);
      forall d: nat, i: nat
        ensures !Sees(outcomes[..n], name, d, i)
      {
        assert !Sees(outcomes, name, d, i);
      }
      MergedNodesNone(outcomes[..n], name);
      forall i | 0 <= i < |PeersOf(outcomes[n])|
        ensures PeersOf(outcomes[n])[i].hostname != name
      {
        assert !Sees(outcomes, name, n, i);
      }
      NodesOfNone(PeersOf(outcomes[n]), name);
    }
  }

  /** If some device sees `name`, some device sees it last. */
  lemma {:induction false} SomeoneLastSaw(outcomes: seq<Outcome<Status>>, name: string, d: nat, i: nat)
    requires Sees(outcomes, name, d, i)
    ensures exists last: nat, first: nat :: LastSaw(outcomes, name, last, first)
    decreases |outcomes| - d
  {
    if e: nat, k: nat :| d < e && Sees(outcomes, name, e, k) {
      SomeoneLastSaw(outcomes, name, e, k);
    } else {
      FirstIndex(PeersOf(outcomes[d]), name, i);
      var first: nat :| FirstSeen(PeersOf(outcomes[d]), name, first);
      forall e, k | d < e < |outcomes| && 0 <= k < |PeersOf(outcomes[e])|
        ensures PeersOf(outcomes[e])[k].hostname != name
      {
        assert !Sees(outcomes, name, e, k);
      }
      assert LastSaw(outcomes, name, d, first);
    }
  }

  /** A node is a name some device saw, with the data the last such device in list order gave
      it, and its id is its name. */
  lemma MergedNodesExact(outcomes: seq<Outcome<Status>>, name: string)
    ensures name in MergedNodes(ResultsOf(outcomes)) <==> exists d: nat, j: nat :: LastSaw(outcomes, name, d, j)
    ensures forall d: nat, j: nat :: LastSaw(outcomes, name, d, j) ==>
              && name in MergedNodes(ResultsOf(outcomes))
              && MergedNodes(ResultsOf(outcomes))[name] == Vertex(name, name, PeersOf(outcomes[d])[j].data)
  {
    forall d: nat, j: nat | LastSaw(outcomes, name, d, j)
      ensures name in MergedNodes(ResultsOf(outcomes))
      ensures MergedNodes(ResultsOf(outcomes))[name] == Vertex(name, name, PeersOf(outcomes[d])[j].data)
    {
      MergedNodesLast(outcomes, name, d, j);
    }
    if d: nat, i: nat :| Sees(outcomes, name, d, i) {
      SomeoneLastSaw(outcomes, name, d, i);
    } else {
      MergedNodesNone(outcomes, name);
    }
  }

  /** `e` is the edge for peer `k` in the answer of device `d`: it goes from the device's host to the peer. */
  ghost predicate Reports(outcomes: seq<Outcome<Status>>, e: Link, d: nat, k: nat) {
    && d < |outcomes| && outcomes[d].Decoded? && k < |outcomes[d].value.peers|
    && e.source == outcomes[d].value.hostname && e.target == outcomes[d].value.peers[k].hostname
    && e.id == e.source + "->" + e.target
  }

  lemma EdgesOfMember(outcome: Outcome<Status>, e: Link)
    ensures e in ResultOf(outcome).edges <==> exists k: nat :: Reports([outcome], e, 0, k)
  {
    if e in ResultOf(outcome).edges {
      var k: nat :| k < |outcome.value.peers| && EdgesOf(outcome.value)[k] == e;
      assert Reports([outcome], e, 0, k);
    }
    if k: nat :| Reports([outcome], e, 0, k) {
      assert EdgesOf(outcome.value)[k] == e;
    }
  }

  /** The edges are exactly those from an answering device to a peer it reported. */
  lemma {:induction false} MergedEdgesExact(outcomes: seq<Outcome<Status>>, e: Link)
    ensures e in MergedEdges(ResultsOf(outcomes)) <==> exists d: nat, k: nat :: Reports(outcomes, e, d, k)
  {
    if outcomes != [] {
      var n := |outcomes| - 1;
      var init, last := outcomes[..n], outcomes[n];
      ResultsOfInit(outcomes);
      MergedEdgesExact(init, e);
      EdgesOfMember(last, e);
      if d: nat, k: nat :| Reports(init, e, d, k) {
        assert Reports(outcomes, e, d, k);
      }
      if k: nat :| Reports([last], e, 0, k) {
        assert Reports(outcomes, e, n, k);
      }
      if d: nat, k: nat :| Reports(outcomes, e, d, k) {
        assert if d < n then Reports(init, e, d, k) else Reports([last], e, 0, k);
      }
    }
  }

  lemma {:induction false} MergedEdgesCount(outcomes: seq<Outcome<Status>>)
    ensures |MergedEdges(ResultsOf(outcomes))| == PeerCount(outcomes)
  {
    if outcomes != [] {
      ResultsOfInit(outcomes);
      MergedEdgesCount(outcomes[..|outcomes| - 1]);
    }
  }

  /** Every edge ends in a node. */
  lemma EdgeTargetsAreNodes(outcomes: seq<Outcome<Status>>, e: Link)
    requires e in MergedEdges(ResultsOf(outcomes))
    ensures e.target in MergedNodes(ResultsOf(outcomes))
  {
    MergedEdgesExact(outcomes, e);
    var d: nat, k: nat :| Reports(outcomes, e, d, k);
    assert Sees(outcomes, e.target, d, k);
    SomeoneLastSaw(outcomes, e.target, d, k);
    var last: nat, first: nat :| LastSaw(outcomes, e.target, last, first);
    MergedNodesLast(outcomes, e.target, last, first);
  }

  /** Every node of the collected list has its own id. */
  lemma NodesHaveTheirIds(outcomes: seq<Outcome<Status>>)
    ensures forall name :: name in MergedNodes(ResultsOf(outcomes)) ==>
              MergedNodes(ResultsOf(outcomes))[name].id == name
  {
    forall name | name in MergedNodes(ResultsOf(outcomes))
      ensures MergedNodes(ResultsOf(outcomes))[name].id == name
    {
      MergedNodesExact(outcomes, name);
      var d: nat, j: nat :| LastSaw(outcomes, name, d, j);
    }
  }

  // ----- Edge ids ------------------------------------------------------------------------------------

  predicate HasArrow(s: string) {
    exists k :: 0 <= k < |s| - 1 && s[k] == '-' && s[k + 1] == '>'
  }

  /** `b` goes on from `a` with an arrow, and the target `t` makes up for the difference. */
  predicate Shifted(a: string, t: string, b: string, u: string) {
    a + "->" <= b && t == b[|a| + 2..] + ("->" + u)
  }

  lemma {:induction false} ShiftedSameId(a: string, t: string, b: string, u: string)
    requires Shifted(a, t, b, u)
    ensures LinkOf(a, t).id == LinkOf(b, u).id
  {
    assert b == (a + "->") + b[|a| + 2..];
  }

  lemma {:induction false} SameIdShorter(a: string, t: string, b: string, u: string)
    requires |a| < |b| && LinkOf(a, t).id == LinkOf(b, u).id
    ensures Shifted(a, t, b, u)
  {
    var id := LinkOf(a, t).id;
    assert id[|a|] == '-' && id[|a| + 1] == '>';
    assert id[|b|] == '-';
    assert b == id[..|b|] && a + "->" == id[..|a| + 2];
    assert t == id[|a| + 2..];
    assert b[|a| + 2..] + ("->" + u) == (b + "->" + u)[|a| + 2..];
  }

  lemma {:induction false} SameIdSameLength(a: string, t: string, b: string, u: string)
    requires |a| == |b| && LinkOf(a, t).id == LinkOf(b, u).id
    ensures a == b && t == u
  {
    var id := LinkOf(a, t).id;
    assert a == id[..|a|] == b;
    assert t == id[|a| + 2..] == u;
  }

  /** Exactly when two edges have the same id. */
  lemma {:induction false} SameIdIff(a: string, t: string, b: string, u: string)
    ensures LinkOf(a, t).id == LinkOf(b, u).id <==> (a == b && t == u) || Shifted(a, t, b, u) || Shifted(b, u, a, t)
  {
    if Shifted(a, t, b, u) {
      ShiftedSameId(a, t, b, u);
    }
    if Shifted(b, u, a, t) {
      ShiftedSameId(b, u, a, t);
    }
    if LinkOf(a, t).id == LinkOf(b, u).id {
      if |a| < |b| {
        SameIdShorter(a, t, b, u);
      } else if |b| < |a| {
        SameIdShorter(b, u, a, t);
      } else {
        SameIdSameLength(a, t, b, u);
      }
    }
  }

  ghost predicate CanClash(a: string, b: string) {
    exists t, u :: LinkOf(a, t).id == LinkOf(b, u).id
  }

  lemma {:induction false} LongerSourceClashes(a: string, b: string)
    requires a + "->" <= b
    ensures CanClash(a, b) && CanClash(b, a)
  {
    var t := b[|a| + 2..] + ("->" + "");
    ShiftedSameId(a, t, b, "");
    assert LinkOf(b, "").id == LinkOf(a, t).id;
  }

  /** Exactly which two sources can have edges with the same id: one goes on from the other
      with an arrow. */
  lemma {:induction false} SourcesClashIff(a: string, b: string)
    requires a != b
    ensures CanClash(a, b) <==> a + "->" <= b || b + "->" <= a
  {
    if CanClash(a, b) {
      var t, u :| LinkOf(a, t).id == LinkOf(b, u).id;
      SameIdIff(a, t, b, u);
    }
    if a + "->" <= b {
      LongerSourceClashes(a, b);
    } else if b + "->" <= a {
      LongerSourceClashes(b, a);
    }
  }

  /** In particular edge ids tell edges apart when no source name contains an arrow. */
  lemma {:induction false} EdgeIdsInjective(a: Link, b: Link)
    requires a == LinkOf(a.source, a.target) && b == LinkOf(b.source, b.target)
    requires !HasArrow(a.source) && !HasArrow(b.source) && a.id == b.id
    ensures a == b
  {
    SameIdIff(a.source, a.target, b.source, b.target);
    if Shifted(a.source, a.target, b.source, b.target) {
      ArrowInside(a.source, b.source);
    } else if Shifted(b.source, b.target, a.source, a.target) {
      ArrowInside(b.source, a.source);
    }
  }

  lemma {:induction false} ArrowInside(a: string, b: string)
    requires a + "->" <= b
    ensures HasArrow(b)
  {
    assert b[|a|] == (a + "->")[|a|] && b[|a| + 1] == (a + "->")[|a| + 1];
  }

  /** Two edges that share an id. */
  lemma ArrowNamesCollide()
    ensures LinkOf("a->b", "c").id == LinkOf("a", "b->c").id && LinkOf("a->b", "c") != LinkOf("a", "b->c")
  {
    assert "a->b" + "->" + "c" == "a" + "->" + "b->c";
  }

  // ----- Over every schedule ----------------------------------------------------------------------------

  function PeerMapPlans(outcomes: seq<Outcome<Status>>): seq<seq<PeerResult>> {
    seq(|outcomes|, k requires 0 <= k < |outcomes| => [ResultOf(outcomes[k])])
  }

  /** What a worker does to the index before it sends: forget an adapter that cannot be
      called, or store the host it answered for. */
  function IndexOps(devices: seq<string>, outcomes: seq<Outcome<Status>>): seq<PeerIndex.Op>
    requires |devices| == |outcomes|
  {
    if outcomes == [] then []
    else
      var n := |outcomes| - 1;
      var init := IndexOps(devices[..n], outcomes[..n]);
      match outcomes[n]
      case NotCalled(_) => init + [PeerIndex.Delete(devices[n])]
      case Decoded(status) => init + [PeerIndex.Set(status.hostname, devices[n])]
      case _ => init
  }

  /** Operation `op` is that of device `k`: it is forgotten when it cannot be called, and stored with the
      host it answers for. */
  ghost predicate Causes(devices: seq<string>, outcomes: seq<Outcome<Status>>, op: PeerIndex.Op, k: nat)
    requires |devices| == |outcomes|
  {
    && k < |outcomes|
    && (|| (outcomes[k].NotCalled? && op == PeerIndex.Delete(devices[k]))
        || (outcomes[k].Decoded? && op == PeerIndex.Set(outcomes[k].value.hostname, devices[k])))
  }

  function Acting(outcomes: seq<Outcome<Status>>): nat {
    if outcomes == [] then 0
    else Acting(outcomes[..|outcomes| - 1]) +
         var last := outcomes[|outcomes| - 1]; if last.NotCalled? || last.Decoded? then 1 else 0
  }

  lemma {:induction false} IndexOpsExact(devices: seq<string>, outcomes: seq<Outcome<Status>>, op: PeerIndex.Op)
    requires |devices| == |outcomes|
    ensures op in IndexOps(devices, outcomes) <==> exists k: nat :: Causes(devices, outcomes, op, k)
    ensures |IndexOps(devices, outcomes)| == Acting(outcomes)
  {
    if outcomes != [] {
      var n := |outcomes| - 1;
      IndexOpsExact(devices[..n], outcomes[..n], op);
      if k: nat :| Causes(devices[..n], outcomes[..n], op, k) {
        assert Causes(devices, outcomes, op, k);
      }
      if k: nat :| Causes(devices, outcomes, op, k) && k < n {
        assert Causes(devices[..n], outcomes[..n], op, k);
      }
      if Causes(devices, outcomes, op, n) {
        assert op in IndexOps(devices, outcomes);
      }
    }
  }

  /** Under every schedule of the accesses to the index, when the devices are on different pairs: a device
      that could not be called is forgotten, and one that answered is known for the host it named. */
  lemma {:induction false} IndexSaysWhoAnswered(devices: seq<string>, outcomes: seq<Outcome<Status>>, x: PeerIndex.Index,
                                                accesses: seq<nat>, k: nat)
    requires |devices| == |outcomes| && k < |outcomes|
    requires var ops := IndexOps(devices, outcomes);
             && PeerIndex.Runs(ops, PeerIndex.Start(x, ops), accesses)
             && PeerIndex.Quiescent(PeerIndex.Exec(ops, PeerIndex.Start(x, ops), accesses))
             && PeerIndex.Apart(x, ops)
    ensures var ops := IndexOps(devices, outcomes);
            var after := PeerIndex.Exec(ops, PeerIndex.Start(x, ops), accesses).x;
            && (outcomes[k].NotCalled? ==> devices[k] !in after.adapters)
            && (outcomes[k].Decoded? ==>
                  && PeerIndex.Get(after.adapters, devices[k]) == Some(outcomes[k].value.hostname)
                  && PeerIndex.Get(after.hosts, outcomes[k].value.hostname) == Some(devices[k]))
  {
    var ops := IndexOps(devices, outcomes);
    PeerIndex.InterleavingIsSequential(x, ops, accesses, ops);
    PeerIndex.SequentialOutcome(x, ops);
    var after := PeerIndex.ApplyAll(x, ops);
    if outcomes[k].NotCalled? || outcomes[k].Decoded? {
      var op := if outcomes[k].NotCalled? then PeerIndex.Delete(devices[k])
                else PeerIndex.Set(outcomes[k].value.hostname, devices[k]);
      IndexOpsExact(devices, outcomes, op);
      assert Causes(devices, outcomes, op, k);
      var i :| 0 <= i < |ops| && ops[i] == op;
      assert PeerIndex.Progress(x, ops[i], PeerIndex.Done, after);
    }
  }

  /** Under every schedule of the workers' calls the response merges the results in device
      order.  Under every schedule of their accesses to the index, when the devices are on
      different pairs, the index is as if they had been asked one after the other, in any order. */
  lemma {:induction false} PeerMapEverySchedule(devices: seq<string>, outcomes: seq<Outcome<Status>>, es: seq<Event>,
                                                x: PeerIndex.Index, accesses: seq<nat>, order: seq<PeerIndex.Op>)
    requires |devices| == |outcomes|
    requires Runs(PeerMapPlans(outcomes), Init(), es)
    requires Terminal(PeerMapPlans(outcomes), Exec(PeerMapPlans(outcomes), Init(), es))
    requires var ops := IndexOps(devices, outcomes);
             && PeerIndex.Runs(ops, PeerIndex.Start(x, ops), accesses)
             && PeerIndex.Quiescent(PeerIndex.Exec(ops, PeerIndex.Start(x, ops), accesses))
             && multiset(order) == multiset(ops)
    ensures Responds(PeerMapPlans(outcomes), es, ResultsOf(outcomes))
    ensures forall k :: 0 <= k < |outcomes| ==> ResultsOf(outcomes)[k].error == ErrorOf(outcomes[k])
    ensures var ops := IndexOps(devices, outcomes);
            PeerIndex.Apart(x, ops) ==>
              PeerIndex.Exec(ops, PeerIndex.Start(x, ops), accesses).x == PeerIndex.ApplyAll(x, order)
  {
    SingleSendsRespond(PeerMapPlans(outcomes), es);
    assert Firsts(PeerMapPlans(outcomes)) == ResultsOf(outcomes);
    if PeerIndex.Apart(x, IndexOps(devices, outcomes)) {
      PeerIndex.InterleavingIsSequential(x, IndexOps(devices, outcomes), accesses, order);
    }
  }

  /** The graph built from the results: distinct node ids, each node the last device's view of
      it, one edge per reported peer, and no edge without its target node. */
  method BuildGraph(outcomes: seq<Outcome<Status>>) returns (nodes: seq<Vertex>, edges: seq<Link>)
    ensures forall i, j :: 0 <= i < j < |nodes| ==> nodes[i].id != nodes[j].id
    ensures forall v :: v in nodes <==>
              exists d: nat, j: nat :: LastSaw(outcomes, v.id, d, j) && v == Vertex(v.id, v.id, PeersOf(outcomes[d])[j].data)
    ensures |edges| == PeerCount(outcomes)
    ensures forall e :: e in edges <==> exists d: nat, k: nat :: Reports(outcomes, e, d, k)
    ensures forall e :: e in edges ==> exists v :: v in nodes && v.id == e.target
  {
    var merged;
    merged, edges := Merge(ResultsOf(outcomes));
    NodesHaveTheirIds(outcomes);
    MergedEdgesCount(outcomes);
    nodes := Values(merged);
    forall v
      ensures v in nodes <==>
                exists d: nat, j: nat :: LastSaw(outcomes, v.id, d, j) && v == Vertex(v.id, v.id, PeersOf(outcomes[d])[j].data)
    {
      MergedNodesExact(outcomes, v.id);
    }
    forall e
      ensures e in edges <==> exists d: nat, k: nat :: Reports(outcomes, e, d, k)
    {
      MergedEdgesExact(outcomes, e);
    }
    forall e | e in edges
      ensures exists v :: v in nodes && v.id == e.target
    {
      EdgeTargetsAreNodes(outcomes, e);
      assert merged[e.target] in nodes;
    }
  }
}
