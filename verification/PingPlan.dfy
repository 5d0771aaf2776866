/**
 From a selection in the graph to the pings that are run: the page lists the (host, peer)
 pairs, groups them by host, and the server's nested loops flatten the groups again.
 A JavaScript `Set` iterates in insertion order, so it is a sequence without repeats here;
 likewise a `Map` is the sequence of its entries.
 */
module PingPlan {
  import opened Graph
  import opened Handlers
  import FanOut

  // ----- Which pairs -----------------------------------------------------------------

  /** Selected hosts other than `host` that share an edge with it and are not targets already. */
  function LinkedHosts(host: string, hosts: seq<string>, targets: seq<string>, edges: seq<Edge>): seq<string> {
    if hosts == [] then []
    else
      var init, last := LinkedHosts(host, hosts[..|hosts| - 1], targets, edges), hosts[|hosts| - 1];
      if last != host && last !in targets && (HasEdge(edges, host, last) || HasEdge(edges, last, host))
      then init + [last] else init
  }

  function WithEdge(host: string, peers: seq<string>, edges: seq<Edge>): seq<string> {
    if peers == [] then []
    else
      var init, last := WithEdge(host, peers[..|peers| - 1], edges), peers[|peers| - 1];
      if HasEdge(edges, host, last) then init + [last] else init
  }

  function PlanFor(host: string, hosts: seq<string>, targets: seq<string>, edges: seq<Edge>): PingTargets {
    PingTargets(host, WithEdge(host, targets + LinkedHosts(host, hosts, targets, edges), edges))
  }

  function Plan(some: seq<string>, hosts: seq<string>, targets: seq<string>, edges: seq<Edge>): seq<PingTargets> {
    seq(|some|, k requires 0 <= k < |some| => PlanFor(some[k], hosts, targets, edges))
  }

  method TargetsForHost(host: string, hosts: seq<string>, targets: seq<string>, edges: seq<Edge>)
    returns (r: seq<string>)
    requires NoDup(hosts) && NoDup(targets)
    ensures r == targets + LinkedHosts(host, hosts, targets, edges)
  {
    r := targets;
    for k := 0 to |hosts|
      invariant r == targets + LinkedHosts(host, hosts[..k], targets, edges)
    {
      var other := hosts[k];
      if other != host {
        var hasEdge := HasEdge(edges, host, other) || HasEdge(edges, other, host);
        LinkedHostsMember(host, hosts[..k], targets, edges, other);
        assert other !in hosts[..k];
        if hasEdge && other !in r {
          r := r + [other];
        }
      }
      assert hosts[..k + 1][..k] == hosts[..k];
    }
    assert hosts[..|hosts|] == hosts;
  }

  method AppendPairs(pairs: seq<(string, string)>, host: string, peers: seq<string>, edges: seq<Edge>)
    returns (r: seq<(string, string)>)
    ensures r == pairs + Row(PingTargets(host, WithEdge(host, peers, edges)))
  {
    r := pairs;
    for k := 0 to |peers|
      invariant r == pairs + Row(PingTargets(host, WithEdge(host, peers[..k], edges)))
    {
      ghost var kept := WithEdge(host, peers[..k], edges);
      if HasEdge(edges, host, peers[k]) {
        r := r + [(host, peers[k])];
        assert Row(PingTargets(host, kept + [peers[k]])) == Row(PingTargets(host, kept)) + [(host, peers[k])];
      }
      assert peers[..k + 1][..k] == peers[..k];
    }
    assert peers[..|peers|] == peers;
  }

  lemma PlanSnoc(some: seq<string>, host: string, hosts: seq<string>, targets: seq<string>, edges: seq<Edge>)
    ensures Pairs(Plan(some + [host], hosts, targets, edges)) ==
            Pairs(Plan(some, hosts, targets, edges)) + Row(PlanFor(host, hosts, targets, edges))
  {
    var plan := Plan(some + [host], hosts, targets, edges);
    assert plan[..|some|] == Plan(some, hosts, targets, edges);
  }

  lemma PlanNext(a: nat, hosts: seq<string>, targets: seq<string>, edges: seq<Edge>)
    requires a < |hosts|
    ensures var peers := targets + LinkedHosts(hosts[a], hosts, targets, edges);
            Pairs(Plan(hosts[..a + 1], hosts, targets, edges)) ==
              Pairs(Plan(hosts[..a], hosts, targets, edges)) + Row(PingTargets(hosts[a], WithEdge(hosts[a], peers, edges)))
  {
    PlanSnoc(hosts[..a], hosts[a], hosts, targets, edges);
    assert hosts[..a + 1] == hosts[..a] + [hosts[a]];
  }

  method GetTargetedCombinations(hosts: seq<string>, targets: seq<string>, edges: seq<Edge>)
    returns (combinations: seq<(string, string)>)
    requires NoDup(hosts) && NoDup(targets)
    ensures combinations == Pairs(Plan(hosts, hosts, targets, edges))
  {
    combinations := [];
    for a := 0 to |hosts|
      invariant combinations == Pairs(Plan(hosts[..a], hosts, targets, edges))
    {
      var peers := TargetsForHost(hosts[a], hosts, targets, edges);
      PlanNext(a, hosts, targets, edges);
      combinations := AppendPairs(combinations, hosts[a], peers, edges);
    }
    assert hosts[..|hosts|] == hosts;
  }

  // ----- Flattened plans -----------------------------------------------------------------

  ghost predicate DistinctHosts(args: seq<PingTargets>) {
    forall j, k :: 0 <= j < k < |args| ==> args[j].host != args[k].host
  }

  lemma {:induction false} PairsMember(args: seq<PingTargets>, h: string, p: string)
    ensures (h, p) in Pairs(args) <==> exists k :: 0 <= k < |args| && args[k].host == h && p in args[k].targets
  {
    if args != [] {
      var init, last := args[..|args| - 1], args[|args| - 1];
      PairsMember(init, h, p);
      assert forall k :: 0 <= k < |init| ==> init[k] == args[k];
      assert (h, p) in Row(last) <==> last.host == h && p in last.targets by {
        if last.host == h && p in last.targets {
          var k :| 0 <= k < |last.targets| && last.targets[k] == p;
          assert Row(last)[k] == (h, p);
        }
      }
    }
  }

  lemma {:induction false} PairsNoDup(args: seq<PingTargets>)
    requires DistinctHosts(args) && forall k :: 0 <= k < |args| ==> NoDup(args[k].targets)
    ensures NoDup(Pairs(args))
  {
    if args != [] {
      var init, last := args[..|args| - 1], args[|args| - 1];
      PairsNoDup(init);
      forall j, k | 0 <= j < |Pairs(init)| && 0 <= k < |Row(last)|
        ensures Pairs(init)[j] != Row(last)[k]
      {
        PairsMember(init, Pairs(init)[j].0, Pairs(init)[j].1);
      }
    }
  }

  lemma {:induction false} LinkedHostsNoDup(host: string, hosts: seq<string>, targets: seq<string>, edges: seq<Edge>)
    requires NoDup(hosts)
    ensures NoDup(LinkedHosts(host, hosts, targets, edges))
  {
    if hosts != [] {
      LinkedHostsNoDup(host, hosts[..|hosts| - 1], targets, edges);
      LinkedHostsMember(host, hosts[..|hosts| - 1], targets, edges, hosts[|hosts| - 1]);
    }
  }

  lemma {:induction false} WithEdgeNoDup(host: string, peers: seq<string>, edges: seq<Edge>)
    requires NoDup(peers)
    ensures NoDup(WithEdge(host, peers, edges))
  {
    if peers != [] {
      WithEdgeNoDup(host, peers[..|peers| - 1], edges);
      WithEdgeMember(host, peers[..|peers| - 1], edges, peers[|peers| - 1]);
    }
  }

  lemma {:induction false} LinkedHostsMember(host: string, hosts: seq<string>, targets: seq<string>, edges: seq<Edge>,
                                             p: string)
    ensures p in LinkedHosts(host, hosts, targets, edges) <==>
              p in hosts && p != host && p !in targets && (HasEdge(edges, host, p) || HasEdge(edges, p, host))
  {
    if hosts != [] {
      LinkedHostsMember(host, hosts[..|hosts| - 1], targets, edges, p);
      assert p in hosts <==> p in hosts[..|hosts| - 1] || p == hosts[|hosts| - 1];
    }
  }

  lemma {:induction false} WithEdgeMember(host: string, peers: seq<string>, edges: seq<Edge>, p: string)
    ensures p in WithEdge(host, peers, edges) <==> p in peers && HasEdge(edges, host, p)
  {
    if peers != [] {
      WithEdgeMember(host, peers[..|peers| - 1], edges, p);
      assert p in peers <==> p in peers[..|peers| - 1] || p == peers[|peers| - 1];
    }
  }

  lemma PlanForMember(host: string, hosts: seq<string>, targets: seq<string>, edges: seq<Edge>, p: string)
    ensures p in PlanFor(host, hosts, targets, edges).targets <==>
              HasEdge(edges, host, p) && (p in targets || (p in hosts && p != host))
  {
    LinkedHostsMember(host, hosts, targets, edges, p);
    WithEdgeMember(host, targets + LinkedHosts(host, hosts, targets, edges), edges, p);
  }

  lemma CombinationsMember(hosts: seq<string>, targets: seq<string>, edges: seq<Edge>, h: string, p: string)
    ensures (h, p) in Pairs(Plan(hosts, hosts, targets, edges)) <==>
              h in hosts && HasEdge(edges, h, p) && (p in targets || (p in hosts && p != h))
  {
    var plan := Plan(hosts, hosts, targets, edges);
    PairsMember(plan, h, p);
    PlanForMember(h, hosts, targets, edges, p);
    assert forall k :: 0 <= k < |hosts| ==> plan[k] == PlanFor(hosts[k], hosts, targets, edges);
    if h in hosts {
      var k :| 0 <= k < |hosts| && hosts[k] == h;
      assert plan[k].host == h;
    }
  }

  lemma PlanForNoDup(host: string, hosts: seq<string>, targets: seq<string>, edges: seq<Edge>)
    requires NoDup(hosts) && NoDup(targets)
    ensures NoDup(PlanFor(host, hosts, targets, edges).targets)
  {
    var linked := LinkedHosts(host, hosts, targets, edges);
    LinkedHostsNoDup(host, hosts, targets, edges);
    forall j, k | 0 <= j < |targets| && 0 <= k < |linked|
      ensures targets[j] != linked[k]
    {
      LinkedHostsMember(host, hosts, targets, edges, linked[k]);
    }
    WithEdgeNoDup(host, targets + linked, edges);
  }

  /** The pairs are exactly those with a directed edge from a selected host to a selected
      target or to another selected host, each listed once. */
  lemma CombinationsExact(hosts: seq<string>, targets: seq<string>, edges: seq<Edge>)
    requires NoDup(hosts) && NoDup(targets)
    ensures forall h, p :: (h, p) in Pairs(Plan(hosts, hosts, targets, edges)) <==>
              h in hosts && HasEdge(edges, h, p) && (p in targets || (p in hosts && p != h))
    ensures NoDup(Pairs(Plan(hosts, hosts, targets, edges)))
  {
    var plan := Plan(hosts, hosts, targets, edges);
    forall h, p
      ensures (h, p) in Pairs(plan) <==>
                h in hosts && HasEdge(edges, h, p) && (p in targets || (p in hosts && p != h))
    {
      CombinationsMember(hosts, targets, edges, h, p);
    }
    forall k | 0 <= k < |plan|
      ensures NoDup(plan[k].targets)
    {
      PlanForNoDup(hosts[k], hosts, targets, edges);
    }
    PairsNoDup(plan);
  }

  // ----- The order of the pairs ---------------------------------------------------------------

  lemma {:induction false} LinkedHostsInOrder(host: string, hosts: seq<string>, targets: seq<string>, edges: seq<Edge>,
                                              i: nat, j: nat)
    requires i < j < |LinkedHosts(host, hosts, targets, edges)|
    ensures var linked := LinkedHosts(host, hosts, targets, edges); Before(hosts, linked[i], linked[j])
  {
    var init, last := hosts[..|hosts| - 1], hosts[|hosts| - 1];
    var linked := LinkedHosts(host, init, targets, edges);
    if j < |linked| {
      LinkedHostsInOrder(host, init, targets, edges, i, j);
    } else {
      LinkedHostsMember(host, init, targets, edges, linked[i]);
    }
    assert init + [last] == hosts;
    BeforeSnoc(init, last, LinkedHosts(host, hosts, targets, edges)[i], LinkedHosts(host, hosts, targets, edges)[j]);
  }

  lemma {:induction false} WithEdgeInOrder(host: string, peers: seq<string>, edges: seq<Edge>, i: nat, j: nat)
    requires i < j < |WithEdge(host, peers, edges)|
    ensures var kept := WithEdge(host, peers, edges); Before(peers, kept[i], kept[j])
  {
    var init, last := peers[..|peers| - 1], peers[|peers| - 1];
    var kept := WithEdge(host, init, edges);
    if j < |kept| {
      WithEdgeInOrder(host, init, edges, i, j);
    } else {
      WithEdgeMember(host, init, edges, kept[i]);
    }
    assert init + [last] == peers;
    BeforeSnoc(init, last, WithEdge(host, peers, edges)[i], WithEdge(host, peers, edges)[j]);
  }

  /** What stands before something in the targets and linked hosts does so in the targets and all hosts. */
  lemma {:induction false} LinkedThenAll(host: string, hosts: seq<string>, targets: seq<string>, edges: seq<Edge>,
                                         a: nat, b: nat)
    requires a < b < |targets + LinkedHosts(host, hosts, targets, edges)|
    ensures var some := targets + LinkedHosts(host, hosts, targets, edges); Before(targets + hosts, some[a], some[b])
  {
    var linked := LinkedHosts(host, hosts, targets, edges);
    var n, some, all := |targets|, targets + linked, targets + hosts;
    if b < n {
      assert all[a] == some[a] && all[b] == some[b];
    } else if a < n {
      LinkedHostsMember(host, hosts, targets, edges, linked[b - n]);
      var d :| 0 <= d < |hosts| && hosts[d] == linked[b - n];
      assert all[a] == some[a] && all[n + d] == some[b];
    } else {
      LinkedHostsInOrder(host, hosts, targets, edges, a - n, b - n);
      var c, d :| 0 <= c < d < |hosts| && hosts[c] == linked[a - n] && hosts[d] == linked[b - n];
      assert all[n + c] == some[a] && all[n + d] == some[b];
    }
  }

  lemma {:induction false} PlanForInOrder(host: string, hosts: seq<string>, targets: seq<string>, edges: seq<Edge>,
                                          i: nat, j: nat)
    requires i < j < |PlanFor(host, hosts, targets, edges).targets|
    ensures var peers := PlanFor(host, hosts, targets, edges).targets; Before(targets + hosts, peers[i], peers[j])
  {
    var some := targets + LinkedHosts(host, hosts, targets, edges);
    var peers := WithEdge(host, some, edges);
    WithEdgeInOrder(host, some, edges, i, j);
    var a, b :| 0 <= a < b < |some| && some[a] == peers[i] && some[b] == peers[j];
    LinkedThenAll(host, hosts, targets, edges, a, b);
  }

  /** Pair `x` comes before pair `y`: by its host, or by its peer for the same host. */
  ghost predicate Precedes(hosts: seq<string>, peers: seq<string>, x: (string, string), y: (string, string)) {
    Before(hosts, x.0, y.0) || (x.0 == y.0 && Before(peers, x.1, y.1))
  }

  lemma {:induction false} HostsInOrder(n: nat, hosts: seq<string>, targets: seq<string>, edges: seq<Edge>, i: nat)
    requires n < |hosts| && i < |Pairs(Plan(hosts[..n], hosts, targets, edges))|
    ensures Before(hosts, Pairs(Plan(hosts[..n], hosts, targets, edges))[i].0, hosts[n])
  {
    var plan := Plan(hosts[..n], hosts, targets, edges);
    var pair := Pairs(plan)[i];
    PairsMember(plan, pair.0, pair.1);
    var k :| 0 <= k < |plan| && plan[k].host == pair.0 && pair.1 in plan[k].targets;
    assert hosts[k] == pair.0;
  }

  lemma {:induction false} PlanInOrder(n: nat, hosts: seq<string>, targets: seq<string>, edges: seq<Edge>, i: nat, j: nat)
    requires n <= |hosts| && i < j < |Pairs(Plan(hosts[..n], hosts, targets, edges))|
    ensures var pairs := Pairs(Plan(hosts[..n], hosts, targets, edges)); Precedes(hosts, targets + hosts, pairs[i], pairs[j])
  {
    if n > 0 {
      var host := hosts[n - 1];
      var init, row := Pairs(Plan(hosts[..n - 1], hosts, targets, edges)), Row(PlanFor(host, hosts, targets, edges));
      assert hosts[..n] == hosts[..n - 1] + [host];
      PlanSnoc(hosts[..n - 1], host, hosts, targets, edges);
      assert Pairs(Plan(hosts[..n], hosts, targets, edges)) == init + row;
      if j < |init| {
        PlanInOrder(n - 1, hosts, targets, edges, i, j);
      } else if i < |init| {
        HostsInOrder(n - 1, hosts, targets, edges, i);
      } else {
        PlanForInOrder(host, hosts, targets, edges, i - |init|, j - |init|);
      }
    }
  }

  // ----- Grouping by host ---------------------------------------------------------------------

  /** The position of the entry for `host`, or |args|. */
  function Position(args: seq<PingTargets>, host: string): (k: nat)
    ensures k <= |args|
    ensures k < |args| ==> args[k].host == host
    ensures forall j :: 0 <= j < k ==> args[j].host != host
  {
    if args == [] then 0 else if args[0].host == host then 0 else 1 + Position(args[1..], host)
  }

  function WithEntry(args: seq<PingTargets>, host: string): (r: seq<PingTargets>)
    ensures Position(r, host) < |r|
    ensures |r| == |args| || |r| == |args| + 1
  {
    if Position(args, host) < |args| then args
    else
      var r := args + [PingTargets(host, [])];
      assert r[|args|].host == host;
      r
  }

  function Add(args: seq<PingTargets>, pair: (string, string)): seq<PingTargets> {
    var r := WithEntry(args, pair.0);
    var k := Position(r, pair.0);
    r[k := PingTargets(pair.0, r[k].targets + [pair.1])]
  }

  function Group(pairs: seq<(string, string)>): seq<PingTargets> {
    if pairs == [] then [] else Add(Group(pairs[..|pairs| - 1]), pairs[|pairs| - 1])
  }

  method GroupByHost(pairs: seq<(string, string)>) returns (args: seq<PingTargets>)
    ensures args == Group(pairs)
  {
    args := [];
    for n := 0 to |pairs|
      invariant args == Group(pairs[..n])
    {
      var host, peer := pairs[n].0, pairs[n].1;
      ghost var entered := WithEntry(args, host);
      if Position(args, host) == |args| {
        args := args + [PingTargets(host, [])];
      }
      assert args == entered;
      var k := Position(args, host);
      args := args[k := PingTargets(host, args[k].targets + [peer])];
      assert pairs[..n + 1][..n] == pairs[..n];
    }
    assert pairs[..|pairs|] == pairs;
  }

  function NonEmpty(args: seq<PingTargets>): seq<PingTargets> {
    if args == [] then []
    else
      var init, last := NonEmpty(args[..|args| - 1]), args[|args| - 1];
      if last.targets == [] then init else init + [last]
  }

  lemma {:induction false} NonEmptyMembers(args: seq<PingTargets>)
    ensures forall k :: 0 <= k < |NonEmpty(args)| ==> NonEmpty(args)[k] in args
  {
    if args != [] {
      NonEmptyMembers(args[..|args| - 1]);
    }
  }

  lemma GroupSnoc(pairs: seq<(string, string)>, pair: (string, string))
    ensures Group(pairs + [pair]) == Add(Group(pairs), pair)
  {
    assert (pairs + [pair])[..|pairs|] == pairs;
  }

  lemma RowSnoc(host: string, targets: seq<string>, peer: string)
    ensures Row(PingTargets(host, targets + [peer])) == Row(PingTargets(host, targets)) + [(host, peer)]
  {}

  function Entry(host: string, targets: seq<string>): seq<PingTargets> {
    if targets == [] then [] else [PingTargets(host, targets)]
  }

  lemma {:induction false} GroupRow(before: seq<(string, string)>, host: string, targets: seq<string>)
    requires Position(Group(before), host) == |Group(before)|
    ensures Group(before + Row(PingTargets(host, targets))) == Group(before) + Entry(host, targets)
    decreases |targets|
  {
    if targets == [] {
      assert before + Row(PingTargets(host, targets)) == before;
    } else {
      var init, peer := targets[..|targets| - 1], targets[|targets| - 1];
      assert targets == init + [peer];
      GroupRow(before, host, init);
      RowSnoc(host, init, peer);
      var pairs := before + Row(PingTargets(host, init));
      assert before + (Row(PingTargets(host, init)) + [(host, peer)]) == pairs + [(host, peer)];
      GroupSnoc(pairs, (host, peer));
      AddToLast(Group(before), host, init, peer);
    }
  }

  lemma AddToLast(args: seq<PingTargets>, host: string, targets: seq<string>, peer: string)
    requires Position(args, host) == |args|
    ensures Add(args + Entry(host, targets), (host, peer)) == args + Entry(host, targets + [peer])
  {
    var last := args + [PingTargets(host, targets)];
    assert last[|args|].host == host;
    assert forall j :: 0 <= j < |args| ==> last[j] == args[j];
    assert Position(last, host) == |args|;
    if targets == [] {
      assert args + [] == args;
      assert WithEntry(args, host) == last;
    }
  }

  /** Grouping a flattened plan gives back the plan, without the hosts that have no peer. */
  lemma {:induction false} GroupPairs(plan: seq<PingTargets>)
    requires DistinctHosts(plan)
    ensures Group(Pairs(plan)) == NonEmpty(plan)
  {
    if plan != [] {
      var init, last := plan[..|plan| - 1], plan[|plan| - 1];
      GroupPairs(init);
      NonEmptyMembers(init);
      GroupRow(Pairs(init), last.host, last.targets);
    }
  }

  lemma {:induction false} PairsNonEmpty(args: seq<PingTargets>)
    ensures Pairs(NonEmpty(args)) == Pairs(args)
  {
    if args != [] {
      var init, last := args[..|args| - 1], args[|args| - 1];
      PairsNonEmpty(init);
      if last.targets != [] {
        assert (NonEmpty(init) + [last])[..|NonEmpty(init)|] == NonEmpty(init);
      }
    }
  }

  // ----- End to end ------------------------------------------------------------------------------

  /** The request the page sends. */
  method PingRequest(nodes: seq<Node>, edges: seq<Edge>, selectedHosts: seq<string>, selectedTargets: seq<string>)
    returns (args: seq<PingTargets>)
    requires NoDup(selectedHosts) && NoDup(selectedTargets)
    ensures args == Group(Pairs(Chosen(nodes, edges, selectedHosts, selectedTargets)))
  {
    FilterOnlineNoDup(nodes, selectedHosts);
    FilterOnlineNoDup(nodes, selectedTargets);
    var combinations := GetTargetedCombinations(
      FilterOnline(nodes, selectedHosts), FilterOnline(nodes, selectedTargets), edges);
    args := GroupByHost(combinations);
  }

  function Chosen(nodes: seq<Node>, edges: seq<Edge>, selectedHosts: seq<string>, selectedTargets: seq<string>): seq<PingTargets> {
    var hosts := FilterOnline(nodes, selectedHosts);
    Plan(hosts, hosts, FilterOnline(nodes, selectedTargets), edges)
  }

  /** (h, p) is to be pinged under this selection. */
  ghost predicate Wanted(nodes: seq<Node>, edges: seq<Edge>, selectedHosts: seq<string>, selectedTargets: seq<string>,
                         h: string, p: string)
  {
    && h in selectedHosts && IsOnline(nodes, h) && IsOnline(nodes, p) && HasEdge(edges, h, p)
    && (p in selectedTargets || (p in selectedHosts && p != h))
  }

  lemma {:induction false} ListedInPageOrder(nodes: seq<Node>, edges: seq<Edge>, selectedHosts: seq<string>,
                                             selectedTargets: seq<string>)
    ensures var listed := Pairs(Chosen(nodes, edges, selectedHosts, selectedTargets));
            forall j, k :: 0 <= j < k < |listed| ==>
              Precedes(selectedHosts, selectedTargets + selectedHosts, listed[j], listed[k])
  {
    var hosts, targets := FilterOnline(nodes, selectedHosts), FilterOnline(nodes, selectedTargets);
    var listed := Pairs(Chosen(nodes, edges, selectedHosts, selectedTargets));
    assert hosts[..|hosts|] == hosts;
    forall j, k | 0 <= j < k < |listed|
      ensures Precedes(selectedHosts, selectedTargets + selectedHosts, listed[j], listed[k])
    {
      PlanInOrder(|hosts|, hosts, targets, edges, j, k);
      if Before(hosts, listed[j].0, listed[k].0) {
        FilterOnlineInOrder(nodes, selectedHosts, listed[j].0, listed[k].0);
      } else {
        PeersInOrder(nodes, selectedHosts, selectedTargets, listed[j].1, listed[k].1);
      }
    }
  }

  lemma {:induction false} PeersInOrder(nodes: seq<Node>, selectedHosts: seq<string>, selectedTargets: seq<string>,
                                        x: string, y: string)
    requires Before(FilterOnline(nodes, selectedTargets) + FilterOnline(nodes, selectedHosts), x, y)
    ensures Before(selectedTargets + selectedHosts, x, y)
  {
    var hosts, targets := FilterOnline(nodes, selectedHosts), FilterOnline(nodes, selectedTargets);
    var n, all := |selectedTargets|, selectedTargets + selectedHosts;
    var a, b :| 0 <= a < b < |targets + hosts| && (targets + hosts)[a] == x && (targets + hosts)[b] == y;
    if b < |targets| {
      assert Before(targets, x, y);
      FilterOnlineInOrder(nodes, selectedTargets, x, y);
      var c, d :| 0 <= c < d < n && selectedTargets[c] == x && selectedTargets[d] == y;
      assert all[c] == x && all[d] == y;
    } else if a < |targets| {
      assert x in targets && y in hosts;
      var c, d :| 0 <= c < n && 0 <= d < |selectedHosts| && selectedTargets[c] == x && selectedHosts[d] == y;
      assert all[c] == x && all[n + d] == y;
    } else {
      assert hosts[a - |targets|] == x && hosts[b - |targets|] == y;
      FilterOnlineInOrder(nodes, selectedHosts, x, y);
      var c, d :| 0 <= c < d < |selectedHosts| && selectedHosts[c] == x && selectedHosts[d] == y;
      assert all[n + c] == x && all[n + d] == y;
    }
  }

  /** The server pings, in the order in which hosts and targets were selected and each once, exactly the
      wanted pairs; and whatever the schedule, its reply k is tagged with pair k. */
  lemma EachWantedPairPingedOnce(nodes: seq<Node>, edges: seq<Edge>, selectedHosts: seq<string>,
                                 selectedTargets: seq<string>, calls: nat -> Outcome<seq<string>>,
                                 es: seq<FanOut.Event>, response: seq<PingReply>)
    requires NoDup(selectedHosts) && NoDup(selectedTargets)
    requires var args := Group(Pairs(Chosen(nodes, edges, selectedHosts, selectedTargets)));
             Responds(PingPlans(Pairs(args), calls), es, response)
    ensures var listed := Pairs(Chosen(nodes, edges, selectedHosts, selectedTargets));
            && Pairs(Group(listed)) == listed
            && NoDup(listed)
            && (forall h, p :: (h, p) in listed <==> Wanted(nodes, edges, selectedHosts, selectedTargets, h, p))
            && |response| == |listed|
            && (forall k :: 0 <= k < |listed| ==> (response[k].host, response[k].target) == listed[k])
            && (forall j, k :: 0 <= j < k < |listed| ==>
                  Precedes(selectedHosts, selectedTargets + selectedHosts, listed[j], listed[k]))
  {
    ListedInPageOrder(nodes, edges, selectedHosts, selectedTargets);
    var chosen := Chosen(nodes, edges, selectedHosts, selectedTargets);
    FilterOnlineNoDup(nodes, selectedHosts);
    FilterOnlineNoDup(nodes, selectedTargets);
    CombinationsExact(FilterOnline(nodes, selectedHosts), FilterOnline(nodes, selectedTargets), edges);
    GroupPairs(chosen);
    PairsNonEmpty(chosen);
    PingRespondsInOrder(Group(Pairs(chosen)), calls, es);
    assert response == PingAnswers(Pairs(chosen), calls);
  }

  type Results = map<string, map<string, seq<string>>>

  predicate Filed(results: Results, h: string, p: string) {
    h in results && p in results[h]
  }

  function File(results: Results, r: PingReply): Results {
    var entered := if r.host in results then results else results[r.host := map[]];
    entered[r.host := entered[r.host][r.target := r.results]]
  }

  function Filing(response: seq<PingReply>): Results {
    if response == [] then map[] else File(Filing(response[..|response| - 1]), response[|response| - 1])
  }

  /** The page files each reply under its host and target. */
  method KeyBack(response: seq<PingReply>) returns (results: Results)
    ensures results == Filing(response)
  {
    results := map[];
    for n := 0 to |response|
      invariant results == Filing(response[..n])
    {
      var r := response[n];
      if r.host !in results {
        results := results[r.host := map[]];
      }
      results := results[r.host := results[r.host][r.target := r.results]];
      assert response[..n + 1][..n] == response[..n];
    }
    assert response[..|response|] == response;
  }

  lemma {:induction false} FilingKeys(response: seq<PingReply>, h: string, p: string)
    ensures Filed(Filing(response), h, p) <==>
              exists k :: 0 <= k < |response| && response[k].host == h && response[k].target == p
  {
    if response != [] {
      FilingKeys(response[..|response| - 1], h, p);
    }
  }

  /** When no two replies have the same tag, each is found under its own. */
  lemma {:induction false} FilingFinds(response: seq<PingReply>, k: nat)
    requires k < |response|
    requires forall i, j :: 0 <= i < j < |response| ==>
               (response[i].host, response[i].target) != (response[j].host, response[j].target)
    ensures Filed(Filing(response), response[k].host, response[k].target)
    ensures Filing(response)[response[k].host][response[k].target] == response[k].results
  {
    if k < |response| - 1 {
      FilingFinds(response[..|response| - 1], k);
    }
  }

  /** End to end, the page files under (h, p) what the one ping from h to p returned, an empty list if
      it failed, and files nothing else. */
  lemma RepliesFiledByPair(nodes: seq<Node>, edges: seq<Edge>, selectedHosts: seq<string>,
                           selectedTargets: seq<string>, calls: nat -> Outcome<seq<string>>,
                           es: seq<FanOut.Event>, response: seq<PingReply>, h: string, p: string)
    requires NoDup(selectedHosts) && NoDup(selectedTargets)
    requires var args := Group(Pairs(Chosen(nodes, edges, selectedHosts, selectedTargets)));
             Responds(PingPlans(Pairs(args), calls), es, response)
    ensures Filed(Filing(response), h, p) <==> Wanted(nodes, edges, selectedHosts, selectedTargets, h, p)
    ensures var listed := Pairs(Chosen(nodes, edges, selectedHosts, selectedTargets));
            forall k :: 0 <= k < |listed| && listed[k] == (h, p) ==>
              && Filed(Filing(response), h, p)
              && Filing(response)[h][p] == if calls(k).Decoded? then calls(k).value else []
  {
    EachWantedPairPingedOnce(nodes, edges, selectedHosts, selectedTargets, calls, es, response);
    var listed := Pairs(Chosen(nodes, edges, selectedHosts, selectedTargets));
    FilingKeys(response, h, p);
    if Wanted(nodes, edges, selectedHosts, selectedTargets, h, p) {
      assert (h, p) in listed;
      var k :| 0 <= k < |listed| && listed[k] == (h, p);
      assert response[k].host == h && response[k].target == p;
    }
    if k :| 0 <= k < |response| && response[k].host == h && response[k].target == p {
      assert listed[k] == (h, p);
    }
    forall k | 0 <= k < |listed| && listed[k] == (h, p)
      ensures Filed(Filing(response), h, p)
      ensures Filing(response)[h][p] == if calls(k).Decoded? then calls(k).value else []
    {
      FilingFinds(response, k);
      PingRepliesExact(Group(listed), calls, es, response, k);
    }
  }
}
