/** The peer graph as the web page sees it, and the hooks that filter it. */
module Graph {
  import opened Options

  /** `online` is None when the peer's data does not say. */
  datatype Node = Node(id: string, online: Option<bool>)

  datatype Edge = Edge(source: string, target: string)

  ghost predicate NoDup<T>(xs: seq<T>) {
    forall j, k :: 0 <= j < k < |xs| ==> xs[j] != xs[k]
  }

  predicate HasEdge(edges: seq<Edge>, source: string, target: string) {
    exists k :: 0 <= k < |edges| && edges[k].source == source && edges[k].target == target
  }

  /** Online unless the first node with this id says it is not. */
  predicate IsOnline(nodes: seq<Node>, id: string) {
    if nodes == [] then true
    else if nodes[0].id == id then nodes[0].online != Some(false)
    else IsOnline(nodes[1..], id)
  }

  /** A node says that the id is offline, and is the first with this id. */
  ghost predicate OfflineAt(nodes: seq<Node>, id: string, k: nat) {
    k < |nodes| && nodes[k] == Node(id, Some(false)) && forall j :: 0 <= j < k ==> nodes[j].id != id
  }

  lemma {:induction false} OfflineIff(nodes: seq<Node>, id: string)
    ensures !IsOnline(nodes, id) <==> exists k: nat :: OfflineAt(nodes, id, k)
  {
    if nodes != [] {
      OfflineIff(nodes[1..], id);
      if k: nat :| OfflineAt(nodes[1..], id, k) {
        if nodes[0].id != id {
          assert OfflineAt(nodes, id, k + 1);
        }
      }
      if nodes[0] == Node(id, Some(false)) {
        assert OfflineAt(nodes, id, 0);
      }
      if k: nat :| OfflineAt(nodes, id, k) && k > 0 {
        assert forall j :: 0 <= j < k - 1 ==> nodes[1..][j] == nodes[j + 1];
        assert OfflineAt(nodes[1..], id, k - 1);
      }
    }
  }

  function FilterOnline(nodes: seq<Node>, ids: seq<string>): (r: seq<string>)
    ensures forall id :: id in r <==> id in ids && IsOnline(nodes, id)
  {
    if ids == [] then []
    else
      var init, last := FilterOnline(nodes, ids[..|ids| - 1]), ids[|ids| - 1];
      if IsOnline(nodes, last) then init + [last] else init
  }

  lemma {:induction false} FilterOnlineNoDup(nodes: seq<Node>, ids: seq<string>)
    requires NoDup(ids)
    ensures NoDup(FilterOnline(nodes, ids))
  {
    if ids != [] {
      FilterOnlineNoDup(nodes, ids[..|ids| - 1]);
    }
  }

  /** `x` stands before `y` in the list. */
  ghost predicate Before<T>(order: seq<T>, x: T, y: T) {
    exists a, b :: 0 <= a < b < |order| && order[a] == x && order[b] == y
  }

  lemma {:induction false} BeforeSnoc<T>(init: seq<T>, last: T, x: T, y: T)
    requires Before(init, x, y) || (x in init && y == last)
    ensures Before(init + [last], x, y)
  {
    var order := init + [last];
    if Before(init, x, y) {
      var a, b :| 0 <= a < b < |init| && init[a] == x && init[b] == y;
      assert order[a] == x && order[b] == y;
    } else {
      var a :| 0 <= a < |init| && init[a] == x;
      assert order[a] == x && order[|init|] == y;
    }
  }

  /** Filtering keeps the order. */
  lemma {:induction false} FilterOnlineInOrder(nodes: seq<Node>, ids: seq<string>, x: string, y: string)
    requires Before(FilterOnline(nodes, ids), x, y)
    ensures Before(ids, x, y)
  {
    if ids != [] {
      var init, last := ids[..|ids| - 1], ids[|ids| - 1];
      var kept := FilterOnline(nodes, init);
      var a, b :| 0 <= a < b < |FilterOnline(nodes, ids)| && FilterOnline(nodes, ids)[a] == x && FilterOnline(nodes, ids)[b] == y;
      if b < |kept| {
        assert kept[a] == x && kept[b] == y;
        FilterOnlineInOrder(nodes, init, x, y);
      } else {
        assert kept[a] == x;
      }
      assert init + [last] == ids;
      BeforeSnoc(init, last, x, y);
    }
  }

  /** The nodes that are not hosts, in order. */
  function TargetNodes(nodes: seq<Node>, hosts: seq<string>): (r: seq<string>)
    ensures forall id :: id in r <==> id !in hosts && exists k :: 0 <= k < |nodes| && nodes[k].id == id
  {
    if nodes == [] then []
    else
      var init, last := TargetNodes(nodes[..|nodes| - 1], hosts), nodes[|nodes| - 1].id;
      if last !in hosts then init + [last] else init
  }

  predicate ReachedFrom(edges: seq<Edge>, selectedHosts: set<string>, target: string) {
    exists h :: h in selectedHosts && HasEdge(edges, h, target)
  }

  /** The targets with an edge from a selected host, without offline ones if they are hidden. */
  function Reachable(nodes: seq<Node>, targetNodes: seq<string>, edges: seq<Edge>,
                     selectedHosts: set<string>, hideOffline: bool): (r: seq<string>)
    ensures forall id :: id in r <==>
              id in targetNodes && ReachedFrom(edges, selectedHosts, id) && (hideOffline ==> IsOnline(nodes, id))
  {
    if targetNodes == [] then []
    else
      var init := Reachable(nodes, targetNodes[..|targetNodes| - 1], edges, selectedHosts, hideOffline);
      var last := targetNodes[|targetNodes| - 1];
      if ReachedFrom(edges, selectedHosts, last) && (hideOffline ==> IsOnline(nodes, last)) then init + [last] else init
  }

  /** The targets and the reachable ones are listed in the order of the nodes. */
  lemma {:induction false} TargetNodesInOrder(nodes: seq<Node>, hosts: seq<string>, i: nat, j: nat)
    requires i < j < |TargetNodes(nodes, hosts)|
    ensures exists a, b :: 0 <= a < b < |nodes| && nodes[a].id == TargetNodes(nodes, hosts)[i] &&
              nodes[b].id == TargetNodes(nodes, hosts)[j]
  {
    var n := |nodes| - 1;
    var kept := TargetNodes(nodes[..n], hosts);
    if j < |kept| {
      TargetNodesInOrder(nodes[..n], hosts, i, j);
      var a, b :| 0 <= a < b < n && nodes[..n][a].id == kept[i] && nodes[..n][b].id == kept[j];
      assert nodes[a].id == kept[i] && nodes[b].id == kept[j];
    } else {
      assert kept[i] in kept;
      var a :| 0 <= a < n && nodes[..n][a].id == kept[i];
      assert nodes[a].id == kept[i] && nodes[n].id == TargetNodes(nodes, hosts)[j];
    }
  }

  lemma {:induction false} ReachableInOrder(nodes: seq<Node>, targetNodes: seq<string>, edges: seq<Edge>,
                                            selectedHosts: set<string>, hideOffline: bool, i: nat, j: nat)
    requires i < j < |Reachable(nodes, targetNodes, edges, selectedHosts, hideOffline)|
    ensures var shown := Reachable(nodes, targetNodes, edges, selectedHosts, hideOffline);
            Before(targetNodes, shown[i], shown[j])
  {
    var init, last := targetNodes[..|targetNodes| - 1], targetNodes[|targetNodes| - 1];
    var kept := Reachable(nodes, init, edges, selectedHosts, hideOffline);
    var shown := Reachable(nodes, targetNodes, edges, selectedHosts, hideOffline);
    if j < |kept| {
      ReachableInOrder(nodes, init, edges, selectedHosts, hideOffline, i, j);
    } else {
      assert kept[i] in kept;
    }
    assert init + [last] == targetNodes;
    BeforeSnoc(init, last, shown[i], shown[j]);
  }

  ghost predicate DistinctIds(nodes: seq<Node>) {
    forall j, k :: 0 <= j < k < |nodes| ==> nodes[j].id != nodes[k].id
  }

  lemma {:induction false} TargetNodesNoDup(nodes: seq<Node>, hosts: seq<string>)
    requires DistinctIds(nodes)
    ensures NoDup(TargetNodes(nodes, hosts))
  {
    if nodes != [] {
      TargetNodesNoDup(nodes[..|nodes| - 1], hosts);
    }
  }

  lemma {:induction false} ReachableNoDup(nodes: seq<Node>, targetNodes: seq<string>, edges: seq<Edge>,
                                          selectedHosts: set<string>, hideOffline: bool)
    requires NoDup(targetNodes)
    ensures NoDup(Reachable(nodes, targetNodes, edges, selectedHosts, hideOffline))
  {
    if targetNodes != [] {
      ReachableNoDup(nodes, targetNodes[..|targetNodes| - 1], edges, selectedHosts, hideOffline);
    }
  }
}
