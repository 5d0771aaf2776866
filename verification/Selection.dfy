/**
 The selection of hosts and targets on the web page: the user's actions, and the effects that
 run after a render in which something they depend on has changed.
 */
module Selection {
  import opened Options
  import opened Graph

  datatype Page = Page(nodes: seq<Node>, hosts: seq<string>, edges: seq<Edge>,
                       selectedHosts: set<string>, selectedTargets: set<string>, hideOffline: bool)

  function Fresh(): Page {
    Page([], [], [], {}, {}, true)
  }

  function Ids(xs: seq<string>): set<string> {
    set id | id in xs
  }

  function Targets(p: Page): seq<string> {
    TargetNodes(p.nodes, p.hosts)
  }

  function ReachableTargets(p: Page): seq<string> {
    Reachable(p.nodes, Targets(p), p.edges, p.selectedHosts, p.hideOffline)
  }

  // ----- Effects -------------------------------------------------------------------------

  /** Depends on the nodes, the hosts and the offline setting: selects every target. */
  function SelectDefaults(p: Page): Page {
    if p.nodes == [] || p.hosts == [] then p
    else p.(selectedTargets := set t | t in Targets(p) && (p.hideOffline ==> IsOnline(p.nodes, t)))
  }

  /** Depends on the nodes and the offline setting: deselects offline targets when hidden. */
  function DeselectOffline(p: Page): Page {
    if p.hideOffline then p.(selectedTargets := set t | t in p.selectedTargets && IsOnline(p.nodes, t)) else p
  }

  /** Depends on the reachable targets: deselects the others. */
  function DropUnreachable(p: Page): Page {
    p.(selectedTargets := set t | t in p.selectedTargets && t in ReachableTargets(p))
  }

  // ----- Actions -------------------------------------------------------------------------

  datatype Action =
    | Loaded(nodes: seq<Node>, hosts: seq<string>, edges: seq<Edge>)
    | LoadThrew(hosts: seq<string>)
    | LoadFailed
    | ToggleHost(host: string)
    | ToggleAllHosts
    | FilterToHost(host: string)
    | ToggleTarget(target: string)
    | ToggleAllTargets
    | ToggleHideOffline
    | Reset

  /** What a load does. A fetched node is None when it has no data, and then transforming it throws,
      after the hosts have been set. */
  function Outcome(fetched: Option<(seq<Option<Node>>, seq<string>, seq<Edge>)>): Action {
    match fetched
    case None => LoadFailed
    case Some((nodes, hosts, edges)) =>
      if None in nodes then LoadThrew(hosts)
      else Loaded(seq(|nodes|, k requires 0 <= k < |nodes| && nodes[k].Some? => nodes[k].value), hosts, edges)
  }

  /** The page only offers hosts it lists and targets it can reach. */
  predicate Offered(p: Page, a: Action) {
    match a
    case ToggleHost(h) => h in p.hosts
    case FilterToHost(h) => h in p.hosts
    case ToggleTarget(t) => t in ReachableTargets(p)
    case _ => true
  }

  function Toggled(s: set<string>, x: string): set<string> {
    if x in s then s - {x} else s + {x}
  }

  /** An action and the effects its changes set off. A new set of selected hosts is a new list of
      reachable targets even when it has the same elements; a target's toggle sets off nothing. */
  function Act(p: Page, a: Action): Page {
    match a
    case Loaded(nodes, hosts, edges) =>
      DropUnreachable(DeselectOffline(SelectDefaults(
        p.(nodes := nodes, hosts := hosts, edges := edges, selectedHosts := Ids(hosts)))))
    case LoadThrew(hosts) => DropUnreachable(SelectDefaults(p.(hosts := hosts, selectedHosts := Ids(hosts))))
    case LoadFailed => p
    case ToggleHost(h) => DropUnreachable(p.(selectedHosts := Toggled(p.selectedHosts, h)))
    case ToggleAllHosts =>
      DropUnreachable(p.(selectedHosts := if |p.selectedHosts| == |p.hosts| then {} else Ids(p.hosts)))
    case FilterToHost(h) => DropUnreachable(p.(selectedHosts := {h}))
    case ToggleTarget(t) => p.(selectedTargets := Toggled(p.selectedTargets, t))
    case ToggleAllTargets =>
      p.(selectedTargets := if |p.selectedTargets| == |ReachableTargets(p)| then {} else Ids(ReachableTargets(p)))
    case ToggleHideOffline => DropUnreachable(DeselectOffline(SelectDefaults(p.(hideOffline := !p.hideOffline))))
    case Reset => DropUnreachable(p.(selectedHosts := Ids(p.hosts), selectedTargets := Ids(Targets(p))))
  }

  method Intersect(selected: set<string>, reachable: seq<string>) returns (kept: set<string>)
    ensures kept == set t | t in selected && t in reachable
  {
    var rest := selected;
    kept := {};
    while rest != {}
      invariant rest <= selected
      invariant kept == set t | t in selected && t !in rest && t in reachable
      decreases rest
    {
      var t :| t in rest;
      rest := rest - {t};
      if t in reachable {
        kept := kept + {t};
      }
    }
  }

  // ----- The page object --------------------------------------------------------------------

  class SelectionPage {
    var nodes: seq<Node>
    var hosts: seq<string>
    var edges: seq<Edge>
    var selectedHosts: set<string>
    var selectedTargets: set<string>
    var hideOffline: bool

    constructor ()
      ensures State() == Fresh()
    {
      nodes, hosts, edges := [], [], [];
      selectedHosts, selectedTargets, hideOffline := {}, {}, true;
    }

    ghost function State(): Page
      reads this
    {
      Page(nodes, hosts, edges, selectedHosts, selectedTargets, hideOffline)
    }

    method RunSelectDefaults()
      modifies this`selectedTargets
      ensures State() == SelectDefaults(old(State()))
    {
      if nodes != [] && hosts != [] {
        var targets := TargetNodes(nodes, hosts);
        var chosen: set<string> := {};
        for k := 0 to |targets|
          invariant chosen == set t | t in targets[..k] && (hideOffline ==> IsOnline(nodes, t))
        {
          assert targets[..k + 1] == targets[..k] + [targets[k]];
          if hideOffline ==> IsOnline(nodes, targets[k]) {
            chosen := chosen + {targets[k]};
          }
        }
        assert targets[..|targets|] == targets;
        selectedTargets := chosen;
      }
    }

    method RunDeselectOffline()
      modifies this`selectedTargets
      ensures State() == DeselectOffline(old(State()))
    {
      if hideOffline {
        var kept, rest := selectedTargets, selectedTargets;
        while rest != {}
          invariant rest <= selectedTargets
          invariant kept == set t | t in selectedTargets && (t in rest || IsOnline(nodes, t))
          decreases rest
        {
          var t :| t in rest;
          rest := rest - {t};
          if !IsOnline(nodes, t) {
            kept := kept - {t};
          }
        }
        selectedTargets := kept;
      }
    }

    /** Builds the new set element by element, and replaces the old one only if the sizes differ. */
    method RunDropUnreachable()
      modifies this`selectedTargets
      ensures State() == DropUnreachable(old(State()))
    {
      var reachable := Reachable(nodes, TargetNodes(nodes, hosts), edges, selectedHosts, hideOffline);
      var kept := Intersect(selectedTargets, reachable);
      if |kept| != |selectedTargets| {
        selectedTargets := kept;
      } else {
        SameSize(kept, selectedTargets);
      }
    }

    method Load(fetched: Option<(seq<Option<Node>>, seq<string>, seq<Edge>)>)
      modifies this
      ensures State() == Act(old(State()), Outcome(fetched))
    {
      if fetched.None? {
        return;
      }
      var raw := fetched.value.0;
      hosts := fetched.value.1;
      selectedHosts := Ids(hosts);
      var transformed: seq<Node> := [];
      for k := 0 to |raw|
        invariant |transformed| == k && forall i :: 0 <= i < k ==> raw[i] == Some(transformed[i])
      {
        if raw[k].None? {
          RunSelectDefaults();
          RunDropUnreachable();
          return;
        }
        transformed := transformed + [raw[k].value];
      }
      nodes, edges := transformed, fetched.value.2;
      assert Outcome(fetched) == Loaded(nodes, hosts, edges);
      RunSelectDefaults();
      RunDeselectOffline();
      RunDropUnreachable();
    }

    method DoToggleHost(h: string)
      modifies this`selectedHosts, this`selectedTargets
      ensures State() == Act(old(State()), ToggleHost(h))
    {
      if h in selectedHosts {
        selectedHosts := selectedHosts - {h};
      } else {
        selectedHosts := selectedHosts + {h};
      }
      RunDropUnreachable();
    }

    method DoToggleAllHosts()
      modifies this`selectedHosts, this`selectedTargets
      ensures State() == Act(old(State()), ToggleAllHosts)
      ensures selectedHosts == if |old(selectedHosts)| == |hosts| then {} else Ids(hosts)
    {
      if |selectedHosts| == |hosts| {
        selectedHosts := {};
      } else {
        selectedHosts := Ids(hosts);
      }
      RunDropUnreachable();
    }

    method DoFilterToHost(h: string)
      modifies this`selectedHosts, this`selectedTargets
      ensures State() == Act(old(State()), FilterToHost(h))
    {
      selectedHosts := {h};
      RunDropUnreachable();
    }

    method DoToggleTarget(t: string)
      modifies this`selectedTargets
      ensures State() == Act(old(State()), ToggleTarget(t))
    {
      if t in selectedTargets {
        selectedTargets := selectedTargets - {t};
      } else {
        selectedTargets := selectedTargets + {t};
      }
    }

    method DoToggleAllTargets()
      modifies this`selectedTargets
      ensures State() == Act(old(State()), ToggleAllTargets)
      ensures selectedTargets == if |old(selectedTargets)| == |ReachableTargets(old(State()))| then {}
                                 else Ids(ReachableTargets(old(State())))
    {
      var reachable := Reachable(nodes, TargetNodes(nodes, hosts), edges, selectedHosts, hideOffline);
      if |selectedTargets| == |reachable| {
        selectedTargets := {};
      } else {
        selectedTargets := Ids(reachable);
      }
    }

    method DoToggleHideOffline()
      modifies this`hideOffline, this`selectedTargets
      ensures State() == Act(old(State()), ToggleHideOffline)
    {
      hideOffline := !hideOffline;
      RunSelectDefaults();
      RunDeselectOffline();
      RunDropUnreachable();
    }

    method DoReset()
      modifies this`selectedHosts, this`selectedTargets
      ensures State() == Act(old(State()), Reset)
    {
      selectedHosts, selectedTargets := Ids(hosts), Ids(TargetNodes(nodes, hosts));
      RunDropUnreachable();
    }
  }

  lemma {:induction false} SameSize(small: set<string>, big: set<string>)
    requires small <= big && |small| == |big|
    ensures small == big
  {
    if exists x :: x in big && x !in small {
      var x :| x in big && x !in small;
      assert small <= big - {x};
      SubsetSize(small, big - {x});
    }
  }

  lemma {:induction false} SubsetSize(small: set<string>, big: set<string>)
    requires small <= big
    ensures |small| <= |big|
    decreases |big|
  {
    if small != {} {
      var x :| x in small;
      SubsetSize(small - {x}, big - {x});
    }
  }

  // ----- The selection stays within what is shown ----------------------------------------------

  predicate Within(p: Page) {
    p.selectedHosts <= Ids(p.hosts) && p.selectedTargets <= Ids(ReachableTargets(p))
  }

  ghost predicate Runs(p: Page, run: seq<Action>)
    decreases |run|
  {
    run != [] ==> Offered(p, run[0]) && Runs(Act(p, run[0]), run[1..])
  }

  function Exec(p: Page, run: seq<Action>): Page
    decreases |run|
  {
    if run == [] then p else Exec(Act(p, run[0]), run[1..])
  }

  lemma {:induction false} DropIsWithin(p: Page)
    requires p.selectedHosts <= Ids(p.hosts)
    ensures Within(DropUnreachable(p))
  {}

  lemma {:induction false} WithinStep(p: Page, a: Action)
    requires Within(p) && Offered(p, a)
    ensures Within(Act(p, a))
  {
    match a
    case Loaded(nodes, hosts, edges) =>
      DropIsWithin(DeselectOffline(SelectDefaults(
        p.(nodes := nodes, hosts := hosts, edges := edges, selectedHosts := Ids(hosts)))));
    case LoadThrew(hosts) => DropIsWithin(SelectDefaults(p.(hosts := hosts, selectedHosts := Ids(hosts))));
    case LoadFailed =>
    case ToggleHost(h) => DropIsWithin(p.(selectedHosts := Toggled(p.selectedHosts, h)));
    case ToggleAllHosts =>
      DropIsWithin(p.(selectedHosts := if |p.selectedHosts| == |p.hosts| then {} else Ids(p.hosts)));
    case FilterToHost(h) => DropIsWithin(p.(selectedHosts := {h}));
    case ToggleTarget(t) => assert ReachableTargets(Act(p, a)) == ReachableTargets(p);
    case ToggleAllTargets => assert ReachableTargets(Act(p, a)) == ReachableTargets(p);
    case ToggleHideOffline => DropIsWithin(DeselectOffline(SelectDefaults(p.(hideOffline := !p.hideOffline))));
    case Reset => DropIsWithin(p.(selectedHosts := Ids(p.hosts), selectedTargets := Ids(Targets(p))));
  }

  /** After any sequence of offered actions, only listed hosts and reachable targets are selected. */
  lemma {:induction false} SelectionStaysWithin(p: Page, run: seq<Action>)
    requires Within(p) && Runs(p, run)
    ensures Within(Exec(p, run))
    decreases |run|
  {
    if run != [] {
      WithinStep(p, run[0]);
      SelectionStaysWithin(Act(p, run[0]), run[1..]);
    }
  }

  // ----- The size comparisons ---------------------------------------------------------------------

  lemma {:induction false} IdsSize(xs: seq<string>)
    ensures |Ids(xs)| <= |xs|
    ensures |Ids(xs)| == |xs| <==> NoDup(xs)
  {
    if xs != [] {
      var init, last := xs[..|xs| - 1], xs[|xs| - 1];
      IdsSize(init);
      assert Ids(xs) == Ids(init) + {last};
      if last in init {
        var k :| 0 <= k < |init| && init[k] == last;
        assert xs[k] == xs[|xs| - 1];
        assert Ids(xs) == Ids(init);
      } else {
        NoDupSnoc(xs);
      }
    } else {
      assert Ids(xs) == {};
    }
  }

  lemma {:induction false} NoDupSnoc(xs: seq<string>)
    requires xs != [] && xs[|xs| - 1] !in xs[..|xs| - 1]
    ensures NoDup(xs) <==> NoDup(xs[..|xs| - 1])
  {
    var init := xs[..|xs| - 1];
    if NoDup(init) {
      forall j, k | 0 <= j < k < |xs| ensures xs[j] != xs[k] {
        assert xs[j] == init[j];
        if k < |xs| - 1 {
          assert xs[k] == init[k];
        }
      }
    }
  }

  /** Among listed ids, the selection is as long as the list exactly when the list has no repeats
      and all of it is selected. */
  lemma {:induction false} SizeMeansAll(selected: set<string>, xs: seq<string>)
    requires selected <= Ids(xs)
    ensures |selected| == |xs| <==> NoDup(xs) && selected == Ids(xs)
  {
    IdsSize(xs);
    SubsetSize(selected, Ids(xs));
    if |selected| == |xs| {
      SameSize(selected, Ids(xs));
    }
  }

  /** In every reachable state, when the backend lists each host and each node once, the toggles
      deselect everything if everything is selected, and otherwise select everything. */
  lemma {:induction false} ToggleAllIsExact(run: seq<Action>)
    requires Runs(Fresh(), run)
    requires NoDup(Exec(Fresh(), run).hosts) && DistinctIds(Exec(Fresh(), run).nodes)
    ensures var p := Exec(Fresh(), run);
            && (|p.selectedHosts| == |p.hosts| <==> p.selectedHosts == Ids(p.hosts))
            && (|p.selectedTargets| == |ReachableTargets(p)| <==> p.selectedTargets == Ids(ReachableTargets(p)))
            && Act(p, ToggleAllHosts).selectedHosts == (if p.selectedHosts == Ids(p.hosts) then {} else Ids(p.hosts))
            && Act(p, ToggleAllTargets).selectedTargets ==
                 (if p.selectedTargets == Ids(ReachableTargets(p)) then {} else Ids(ReachableTargets(p)))
  {
    var p := Exec(Fresh(), run);
    SelectionStaysWithin(Fresh(), run);
    SizeMeansAll(p.selectedHosts, p.hosts);
    TargetNodesNoDup(p.nodes, p.hosts);
    ReachableNoDup(p.nodes, Targets(p), p.edges, p.selectedHosts, p.hideOffline);
    SizeMeansAll(p.selectedTargets, ReachableTargets(p));
  }

  /** Whatever is listed, the toggles deselect by the sizes, and change nothing but the selection. */
  lemma {:induction false} ToggleAllBySize(p: Page)
    requires Within(p)
    ensures var q := Act(p, ToggleAllHosts);
            && q == p.(selectedHosts := q.selectedHosts, selectedTargets := q.selectedTargets)
            && (|p.selectedHosts| == |p.hosts| ==> q.selectedHosts == {} && q.selectedTargets == {})
            && (|p.selectedHosts| != |p.hosts| ==>
                  && q.selectedHosts == Ids(p.hosts)
                  && q.selectedTargets == p.selectedTargets)
    ensures var q := Act(p, ToggleAllTargets);
            && q == p.(selectedTargets := q.selectedTargets)
            && (|p.selectedTargets| == |ReachableTargets(p)| ==> q.selectedTargets == {})
            && (|p.selectedTargets| != |ReachableTargets(p)| ==> q.selectedTargets == Ids(ReachableTargets(p)))
  {
    if |p.selectedHosts| != |p.hosts| {
      var f := p.(selectedHosts := Ids(p.hosts));
      forall t | t in p.selectedTargets
        ensures t in ReachableTargets(f)
      {
        assert t in ReachableTargets(p);
      }
    }
  }

  /** A host listed twice makes the toggle select everything, always. */
  lemma {:induction false} RepeatedHostNeverClears(p: Page)
    requires Within(p) && !NoDup(p.hosts)
    ensures Act(p, ToggleAllHosts).selectedHosts == Ids(p.hosts)
  {
    SizeMeansAll(p.selectedHosts, p.hosts);
  }

  // ----- What the effects do to the user's choice --------------------------------------------------

  lemma {:induction false} NothingReachable(p: Page)
    requires Within(p) && (p.nodes == [] || p.hosts == [])
    ensures Ids(ReachableTargets(p)) == {}
  {
    if p.hosts == [] {
      assert p.selectedHosts == {};
    }
  }

  /** Changing the offline setting throws the user's choice away: exactly the reachable targets
      are selected afterwards. */
  lemma {:induction false} HideOfflineReselectsAll(p: Page)
    requires Within(p)
    ensures var q := Act(p, ToggleHideOffline);
            && q == p.(hideOffline := !p.hideOffline, selectedTargets := q.selectedTargets)
            && q.selectedTargets == Ids(ReachableTargets(q))
  {
    var f := p.(hideOffline := !p.hideOffline);
    var q := Act(p, ToggleHideOffline);
    assert ReachableTargets(q) == ReachableTargets(f);
    if p.nodes == [] || p.hosts == [] {
      NothingReachable(f.(selectedTargets := {}));
      assert ReachableTargets(f) == ReachableTargets(f.(selectedTargets := {}));
    }
  }

  /** Loading selects every host and exactly the reachable targets; a load that throws has done so for
      the new hosts over the old graph; one that is refused has done nothing. */
  lemma {:induction false} LoadingSelectsAll(p: Page, a: Action)
    requires a.Loaded? || a.LoadThrew? || a.LoadFailed?
    ensures var q := Act(p, a);
            && (a.LoadFailed? ==> q == p)
            && (a.Loaded? ==> q.nodes == a.nodes && q.edges == a.edges)
            && (a.LoadThrew? ==> q.nodes == p.nodes && q.edges == p.edges)
            && q.hideOffline == p.hideOffline
            && (!a.LoadFailed? ==>
                  && q.hosts == a.hosts && q.selectedHosts == Ids(a.hosts)
                  && q.selectedTargets == Ids(ReachableTargets(q)))
  {
    if !a.LoadFailed? {
      var f := p.(nodes := if a.Loaded? then a.nodes else p.nodes, edges := if a.Loaded? then a.edges else p.edges,
                  hosts := a.hosts, selectedHosts := Ids(a.hosts));
      assert ReachableTargets(Act(p, a)) == ReachableTargets(f);
      if f.nodes == [] || f.hosts == [] {
        NothingReachable(f.(selectedTargets := {}));
        assert ReachableTargets(f) == ReachableTargets(f.(selectedTargets := {}));
      }
    }
  }

  // ----- What each choice of the user does -------------------------------------------------------------

  /** What each effect does to one target; and when both of the first two run, the second has nothing left to
      deselect. */
  lemma {:induction false} EffectsExact(p: Page, t: string)
    ensures var q := SelectDefaults(p);
            && q == p.(selectedTargets := q.selectedTargets)
            && (t in q.selectedTargets <==>
                  if p.nodes == [] || p.hosts == [] then t in p.selectedTargets
                  else t !in p.hosts && (exists k :: 0 <= k < |p.nodes| && p.nodes[k].id == t)
                       && (p.hideOffline ==> IsOnline(p.nodes, t)))
    ensures var q := DeselectOffline(p);
            && q == p.(selectedTargets := q.selectedTargets)
            && (t in q.selectedTargets <==> t in p.selectedTargets && (p.hideOffline ==> IsOnline(p.nodes, t)))
    ensures p.nodes != [] && p.hosts != [] ==> DeselectOffline(SelectDefaults(p)) == SelectDefaults(p)
  {
    var q := SelectDefaults(p);
    if p.nodes != [] && p.hosts != [] {
      assert DeselectOffline(q).selectedTargets == q.selectedTargets;
    }
  }

  /** A load is refused, or throws exactly if some fetched node has no data, or is the graph fetched. */
  lemma {:induction false} OutcomeExact(fetched: Option<(seq<Option<Node>>, seq<string>, seq<Edge>)>)
    ensures match Outcome(fetched)
            case LoadFailed => fetched == None
            case LoadThrew(hosts) =>
              && fetched.Some? && hosts == fetched.value.1
              && exists k :: 0 <= k < |fetched.value.0| && fetched.value.0[k] == None
            case Loaded(nodes, hosts, edges) =>
              && fetched.Some? && hosts == fetched.value.1 && edges == fetched.value.2
              && |nodes| == |fetched.value.0|
              && forall k :: 0 <= k < |nodes| ==> fetched.value.0[k] == Some(nodes[k])
            case _ => false
  {}

  /** Choosing hosts changes nothing but the hosts chosen, and drops of the selected targets exactly those
      that are no longer reachable. */
  lemma {:induction false} HostChoiceExact(p: Page, a: Action)
    requires a.ToggleHost? || a.FilterToHost?
    ensures var q := Act(p, a);
            && q == p.(selectedHosts := q.selectedHosts, selectedTargets := q.selectedTargets)
            && (forall x :: x in q.selectedHosts <==> if a.ToggleHost? then (x in p.selectedHosts) != (x == a.host) else x == a.host)
            && (forall t :: t in q.selectedTargets <==> t in p.selectedTargets && t in ReachableTargets(q))
  {
    var q := Act(p, a);
    assert ReachableTargets(q) == ReachableTargets(p.(selectedHosts := q.selectedHosts));
  }

  /** Choosing a target changes nothing else; a reset selects all hosts and exactly the reachable targets. */
  lemma {:induction false} TargetChoiceExact(p: Page, a: Action)
    requires a.ToggleTarget? || a.Reset?
    ensures var q := Act(p, a);
            && q == p.(selectedHosts := q.selectedHosts, selectedTargets := q.selectedTargets)
            && (a.ToggleTarget? ==>
                  && q.selectedHosts == p.selectedHosts
                  && forall t :: t in q.selectedTargets <==> (t in p.selectedTargets) != (t == a.target))
            && (a.Reset? ==> q.selectedHosts == Ids(p.hosts) && q.selectedTargets == Ids(ReachableTargets(q)))
  {
    if a.Reset? {
      assert ReachableTargets(Act(p, a)) == ReachableTargets(p.(selectedHosts := Ids(p.hosts)));
    }
  }

  /** Toggling a host twice restores the hosts; an unselected host costs nothing, a selected one
      costs exactly the targets that no other selected host reaches. */
  lemma {:induction false} ToggleHostTwice(p: Page, h: string)
    requires Within(p)
    ensures var q := Act(Act(p, ToggleHost(h)), ToggleHost(h));
            && q == p.(selectedTargets := q.selectedTargets)
            && q.selectedTargets == set t | t in p.selectedTargets
                && (h in p.selectedHosts ==> ReachedFrom(p.edges, p.selectedHosts - {h}, t))
  {}
}
