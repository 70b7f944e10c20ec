/** The sort of proxy groups by what they refer to, in the array they came in. The nodes of
    the source's graph are reached only through its map, so here they are values in it. The
    order in which a map is walked is arbitrary. */
module DagSort {
  import opened Options
  import opened DagSpec

  datatype Node<M> = Node(indegree: int, data: Option<M>, option: Option<Group>, outdegree: int, from: seq<Name>)

  /** The group of a name and its raw form, if there is one. */
  ghost function Label<M>(groups: seq<Group>, configs: seq<M>, x: Name): (Option<Group>, Option<M>)
    requires |configs| == |groups|
  {
    var i := IndexOf(groups, x);
    if i < |groups| then (Some(groups[i]), Some(configs[i])) else (None, None)
  }

  /** Every node knows its group and its raw form, if its name is a group's. */
  ghost predicate Labelled<M>(graph: map<Name, Node<M>>, groups: seq<Group>, configs: seq<M>) {
    && |configs| == |groups|
    && forall x :: x in graph ==> (graph[x].option, graph[x].data) == Label(groups, configs, x)
  }

  /** Indegrees count the references from the groups still in the graph, and everything those
      refer to is still in the graph. */
  ghost predicate Counted<M>(graph: map<Name, Node<M>>, groups: seq<Group>) {
    && (forall x :: x in graph ==> graph[x].indegree == InCount(groups, graph.Keys, x))
    && (forall x :: x !in graph ==> InCount(groups, graph.Keys, x) == 0)
  }

  /** The queue holds, once each, the nodes nothing in the graph refers to. */
  ghost predicate Queued<M>(graph: map<Name, Node<M>>, queue: seq<Name>) {
    forall x {:trigger multiset(queue)[x]} :: multiset(queue)[x] == if x in graph && graph[x].indegree == 0 then 1 else 0
  }

  /** Forget one reference; a node nothing refers to any more joins the queue. */
  method Decrement<M>(graph: map<Name, Node<M>>, queue: seq<Name>, proxy: Name)
      returns (graph': map<Name, Node<M>>, queue': seq<Name>)
    requires proxy in graph && graph[proxy].indegree >= 1 && Queued(graph, queue)
    ensures graph' == graph[proxy := graph[proxy].(indegree := graph[proxy].indegree - 1)]
    ensures Queued(graph', queue') && |queue| <= |queue'| && (queue != [] ==> queue'[0] == queue[0])
  {
    var child := graph[proxy];
    graph' := graph[proxy := child.(indegree := child.indegree - 1)];
    queue' := if graph'[proxy].indegree == 0 then queue + [proxy] else queue;
  }

  /** The graph without some references. */
  ghost function Lowered<M>(graph: map<Name, Node<M>>, refs: multiset<Name>): map<Name, Node<M>> {
    map x | x in graph :: graph[x].(indegree := graph[x].indegree - refs[x])
  }

  lemma LoweredOne<M>(graph: map<Name, Node<M>>, refs: multiset<Name>, refs': multiset<Name>, proxy: Name)
    requires proxy in graph && forall x :: refs'[x] == if x == proxy then refs[x] + 1 else refs[x]
    ensures var low := Lowered(graph, refs);
      Lowered(graph, refs') == low[proxy := low[proxy].(indegree := low[proxy].indegree - 1)]
  {
  }

  /** A graph can lose the references a group makes: it counts at least as many. */
  ghost predicate CanRelease<M>(graph: map<Name, Node<M>>, proxies: seq<Name>) {
    forall j :: 0 <= j < |proxies| ==> proxies[j] in graph && graph[proxies[j]].indegree >= multiset(proxies)[proxies[j]]
  }

  /** Forget one group's references, each as often as the group lists it. */
  method Release<M>(graph: map<Name, Node<M>>, queue: seq<Name>, proxies: seq<Name>)
      returns (graph': map<Name, Node<M>>, queue': seq<Name>)
    requires CanRelease(graph, proxies) && Queued(graph, queue)
    ensures graph' == Lowered(graph, multiset(proxies))
    ensures Queued(graph', queue') && |queue| <= |queue'| && (queue != [] ==> queue'[0] == queue[0])
  {
    graph', queue' := graph, queue;
    ghost var seen: multiset<Name> := multiset{};
    for j := 0 to |proxies|
      invariant seen == Prefix(proxies, j) && graph' == Lowered(graph, seen)
      invariant Queued(graph', queue') && |queue| <= |queue'| && (queue != [] ==> queue'[0] == queue[0])
    {
      ghost var seen' := PrefixCount(proxies, j, seen);
      LoweredOne(graph, seen, seen', proxies[j]);
      graph', queue' := Decrement(graph', queue', proxies[j]);
      seen := seen';
    }
    WholePrefix(proxies);
  }

  /** The first j elements of a list, as often as each occurs. */
  ghost function Prefix(s: seq<Name>, j: nat): multiset<Name>
    requires j <= |s|
  {
    if j == 0 then multiset{} else Prefix(s, j - 1) + multiset{s[j - 1]}
  }

  lemma {:induction false} PrefixIs(s: seq<Name>, j: nat)
    requires j <= |s|
    ensures Prefix(s, j) == multiset(s[..j])
  {
    if j > 0 {
      PrefixIs(s, j - 1);
      assert s[..j] == s[..j - 1] + [s[j - 1]];
    }
  }

  lemma PrefixCount(s: seq<Name>, j: nat, seen: multiset<Name>) returns (seen': multiset<Name>)
    requires j < |s| && seen == Prefix(s, j)
    ensures seen' == Prefix(s, j + 1) && seen[s[j]] < multiset(s)[s[j]]
    ensures forall x :: seen'[x] == if x == s[j] then seen[x] + 1 else seen[x]
  {
    seen' := seen + multiset{s[j]};
    PrefixIs(s, j + 1);
    assert s == s[..j + 1] + s[j + 1..];
  }

  lemma WholePrefix(s: seq<Name>)
    ensures Prefix(s, |s|) == multiset(s)
  {
    PrefixIs(s, |s|);
    assert s[..|s|] == s;
  }

  // ------------------------------------------------------------- one step of the sort

  /** A node nothing refers to leaves the graph, its own references having been forgotten. */
  lemma LeaveCounted<M>(graph: map<Name, Node<M>>, mid: map<Name, Node<M>>, groups: seq<Group>, name: Name)
    requires Distinct(groups) && Counted(graph, groups) && name in graph && graph[name].indegree == 0
    requires var i := IndexOf(groups, name);
      mid == if i < |groups| then Lowered(graph, multiset(groups[i].proxies)) else graph
    ensures Counted(mid - {name}, groups)
  {
    var i := IndexOf(groups, name);
    forall x
      ensures InCount(groups, graph.Keys, x) ==
              InCount(groups, graph.Keys - {name}, x) + if i < |groups| then multiset(groups[i].proxies)[x] else 0
    {
      if i < |groups| {
        CountWithout(groups, graph.Keys, i, x);
      } else {
        CountOthers(groups, graph.Keys, name, x);
      }
    }
    assert (mid - {name}).Keys == graph.Keys - {name};
  }

  /** The first of the queue leaves the graph and the queue. */
  lemma LeaveQueued<M>(graph: map<Name, Node<M>>, queue: seq<Name>)
    requires Queued(graph, queue) && queue != []
    ensures queue[0] in graph && graph[queue[0]].indegree == 0
    ensures Queued(graph - {queue[0]}, queue[1..])
  {
    var name := queue[0];
    assert queue == [name] + queue[1..];
    assert multiset(queue)[name] >= 1;
    forall x
      ensures multiset(queue[1..])[x] == if x in graph - {name} && (graph - {name})[x].indegree == 0 then 1 else 0
    {
      assert multiset(queue)[x] == (if x == name then 1 else 0) + multiset(queue[1..])[x];
    }
  }

  /** What a group in the graph lists is in the graph, and listed no more often than counted. */
  lemma ListedIsCounted<M>(graph: map<Name, Node<M>>, groups: seq<Group>, name: Name)
    requires Distinct(groups) && Counted(graph, groups) && name in graph && IndexOf(groups, name) < |groups|
    ensures CanRelease(graph, groups[IndexOf(groups, name)].proxies)
  {
    var i := IndexOf(groups, name);
    var proxies := groups[i].proxies;
    forall j | 0 <= j < |proxies|
      ensures proxies[j] in graph && graph[proxies[j]].indegree >= multiset(proxies)[proxies[j]]
    {
      CountWithout(groups, graph.Keys, i, proxies[j]);
      assert proxies[j] in multiset(proxies);
    }
  }

  // ------------------------------------------------------------- the order written

  /** The groups in the order they left the graph, by index: each left once, before any
      group it lists. */
  ghost predicate Ordered(groups: seq<Group>, order: seq<nat>) {
    && (forall k :: 0 <= k < |order| ==> order[k] < |groups|)
    && (forall k, l :: 0 <= k < l < |order| ==> order[k] != order[l])
    && (forall k, l :: 0 <= l <= k < |order| ==> groups[order[l]].name !in groups[order[k]].proxies)
  }

  /** The groups in the order are those no longer in the graph. */
  ghost predicate Gone(keys: set<Name>, groups: seq<Group>, order: seq<nat>) {
    forall i :: 0 <= i < |groups| ==> (i in order <==> groups[i].name !in keys)
  }

  /** The back of the array holds the raw forms of the order, first at the very back. */
  ghost predicate Written<M>(a: seq<M>, before: seq<M>, configs: seq<M>, order: seq<nat>) {
    && |a| == |before| == |configs| && |order| <= |a|
    && (forall k :: 0 <= k < |order| ==> order[k] < |configs| && a[|a| - 1 - k] == configs[order[k]])
    && (forall i :: 0 <= i < |a| - |order| ==> a[i] == before[i])
  }

  lemma {:induction false} OrderFits(order: seq<nat>, n: nat)
    requires forall k :: 0 <= k < |order| ==> order[k] < n
    requires forall k, l :: 0 <= k < l < |order| ==> order[k] != order[l]
    ensures |order| <= n
  {
    assert order != [] ==> order[0] < n;
    if n > 0 {
      if k :| 0 <= k < |order| && order[k] == n - 1 {
        var rest := order[..k] + order[k + 1..];
        OrderFits(rest, n - 1);
      } else {
        OrderFits(order, n - 1);
      }
    }
  }

  lemma NextInOrder(keys: set<Name>, groups: seq<Group>, order: seq<nat>, i: nat)
    requires Distinct(groups) && Ordered(groups, order) && Gone(keys, groups, order)
    requires i < |groups| && groups[i].name in keys
    requires forall x :: x in groups[i].proxies ==> x in keys && x != groups[i].name
    ensures Ordered(groups, order + [i]) && Gone(keys - {groups[i].name}, groups, order + [i])
    ensures |order| < |groups|
  {
    var longer := order + [i];
    assert i !in order;
    forall l | 0 <= l < |order|
      ensures groups[order[l]].name !in groups[i].proxies
    {
      assert order[l] in order;
    }
    OrderFits(longer, |groups|);
    assert forall j :: j in longer <==> j in order || j == i;
  }

  // ------------------------------------------------------------- the sort

  /** Nodes on a cycle never leave the graph. */
  ghost predicate CyclesStay(keys: set<Name>, groups: seq<Group>) {
    forall x :: OnCycle(groups, x) ==> x in keys
  }

  /** Nothing has been recorded yet for naming a loop. */
  ghost predicate Untouched<M>(graph: map<Name, Node<M>>) {
    forall x :: x in graph ==> graph[x].outdegree == 0 && graph[x].from == []
  }

  ghost predicate SortInv<M>(graph: map<Name, Node<M>>, queue: seq<Name>, order: seq<nat>, groups: seq<Group>, configs: seq<M>) {
    && Labelled(graph, groups, configs) && Counted(graph, groups) && Queued(graph, queue)
    && Ordered(groups, order) && Gone(graph.Keys, groups, order) && CyclesStay(graph.Keys, groups) && Untouched(graph)
  }

  lemma LeaveCycles<M>(graph: map<Name, Node<M>>, groups: seq<Group>, name: Name)
    requires CyclesStay(graph.Keys, groups) && Counted(graph, groups) && name in graph && graph[name].indegree == 0
    ensures CyclesStay(graph.Keys - {name}, groups)
  {
    if OnCycle(groups, name) {
      var p :| IsCycle(groups, p) && name in p;
      var before, after := CycleNeighbours(groups, p, name);
      assert OnCycle(groups, before);
      CountedIffListed(groups, graph.Keys, name);
    }
  }

  /** One turn of the sort's loop: the first of the queue has been served and leaves. */
  lemma TurnOk<M>(graph: map<Name, Node<M>>, queue: seq<Name>, order: seq<nat>, groups: seq<Group>, configs: seq<M>,
                  mid: map<Name, Node<M>>, queue': seq<Name>)
      returns (order': seq<nat>)
    requires Distinct(groups) && SortInv(graph, queue, order, groups, configs) && queue != []
    requires queue' != [] && queue'[0] == queue[0] && Queued(mid, queue')
    requires var i := IndexOf(groups, queue[0]);
      mid == if i < |groups| then Lowered(graph, multiset(groups[i].proxies)) else graph
    ensures var i := IndexOf(groups, queue[0]);
      order' == if i < |groups| then order + [i] else order
    ensures SortInv(mid - {queue[0]}, queue'[1..], order', groups, configs)
    ensures IndexOf(groups, queue[0]) < |groups| ==> |order| < |groups|
  {
    var name, i := queue[0], IndexOf(groups, queue[0]);
    LeaveQueued(graph, queue);
    LeaveQueued(mid, queue');
    LeaveCounted(graph, mid, groups, name);
    LeaveCycles(graph, groups, name);
    assert (mid - {name}).Keys == graph.Keys - {name};
    order' := order;
    if i < |groups| {
      NoSelfReference(graph, groups, name);
      NextInOrder(graph.Keys, groups, order, i);
      order' := order + [i];
    }
  }

  /** A group nothing refers to does not list itself, and what it lists is in the graph. */
  lemma NoSelfReference<M>(graph: map<Name, Node<M>>, groups: seq<Group>, name: Name)
    requires Distinct(groups) && Counted(graph, groups) && name in graph && graph[name].indegree == 0
    requires IndexOf(groups, name) < |groups|
    ensures forall x :: x in groups[IndexOf(groups, name)].proxies ==> x in graph && x != name
  {
    var i := IndexOf(groups, name);
    forall x | x in groups[i].proxies
      ensures x in graph && x != name
    {
      CountedIffListed(groups, graph.Keys, x);
    }
  }

  /** Put the raw form of a group in front of those already at the back. */
  method Place<M>(groupsConfig: array<M>, index: nat, data: M, ghost before: seq<M>, ghost order: seq<nat>, ghost i: nat)
    requires index == |order| + 1 <= groupsConfig.Length && i < |before| && data == before[i]
    requires Written(groupsConfig[..], before, before, order)
    modifies groupsConfig
    ensures Written(groupsConfig[..], before, before, order + [i])
  {
    groupsConfig[groupsConfig.Length - index] := data;
  }

  /** Serve the first of the queue: place it if it is a group, forget what it refers to, and
      take it out of the graph. */
  method Turn<M>(groupsConfig: array<M>, graph: map<Name, Node<M>>, queue: seq<Name>, index: nat,
                 ghost order: seq<nat>, ghost groups: seq<Group>, ghost configs: seq<M>)
      returns (graph': map<Name, Node<M>>, queue': seq<Name>, index': nat, ghost order': seq<nat>)
    requires Distinct(groups) && SortInv(graph, queue, order, groups, configs) && queue != []
    requires index == |order| && Written(groupsConfig[..], configs, configs, order)
    modifies groupsConfig
    ensures SortInv(graph', queue', order', groups, configs)
    ensures index' == |order'| && Written(groupsConfig[..], configs, configs, order')
    ensures graph'.Keys < graph.Keys
  {
    var name := queue[0];
    LeaveQueued(graph, queue);
    var node := graph[name];
    ghost var i := IndexOf(groups, name);
    graph', queue', index' := graph, queue, index;
    if node.option.Some? {
      index' := index + 1;
      OrderFits(order, |groups|);
      ListedIsCounted(graph, groups, name);
      graph', queue' := Release(graph, queue, node.option.value.proxies);
    }
    order' := TurnOk(graph, queue, order, groups, configs, graph', queue');
    if node.option.Some? {
      Place(groupsConfig, index', node.data.value, configs, order, i);
    }
    graph', queue' := graph' - {name}, queue'[1..];
  }

  /** Take the nodes nothing refers to one after the other, writing the groups among them
      to the array from the back. */
  method TopologicalSort<M>(groupsConfig: array<M>, graph0: map<Name, Node<M>>, queue0: seq<Name>, ghost groups: seq<Group>)
      returns (graph: map<Name, Node<M>>, ghost order: seq<nat>)
    requires Distinct(groups) && groupsConfig.Length == |groups|
    requires SortInv(graph0, queue0, [], groups, groupsConfig[..])
    modifies groupsConfig
    ensures SortInv(graph, [], order, groups, old(groupsConfig[..]))
    ensures Written(groupsConfig[..], old(groupsConfig[..]), old(groupsConfig[..]), order)
  {
    ghost var configs := groupsConfig[..];
    var queue, index := queue0, 0;
    graph, order := graph0, [];
    while queue != []
      invariant SortInv(graph, queue, order, groups, configs)
      invariant index == |order| && Written(groupsConfig[..], configs, configs, order)
      decreases graph.Keys
    {
      graph, queue, index, order := Turn(groupsConfig, graph, queue, index, order, groups, configs);
    }
  }

  // ------------------------------------------------------------- building the graph

  datatype SortError = DecodeFailed(name: Name) | DuplicateName(name: Name) | LoopDetected(elements: seq<Name>)

  /** The groups as decoded, or the first fault: a group that does not decode, or one whose
      name an earlier group has. */
  function Decoded<M>(configs: seq<M>, decode: M -> Result<Group, Name>): Result<seq<Group>, SortError> {
    if configs == [] then Ok([])
    else
      match Decoded(configs[..|configs| - 1], decode)
      case Err(e) => Err(e)
      case Ok(groups) => Added(groups, decode(configs[|configs| - 1]))
  }

  function Added(groups: seq<Group>, next: Result<Group, Name>): Result<seq<Group>, SortError> {
    match next
    case Err(name) => Err(DecodeFailed(name))
    case Ok(g) => if IndexOf(groups, g.name) < |groups| then Err(DuplicateName(g.name)) else Ok(groups + [g])
  }

  lemma {:induction false} DecodedOk<M>(configs: seq<M>, decode: M -> Result<Group, Name>)
    requires Decoded(configs, decode).Ok?
    ensures var groups := Decoded(configs, decode).value;
      && |groups| == |configs| && Distinct(groups)
      && forall i :: 0 <= i < |configs| ==> decode(configs[i]) == Ok(groups[i])
  {
    if configs != [] {
      DecodedOk(configs[..|configs| - 1], decode);
    }
  }

  /** A fault stays the first fault, whatever comes after it. */
  lemma {:induction false} FaultStays<M>(configs: seq<M>, decode: M -> Result<Group, Name>, n: nat)
    requires n <= |configs| && Decoded(configs[..n], decode).Err?
    ensures Decoded(configs, decode) == Decoded(configs[..n], decode)
    decreases |configs|
  {
    if n < |configs| {
      assert configs[..|configs| - 1][..n] == configs[..n];
      FaultStays(configs[..|configs| - 1], decode, n);
    } else {
      assert configs[..n] == configs;
    }
  }

  /** The graph while it is built: extra are references of the group being read. */
  ghost predicate Building<M>(graph: map<Name, Node<M>>, groups: seq<Group>, configs: seq<M>, counted: seq<Group>, extra: multiset<Name>) {
    && Labelled(graph, groups, configs)
    && (forall x :: x in graph ==> graph[x].indegree == RefCount(counted, x) + extra[x] && graph[x].outdegree == 0 && graph[x].from == [])
    && (forall x :: x !in graph ==> RefCount(counted, x) + extra[x] == 0 && IndexOf(groups, x) == |groups|)
  }

  lemma LabelLonger<M>(groups: seq<Group>, configs: seq<M>, g: Group, mapping: M, x: Name)
    requires |configs| == |groups| && IndexOf(groups, g.name) == |groups|
    ensures Label(groups + [g], configs + [mapping], x) ==
            if x == g.name then (Some(g), Some(mapping)) else Label(groups, configs, x)
    ensures IndexOf(groups + [g], x) == |groups| + 1 <==> IndexOf(groups, x) == |groups| && x != g.name
  {
    IndexOfLonger(groups, g, x);
  }

  lemma Entered<M>(graph: map<Name, Node<M>>, g: Group, mapping: M, groups: seq<Group>, configs: seq<M>, node: Node<M>)
      returns (graph': map<Name, Node<M>>)
    requires Building(graph, groups, configs, groups, multiset{}) && IndexOf(groups, g.name) == |groups|
    requires node == Node(RefCount(groups, g.name), Some(mapping), Some(g), 0, [])
    ensures graph' == graph[g.name := node]
    ensures Building(graph', groups + [g], configs + [mapping], groups, multiset{})
  {
    graph' := graph[g.name := node];
    forall x
      ensures x in graph' ==> (graph'[x].option, graph'[x].data) == Label(groups + [g], configs + [mapping], x)
      ensures x !in graph' ==> IndexOf(groups + [g], x) == |groups + [g]|
    {
      LabelLonger(groups, configs, g, mapping, x);
    }
  }

  /** Enter a group under its name. */
  method Enter<M>(graph: map<Name, Node<M>>, g: Group, mapping: M, ghost groups: seq<Group>, ghost configs: seq<M>)
      returns (graph': map<Name, Node<M>>, duplicate: bool)
    requires Building(graph, groups, configs, groups, multiset{})
    ensures duplicate == (IndexOf(groups, g.name) < |groups|)
    ensures !duplicate ==> Building(graph', groups + [g], configs + [mapping], groups, multiset{})
  {
    var node := Node(0, Some(mapping), Some(g), 0, []);
    if g.name in graph {
      if graph[g.name].data.Some? {
        return graph, true;
      }
      node := graph[g.name].(data := Some(mapping), option := Some(g));
    }
    graph', duplicate := graph[g.name := node], false;
    ghost var _ := Entered(graph, g, mapping, groups, configs, node);
  }

  /** Count one more reference. */
  method Refer<M>(graph: map<Name, Node<M>>, proxy: Name, ghost groups: seq<Group>, ghost configs: seq<M>,
                  ghost counted: seq<Group>, ghost extra: multiset<Name>, ghost extra': multiset<Name>)
      returns (graph': map<Name, Node<M>>)
    requires Building(graph, groups, configs, counted, extra)
    requires forall x :: extra'[x] == if x == proxy then extra[x] + 1 else extra[x]
    ensures Building(graph', groups, configs, counted, extra')
  {
    if proxy in graph {
      graph' := graph[proxy := graph[proxy].(indegree := graph[proxy].indegree + 1)];
    } else {
      graph' := graph[proxy := Node(1, None, None, 0, [])];
    }
  }

  lemma GroupCounted<M>(graph: map<Name, Node<M>>, groups: seq<Group>, configs: seq<M>, counted: seq<Group>, g: Group, extra: multiset<Name>)
    requires Building(graph, groups, configs, counted, extra) && extra == multiset(g.proxies)
    ensures Building(graph, groups, configs, counted + [g], multiset{})
  {
    forall x
      ensures RefCount(counted + [g], x) == RefCount(counted, x) + extra[x]
    {
      RefCountLonger(counted, g, x);
    }
  }

  /** Count what a group refers to. */
  method ReferAll<M>(graph: map<Name, Node<M>>, proxies: seq<Name>, ghost groups: seq<Group>, ghost configs: seq<M>, ghost counted: seq<Group>)
      returns (graph': map<Name, Node<M>>, ghost seen: multiset<Name>)
    requires Building(graph, groups, configs, counted, multiset{})
    ensures seen == multiset(proxies) && Building(graph', groups, configs, counted, seen)
  {
    graph', seen := graph, multiset{};
    for j := 0 to |proxies|
      invariant seen == Prefix(proxies, j) && Building(graph', groups, configs, counted, seen)
    {
      ghost var seen' := PrefixCount(proxies, j, seen);
      graph' := Refer(graph', proxies[j], groups, configs, counted, seen, seen');
      seen := seen';
    }
    WholePrefix(proxies);
  }

  /** Enter a group and count what it refers to. */
  method AddGroup<M>(graph: map<Name, Node<M>>, g: Group, mapping: M, ghost groups: seq<Group>, ghost configs: seq<M>)
      returns (graph': map<Name, Node<M>>, duplicate: bool)
    requires Building(graph, groups, configs, groups, multiset{})
    ensures duplicate == (IndexOf(groups, g.name) < |groups|)
    ensures !duplicate ==> Building(graph', groups + [g], configs + [mapping], groups + [g], multiset{})
  {
    graph', duplicate := Enter(graph, g, mapping, groups, configs);
    if !duplicate {
      ghost var seen;
      graph', seen := ReferAll(graph', g.proxies, groups + [g], configs + [mapping], groups);
      GroupCounted(graph', groups + [g], configs + [mapping], groups, g, seen);
    }
  }

  /** Read the groups one by one into a graph, up to the first fault. */
  method BuildGraph<M>(groupsConfig: array<M>, decode: M -> Result<Group, Name>)
      returns (graph: map<Name, Node<M>>, error: Option<SortError>, ghost groups: seq<Group>)
    ensures error == match Decoded(groupsConfig[..], decode) case Ok(_) => None case Err(e) => Some(e)
    ensures error.None? ==> Decoded(groupsConfig[..], decode) == Ok(groups)
    ensures error.None? ==> Building(graph, groups, groupsConfig[..], groups, multiset{})
  {
    graph, error, groups := map[], None, [];
    ghost var configs := groupsConfig[..];
    for i := 0 to groupsConfig.Length
      invariant Decoded(configs[..i], decode) == Ok(groups)
      invariant Building(graph, groups, configs[..i], groups, multiset{})
    {
      var next := decode(groupsConfig[i]);
      DecodedLonger(configs, decode, i, groups);
      if next.Err? {
        FaultStays(configs, decode, i + 1);
        return graph, Some(DecodeFailed(next.error)), groups;
      }
      var duplicate;
      graph, duplicate := AddGroup(graph, next.value, groupsConfig[i], groups, configs[..i]);
      if duplicate {
        FaultStays(configs, decode, i + 1);
        return graph, Some(DuplicateName(next.value.name)), groups;
      }
      groups := groups + [next.value];
    }
    assert configs[..groupsConfig.Length] == configs;
  }

  lemma DecodedLonger<M>(configs: seq<M>, decode: M -> Result<Group, Name>, i: nat, groups: seq<Group>)
    requires i < |configs| && Decoded(configs[..i], decode) == Ok(groups)
    ensures configs[..i + 1] == configs[..i] + [configs[i]]
    ensures Decoded(configs[..i + 1], decode) == Added(groups, decode(configs[i]))
  {
  }

  lemma OneMore<M>(configs: seq<M>, decode: M -> Result<Group, Name>, m: M)
    requires Decoded(configs, decode).Ok?
    ensures Decoded(configs + [m], decode) == Added(Decoded(configs, decode).value, decode(m))
  {
  }

  /** The nodes nothing refers to, in any order. */
  method InitialQueue<M>(graph: map<Name, Node<M>>) returns (queue: seq<Name>)
    ensures Queued(graph, queue)
  {
    queue := [];
    var names := graph.Keys;
    while names != {}
      invariant names <= graph.Keys
      invariant forall x {:trigger multiset(queue)[x]} ::
          multiset(queue)[x] == if x in graph && x !in names && graph[x].indegree == 0 then 1 else 0
      decreases names
    {
      var name :| name in names;
      names := names - {name};
      if graph[name].indegree == 0 {
        queue := queue + [name];
      }
    }
  }

  /** The graph built is ready for the sort. */
  lemma BuiltOk<M>(graph: map<Name, Node<M>>, groups: seq<Group>, configs: seq<M>, queue: seq<Name>)
    requires Building(graph, groups, configs, groups, multiset{}) && Queued(graph, queue)
    ensures SortInv(graph, queue, [], groups, configs)
  {
    forall i | 0 <= i < |groups|
      ensures groups[i].name in graph
    {
      assert IndexOf(groups, groups[i].name) <= i;
    }
    forall x
      ensures InCount(groups, graph.Keys, x) == RefCount(groups, x)
    {
      AllCounted(groups, graph.Keys, x);
    }
    forall x | OnCycle(groups, x)
      ensures x in graph
    {
      var p :| IsCycle(groups, p) && x in p;
      var before, after := CycleNeighbours(groups, p, x);
    }
  }

  // ------------------------------------------------------------- naming the loop

  /** What is left when the sort gets stuck: every node is referred to by a group left. */
  lemma StuckOk<M>(graph: map<Name, Node<M>>, groups: seq<Group>, x: Name)
    requires Counted(graph, groups) && Queued(graph, []) && x in graph
    ensures HasPredecessor(groups, graph.Keys, x)
  {
    var empty: seq<Name> := [];
    assert multiset(empty)[x] == 0;
    CountedIffListed(groups, graph.Keys, x);
    var i :| 0 <= i < |groups| && groups[i].name in graph.Keys && x in groups[i].proxies;
    assert Edge(groups, groups[i].name, x);
  }

  /** What x lists: its group's list, or nothing. */
  ghost function ListOf(groups: seq<Group>, x: Name): seq<Name> {
    var i := IndexOf(groups, x);
    if i < |groups| then groups[i].proxies else []
  }

  lemma ListIsEdges(groups: seq<Group>, a: Name, b: Name)
    requires Distinct(groups)
    ensures b in ListOf(groups, a) <==> Edge(groups, a, b)
  {
  }

  /** The references to x recorded at x: those from the names done, and k from the current
      name. */
  ghost predicate FromOk(from: seq<Name>, groups: seq<Group>, x: Name, done: set<Name>, cur: Name, k: nat) {
    forall f {:trigger multiset(from)[f]} ::
      multiset(from)[f] == if f in done then multiset(ListOf(groups, f))[x] else if f == cur then k else 0
  }

  ghost predicate OutOk(outdegree: int, groups: seq<Group>, x: Name, done: set<Name>, cur: Name, count: nat) {
    outdegree == if x in done then |ListOf(groups, x)| else if x == cur then count else 0
  }

  /** References are recorded at both ends: of the names done, all; of the current name, the
      first count of them, which are seen. */
  ghost predicate Recorded<M>(graph: map<Name, Node<M>>, groups: seq<Group>, done: set<Name>, cur: Name, count: nat, seen: multiset<Name>) {
    && (forall x :: x in graph ==> OutOk(graph[x].outdegree, groups, x, done, cur, count))
    && (forall x :: x in graph ==> FromOk(graph[x].from, groups, x, done, cur, seen[x]))
  }

  lemma FromOneMore(from: seq<Name>, groups: seq<Group>, x: Name, done: set<Name>, cur: Name, k: nat)
    requires FromOk(from, groups, x, done, cur, k) && cur !in done
    ensures FromOk(from + [cur], groups, x, done, cur, k + 1)
  {
  }

  /** Record one reference. */
  method RecordOne<M>(graph: map<Name, Node<M>>, name: Name, proxy: Name, ghost groups: seq<Group>, ghost done: set<Name>,
                      ghost count: nat, ghost seen: multiset<Name>, ghost seen': multiset<Name>)
      returns (graph': map<Name, Node<M>>)
    requires name in graph && proxy in graph && name !in done
    requires Recorded(graph, groups, done, name, count, seen)
    requires forall x :: seen'[x] == if x == proxy then seen[x] + 1 else seen[x]
    ensures graph'.Keys == graph.Keys && Recorded(graph', groups, done, name, count + 1, seen')
    ensures forall x :: x in graph ==> graph'[x].option == graph[x].option
  {
    FromOneMore(graph[proxy].from, groups, proxy, done, name, seen[proxy]);
    graph' := graph[name := graph[name].(outdegree := graph[name].outdegree + 1)];
    var child := graph'[proxy];
    graph' := graph'[proxy := child.(from := child.from + [name])];
  }

  lemma RecordedAll<M>(graph: map<Name, Node<M>>, groups: seq<Group>, done: set<Name>, name: Name, cur: Name)
    requires Recorded(graph, groups, done, name, |ListOf(groups, name)|, multiset(ListOf(groups, name)))
    ensures Recorded(graph, groups, done + {name}, cur, 0, multiset{})
  {
  }

  /** Record all references of one node. */
  method RecordAll<M>(graph: map<Name, Node<M>>, name: Name, proxies: seq<Name>, ghost groups: seq<Group>, ghost done: set<Name>)
      returns (graph': map<Name, Node<M>>)
    requires name in graph && name !in done && proxies == ListOf(groups, name)
    requires forall j :: 0 <= j < |proxies| ==> proxies[j] in graph
    requires Recorded(graph, groups, done, name, 0, multiset{})
    ensures graph'.Keys == graph.Keys
    ensures Recorded(graph', groups, done + {name}, name, 0, multiset{})
    ensures forall x :: x in graph ==> graph'[x].option == graph[x].option
  {
    graph' := graph;
    ghost var seen: multiset<Name> := multiset{};
    for j := 0 to |proxies|
      invariant graph'.Keys == graph.Keys && seen == Prefix(proxies, j)
      invariant Recorded(graph', groups, done, name, j, seen)
      invariant forall x :: x in graph ==> graph'[x].option == graph[x].option
    {
      ghost var seen' := PrefixCount(proxies, j, seen);
      graph' := RecordOne(graph', name, proxies[j], groups, done, j, seen, seen');
      seen := seen';
    }
    WholePrefix(proxies);
    RecordedAll(graph', groups, done, name, name);
  }

  lemma NothingRecorded<M>(graph: map<Name, Node<M>>, groups: seq<Group>)
    requires Untouched(graph)
    ensures Recorded(graph, groups, {}, "", 0, multiset{})
  {
  }

  /** Between two nodes it does not matter which is current. */
  lemma AnyCurrent<M>(graph: map<Name, Node<M>>, groups: seq<Group>, done: set<Name>, cur: Name, cur': Name)
    requires Recorded(graph, groups, done, cur, 0, multiset{})
    ensures Recorded(graph, groups, done, cur', 0, multiset{})
  {
  }

  /** A node knows the names its group lists, and they are all in the graph. */
  ghost predicate RecordReady(keys: set<Name>, option: Option<Group>, groups: seq<Group>, name: Name) {
    && (if option.Some? then option.value.proxies == ListOf(groups, name) else ListOf(groups, name) == [])
    && forall j :: 0 <= j < |ListOf(groups, name)| ==> ListOf(groups, name)[j] in keys
  }

  lemma ReadyToRecord<M>(graph: map<Name, Node<M>>, groups: seq<Group>, configs: seq<M>, name: Name)
    requires Distinct(groups) && Labelled(graph, groups, configs) && Counted(graph, groups) && name in graph
    ensures RecordReady(graph.Keys, graph[name].option, groups, name)
  {
    if IndexOf(groups, name) < |groups| {
      ListedIsCounted(graph, groups, name);
    }
  }

  /** Record the references of one node, if it is a group. */
  method RecordNode<M>(graph: map<Name, Node<M>>, name: Name, ghost groups: seq<Group>, ghost done: set<Name>)
      returns (graph': map<Name, Node<M>>)
    requires name in graph && name !in done && RecordReady(graph.Keys, graph[name].option, groups, name)
    requires Recorded(graph, groups, done, "", 0, multiset{})
    ensures graph'.Keys == graph.Keys && Recorded(graph', groups, done + {name}, "", 0, multiset{})
    ensures forall x :: x in graph ==> graph'[x].option == graph[x].option
  {
    AnyCurrent(graph, groups, done, "", name);
    var node := graph[name];
    if node.option.Some? {
      graph' := RecordAll(graph, name, node.option.value.proxies, groups, done);
      AnyCurrent(graph', groups, done + {name}, name, "");
    } else {
      graph' := graph;
      RecordedAll(graph, groups, done, name, "");
    }
  }

  /** Record the references of every node left over, taken in any order. */
  method RecordGraph<M>(graph: map<Name, Node<M>>, ghost groups: seq<Group>, ghost configs: seq<M>)
      returns (graph': map<Name, Node<M>>)
    requires Distinct(groups) && Labelled(graph, groups, configs) && Counted(graph, groups) && Untouched(graph)
    ensures graph'.Keys == graph.Keys && Recorded(graph', groups, graph.Keys, "", 0, multiset{})
    ensures forall x :: x in graph ==> graph'[x].option == graph[x].option
  {
    graph' := graph;
    NothingRecorded(graph, groups);
    var names := graph.Keys;
    while names != {}
      invariant names <= graph.Keys && graph'.Keys == graph.Keys
      invariant Recorded(graph', groups, graph.Keys - names, "", 0, multiset{})
      invariant forall x :: x in graph ==> graph'[x].option == graph[x].option
      decreases names
    {
      var name :| name in names;
      ReadyToRecord(graph, groups, configs, name);
      graph' := RecordNode(graph', name, groups, graph.Keys - names);
      assert graph.Keys - (names - {name}) == graph.Keys - names + {name};
      names := names - {name};
    }
    assert graph.Keys - names == graph.Keys;
  }

  // ------------------------------------------------------------- trimming what leads to no loop

  /** The queue holds, once each, the nodes that refer to nothing in the graph. */
  ghost predicate OutQueued<M>(graph: map<Name, Node<M>>, queue: seq<Name>) {
    forall x {:trigger multiset(queue)[x]} :: multiset(queue)[x] == if x in graph && graph[x].outdegree == 0 then 1 else 0
  }

  ghost predicate Sourced<M>(graph: map<Name, Node<M>>, groups: seq<Group>, left: set<Name>) {
    && graph.Keys <= left
    && forall x :: x in graph ==> FromOk(graph[x].from, groups, x, left, "", 0)
  }

  /** Outdegrees count the references to what is still in the graph; what was trimmed refers
      to nothing in it. */
  ghost predicate OutCounted<M>(graph: map<Name, Node<M>>, groups: seq<Group>, left: set<Name>) {
    && (forall x :: x in graph ==> graph[x].outdegree == OutCount(ListOf(groups, x), graph.Keys))
    && (forall x :: x in left && x !in graph ==> OutCount(ListOf(groups, x), graph.Keys) == 0)
  }

  ghost predicate TrimInv<M>(graph: map<Name, Node<M>>, queue: seq<Name>, groups: seq<Group>, left: set<Name>) {
    && Sourced(graph, groups, left) && OutCounted(graph, groups, left) && OutQueued(graph, queue)
    && CyclesStay(graph.Keys, groups)
  }

  /** Forget one reference to the node being trimmed. */
  method DecrementOut<M>(graph: map<Name, Node<M>>, queue: seq<Name>, f: Name)
      returns (graph': map<Name, Node<M>>, queue': seq<Name>)
    requires f in graph && graph[f].outdegree >= 1 && OutQueued(graph, queue)
    ensures graph' == graph[f := graph[f].(outdegree := graph[f].outdegree - 1)]
    ensures OutQueued(graph', queue') && |queue| <= |queue'| && (queue != [] ==> queue'[0] == queue[0])
  {
    graph' := graph[f := graph[f].(outdegree := graph[f].outdegree - 1)];
    queue' := if graph'[f].outdegree == 0 then queue + [f] else queue;
  }

  ghost function LoweredOut<M>(graph: map<Name, Node<M>>, refs: multiset<Name>): map<Name, Node<M>> {
    map x | x in graph :: graph[x].(outdegree := graph[x].outdegree - refs[x])
  }

  lemma LoweredOutOne<M>(graph: map<Name, Node<M>>, refs: multiset<Name>, refs': multiset<Name>, f: Name)
    requires f in graph && forall x :: refs'[x] == if x == f then refs[x] + 1 else refs[x]
    ensures var low := LoweredOut(graph, refs);
      LoweredOut(graph, refs') == low[f := low[f].(outdegree := low[f].outdegree - 1)]
  {
  }

  ghost predicate CanTrim<M>(graph: map<Name, Node<M>>, from: seq<Name>) {
    forall j :: 0 <= j < |from| ==> from[j] in graph && graph[from[j]].outdegree >= multiset(from)[from[j]]
  }

  /** Forget all references to the node being trimmed, each as often as it is made. */
  method ReleaseOut<M>(graph: map<Name, Node<M>>, queue: seq<Name>, from: seq<Name>)
      returns (graph': map<Name, Node<M>>, queue': seq<Name>)
    requires CanTrim(graph, from) && OutQueued(graph, queue)
    ensures graph' == LoweredOut(graph, multiset(from))
    ensures OutQueued(graph', queue') && |queue| <= |queue'| && (queue != [] ==> queue'[0] == queue[0])
  {
    graph', queue' := graph, queue;
    ghost var seen: multiset<Name> := multiset{};
    for j := 0 to |from|
      invariant seen == Prefix(from, j) && graph' == LoweredOut(graph, seen)
      invariant OutQueued(graph', queue') && |queue| <= |queue'| && (queue != [] ==> queue'[0] == queue[0])
    {
      ghost var seen' := PrefixCount(from, j, seen);
      LoweredOutOne(graph, seen, seen', from[j]);
      graph', queue' := DecrementOut(graph', queue', from[j]);
      seen := seen';
    }
    WholePrefix(from);
  }

  /** Every reference to a node in the graph comes from a node in the graph: no lookup of a
      referrer misses. */
  lemma ReferrersStay<M>(graph: map<Name, Node<M>>, groups: seq<Group>, left: set<Name>, name: Name)
    requires Sourced(graph, groups, left) && OutCounted(graph, groups, left) && name in graph
    ensures CanTrim(graph, graph[name].from)
  {
    var from := graph[name].from;
    assert FromOk(from, groups, name, left, "", 0);
    forall j | 0 <= j < |from|
      ensures from[j] in graph && graph[from[j]].outdegree >= multiset(from)[from[j]]
    {
      assert from[j] in multiset(from);
      OutWithout(ListOf(groups, from[j]), graph.Keys, name);
    }
  }

  lemma TrimCounted<M>(graph: map<Name, Node<M>>, groups: seq<Group>, left: set<Name>, name: Name) returns (rest: map<Name, Node<M>>)
    requires Sourced(graph, groups, left) && OutCounted(graph, groups, left) && name in graph && graph[name].outdegree == 0
    ensures rest == LoweredOut(graph, multiset(graph[name].from)) - {name}
    ensures rest.Keys == graph.Keys - {name} && Sourced(rest, groups, left) && OutCounted(rest, groups, left)
  {
    var from := graph[name].from;
    rest := LoweredOut(graph, multiset(from)) - {name};
    assert rest.Keys == graph.Keys - {name};
    forall x | x in left
      ensures x in rest ==> rest[x].outdegree == OutCount(ListOf(groups, x), rest.Keys)
      ensures x !in rest ==> OutCount(ListOf(groups, x), rest.Keys) == 0
    {
      TrimCountedAt(graph, rest, groups, left, name, x);
    }
  }

  lemma TrimCountedAt<M>(graph: map<Name, Node<M>>, rest: map<Name, Node<M>>, groups: seq<Group>, left: set<Name>, name: Name, x: Name)
    requires Sourced(graph, groups, left) && OutCounted(graph, groups, left) && name in graph && graph[name].outdegree == 0 && x in left
    requires rest == LoweredOut(graph, multiset(graph[name].from)) - {name} && rest.Keys == graph.Keys - {name}
    ensures x in rest ==> rest[x].outdegree == OutCount(ListOf(groups, x), rest.Keys)
    ensures x !in rest ==> OutCount(ListOf(groups, x), rest.Keys) == 0
  {
    assert FromOk(graph[name].from, groups, name, left, "", 0);
    OutWithout(ListOf(groups, x), graph.Keys, name);
  }

  lemma TrimQueued<M>(graph: map<Name, Node<M>>, queue: seq<Name>)
    requires OutQueued(graph, queue) && queue != []
    ensures queue[0] in graph && graph[queue[0]].outdegree == 0
    ensures OutQueued(graph - {queue[0]}, queue[1..])
  {
    var name := queue[0];
    assert queue == [name] + queue[1..];
    assert multiset(queue)[name] >= 1;
    forall x
      ensures multiset(queue[1..])[x] == if x in graph - {name} && (graph - {name})[x].outdegree == 0 then 1 else 0
    {
      assert multiset(queue)[x] == (if x == name then 1 else 0) + multiset(queue[1..])[x];
    }
  }

  lemma TrimCycles<M>(graph: map<Name, Node<M>>, groups: seq<Group>, left: set<Name>, name: Name)
    requires Distinct(groups) && CyclesStay(graph.Keys, groups) && OutCounted(graph, groups, left)
    requires name in graph && graph[name].outdegree == 0
    ensures CyclesStay(graph.Keys - {name}, groups)
  {
    if OnCycle(groups, name) {
      var p :| IsCycle(groups, p) && name in p;
      var before, after := CycleNeighbours(groups, p, name);
      assert OnCycle(groups, after);
      ListIsEdges(groups, name, after);
      OutIffListed(ListOf(groups, name), graph.Keys);
    }
  }

  /** Trim the first of the queue. */
  method Trim<M>(graph: map<Name, Node<M>>, queue: seq<Name>, ghost groups: seq<Group>, ghost left: set<Name>)
      returns (graph': map<Name, Node<M>>, queue': seq<Name>)
    requires Distinct(groups) && TrimInv(graph, queue, groups, left) && queue != []
    ensures TrimInv(graph', queue', groups, left) && graph'.Keys < graph.Keys
  {
    var name := queue[0];
    TrimQueued(graph, queue);
    ReferrersStay(graph, groups, left, name);
    graph', queue' := ReleaseOut(graph, queue, graph[name].from);
    TrimQueued(graph', queue');
    TrimCycles(graph, groups, left, name);
    ghost var rest := TrimCounted(graph, groups, left, name);
    graph', queue' := graph' - {name}, queue'[1..];
  }

  // ------------------------------------------------------------- the whole check

  ghost function Elements(names: seq<Name>): set<Name> {
    set x | x in names
  }

  /** A group that refers to a member of a set and is referred to by one. */
  ghost predicate Between(groups: seq<Group>, s: set<Name>, x: Name) {
    IsGroup(groups, x) && HasPredecessor(groups, s, x) && HasSuccessor(groups, s, x)
  }

  /** What is reported for a loop: some groups, each once, among them every group on a cycle;
      each refers to one of them and is referred to by one of them. */
  ghost predicate NamesLoops(groups: seq<Group>, elements: seq<Name>) {
    && elements != [] && DistinctNames(elements)
    && (forall x {:trigger Between(groups, Elements(elements), x)} :: x in elements ==> Between(groups, Elements(elements), x))
    && (forall x :: OnCycle(groups, x) ==> x in elements)
  }

  lemma TrimStart<M>(stuck: map<Name, Node<M>>, graph: map<Name, Node<M>>, groups: seq<Group>, queue: seq<Name>)
    requires Distinct(groups) && Counted(stuck, groups) && CyclesStay(stuck.Keys, groups)
    requires graph.Keys == stuck.Keys && Recorded(graph, groups, stuck.Keys, "", 0, multiset{}) && OutQueued(graph, queue)
    ensures TrimInv(graph, queue, groups, stuck.Keys)
  {
    forall x | x in graph
      ensures graph[x].outdegree == OutCount(ListOf(groups, x), graph.Keys)
    {
      assert OutOk(graph[x].outdegree, groups, x, stuck.Keys, "", 0);
      if IndexOf(groups, x) < |groups| {
        ListedIsCounted(stuck, groups, x);
      }
      OutAll(ListOf(groups, x), graph.Keys);
    }
    forall x | x in graph
      ensures FromOk(graph[x].from, groups, x, stuck.Keys, "", 0)
    {
      assert FromOk(graph[x].from, groups, x, stuck.Keys, "", multiset{}[x]);
    }
  }

  /** After trimming, each node has a successor and a predecessor among the rest. */
  lemma TrimmedOk<M>(stuck: map<Name, Node<M>>, graph: map<Name, Node<M>>, groups: seq<Group>, x: Name)
    requires Distinct(groups) && Counted(stuck, groups) && Queued(stuck, [])
    requires TrimInv(graph, [], groups, stuck.Keys) && x in graph
    ensures Between(groups, graph.Keys, x)
  {
    var empty: seq<Name> := [];
    assert multiset(empty)[x] == 0;
    OutIffListed(ListOf(groups, x), graph.Keys);
    var y :| y in ListOf(groups, x) && y in graph.Keys;
    ListIsEdges(groups, x, y);
    StuckOk(stuck, groups, x);
    var z :| z in stuck.Keys && Edge(groups, z, x);
    ListIsEdges(groups, z, x);
    OutIffListed(ListOf(groups, z), graph.Keys);
  }

  /** A stuck sort has a cycle to show for it. */
  lemma StuckHasCycle<M>(stuck: map<Name, Node<M>>, groups: seq<Group>) returns (cycle: seq<Name>)
    requires Counted(stuck, groups) && Queued(stuck, []) && stuck != map[]
    ensures IsCycle(groups, cycle)
  {
    forall x {:trigger HasPredecessor(groups, stuck.Keys, x)} | x in stuck.Keys
      ensures HasPredecessor(groups, stuck.Keys, x)
    {
      StuckOk(stuck, groups, x);
    }
    assert stuck.Keys != {};
    cycle := PredecessorsCycle(groups, stuck.Keys);
  }

  /** The nodes with no reference to follow, in any order. */
  method TrimQueue<M>(graph: map<Name, Node<M>>) returns (queue: seq<Name>)
    ensures OutQueued(graph, queue)
  {
    queue := [];
    var names := graph.Keys;
    while names != {}
      invariant names <= graph.Keys
      invariant forall x {:trigger multiset(queue)[x]} ::
          multiset(queue)[x] == if x in graph && x !in names && graph[x].outdegree == 0 then 1 else 0
      decreases names
    {
      var name :| name in names;
      names := names - {name};
      if graph[name].outdegree == 0 {
        queue := queue + [name];
      }
    }
  }

  lemma ElementsMore(names: seq<Name>, x: Name)
    ensures Elements(names + [x]) == Elements(names) + {x}
  {
  }

  method ListNames(names: set<Name>) returns (list: seq<Name>)
    ensures DistinctNames(list) && Elements(list) == names
  {
    list := [];
    var rest := names;
    while rest != {}
      invariant rest <= names && DistinctNames(list) && Elements(list) == names - rest
      decreases rest
    {
      var name :| name in rest;
      assert name !in Elements(list);
      ElementsMore(list, name);
      rest := rest - {name};
      list := list + [name];
    }
  }

  lemma ReportOk<M>(stuck: map<Name, Node<M>>, graph: map<Name, Node<M>>, groups: seq<Group>, elements: seq<Name>)
    requires Distinct(groups) && Counted(stuck, groups) && Queued(stuck, []) && stuck != map[]
    requires TrimInv(graph, [], groups, stuck.Keys) && DistinctNames(elements) && Elements(elements) == graph.Keys
    ensures NamesLoops(groups, elements) && !Acyclic(groups)
  {
    forall x {:trigger Between(groups, graph.Keys, x)} | x in elements
      ensures Between(groups, graph.Keys, x)
    {
      assert x in Elements(elements);
      TrimmedOk(stuck, graph, groups, x);
    }
    forall x | OnCycle(groups, x)
      ensures x in elements
    {
      assert x in Elements(elements);
    }
    var cycle := StuckHasCycle(stuck, groups);
    assert OnCycle(groups, cycle[0]);
  }

  /** Trim, one after the other, the nodes that refer to nothing left. */
  method TrimAll<M>(graph0: map<Name, Node<M>>, queue0: seq<Name>, ghost groups: seq<Group>, ghost left: set<Name>)
      returns (graph: map<Name, Node<M>>)
    requires Distinct(groups) && TrimInv(graph0, queue0, groups, left)
    ensures TrimInv(graph, [], groups, left)
  {
    graph := graph0;
    var queue := queue0;
    while queue != []
      invariant TrimInv(graph, queue, groups, left)
      decreases graph.Keys
    {
      graph, queue := Trim(graph, queue, groups, left);
    }
  }

  /** Trim a stuck graph down to what lies between loops, and name it. */
  method LocateLoop<M>(stuck: map<Name, Node<M>>, ghost order: seq<nat>, ghost groups: seq<Group>, ghost configs: seq<M>)
      returns (elements: seq<Name>)
    requires Distinct(groups) && SortInv(stuck, [], order, groups, configs) && stuck != map[]
    ensures NamesLoops(groups, elements) && !Acyclic(groups)
  {
    var graph := RecordGraph(stuck, groups, configs);
    var queue := TrimQueue(graph);
    TrimStart(stuck, graph, groups, queue);
    graph := TrimAll(graph, queue, groups, stuck.Keys);
    elements := ListNames(graph.Keys);
    ReportOk(stuck, graph, groups, elements);
  }

  // ------------------------------------------------------------- the array afterwards

  /** The elements of a list in another order. */
  ghost function Pick<M>(configs: seq<M>, perm: seq<nat>): seq<M>
    requires forall k :: 0 <= k < |perm| ==> perm[k] < |configs|
  {
    seq(|perm|, k requires 0 <= k < |perm| => configs[perm[k]])
  }

  ghost predicate IsPermutation(perm: seq<nat>, n: nat) {
    && (forall k :: 0 <= k < |perm| ==> perm[k] < n)
    && (forall k, l :: 0 <= k < l < |perm| ==> perm[k] != perm[l])
    && (forall i :: 0 <= i < n ==> i in perm)
  }

  lemma PermutationWithout(perm: seq<nat>, n: nat, k: nat) returns (rest: seq<nat>)
    requires IsPermutation(perm, n + 1) && k < |perm| && perm[k] == n
    ensures rest == perm[..k] + perm[k + 1..] && IsPermutation(rest, n)
  {
    rest := perm[..k] + perm[k + 1..];
    forall i | 0 <= i < n
      ensures i in rest
    {
      assert i in perm;
      var j :| 0 <= j < |perm| && perm[j] == i;
      assert rest[if j < k then j else j - 1] == i;
    }
  }

  lemma PickWithout<M>(configs: seq<M>, perm: seq<nat>, m: M, k: nat, rest: seq<nat>)
    requires k < |perm| && perm[k] == |configs| && forall j :: 0 <= j < |perm| ==> perm[j] <= |configs|
    requires rest == perm[..k] + perm[k + 1..] && forall j :: 0 <= j < |rest| ==> rest[j] < |configs|
    ensures multiset(Pick(configs + [m], perm)) == multiset(Pick(configs, rest)) + multiset{m}
  {
    var picked, others := Pick(configs + [m], perm), Pick(configs, rest);
    forall j | 0 <= j < |others|
      ensures others[j] == picked[if j < k then j else j + 1]
    {
      assert rest[j] == perm[if j < k then j else j + 1];
    }
    assert picked[..k] == others[..k] && picked[k + 1..] == others[k..];
    assert picked == picked[..k] + [m] + picked[k + 1..];
    assert others == others[..k] + others[k..];
  }

  /** A list in another order holds the same elements, as often each. */
  lemma {:induction false} SameElements<M>(configs: seq<M>, perm: seq<nat>)
    requires IsPermutation(perm, |configs|)
    ensures |perm| == |configs| && multiset(Pick(configs, perm)) == multiset(configs)
  {
    var n := |configs|;
    if perm == [] {
      assert n > 0 ==> 0 in perm;
    } else {
      assert perm[0] < n && n - 1 in perm;
      var k :| 0 <= k < |perm| && perm[k] == n - 1;
      var rest := PermutationWithout(perm, n - 1, k);
      SameElements(configs[..n - 1], rest);
      PickWithout(configs[..n - 1], perm, configs[n - 1], k, rest);
      assert configs == configs[..n - 1] + [configs[n - 1]];
    }
  }

  lemma Reversed(order: seq<nat>, n: nat) returns (perm: seq<nat>)
    requires IsPermutation(order, n)
    ensures |perm| == |order| && IsPermutation(perm, n)
    ensures forall k :: 0 <= k < |order| ==> perm[k] == order[|order| - 1 - k]
  {
    perm := seq(|order|, k requires 0 <= k < |order| => order[|order| - 1 - k]);
    forall i | 0 <= i < n
      ensures i in perm
    {
      assert i in order;
      var j :| 0 <= j < |order| && order[j] == i;
      assert perm[|order| - 1 - j] == i;
    }
  }

  /** When every group has left the graph, the array holds them all, each after the groups
      it lists. */
  lemma SortedOk<M>(a: seq<M>, configs: seq<M>, groups: seq<Group>, order: seq<nat>, decode: M -> Result<Group, Name>)
    requires |configs| == |groups| && forall i :: 0 <= i < |configs| ==> decode(configs[i]) == Ok(groups[i])
    requires Ordered(groups, order) && Gone({}, groups, order) && Written(a, configs, configs, order)
    ensures multiset(a) == multiset(configs) && InOrder(a, decode)
  {
    var perm := Reversed(order, |configs|);
    SameElements(configs, perm);
    assert forall i :: 0 <= i < |a| ==> a[i] == a[|a| - 1 - (|a| - 1 - i)] == configs[perm[i]];
    assert a == Pick(configs, perm);
    forall i, j | 0 <= i < |a| && 0 <= j < |a| && decode(a[j]).value.name in decode(a[i]).value.proxies
      ensures j < i
    {
      assert a[i] == configs[perm[i]] && a[j] == configs[perm[j]];
    }
  }

  /** Every element decodes, and stands after the groups it lists. */
  ghost predicate InOrder<M>(a: seq<M>, decode: M -> Result<Group, Name>) {
    && (forall i :: 0 <= i < |a| ==> decode(a[i]).Ok?)
    && (forall i, j :: 0 <= i < |a| && 0 <= j < |a| && decode(a[j]).value.name in decode(a[i]).value.proxies ==> j < i)
  }

  /** With every group gone there was no cycle. */
  lemma AllGone<M>(graph: map<Name, Node<M>>, groups: seq<Group>)
    requires CyclesStay(graph.Keys, groups) && graph == map[]
    ensures Acyclic(groups)
  {
    forall p | IsCycle(groups, p)
      ensures false
    {
      assert OnCycle(groups, p[0]);
    }
  }

  /** Check that proxy groups refer to each other without loops, and sort them in place so
      that each stands after the groups it lists. A fault of decoding or a repeated name is
      reported, leaving the array alone. A loop is reported exactly when there is one; the
      back of the array has then been overwritten already. */
  method ProxyGroupsDagSort<M>(groupsConfig: array<M>, decode: M -> Result<Group, Name>) returns (error: Option<SortError>)
    modifies groupsConfig
    ensures match Decoded(old(groupsConfig[..]), decode)
      case Err(e) => error == Some(e) && groupsConfig[..] == old(groupsConfig[..])
      case Ok(groups) =>
        && (error.None? <==> Acyclic(groups))
        && (error.None? ==> multiset(groupsConfig[..]) == multiset(old(groupsConfig[..])) && InOrder(groupsConfig[..], decode))
        && (error.Some? ==> error.value.LoopDetected? && NamesLoops(groups, error.value.elements))
  {
    ghost var configs := groupsConfig[..];
    var graph, fault, groups := BuildGraph(groupsConfig, decode);
    if fault.Some? {
      return fault;
    }
    DecodedOk(configs, decode);
    var queue := InitialQueue(graph);
    BuiltOk(graph, groups, configs, queue);
    ghost var order;
    graph, order := TopologicalSort(groupsConfig, graph, queue, groups);
    if graph == map[] {
      SortedOk(groupsConfig[..], configs, groups, order, decode);
      AllGone(graph, groups);
      return None;
    }
    var elements := LocateLoop(graph, order, groups, configs);
    return Some(LoopDetected(elements));
  }
}
