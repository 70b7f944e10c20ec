/** References between proxy groups as a graph: edges, counts, cycles and orders. */
module DagSpec {
  type Name = string

  /** A proxy group as decoded: its name and the names it lists, groups and plain proxies. */
  datatype Group = Group(name: Name, proxies: seq<Name>)

  ghost predicate Distinct(groups: seq<Group>) {
    forall i, j :: 0 <= i < j < |groups| ==> groups[i].name != groups[j].name
  }

  ghost predicate IsGroup(groups: seq<Group>, x: Name) {
    exists i :: 0 <= i < |groups| && groups[i].name == x
  }

  /** Where the group of a name stands, or the length if there is none. */
  function IndexOf(groups: seq<Group>, x: Name): (i: nat)
    ensures i <= |groups|
    ensures i < |groups| ==> groups[i].name == x
    ensures forall j :: 0 <= j < i ==> groups[j].name != x
  {
    if groups == [] || groups[0].name == x then 0 else 1 + IndexOf(groups[1..], x)
  }

  /** Group a lists b. */
  ghost predicate Edge(groups: seq<Group>, a: Name, b: Name) {
    exists i :: 0 <= i < |groups| && groups[i].name == a && b in groups[i].proxies
  }

  ghost predicate IsPath(groups: seq<Group>, p: seq<Name>) {
    forall i :: 0 <= i < |p| - 1 ==> Edge(groups, p[i], p[i + 1])
  }

  /** A path back to where it began. */
  ghost predicate IsCycle(groups: seq<Group>, p: seq<Name>) {
    |p| >= 2 && p[0] == p[|p| - 1] && IsPath(groups, p)
  }

  ghost predicate Acyclic(groups: seq<Group>) {
    forall p :: !IsCycle(groups, p)
  }

  ghost predicate OnCycle(groups: seq<Group>, x: Name) {
    exists p :: IsCycle(groups, p) && x in p
  }

  // ------------------------------------------------------------- cycles

  /** A node of a cycle has a neighbour on the cycle before it and one after it. */
  lemma CycleNeighbours(groups: seq<Group>, p: seq<Name>, x: Name) returns (before: Name, after: Name)
    requires IsCycle(groups, p) && x in p
    ensures before in p && after in p && Edge(groups, before, x) && Edge(groups, x, after)
  {
    var i :| 0 <= i < |p| && p[i] == x;
    var j := if i == |p| - 1 then 0 else i;
    var k := if i == 0 then |p| - 1 else i;
    before, after := p[k - 1], p[j + 1];
    assert Edge(groups, p[k - 1], p[k]);
    assert Edge(groups, p[j], p[j + 1]);
  }

  ghost predicate DistinctNames(p: seq<Name>) {
    forall i, j :: 0 <= i < j < |p| ==> p[i] != p[j]
  }

  lemma {:induction false} DistinctFit(p: seq<Name>, s: set<Name>)
    requires DistinctNames(p) && forall x :: x in p ==> x in s
    ensures |p| <= |s|
  {
    if p != [] {
      var last := p[|p| - 1];
      DistinctFit(p[..|p| - 1], s - {last});
    }
  }

  /** Some member of a set leads to x; x leads to some member of a set. */
  ghost predicate HasPredecessor(groups: seq<Group>, s: set<Name>, x: Name) {
    exists y :: y in s && Edge(groups, y, x)
  }

  ghost predicate HasSuccessor(groups: seq<Group>, s: set<Name>, x: Name) {
    exists y :: y in s && Edge(groups, x, y)
  }

  /** Walking backwards inside a finite set that has a predecessor for each member must
      close a cycle. The path so far ends where the walk began. */
  lemma {:induction false} WalkBack(groups: seq<Group>, s: set<Name>, p: seq<Name>) returns (cycle: seq<Name>)
    requires p != [] && DistinctNames(p) && IsPath(groups, p) && forall x :: x in p ==> x in s
    requires forall x {:trigger HasPredecessor(groups, s, x)} :: x in s ==> HasPredecessor(groups, s, x)
    ensures IsCycle(groups, cycle)
    decreases |s| - |p|
  {
    DistinctFit(p, s);
    assert p[0] in p && HasPredecessor(groups, s, p[0]);
    var y :| y in s && Edge(groups, y, p[0]);
    var longer := [y] + p;
    if y in p {
      var i :| 0 <= i < |p| && p[i] == y;
      cycle := longer[..i + 2];
      forall k | 0 <= k < |cycle| - 1
        ensures Edge(groups, cycle[k], cycle[k + 1])
      {
        if k > 0 {
          assert cycle[k] == p[k - 1] && cycle[k + 1] == p[k];
        }
      }
    } else {
      DistinctFit(longer, s);
      forall k | 0 <= k < |longer| - 1
        ensures Edge(groups, longer[k], longer[k + 1])
      {
        if k > 0 {
          assert longer[k] == p[k - 1] && longer[k + 1] == p[k];
        }
      }
      cycle := WalkBack(groups, s, longer);
    }
  }

  /** A non-empty finite set in which every member has a predecessor shows there is a cycle. */
  lemma PredecessorsCycle(groups: seq<Group>, s: set<Name>) returns (cycle: seq<Name>)
    requires s != {} && forall x {:trigger HasPredecessor(groups, s, x)} :: x in s ==> HasPredecessor(groups, s, x)
    ensures IsCycle(groups, cycle)
  {
    var x :| x in s;
    cycle := WalkBack(groups, s, [x]);
  }

  // ------------------------------------------------------------- orders

  /** Every group stands after the groups it lists. */
  ghost predicate Sorted(groups: seq<Group>) {
    forall i, j :: 0 <= i < |groups| && 0 <= j < |groups| && groups[j].name in groups[i].proxies ==> j < i
  }

  lemma {:induction false} PathDescends(groups: seq<Group>, p: seq<Name>, i: nat)
      returns (j: nat)
    requires Sorted(groups) && Distinct(groups) && |p| >= 2 && IsPath(groups, p) && IsGroup(groups, p[|p| - 1])
    requires i < |groups| && groups[i].name == p[0]
    ensures j < i && groups[j].name == p[|p| - 1]
    decreases |p|
  {
    assert Edge(groups, p[0], p[1]);
    if |p| == 2 {
      j :| 0 <= j < |groups| && groups[j].name == p[1];
    } else {
      assert Edge(groups, p[1], p[2]);
      var k :| 0 <= k < |groups| && groups[k].name == p[1];
      assert IsPath(groups, p[1..]) by {
        forall n | 0 <= n < |p[1..]| - 1
          ensures Edge(groups, p[1..][n], p[1..][n + 1])
        {
          assert Edge(groups, p[n + 1], p[n + 2]);
        }
      }
      j := PathDescends(groups, p[1..], k);
    }
  }

  /** Groups in such an order have no cycle. */
  lemma SortedIsAcyclic(groups: seq<Group>)
    requires Sorted(groups) && Distinct(groups)
    ensures Acyclic(groups)
  {
    forall p | IsCycle(groups, p)
      ensures false
    {
      assert Edge(groups, p[0], p[1]);
      var i :| 0 <= i < |groups| && groups[i].name == p[0];
      var j := PathDescends(groups, p, i);
      assert false;
    }
  }

  // ------------------------------------------------------------- counting references

  /** How often the groups named in a set list x. */
  function InCount(groups: seq<Group>, from: set<Name>, x: Name): nat {
    if groups == [] then 0
    else
      var g := groups[|groups| - 1];
      InCount(groups[..|groups| - 1], from, x) + if g.name in from then multiset(g.proxies)[x] else 0
  }

  lemma {:induction false} CountedIffListed(groups: seq<Group>, from: set<Name>, x: Name)
    ensures InCount(groups, from, x) > 0 <==> exists i :: 0 <= i < |groups| && groups[i].name in from && x in groups[i].proxies
  {
    if groups != [] {
      var n := |groups| - 1;
      CountedIffListed(groups[..n], from, x);
      assert x in groups[n].proxies <==> x in multiset(groups[n].proxies);
      if i :| 0 <= i < n && groups[..n][i].name in from && x in groups[..n][i].proxies {
        assert groups[i] == groups[..n][i];
      }
    }
  }

  lemma {:induction false} CountWithout(groups: seq<Group>, from: set<Name>, i: nat, x: Name)
    requires Distinct(groups) && i < |groups| && groups[i].name in from
    ensures InCount(groups, from, x) == InCount(groups, from - {groups[i].name}, x) + multiset(groups[i].proxies)[x]
  {
    var n := |groups| - 1;
    if i < n {
      CountWithout(groups[..n], from, i, x);
    } else {
      CountOthers(groups[..n], from, groups[n].name, x);
    }
  }

  lemma {:induction false} CountOthers(groups: seq<Group>, from: set<Name>, name: Name, x: Name)
    requires forall i :: 0 <= i < |groups| ==> groups[i].name != name
    ensures InCount(groups, from, x) == InCount(groups, from - {name}, x)
  {
    if groups != [] {
      CountOthers(groups[..|groups| - 1], from, name, x);
    }
  }

  /** How many of the names listed are in a set. */
  function OutCount(proxies: seq<Name>, among: set<Name>): nat {
    if proxies == [] then 0
    else OutCount(proxies[..|proxies| - 1], among) + if proxies[|proxies| - 1] in among then 1 else 0
  }

  lemma {:induction false} OutIffListed(proxies: seq<Name>, among: set<Name>)
    ensures OutCount(proxies, among) > 0 <==> exists x :: x in proxies && x in among
  {
    if proxies != [] {
      OutIffListed(proxies[..|proxies| - 1], among);
      assert proxies == proxies[..|proxies| - 1] + [proxies[|proxies| - 1]];
    }
  }

  lemma {:induction false} OutAll(proxies: seq<Name>, among: set<Name>)
    requires forall x :: x in proxies ==> x in among
    ensures OutCount(proxies, among) == |proxies|
  {
    if proxies != [] {
      OutAll(proxies[..|proxies| - 1], among);
    }
  }

  lemma {:induction false} OutWithout(proxies: seq<Name>, among: set<Name>, name: Name)
    requires name in among
    ensures OutCount(proxies, among) == OutCount(proxies, among - {name}) + multiset(proxies)[name]
  {
    if proxies != [] {
      OutWithout(proxies[..|proxies| - 1], among, name);
      assert proxies == proxies[..|proxies| - 1] + [proxies[|proxies| - 1]];
    }
  }

  /** How often groups list x. */
  function RefCount(groups: seq<Group>, x: Name): nat {
    if groups == [] then 0
    else RefCount(groups[..|groups| - 1], x) + multiset(groups[|groups| - 1].proxies)[x]
  }

  lemma {:induction false} AllCounted(groups: seq<Group>, from: set<Name>, x: Name)
    requires forall i :: 0 <= i < |groups| ==> groups[i].name in from
    ensures InCount(groups, from, x) == RefCount(groups, x)
  {
    if groups != [] {
      AllCounted(groups[..|groups| - 1], from, x);
    }
  }

  lemma IndexOfLonger(groups: seq<Group>, g: Group, x: Name)
    ensures IndexOf(groups + [g], x) ==
            if IndexOf(groups, x) < |groups| then IndexOf(groups, x) else if g.name == x then |groups| else |groups| + 1
  {
    var longer, i := groups + [g], IndexOf(groups, x);
    var k := if i < |groups| then i else if g.name == x then |groups| else |groups| + 1;
    assert forall j :: 0 <= j < k && j < |longer| ==> longer[j].name != x;
    assert k < |longer| ==> longer[k].name == x;
  }

  lemma RefCountLonger(groups: seq<Group>, g: Group, x: Name)
    ensures RefCount(groups + [g], x) == RefCount(groups, x) + multiset(g.proxies)[x]
  {
  }
}
