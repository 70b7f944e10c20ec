/** The check of references between sub-rules: a walk along every chain of references, which
    remembers the names on the way. */
module SubRules {
  import opened Options

  type Name = string

  /** A rule either hands over to a sub-rule, named by its adapter, or does not. */
  datatype Rule = Rule(isSubRule: bool, adapter: Name)

  type Table = map<Name, seq<Rule>>

  datatype Fault = NotFound(rule: nat, name: Name, target: Name) | Circular(path: seq<Name>)

  ghost predicate Distinct(p: seq<Name>) {
    forall i, j :: 0 <= i < j < |p| ==> p[i] != p[j]
  }

  /** The names on the way are different sub-rules, so there are no more of them than
      sub-rules: the walk ends. */
  ghost predicate OnTheWay(table: Table, path: seq<Name>) {
    Distinct(path) && forall i :: 0 <= i < |path| ==> path[i] in table
  }

  lemma {:induction false} WayFits(names: set<Name>, path: seq<Name>)
    requires Distinct(path) && forall i :: 0 <= i < |path| ==> path[i] in names
    ensures |path| <= |names|
  {
    if path != [] {
      WayFits(names - {path[|path| - 1]}, path[..|path| - 1]);
    }
  }

  /** Walk on from a name: all its rules are checked, with the name added to the way. */
  function Verify(table: Table, n: Name, path: seq<Name>): Option<Fault>
    requires n in table && OnTheWay(table, path) && n !in path
    decreases |table| - |path|, 0
  {
    WayFits(table.Keys, path + [n]);
    VerifyRules(table, n, path + [n], 0)
  }

  /** Check the rules of a name from the i-th on; way ends in that name. */
  function VerifyRules(table: Table, n: Name, way: seq<Name>, i: nat): Option<Fault>
    requires n in table && OnTheWay(table, way) && way != [] && way[|way| - 1] == n && i <= |table[n]|
    requires |way| <= |table|
    decreases |table| - |way|, |table[n]| - i + 1
  {
    if i == |table[n]| then None
    else
      var rule := table[n][i];
      if !rule.isSubRule then VerifyRules(table, n, way, i + 1)
      else if rule.adapter !in table then Some(NotFound(i, n, rule.adapter))
      else if rule.adapter in way then Some(Circular(way + [rule.adapter]))
      else
        var fault := Verify(table, rule.adapter, way);
        if fault.Some? then fault else VerifyRules(table, n, way, i + 1)
  }

  // ------------------------------------------------------------- what the table should be like

  /** Some rule of a hands over to b. */
  ghost predicate Refers(table: Table, a: Name, b: Name) {
    a in table && exists i :: 0 <= i < |table[a]| && table[a][i] == Rule(true, b)
  }

  ghost predicate TargetsExist(table: Table) {
    forall a, b :: Refers(table, a, b) ==> b in table
  }

  ghost predicate Chain(table: Table, p: seq<Name>) {
    forall i :: 0 <= i < |p| - 1 ==> Refers(table, p[i], p[i + 1])
  }

  ghost predicate Loop(table: Table, p: seq<Name>) {
    |p| >= 2 && p[0] == p[|p| - 1] && Chain(table, p)
  }

  ghost predicate Sound(table: Table) {
    TargetsExist(table) && forall p :: !Loop(table, p)
  }

  // ------------------------------------------------------------- a fault reported is a fault

  /** The fault names a rule whose target is missing, or a chain that ends in a loop. */
  ghost predicate IsReal(table: Table, fault: Fault) {
    match fault
    case NotFound(i, n, target) =>
      n in table && i < |table[n]| && table[n][i] == Rule(true, target) && target !in table
    case Circular(path) =>
      |path| >= 2 && Chain(table, path) && path[|path| - 1] in path[..|path| - 1]
  }

  lemma ChainOneMore(table: Table, p: seq<Name>, x: Name)
    requires Chain(table, p) && p != [] && Refers(table, p[|p| - 1], x)
    ensures Chain(table, p + [x])
  {
  }

  lemma ChainFrom(table: Table, p: seq<Name>, k: nat)
    requires Chain(table, p) && k <= |p|
    ensures Chain(table, p[k..])
  {
  }

  lemma {:induction false} FaultIsReal(table: Table, n: Name, way: seq<Name>, i: nat)
    requires n in table && OnTheWay(table, way) && way != [] && way[|way| - 1] == n && i <= |table[n]|
    requires |way| <= |table| && Chain(table, way)
    ensures VerifyRules(table, n, way, i).Some? ==> IsReal(table, VerifyRules(table, n, way, i).value)
    decreases |table| - |way|, |table[n]| - i
  {
    if i < |table[n]| {
      var rule := table[n][i];
      if rule.isSubRule && rule.adapter in table {
        assert Refers(table, n, rule.adapter);
        ChainOneMore(table, way, rule.adapter);
        if rule.adapter !in way {
          WayFits(table.Keys, way + [rule.adapter]);
          FaultIsReal(table, rule.adapter, way + [rule.adapter], 0);
        }
      }
      FaultIsReal(table, n, way, i + 1);
    }
  }

  lemma RealIsUnsound(table: Table, fault: Fault)
    requires IsReal(table, fault)
    ensures !Sound(table)
  {
    match fault
    case NotFound(i, n, target) =>
      assert Refers(table, n, target);
    case Circular(path) =>
      var n := |path| - 1;
      var k :| 0 <= k < n && path[k] == path[n];
      ChainFrom(table, path, k);
      assert Loop(table, path[k..]);
  }

  // ------------------------------------------------------------- no fault is missed

  /** Nothing was found from the i-th rule on, so every reference there is to a known name
      not on the way, from which nothing was found either. */
  lemma {:induction false} NothingFound(table: Table, n: Name, way: seq<Name>, i: nat, j: nat)
    requires n in table && OnTheWay(table, way) && way != [] && way[|way| - 1] == n && i <= j < |table[n]|
    requires |way| <= |table| && VerifyRules(table, n, way, i).None? && table[n][j].isSubRule
    ensures var next := table[n][j].adapter;
      next in table && next !in way && Verify(table, next, way).None?
    decreases j - i
  {
    if i < j {
      NothingFound(table, n, way, i + 1, j);
    }
  }

  /** Where nothing was found, no chain meets the way or itself. */
  lemma {:induction false} NothingMet(table: Table, path: seq<Name>, chain: seq<Name>)
    requires chain != [] && Chain(table, chain) && chain[0] in table
    requires OnTheWay(table, path) && chain[0] !in path && Verify(table, chain[0], path).None?
    ensures Distinct(path + chain)
    decreases |chain|
  {
    var n, way := chain[0], path + [chain[0]];
    if |chain| > 1 {
      assert Refers(table, chain[0], chain[1]);
      var j :| 0 <= j < |table[n]| && table[n][j] == Rule(true, chain[1]);
      WayFits(table.Keys, way);
      NothingFound(table, n, way, 0, j);
      var rest := chain[1..];
      ChainFrom(table, chain, 1);
      NothingMet(table, way, rest);
      assert path + chain == way + rest;
    } else {
      assert path + chain == way;
    }
  }

  /** Nothing is found from any name exactly when every target exists and nothing loops. */
  lemma AllVerified(table: Table)
    ensures (forall n :: n in table ==> Verify(table, n, []).None?) <==> Sound(table)
  {
    if forall n :: n in table ==> Verify(table, n, []).None? {
      forall a, b | Refers(table, a, b)
        ensures b in table
      {
        var j :| 0 <= j < |table[a]| && table[a][j] == Rule(true, b);
        WayFits(table.Keys, [a]);
        assert [] + [a] == [a];
        NothingFound(table, a, [a], 0, j);
      }
      forall p | Loop(table, p)
        ensures false
      {
        assert Refers(table, p[0], p[1]) && [] + p == p;
        NothingMet(table, [], p);
      }
    } else {
      var n :| n in table && Verify(table, n, []).Some?;
      FaultOfName(table, n);
    }
  }

  lemma FaultOfName(table: Table, n: Name)
    requires n in table && Verify(table, n, []).Some?
    ensures IsReal(table, Verify(table, n, []).value) && !Sound(table)
  {
    WayFits(table.Keys, [n]);
    assert [] + [n] == [n];
    FaultIsReal(table, n, [n], 0);
    RealIsUnsound(table, Verify(table, n, []).value);
  }

  /** Check every sub-rule, in any order, up to the first fault: none is reported exactly
      when every target exists and nothing loops, and one reported is real. */
  method VerifySubRule(table: Table) returns (fault: Option<Fault>)
    ensures fault.None? <==> Sound(table)
    ensures fault.Some? ==> IsReal(table, fault.value)
  {
    AllVerified(table);
    var names := table.Keys;
    while names != {}
      invariant names <= table.Keys
      invariant forall n :: n in table && n !in names ==> Verify(table, n, []).None?
      decreases names
    {
      var n :| n in names;
      fault := Verify(table, n, []);
      if fault.Some? {
        FaultOfName(table, n);
        return;
      }
      names := names - {n};
    }
    fault := None;
  }
}
