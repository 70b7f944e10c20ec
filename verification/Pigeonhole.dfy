/** The pigeonhole principle. */
module Pigeonhole {
  /** How often a value occurs. */
  function Count(f: seq<nat>, j: nat): nat {
    if f == [] then 0 else Count(f[..|f| - 1], j) + if f[|f| - 1] == j then 1 else 0
  }

  /** How often the values below n occur together. */
  function Occurrences(f: seq<nat>, n: nat): nat {
    if n == 0 then 0 else Occurrences(f, n - 1) + Count(f, n - 1)
  }

  lemma {:induction false} OneMore(f: seq<nat>, x: nat, n: nat)
    ensures Occurrences(f + [x], n) == Occurrences(f, n) + if x < n then 1 else 0
  {
    if n > 0 {
      OneMore(f, x, n - 1);
      CountMore(f, x, n - 1);
    }
  }

  lemma {:induction false} CountMore(f: seq<nat>, x: nat, j: nat)
    ensures Count(f + [x], j) == Count(f, j) + if x == j then 1 else 0
  {
    assert (f + [x])[..|f|] == f;
  }

  lemma {:induction false} EachOccurs(f: seq<nat>, n: nat)
    requires forall i :: 0 <= i < |f| ==> f[i] < n
    ensures Occurrences(f, n) == |f|
  {
    if f == [] {
      NoneOccurs(f, n);
    } else {
      var front, last := f[..|f| - 1], f[|f| - 1];
      EachOccurs(front, n);
      OneMore(front, last, n);
      assert f == front + [last];
    }
  }

  lemma {:induction false} NoneOccurs(f: seq<nat>, n: nat)
    requires f == []
    ensures Occurrences(f, n) == 0
  {
    if n > 0 {
      NoneOccurs(f, n - 1);
    }
  }

  lemma {:induction false} FewOccur(f: seq<nat>, n: nat, k: nat)
    requires forall j :: 0 <= j < n ==> Count(f, j) <= k
    ensures Occurrences(f, n) <= n * k
  {
    if n > 0 {
      FewOccur(f, n - 1, k);
      assert (n - 1) * k + k == n * k;
    }
  }

  /** More values than n times k, all below n: one of them occurs more than k times. */
  lemma {:induction false} Crowded(f: seq<nat>, n: nat, k: nat)
    requires |f| > n * k && forall i :: 0 <= i < |f| ==> f[i] < n
    ensures exists j :: 0 <= j < n && Count(f, j) > k
  {
    EachOccurs(f, n);
    if forall j :: 0 <= j < n ==> Count(f, j) <= k {
      FewOccur(f, n, k);
      assert false;
    }
  }

  /** Where a value occurs. */
  function Places(f: seq<nat>, j: nat): (places: seq<nat>)
    ensures |places| == Count(f, j)
    ensures forall i :: 0 <= i < |places| ==> places[i] < |f| && f[places[i]] == j
    ensures forall i, i' :: 0 <= i < i' < |places| ==> places[i] < places[i']
  {
    if f == [] then []
    else Places(f[..|f| - 1], j) + if f[|f| - 1] == j then [|f| - 1] else []
  }

  /** Find a value that occurs more than k times, and where it does. */
  method FindCrowded(f: seq<nat>, n: nat, k: nat) returns (j: nat, places: seq<nat>)
    requires |f| > n * k && forall i :: 0 <= i < |f| ==> f[i] < n
    ensures j < n && |places| > k && forall i :: 0 <= i < |places| ==> places[i] < |f| && f[places[i]] == j
    ensures forall i, i' :: 0 <= i < i' < |places| ==> places[i] < places[i']
  {
    Crowded(f, n, k);
    j := 0;
    while Count(f, j) <= k
      invariant j < n && forall i :: 0 <= i < j ==> Count(f, i) <= k
      decreases n - j
    {
      j := j + 1;
    }
    places := Places(f, j);
  }
}
