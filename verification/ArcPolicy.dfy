/** What the adaptive replacement cache keeps and what it gives up, over whole runs: the order of
    its lists, the entry evicted, the moves of its target, and what a scan leaves alone. */
module ArcPolicy {
  import opened ArcSpec
  import opened Options

  // ------------------------------------------------------------- the order of the lists

  /** A Set or Get of the key. */
  predicate Names<K(==), V>(op: Op<K, V>, k: K) {
    !op.OpClear? && op.key == k
  }

  /** When the key was last set or asked for, counting from one. */
  function LastUse<K(==), V>(ops: seq<Op<K, V>>, k: K): (n: nat)
    ensures n <= |ops|
  {
    if ops == [] then 0 else if Names(ops[|ops| - 1], k) then |ops| else LastUse(ops[..|ops| - 1], k)
  }

  lemma {:induction false} LastUseNext<K, V>(ops: seq<Op<K, V>>, op: Op<K, V>, k: K)
    ensures LastUse(ops + [op], k) == if Names(op, k) then |ops| + 1 else LastUse(ops, k)
  {
    assert (ops + [op])[..|ops + [op]| - 1] == ops;
  }

  /** The keys used last come first. */
  ghost predicate Newest<K, V>(ops: seq<Op<K, V>>, list: seq<K>) {
    forall i, j :: 0 <= i < j < |list| ==> LastUse(ops, list[i]) > LastUse(ops, list[j])
  }

  /** Each list together with its ghosts is in the order of last use. */
  ghost predicate Ordered<K, V>(ops: seq<Op<K, V>>, s: State<K, V>) {
    Newest(ops, s.t1 + s.b1) && Newest(ops, s.t2 + s.b2)
  }

  lemma {:induction false} Without<K, V>(ops: seq<Op<K, V>>, list: seq<K>, i: nat)
    requires Newest(ops, list) && i < |list|
    ensures Newest(ops, list[..i] + list[i + 1..])
  {
    var rest := list[..i] + list[i + 1..];
    assert forall j :: 0 <= j < |rest| ==> rest[j] == list[if j < i then j else j + 1];
  }

  lemma {:induction false} RemoveIs<K>(s: seq<K>, k: K) returns (i: nat)
    requires k in s
    ensures i < |s| && s[i] == k && Remove(s, k) == s[..i] + s[i + 1..]
  {
    if s[0] == k {
      i := 0;
    } else {
      i := RemoveIs(s[1..], k);
      i := i + 1;
      assert s[..i] + s[i + 1..] == [s[0]] + (s[1..][..i - 1] + s[1..][i..]);
    }
  }

  /** Taking a key out of a list or its ghosts keeps the order. */
  lemma {:induction false} NewestRemove<K, V>(ops: seq<Op<K, V>>, a: seq<K>, b: seq<K>, k: K)
    requires Newest(ops, a + b)
    ensures k in a ==> Newest(ops, Remove(a, k) + b)
    ensures k in b ==> Newest(ops, a + Remove(b, k))
  {
    if k in a {
      var i := RemoveIs(a, k);
      Without(ops, a + b, i);
      assert Remove(a, k) + b == (a + b)[..i] + (a + b)[i + 1..];
    }
    if k in b {
      var i := RemoveIs(b, k);
      Without(ops, a + b, |a| + i);
      assert a + Remove(b, k) == (a + b)[..|a| + i] + (a + b)[|a| + i + 1..];
    }
  }

  /** So does dropping the last key of either. */
  lemma {:induction false} NewestFront<K, V>(ops: seq<Op<K, V>>, a: seq<K>, b: seq<K>)
    requires Newest(ops, a + b)
    ensures a != [] ==> Newest(ops, Front(a) + b)
    ensures b != [] ==> Newest(ops, a + Front(b))
  {
    if a != [] {
      Without(ops, a + b, |a| - 1);
      assert Front(a) + b == (a + b)[..|a| - 1] + (a + b)[|a|..];
    }
    if b != [] {
      Without(ops, a + b, |a| + |b| - 1);
      assert a + Front(b) == (a + b)[..|a| + |b| - 1] + (a + b)[|a| + |b|..];
    }
  }

  /** A key that goes from the back of a list to the front of its ghosts keeps its place. */
  lemma {:induction false} Joined<K>(a: seq<K>, b: seq<K>)
    requires a != []
    ensures Front(a) + ([Last(a)] + b) == a + b
  {
  }

  lemma {:induction false} ReplaceOrder<K, V>(ops: seq<Op<K, V>>, s: State<K, V>, inB2: bool, empty: V, s': State<K, V>)
    requires Replace(s, inB2, empty) == Some(s') && Ordered(ops, s)
    ensures Ordered(ops, s')
  {
    if s.t1 != [] {
      Joined(s.t1, s.b1);
    }
    if s.t2 != [] {
      Joined(s.t2, s.b2);
    }
  }

  lemma {:induction false} DelOrder<K, V>(ops: seq<Op<K, V>>, s: State<K, V>, victim: Victim, s': State<K, V>)
    requires DelLRU(s, victim) == Some(s') && Ordered(ops, s)
    ensures Ordered(ops, s')
  {
    NewestFront(ops, s.t1, s.b1);
    NewestFront(ops, s.t2, s.b2);
  }

  lemma {:induction false} RoomOrder<K, V>(ops: seq<Op<K, V>>, s: State<K, V>, empty: V, s': State<K, V>)
    requires MakeRoom(s, empty) == Some(s') && Ordered(ops, s)
    ensures Ordered(ops, s')
  {
    if |s.t1| + |s.b1| == s.c {
      var victim := if |s.t1| < s.c then OfB1 else OfT1;
      var r := DelLRU(s, victim).value;
      DelOrder(ops, s, victim, r);
      if |s.t1| < s.c {
        ReplaceOrder(ops, r, false, empty, s');
      }
    } else if |s.t1| + |s.b1| < s.c && Total(s) >= s.c {
      if Total(s) == 2 * s.c {
        var r := DelLRU(s, OfB2).value;
        DelOrder(ops, s, OfB2, r);
        ReplaceOrder(ops, r, false, empty, s');
      } else {
        ReplaceOrder(ops, s, false, empty, s');
      }
    }
  }

  /** The lists without the key served, before it goes to its place. */
  lemma {:induction false} KnownOrder<K, V>(ops: seq<Op<K, V>>, s: State<K, V>, k: K, empty: V, s': State<K, V>)
    requires Req(s, k, empty) == Some(s') && Ordered(ops, s)
    requires k in s.t1 || k in s.t2 || k in s.b1 || k in s.b2
    ensures s'.t2 != [] && s'.t2[0] == k && Newest(ops, s'.t1 + s'.b1) && Newest(ops, s'.t2[1..] + s'.b2)
  {
    if k in s.t1 || k in s.t2 {
      NewestRemove(ops, s.t1, s.b1, k);
      NewestRemove(ops, s.t2, s.b2, k);
    } else {
      var inB2 := k !in s.b1;
      var s1 := s.(p := s'.p);
      var r := Replace(s1, inB2, empty).value;
      ReplaceOrder(ops, s1, inB2, empty, r);
      NewestRemove(ops, r.t1, r.b1, k);
      NewestRemove(ops, r.t2, r.b2, k);
    }
  }

  /** A new use of a key that no list has leaves the order as it is. */
  lemma {:induction false} OthersOrder<K, V>(ops: seq<Op<K, V>>, op: Op<K, V>, list: seq<K>)
    requires Newest(ops, list) && !op.OpClear? && op.key !in list
    ensures Newest(ops + [op], list) && Newest(ops + [op], [op.key] + list)
  {
    LastUseNext(ops, op, op.key);
    forall i | 0 <= i < |list|
      ensures LastUse(ops + [op], list[i]) == LastUse(ops, list[i])
    {
      LastUseNext(ops, op, list[i]);
    }
  }

  lemma {:induction false} NotTwice<K, V>(s: State<K, V>, k: K)
    requires Served(s, k, true) && k in s.data
    ensures k !in s.t1 && k !in s.b1 && k !in s.b2 && k !in s.t2[1..]
  {
    OnePlace(s, k);
    assert s.t2 == [k] + s.t2[1..];
    assert multiset(s.t2)[k] == 1 + multiset(s.t2[1..])[k];
  }

  lemma {:induction false} NewOrder<K, V>(ops: seq<Op<K, V>>, op: Op<K, V>, s: State<K, V>, r: State<K, V>, s': State<K, V>)
    requires !op.OpClear? && op.key !in s.data && s' == r.(t1 := [op.key] + r.t1)
    requires Ordered(ops, r) && Served(s', op.key, false) && op.key !in s'.data
    ensures Ordered(ops + [op], s')
  {
    var k := op.key;
    assert Keys(s')[k] == 1;
    assert multiset(s'.t1)[k] == 1 + multiset(r.t1)[k];
    assert k !in r.t1 && k !in r.b1 && k !in r.t2 && k !in r.b2;
    OthersOrder(ops, op, r.t1 + r.b1);
    OthersOrder(ops, op, r.t2 + r.b2);
    assert s'.t1 + s'.b1 == [k] + (r.t1 + r.b1);
  }

  lemma {:induction false} PlacedOrder<K, V>(ops: seq<Op<K, V>>, op: Op<K, V>, s: State<K, V>, s': State<K, V>)
    requires !op.OpClear? && Served(s', op.key, true) && op.key in s'.data
    requires Newest(ops, s'.t1 + s'.b1) && Newest(ops, s'.t2[1..] + s'.b2)
    ensures Ordered(ops + [op], s')
  {
    NotTwice(s', op.key);
    OthersOrder(ops, op, s'.t1 + s'.b1);
    OthersOrder(ops, op, s'.t2[1..] + s'.b2);
    assert s'.t2 + s'.b2 == [op.key] + (s'.t2[1..] + s'.b2);
  }

  lemma {:induction false} ServeKnown<K, V>(ops: seq<Op<K, V>>, op: Op<K, V>, s: State<K, V>, empty: V, s': State<K, V>)
    requires !op.OpClear? && op.key in s.data && Keys(s) == multiset(s.data.Keys) && Ordered(ops, s)
    requires Req(s, op.key, empty) == Some(s') && Served(s', op.key, true) && op.key in s'.data
    ensures Ordered(ops + [op], s')
  {
    OnePlace(s, op.key);
    KnownOrder(ops, s, op.key, empty, s');
    PlacedOrder(ops, op, s, s');
  }

  lemma {:induction false} ServeNew<K, V>(ops: seq<Op<K, V>>, op: Op<K, V>, s: State<K, V>, empty: V, s': State<K, V>)
    requires !op.OpClear? && op.key !in s.data && Keys(s) == multiset(s.data.Keys) && Ordered(ops, s)
    requires Req(s, op.key, empty) == Some(s') && Served(s', op.key, false)
    ensures Ordered(ops + [op], s')
  {
    OnePlace(s, op.key);
    var r := MakeRoom(s, empty).value;
    RoomOrder(ops, s, empty, r);
    NewOrder(ops, op, s, r, s');
  }

  lemma {:induction false} ReqOrder<K, V>(ops: seq<Op<K, V>>, op: Op<K, V>, s: State<K, V>, empty: V) returns (s': State<K, V>)
    requires s.c >= 1 && Bounds(s) && !op.OpClear? && TidyBut(s, op.key) && Ordered(ops, s)
    ensures Req(s, op.key, empty) == Some(s') && Ordered(ops + [op], s')
  {
    s' := ReqOk(s, op.key, empty);
    if op.key in s.data {
      ServeKnown(ops, op, s, empty, s');
    } else {
      ServeNew(ops, op, s, empty, s');
    }
  }

  // ------------------------------------------------------------- the state a request starts from

  /** Does the operation make a request, as all do but a Get of an unknown key? */
  predicate Requests<K, V>(s: State<K, V>, op: Op<K, V>) {
    op.OpSet? || (op.OpGet? && op.key in s.data)
  }

  ghost predicate SameLists<K, V>(a: State<K, V>, b: State<K, V>) {
    a.p == b.p && a.c == b.c && a.t1 == b.t1 && a.b1 == b.b1 && a.t2 == b.t2 && a.b2 == b.b2
  }

  /** What an operation leaves to the request of its key, and what that makes of it. */
  ghost predicate Leads<K, V>(s: State<K, V>, k: K, a: State<K, V>, empty: V, r: State<K, V>, s': State<K, V>) {
    && SameLists(a, s) && a.data.Keys == s.data.Keys && Bounds(a) && TidyBut(a, k)
    && Req(a, k, empty) == Some(r) && SameLists(s', r)
  }

  lemma {:induction false} SetNewLeads<K, V>(s: State<K, V>, k: K, v: V, expires: int, empty: V)
      returns (a: State<K, V>, r: State<K, V>, s': State<K, V>)
    requires Inv(s) && k !in s.data
    ensures Set(s, k, v, expires, empty) == Some(s') && Leads(s, k, a, empty, r, s')
  {
    var item := Item(v, false, expires);
    Admitted(s, k, item, s.len + 1);
    a := s.(len := s.len + 1);
    r := ReqOk(a, k, empty);
    SetNewIs(s, k, item, empty, Some(r));
    s' := r.(data := r.data[k := item]);
  }

  lemma {:induction false} SetKnownLeads<K, V>(s: State<K, V>, k: K, v: V, expires: int, empty: V)
      returns (a: State<K, V>, r: State<K, V>, s': State<K, V>)
    requires Inv(s) && k in s.data
    ensures Set(s, k, v, expires, empty) == Some(s') && Leads(s, k, a, empty, r, s')
  {
    var item := Item(v, false, expires);
    var len := if s.data[k].isGhost then s.len + 1 else s.len;
    Admitted(s, k, item, len);
    a := s.(len := len, data := s.data[k := item]);
    r := ReqOk(a, k, empty);
    s' := r;
  }

  /** The lists after an operation are those after the request of its key. */
  lemma {:induction false} ApplyIs<K, V>(s: State<K, V>, op: Op<K, V>, empty: V)
      returns (a: State<K, V>, r: State<K, V>, s': State<K, V>)
    requires Inv(s) && Requests(s, op)
    ensures Apply(s, op, empty) == Some(s') && Leads(s, op.key, a, empty, r, s')
  {
    match op
    case OpGet(k) =>
      a := s;
      r := ReqOk(a, k, empty);
      s' := r;
    case OpSet(k, v, expires) =>
      if k in s.data {
        a, r, s' := SetKnownLeads(s, k, v, expires, empty);
      } else {
        a, r, s' := SetNewLeads(s, k, v, expires, empty);
      }
  }

  lemma {:induction false} RequestOrder<K, V>(ops: seq<Op<K, V>>, op: Op<K, V>, s: State<K, V>, empty: V) returns (s': State<K, V>)
    requires Inv(s) && Ordered(ops, s) && Requests(s, op)
    ensures Apply(s, op, empty) == Some(s') && Ordered(ops + [op], s')
  {
    var a, r;
    a, r, s' := ApplyIs(s, op, empty);
    var _ := ReqOrder(ops, op, a, empty);
  }

  lemma {:induction false} IgnoredOrder<K, V>(ops: seq<Op<K, V>>, op: Op<K, V>, s: State<K, V>)
    requires Keys(s) == multiset(s.data.Keys) && Ordered(ops, s) && !op.OpClear? && op.key !in s.data
    ensures Ordered(ops + [op], s)
  {
    OnePlace(s, op.key);
    OthersOrder(ops, op, s.t1 + s.b1);
    OthersOrder(ops, op, s.t2 + s.b2);
  }

  lemma {:induction false} StepInv<K(!new), V>(s: State<K, V>, op: Op<K, V>, empty: V) returns (s': State<K, V>)
    requires Inv(s)
    ensures Apply(s, op, empty) == Some(s') && Inv(s') && s'.c == s.c
  {
    match op
    case OpSet(k, v, expires) =>
      SetOk(s, k, v, expires, empty);
      s' := Set(s, k, v, expires, empty).value;
    case OpGet(k) =>
      GetOk(s, k, empty);
      s' := Get(s, k, empty).value;
    case OpClear =>
      s' := New(s.c);
      NewOk<K, V>(s.c);
  }

  lemma {:induction false} StepOrder<K(!new), V>(ops: seq<Op<K, V>>, op: Op<K, V>, s: State<K, V>, empty: V) returns (s': State<K, V>)
    requires Inv(s) && Ordered(ops, s)
    ensures Apply(s, op, empty) == Some(s') && Inv(s') && s'.c == s.c && Ordered(ops + [op], s')
  {
    s' := StepInv(s, op, empty);
    if Requests(s, op) {
      var _ := RequestOrder(ops, op, s, empty);
    } else if op.OpGet? {
      IgnoredOrder(ops, op, s);
    }
  }

  lemma {:induction false} RunNext<K, V>(start: State<K, V>, ops: seq<Op<K, V>>, op: Op<K, V>, empty: V, s: State<K, V>)
    requires Run(start, ops, empty) == Some(s)
    ensures Run(start, ops + [op], empty) == Apply(s, op, empty)
  {
    assert (ops + [op])[..|ops + [op]| - 1] == ops;
  }

  lemma {:induction false} EndsWith<T>(s: seq<T>, front: seq<T>, last: T)
    requires s != [] && front == s[..|s| - 1] && last == s[|s| - 1]
    ensures s == front + [last]
  {
  }

  lemma {:induction false} NewOrdered<K(!new), V>(c: int) returns (s: State<K, V>)
    requires c >= 1
    ensures s == New(c) && Inv(s) && Ordered([], s)
  {
    s := New(c);
    NewOk<K, V>(c);
  }

  /** After every run, t1 followed by b1, and t2 followed by b2, are in the order in which their keys
      were last set or asked for, the latest first. */
  lemma {:induction false} ListsAreOrdered<K(!new), V>(c: int, ops: seq<Op<K, V>>, empty: V) returns (s: State<K, V>)
    requires c >= 1
    ensures Run(New(c), ops, empty) == Some(s) && Inv(s) && s.c == c && Ordered(ops, s)
  {
    if ops == [] {
      s := NewOrdered(c);
    } else {
      var before, op := ops[..|ops| - 1], ops[|ops| - 1];
      EndsWith(ops, before, op);
      var s0 := ListsAreOrdered(c, before, empty);
      s := StepOrder(before, op, s0, empty);
      RunNext(New(c), before, op, empty, s0);
    }
  }

  // ------------------------------------------------------------- the entry evicted

  /** The cache gives up an entry of t1: that list is over its target; or it is at the target and
      the key asked for is a ghost of t2; or it fills the cache and the key is unknown. */
  ghost predicate T1Due<K, V>(s: State<K, V>, target: int, k: K) {
    || |s.t1| > target
    || (|s.t1| == target && k in s.b2)
    || (|s.t1| == s.c && k !in s.data)
  }

  /** Or one of t2: t1 is under its target, or at it and the key is no ghost of t2, or empty. */
  ghost predicate T2Due<K, V>(s: State<K, V>, target: int, k: K) {
    |s.t1| < target || (|s.t1| == target && k !in s.b2) || s.t1 == []
  }

  /** The last entry of one of them goes, and becomes a ghost, but for an entry of t1 when that fills
      the cache and the key is unknown. */
  ghost predicate VictimOk<K, V>(s: State<K, V>, k: K, s': State<K, V>, x: K) {
    && (x in s.t1 ==> x == Last(s.t1) && T1Due(s, s'.p, k) && (x in s'.b1 || (|s.t1| == s.c && k !in s.data)))
    && (x in s.t2 ==> x == Last(s.t2) && T2Due(s, s'.p, k) && x in s'.b2)
  }

  /** What one eviction takes out of the two lists. */
  lemma {:induction false} ReplaceTakes<K, V>(s: State<K, V>, inB2: bool, empty: V, s': State<K, V>, x: K)
    requires Replace(s, inB2, empty) == Some(s') && (x in s.t1 || x in s.t2) && x !in s'.t1 && x !in s'.t2
    ensures x in s.t1 ==> x == Last(s.t1) && (|s.t1| > s.p || (inB2 && |s.t1| == s.p)) && x in s'.b1
    ensures x in s.t2 ==> x == Last(s.t2) && (s.t1 == [] || |s.t1| < s.p || (!inB2 && |s.t1| == s.p)) && x in s'.b2
  {
    if s.t1 != [] {
      assert s.t1 == Front(s.t1) + [Last(s.t1)];
    }
    if s.t2 != [] {
      assert s.t2 == Front(s.t2) + [Last(s.t2)];
    }
  }

  lemma {:induction false} InPut<K>(rest: seq<K>, k: K, x: K)
    requires x != k
    ensures x in [k] + rest <==> x in rest
  {
  }

  lemma {:induction false} InRemove<K>(s: seq<K>, k: K, x: K)
    requires x != k && x in s
    ensures x in Remove(s, k)
  {
    RemoveKeepsOthers(s, k, x);
  }

  /** A hit gives up nothing. */
  lemma {:induction false} HitTakes<K, V>(s: State<K, V>, k: K, empty: V, s': State<K, V>, x: K)
    requires Req(s, k, empty) == Some(s') && (k in s.t1 || k in s.t2) && x != k && (x in s.t1 || x in s.t2)
    ensures x in s'.t1 || x in s'.t2
  {
    if x in s.t1 && k in s.t1 {
      InRemove(s.t1, k, x);
    }
    if k !in s.t1 && x in s.t2 {
      InRemove(s.t2, k, x);
    }
    InPut(s.t2, k, x);
    InPut(Remove(s.t2, k), k, x);
  }

  /** A ghost asked for. */
  lemma {:induction false} GhostTakes<K, V>(s: State<K, V>, k: K, empty: V, s': State<K, V>, x: K)
    requires Req(s, k, empty) == Some(s') && k !in s.t1 && k !in s.t2 && (k in s.b1 || k in s.b2)
    requires Keys(s) == multiset(s.data.Keys) && x != k && (x in s.t1 || x in s.t2) && x !in s'.t1 && x !in s'.t2
    ensures VictimOk(s, k, s', x)
  {
    OnePlace(s, k);
    var inB2 := k !in s.b1;
    var s1 := s.(p := s'.p);
    var r := Replace(s1, inB2, empty).value;
    InPut(r.t2, k, x);
    ReplaceTakes(s1, inB2, empty, r, x);
    if x in r.b1 && !inB2 {
      InRemove(r.b1, k, x);
    }
    if x in r.b2 && inB2 {
      InRemove(r.b2, k, x);
    }
  }

  /** An unknown key. */
  lemma {:induction false} NewTakes<K, V>(s: State<K, V>, k: K, empty: V, s': State<K, V>, x: K)
    requires Req(s, k, empty) == Some(s') && k !in s.t1 && k !in s.t2 && k !in s.b1 && k !in s.b2
    requires Bounds(s) && k !in s.data && x != k && (x in s.t1 || x in s.t2) && x !in s'.t1 && x !in s'.t2
    ensures VictimOk(s, k, s', x) && |s.t1| + |s.t2| == s.c
  {
    var room := MakeRoom(s, empty).value;
    InPut(room.t1, k, x);
    if |s.t1| + |s.b1| == s.c {
      if |s.t1| < s.c {
        ReplaceTakes(DelLRU(s, OfB1).value, false, empty, room, x);
      } else {
        assert s.t1 == Front(s.t1) + [Last(s.t1)];
      }
    } else if Total(s) == 2 * s.c {
      ReplaceTakes(DelLRU(s, OfB2).value, false, empty, room, x);
    } else {
      ReplaceTakes(s, false, empty, room, x);
    }
  }

  lemma {:induction false} OldestIsLast<K, V>(ops: seq<Op<K, V>>, list: seq<K>, ghosts: seq<K>, y: K)
    requires Newest(ops, list + ghosts) && y in list && y != Last(list)
    ensures LastUse(ops, Last(list)) < LastUse(ops, y)
  {
    var i :| 0 <= i < |list| && list[i] == y;
    var all := list + ghosts;
    assert all[i] == y && all[|list| - 1] == Last(list);
  }

  /** Of its list, the key was set or asked for longest ago. */
  ghost predicate Oldest<K, V>(ops: seq<Op<K, V>>, list: seq<K>, x: K) {
    x in list && forall y :: y in list && y != x ==> LastUse(ops, x) < LastUse(ops, y)
  }

  lemma {:induction false} LastIsOldest<K, V>(ops: seq<Op<K, V>>, list: seq<K>, ghosts: seq<K>)
    requires Newest(ops, list + ghosts) && list != []
    ensures Oldest(ops, list, Last(list))
  {
    forall y | y in list && y != Last(list)
      ensures LastUse(ops, Last(list)) < LastUse(ops, y)
    {
      OldestIsLast(ops, list, ghosts, y);
    }
  }

  /** After any run, an operation gives an entry up only when the cache is full and the key asked
      for is not in it. It is the entry of t1 used longest ago if that list is over its target, and
      the one of t2 if t1 is under it; at the target, that of t1 for a ghost of t2, else that of
      t2. It becomes a ghost. Only when t1 fills the cache does an unknown key push out of t1
      whatever the target, for good. */
  lemma {:induction false} GivesUpOldest<K(!new), V>(c: int, ops: seq<Op<K, V>>, op: Op<K, V>, empty: V, x: K)
      returns (s: State<K, V>, s': State<K, V>)
    requires c >= 1 && !op.OpClear? && x != op.key
    ensures Run(New(c), ops, empty) == Some(s) && Run(New(c), ops + [op], empty) == Some(s')
    ensures (x in s.t1 || x in s.t2) && x !in s'.t1 && x !in s'.t2 ==>
              && |s.t1| + |s.t2| == c && op.key !in s.t1 && op.key !in s.t2
              && (x in s.t1 ==> Oldest(ops, s.t1, x) && T1Due(s, s'.p, op.key))
              && (x in s.t2 ==> Oldest(ops, s.t2, x) && T2Due(s, s'.p, op.key))
              && (x in s.t1 ==> x in s'.b1 || (|s.t1| == c && op.key !in s.data))
              && (x in s.t2 ==> x in s'.b2)
  {
    s := ListsAreOrdered(c, ops, empty);
    s' := StepInv(s, op, empty);
    RunNext(New(c), ops, op, empty, s);
    if (x in s.t1 || x in s.t2) && x !in s'.t1 && x !in s'.t2 {
      StepTakes(s, op, empty, s', x);
      if s.t1 != [] {
        LastIsOldest(ops, s.t1, s.b1);
      }
      if s.t2 != [] {
        LastIsOldest(ops, s.t2, s.b2);
      }
    }
  }

  lemma {:induction false} StepTakes<K, V>(s: State<K, V>, op: Op<K, V>, empty: V, s': State<K, V>, x: K)
    requires Inv(s) && !op.OpClear? && Apply(s, op, empty) == Some(s') && x != op.key
    requires (x in s.t1 || x in s.t2) && x !in s'.t1 && x !in s'.t2
    ensures VictimOk(s, op.key, s', x) && |s.t1| + |s.t2| == s.c && op.key !in s.t1 && op.key !in s.t2
  {
    if Requests(s, op) {
      var a, r, _ := ApplyIs(s, op, empty);
      OnePlace(a, op.key);
      if op.key in s.t1 || op.key in s.t2 {
        HitTakes(a, op.key, empty, r, x);
      } else if op.key in s.b1 || op.key in s.b2 {
        GhostTakes(a, op.key, empty, r, x);
      } else {
        NewTakes(a, op.key, empty, r, x);
      }
    }
  }

  // ------------------------------------------------------------- the ghost forgotten

  /** What is forgotten is the last ghost of t1 when t1 and its ghosts reach the capacity, and the
      last one of t2 when all lists together reach twice the capacity. */
  ghost predicate ForgottenOk<K, V>(s: State<K, V>, k: K, x: K) {
    && k !in s.data
    && (x in s.b1 ==> x == Last(s.b1) && |s.t1| + |s.b1| == s.c)
    && (x in s.b2 ==> x == Last(s.b2) && |s.t1| + |s.b1| < s.c && Total(s) == 2 * s.c)
  }

  lemma {:induction false} ReplaceForgets<K, V>(s: State<K, V>, inB2: bool, empty: V, s': State<K, V>, x: K)
    requires Replace(s, inB2, empty) == Some(s')
    ensures x in s.b1 ==> x in s'.b1
    ensures x in s.b2 ==> x in s'.b2
  {
  }

  lemma {:induction false} RoomForgets<K, V>(s: State<K, V>, empty: V, s': State<K, V>, x: K)
    requires MakeRoom(s, empty) == Some(s') && Bounds(s) && (x in s.b1 ==> x !in s'.b1) && (x in s.b2 ==> x !in s'.b2)
    ensures x in s.b1 ==> x == Last(s.b1) && |s.t1| + |s.b1| == s.c
    ensures x in s.b2 ==> x == Last(s.b2) && |s.t1| + |s.b1| < s.c && Total(s) == 2 * s.c
  {
    if s.b1 != [] {
      assert s.b1 == Front(s.b1) + [Last(s.b1)];
    }
    if s.b2 != [] {
      assert s.b2 == Front(s.b2) + [Last(s.b2)];
    }
    if |s.t1| + |s.b1| == s.c {
      if |s.t1| < s.c {
        ReplaceForgets(DelLRU(s, OfB1).value, false, empty, s', x);
      }
    } else if Total(s) == 2 * s.c {
      ReplaceForgets(DelLRU(s, OfB2).value, false, empty, s', x);
    } else if Total(s) >= s.c {
      ReplaceForgets(s, false, empty, s', x);
    }
  }

  lemma {:induction false} KnownForgets<K, V>(s: State<K, V>, k: K, empty: V, s': State<K, V>, x: K)
    requires Req(s, k, empty) == Some(s') && x != k && (k in s.t1 || k in s.t2 || k in s.b1 || k in s.b2)
    ensures x in s.b1 ==> x in s'.b1
    ensures x in s.b2 ==> x in s'.b2
  {
    if k !in s.t1 && k !in s.t2 {
      var inB2 := k !in s.b1;
      var s1 := s.(p := s'.p);
      var r := Replace(s1, inB2, empty).value;
      ReplaceForgets(s1, inB2, empty, r, x);
      if x in r.b1 && !inB2 {
        InRemove(r.b1, k, x);
      }
      if x in r.b2 && inB2 {
        InRemove(r.b2, k, x);
      }
    }
  }

  lemma {:induction false} StepForgets<K, V>(s: State<K, V>, op: Op<K, V>, empty: V, s': State<K, V>, x: K)
    requires Inv(s) && !op.OpClear? && Apply(s, op, empty) == Some(s') && x != op.key
    requires (x in s.b1 && x !in s'.b1) || (x in s.b2 && x !in s'.b2)
    ensures ForgottenOk(s, op.key, x)
  {
    OnePlace(s, x);
    OnePlace(s, op.key);
    if Requests(s, op) {
      var a, r, _ := ApplyIs(s, op, empty);
      if op.key in s.data {
        KnownForgets(a, op.key, empty, r, x);
      } else {
        RoomForgets(a, empty, MakeRoom(a, empty).value, x);
      }
    }
  }

  /** After any run, a ghost not asked for is forgotten only for an unknown key, and it is the one of
      its list used longest ago. */
  lemma {:induction false} ForgetsOldest<K(!new), V>(c: int, ops: seq<Op<K, V>>, op: Op<K, V>, empty: V, x: K)
      returns (s: State<K, V>, s': State<K, V>)
    requires c >= 1 && !op.OpClear? && x != op.key
    ensures Run(New(c), ops, empty) == Some(s) && Run(New(c), ops + [op], empty) == Some(s')
    ensures (x in s.b1 && x !in s'.b1) || (x in s.b2 && x !in s'.b2) ==>
              && ForgottenOk(s, op.key, x)
              && (x in s.b1 ==> Oldest(ops, s.b1, x)) && (x in s.b2 ==> Oldest(ops, s.b2, x))
  {
    s := ListsAreOrdered(c, ops, empty);
    s' := StepInv(s, op, empty);
    RunNext(New(c), ops, op, empty, s);
    if (x in s.b1 && x !in s'.b1) || (x in s.b2 && x !in s'.b2) {
      StepForgets(s, op, empty, s', x);
      GhostsOrdered(ops, s);
    }
  }

  lemma {:induction false} GhostsOrdered<K, V>(ops: seq<Op<K, V>>, s: State<K, V>)
    requires Ordered(ops, s)
    ensures s.b1 != [] ==> Oldest(ops, s.b1, Last(s.b1))
    ensures s.b2 != [] ==> Oldest(ops, s.b2, Last(s.b2))
  {
    NewestSuffix(ops, s.t1, s.b1);
    NewestSuffix(ops, s.t2, s.b2);
    if s.b1 != [] {
      LastIsOldest(ops, s.b1, []);
    }
    if s.b2 != [] {
      LastIsOldest(ops, s.b2, []);
    }
  }

  lemma {:induction false} NewestSuffix<K, V>(ops: seq<Op<K, V>>, a: seq<K>, b: seq<K>)
    requires Newest(ops, a + b)
    ensures Newest(ops, b + [])
  {
    var all := a + b;
    assert forall i :: 0 <= i < |b| ==> (b + [])[i] == all[|a| + i];
  }

  // ------------------------------------------------------------- the target

  /** By how much the target moves: the ratio of the two ghost lists rounded down, but at least one. */
  ghost predicate Ratio(d: int, more: nat, fewer: nat) {
    if fewer >= more then d == 1 else d >= 1 && d * fewer <= more < (d + 1) * fewer
  }

  lemma {:induction false} RatioIs(more: nat, fewer: nat) returns (d: int)
    requires fewer > 0
    ensures d == (if fewer >= more then 1 else more / fewer) && Ratio(d, more, fewer)
  {
    d := if fewer >= more then 1 else more / fewer;
    if fewer < more {
      assert more == d * fewer + more % fewer;
      AtLeastOne(more, fewer);
      assert (d + 1) * fewer == d * fewer + fewer;
    }
  }

  lemma {:induction false} ReqTarget<K, V>(s: State<K, V>, k: K, empty: V, s': State<K, V>) returns (d: int)
    requires Req(s, k, empty) == Some(s')
    ensures k in s.t1 || k in s.t2 ==> s'.p == s.p
    ensures k !in s.t1 && k !in s.t2 && k in s.b1 ==>
              Ratio(d, |s.b2|, |s.b1|) && s'.p == if s.p + d < s.c then s.p + d else s.c
    ensures k !in s.t1 && k !in s.t2 && k !in s.b1 && k in s.b2 ==>
              Ratio(d, |s.b1|, |s.b2|) && s'.p == if s.p > d then s.p - d else 0
    ensures k !in s.t1 && k !in s.t2 && k !in s.b1 && k !in s.b2 ==> s'.p == s.p
  {
    d := 1;
    if k !in s.t1 && k !in s.t2 {
      if k in s.b1 {
        d := RatioIs(|s.b2|, |s.b1|);
      } else if k in s.b2 {
        d := RatioIs(|s.b1|, |s.b2|);
      }
    }
  }

  /** After any run, the target moves only when a ghost is asked for: up, by the ratio of the ghosts
      of t2 to those of t1 but at most to the capacity, for a ghost of t1; down, by the inverse
      ratio but at most to zero, for a ghost of t2. */
  lemma {:induction false} TargetMoves<K(!new), V>(c: int, ops: seq<Op<K, V>>, op: Op<K, V>, empty: V)
      returns (s: State<K, V>, s': State<K, V>, d: int)
    requires c >= 1 && !op.OpClear?
    ensures Run(New(c), ops, empty) == Some(s) && Run(New(c), ops + [op], empty) == Some(s')
    ensures op.key in s.b1 ==> Ratio(d, |s.b2|, |s.b1|) && s'.p == if s.p + d < c then s.p + d else c
    ensures op.key in s.b2 ==> Ratio(d, |s.b1|, |s.b2|) && s'.p == if s.p > d then s.p - d else 0
    ensures op.key !in s.b1 && op.key !in s.b2 ==> s'.p == s.p
  {
    s := ListsAreOrdered(c, ops, empty);
    s' := StepInv(s, op, empty);
    RunNext(New(c), ops, op, empty, s);
    d := StepTarget(s, op, empty, s');
  }

  lemma {:induction false} StepTarget<K, V>(s: State<K, V>, op: Op<K, V>, empty: V, s': State<K, V>) returns (d: int)
    requires Inv(s) && !op.OpClear? && Apply(s, op, empty) == Some(s')
    ensures op.key in s.b1 ==> Ratio(d, |s.b2|, |s.b1|) && s'.p == if s.p + d < s.c then s.p + d else s.c
    ensures op.key in s.b2 ==> Ratio(d, |s.b1|, |s.b2|) && s'.p == if s.p > d then s.p - d else 0
    ensures op.key !in s.b1 && op.key !in s.b2 ==> s'.p == s.p
  {
    OnePlace(s, op.key);
    d := 1;
    if Requests(s, op) {
      var a, r, _ := ApplyIs(s, op, empty);
      d := ReqTarget(a, op.key, empty, r);
    }
  }

  // ------------------------------------------------------------- scans

  /** Sets of keys that the cache does not know, each once. */
  ghost predicate Scan<K, V>(known: set<K>, ops: seq<Op<K, V>>) {
    && (forall i :: 0 <= i < |ops| ==> ops[i].OpSet? && ops[i].key !in known)
    && (forall i, j :: 0 <= i < j < |ops| ==> ops[i].key != ops[j].key)
  }

  /** With its target at zero, the cache makes room for an unknown key in t1, if that has entries, or
      needs none. */
  lemma {:induction false} RoomInT1<K, V>(s: State<K, V>, empty: V, s': State<K, V>)
    requires MakeRoom(s, empty) == Some(s') && s.p == 0
    requires s.t1 != [] || Total(s) < s.c
    ensures s'.t2 == s.t2 && s'.p == 0 && s'.c == s.c
  {
  }

  lemma {:induction false} LastElsewhere<K, V>(s: State<K, V>, x: K)
    requires Keys(s) == multiset(s.data.Keys) && x in s.t2
    ensures x in s.data
    ensures s.t1 != [] ==> Last(s.t1) != x
    ensures s.b1 != [] ==> Last(s.b1) != x
    ensures s.b2 != [] ==> Last(s.b2) != x
  {
    OnePlace(s, x);
  }

  /** That leaves the entries of t2 what they are. */
  lemma {:induction false} RoomData<K, V>(s: State<K, V>, empty: V, s': State<K, V>, x: K)
    requires MakeRoom(s, empty) == Some(s') && s.p == 0 && Keys(s) == multiset(s.data.Keys) && x in s.t2
    requires s.t1 != [] || Total(s) < s.c
    ensures x in s.data && x in s'.data && s'.data[x] == s.data[x]
  {
    LastElsewhere(s, x);
  }

  lemma {:induction false} SetNewData<K, V>(s: State<K, V>, k: K, v: V, expires: int, empty: V, s': State<K, V>) returns (room: State<K, V>)
    requires k !in s.data && Keys(s) == multiset(s.data.Keys) && Set(s, k, v, expires, empty) == Some(s')
    ensures MakeRoom(s.(len := s.len + 1), empty) == Some(room)
    ensures s' == room.(t1 := [k] + room.t1, data := room.data[k := Item(v, false, expires)])
  {
    OnePlace(s, k);
    room := MakeRoom(s.(len := s.len + 1), empty).value;
  }

  /** The entries of t2 stay there as they are. */
  ghost predicate Spared<K, V>(s: State<K, V>, s': State<K, V>) {
    s'.t2 == s.t2 && forall x :: x in s.t2 ==> x in s.data && x in s'.data && s'.data[x] == s.data[x]
  }

  /** One key of a scan. */
  lemma {:induction false} ScanStep<K(!new), V>(s: State<K, V>, op: Op<K, V>, empty: V) returns (s': State<K, V>)
    requires Inv(s) && s.p == 0 && op.OpSet? && op.key !in s.data
    requires s.t1 != [] || Total(s) < s.c
    ensures Apply(s, op, empty) == Some(s') && Inv(s') && s'.c == s.c && s'.p == 0 && s'.t1 != [] && Spared(s, s')
    ensures s'.data.Keys <= s.data.Keys + {op.key}
  {
    s' := StepInv(s, op, empty);
    ScanSpares(s, op.key, op.value, op.expires, empty, s');
    SetOk(s, op.key, op.value, op.expires, empty);
  }

  lemma {:induction false} ScanSpares<K, V>(s: State<K, V>, k: K, v: V, expires: int, empty: V, s': State<K, V>)
    requires Keys(s) == multiset(s.data.Keys) && s.p == 0 && k !in s.data && Set(s, k, v, expires, empty) == Some(s')
    requires s.t1 != [] || Total(s) < s.c
    ensures s'.p == 0 && s'.t1 != [] && Spared(s, s')
  {
    var room := SetNewData(s, k, v, expires, empty, s');
    var a := s.(len := s.len + 1);
    RoomInT1(a, empty, room);
    forall x | x in s.t2
      ensures x in s.data && x in s'.data && s'.data[x] == s.data[x]
    {
      RoomData(a, empty, room, x);
    }
  }

  lemma {:induction false} ScanRest<K, V>(known: set<K>, known': set<K>, ops: seq<Op<K, V>>)
    requires ops != [] && Scan(known, ops) && known' <= known + {ops[0].key}
    ensures Scan(known', ops[1..])
  {
  }

  lemma {:induction false} RunInParts<K, V>(start: State<K, V>, a: seq<Op<K, V>>, b: seq<Op<K, V>>, empty: V, mid: State<K, V>)
    requires Run(start, a, empty) == Some(mid)
    ensures Run(start, a + b, empty) == Run(mid, b, empty)
  {
    if b == [] {
      assert a + b == a;
    } else {
      var front := b[..|b| - 1];
      RunInParts(start, a, front, empty, mid);
      assert (a + b)[..|a + b| - 1] == a + front;
    }
  }

  lemma {:induction false} RunFirst<K, V>(s: State<K, V>, op: Op<K, V>, ops: seq<Op<K, V>>, empty: V, s': State<K, V>)
    requires Apply(s, op, empty) == Some(s')
    ensures Run(s, [op] + ops, empty) == Run(s', ops, empty)
  {
    var none: seq<Op<K, V>> := [];
    assert none + [op] == [op];
    RunNext(s, none, op, empty, s);
    RunInParts(s, [op], ops, empty, s');
  }

  lemma {:induction false} SparedAtFirst<K, V>(s: State<K, V>)
    requires Keys(s) == multiset(s.data.Keys)
    ensures Spared(s, s)
  {
    forall x | x in s.t2
      ensures x in s.data
    {
      OnePlace(s, x);
    }
  }

  lemma {:induction false} ScanFrom<K(!new), V>(s: State<K, V>, ops: seq<Op<K, V>>, empty: V) returns (s': State<K, V>)
    requires Inv(s) && s.p == 0 && Scan(s.data.Keys, ops) && (s.t1 != [] || Total(s) < s.c)
    ensures Run(s, ops, empty) == Some(s') && Inv(s') && s'.p == 0 && Spared(s, s')
    decreases |ops|
  {
    s' := s;
    if ops == [] {
      SparedAtFirst(s);
    } else {
      var op, rest := ops[0], ops[1..];
      assert ops == [op] + rest;
      var next := ScanStep(s, op, empty);
      ScanRest(s.data.Keys, next.data.Keys, ops);
      RunFirst(s, op, rest, empty, next);
      s' := ScanFrom(next, rest, empty);
    }
  }

  /** While the target is zero, a scan of any length, after any run, leaves the entries of t2 where
      and as they are: what was hit before is hit again. */
  lemma {:induction false} ScanLeavesT2<K(!new), V>(c: int, ops: seq<Op<K, V>>, scan: seq<Op<K, V>>, empty: V)
      returns (s: State<K, V>, s': State<K, V>)
    requires c >= 1
    ensures Run(New(c), ops, empty) == Some(s)
    ensures s.p == 0 && Scan(s.data.Keys, scan) && (s.t1 != [] || Total(s) < c) ==>
              && Run(New(c), ops + scan, empty) == Some(s') && s'.p == 0 && s'.t2 == s.t2
              && forall x :: x in s.t2 ==> x in s.data && x in s'.data && s'.data[x] == s.data[x]
  {
    s := ListsAreOrdered(c, ops, empty);
    s' := s;
    if s.p == 0 && Scan(s.data.Keys, scan) && (s.t1 != [] || Total(s) < c) {
      s' := ScanFrom(s, scan, empty);
      RunInParts(New(c), ops, scan, empty, s);
    }
  }

  // ------------------------------------------------------------- a key that is set, hit, and then scanned over

  lemma {:induction false} HitOnce<K(!new), V>(c: int, k: K, v: V, expires: int, empty: V) returns (s: State<K, V>)
    requires c >= 1
    ensures Run(New(c), [OpSet(k, v, expires), OpGet(k)], empty) == Some(s) && Inv(s) && s.c == c
    ensures s == State(0, c, 1, [], [], [k], [], map[k := Item(v, false, expires)])
  {
    var put, ask := OpSet(k, v, expires), OpGet(k);
    var s0 := NewOrdered<K, V>(c);
    var s1 := StepInv(s0, put, empty);
    assert s1 == State(0, c, 1, [k], [], [], [], map[k := Item(v, false, expires)]);
    s := StepInv(s1, ask, empty);
    RunNext(s0, [], put, empty, s0);
    RunNext(s0, [put], ask, empty, s1);
    assert [] + [put] == [put] && [put] + [ask] == [put, ask];
  }

  /** A ghost, or a key that is not known, that is not asked for stays one. */
  lemma {:induction false} MissStays<K(!new), V>(s: State<K, V>, ops: seq<Op<K, V>>, k: K, empty: V) returns (s': State<K, V>)
    requires Inv(s) && !Hit(s, k) && forall i :: 0 <= i < |ops| ==> ops[i].OpSet? && ops[i].key != k
    ensures Run(s, ops, empty) == Some(s') && Inv(s') && !Hit(s', k)
  {
    s' := s;
    if ops != [] {
      var front, op := ops[..|ops| - 1], ops[|ops| - 1];
      s' := MissStays(s, front, k, empty);
      SetOk(s', op.key, op.value, op.expires, empty);
      s' := StepInv(s', op, empty);
    }
  }

  lemma {:induction false} OneIsTooSmall<K(!new), V>(k: K, v: V, expires: int, op: Op<K, V>, empty: V) returns (s': State<K, V>)
    requires op.OpSet? && op.key != k
    ensures Apply(State(0, 1, 1, [], [], [k], [], map[k := Item(v, false, expires)]), op, empty) == Some(s') && !Hit(s', k)
  {
    var s := State(0, 1, 1, [], [], [k], [], map[k := Item(v, false, expires)]);
    s' := Apply(s, op, empty).value;
  }

  lemma {:induction false} HotKeyStays<K(!new), V>(s: State<K, V>, k: K, scan: seq<Op<K, V>>, empty: V) returns (s': State<K, V>)
    requires Inv(s) && s.p == 0 && Hit(s, k) && s.t2 == [k] && s.data.Keys == {k} && Total(s) < s.c && Scan({k}, scan)
    ensures Run(s, scan, empty) == Some(s') && Hit(s', k)
  {
    s' := ScanFrom(s, scan, empty);
    assert k in s.t2;
  }

  lemma {:induction false} HotKeyGoes<K(!new), V>(s: State<K, V>, k: K, v: V, expires: int, scan: seq<Op<K, V>>, empty: V)
      returns (s': State<K, V>)
    requires Inv(s) && s == State(0, 1, 1, [], [], [k], [], map[k := Item(v, false, expires)]) && scan != [] && Scan({k}, scan)
    ensures Run(s, scan, empty) == Some(s') && !Hit(s', k)
  {
    var rest := scan[1..];
    assert scan == [scan[0]] + rest;
    var next := OneIsTooSmall(k, v, expires, scan[0], empty);
    RunFirst(s, scan[0], rest, empty, next);
    var _ := StepInv(s, scan[0], empty);
    s' := MissStays(next, rest, k, empty);
  }

  /** A key that was set and then asked for once survives a scan of any length, in every cache with
      room for more than one entry, and in no other. */
  lemma {:induction false} HotKeySurvives<K(!new), V>(c: int, k: K, v: V, expires: int, scan: seq<Op<K, V>>, empty: V)
      returns (s: State<K, V>)
    requires c >= 1 && scan != [] && Scan({k}, scan)
    ensures Run(New(c), [OpSet(k, v, expires), OpGet(k)] + scan, empty) == Some(s)
    ensures Hit(s, k) <==> c >= 2
  {
    var before := HitOnce(c, k, v, expires, empty);
    RunInParts(New(c), [OpSet(k, v, expires), OpGet(k)], scan, empty, before);
    if c >= 2 {
      s := HotKeyStays(before, k, scan, empty);
    } else {
      s := HotKeyGoes(before, k, v, expires, scan, empty);
    }
  }
}
