/** The least-recently-used cache as functions on a sequence of items, least recent first.
    The clock is a parameter. */
module LruSpec {
  import opened Options

  datatype Item<K, V> = Item(key: K, value: V, expires: int)

  datatype Config = Config(maxAge: int, maxSize: int, updateAgeOnGet: bool, staleReturn: bool) {
    /** Old items are dropped only when an age is set and stale items are not wanted. */
    predicate DropsOld() {
      !staleReturn && maxAge > 0
    }
  }

  /** Where key k stands, or the length if it is missing. */
  function IndexOf<K(==), V>(items: seq<Item<K, V>>, k: K): (i: nat)
    ensures i <= |items|
    ensures i < |items| ==> items[i].key == k
    ensures forall j :: 0 <= j < i ==> items[j].key != k
  {
    if items == [] || items[0].key == k then 0 else 1 + IndexOf(items[1..], k)
  }

  predicate Has<K(==), V>(items: seq<Item<K, V>>, k: K) {
    IndexOf(items, k) < |items|
  }

  function RemoveAt<T>(s: seq<T>, i: nat): seq<T>
    requires i < |s|
  {
    s[..i] + s[i + 1..]
  }

  function Delete<K(==), V>(items: seq<Item<K, V>>, k: K): seq<Item<K, V>> {
    if Has(items, k) then RemoveAt(items, IndexOf(items, k)) else items
  }

  /** Items too old at the front are dropped; an old one behind a young one stays. */
  function DropOldest<K, V>(items: seq<Item<K, V>>, c: Config, now: int): seq<Item<K, V>> {
    if c.DropsOld() && items != [] && items[0].expires <= now then DropOldest(items[1..], c, now) else items
  }

  /** A full cache loses its least recent item. */
  function Shrink<K, V>(items: seq<Item<K, V>>, c: Config): seq<Item<K, V>> {
    if 0 < c.maxSize < |items| then items[1..] else items
  }

  function SetWithExpire<K(==), V>(items: seq<Item<K, V>>, c: Config, k: K, v: V, expires: int, now: int): seq<Item<K, V>> {
    var item := Item(k, v, expires);
    DropOldest(if Has(items, k) then Delete(items, k) + [item] else Shrink(items + [item], c), c, now)
  }

  function ExpiryFor(c: Config, now: int): int {
    if c.maxAge > 0 then now + c.maxAge else 0
  }

  function Set<K(==), V>(items: seq<Item<K, V>>, c: Config, k: K, v: V, now: int): seq<Item<K, V>> {
    SetWithExpire(items, c, k, v, ExpiryFor(c, now), now)
  }

  /** Does a Get of k at this time find it? */
  predicate Hits<K(==), V>(items: seq<Item<K, V>>, c: Config, k: K, now: int) {
    Has(items, k) && !(c.DropsOld() && items[IndexOf(items, k)].expires <= now)
  }

  function Refreshed<K, V>(item: Item<K, V>, c: Config, now: int): Item<K, V> {
    if c.maxAge > 0 && c.updateAgeOnGet then item.(expires := now + c.maxAge) else item
  }

  /** The items after a Get. */
  function Get<K(==), V>(items: seq<Item<K, V>>, c: Config, k: K, now: int): seq<Item<K, V>> {
    if !Has(items, k) then items
    else if !Hits(items, c, k, now) then DropOldest(Delete(items, k), c, now)
    else Delete(items, k) + [Refreshed(items[IndexOf(items, k)], c, now)]
  }

  /** What a Get answers. */
  function Lookup<K(==), V>(items: seq<Item<K, V>>, c: Config, k: K, now: int): Option<V> {
    if Hits(items, c, k, now) then Some(items[IndexOf(items, k)].value) else None
  }

  // ------------------------------------------------------------- what every operation keeps

  ghost predicate Distinct<K, V>(items: seq<Item<K, V>>) {
    forall i, j :: 0 <= i < j < |items| ==> items[i].key != items[j].key
  }

  ghost predicate Bounded<K, V>(items: seq<Item<K, V>>, c: Config) {
    c.maxSize > 0 ==> |items| <= c.maxSize
  }

  lemma IndexIs<K, V>(items: seq<Item<K, V>>, i: nat)
    requires Distinct(items) && i < |items|
    ensures IndexOf(items, items[i].key) == i
  {
  }

  lemma {:induction false} DeleteOk<K, V>(items: seq<Item<K, V>>, k: K)
    requires Distinct(items)
    ensures Distinct(Delete(items, k)) && !Has(Delete(items, k), k)
    ensures |Delete(items, k)| == if Has(items, k) then |items| - 1 else |items|
    ensures forall x :: x in Delete(items, k) <==> x in items && x.key != k
  {
    if Has(items, k) {
      RemoveAtOk(items, IndexOf(items, k));
      MissingIs(Delete(items, k), k);
    } else {
      assert forall x :: x in items ==> x.key != k;
    }
  }

  lemma {:induction false} RemoveAtOk<K, V>(items: seq<Item<K, V>>, i: nat)
    requires Distinct(items) && i < |items|
    ensures Distinct(RemoveAt(items, i)) && |RemoveAt(items, i)| == |items| - 1
    ensures forall x :: x in RemoveAt(items, i) <==> x in items && x.key != items[i].key
  {
    var rest := RemoveAt(items, i);
    assert forall j :: 0 <= j < |rest| ==> rest[j] == items[if j < i then j else j + 1];
    forall x | x in items && x.key != items[i].key
      ensures x in rest
    {
      var j :| 0 <= j < |items| && items[j] == x;
      assert rest[if j < i then j else j - 1] == x;
    }
  }

  lemma {:induction false} MissingIs<K, V>(items: seq<Item<K, V>>, k: K)
    ensures !Has(items, k) <==> forall x :: x in items ==> x.key != k
  {
    if forall x :: x in items ==> x.key != k {
      assert forall i :: 0 <= i < |items| ==> items[i] in items;
    }
  }

  /** What is left after dropping is a suffix, and nothing young is dropped: the items that
      go are old, and the first to stay is not. */
  lemma {:induction false} DropOldestIsSuffix<K, V>(items: seq<Item<K, V>>, c: Config, now: int) returns (n: nat)
    ensures n <= |items| && DropOldest(items, c, now) == items[n..]
    ensures forall i :: 0 <= i < n ==> c.DropsOld() && items[i].expires <= now
    ensures n < |items| && c.DropsOld() ==> items[n].expires > now
  {
    if c.DropsOld() && items != [] && items[0].expires <= now {
      n := DropOldestIsSuffix(items[1..], c, now);
      n := n + 1;
    } else {
      n := 0;
    }
  }

  lemma PutLast<K, V>(items: seq<Item<K, V>>, item: Item<K, V>)
    requires Distinct(items) && !Has(items, item.key)
    ensures Distinct(items + [item])
  {
  }

  /** A Set keeps keys distinct and the size in bounds, and leaves the key last, unless it
      arrived too old. The other items that stay do so in their order, unchanged, and the
      ones that go are a prefix: the least recent ones. */
  lemma SetOk<K, V>(items: seq<Item<K, V>>, c: Config, k: K, v: V, expires: int, now: int)
      returns (after: seq<Item<K, V>>, n: nat)
    requires Distinct(items) && Bounded(items, c)
    ensures after == SetWithExpire(items, c, k, v, expires, now) && Distinct(after) && Bounded(after, c)
    ensures n <= |Delete(items, k)| + 1
    ensures after == (Delete(items, k) + [Item(k, v, expires)])[n..]
    ensures !c.DropsOld() ==> n == if !Has(items, k) && 0 < c.maxSize == |items| then 1 else 0
    ensures expires > now || !c.DropsOld() ==> n <= |Delete(items, k)|
  {
    var rest, shed := PlaceLast(items, c, k, Item(k, v, expires));
    after, n := Dropped(rest, c, now, Item(k, v, expires));
    SuffixOfSuffix(Delete(items, k) + [Item(k, v, expires)], shed, n);
    n := shed + n;
  }

  lemma SuffixOfSuffix<T>(s: seq<T>, i: nat, j: nat)
    requires i + j <= |s|
    ensures s[i..][j..] == s[i + j..]
  {
  }

  /** Dropping from a list that ends with an item. */
  lemma Dropped<K, V>(rest: seq<Item<K, V>>, c: Config, now: int, item: Item<K, V>)
      returns (after: seq<Item<K, V>>, n: nat)
    requires Distinct(rest) && rest != [] && rest[|rest| - 1] == item
    ensures n <= |rest| && after == rest[n..] == DropOldest(rest, c, now) && Distinct(after)
    ensures !c.DropsOld() ==> n == 0
    ensures item.expires > now ==> n < |rest|
  {
    n := DropOldestIsSuffix(rest, c, now);
    after := rest[n..];
  }

  /** The item goes last, and a full cache that did not have the key sheds one. */
  lemma PlaceLast<K, V>(items: seq<Item<K, V>>, c: Config, k: K, item: Item<K, V>)
      returns (rest: seq<Item<K, V>>, shed: nat)
    requires Distinct(items) && Bounded(items, c) && item.key == k
    ensures rest == if Has(items, k) then Delete(items, k) + [item] else Shrink(items + [item], c)
    ensures shed == if !Has(items, k) && 0 < c.maxSize == |items| then 1 else 0
    ensures shed <= |Delete(items, k)| && rest == (Delete(items, k) + [item])[shed..]
    ensures Distinct(rest) && Bounded(rest, c) && rest != [] && rest[|rest| - 1] == item
  {
    DeleteOk(items, k);
    PutLast(Delete(items, k), item);
    var all := Delete(items, k) + [item];
    shed := if !Has(items, k) && 0 < c.maxSize == |items| then 1 else 0;
    rest := all[shed..];
    DistinctSuffix(all, shed);
  }

  lemma DistinctSuffix<K, V>(all: seq<Item<K, V>>, n: nat)
    requires Distinct(all) && n <= |all|
    ensures Distinct(all[n..])
  {
  }

  /** A suffix of distinct items without a key. */
  lemma {:induction false} StaysOut<K, V>(items: seq<Item<K, V>>, n: nat, k: K)
    requires Distinct(items) && n <= |items| && !Has(items, k)
    ensures Distinct(items[n..]) && !Has(items[n..], k)
  {
    MissingIs(items, k);
    MissingIs(items[n..], k);
  }

  /** A hit returns the item of the key and makes it the most recent one; nothing else
      changes place. A miss on an old item drops it. */
  lemma {:induction false} GetOk<K, V>(items: seq<Item<K, V>>, c: Config, k: K, now: int)
    requires Distinct(items) && Bounded(items, c)
    ensures Distinct(Get(items, c, k, now)) && Bounded(Get(items, c, k, now), c)
    ensures Hits(items, c, k, now) ==> Has(Get(items, c, k, now), k)
    ensures !Hits(items, c, k, now) ==> !Has(Get(items, c, k, now), k)
  {
    DeleteOk(items, k);
    if Has(items, k) {
      if Hits(items, c, k, now) {
        var item := Refreshed(items[IndexOf(items, k)], c, now);
        PutLast(Delete(items, k), item);
        IndexIs(Delete(items, k) + [item], |items| - 1);
      } else {
        var n := DropOldestIsSuffix(Delete(items, k), c, now);
        StaysOut(Delete(items, k), n, k);
      }
    }
  }

  // ------------------------------------------------------------- the cache as a map, without ages

  /** The value of a key, whenever it was stored. */
  function ValueOf<K(==), V>(items: seq<Item<K, V>>, k: K): Option<V> {
    if Has(items, k) then Some(items[IndexOf(items, k)].value) else None
  }

  lemma ValueIs<K, V>(items: seq<Item<K, V>>, i: nat)
    requires Distinct(items) && i < |items|
    ensures ValueOf(items, items[i].key) == Some(items[i].value)
  {
  }

  /** Two lists of distinct keys with the same item for k have the same value for it. */
  lemma SameValue<K, V>(a: seq<Item<K, V>>, b: seq<Item<K, V>>, k: K)
    requires Distinct(a) && Distinct(b)
    requires forall x :: x in a && x.key == k ==> x in b
    requires forall x :: x in b && x.key == k ==> x in a
    ensures ValueOf(a, k) == ValueOf(b, k)
  {
  }

  lemma ValueAfterDelete<K, V>(items: seq<Item<K, V>>, k: K, x: K)
    requires Distinct(items)
    ensures ValueOf(Delete(items, k), x) == if x == k then None else ValueOf(items, x)
  {
    DeleteOk(items, k);
    if x != k {
      SameValue(Delete(items, k), items, x);
    }
  }

  /** Without ages, a Get changes the order but no value. */
  lemma ValueAfterGet<K, V>(items: seq<Item<K, V>>, c: Config, k: K, now: int, x: K)
    requires Distinct(items) && c.maxAge <= 0
    ensures ValueOf(Get(items, c, k, now), x) == ValueOf(items, x) && Lookup(items, c, k, now) == ValueOf(items, k)
  {
    if Has(items, k) {
      ValueAfterDelete(items, k, x);
      DeleteOk(items, k);
      var item := items[IndexOf(items, k)];
      PutLast(Delete(items, k), item);
      var after := Delete(items, k) + [item];
      if x == k {
        ValueIs(after, |items| - 1);
      } else {
        SameValue(after, Delete(items, k), x);
      }
    }
  }

  lemma DeleteAfterGet<K, V>(items: seq<Item<K, V>>, c: Config, k: K, now: int)
    requires Distinct(items) && c.maxAge <= 0
    ensures Delete(Get(items, c, k, now), k) == Delete(items, k)
  {
    DeleteOk(items, k);
    if Has(items, k) {
      var rest, item := Delete(items, k), items[IndexOf(items, k)];
      PutLast(rest, item);
      IndexIs(rest + [item], |rest|);
      assert RemoveAt(rest + [item], |rest|) == rest;
    }
  }

  /** Without ages, a Set binds its key; any other key keeps its value or is evicted. */
  lemma ValueAfterSet<K, V>(items: seq<Item<K, V>>, c: Config, k: K, v: V, now: int, x: K)
    requires Distinct(items) && Bounded(items, c) && c.maxAge <= 0
    ensures ValueOf(Set(items, c, k, v, now), k) == Some(v)
    ensures x != k ==> ValueOf(Set(items, c, k, v, now), x) in {ValueOf(items, x), None}
  {
    var after, n := SetOk(items, c, k, v, 0, now);
    ValueIs(after, |after| - 1);
    DeleteOk(items, k);
    if x != k && Has(after, x) {
      ValueIfKept(items, after, x);
    }
  }

  /** A key whose item was there before has the value it had. */
  lemma ValueIfKept<K, V>(items: seq<Item<K, V>>, after: seq<Item<K, V>>, x: K)
    requires Distinct(items) && Has(after, x) && after[IndexOf(after, x)] in items
    ensures ValueOf(after, x) == ValueOf(items, x)
  {
  }

  // ------------------------------------------------------------- a smaller cache holds the end of a larger one

  function LastOnes<T>(s: seq<T>, n: nat): seq<T> {
    if |s| <= n then s else s[|s| - n..]
  }

  lemma LastOnesFrom<T>(s: seq<T>, n: nat, d: nat)
    requires d == if |s| <= n then 0 else |s| - n
    ensures LastOnes(s, n) == s[d..]
  {
  }

  datatype Write<K, V> = Write(key: K, value: V)

  /** The items after a run of Sets. */
  function Sets<K(==), V>(c: Config, writes: seq<Write<K, V>>): seq<Item<K, V>> {
    if writes == [] then []
    else
      var w := writes[|writes| - 1];
      Set(Sets(c, writes[..|writes| - 1]), c, w.key, w.value, 0)
  }

  /** The items of the small cache after a Set without ages. */
  function Put<K(==), V>(items: seq<Item<K, V>>, item: Item<K, V>, n: nat): seq<Item<K, V>> {
    if Has(items, item.key) then Delete(items, item.key) + [item]
    else if n < |items + [item]| then (items + [item])[1..] else items + [item]
  }

  lemma {:induction false} PutPresent<K, V>(large: seq<Item<K, V>>, d: nat, item: Item<K, V>, n: nat)
    requires Distinct(large) && Has(large, item.key) && d <= IndexOf(large, item.key)
    ensures Put(large[d..], item, n) == (Delete(large, item.key) + [item])[d..]
  {
    var i := IndexOf(large, item.key);
    var rest := large[d..];
    assert rest[i - d] == large[i];
    DistinctSuffix(large, d);
    IndexIs(rest, i - d);
    RemoveAfter(large, i, d, item);
  }

  lemma RemoveAfter<T>(s: seq<T>, i: nat, d: nat, x: T)
    requires d <= i < |s|
    ensures (RemoveAt(s, i) + [x])[d..] == RemoveAt(s[d..], i - d) + [x]
  {
  }

  lemma GoneFromSuffix<K, V>(large: seq<Item<K, V>>, d: nat, k: K)
    requires Distinct(large) && IndexOf(large, k) < d <= |large|
    ensures !Has(large[d..], k)
  {
  }

  lemma RemoveBefore<T>(s: seq<T>, i: nat, d: nat, x: T)
    requires i < d <= |s|
    ensures (RemoveAt(s, i) + [x])[d..] == (s[d..] + [x])[1..]
  {
  }

  lemma PutDropped<K, V>(large: seq<Item<K, V>>, d: nat, item: Item<K, V>, n: nat)
    requires Distinct(large) && IndexOf(large, item.key) < d <= |large| && |large| - d == n
    ensures Put(large[d..], item, n) == (Delete(large, item.key) + [item])[d..]
  {
    GoneFromSuffix(large, d, item.key);
    RemoveBefore(large, IndexOf(large, item.key), d, item);
  }

  lemma PutNew<K, V>(large: seq<Item<K, V>>, d: nat, item: Item<K, V>, n: nat)
    requires !Has(large, item.key) && d <= |large| && |large| - d <= n && (d > 0 ==> |large| - d == n)
    ensures Put(large[d..], item, n) == LastOnes(large + [item], n)
  {
  }

  lemma SetKeepsSuffix<K, V>(large: seq<Item<K, V>>, n: nat, item: Item<K, V>)
    requires n > 0 && Distinct(large)
    ensures Put(LastOnes(large, n), item, n) == LastOnes(Delete(large, item.key) + [item], n)
  {
    var d := if |large| <= n then 0 else |large| - n;
    LastOnesFrom(large, n, d);
    if !Has(large, item.key) {
      PutNew(large, d, item, n);
      return;
    }
    LastOnesFrom(Delete(large, item.key) + [item], n, d);
    if d <= IndexOf(large, item.key) {
      PutPresent(large, d, item, n);
    } else {
      PutDropped(large, d, item, n);
    }
  }

  /** A cache of size n holds, in order, the last n items of the cache without a limit that
      served the same Sets: exactly the most recent keys are kept. */
  lemma {:induction false} MostRecentAreKept<K, V>(n: nat, writes: seq<Write<K, V>>)
    requires n > 0
    ensures Distinct(Sets(Config(0, 0, false, false), writes))
    ensures Sets(Config(0, n, false, false), writes) == LastOnes(Sets(Config(0, 0, false, false), writes), n)
  {
    if writes != [] {
      var before, w := writes[..|writes| - 1], writes[|writes| - 1];
      MostRecentAreKept(n, before);
      var large := Sets(Config(0, 0, false, false), before);
      var _, _ := SetOk(large, Config(0, 0, false, false), w.key, w.value, 0, 0);
      SetKeepsSuffix(large, n, Item(w.key, w.value, 0));
    }
  }
}
