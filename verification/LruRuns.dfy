/** What a least-recently-used cache answers over whole runs, with ages and a limit of its size:
    the value last set, for as long as its age allows and as not too many other keys were used. */
module LruRuns {
  import opened Options
  import opened LruSpec

  /** The operations, with the moments at which they look at the clock. */
  datatype Op<K, V> =
    | OpSet(key: K, value: V, at: int)
    | OpSetUntil(key: K, value: V, expires: int, at: int)
    | OpGet(key: K, at: int)
    | OpDelete(key: K)
    | OpClear

  function Apply<K(==), V>(items: seq<Item<K, V>>, c: Config, op: Op<K, V>): seq<Item<K, V>> {
    match op
    case OpSet(k, v, at) => Set(items, c, k, v, at)
    case OpSetUntil(k, v, expires, at) => SetWithExpire(items, c, k, v, expires, at)
    case OpGet(k, at) => Get(items, c, k, at)
    case OpDelete(k) => Delete(items, k)
    case OpClear => []
  }

  /** The items after a run that starts with an empty cache. */
  function Run<K(==), V>(c: Config, ops: seq<Op<K, V>>): seq<Item<K, V>> {
    if ops == [] then [] else Apply(Run(c, ops[..|ops| - 1]), c, ops[|ops| - 1])
  }

  predicate Timed<K, V>(op: Op<K, V>) {
    op.OpSet? || op.OpSetUntil? || op.OpGet?
  }

  /** The clock does not go back. */
  predicate InTime<K, V>(ops: seq<Op<K, V>>, now: int) {
    ops == [] ||
    if Timed(ops[|ops| - 1]) then ops[|ops| - 1].at <= now && InTime(ops[..|ops| - 1], ops[|ops| - 1].at)
    else InTime(ops[..|ops| - 1], now)
  }

  // ------------------------------------------------------------- what a key is bound to

  /** What a key was last set to, until when, and the other keys used since the key was. */
  datatype Bound<K, V> = Unbound | Bound(value: V, until: int, others: set<K>)

  function Others<K, V>(b: Bound<K, V>): set<K> {
    if b.Bound? then b.others else {}
  }

  predicate Ages(c: Config) {
    c.maxAge > 0 && !c.staleReturn
  }

  /** So many other keys were used that the key may have been pushed out. */
  predicate MayBeGone<K, V>(c: Config, b: Bound<K, V>) {
    0 < c.maxSize <= |Others(b)|
  }

  function WithOther<K, V>(b: Bound<K, V>, k: K): Bound<K, V> {
    if b.Bound? then b.(others := b.others + {k}) else b
  }

  /** A Get of the key finds it too old, or uses it and may renew its age. */
  function Fetched<K, V>(c: Config, b: Bound<K, V>, at: int): Bound<K, V> {
    if b.Unbound? || (Ages(c) && b.until <= at) then Unbound
    else
      b.(until := if c.maxAge > 0 && c.updateAgeOnGet then at + c.maxAge else b.until,
         others := if MayBeGone(c, b) then b.others else {})
  }

  function Rebound<K(==), V>(c: Config, b: Bound<K, V>, k: K, op: Op<K, V>): Bound<K, V> {
    match op
    case OpSet(k', v, at) => if k' == k then Bound(v, at + c.maxAge, {}) else WithOther(b, k')
    case OpSetUntil(k', v, expires, _) => if k' == k then Bound(v, expires, {}) else WithOther(b, k')
    case OpGet(k', at) => if k' == k then Fetched(c, b, at) else WithOther(b, k')
    case OpDelete(k') => if k' == k then Unbound else b
    case OpClear => Unbound
  }

  function BoundOf<K(==), V>(c: Config, ops: seq<Op<K, V>>, k: K): Bound<K, V> {
    if ops == [] then Unbound else Rebound(c, BoundOf(c, ops[..|ops| - 1], k), k, ops[|ops| - 1])
  }

  // ------------------------------------------------------------- the items are what their keys are bound to

  ghost predicate ItemOk<K, V>(c: Config, x: Item<K, V>, b: Bound<K, V>) {
    b.Bound? && b.value == x.value && (c.maxAge > 0 ==> b.until == x.expires)
  }

  /** Every item is what its key is bound to, and those behind it were used since. */
  ghost predicate Sound<K, V>(c: Config, items: seq<Item<K, V>>, ops: seq<Op<K, V>>) {
    && (forall i :: 0 <= i < |items| ==> ItemOk(c, items[i], BoundOf(c, ops, items[i].key)))
    && (forall i, j :: 0 <= i < j < |items| ==> items[j].key in Others(BoundOf(c, ops, items[i].key)))
  }

  lemma {:induction false} SoundSuffix<K, V>(c: Config, items: seq<Item<K, V>>, ops: seq<Op<K, V>>, n: nat)
    requires Sound(c, items, ops) && n <= |items|
    ensures Sound(c, items[n..], ops)
  {
  }

  lemma {:induction false} SoundDelete<K, V>(c: Config, items: seq<Item<K, V>>, ops: seq<Op<K, V>>, k: K)
    requires Sound(c, items, ops)
    ensures Sound(c, Delete(items, k), ops)
  {
    if Has(items, k) {
      var n := IndexOf(items, k);
      var rest := RemoveAt(items, n);
      assert forall i :: 0 <= i < |rest| ==> rest[i] == items[if i < n then i else i + 1];
    }
  }

  lemma {:induction false} BoundNext<K, V>(c: Config, ops: seq<Op<K, V>>, op: Op<K, V>, k: K)
    ensures BoundOf(c, ops + [op], k) == Rebound(c, BoundOf(c, ops, k), k, op)
  {
    assert (ops + [op])[..|ops + [op]| - 1] == ops;
  }

  /** An operation on a key leaves the items of other keys what they are, and counts the key for
      them if it uses it. */
  lemma {:induction false} SoundOthers<K, V>(c: Config, items: seq<Item<K, V>>, ops: seq<Op<K, V>>, op: Op<K, V>)
    requires Sound(c, items, ops) && !op.OpClear? && !Has(items, op.key)
    ensures Sound(c, items, ops + [op])
    ensures Timed(op) ==> forall i :: 0 <= i < |items| ==> op.key in Others(BoundOf(c, ops + [op], items[i].key))
  {
    MissingIs(items, op.key);
    forall i | 0 <= i < |items|
      ensures BoundOf(c, ops + [op], items[i].key) == Rebound(c, BoundOf(c, ops, items[i].key), items[i].key, op)
      ensures items[i].key != op.key
    {
      assert items[i] in items;
      BoundNext(c, ops, op, items[i].key);
    }
  }

  lemma {:induction false} SoundPush<K, V>(c: Config, items: seq<Item<K, V>>, ops: seq<Op<K, V>>, x: Item<K, V>)
    requires Sound(c, items, ops) && ItemOk(c, x, BoundOf(c, ops, x.key))
    requires forall i :: 0 <= i < |items| ==> x.key in Others(BoundOf(c, ops, items[i].key))
    ensures Sound(c, items + [x], ops)
  {
  }

  // ------------------------------------------------------------- what is bound is there

  /** The key is there, or too old, or may have been pushed out. */
  ghost predicate Complete<K, V>(c: Config, items: seq<Item<K, V>>, ops: seq<Op<K, V>>, k: K, now: int) {
    var b := BoundOf(c, ops, k);
    b.Bound? ==> Has(items, k) || (Ages(c) && b.until <= now) || MayBeGone(c, b)
  }

  ghost predicate CacheOk<K, V>(c: Config, items: seq<Item<K, V>>, ops: seq<Op<K, V>>, k: K, now: int) {
    Distinct(items) && Bounded(items, c) && Sound(c, items, ops) && Complete(c, items, ops, k, now)
  }

  /** Dropping what is too old. */
  lemma {:induction false} DropKeeps<K, V>(c: Config, items: seq<Item<K, V>>, ops: seq<Op<K, V>>, k: K, now: int)
    requires CacheOk(c, items, ops, k, now)
    ensures CacheOk(c, DropOldest(items, c, now), ops, k, now)
  {
    var n := DropOldestIsSuffix(items, c, now);
    SoundSuffix(c, items, ops, n);
    DistinctSuffix(items, n);
    if Has(items, k) && n <= IndexOf(items, k) {
      assert items[n..][IndexOf(items, k) - n].key == k;
      IndexIs(items[n..], IndexOf(items, k) - n);
    }
  }

  lemma {:induction false} KeySet<K, V>(items: seq<Item<K, V>>) returns (keys: set<K>)
    requires Distinct(items)
    ensures |keys| == |items| && forall k :: k in keys <==> Has(items, k)
  {
    if items == [] {
      keys := {};
    } else {
      var front := items[..|items| - 1];
      var last := items[|items| - 1].key;
      keys := KeySet(front);
      assert !Has(front, last);
      keys := keys + {last};
      forall k
        ensures k in keys <==> Has(items, k)
      {
        FrontHas(items, k);
      }
    }
  }

  lemma {:induction false} FrontHas<K, V>(items: seq<Item<K, V>>, k: K)
    requires items != []
    ensures Has(items, k) <==> Has(items[..|items| - 1], k) || items[|items| - 1].key == k
  {
    var front := items[..|items| - 1];
    if Has(items, k) && items[|items| - 1].key != k {
      assert front[IndexOf(items, k)].key == k;
    }
    if Has(front, k) {
      assert items[IndexOf(front, k)].key == k;
    }
  }

  /** The item that a new key pushes out of a full cache had all the others used behind it. */
  lemma {:induction false} PushedOut<K, V>(c: Config, items: seq<Item<K, V>>, ops: seq<Op<K, V>>, k: K)
    requires 0 < c.maxSize < |items| && Distinct(items) && Sound(c, items, ops) && items[0].key == k
    ensures MayBeGone(c, BoundOf(c, ops, k))
  {
    var rest := items[1..];
    var keys := KeySet(rest);
    forall x | x in keys
      ensures x in Others(BoundOf(c, ops, k))
    {
      assert items[IndexOf(rest, x) + 1].key == x;
    }
    Smaller(keys, Others(BoundOf(c, ops, k)));
  }

  lemma {:induction false} Smaller<T>(a: set<T>, b: set<T>)
    requires a <= b
    ensures |a| <= |b|
  {
    assert b == a + (b - a);
  }

  lemma {:induction false} ShrinkKeeps<K, V>(c: Config, items: seq<Item<K, V>>, ops: seq<Op<K, V>>, k: K, now: int)
    requires Distinct(items) && Sound(c, items, ops) && Complete(c, items, ops, k, now) && (c.maxSize > 0 ==> |items| <= c.maxSize + 1)
    ensures CacheOk(c, Shrink(items, c), ops, k, now)
  {
    if 0 < c.maxSize < |items| {
      SoundSuffix(c, items, ops, 1);
      DistinctSuffix(items, 1);
      if items[0].key == k {
        PushedOut(c, items, ops, k);
      } else if Has(items, k) {
        IndexIs(items[1..], IndexOf(items, k) - 1);
      }
    }
  }

  // ------------------------------------------------------------- every operation

  /** Whatever became of a key, operations on others at most count them for it. */
  lemma {:induction false} OtherCompletes<K, V>(c: Config, items: seq<Item<K, V>>, items': seq<Item<K, V>>, ops: seq<Op<K, V>>,
                                                op: Op<K, V>, k: K, was: int, now: int)
    requires Complete(c, items, ops, k, was) && was <= now && !op.OpClear? && op.key != k
    requires Has(items, k) ==> Has(items', k)
    ensures Complete(c, items', ops + [op], k, now)
  {
    BoundNext(c, ops, op, k);
    var b := BoundOf(c, ops, k);
    Smaller(Others(b), Others(WithOther(b, op.key)));
  }

  lemma {:induction false} HasPut<K, V>(rest: seq<Item<K, V>>, x: Item<K, V>, k: K)
    ensures Has(rest + [x], k) <==> Has(rest, k) || x.key == k
  {
    FrontHas(rest + [x], k);
    assert (rest + [x])[..|rest|] == rest;
  }

  lemma {:induction false} HasAfterDelete<K, V>(items: seq<Item<K, V>>, x: K, k: K)
    requires Distinct(items) && x != k
    ensures Has(Delete(items, x), k) <==> Has(items, k)
  {
    DeleteOk(items, x);
    MissingIs(items, k);
    MissingIs(Delete(items, x), k);
  }

  /** The items with one put to the back, before any is dropped. */
  lemma {:induction false} PutKeeps<K, V>(c: Config, items: seq<Item<K, V>>, ops: seq<Op<K, V>>, op: Op<K, V>, x: Item<K, V>,
                                          k: K, was: int, now: int)
    requires CacheOk(c, items, ops, k, was) && was <= now && Timed(op) && op.key == x.key
    requires ItemOk(c, x, BoundOf(c, ops + [op], x.key))
    ensures var after := Delete(items, x.key) + [x];
      Distinct(after) && Sound(c, after, ops + [op]) && Complete(c, after, ops + [op], k, now)
  {
    var rest := Delete(items, x.key);
    DeleteOk(items, x.key);
    PutLast(rest, x);
    SoundDelete(c, items, ops, x.key);
    SoundOthers(c, rest, ops, op);
    SoundPush(c, rest, ops + [op], x);
    HasPut(rest, x, k);
    if x.key != k {
      HasAfterDelete(items, x.key, k);
      OtherCompletes(c, items, rest + [x], ops, op, k, was, now);
    }
  }

  /** A Set, with the item it puts to the back. */
  lemma {:induction false} SetKeeps<K, V>(c: Config, items: seq<Item<K, V>>, ops: seq<Op<K, V>>, op: Op<K, V>, x: Item<K, V>,
                                          k: K, was: int, now: int)
    requires CacheOk(c, items, ops, k, was) && was <= now && Timed(op) && op.key == x.key
    requires ItemOk(c, x, BoundOf(c, ops + [op], x.key))
    ensures CacheOk(c, SetWithExpire(items, c, x.key, x.value, x.expires, now), ops + [op], k, now)
  {
    DeleteOk(items, x.key);
    PutKeeps(c, items, ops, op, x, k, was, now);
    var after := Delete(items, x.key) + [x];
    if Has(items, x.key) {
      DropKeeps(c, after, ops + [op], k, now);
    } else {
      ShrinkKeeps(c, after, ops + [op], k, now);
      DropKeeps(c, Shrink(after, c), ops + [op], k, now);
    }
  }

  /** A Get that finds its key. */
  lemma {:induction false} HitKeeps<K, V>(c: Config, items: seq<Item<K, V>>, ops: seq<Op<K, V>>, key: K, k: K, was: int, now: int)
    requires CacheOk(c, items, ops, k, was) && was <= now && Hits(items, c, key, now)
    ensures CacheOk(c, Get(items, c, key, now), ops + [OpGet(key, now)], k, now)
  {
    var x := Refreshed(items[IndexOf(items, key)], c, now);
    BoundNext(c, ops, OpGet(key, now), key);
    assert ItemOk(c, items[IndexOf(items, key)], BoundOf(c, ops, key));
    PutKeeps(c, items, ops, OpGet(key, now), x, k, was, now);
    DeleteOk(items, key);
  }

  /** A Get that finds its key too old. */
  lemma {:induction false} OldKeeps<K, V>(c: Config, items: seq<Item<K, V>>, ops: seq<Op<K, V>>, key: K, k: K, was: int, now: int)
    requires CacheOk(c, items, ops, k, was) && was <= now && Has(items, key) && !Hits(items, c, key, now)
    ensures CacheOk(c, Get(items, c, key, now), ops + [OpGet(key, now)], k, now)
  {
    var rest := Delete(items, key);
    BoundNext(c, ops, OpGet(key, now), key);
    assert ItemOk(c, items[IndexOf(items, key)], BoundOf(c, ops, key));
    DeleteOk(items, key);
    SoundDelete(c, items, ops, key);
    SoundOthers(c, rest, ops, OpGet(key, now));
    if key != k {
      HasAfterDelete(items, key, k);
      OtherCompletes(c, items, rest, ops, OpGet(key, now), k, was, now);
    }
    DropKeeps(c, rest, ops + [OpGet(key, now)], k, now);
  }

  /** A Get of a key that is not there. */
  lemma {:induction false} MissKeeps<K, V>(c: Config, items: seq<Item<K, V>>, ops: seq<Op<K, V>>, key: K, k: K, was: int, now: int)
    requires CacheOk(c, items, ops, k, was) && was <= now && !Has(items, key)
    ensures CacheOk(c, Get(items, c, key, now), ops + [OpGet(key, now)], k, now)
  {
    BoundNext(c, ops, OpGet(key, now), key);
    SoundOthers(c, items, ops, OpGet(key, now));
    if key != k {
      OtherCompletes(c, items, items, ops, OpGet(key, now), k, was, now);
    }
  }

  lemma {:induction false} DeleteKeeps<K, V>(c: Config, items: seq<Item<K, V>>, ops: seq<Op<K, V>>, key: K, k: K, now: int)
    requires CacheOk(c, items, ops, k, now)
    ensures CacheOk(c, Delete(items, key), ops + [OpDelete(key)], k, now)
  {
    var rest := Delete(items, key);
    BoundNext(c, ops, OpDelete(key), key);
    DeleteOk(items, key);
    SoundDelete(c, items, ops, key);
    SoundOthers(c, rest, ops, OpDelete(key));
    if key != k {
      HasAfterDelete(items, key, k);
      OtherCompletes(c, items, rest, ops, OpDelete(key), k, now, now);
    }
  }

  lemma {:induction false} StepKeeps<K, V>(c: Config, items: seq<Item<K, V>>, ops: seq<Op<K, V>>, op: Op<K, V>, k: K, was: int, now: int)
    requires CacheOk(c, items, ops, k, was) && was <= now
    requires if Timed(op) then op.at == now else was == now
    ensures CacheOk(c, Apply(items, c, op), ops + [op], k, now)
  {
    match op
    case OpSet(key, v, at) =>
      BoundNext(c, ops, op, key);
      SetKeeps(c, items, ops, op, Item(key, v, if c.maxAge > 0 then at + c.maxAge else 0), k, was, now);
    case OpSetUntil(key, v, expires, at) =>
      BoundNext(c, ops, op, key);
      SetKeeps(c, items, ops, op, Item(key, v, expires), k, was, now);
    case OpGet(key, at) =>
      if !Has(items, key) {
        MissKeeps(c, items, ops, key, k, was, now);
      } else if Hits(items, c, key, now) {
        HitKeeps(c, items, ops, key, k, was, now);
      } else {
        OldKeeps(c, items, ops, key, k, was, now);
      }
    case OpDelete(key) => DeleteKeeps(c, items, ops, key, k, now);
    case OpClear => BoundNext(c, ops, op, k);
  }

  lemma {:induction false} RunKeeps<K, V>(c: Config, ops: seq<Op<K, V>>, k: K, now: int)
    requires InTime(ops, now)
    ensures CacheOk(c, Run(c, ops), ops, k, now)
  {
    if ops != [] {
      var before, op := ops[..|ops| - 1], ops[|ops| - 1];
      assert ops == before + [op];
      var at := if Timed(op) then op.at else now;
      RunKeeps(c, before, k, at);
      StepKeeps(c, Run(c, before), before, op, k, at, at);
      Later(c, Run(c, ops), ops, k, at, now);
    }
  }

  lemma {:induction false} Later<K, V>(c: Config, items: seq<Item<K, V>>, ops: seq<Op<K, V>>, k: K, was: int, now: int)
    requires CacheOk(c, items, ops, k, was) && was <= now
    ensures CacheOk(c, items, ops, k, now)
  {
  }

  // ------------------------------------------------------------- what a Get answers

  /** After any run, a Get answers only what its key is bound to, and not when that is too old; and
      it does answer that unless as many other keys as fit into the cache were used since. */
  lemma {:induction false} GetAnswers<K, V>(c: Config, ops: seq<Op<K, V>>, k: K, now: int)
    requires InTime(ops, now)
    ensures var b, answer := BoundOf(c, ops, k), Lookup(Run(c, ops), c, k, now);
      && (answer.Some? ==> b.Bound? && answer.value == b.value && (Ages(c) ==> now < b.until))
      && (b.Bound? && (Ages(c) ==> now < b.until) && !MayBeGone(c, b) ==> answer == Some(b.value))
  {
    RunKeeps(c, ops, k, now);
    var items := Run(c, ops);
    if Has(items, k) {
      assert ItemOk(c, items[IndexOf(items, k)], BoundOf(c, ops, k));
    }
  }

  // ------------------------------------------------------------- from one use of a key to the next

  /** The operation neither sets nor deletes the key. */
  predicate Spares<K(==), V>(op: Op<K, V>, k: K) {
    match op
    case OpSet(k', _, _) => k' != k
    case OpSetUntil(k', _, _, _) => k' != k
    case OpGet(_, _) => true
    case OpDelete(k') => k' != k
    case OpClear => false
  }

  /** Nor does it renew its age. */
  predicate LeavesAlone<K(==), V>(c: Config, op: Op<K, V>, k: K) {
    Spares(op, k) && !(op.OpGet? && op.key == k && c.maxAge > 0 && c.updateAgeOnGet)
  }

  /** The other keys that some operations use. */
  function Used<K(==), V>(ops: seq<Op<K, V>>, k: K): set<K> {
    if ops == [] then {}
    else
      var op := ops[|ops| - 1];
      Used(ops[..|ops| - 1], k) + if Timed(op) && op.key != k then {op.key} else {}
  }

  /** Fewer other keys than fit into the cache. */
  predicate FewOthers<K(==), V>(c: Config, ops: seq<Op<K, V>>, k: K) {
    c.maxSize <= 0 || |Used(ops, k)| < c.maxSize
  }

  /** What the key is bound to stays, but for its age when that is renewed, unless it was asked for
      when it was too old. */
  lemma {:induction false} Between<K, V>(c: Config, ops: seq<Op<K, V>>, more: seq<Op<K, V>>, k: K, now: int, renewed: bool)
    requires InTime(ops + more, now) && BoundOf(c, ops, k).Bound? && Others(BoundOf(c, ops, k)) == {}
    requires forall i :: 0 <= i < |more| ==> if renewed then Spares(more[i], k) else LeavesAlone(c, more[i], k)
    ensures var b, b' := BoundOf(c, ops, k), BoundOf(c, ops + more, k);
      if b'.Bound? then b'.value == b.value && b'.others <= Used(more, k) && (renewed || b'.until == b.until)
      else Ages(c) && (renewed || b.until <= now)
    decreases |more|
  {
    var run := ops + more;
    if more == [] {
      assert run == ops;
    } else {
      var front, op := more[..|more| - 1], more[|more| - 1];
      assert run[..|run| - 1] == ops + front && run[|run| - 1] == op;
      Between(c, ops, front, k, if Timed(op) then op.at else now, renewed);
    }
  }

  /** Once a key is set, a Get answers its value until the key is too old for the age set, and no
      longer, if nobody sets or deletes it in between and few other keys are used. Whether it was
      asked for before makes no difference, unless that renews its age. */
  lemma {:induction false} AnswersUntilTooOld<K, V>(c: Config, before: seq<Op<K, V>>, k: K, v: V, at: int, more: seq<Op<K, V>>, now: int)
    requires Ages(c) && InTime(before + [OpSet(k, v, at)] + more, now) && FewOthers(c, more, k)
    requires forall i :: 0 <= i < |more| ==> LeavesAlone(c, more[i], k)
    ensures Lookup(Run(c, before + [OpSet(k, v, at)] + more), c, k, now) == if now < at + c.maxAge then Some(v) else None
  {
    var ops := before + [OpSet(k, v, at)];
    BoundNext(c, before, OpSet(k, v, at), k);
    Between(c, ops, more, k, now, false);
    Smaller(Others(BoundOf(c, ops + more, k)), Used(more, k));
    GetAnswers(c, ops + more, k, now);
  }

  /** With age renewed on Get, the same counts from the last Get that found the key. */
  lemma {:induction false} AnswersSinceHit<K, V>(c: Config, before: seq<Op<K, V>>, k: K, at: int, more: seq<Op<K, V>>, now: int)
    requires Ages(c) && c.updateAgeOnGet && InTime(before + [OpGet(k, at)] + more, now) && FewOthers(c, more, k)
    requires var b := BoundOf(c, before, k); b.Bound? && at < b.until && !MayBeGone(c, b)
    requires forall i :: 0 <= i < |more| ==> LeavesAlone(c, more[i], k)
    ensures Lookup(Run(c, before + [OpGet(k, at)] + more), c, k, now) ==
            if now < at + c.maxAge then Some(BoundOf(c, before, k).value) else None
  {
    var ops := before + [OpGet(k, at)];
    BoundNext(c, before, OpGet(k, at), k);
    Between(c, ops, more, k, now, false);
    Smaller(Others(BoundOf(c, ops + more, k)), Used(more, k));
    GetAnswers(c, ops + more, k, now);
  }

  /** Without an age, or with stale items wanted, a Get answers the value set, however old it is. */
  lemma {:induction false} AlwaysAnswers<K, V>(c: Config, before: seq<Op<K, V>>, k: K, v: V, at: int, more: seq<Op<K, V>>, now: int)
    requires !Ages(c) && InTime(before + [OpSet(k, v, at)] + more, now) && FewOthers(c, more, k)
    requires forall i :: 0 <= i < |more| ==> Spares(more[i], k)
    ensures Lookup(Run(c, before + [OpSet(k, v, at)] + more), c, k, now) == Some(v)
  {
    var ops := before + [OpSet(k, v, at)];
    BoundNext(c, before, OpSet(k, v, at), k);
    Between(c, ops, more, k, now, true);
    Smaller(Others(BoundOf(c, ops + more, k)), Used(more, k));
    GetAnswers(c, ops + more, k, now);
  }
}
