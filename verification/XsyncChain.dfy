/** One bucket chain of the hash table: a root bucket and the buckets linked after it.
    `ChainOk` says that the chain stores exactly the entries of a map whose keys
    hash to this chain, and the lemmas say what each slot write does to that map. */
module XsyncChain {
  import opened Options
  import opened XsyncSwar

  datatype Entry<K, V> = Entry(key: K, value: V)
  datatype Bucket<K, V> = Bucket(meta: bv64, entries: seq<Option<Entry<K, V>>>)
  type Chain<K, V> = seq<Bucket<K, V>>

  function BucketIndex(hash: bv64, tableLen: nat): (r: nat)
    requires tableLen > 0
    ensures r < tableLen
  {
    BitAnd(tableLen - 1, H1(hash))
  }

  ghost predicate SlotHas<K, V>(b: Bucket<K, V>, i: int, k: K) {
    && 0 <= i < |b.entries|
    && b.entries[i].Some?
    && b.entries[i].value.key == k
  }

  ghost predicate Holds<K, V>(c: Chain<K, V>, b: int, i: int, k: K) {
    0 <= b < |c| && SlotHas(c[b], i, k)
  }

  ghost predicate FreeSlot<K, V>(b: Bucket<K, V>, i: int) {
    0 <= i < 5 == |b.entries| && b.entries[i].None?
  }

  /** No slot of the chain is free. */
  ghost predicate Full<K, V>(c: Chain<K, V>) {
    forall b, i :: 0 <= b < |c| ==> !FreeSlot(c[b], i)
  }

  /** Slot (b, i) is the first free one of the chain. */
  ghost predicate FirstFreeAt<K, V>(c: Chain<K, V>, b: int, i: int) {
    && 0 <= b < |c| && FreeSlot(c[b], i)
    && (forall b', i' :: 0 <= b' < b ==> !FreeSlot(c[b'], i'))
    && forall i' :: 0 <= i' < i ==> !FreeSlot(c[b], i')
  }

  ghost predicate AllFree<K, V>(b: Bucket<K, V>) {
    forall i :: 0 <= i < |b.entries| ==> b.entries[i].None?
  }

  ghost predicate Present<K, V>(c: Chain<K, V>, k: K) {
    exists b, i :: Holds(c, b, i, k)
  }

  /** A slot is occupied exactly when its tag byte is not the empty mark, and then the
      tag is the low seven bits of the key's hash. */
  ghost predicate SlotOk<K, V>(meta: bv64, i: nat, slot: Option<Entry<K, V>>, hash: K -> bv64)
    requires i < 8
  {
    ByteAt(meta, i) == if slot.None? then EMPTY_META_SLOT else H2(hash(slot.value.key))
  }

  ghost predicate BucketOk<K, V>(b: Bucket<K, V>, hash: K -> bv64) {
    && |b.entries| == ENTRIES_PER_BUCKET
    && (forall i: nat :: i < 5 ==> SlotOk(b.meta, i, b.entries[i], hash))
    && ByteAt(b.meta, 5) == ByteAt(b.meta, 6) == ByteAt(b.meta, 7) == EMPTY_META_SLOT
  }

  ghost predicate BucketsOk<K, V>(c: Chain<K, V>, hash: K -> bv64) {
    |c| > 0 && forall b :: 0 <= b < |c| ==> BucketOk(c[b], hash)
  }

  ghost predicate Sound<K(!new), V>(c: Chain<K, V>, hash: K -> bv64, len: nat, j: nat, m: map<K, V>)
    requires len > 0
  {
    forall b, i, k :: Holds(c, b, i, k) ==>
      BucketIndex(hash(k), len) == j && k in m && m[k] == c[b].entries[i].value.value
  }

  ghost predicate Unique<K(!new), V>(c: Chain<K, V>) {
    forall b, i, b', i', k :: Holds(c, b, i, k) && Holds(c, b', i', k) ==> b == b' && i == i'
  }

  ghost predicate Complete<K(!new), V>(c: Chain<K, V>, hash: K -> bv64, len: nat, j: nat, m: map<K, V>)
    requires len > 0
  {
    forall k :: k in m && BucketIndex(hash(k), len) == j ==> Present(c, k)
  }

  ghost predicate ChainOk<K(!new), V>(c: Chain<K, V>, hash: K -> bv64, len: nat, j: nat, m: map<K, V>)
    requires len > 0
  {
    && BucketsOk(c, hash)
    && Sound(c, hash, len, j, m)
    && Unique(c)
    && Complete(c, hash, len, j, m)
  }

  // ------------------------------------------------------------- slot writes

  function WriteSlot<K, V>(c: Chain<K, V>, b: nat, i: nat, tag: bv64, slot: Option<Entry<K, V>>): Chain<K, V>
    requires b < |c| && i < |c[b].entries| && i < 5
  {
    c[b := Bucket(SetByte(c[b].meta, tag, i), c[b].entries[i := slot])]
  }

  /** Replace the entry of a slot, leaving the meta word alone. */
  function ReplaceEntry<K, V>(c: Chain<K, V>, b: nat, i: nat, e: Entry<K, V>): Chain<K, V>
    requires b < |c| && i < |c[b].entries|
  {
    c[b := c[b].(entries := c[b].entries[i := Some(e)])]
  }

  function EmptyBucket<K, V>(): Bucket<K, V> {
    Bucket(DEFAULT_META, [None, None, None, None, None])
  }

  function NewBucket<K, V>(h2: bv64, e: Entry<K, V>): Bucket<K, V> {
    Bucket(SetByte(DEFAULT_META, h2, 0), [Some(e), None, None, None, None])
  }

  lemma WriteSlotBucketOk<K, V>(b: Bucket<K, V>, hash: K -> bv64, i: nat, tag: bv64, slot: Option<Entry<K, V>>)
    requires BucketOk(b, hash) && i < 5 && tag <= 0xff
    requires tag == if slot.None? then EMPTY_META_SLOT else H2(hash(slot.value.key))
    ensures BucketOk(Bucket(SetByte(b.meta, tag, i), b.entries[i := slot]), hash)
  {
    forall n: nat | n < 8
      ensures ByteAt(SetByte(b.meta, tag, i), n) == if n == i then tag else ByteAt(b.meta, n)
    {
      SetByteWritesOne(b.meta, tag, i, n);
    }
    var b' := Bucket(SetByte(b.meta, tag, i), b.entries[i := slot]);
    forall n: nat | n < 5
      ensures SlotOk(b'.meta, n, b'.entries[n], hash)
    {
      assert SlotOk(b.meta, n, b.entries[n], hash);
    }
  }

  lemma H2Small(h: bv64)
    ensures H2(h) <= 0x7f
  {}

  lemma NewBucketOk<K, V>(hash: K -> bv64, e: Entry<K, V>)
    ensures BucketOk(NewBucket(H2(hash(e.key)), e), hash)
  {
  }

  lemma EmptyBucketOk<K, V>(hash: K -> bv64)
    ensures BucketOk<K, V>(EmptyBucket(), hash)
  {
  }

  /** Storing a value for a key the chain already holds. */
  lemma UpdateKeepsOk<K(!new), V>(c: Chain<K, V>, hash: K -> bv64, len: nat, j: nat, m: map<K, V>,
                                  b: nat, i: nat, k: K, v: V)
    requires len > 0 && ChainOk(c, hash, len, j, m) && Holds(c, b, i, k)
    ensures ChainOk(ReplaceEntry(c, b, i, Entry(k, v)), hash, len, j, m[k := v])
  {
    var c' := ReplaceEntry(c, b, i, Entry(k, v));
    forall b', i', k'
      ensures Holds(c', b', i', k') <==> Holds(c, b', i', k')
    {}
    assert BucketOk(c[b], hash);
    forall n: nat | n < 5
      ensures SlotOk(c'[b].meta, n, c'[b].entries[n], hash)
    {
      assert SlotOk(c[b].meta, n, c[b].entries[n], hash);
    }
    forall k' | k' in m[k := v] && BucketIndex(hash(k'), len) == j
      ensures Present(c', k')
    {
      assert Present(c, k');
      var b1, i1 :| Holds(c, b1, i1, k');
      assert Holds(c', b1, i1, k');
    }
  }

  /** Emptying the slot of a key removes exactly that key. */
  lemma DeleteKeepsOk<K(!new), V>(c: Chain<K, V>, hash: K -> bv64, len: nat, j: nat, m: map<K, V>,
                                  b: nat, i: nat, k: K)
    requires len > 0 && ChainOk(c, hash, len, j, m) && Holds(c, b, i, k) && i < 5
    ensures ChainOk(WriteSlot(c, b, i, EMPTY_META_SLOT, None), hash, len, j, m - {k})
  {
    var c' := WriteSlot(c, b, i, EMPTY_META_SLOT, None);
    assert BucketOk(c[b], hash);
    WriteSlotBucketOk(c[b], hash, i, EMPTY_META_SLOT, None);
    forall b', i', k'
      ensures Holds(c', b', i', k') <==> Holds(c, b', i', k') && !(b' == b && i' == i)
    {}
    forall k' | k' in m - {k} && BucketIndex(hash(k'), len) == j
      ensures Present(c', k')
    {
      assert Present(c, k');
      var b1, i1 :| Holds(c, b1, i1, k');
      assert Holds(c', b1, i1, k');
    }
  }

  /** Filling a free slot adds one key. */
  lemma InsertKeepsOk<K(!new), V>(c: Chain<K, V>, hash: K -> bv64, len: nat, j: nat, m: map<K, V>,
                                  b: nat, i: nat, k: K, v: V)
    requires len > 0 && ChainOk(c, hash, len, j, m)
    requires b < |c| && i < 5 && |c[b].entries| == 5 && c[b].entries[i].None?
    requires k !in m && BucketIndex(hash(k), len) == j
    ensures ChainOk(WriteSlot(c, b, i, H2(hash(k)), Some(Entry(k, v))), hash, len, j, m[k := v])
  {
    var c' := WriteSlot(c, b, i, H2(hash(k)), Some(Entry(k, v)));
    assert BucketOk(c[b], hash);
    H2Small(hash(k));
    WriteSlotBucketOk(c[b], hash, i, H2(hash(k)), Some(Entry(k, v)));
    forall b', i', k'
      ensures Holds(c', b', i', k') <==> if b' == b && i' == i then k' == k else Holds(c, b', i', k')
    {}
    AddedKeyOk(c, c', hash, len, j, m, b, i, k, v);
  }

  /** Linking a new bucket at the end of the chain adds one key. */
  lemma AppendKeepsOk<K(!new), V>(c: Chain<K, V>, hash: K -> bv64, len: nat, j: nat, m: map<K, V>, k: K, v: V)
    requires len > 0 && ChainOk(c, hash, len, j, m)
    requires k !in m && BucketIndex(hash(k), len) == j
    ensures ChainOk(c + [NewBucket(H2(hash(k)), Entry(k, v))], hash, len, j, m[k := v])
  {
    var c' := c + [NewBucket(H2(hash(k)), Entry(k, v))];
    NewBucketOk(hash, Entry(k, v));
    forall b', i', k'
      ensures Holds(c', b', i', k') <==> if b' == |c| && i' == 0 then k' == k else Holds(c, b', i', k')
    {}
    AddedKeyOk(c, c', hash, len, j, m, |c|, 0, k, v);
  }

  lemma AddedKeyOk<K(!new), V>(c: Chain<K, V>, c': Chain<K, V>, hash: K -> bv64, len: nat, j: nat, m: map<K, V>,
                               b: nat, i: nat, k: K, v: V)
    requires len > 0 && ChainOk(c, hash, len, j, m) && BucketsOk(c', hash)
    requires k !in m && BucketIndex(hash(k), len) == j
    requires forall b', i', k' {:trigger Holds(c', b', i', k')} {:trigger Holds(c, b', i', k')} ::
               Holds(c', b', i', k') <==> if b' == b && i' == i then k' == k else Holds(c, b', i', k')
    requires forall b', i', k' :: Holds(c', b', i', k') && !(b' == b && i' == i) ==>
               c'[b'].entries[i'] == c[b'].entries[i']
    requires Holds(c', b, i, k) && c'[b].entries[i].value.value == v
    requires forall k' :: !Holds(c, b, i, k')
    ensures ChainOk(c', hash, len, j, m[k := v])
  {
  }

  /** A change to a key that belongs to another chain. */
  lemma OtherChainKeepsOk<K(!new), V>(c: Chain<K, V>, hash: K -> bv64, len: nat, j: nat, m: map<K, V>,
                                      m': map<K, V>, k: K)
    requires len > 0 && ChainOk(c, hash, len, j, m)
    requires BucketIndex(hash(k), len) != j
    requires forall k' :: k' != k ==> (k' in m' <==> k' in m) && (k' in m ==> m'[k'] == m[k'])
    ensures ChainOk(c, hash, len, j, m')
  {}

  // ------------------------------------------------------------- searching

  /** The slots marked. */
  ghost function MarkedSlots(marked: bv64): set<nat> {
    set i: nat | i < 8 && Marked(marked, i)
  }

  /** The marks are on slots, and if a slot holds the key, it is marked. */
  ghost predicate Pending<K, V>(b: Bucket<K, V>, key: K, marked: bv64) {
    && IsMask(marked) && (forall i :: i in MarkedSlots(marked) ==> i < 5)
    && forall i: nat :: SlotHas(b, i, key) ==> i in MarkedSlots(marked)
  }

  /** At first, the slots marked include every slot that holds the key. */
  lemma Candidates<K, V>(b: Bucket<K, V>, hash: K -> bv64, key: K, marked: bv64)
    requires BucketOk(b, hash) && marked == MatchMask(b.meta, H2(hash(key)))
    ensures Pending(b, key, marked)
  {
    var h2 := H2(hash(key));
    MatchMaskShape(b.meta, h2, 5);
    MatchMaskShape(b.meta, h2, 6);
    MatchMaskShape(b.meta, h2, 7);
    H2Small(hash(key));
    forall i: nat | SlotHas(b, i, key)
      ensures i in MarkedSlots(marked)
    {
      assert SlotOk(b.meta, i, b.entries[i], hash);
      MatchMaskComplete(b.meta, h2, i);
    }
  }

  /** Clearing the lowest mark takes that slot out. */
  lemma OneMarkLess(marked: bv64, idx: nat)
    requires marked != 0 && IsMask(marked) && idx == FirstMarkedByteIndex(marked) < 8
    ensures IsMask(marked & (marked - 1)) && marked & (marked - 1) < marked
    ensures idx in MarkedSlots(marked) && MarkedSlots(marked & (marked - 1)) == MarkedSlots(marked) - {idx}
  {
    FirstMarkedIsLowest(marked);
    ClearLowestMark(marked, idx, 0);
    forall j: nat | j < 8
      ensures Marked(marked & (marked - 1), j) <==> j != idx && Marked(marked, j)
    {
      ClearLowestMark(marked, idx, j);
    }
  }

  /** One slot looked at. */
  lemma Probed<K, V>(b: Bucket<K, V>, key: K, marked: bv64, idx: nat)
    requires Pending(b, key, marked) && marked != 0 && idx == FirstMarkedByteIndex(marked)
    ensures idx < 5 && marked & (marked - 1) < marked
    ensures !SlotHas(b, idx, key) ==> Pending(b, key, marked & (marked - 1))
  {
    FirstMarkedIsLowest(marked);
    OneMarkLess(marked, idx);
  }

  lemma NoneMarked()
    ensures MarkedSlots(0) == {}
  {
    forall i: nat | i < 8
      ensures i !in MarkedSlots(0)
    {
      ZeroHasNoMark(i);
    }
  }

  /** The byte-parallel search of one bucket. */
  method FindSlot<K(==), V>(b: Bucket<K, V>, hash: K -> bv64, key: K) returns (found: bool, idx: nat)
    requires BucketOk(b, hash)
    ensures found ==> idx < 5 && SlotHas(b, idx, key)
    ensures !found ==> forall i :: !SlotHas(b, i, key)
  {
    var marked := MatchMask(b.meta, H2(hash(key)));
    Candidates(b, hash, key, marked);
    while marked != 0
      invariant Pending(b, key, marked)
      decreases marked
    {
      idx := FirstMarkedByteIndex(marked);
      Probed(b, key, marked, idx);
      if b.entries[idx].Some? && b.entries[idx].value.key == key {
        return true, idx;
      }
      marked := marked & (marked - 1);
    }
    NoneMarked();
    return false, 0;
  }

  method FirstFree<K, V>(b: Bucket<K, V>, ghost hash: K -> bv64) returns (free: bool, idx: nat)
    requires BucketOk(b, hash)
    ensures free ==> FreeSlot(b, idx) && forall i :: 0 <= i < idx ==> !FreeSlot(b, i)
    ensures !free ==> forall i :: !FreeSlot(b, i)
  {
    var emptyw := EmptyMask(b.meta);
    EmptyMaskShape(b.meta, 5);
    forall i: nat | i < 5
      ensures Marked(emptyw, i) <==> b.entries[i].None?
    {
      assert SlotOk(b.meta, i, b.entries[i], hash);
      if b.entries[i].Some? {
        H2Small(hash(b.entries[i].value.key));
      }
      EmptyMaskExact(b.meta, i);
    }
    if emptyw != 0 {
      FirstMarkedIsLowest(emptyw);
      idx := FirstMarkedByteIndex(emptyw);
      if idx >= 5 {
        EmptyMaskShape(b.meta, idx);
        assert false;
      }
      return true, idx;
    }
    forall i: nat | i < 5
      ensures b.entries[i].Some?
    {
      ZeroHasNoMark(i);
    }
    return false, 0;
  }

  /** The lock-free search of a whole chain. */
  method FindInChain<K(==, !new), V>(c: Chain<K, V>, hash: K -> bv64, key: K)
    returns (found: bool, b: nat, i: nat)
    requires BucketsOk(c, hash)
    ensures found ==> i < 5 && Holds(c, b, i, key)
    ensures found <==> Present(c, key)
  {
    b := 0;
    while b < |c|
      invariant 0 <= b <= |c|
      invariant forall b', i :: 0 <= b' < b ==> !Holds(c, b', i, key)
    {
      found, i := FindSlot(c[b], hash, key);
      if found {
        assert Holds(c, b, i, key);
        return;
      }
      b := b + 1;
    }
    found, i := false, 0;
  }

  /** The search under the lock, which also remembers the first free slot of the chain. */
  method ScanChain<K(==, !new), V>(c: Chain<K, V>, hash: K -> bv64, key: K)
    returns (found: bool, b: nat, i: nat, free: bool, fb: nat, fi: nat)
    requires BucketsOk(c, hash)
    ensures found ==> i < 5 && Holds(c, b, i, key)
    ensures found <==> Present(c, key)
    ensures free ==> FirstFreeAt(c, fb, fi)
    ensures !found && !free ==> Full(c)
  {
    free, fb, fi := false, 0, 0;
    b := 0;
    while b < |c|
      invariant 0 <= b <= |c|
      invariant forall b', i :: 0 <= b' < b ==> !Holds(c, b', i, key)
      invariant free ==> FirstFreeAt(c, fb, fi)
      invariant !free ==> forall b', i' :: 0 <= b' < b ==> !FreeSlot(c[b'], i')
    {
      found, i := FindSlot(c[b], hash, key);
      if found {
        assert Holds(c, b, i, key);
        return;
      }
      if !free {
        free, fi := FirstFree(c[b], hash);
        fb := b;
      }
      b := b + 1;
    }
    found, i := false, 0;
  }
}
