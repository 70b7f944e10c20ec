/** One hash table of `xsync.Map`: bucket chains, striped size counters and a hash seed. */
module XsyncTable {
  import opened Options
  import opened XsyncSwar
  import opened XsyncChain

  const MIN_COUNTER_LEN: nat := 8
  const MAX_COUNTER_LEN: nat := 32

  function Sum(s: seq<int>): int {
    if s == [] then 0 else Sum(s[..|s| - 1]) + s[|s| - 1]
  }

  lemma {:induction false} SumUpdate(s: seq<int>, i: nat, x: int)
    requires i < |s|
    ensures Sum(s[i := x]) == Sum(s) - s[i] + x
  {
    var n := |s| - 1;
    if i == n {
      assert s[i := x][..n] == s[..n];
    } else {
      assert s[i := x][..n] == s[..n][i := x];
      SumUpdate(s[..n], i, x);
    }
  }

  lemma {:induction false} SumZeros(n: nat)
    ensures Sum(seq(n, _ => 0)) == 0
  {
    if n > 0 {
      assert seq(n, _ => 0)[..n - 1] == seq(n - 1, _ => 0);
      SumZeros(n - 1);
    }
  }

  class MapTable<K(==, !new), V> {
    var buckets: seq<Chain<K, V>>
    var size: seq<int>
    const seed: int
    const hashFn: (int, K) -> bv64
    ghost var contents: map<K, V>

    function Hash(): K -> bv64 {
      k => hashFn(seed, k)
    }

    /** The chains store exactly `contents`. */
    ghost predicate ChainsOk()
      reads this
    {
      && |buckets| > 0
      && |size| > 0
      && forall j :: 0 <= j < |buckets| ==> ChainOk(buckets[j], Hash(), |buckets|, j, contents)
    }

    /** ... and the striped counters sum to its size. */
    ghost predicate Valid()
      reads this
    {
      ChainsOk() && Sum(size) == |contents|
    }

    constructor (minTableLen: nat, seed: int, hashFn: (int, K) -> bv64)
      requires minTableLen > 0
      ensures Valid() && contents == map[]
      ensures |buckets| == minTableLen && this.hashFn == hashFn && this.seed == seed
      ensures forall j :: 0 <= j < |buckets| ==> buckets[j] == [EmptyBucket()]
      ensures |size| == if minTableLen / 1024 < MIN_COUNTER_LEN then MIN_COUNTER_LEN
                        else if minTableLen / 1024 > MAX_COUNTER_LEN then MAX_COUNTER_LEN
                        else minTableLen / 1024
    {
      var counterLen := minTableLen / 1024;
      if counterLen < MIN_COUNTER_LEN {
        counterLen := MIN_COUNTER_LEN;
      } else if counterLen > MAX_COUNTER_LEN {
        counterLen := MAX_COUNTER_LEN;
      }
      buckets := seq(minTableLen, _ => [EmptyBucket()]);
      size := seq(counterLen, _ => 0);
      this.seed := seed;
      this.hashFn := hashFn;
      contents := map[];
      new;
      SumZeros(counterLen);
      EmptyBucketOk<K, V>(Hash());
    }

    function Index(key: K): (r: nat)
      requires |buckets| > 0
      reads this
      ensures r < |buckets|
    {
      BucketIndex(hashFn(seed, key), |buckets|)
    }

    method Load(key: K) returns (r: Option<V>)
      requires ChainsOk()
      ensures r == if key in contents then Some(contents[key]) else None
    {
      var c := buckets[Index(key)];
      var found, b, i := FindInChain(c, Hash(), key);
      if found {
        return Some(c[b].entries[i].value.value);
      }
      assert key in contents ==> Present(c, key);
      return None;
    }

    /** The locked traversal: find the key, or remember the first free slot of its chain. */
    method Scan(key: K) returns (found: bool, b: nat, i: nat, free: bool, fb: nat, fi: nat)
      requires ChainsOk()
      ensures found <==> key in contents
      ensures found ==> i < 5 && Holds(buckets[Index(key)], b, i, key)
      ensures !found ==> if free then FirstFreeAt(buckets[Index(key)], fb, fi) else Full(buckets[Index(key)])
    {
      found, b, i, free, fb, fi := ScanChain(buckets[Index(key)], Hash(), key);
      assert key in contents ==> Present(buckets[Index(key)], key);
    }

    method AddSize(bucketIdx: nat, delta: int)
      requires |size| > 0
      modifies this`size
      ensures exists c :: 0 <= c < |old(size)| && size == old(size)[c := old(size)[c] + delta]
      ensures |size| == |old(size)| && Sum(size) == Sum(old(size)) + delta
    {
      var cidx := BitAnd(|size| - 1, bucketIdx);
      ghost var was := size;
      SumUpdate(was, cidx, was[cidx] + delta);
      size := size[cidx := size[cidx] + delta];
      assert 0 <= cidx < |was| && size == was[cidx := was[cidx] + delta];
    }

    method SumSize() returns (sum: int)
      ensures sum == Sum(size)
    {
      sum := 0;
      for i := 0 to |size|
        invariant sum == Sum(size[..i])
      {
        assert size[..i + 1][..i] == size[..i];
        sum := sum + size[i];
      }
      assert size[..|size|] == size;
    }

    // ----------------------------------------------------------- the four slot writes

    /** After a write to the chain of `k`, the other chains store the new map as well. */
    lemma OtherChains(m: map<K, V>, m': map<K, V>, k: K)
      requires |buckets| > 0
      requires forall j :: 0 <= j < |buckets| && j != Index(k) ==> ChainOk(buckets[j], Hash(), |buckets|, j, m)
      requires forall k' :: k' != k ==> (k' in m' <==> k' in m) && (k' in m ==> m'[k'] == m[k'])
      ensures forall j :: 0 <= j < |buckets| && j != Index(k) ==> ChainOk(buckets[j], Hash(), |buckets|, j, m')
    {
    }

    method Update(key: K, value: V, b: nat, i: nat)
      requires ChainsOk() && Holds(buckets[Index(key)], b, i, key)
      modifies this`buckets, this`contents
      ensures ChainsOk() && |buckets| == old(|buckets|)
      ensures contents == old(contents)[key := value] && |contents| == |old(contents)|
    {
      var j := Index(key);
      UpdateKeepsOk(buckets[j], Hash(), |buckets|, j, contents, b, i, key, value);
      buckets := buckets[j := ReplaceEntry(buckets[j], b, i, Entry(key, value))];
      OtherChains(contents, contents[key := value], key);
      contents := contents[key := value];
    }

    method Delete(key: K, b: nat, i: nat) returns (bucketEmptied: bool)
      requires ChainsOk() && i < 5 && Holds(buckets[Index(key)], b, i, key)
      modifies this`buckets, this`contents
      ensures ChainsOk() && |buckets| == old(|buckets|)
      ensures contents == old(contents) - {key} && |contents| == |old(contents)| - 1
      ensures b < |buckets[Index(key)]| && (bucketEmptied <==> AllFree(buckets[Index(key)][b]))
    {
      var j := Index(key);
      DeleteKeepsOk(buckets[j], Hash(), |buckets|, j, contents, b, i, key);
      buckets := buckets[j := WriteSlot(buckets[j], b, i, EMPTY_META_SLOT, None)];
      OtherChains(contents, contents - {key}, key);
      assert (contents - {key}).Keys == contents.Keys - {key};
      contents := contents - {key};
      bucketEmptied := buckets[j][b].meta == DEFAULT_META;
      EmptyBucketMeta(buckets[j][b]);
    }

    /** Empty the slot of a key and count it off. */
    method Remove(key: K, b: nat, i: nat) returns (bucketEmptied: bool)
      requires Valid() && i < 5 && Holds(buckets[Index(key)], b, i, key)
      modifies this
      ensures Valid() && |buckets| == old(|buckets|) && contents == old(contents) - {key}
    {
      var j := Index(key);
      bucketEmptied := Delete(key, b, i);
      AddSize(j, -1);
    }

    lemma EmptyBucketMeta(b: Bucket<K, V>)
      requires BucketOk(b, Hash())
      ensures b.meta == DEFAULT_META <==> AllFree(b)
    {
      forall n: nat | n < 8
        ensures ByteAt(DEFAULT_META, n) == EMPTY_META_SLOT
      {
        DefaultMetaBytes(n);
      }
      forall n: nat | n < 5
        ensures b.entries[n].None? <==> ByteAt(b.meta, n) == EMPTY_META_SLOT
      {
        assert SlotOk(b.meta, n, b.entries[n], Hash());
        if b.entries[n].Some? {
          H2Small(hashFn(seed, b.entries[n].value.key));
        }
      }
      if AllFree(b) {
        forall n: nat | n < 8
          ensures ByteAt(b.meta, n) == ByteAt(DEFAULT_META, n)
        {}
        BytesDetermineWord(b.meta, DEFAULT_META);
      }
    }

    method Insert(key: K, value: V, b: nat, i: nat)
      requires ChainsOk() && key !in contents
      requires b < |buckets[Index(key)]| && FreeSlot(buckets[Index(key)][b], i)
      modifies this`buckets, this`contents
      ensures ChainsOk() && |buckets| == old(|buckets|)
      ensures buckets == old(buckets)[Index(key) := WriteSlot(old(buckets)[Index(key)], b, i, H2(Hash()(key)), Some(Entry(key, value)))]
      ensures contents == old(contents)[key := value] && |contents| == |old(contents)| + 1
    {
      var j := Index(key);
      InsertKeepsOk(buckets[j], Hash(), |buckets|, j, contents, b, i, key, value);
      buckets := buckets[j := WriteSlot(buckets[j], b, i, H2(hashFn(seed, key)), Some(Entry(key, value)))];
      OtherChains(contents, contents[key := value], key);
      contents := contents[key := value];
    }

    method Append(key: K, value: V)
      requires ChainsOk() && key !in contents
      modifies this`buckets, this`contents
      ensures ChainsOk() && |buckets| == old(|buckets|)
      ensures buckets == old(buckets)[Index(key) := old(buckets)[Index(key)] + [NewBucket(H2(Hash()(key)), Entry(key, value))]]
      ensures contents == old(contents)[key := value] && |contents| == |old(contents)| + 1
    {
      var j := Index(key);
      AppendKeepsOk(buckets[j], Hash(), |buckets|, j, contents, key, value);
      buckets := buckets[j := buckets[j] + [NewBucket(H2(hashFn(seed, key)), Entry(key, value))]];
      OtherChains(contents, contents[key := value], key);
      contents := contents[key := value];
    }

    // ----------------------------------------------------------- copying

    /** A chain with an entry in its first free slot, or in a new bucket if it is full. */
    ghost predicate Placed(c: Chain<K, V>, c': Chain<K, V>, e: Entry<K, V>) {
      if Full(c) then c' == c + [NewBucket(H2(Hash()(e.key)), e)]
      else exists b: nat, i: nat :: FirstFreeAt(c, b, i) && c' == WriteSlot(c, b, i, H2(Hash()(e.key)), Some(e))
    }

    /** Put an entry into the first free slot of its chain. */
    method InsertFirst(e: Entry<K, V>, b: nat, i: nat)
      requires ChainsOk() && e.key !in contents && FirstFreeAt(buckets[Index(e.key)], b, i)
      modifies this`buckets, this`contents
      ensures ChainsOk() && |buckets| == old(|buckets|)
      ensures contents == old(contents)[e.key := e.value] && |contents| == |old(contents)| + 1
      ensures Placed(old(buckets)[Index(e.key)], buckets[Index(e.key)], e)
      ensures forall j :: 0 <= j < |buckets| && j != Index(e.key) ==> buckets[j] == old(buckets)[j]
    {
      assert FreeSlot(buckets[Index(e.key)][b], i);
      Insert(e.key, e.value, b, i);
    }

    /** Put an entry of another table into the first free slot of its chain here. */
    method AppendToBucket(e: Entry<K, V>)
      requires ChainsOk() && e.key !in contents
      modifies this`buckets, this`contents
      ensures ChainsOk() && |buckets| == old(|buckets|)
      ensures contents == old(contents)[e.key := e.value] && |contents| == |old(contents)| + 1
      ensures Placed(old(buckets)[Index(e.key)], buckets[Index(e.key)], e)
      ensures forall j :: 0 <= j < |buckets| && j != Index(e.key) ==> buckets[j] == old(buckets)[j]
    {
      var c := buckets[Index(e.key)];
      for b := 0 to |c|
        invariant forall b', i' :: 0 <= b' < b ==> !FreeSlot(c[b'], i')
      {
        assert BucketOk(c[b], Hash());
        for i := 0 to ENTRIES_PER_BUCKET
          invariant forall i' :: 0 <= i' < i ==> !FreeSlot(c[b], i')
        {
          if c[b].entries[i].None? {
            InsertFirst(e, b, i);
            return;
          }
        }
      }
      Append(e.key, e.value);
    }

    /** The slots before (b, i) of chain j hold the key. */
    ghost predicate HeldBefore(c: Chain<K, V>, b: int, i: int, k: K) {
      exists b', i' :: Holds(c, b', i', k) && (b' < b || (b' == b && i' < i))
    }

    /** Keys already copied when the copy stands at slot (b, i) of chain j. */
    ghost predicate Copied(j: int, b: int, i: int, k: K)
      requires ChainsOk() && j < |buckets|
      reads this
    {
      k in contents && (Index(k) < j || (0 <= j && Index(k) == j && HeldBefore(buckets[j], b, i, k)))
    }

    ghost predicate CopyAt(dest: map<K, V>, j: int, b: int, i: int)
      requires ChainsOk() && j < |buckets|
      reads this
    {
      && (forall k :: k in dest <==> Copied(j, b, i, k))
      && (forall k :: k in dest ==> k in contents && dest[k] == contents[k])
    }

    method CopyBucket(j: nat, dest: MapTable<K, V>) returns (copied: nat)
      requires ChainsOk() && j < |buckets| && dest != this && dest.ChainsOk()
      requires CopyAt(dest.contents, j, 0, 0)
      modifies dest`buckets, dest`contents
      ensures dest.ChainsOk() && |dest.buckets| == old(|dest.buckets|)
      ensures CopyAt(dest.contents, j, |buckets[j]|, 0)
      ensures |dest.contents| == |old(dest.contents)| + copied
    {
      copied := 0;
      for b := 0 to |buckets[j]|
        invariant dest.ChainsOk() && |dest.buckets| == old(|dest.buckets|)
        invariant CopyAt(dest.contents, j, b, 0)
        invariant |dest.contents| == |old(dest.contents)| + copied
      {
        assert BucketOk(buckets[j][b], Hash());
        for i := 0 to ENTRIES_PER_BUCKET
          invariant dest.ChainsOk() && |dest.buckets| == old(|dest.buckets|)
          invariant CopyAt(dest.contents, j, b, i)
          invariant |dest.contents| == |old(dest.contents)| + copied
        {
          CopyStep(dest.contents, j, b, i);
          if buckets[j][b].entries[i].Some? {
            dest.AppendToBucket(buckets[j][b].entries[i].value);
            copied := copied + 1;
          }
        }
        CopyNextBucket(j, b);
      }
    }

    /** Copying one slot: nothing to do for a free one, and an entry whose key is not
        yet in the destination otherwise. */
    lemma CopyStep(dest: map<K, V>, j: nat, b: nat, i: nat)
      requires ChainsOk() && j < |buckets| && b < |buckets[j]| && i < 5 && |buckets[j][b].entries| == 5
      requires CopyAt(dest, j, b, i)
      ensures buckets[j][b].entries[i].None? ==> CopyAt(dest, j, b, i + 1)
      ensures buckets[j][b].entries[i].Some? ==>
        var e := buckets[j][b].entries[i].value;
        e.key !in dest && CopyAt(dest[e.key := e.value], j, b, i + 1)
    {
      var c := buckets[j];
      assert ChainOk(c, Hash(), |buckets|, j, contents);
      if c[b].entries[i].None? {
        CopyFree(j, b, i);
      } else {
        CopyEntry(j, b, i, c[b].entries[i].value);
      }
    }

    lemma CopyFree(j: nat, b: nat, i: nat)
      requires ChainsOk() && j < |buckets| && b < |buckets[j]|
      requires FreeSlot(buckets[j][b], i)
      ensures forall k :: Copied(j, b, i + 1, k) <==> Copied(j, b, i, k)
    {}

    lemma CopyEntry(j: nat, b: nat, i: nat, e: Entry<K, V>)
      requires ChainsOk() && j < |buckets|
      requires Holds(buckets[j], b, i, e.key) && buckets[j][b].entries[i].value == e
      ensures e.key in contents && contents[e.key] == e.value && !Copied(j, b, i, e.key)
      ensures forall k :: Copied(j, b, i + 1, k) <==> Copied(j, b, i, k) || k == e.key
    {
    }

    lemma CopyNextBucket(j: nat, b: nat)
      requires ChainsOk() && j < |buckets| && b < |buckets[j]|
      ensures forall k :: Copied(j, b + 1, 0, k) <==> Copied(j, b, 5, k)
    {
    }

    lemma CopyNextChain(j: nat)
      requires ChainsOk() && j < |buckets|
      ensures j + 1 < |buckets| ==> forall k :: Copied(j + 1, 0, 0, k) <==> Copied(j, |buckets[j]|, 0, k)
      ensures j + 1 == |buckets| ==> forall k :: Copied(j, |buckets[j]|, 0, k) <==> k in contents
    {
    }

    /** A chain copied to its end: the next one is due, or everything has been copied. */
    lemma CopiedChain(dest: map<K, V>, j: nat)
      requires ChainsOk() && j < |buckets| && CopyAt(dest, j, |buckets[j]|, 0)
      ensures j + 1 < |buckets| ==> CopyAt(dest, j + 1, 0, 0)
      ensures j + 1 == |buckets| ==> dest == contents
    {
      CopyNextChain(j);
    }
  }
}
