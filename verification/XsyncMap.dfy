/** The sequential behaviour of `xsync.Map`: for any hash function and any seeds, every
    operation acts on a finite map, through growing, shrinking and clearing of the table. */
module XsyncMap {
  import opened Options
  import opened Pigeonhole
  import opened XsyncSwar
  import opened XsyncChain
  import opened XsyncTable

  const DEFAULT_MIN_TABLE_LEN: nat := 32
  const SHRINK_FRACTION: nat := 128

  datatype ResizeHint = Grow | Shrink | Clear
  datatype ComputeOp = CancelOp | UpdateOp | DeleteOp
  datatype LoadOp = NoLoadOp | LoadOrComputeOp | LoadAndDeleteOp

  /** A table length reached from the minimal one by doubling. */
  predicate Doubled(len: nat, min: nat) {
    len == min || (len > min && len % 2 == 0 && Doubled(len / 2, min))
  }

  lemma {:induction false} DoubledAtLeast(len: nat, min: nat)
    requires Doubled(len, min)
    ensures len >= min
    ensures len > min ==> len / 2 >= min
  {
  }

  /** Doubling a power of two gives powers of two. */
  lemma {:induction false} DoubledPower(len: nat, k: nat) returns (n: nat)
    requires Doubled(len, PowerOfTwo(k))
    ensures len == PowerOfTwo(n)
  {
    if len == PowerOfTwo(k) {
      n := k;
    } else {
      n := DoubledPower(len / 2, k);
      n := n + 1;
    }
  }

  // ------------------------------------------------------------- what a compute call means

  /** Whether the callback decides the outcome, or a load fast path already did. */
  predicate FastPath<K, V>(m: map<K, V>, key: K, loadOp: LoadOp) {
    (loadOp == LoadOrComputeOp && key in m) || (loadOp == LoadAndDeleteOp && key !in m)
  }

  function Callback<K, V>(m: map<K, V>, key: K, valueFn: (V, bool) -> (V, ComputeOp), zero: V): (V, ComputeOp) {
    if key in m then valueFn(m[key], true) else valueFn(zero, false)
  }

  function AfterCompute<K, V>(m: map<K, V>, key: K, valueFn: (V, bool) -> (V, ComputeOp),
                              loadOp: LoadOp, zero: V): map<K, V> {
    if FastPath(m, key, loadOp) then m
    else
      match Callback(m, key, valueFn, zero)
      case (_, CancelOp) => m
      case (v, UpdateOp) => m[key := v]
      case (_, DeleteOp) => m - {key}
  }

  /** The boolean a call returns. */
  predicate ComputeFlag<K, V>(m: map<K, V>, key: K, valueFn: (V, bool) -> (V, ComputeOp),
                              loadOp: LoadOp, computeOnly: bool, zero: V) {
    if FastPath(m, key, loadOp) then key in m
    else
      match Callback(m, key, valueFn, zero).1
      case CancelOp => key in m
      case UpdateOp => key in m || computeOnly
      case DeleteOp => key in m && !computeOnly
  }

  /** The value a call returns. For a missing key that is not stored it depends on whether
      the chain of the key is full. */
  function Answer<K, V>(m: map<K, V>, key: K, valueFn: (V, bool) -> (V, ComputeOp),
                        loadOp: LoadOp, computeOnly: bool, zero: V, full: bool): V {
    if FastPath(m, key, loadOp) then if key in m then m[key] else zero
    else
      var (v, op) := Callback(m, key, valueFn, zero);
      if key in m then if op == UpdateOp && computeOnly then v else m[key]
      else if op == UpdateOp || full then v else zero
  }

  /** The callback is given the value bound to the key and true, and decides: an update binds what
      it returns, a deletion removes the key, and otherwise the map stays. The answer is the new
      value where one is asked for, else the old one. */
  lemma PresentComputes<K, V>(m: map<K, V>, key: K, valueFn: (V, bool) -> (V, ComputeOp), computeOnly: bool, zero: V, full: bool)
    requires key in m
    ensures var (v, op) := valueFn(m[key], true);
      var after := AfterCompute(m, key, valueFn, NoLoadOp, zero);
      && (op == UpdateOp ==> after == m[key := v])
      && (op == CancelOp ==> after == m)
      && (op == DeleteOp ==> after == map k | k in m && k != key :: m[k])
      && Answer(m, key, valueFn, NoLoadOp, computeOnly, zero, full) == (if computeOnly && op == UpdateOp then v else m[key])
      && (ComputeFlag(m, key, valueFn, NoLoadOp, computeOnly, zero) <==> !(computeOnly && op == DeleteOp))
  {
    assert m - {key} == map k | k in m && k != key :: m[k];
  }

  /** For a missing key it is given zero and false; only an update changes the map. */
  lemma MissingComputes<K, V>(m: map<K, V>, key: K, valueFn: (V, bool) -> (V, ComputeOp), computeOnly: bool, zero: V, full: bool)
    requires key !in m
    ensures var (v, op) := valueFn(zero, false);
      && AfterCompute(m, key, valueFn, NoLoadOp, zero) == (if op == UpdateOp then m[key := v] else m)
      && Answer(m, key, valueFn, NoLoadOp, computeOnly, zero, full) == (if op == UpdateOp || full then v else zero)
      && (ComputeFlag(m, key, valueFn, NoLoadOp, computeOnly, zero) <==> op == UpdateOp && computeOnly)
  {
    assert m - {key} == m;
  }

  /** Where the look without the lock answers, the callback plays no part. */
  lemma LoadComputes<K, V>(m: map<K, V>, key: K, valueFn: (V, bool) -> (V, ComputeOp), loadOp: LoadOp, computeOnly: bool, zero: V, full: bool)
    requires FastPath(m, key, loadOp)
    ensures loadOp == (if key in m then LoadOrComputeOp else LoadAndDeleteOp)
    ensures AfterCompute(m, key, valueFn, loadOp, zero) == m
    ensures Answer(m, key, valueFn, loadOp, computeOnly, zero, full) == if key in m then m[key] else zero
    ensures ComputeFlag(m, key, valueFn, loadOp, computeOnly, zero) <==> key in m
  {
  }

  /** What the documentation of Compute promises to answer: the value bound afterwards, or zero. */
  function Promised<K, V>(m: map<K, V>, key: K, zero: V): V {
    if key in m then m[key] else zero
  }

  /** Compute keeps that promise for a key that is present unless it deletes a value other than
      zero, and for a key that is missing unless it stores nothing, the callback gives a value
      other than zero and the chain is full. */
  lemma PromisedExactly<K, V>(m: map<K, V>, key: K, valueFn: (V, bool) -> (V, ComputeOp), zero: V, full: bool)
    ensures var (v, op) := Callback(m, key, valueFn, zero);
      Answer(m, key, valueFn, NoLoadOp, true, zero, full) == Promised(AfterCompute(m, key, valueFn, NoLoadOp, zero), key, zero) <==>
      if key in m then op != DeleteOp || m[key] == zero else op == UpdateOp || !full || v == zero
  {
  }

  class Map<K(==, !new), V> {
    var table: MapTable<K, V>
    var resizing: bool
    var totalGrowths: nat
    var totalShrinks: nat
    const minTableLen: nat
    const growOnly: bool
    const hashFn: (int, K) -> bv64
    const zero: V

    ghost predicate Valid()
      reads this, table
    {
      && table.Valid() && table.hashFn == hashFn && !resizing
      && minTableLen > 0 && Doubled(|table.buckets|, minTableLen)
    }

    ghost function Contents(): map<K, V>
      reads this, table
    {
      table.contents
    }

    ghost function ChainOf(key: K): Chain<K, V>
      requires Valid()
      reads this, table
    {
      table.buckets[table.Index(key)]
    }

    ghost predicate FullFor(key: K)
      requires Valid()
      reads this, table
    {
      Full(ChainOf(key))
    }

    /** The chain of a key that was missing is as it was, or has the key in its place. */
    ghost predicate Laid(key: K, before: Chain<K, V>, len: nat)
      requires Valid()
      reads this, table
    {
      |table.buckets| == len &&
      if key in Contents() then table.Placed(before, ChainOf(key), Entry(key, Contents()[key])) else ChainOf(key) == before
    }

    /** A call on a missing key finds its chain full and the table overloaded. */
    ghost predicate MustGrow(key: K)
      requires Valid()
      reads this, table
    {
      key !in Contents() && FullFor(key) && |Contents()| > (|table.buckets| * 15) / 4
    }

    /** With a minimal length that is a power of two, a chain is found by the remainder of the hash. */
    lemma IndexIsRemainder(key: K, k: nat)
      requires Valid() && minTableLen == PowerOfTwo(k)
      ensures table.Index(key) == H1(table.Hash()(key)) % |table.buckets|
    {
      var n := DoubledPower(|table.buckets|, k);
      BitAndIsRemainder(n, H1(table.Hash()(key)));
    }

    constructor (minTableLen: nat, growOnly: bool, hashFn: (int, K) -> bv64, zero: V)
      ensures Valid() && fresh(table) && Contents() == map[]
      ensures this.minTableLen == if minTableLen == 0 then DEFAULT_MIN_TABLE_LEN else minTableLen
      ensures this.growOnly == growOnly && this.zero == zero && this.hashFn == hashFn
      ensures |table.buckets| == this.minTableLen && forall key :: ChainOf(key) == [EmptyBucket()]
    {
      var len := if minTableLen == 0 then DEFAULT_MIN_TABLE_LEN else minTableLen;
      var seed: int := *;
      table := new MapTable(len, seed, hashFn);
      this.minTableLen := len;
      this.growOnly := growOnly;
      this.hashFn := hashFn;
      this.zero := zero;
      resizing, totalGrowths, totalShrinks := false, 0, 0;
    }

    method Load(key: K) returns (value: V, ok: bool)
      requires Valid()
      ensures ok <==> key in Contents()
      ensures value == if key in Contents() then Contents()[key] else zero
    {
      var r := table.Load(key);
      value, ok := if r.Some? then r.value else zero, r.Some?;
    }

    method Size() returns (n: int)
      requires Valid()
      ensures n == |Contents()|
    {
      n := table.SumSize();
    }

    /** Replace the table by a larger, smaller or empty one. The caller passes the table
        it worked on, which need not be the current one any more. */
    method Resize(knownTable: MapTable<K, V>, hint: ResizeHint)
      requires Valid() && knownTable.ChainsOk()
      modifies this
      ensures Valid() && (table == old(table) || fresh(table))
      ensures unchanged(old(table))
      ensures Contents() == if hint == Clear then map[] else old(Contents())
      ensures hint == Grow ==> |table.buckets| == 2 * old(|table.buckets|)
      ensures hint == Clear ==> |table.buckets| == minTableLen && fresh(table)
      ensures hint == Shrink ==> minTableLen <= |table.buckets| <= old(|table.buckets|)
      ensures hint == Shrink && growOnly ==> table == old(table)
      ensures hint == Shrink && knownTable == old(table) && !growOnly ==>
                if old(|table.buckets|) > minTableLen && |old(Contents())| <= old(|table.buckets|) * 5 / 128
                then 2 * |table.buckets| == old(|table.buckets|) else table == old(table)
    {
      var knownTableLen := |knownTable.buckets|;
      DoubledAtLeast(|table.buckets|, minTableLen);
      if hint == Shrink {
        var sum := knownTable.SumSize();
        if growOnly || minTableLen == knownTableLen ||
           sum > (knownTableLen * ENTRIES_PER_BUCKET) / SHRINK_FRACTION {
          return;
        }
      }
      resizing := true;
      var tableLen := |table.buckets|;
      var newLen: nat;
      var seed: int := *;
      match hint {
        case Grow =>
          totalGrowths := totalGrowths + 1;
          newLen := 2 * tableLen;
        case Shrink =>
          var shrinkThreshold := (tableLen * ENTRIES_PER_BUCKET) / SHRINK_FRACTION;
          var sum := table.SumSize();
          if tableLen > minTableLen && sum <= shrinkThreshold {
            totalShrinks := totalShrinks + 1;
            newLen := tableLen / 2;
          } else {
            resizing := false;
            return;
          }
        case Clear =>
          newLen := minTableLen;
      }
      var newTable := new MapTable(newLen, seed, hashFn);
      if hint != Clear {
        CopyAll(table, newTable);
      }
      table := newTable;
      resizing := false;
    }

    static method CopyAll(source: MapTable<K, V>, dest: MapTable<K, V>)
      requires source.Valid() && dest.Valid() && dest.contents == map[] && source != dest
      modifies dest
      ensures dest.Valid() && dest.contents == source.contents
      ensures |dest.buckets| == old(|dest.buckets|)
    {
      var tableLen := |source.buckets|;
      for i := 0 to tableLen
        invariant source.Valid() && dest.Valid()
        invariant |dest.buckets| == old(|dest.buckets|)
        invariant i < tableLen ==> source.CopyAt(dest.contents, i, 0, 0)
        invariant i == tableLen ==> dest.contents == source.contents
      {
        CopyOne(source, dest, i);
      }
    }

    /** Copy one chain and count it. */
    static method CopyOne(source: MapTable<K, V>, dest: MapTable<K, V>, i: nat)
      requires source.Valid() && dest.Valid() && source != dest
      requires i < |source.buckets| && source.CopyAt(dest.contents, i, 0, 0)
      modifies dest
      ensures dest.Valid() && |dest.buckets| == old(|dest.buckets|)
      ensures i + 1 < |source.buckets| ==> source.CopyAt(dest.contents, i + 1, 0, 0)
      ensures i + 1 == |source.buckets| ==> dest.contents == source.contents
    {
      var copied := source.CopyBucket(i, dest);
      source.CopiedChain(dest.contents, i);
      dest.AddSize(i, copied);
    }

    /** The look at the chain without the lock, which may answer the call. */
    method LoadFirst(key: K, loadOp: LoadOp) returns (done: bool, actual: V, ok: bool)
      requires Valid()
      ensures done <==> FastPath(Contents(), key, loadOp)
      ensures done ==> (ok <==> key in Contents()) && actual == if ok then Contents()[key] else zero
    {
      if loadOp != NoLoadOp {
        var r := table.Load(key);
        if r.Some? && loadOp == LoadOrComputeOp {
          return true, r.value, true;
        }
        if r.None? && loadOp == LoadAndDeleteOp {
          return true, zero, false;
        }
      }
      return false, zero, false;
    }

    method DoCompute(key: K, valueFn: (V, bool) -> (V, ComputeOp), loadOp: LoadOp, computeOnly: bool)
      returns (actual: V, ok: bool)
      requires Valid()
      modifies this, table
      ensures Valid() && (table == old(table) || fresh(table))
      ensures Contents() == AfterCompute(old(Contents()), key, valueFn, loadOp, zero)
      ensures ok <==> ComputeFlag(old(Contents()), key, valueFn, loadOp, computeOnly, zero)
      ensures actual == Answer(old(Contents()), key, valueFn, loadOp, computeOnly, zero, FullFor(key))
      ensures key !in old(Contents()) && !old(MustGrow(key)) ==> table == old(table) && Laid(key, old(ChainOf(key)), old(|table.buckets|))
    {
      ghost var m, chain, grow, len := Contents(), ChainOf(key), MustGrow(key), |table.buckets|;
      while true
        invariant Valid() && (table == old(table) || fresh(table)) && Contents() == m
        invariant grow || (table == old(table) && ChainOf(key) == chain && |table.buckets| == len && !MustGrow(key))
        decreases if |m| > |table.buckets| then |m| - |table.buckets| else 0
      {
        var done;
        done, actual, ok := Round(key, valueFn, loadOp, computeOnly);
        if done {
          return;
        }
      }
    }

    /** One round: the look without the lock, then an attempt under it. */
    method Round(key: K, valueFn: (V, bool) -> (V, ComputeOp), loadOp: LoadOp, computeOnly: bool)
      returns (done: bool, actual: V, ok: bool)
      requires Valid()
      modifies this, table
      ensures Valid() && (table == old(table) || fresh(table))
      ensures done ==> Contents() == AfterCompute(old(Contents()), key, valueFn, loadOp, zero)
      ensures done ==> (ok <==> ComputeFlag(old(Contents()), key, valueFn, loadOp, computeOnly, zero))
      ensures done ==> actual == Answer(old(Contents()), key, valueFn, loadOp, computeOnly, zero, FullFor(key))
      ensures done && key !in old(Contents()) && !old(MustGrow(key)) ==>
                table == old(table) && Laid(key, old(ChainOf(key)), old(|table.buckets|))
      ensures !done ==> old(MustGrow(key)) && Contents() == old(Contents()) && |table.buckets| == 2 * |old(table.buckets)|
    {
      done, actual, ok := LoadFirst(key, loadOp);
      if !done {
        done, actual, ok := Attempt(key, valueFn, computeOnly);
      }
    }

    /** One locked attempt: it completes the call, or finds the chain full and doubles an
        overloaded table. */
    method Attempt(key: K, valueFn: (V, bool) -> (V, ComputeOp), computeOnly: bool)
      returns (done: bool, actual: V, ok: bool)
      requires Valid()
      modifies this, table
      ensures Valid() && (table == old(table) || fresh(table))
      ensures done ==> Contents() == AfterCompute(old(Contents()), key, valueFn, NoLoadOp, zero)
      ensures done ==> (ok <==> ComputeFlag(old(Contents()), key, valueFn, NoLoadOp, computeOnly, zero))
      ensures done ==> actual == Answer(old(Contents()), key, valueFn, NoLoadOp, computeOnly, zero, FullFor(key))
      ensures done <==> !old(MustGrow(key))
      ensures done && key !in old(Contents()) ==> table == old(table) && Laid(key, old(ChainOf(key)), old(|table.buckets|))
      ensures !done ==> Contents() == old(Contents()) && |table.buckets| == 2 * |old(table.buckets)|
    {
      var found, b, i, free, fb, fi := table.Scan(key);
      done := true;
      if found {
        actual, ok := ComputePresent(key, valueFn, computeOnly, b, i);
      } else {
        if !free {
          var sum := table.SumSize();
          if sum > (|table.buckets| * 15) / 4 {
            Resize(table, Grow);
            return false, zero, false;
          }
        }
        actual, ok := ComputeAbsent(key, valueFn, computeOnly, free, fb, fi);
      }
    }

    /** The branch of a compute call whose key is missing: fill the free slot (b, i) of
        its chain if there is one, or link a new bucket. */
    method ComputeAbsent(key: K, valueFn: (V, bool) -> (V, ComputeOp), computeOnly: bool,
                         free: bool, b: nat, i: nat)
      returns (actual: V, ok: bool)
      requires Valid() && key !in Contents()
      requires if free then FirstFreeAt(ChainOf(key), b, i) else FullFor(key)
      modifies table
      ensures Valid()
      ensures Contents() == AfterCompute(old(Contents()), key, valueFn, NoLoadOp, zero)
      ensures ok <==> ComputeFlag(old(Contents()), key, valueFn, NoLoadOp, computeOnly, zero)
      ensures actual == Answer(old(Contents()), key, valueFn, NoLoadOp, computeOnly, zero, old(FullFor(key)))
      ensures Laid(key, old(ChainOf(key)), old(|table.buckets|))
    {
      var (newValue, op) := valueFn(zero, false);
      if op != UpdateOp {
        assert Contents() - {key} == Contents();
        return if free then zero else newValue, false;
      }
      if free {
        table.Insert(key, newValue, b, i);
      } else {
        table.Append(key, newValue);
      }
      table.AddSize(table.Index(key), 1);
      return newValue, computeOnly;
    }

    /** The branch of a compute call whose key was found at slot (b, i) of its chain. */
    method ComputePresent(key: K, valueFn: (V, bool) -> (V, ComputeOp), computeOnly: bool, b: nat, i: nat)
      returns (actual: V, ok: bool)
      requires Valid() && i < 5 && Holds(table.buckets[table.Index(key)], b, i, key) && key in Contents()
      modifies this, table
      ensures Valid() && (table == old(table) || fresh(table))
      ensures Contents() == AfterCompute(old(Contents()), key, valueFn, NoLoadOp, zero)
      ensures ok <==> ComputeFlag(old(Contents()), key, valueFn, NoLoadOp, computeOnly, zero)
      ensures actual == Answer(old(Contents()), key, valueFn, NoLoadOp, computeOnly, zero, false)
      ensures var (v, op) := valueFn(old(Contents())[key], true);
              Contents() == if op == UpdateOp then old(Contents())[key := v]
                            else if op == DeleteOp then old(Contents()) - {key} else old(Contents())
    {
      var chain := table.buckets[table.Index(key)];
      assert ChainOk(chain, table.Hash(), |table.buckets|, table.Index(key), table.contents);
      var oldv := chain[b].entries[i].value.value;
      var (newv, op) := valueFn(oldv, true);
      match op {
        case DeleteOp =>
          DeletePresent(key, b, i);
          return oldv, !computeOnly;
        case UpdateOp =>
          table.Update(key, newv, b, i);
        case CancelOp =>
          newv := oldv;
      }
      if computeOnly {
        return newv, true;
      }
      return oldv, true;
    }

    /** Empty the slot of the key, and shrink a table that lost a bucket's last entry. */
    method DeletePresent(key: K, b: nat, i: nat)
      requires Valid() && i < 5 && Holds(table.buckets[table.Index(key)], b, i, key) && key in Contents()
      modifies this, table
      ensures Valid() && (table == old(table) || fresh(table))
      ensures Contents() == old(Contents()) - {key}
    {
      var emptied := table.Remove(key, b, i);
      if emptied {
        Resize(table, Shrink);
      }
    }

    // ----------------------------------------------------------- the public operations

    method Store(key: K, value: V)
      requires Valid()
      modifies this, table
      ensures Valid() && (table == old(table) || fresh(table))
      ensures Contents() == old(Contents())[key := value]
      ensures key !in old(Contents()) && !old(MustGrow(key)) ==> table == old(table) && Laid(key, old(ChainOf(key)), old(|table.buckets|))
    {
      var _, _ := DoCompute(key, (_, _) => (value, UpdateOp), NoLoadOp, false);
    }

    method LoadOrStore(key: K, value: V) returns (actual: V, loaded: bool)
      requires Valid()
      modifies this, table
      ensures Valid() && (table == old(table) || fresh(table))
      ensures loaded <==> key in old(Contents())
      ensures Contents() == if loaded then old(Contents()) else old(Contents())[key := value]
      ensures Contents()[key] == actual
    {
      actual, loaded := DoCompute(key, (v, l) => if l then (v, CancelOp) else (value, UpdateOp), LoadOrComputeOp, false);
    }

    method LoadAndStore(key: K, value: V) returns (actual: V, loaded: bool)
      requires Valid()
      modifies this, table
      ensures Valid() && (table == old(table) || fresh(table))
      ensures Contents() == old(Contents())[key := value]
      ensures loaded <==> key in old(Contents())
      ensures actual == if loaded then old(Contents())[key] else value
    {
      actual, loaded := DoCompute(key, (_, _) => (value, UpdateOp), NoLoadOp, false);
    }

    method LoadAndDelete(key: K) returns (value: V, loaded: bool)
      requires Valid()
      modifies this, table
      ensures Valid() && (table == old(table) || fresh(table))
      ensures Contents() == old(Contents()) - {key}
      ensures loaded <==> key in old(Contents())
      ensures value == if loaded then old(Contents())[key] else zero
    {
      ghost var m := Contents();
      value, loaded := DoCompute(key, (v, _) => (v, DeleteOp), LoadAndDeleteOp, false);
      assert key !in m ==> m - {key} == m;
    }

    method LoadOrCompute(key: K, valueFn: () -> (V, bool)) returns (value: V, loaded: bool)
      requires Valid()
      modifies this, table
      ensures Valid() && (table == old(table) || fresh(table))
      ensures loaded <==> key in old(Contents())
      ensures loaded ==> Contents() == old(Contents()) && value == old(Contents())[key]
      ensures !loaded && !valueFn().1 ==> value == valueFn().0 && Contents() == old(Contents())[key := value]
      ensures !loaded && valueFn().1 ==> value == zero && Contents() == old(Contents())
    {
      value, loaded := DoCompute(key,
        (v, l) => if l then (v, CancelOp) else if !valueFn().1 then (valueFn().0, UpdateOp) else (v, CancelOp),
        LoadOrComputeOp, false);
    }

    /** The flag says whether the key is present afterwards. On a deletion the value is
        the deleted one. */
    method Compute(key: K, valueFn: (V, bool) -> (V, ComputeOp)) returns (actual: V, ok: bool)
      requires Valid()
      modifies this, table
      ensures Valid() && (table == old(table) || fresh(table))
      ensures Contents() == AfterCompute(old(Contents()), key, valueFn, NoLoadOp, zero)
      ensures ok <==> key in Contents()
      ensures ok ==> actual == Contents()[key]
      ensures actual == Answer(old(Contents()), key, valueFn, NoLoadOp, true, zero, FullFor(key))
      ensures key in old(Contents()) ==>
                var (v, op) := valueFn(old(Contents())[key], true);
                match op
                case UpdateOp => Contents() == old(Contents())[key := v] && actual == v
                case CancelOp => Contents() == old(Contents()) && actual == old(Contents())[key]
                case DeleteOp => Contents() == old(Contents()) - {key} && actual == old(Contents())[key]
      ensures key !in old(Contents()) ==>
                var (v, op) := valueFn(zero, false);
                match op
                case UpdateOp => Contents() == old(Contents())[key := v] && actual == v
                case _ => Contents() == old(Contents()) && actual == if FullFor(key) then v else zero
      ensures !old(MustGrow(key)) && key !in old(Contents()) ==> table == old(table) && Laid(key, old(ChainOf(key)), old(|table.buckets|))
    {
      ghost var m := Contents();
      actual, ok := DoCompute(key, valueFn, NoLoadOp, true);
      if key in m {
        PresentComputes(m, key, valueFn, true, zero, FullFor(key));
      } else {
        MissingComputes(m, key, valueFn, true, zero, FullFor(key));
      }
    }

    method ClearAll()
      requires Valid()
      modifies this
      ensures Valid() && fresh(table) && Contents() == map[] && |table.buckets| == minTableLen
    {
      Resize(table, Clear);
    }
  }

  // ------------------------------------------------------------- where Compute breaks its promise

  /** A key that is deleted: it is not in the map any more, and the answer is not zero. */
  method DeletionBreaksPromise(hashFn: (int, int) -> bv64) returns (actual: int, ok: bool)
    ensures actual == 1 && !ok
  {
    var m := new Map<int, int>(0, false, hashFn, 0);
    m.Store(0, 1);
    actual, ok := m.Compute(0, (v, loaded) => (v, DeleteOp));
  }

  // ------------------------------------------------------------- six keys of one chain

  /** Six different keys whose chain is the same. */
  ghost predicate OneChain(m: Map<int, int>, keys: seq<int>)
    requires m.Valid()
    reads m, m.table
  {
    && |keys| == 6 && (forall i, j :: 0 <= i < j < 6 ==> keys[i] != keys[j])
    && forall i :: 0 <= i < 6 ==> m.table.Index(keys[i]) == m.table.Index(keys[0])
  }

  /** The chains of the first n numbers. */
  method Chains(m: Map<int, int>, n: nat) returns (f: seq<nat>)
    requires m.Valid()
    ensures |f| == n && forall i :: 0 <= i < n ==> f[i] == m.table.Index(i)
  {
    f := [];
    for k := 0 to n
      invariant |f| == k && forall i :: 0 <= i < k ==> f[i] == m.table.Index(i)
    {
      var index := m.table.Index(k);
      f := f + [index];
    }
  }

  /** Whatever the hash, among 161 keys there are six whose chain of 32 is the same. */
  method SixKeys(m: Map<int, int>) returns (keys: seq<int>)
    requires m.Valid() && |m.table.buckets| == 32
    ensures OneChain(m, keys)
  {
    var f := Chains(m, 161);
    var j, p := FindCrowded(f, 32, 5);
    keys := [p[0], p[1], p[2], p[3], p[4], p[5]];
    assert forall i :: 0 <= i < 6 ==> keys[i] == p[i] && f[p[i]] == j;
  }

  // ------------------------------------------------------------- five of them fill the chain

  /** A chain whose one bucket holds n entries in its first slots. */
  ghost predicate Filled<V>(c: Chain<int, V>, n: nat) {
    |c| == 1 && |c[0].entries| == 5 && forall i :: 0 <= i < 5 ==> (c[0].entries[i].Some? <==> i < n)
  }

  lemma FillNext<V>(c: Chain<int, V>, n: nat, b: nat, i: nat, tag: bv64, e: Entry<int, V>)
    requires Filled(c, n) && n < 5 && FirstFreeAt(c, b, i)
    ensures Filled(WriteSlot(c, b, i, tag, Some(e)), n + 1)
  {
    assert FreeSlot(c[0], n);
  }

  /** The map holds the first n keys. */
  ghost predicate FirstOf<V>(m: map<int, V>, keys: seq<int>, n: nat) {
    n <= |keys| && |m| == n && forall k :: k in m <==> k in keys[..n]
  }

  lemma FirstOfNext<V>(m: map<int, V>, keys: seq<int>, n: nat, v: V)
    requires FirstOf(m, keys, n) && n < |keys| && forall i, j :: 0 <= i < j < |keys| ==> keys[i] != keys[j]
    ensures keys[n] !in m && FirstOf(m[keys[n] := v], keys, n + 1)
  {
    assert keys[..n + 1] == keys[..n] + [keys[n]];
    assert keys[n] !in keys[..n];
    assert forall k :: k in keys[..n + 1] <==> k in keys[..n] || k == keys[n];
  }

  /** The map holds the first n keys, which fill the chain they have in common so far. */
  ghost predicate Holding(m: Map<int, int>, keys: seq<int>, n: nat)
    reads m, m.table
  {
    && m.Valid() && |m.table.buckets| == 32 && m.zero == 0 && OneChain(m, keys)
    && Filled(m.ChainOf(keys[0]), n) && FirstOf(m.Contents(), keys, n)
  }

  lemma PlacedNext(m: Map<int, int>, c: Chain<int, int>, c': Chain<int, int>, n: nat, e: Entry<int, int>)
    requires Filled(c, n) && n < 5 && m.table.Placed(c, c', e)
    ensures Filled(c', n + 1)
  {
    assert FreeSlot(c[0], n);
    var tag := H2(m.table.Hash()(e.key));
    var b: nat, i: nat :| FirstFreeAt(c, b, i) && c' == WriteSlot(c, b, i, tag, Some(e));
    FillNext(c, n, b, i, tag, e);
  }

  method StoreNext(m: Map<int, int>, keys: seq<int>, n: nat)
    requires Holding(m, keys, n) && n < 5
    modifies m, m.table
    ensures Holding(m, keys, n + 1) && m.table == old(m.table)
  {
    ghost var c := m.ChainOf(keys[0]);
    FirstOfNext(m.Contents(), keys, n, n);
    m.Store(keys[n], n);
    PlacedNext(m, c, m.ChainOf(keys[n]), n, Entry(keys[n], n));
  }

  lemma NoRoomLeft(m: Map<int, int>, keys: seq<int>)
    requires Holding(m, keys, 5)
    ensures keys[5] !in m.Contents() && !m.MustGrow(keys[5]) && m.FullFor(keys[5])
  {
    FirstOfNext(m.Contents(), keys, 5, 0);
  }

  method CancelOnFull(m: Map<int, int>, keys: seq<int>) returns (actual: int, ok: bool)
    requires Holding(m, keys, 5)
    modifies m, m.table
    ensures actual == 1 && !ok && m.Valid() && m.Contents() == old(m.Contents())
  {
    NoRoomLeft(m, keys);
    actual, ok := m.Compute(keys[5], (v, loaded) => (1, CancelOp));
  }

  method StoreFive(m: Map<int, int>, keys: seq<int>)
    requires Holding(m, keys, 0)
    modifies m, m.table
    ensures Holding(m, keys, 5) && m.table == old(m.table)
  {
    for n := 0 to 5
      invariant Holding(m, keys, n) && m.table == old(m.table)
    {
      StoreNext(m, keys, n);
    }
  }

  lemma HoldingNone(m: Map<int, int>, keys: seq<int>)
    requires m.Valid() && |m.table.buckets| == 32 && m.zero == 0 && OneChain(m, keys)
    requires m.ChainOf(keys[0]) == [EmptyBucket()] && m.Contents() == map[]
    ensures Holding(m, keys, 0)
  {
    assert keys[..0] == [];
  }

  /** Whatever the hash: five keys of one chain are stored, and a Compute on a sixth is cancelled.
      The key is not in the map, and the answer is not zero. */
  method FullChainBreaksPromise(hashFn: (int, int) -> bv64) returns (m: Map<int, int>, key: int, actual: int, ok: bool)
    ensures fresh(m) && m.Valid() && m.hashFn == hashFn && m.zero == 0
    ensures key !in m.Contents() && actual == 1 && !ok
  {
    m := new Map<int, int>(0, false, hashFn, 0);
    var keys := SixKeys(m);
    HoldingNone(m, keys);
    StoreFive(m, keys);
    NoRoomLeft(m, keys);
    key := keys[5];
    actual, ok := CancelOnFull(m, keys);
  }
}
