/** Choosing among proxies: jump consistent hashing, consistent hashing with retries, and
    round-robin. Proxies are known by their index, and by whether they are alive. */
module LoadBalance {
  import opened Arithmetic
  import opened Options

  // ------------------------------------------------------------- jump hash

  const WORD: nat := 0x1_0000_0000_0000_0000

  /** The next key of a linear congruential generator on 64-bit words. */
  function NextKey(key: nat): (next: nat)
    ensures next < WORD
  {
    (key * 2862933555777941757 + 1) % WORD
  }

  /** Where a bucket's key jumps to, given the bucket and a key: at least one bucket on. The
      proofs hold of every such function, so rounding does not matter to them. */
  ghost predicate JumpsAhead(jump: (nat, nat) -> nat) {
    forall b: nat, key: nat :: key < WORD ==> jump(b, key) >= b + 1
  }

  /** The jump with exact division: the divisor is at most 2 to the 31. */
  function ExactJump(b: nat, key: nat): nat {
    (b + 1) * 0x8000_0000 / (key / 0x2_0000_0000 + 1)
  }

  lemma QuotientAtLeast(x: nat, m: nat, d: nat)
    requires 0 < d <= m
    ensures x * m / d >= x
  {
    var q := x * m / d;
    assert q * d + x * m % d == x * m;
    assert x * d <= x * m;
    assert q < x ==> q * d <= (x - 1) * d;
    assert (x - 1) * d == x * d - d;
  }

  lemma ExactJumpsAhead()
    ensures JumpsAhead(ExactJump)
  {
    forall b: nat, key: nat | key < WORD
      ensures ExactJump(b, key) >= b + 1
    {
      QuotientAtLeast(b + 1, 0x8000_0000, key / 0x2_0000_0000 + 1);
    }
  }

  // ------------------------------------------------------------- how the jumps spread keys

  /** How many values the top bits of a key can have: 2 to the 31. */
  const TOPS: nat := 0x8000_0000

  /** How many keys have the same top bits: 2 to the 33. */
  const LOWS: nat := 0x2_0000_0000

  lemma QuotientPast(x: nat, d: nat, n: nat)
    requires d > 0
    ensures x / d >= n <==> n * d <= x
  {
    var q, r := x / d, x % d;
    assert x == q * d + r;
    if q >= n {
      assert q * d >= n * d;
    } else {
      assert (n - 1) * d >= q * d;
      assert (n - 1) * d == n * d - d;
    }
  }

  /** A jump leads to n or beyond exactly for the smallest values of the top bits. */
  lemma JumpsPast(b: nat, top: nat, low: nat, n: nat)
    requires top < TOPS && low < LOWS && n > 0
    ensures ExactJump(b, top * LOWS + low) >= n <==> top < (b + 1) * TOPS / n
  {
    var key := top * LOWS + low;
    assert key / LOWS == top by {
      QuotientUnique(LOWS, key / LOWS, key % LOWS, top, low);
    }
    QuotientPast((b + 1) * TOPS, top + 1, n);
    QuotientPast((b + 1) * TOPS, n, top + 1);
  }

  lemma {:induction false} Below(s: set<nat>, n: nat)
    requires forall v: nat :: v in s <==> v < n
    ensures |s| == n
    decreases n
  {
    if n == 0 {
      assert s == {};
    } else {
      Below(s - {n - 1}, n - 1);
    }
  }

  /** Do these top bits take a key from bucket b to n or beyond? */
  predicate Leaves(jump: (nat, nat) -> nat, b: nat, n: nat, low: nat, top: nat) {
    jump(b, top * LOWS + low) >= n
  }

  /** The values of the top bits with which bucket b is left for n or beyond. */
  ghost function Leaving(jump: (nat, nat) -> nat, b: nat, n: nat, low: nat): set<nat> {
    set top: nat | top < TOPS && Leaves(jump, b, n, low, top)
  }

  lemma ShareFits(b: nat, n: nat)
    requires b < n
    ensures (b + 1) * TOPS / n <= TOPS
  {
    QuotientPast((b + 1) * TOPS, n, TOPS + 1);
    assert (b + 1) * TOPS <= n * TOPS;
    assert (TOPS + 1) * n == n * TOPS + n;
  }

  /** With n buckets, a key in bucket b before the last leaves all of them behind with a share of
      (b + 1) / n, rounded down, of all values of its top bits, whatever its low bits are. */
  lemma JumpIsBalanced(b: nat, n: nat, low: nat)
    requires b < n && low < LOWS
    ensures |Leaving(ExactJump, b, n, low)| == (b + 1) * TOPS / n
  {
    var q := (b + 1) * TOPS / n;
    ShareFits(b, n);
    forall top: nat | top < TOPS
      ensures Leaves(ExactJump, b, n, low, top) <==> top < q
    {
      JumpsPast(b, top, low, n);
    }
    Below(Leaving(ExactJump, b, n, low), q);
  }

  /** The low bits of a key play no part in its jump. */
  lemma OnlyTopBits(b: nat, top: nat, low: nat)
    requires low < LOWS
    ensures ExactJump(b, top * LOWS + low) == ExactJump(b, top * LOWS)
  {
    QuotientUnique(LOWS, (top * LOWS + low) / LOWS, (top * LOWS + low) % LOWS, top, low);
    QuotientUnique(LOWS, (top * LOWS) / LOWS, (top * LOWS) % LOWS, top, 0);
  }

  /** The inverse of the generator's factor, modulo 2 to the 64. */
  const INVERSE: nat := 16133697096952638549

  /** The generator goes through different keys from different keys: each can be found back. */
  lemma NextKeyUndone(key: nat)
    requires key < WORD
    ensures (NextKey(key) - 1) * INVERSE % WORD == key
  {
    var a, w := 2862933555777941757, 2503948805982125087;
    assert a * INVERSE == w * WORD + 1;
    var q := (key * a + 1) / WORD;
    var next := NextKey(key);
    assert next - 1 == key * a - q * WORD;
    calc {
      (next - 1) * INVERSE;
      (key * a - q * WORD) * INVERSE;
      key * (a * INVERSE) - q * WORD * INVERSE;
      key * (w * WORD + 1) - q * WORD * INVERSE;
      (key * w - q * INVERSE) * WORD + key;
    }
    RemainderIs((next - 1) * INVERSE, WORD, key * w - q * INVERSE, key);
  }

  // ------------------------------------------------------------- the walk over the buckets

  /** The last bucket jumped to below the number of buckets. The jumps themselves do not
      depend on that number. */
  function Walk(jump: (nat, nat) -> nat, key: nat, b: nat, j: nat, buckets: int): nat
    requires JumpsAhead(jump)
    decreases buckets - j
  {
    if j >= buckets then b
    else Walk(jump, NextKey(key), j, jump(j, NextKey(key)), buckets)
  }

  method JumpHash(jump: (nat, nat) -> nat, key0: nat, buckets: int) returns (r: nat)
    requires JumpsAhead(jump)
    ensures r == Walk(jump, key0, 0, 0, buckets)
  {
    var b: nat, j: nat, key: nat := 0, 0, key0;
    while j < buckets
      invariant Walk(jump, key, b, j, buckets) == Walk(jump, key0, 0, 0, buckets)
      decreases buckets - j
    {
      b := j;
      key := NextKey(key);
      j := jump(b, key);
    }
    r := b;
  }

  /** The key after so many steps of the generator. */
  function KeyAfter(key: nat, i: nat): nat {
    if i == 0 then key else NextKey(KeyAfter(key, i - 1))
  }

  /** The i-th bucket that a key would go to if there was no end to them: each is jumped to from the
      one before, with a new key for each jump. */
  function BucketNo(jump: (nat, nat) -> nat, key: nat, i: nat): nat {
    if i == 0 then 0 else jump(BucketNo(jump, key, i - 1), KeyAfter(key, i))
  }

  lemma {:induction false} WalkFrom(jump: (nat, nat) -> nat, key: nat, buckets: int, i: nat) returns (n: nat)
    requires JumpsAhead(jump) && BucketNo(jump, key, i) < buckets
    ensures n >= i
    ensures Walk(jump, KeyAfter(key, i), 0, BucketNo(jump, key, i), buckets) == BucketNo(jump, key, n)
    ensures BucketNo(jump, key, n) < buckets <= BucketNo(jump, key, n + 1)
    decreases buckets - BucketNo(jump, key, i)
  {
    var b, next := BucketNo(jump, key, i), BucketNo(jump, key, i + 1);
    KeyIsWord(key, i + 1);
    assert next >= b + 1;
    if next < buckets {
      n := WalkFrom(jump, key, buckets, i + 1);
      WalkForgets(jump, KeyAfter(key, i + 1), 0, b, next, buckets);
    } else {
      n := i;
    }
  }

  lemma KeyIsWord(key: nat, i: nat)
    requires i > 0
    ensures KeyAfter(key, i) < WORD
  {
  }

  /** The bucket left does not matter while the next one is among the buckets. */
  lemma WalkForgets(jump: (nat, nat) -> nat, key: nat, b: nat, b': nat, j: nat, buckets: int)
    requires JumpsAhead(jump) && j < buckets
    ensures Walk(jump, key, b, j, buckets) == Walk(jump, key, b', j, buckets)
  {
  }

  /** A key goes to the last bucket, in the order of its jumps, that is below the number of
      buckets. */
  lemma WalkIs(jump: (nat, nat) -> nat, key: nat, buckets: int) returns (n: nat)
    requires JumpsAhead(jump) && buckets >= 1
    ensures Walk(jump, key, 0, 0, buckets) == BucketNo(jump, key, n)
    ensures BucketNo(jump, key, n) < buckets <= BucketNo(jump, key, n + 1)
  {
    n := WalkFrom(jump, key, buckets, 0);
  }

  lemma {:induction false} WalkInRange(jump: (nat, nat) -> nat, key: nat, b: nat, j: nat, buckets: int)
    requires JumpsAhead(jump) && b < buckets
    ensures b <= Walk(jump, key, b, j, buckets) < buckets || j < b
    ensures Walk(jump, key, b, j, buckets) < buckets
    decreases buckets - j
  {
    if j < buckets {
      WalkInRange(jump, NextKey(key), j, jump(j, NextKey(key)), buckets);
    }
  }

  /** With at least one bucket, the hash is one of the buckets. */
  lemma HashInRange(jump: (nat, nat) -> nat, key: nat, buckets: int)
    requires JumpsAhead(jump) && buckets >= 1
    ensures Walk(jump, key, 0, 0, buckets) < buckets
  {
    WalkInRange(jump, key, 0, 0, buckets);
  }

  lemma {:induction false} WalkOn(jump: (nat, nat) -> nat, key: nat, b: nat, j: nat, n: int, m: int)
    requires JumpsAhead(jump) && n <= m && b < n <= j
    ensures Walk(jump, key, b, j, m) == b || n <= Walk(jump, key, b, j, m)
  {
    if j < m {
      WalkKeepsUp(jump, NextKey(key), j, jump(j, NextKey(key)), m);
    }
  }

  lemma {:induction false} WalkKeepsUp(jump: (nat, nat) -> nat, key: nat, b: nat, j: nat, buckets: int)
    requires JumpsAhead(jump) && b <= j
    ensures Walk(jump, key, b, j, buckets) >= b
    decreases buckets - j
  {
    if j < buckets {
      WalkKeepsUp(jump, NextKey(key), j, jump(j, NextKey(key)), buckets);
    }
  }

  lemma {:induction false} WalksAgree(jump: (nat, nat) -> nat, key: nat, b: nat, j: nat, n: int, m: int)
    requires JumpsAhead(jump) && n <= m && b < n
    ensures Walk(jump, key, b, j, m) == Walk(jump, key, b, j, n) || n <= Walk(jump, key, b, j, m)
    decreases n - j
  {
    if j < n {
      WalksAgree(jump, NextKey(key), j, jump(j, NextKey(key)), n, m);
    } else {
      WalkOn(jump, key, b, j, n, m);
    }
  }

  /** Adding buckets moves a key only into the new ones; with one bucket more, a key stays
      where it is or moves to the new bucket. */
  lemma Consistent(jump: (nat, nat) -> nat, key: nat, n: int, m: int)
    requires JumpsAhead(jump) && 1 <= n <= m
    ensures var before, after := Walk(jump, key, 0, 0, n), Walk(jump, key, 0, 0, m);
      && (after == before || n <= after < m)
      && (m == n + 1 ==> after == before || after == n)
  {
    WalksAgree(jump, key, 0, 0, n, m);
    HashInRange(jump, key, m);
  }

  // ------------------------------------------------------------- consistent hashing

  const MAX_RETRY := 5

  function Hash(jump: (nat, nat) -> nat, key: nat, buckets: int): (r: nat)
    requires JumpsAhead(jump) && buckets >= 1
    ensures r < buckets
  {
    HashInRange(jump, key, buckets);
    Walk(jump, key, 0, 0, buckets)
  }

  /** The key of the i-th try goes up by one each time. */
  function KeyAt(key: nat, i: nat): nat {
    if i == 0 then key else (KeyAt(key, i - 1) + 1) % WORD
  }

  lemma {:induction false} KeyAtIs(key: nat, i: nat)
    requires key < WORD
    ensures KeyAt(key, i) == (key + i) % WORD
  {
    if i > 0 {
      KeyAtIs(key, i - 1);
      NextRemainder(key + (i - 1), WORD);
      NextRemainder(KeyAt(key, i - 1), WORD);
      RemainderIs(KeyAt(key, i - 1), WORD, 0, KeyAt(key, i - 1));
    } else {
      RemainderIs(key, WORD, 0, key);
    }
  }

  /** No try before the i-th finds a live proxy. */
  ghost predicate AllDead(jump: (nat, nat) -> nat, alive: seq<bool>, key: nat, i: nat)
    requires JumpsAhead(jump) && |alive| > 0
  {
    forall j :: 0 <= j < i ==> !alive[Hash(jump, KeyAt(key, j), |alive|)]
  }

  /** A choice crashes exactly when there is no proxy; a live proxy is chosen if there is one. */
  ghost predicate Sound(pick: Option<nat>, alive: seq<bool>) {
    && (pick.None? <==> alive == [])
    && (pick.Some? ==> pick.value < |alive| && (alive[pick.value] <==> exists i :: 0 <= i < |alive| && alive[i]))
  }

  /** A few tries by hash, then the first live proxy of the list, then the first proxy. The
      first try that finds a live proxy decides. The list must not be empty: its first proxy
      is taken without a check. */
  method ConsistentHashing(jump: (nat, nat) -> nat, alive: seq<bool>, key0: nat) returns (pick: Option<nat>)
    requires JumpsAhead(jump)
    ensures Sound(pick, alive)
    ensures alive != [] ==> Chosen(jump, alive, key0, pick.value)
  {
    if alive == [] {
      var none := JumpHash(jump, key0, |alive|);
      assert none == 0; // not an index of the list
      return None;
    }
    var id := Choose(jump, alive, key0);
    pick := Some(id);
  }

  /** The first try by hash that finds a live proxy, else the first live one, else the first. */
  ghost predicate Chosen(jump: (nat, nat) -> nat, alive: seq<bool>, key0: nat, id: nat)
    requires JumpsAhead(jump) && |alive| > 0
  {
    && (forall i :: 0 <= i < MAX_RETRY && AllDead(jump, alive, key0, i) && alive[Hash(jump, KeyAt(key0, i), |alive|)]
          ==> id == Hash(jump, KeyAt(key0, i), |alive|))
    && (AllDead(jump, alive, key0, MAX_RETRY) ==> forall i :: 0 <= i < id && i < |alive| ==> !alive[i])
    && ((forall i :: 0 <= i < |alive| ==> !alive[i]) ==> id == 0)
  }

  method Choose(jump: (nat, nat) -> nat, alive: seq<bool>, key0: nat) returns (id: nat)
    requires JumpsAhead(jump) && |alive| > 0
    ensures id < |alive|
    ensures alive[id] <==> exists i :: 0 <= i < |alive| && alive[i]
    ensures Chosen(jump, alive, key0, id)
  {
    var key, i := key0, 0;
    while i < MAX_RETRY
      invariant 0 <= i <= MAX_RETRY && key == KeyAt(key0, i) && AllDead(jump, alive, key0, i)
    {
      id := JumpHash(jump, key, |alive|);
      assert id == Hash(jump, KeyAt(key0, i), |alive|);
      if alive[id] {
        return;
      }
      i, key := i + 1, (key + 1) % WORD;
    }
    for n := 0 to |alive|
      invariant forall j :: 0 <= j < n ==> !alive[j]
    {
      if alive[n] {
        return n;
      }
    }
    return 0;
  }

  // ------------------------------------------------------------- round-robin

  /** The indices of n proxies in cyclic order from a place. */
  function Cycle(from: nat, n: nat): (ids: seq<nat>)
    ensures |ids| == n && forall i :: 0 <= i < n ==> ids[i] < n
  {
    seq(n, i requires 0 <= i < n => (from + i) % n)
  }

  /** Those of some proxies that are alive, in their order. */
  function Live(ids: seq<nat>, alive: seq<bool>): seq<nat>
    requires forall i :: 0 <= i < |ids| ==> ids[i] < |alive|
  {
    if ids == [] then []
    else (if alive[ids[0]] then [ids[0]] else []) + Live(ids[1..], alive)
  }

  class RoundRobin {
    var idx: nat

    constructor ()
      ensures idx == 0
    {
      idx := 0;
    }

    /** The next live proxy from the current place on, or the first proxy if none is alive.
        A touching call moves the place behind the proxy it returns. The list must not be
        empty: its first proxy is taken without a check, and the place then stays. */
    method Pick(alive: seq<bool>, touch: bool) returns (pick: Option<nat>)
      modifies this
      ensures Sound(pick, alive)
      ensures alive != [] ==> pick == Some(Picked(old(idx), alive))
      ensures alive != [] && true !in alive ==> pick == Some(0)
      ensures idx == if touch && alive != [] then Behind(old(idx), alive) else old(idx)
    {
      var i, length := 0, |alive|;
      ghost var ids := Cycle(idx, length);
      while i < length
        invariant 0 <= i <= length && idx == old(idx)
        invariant forall j :: 0 <= j < i ==> !alive[ids[j]]
      {
        var id := (idx + i) % length;
        assert id == ids[i];
        if alive[id] {
          FirstLiveIs(ids, alive, i);
          i := i + 1;
          if touch {
            idx := (idx + i) % length;
          }
          return Some(id);
        }
        i := i + 1;
      }
      if length == 0 {
        return None;
      }
      NoneLive(ids, alive);
      NoneLiveAtAll(idx, alive);
      if touch {
        idx := (idx + i) % length;
      }
      return Some(0);
    }
  }

  /** Every proxy has its place in the cycle. */
  lemma NoneLiveAtAll(from: nat, alive: seq<bool>)
    requires alive != [] && forall i :: 0 <= i < |alive| ==> !alive[Cycle(from, |alive|)[i]]
    ensures forall id :: 0 <= id < |alive| ==> !alive[id]
  {
    var ids := Cycle(from, |alive|);
    forall id | 0 <= id < |alive|
      ensures !alive[id]
    {
      CycleHasEach(from, |alive|, id);
      assert id in multiset(ids);
      assert id in ids;
    }
  }

  /** How many of some proxies come before the first live one. */
  function FirstLive(ids: seq<nat>, alive: seq<bool>): (n: nat)
    requires forall i :: 0 <= i < |ids| ==> ids[i] < |alive|
    ensures n <= |ids| && forall i :: 0 <= i < n ==> !alive[ids[i]]
    ensures n < |ids| ==> alive[ids[n]]
  {
    if ids == [] || alive[ids[0]] then 0 else 1 + FirstLive(ids[1..], alive)
  }

  lemma FirstLiveIs(ids: seq<nat>, alive: seq<bool>, n: nat)
    requires forall i :: 0 <= i < |ids| ==> ids[i] < |alive|
    requires n < |ids| && alive[ids[n]] && forall i :: 0 <= i < n ==> !alive[ids[i]]
    ensures FirstLive(ids, alive) == n
  {
  }

  /** When no proxy is alive, the first is picked. */
  lemma NoneAliveFirst(idx: nat, alive: seq<bool>)
    requires alive != [] && true !in alive
    ensures Picked(idx, alive) == 0
  {
    NoneLive(Cycle(idx, |alive|), alive);
  }

  lemma NoneLive(ids: seq<nat>, alive: seq<bool>)
    requires forall i :: 0 <= i < |ids| ==> ids[i] < |alive| && !alive[ids[i]]
    ensures FirstLive(ids, alive) == |ids|
  {
  }

  function Picked(idx: nat, alive: seq<bool>): nat
    requires |alive| > 0
  {
    var ids := Cycle(idx, |alive|);
    var n := FirstLive(ids, alive);
    if n < |ids| then ids[n] else 0
  }

  /** The place behind the proxy picked, or a full turn on if there is none. */
  function Behind(idx: nat, alive: seq<bool>): nat
    requires |alive| > 0
  {
    var n := FirstLive(Cycle(idx, |alive|), alive);
    (idx + if n < |alive| then n + 1 else n) % |alive|
  }

  /** The proxies that n touching calls in a row pick while the same ones stay alive. */
  function Picks(idx: nat, alive: seq<bool>, n: nat): seq<nat>
    requires |alive| > 0
    decreases n
  {
    if n == 0 then [] else [Picked(idx, alive)] + Picks(Behind(idx, alive), alive, n - 1)
  }

  /** The live proxies in cyclic order from a place. */
  function LiveFrom(idx: nat, alive: seq<bool>): seq<nat> {
    Live(Cycle(idx, |alive|), alive)
  }

  lemma {:induction false} LiveAppend(a: seq<nat>, b: seq<nat>, alive: seq<bool>)
    requires forall i :: 0 <= i < |a| ==> a[i] < |alive|
    requires forall i :: 0 <= i < |b| ==> b[i] < |alive|
    ensures Live(a + b, alive) == Live(a, alive) + Live(b, alive)
  {
    if a == [] {
      assert a + b == b;
    } else {
      LiveAppend(a[1..], b, alive);
      assert a + b == [a[0]] + (a[1..] + b);
      LiveFirst(a[0], a[1..] + b, alive);
      var first := if alive[a[0]] then [a[0]] else [];
      assert first + (Live(a[1..], alive) + Live(b, alive)) == first + Live(a[1..], alive) + Live(b, alive);
    }
  }

  lemma LiveFirst(id: nat, rest: seq<nat>, alive: seq<bool>)
    requires id < |alive| && forall i :: 0 <= i < |rest| ==> rest[i] < |alive|
    ensures Live([id] + rest, alive) == (if alive[id] then [id] else []) + Live(rest, alive)
  {
  }

  lemma {:induction false} LiveOfDead(ids: seq<nat>, alive: seq<bool>)
    requires forall i :: 0 <= i < |ids| ==> ids[i] < |alive| && !alive[ids[i]]
    ensures Live(ids, alive) == []
  {
    if ids != [] {
      LiveOfDead(ids[1..], alive);
    }
  }

  lemma SumRemainder(x: nat, i: nat, n: nat)
    requires n > 0
    ensures (x % n + i) % n == (x + i) % n
  {
    var q, r := x / n, x % n;
    var q', r' := (r + i) / n, (r + i) % n;
    assert x + i == (q + q') * n + r';
    RemainderIs(x + i, n, q + q', r');
  }

  /** A place i of the cycle from d further on, reckoned from the start of the old one. */
  lemma PlaceTurned(idx: nat, d: nat, n: nat, i: nat)
    requires d <= n && i < n
    ensures ((idx + d) % n + i) % n == (idx + if i < n - d then d + i else d + i - n) % n
  {
    SumRemainder(idx + d, i, n);
    if i >= n - d {
      FullTurn(idx + (d + i - n), n);
    }
  }

  /** Moving the place d on turns the cycle by d. */
  lemma CycleTurned(idx: nat, d: nat, n: nat)
    requires 0 < n && d <= n
    ensures Cycle((idx + d) % n, n) == Cycle(idx, n)[d..] + Cycle(idx, n)[..d]
  {
    var turned, ids := Cycle((idx + d) % n, n), Cycle(idx, n);
    forall i | 0 <= i < n
      ensures turned[i] == (ids[d..] + ids[..d])[i]
    {
      PlaceTurned(idx, d, n, i);
    }
  }

  lemma FullTurn(x: nat, n: nat)
    requires n > 0
    ensures (x + n) % n == x % n
  {
    RemainderIs(x + n, n, x / n + 1, x % n);
  }

  /** The live ones from the place behind a pick. */
  lemma {:induction false} LiveBehind(idx: nat, alive: seq<bool>, n: nat)
    requires |alive| > 0 && n == FirstLive(Cycle(idx, |alive|), alive) < |alive|
    ensures var ids := Cycle(idx, |alive|);
      LiveFrom(Behind(idx, alive), alive) == Live(ids[n + 1..] + ids[..n + 1], alive)
  {
    CycleTurned(idx, n + 1, |alive|);
  }

  /** Proxies up to the first live one, moved to the back. */
  lemma {:induction false} FirstTurned(ids: seq<nat>, alive: seq<bool>, n: nat) returns (rest: seq<nat>)
    requires forall i :: 0 <= i < |ids| ==> ids[i] < |alive|
    requires n < |ids| && alive[ids[n]] && forall i :: 0 <= i < n ==> !alive[ids[i]]
    ensures Live(ids, alive) == [ids[n]] + rest
    ensures Live(ids[n + 1..] + ids[..n + 1], alive) == rest + [ids[n]]
  {
    var upTo, behind := ids[..n + 1], ids[n + 1..];
    assert ids == upTo + behind;
    OneLive(upTo, alive);
    TurnedLive(upTo, behind, alive, ids[n]);
    rest := Live(behind, alive);
  }

  /** After a pick, the proxy picked goes from the front of the live ones to their back. */
  lemma {:induction false} PickTurnsLive(idx: nat, alive: seq<bool>)
    requires |alive| > 0 && LiveFrom(idx, alive) != []
    ensures Picked(idx, alive) == LiveFrom(idx, alive)[0]
    ensures LiveFrom(Behind(idx, alive), alive) == LiveFrom(idx, alive)[1..] + [LiveFrom(idx, alive)[0]]
  {
    var ids := Cycle(idx, |alive|);
    var n := FirstLive(ids, alive);
    if n == |ids| {
      LiveOfDead(ids, alive);
    } else {
      var rest := FirstTurned(ids, alive, n);
      LiveBehind(idx, alive, n);
    }
  }

  /** A first part with one live proxy goes to the back. */
  lemma {:induction false} TurnedLive(upTo: seq<nat>, rest: seq<nat>, alive: seq<bool>, id: nat)
    requires forall i :: 0 <= i < |upTo| ==> upTo[i] < |alive|
    requires forall i :: 0 <= i < |rest| ==> rest[i] < |alive|
    requires Live(upTo, alive) == [id]
    ensures Live(upTo + rest, alive) == [id] + Live(rest, alive)
    ensures Live(rest + upTo, alive) == Live(rest, alive) + [id]
  {
    LiveAppend(upTo, rest, alive);
    LiveAppend(rest, upTo, alive);
  }

  /** Dead proxies and then a live one: that one is the live part. */
  lemma OneLive(ids: seq<nat>, alive: seq<bool>)
    requires ids != [] && forall i :: 0 <= i < |ids| ==> ids[i] < |alive|
    requires alive[ids[|ids| - 1]] && forall i :: 0 <= i < |ids| - 1 ==> !alive[ids[i]]
    ensures Live(ids, alive) == [ids[|ids| - 1]]
  {
    var dead, p := ids[..|ids| - 1], ids[|ids| - 1];
    assert ids == dead + [p];
    LiveOfDead(dead, alive);
    LiveAppend(dead, [p], alive);
    LiveFirst(p, [], alive);
    assert [p] + [] == [p];
  }

  lemma {:induction false} PicksLength(idx: nat, alive: seq<bool>, n: nat)
    requires |alive| > 0
    ensures |Picks(idx, alive, n)| == n
    decreases n
  {
    if n > 0 {
      PicksLength(Behind(idx, alive), alive, n - 1);
    }
  }

  /** The i-th of any number of touching calls in a row picks the live proxy whose turn it
      is, going round in cyclic order. */
  lemma {:induction false} PicksGoRound(idx: nat, alive: seq<bool>, n: nat, i: nat)
    requires |alive| > 0 && LiveFrom(idx, alive) != [] && i < n
    ensures |Picks(idx, alive, n)| == n
    ensures Picks(idx, alive, n)[i] == LiveFrom(idx, alive)[i % |LiveFrom(idx, alive)|]
    decreases n
  {
    var live := LiveFrom(idx, alive);
    var k := |live|;
    PicksLength(idx, alive, n);
    PickTurnsLive(idx, alive);
    if i == 0 {
      RemainderIs(0, k, 0, 0);
    } else {
      var next := LiveFrom(Behind(idx, alive), alive);
      PicksGoRound(Behind(idx, alive), alive, n - 1, i - 1);
      NextRemainder(i - 1, k);
      var j := (i - 1) % k;
      assert next == live[1..] + [live[0]];
      assert next[j] == live[if j + 1 < k then j + 1 else 0];
    }
  }

  /** As many touching calls as there are live proxies pick each of them once, in cyclic
      order. */
  lemma EachLiveOnce(idx: nat, alive: seq<bool>)
    requires |alive| > 0
    ensures Picks(idx, alive, |LiveFrom(idx, alive)|) == LiveFrom(idx, alive)
  {
    var live := LiveFrom(idx, alive);
    var k := |live|;
    if k > 0 {
      PicksLength(idx, alive, k);
      forall i | 0 <= i < k
        ensures Picks(idx, alive, k)[i] == live[i]
      {
        PicksGoRound(idx, alive, k, i);
        RemainderIs(i, k, 0, i);
      }
    }
  }

  /** The live proxies in cyclic order are exactly the live ones, each once. */
  lemma LiveFromIsLive(idx: nat, alive: seq<bool>, id: nat)
    requires |alive| > 0
    ensures multiset(LiveFrom(idx, alive))[id] == if id < |alive| && alive[id] then 1 else 0
  {
    CycleHasEach(idx, |alive|, id);
    LiveCount(Cycle(idx, |alive|), alive, id);
  }

  lemma {:induction false} LiveCount(ids: seq<nat>, alive: seq<bool>, id: nat)
    requires forall i :: 0 <= i < |ids| ==> ids[i] < |alive|
    ensures multiset(Live(ids, alive))[id] == if id < |alive| && alive[id] then multiset(ids)[id] else 0
  {
    if ids != [] {
      var x, rest := ids[0], ids[1..];
      LiveCount(rest, alive, id);
      assert ids == [x] + rest;
      CountFirst(x, rest, id);
      LiveFirst(x, rest, alive);
      if alive[x] {
        CountFirst(x, Live(rest, alive), id);
      } else {
        assert [] + Live(rest, alive) == Live(rest, alive);
      }
    }
  }

  lemma CountFirst(x: nat, rest: seq<nat>, id: nat)
    ensures multiset([x] + rest)[id] == multiset(rest)[id] + if x == id then 1 else 0
  {
    assert multiset([x] + rest) == multiset{x} + multiset(rest);
  }

  /** A cycle goes through each number below n once. */
  lemma CycleHasEach(from: nat, n: nat, id: nat)
    requires n > 0
    ensures multiset(Cycle(from, n))[id] == if id < n then 1 else 0
  {
    var d := from % n;
    var plain := Cycle(0, n);
    assert forall i :: 0 <= i < n ==> plain[i] == i by {
      forall i | 0 <= i < n
        ensures plain[i] == i
      {
        RemainderIs(i, n, 0, i);
      }
    }
    CycleTurned(0, d, n);
    FromRemainder(from, n);
    assert plain == plain[..d] + plain[d..];
    assert multiset(Cycle(from, n)) == multiset(plain);
    PlainHasEach(plain, id);
  }

  lemma FromRemainder(from: nat, n: nat)
    requires n > 0
    ensures Cycle(from, n) == Cycle(from % n, n) && from % n % n == from % n
  {
    var a, b := Cycle(from, n), Cycle(from % n, n);
    forall i | 0 <= i < n
      ensures a[i] == b[i]
    {
      SumRemainder(from, i, n);
    }
    RemainderIs(from % n, n, 0, from % n);
  }

  lemma {:induction false} PlainHasEach(plain: seq<nat>, id: nat)
    requires forall i :: 0 <= i < |plain| ==> plain[i] == i
    ensures multiset(plain)[id] == if id < |plain| then 1 else 0
  {
    if plain != [] {
      PlainHasEach(plain[..|plain| - 1], id);
      assert plain == plain[..|plain| - 1] + [|plain| - 1];
    }
  }
}
