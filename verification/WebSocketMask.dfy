/** WebSocket masking in place, eight octets at a time, against the octet-wise algorithm of
    section 5.3 of RFC 6455. */
module WebSocketMask {
  type Byte = bv8

  // ------------------------------------------------------------- the algorithm of the standard

  type Key = k: seq<Byte> | |k| == 4 witness [0, 0, 0, 0]

  /** Octet i of the data is combined with octet i modulo 4 of the key. */
  function Combine(f: (Byte, Byte) -> Byte, key: Key, data: seq<Byte>): (combined: seq<Byte>)
    ensures |combined| == |data|
    ensures forall i :: 0 <= i < |data| ==> combined[i] == f(data[i], key[i % 4])
  {
    seq(|data|, i requires 0 <= i < |data| => f(data[i], key[i % 4]))
  }

  const XOR: (Byte, Byte) -> Byte := (x, k) => x ^ k

  function Mask(key: Key, data: seq<Byte>): (masked: seq<Byte>)
    ensures |masked| == |data|
  {
    Combine(XOR, key, data)
  }

  /** A place less than two rounds along, in the first round. */
  function Wrap(i: nat): (j: nat)
    requires i < 8
    ensures j < 4
  {
    if i < 4 then i else i - 4
  }

  /** The key with its first n octets moved to its back. */
  function Rotate(key: Key, n: nat): (rotated: Key)
    requires n < 4
    ensures forall j :: 0 <= j < 4 ==> rotated[j] == key[Wrap(n + j)]
  {
    key[n..] + key[..n]
  }

  lemma RemainderOfSum(n: nat, i: nat)
    ensures (n + i) % 4 == Wrap(n % 4 + i % 4)
  {
    assert n + i == 4 * (n / 4 + i / 4) + (n % 4 + i % 4);
  }

  /** The octet of the key that the whole would use is the one the carried key uses. */
  lemma KeyCarried(key: Key, n: nat, i: nat)
    ensures key[(n + i) % 4] == Rotate(key, n % 4)[i % 4]
  {
  }

  /** Masking data in two pieces, the second with the key carried over, masks the whole. */
  lemma MaskInPieces(key: Key, a: seq<Byte>, b: seq<Byte>)
    ensures Mask(key, a + b) == Mask(key, a) + Mask(Rotate(key, |a| % 4), b)
  {
    CombineInPieces(XOR, key, a, b);
  }

  lemma CombineInPieces(f: (Byte, Byte) -> Byte, key: Key, a: seq<Byte>, b: seq<Byte>)
    ensures Combine(f, key, a + b) == Combine(f, key, a) + Combine(f, Rotate(key, |a| % 4), b)
  {
    var whole, first, second := Combine(f, key, a + b), Combine(f, key, a), Combine(f, Rotate(key, |a| % 4), b);
    forall i | 0 <= i < |b|
      ensures whole[|a| + i] == second[i]
    {
      KeyCarried(key, |a|, i);
      assert (a + b)[|a| + i] == b[i];
    }
    assert forall i :: 0 <= i < |a| ==> (a + b)[i] == a[i];
    assert whole[..|a|] == first && whole[|a|..] == second;
  }

  /** The key carried over two pieces in turn is the key carried over both at once. */
  lemma RotateInPieces(key: Key, m: nat, n: nat)
    ensures Rotate(Rotate(key, m % 4), n % 4) == Rotate(key, (m + n) % 4)
  {
    RemainderOfSum(m, n);
    RotateTwice(key, m % 4, n % 4);
  }

  lemma RotateTwice(key: Key, m: nat, n: nat)
    requires m < 4 && n < 4
    ensures Rotate(Rotate(key, m), n) == Rotate(key, Wrap(m + n))
  {
  }

  /** Masking twice with the same key restores the data. */
  lemma MaskTwice(key: Key, data: seq<Byte>)
    ensures Mask(key, Mask(key, data)) == data
  {
  }

  // ------------------------------------------------------------- words of four and eight octets

  function Octet(v: bv32, j: nat): Byte
    requires j < 4
  {
    match j
    case 0 => (v & 0xFF) as bv8
    case 1 => ((v >> 8) & 0xFF) as bv8
    case 2 => ((v >> 16) & 0xFF) as bv8
    case _ => ((v >> 24) & 0xFF) as bv8
  }

  /** The octets of a word, in little-endian order. */
  function Octets(v: bv32): Key {
    [Octet(v, 0), Octet(v, 1), Octet(v, 2), Octet(v, 3)]
  }

  /** Four octets as a word. */
  function Uint32(b0: Byte, b1: Byte, b2: Byte, b3: Byte): bv32 {
    (b0 as bv32) | ((b1 as bv32) << 8) | ((b2 as bv32) << 16) | ((b3 as bv32) << 24)
  }

  function Octet64(v: bv64, j: nat): Byte
    requires j < 8
  {
    match j
    case 0 => (v & 0xFF) as bv8
    case 1 => ((v >> 8) & 0xFF) as bv8
    case 2 => ((v >> 16) & 0xFF) as bv8
    case 3 => ((v >> 24) & 0xFF) as bv8
    case 4 => ((v >> 32) & 0xFF) as bv8
    case 5 => ((v >> 40) & 0xFF) as bv8
    case 6 => ((v >> 48) & 0xFF) as bv8
    case _ => ((v >> 56) & 0xFF) as bv8
  }

  /** Eight octets as a word. */
  function Uint64(b0: Byte, b1: Byte, b2: Byte, b3: Byte, b4: Byte, b5: Byte, b6: Byte, b7: Byte): bv64 {
    (b0 as bv64) | ((b1 as bv64) << 8) | ((b2 as bv64) << 16) | ((b3 as bv64) << 24)
    | ((b4 as bv64) << 32) | ((b5 as bv64) << 40) | ((b6 as bv64) << 48) | ((b7 as bv64) << 56)
  }

  function Octets64(v: bv64): (octets: seq<Byte>)
    ensures |octets| == 8
  {
    [Octet64(v, 0), Octet64(v, 1), Octet64(v, 2), Octet64(v, 3), Octet64(v, 4), Octet64(v, 5), Octet64(v, 6), Octet64(v, 7)]
  }

  function Low(v: bv64): bv32 {
    (v & 0xFFFF_FFFF) as bv32
  }

  function High(v: bv64): bv32 {
    ((v >> 32) & 0xFFFF_FFFF) as bv32
  }

  /** The key twice, as a word of eight octets. */
  function Twice(key: bv32): bv64 {
    ((key as bv64) << 32) | (key as bv64)
  }

  lemma OctetsOfWord(b0: Byte, b1: Byte, b2: Byte, b3: Byte)
    ensures Octet(Uint32(b0, b1, b2, b3), 0) == b0 && Octet(Uint32(b0, b1, b2, b3), 1) == b1
    ensures Octet(Uint32(b0, b1, b2, b3), 2) == b2 && Octet(Uint32(b0, b1, b2, b3), 3) == b3
  {
  }

  /** A 32-bit operation combines each octet with its octet of the key. */
  lemma XorOctets(v: bv32, key: bv32)
    ensures Octet(v ^ key, 0) == Octet(v, 0) ^ Octet(key, 0) && Octet(v ^ key, 1) == Octet(v, 1) ^ Octet(key, 1)
    ensures Octet(v ^ key, 2) == Octet(v, 2) ^ Octet(key, 2) && Octet(v ^ key, 3) == Octet(v, 3) ^ Octet(key, 3)
  {
  }

  /** A 64-bit operation with the key doubled is two 32-bit operations with the key. */
  lemma XorHalves(v: bv64, key: bv32)
    ensures Low(v ^ Twice(key)) == Low(v) ^ key && High(v ^ Twice(key)) == High(v) ^ key
  {
  }

  /** Loading eight octets is loading the two halves. */
  lemma LoadHalves(b0: Byte, b1: Byte, b2: Byte, b3: Byte, b4: Byte, b5: Byte, b6: Byte, b7: Byte)
    ensures Low(Uint64(b0, b1, b2, b3, b4, b5, b6, b7)) == Uint32(b0, b1, b2, b3)
    ensures High(Uint64(b0, b1, b2, b3, b4, b5, b6, b7)) == Uint32(b4, b5, b6, b7)
  {
  }

  /** Storing eight octets is storing the two halves. */
  lemma StoreHalves(v: bv64)
    ensures Octet64(v, 0) == Octet(Low(v), 0) && Octet64(v, 1) == Octet(Low(v), 1)
    ensures Octet64(v, 2) == Octet(Low(v), 2) && Octet64(v, 3) == Octet(Low(v), 3)
    ensures Octet64(v, 4) == Octet(High(v), 0) && Octet64(v, 5) == Octet(High(v), 1)
    ensures Octet64(v, 6) == Octet(High(v), 2) && Octet64(v, 7) == Octet(High(v), 3)
  {
  }

  /** Rotating the key right by eight bits moves its first octet to the back. */
  function RotateRight8(key: bv32): bv32 {
    (key >> 8) | (key << 24)
  }

  lemma RotatedOctets(key: bv32)
    ensures Octets(RotateRight8(key)) == Rotate(Octets(key), 1)
  {
  }

  lemma CombineFour(f: (Byte, Byte) -> Byte, b: Key, k: Key, octets: Key)
    requires octets[0] == f(b[0], k[0]) && octets[1] == f(b[1], k[1]) && octets[2] == f(b[2], k[2]) && octets[3] == f(b[3], k[3])
    ensures octets == Combine(f, k, b)
  {
  }

  lemma MaskFour(b: Key, k: Key, octets: Key)
    requires octets[0] == b[0] ^ k[0] && octets[1] == b[1] ^ k[1] && octets[2] == b[2] ^ k[2] && octets[3] == b[3] ^ k[3]
    ensures octets == Mask(k, b)
  {
    CombineFour(XOR, b, k, octets);
  }

  lemma XorAt0(b: Key, key: bv32, v: bv32, k: Key, octets: Key)
    requires v == Uint32(b[0], b[1], b[2], b[3]) ^ key && k == Octets(key) && octets == Octets(v)
    ensures octets[0] == b[0] ^ k[0]
  {
    XorOctets(Uint32(b[0], b[1], b[2], b[3]), key);
    OctetsOfWord(b[0], b[1], b[2], b[3]);
  }

  lemma XorAt1(b: Key, key: bv32, v: bv32, k: Key, octets: Key)
    requires v == Uint32(b[0], b[1], b[2], b[3]) ^ key && k == Octets(key) && octets == Octets(v)
    ensures octets[1] == b[1] ^ k[1]
  {
    XorOctets(Uint32(b[0], b[1], b[2], b[3]), key);
    OctetsOfWord(b[0], b[1], b[2], b[3]);
  }

  lemma XorAt2(b: Key, key: bv32, v: bv32, k: Key, octets: Key)
    requires v == Uint32(b[0], b[1], b[2], b[3]) ^ key && k == Octets(key) && octets == Octets(v)
    ensures octets[2] == b[2] ^ k[2]
  {
    XorOctets(Uint32(b[0], b[1], b[2], b[3]), key);
    OctetsOfWord(b[0], b[1], b[2], b[3]);
  }

  lemma XorAt3(b: Key, key: bv32, v: bv32, k: Key, octets: Key)
    requires v == Uint32(b[0], b[1], b[2], b[3]) ^ key && k == Octets(key) && octets == Octets(v)
    ensures octets[3] == b[3] ^ k[3]
  {
    XorOctets(Uint32(b[0], b[1], b[2], b[3]), key);
    OctetsOfWord(b[0], b[1], b[2], b[3]);
  }

  /** Four octets loaded, combined with the key and stored are masked. */
  lemma MaskWord(b: Key, key: bv32, v: bv32, k: Key, octets: Key)
    requires v == Uint32(b[0], b[1], b[2], b[3]) ^ key && k == Octets(key) && octets == Octets(v)
    ensures octets == Mask(k, b)
  {
    XorAt0(b, key, v, k, octets);
    XorAt1(b, key, v, k, octets);
    XorAt2(b, key, v, k, octets);
    XorAt3(b, key, v, k, octets);
    MaskFour(b, k, octets);
  }

  lemma LowHalf(b: seq<Byte>, key: bv32, v: bv64)
    requires |b| == 8 && v == Uint64(b[0], b[1], b[2], b[3], b[4], b[5], b[6], b[7]) ^ Twice(key)
    ensures Low(v) == Uint32(b[0], b[1], b[2], b[3]) ^ key
  {
    XorHalves(Uint64(b[0], b[1], b[2], b[3], b[4], b[5], b[6], b[7]), key);
    LoadHalves(b[0], b[1], b[2], b[3], b[4], b[5], b[6], b[7]);
  }

  lemma HighHalf(b: seq<Byte>, key: bv32, v: bv64)
    requires |b| == 8 && v == Uint64(b[0], b[1], b[2], b[3], b[4], b[5], b[6], b[7]) ^ Twice(key)
    ensures High(v) == Uint32(b[4], b[5], b[6], b[7]) ^ key
  {
    XorHalves(Uint64(b[0], b[1], b[2], b[3], b[4], b[5], b[6], b[7]), key);
    LoadHalves(b[0], b[1], b[2], b[3], b[4], b[5], b[6], b[7]);
  }

  lemma MaskLow(b: seq<Byte>, key: bv32, lo: bv32, k: Key, x: Key)
    requires |b| == 8 && lo == Uint32(b[0], b[1], b[2], b[3]) ^ key && k == Octets(key) && x == Octets(lo)
    ensures x == Mask(k, b[..4])
  {
    MaskWord(b[..4], key, lo, k, x);
  }

  lemma MaskHigh(b: seq<Byte>, key: bv32, hi: bv32, k: Key, y: Key)
    requires |b| == 8 && hi == Uint32(b[4], b[5], b[6], b[7]) ^ key && k == Octets(key) && y == Octets(hi)
    ensures y == Mask(k, b[4..])
  {
    MaskWord(b[4..], key, hi, k, y);
  }

  lemma MaskHalves(b: seq<Byte>, k: Key, x: Key, y: Key)
    requires |b| == 8 && x == Mask(k, b[..4]) && y == Mask(k, b[4..])
    ensures x + y == Mask(k, b)
  {
    RotateByNone(k);
    MaskInPieces(k, b[..4], b[4..]);
    assert b == b[..4] + b[4..];
  }

  lemma OctetsOfHalves(v: bv64, lo: bv32, hi: bv32)
    requires lo == Low(v) && hi == High(v)
    ensures Octets64(v) == Octets(lo) + Octets(hi)
  {
    StoreHalves(v);
  }

  /** Eight octets loaded, combined with the key doubled and stored are masked. */
  lemma MaskWord64(b: seq<Byte>, key: bv32, v: bv64, k: Key, octets: seq<Byte>)
    requires |b| == 8 && v == Uint64(b[0], b[1], b[2], b[3], b[4], b[5], b[6], b[7]) ^ Twice(key)
    requires k == Octets(key) && octets == Octets64(v)
    ensures octets == Mask(k, b)
  {
    var lo, hi := Low(v), High(v);
    var x, y := Octets(lo), Octets(hi);
    LowHalf(b, key, v);
    MaskLow(b, key, lo, k, x);
    HighHalf(b, key, v);
    MaskHigh(b, key, hi, k, y);
    OctetsOfHalves(v, lo, hi);
    MaskHalves(b, k, x, y);
  }

  // ------------------------------------------------------------- masking an array in place

  /** Data with a part replaced. */
  function Splice(data: seq<Byte>, from: nat, part: seq<Byte>): (spliced: seq<Byte>)
    requires from + |part| <= |data|
    ensures |spliced| == |data|
  {
    data[..from] + part + data[from + |part|..]
  }

  lemma SpliceTwice(data: seq<Byte>, from: nat, x: seq<Byte>, y: seq<Byte>)
    requires from + |x| + |y| <= |data|
    ensures Splice(Splice(data, from, x), from + |x|, y) == Splice(data, from, x + y)
    ensures Splice(data, from, x)[from + |x|..from + |x| + |y|] == data[from + |x|..from + |x| + |y|]
  {
  }

  /** Data of which a part has been masked, the key starting with the part. */
  function MaskPart(data: seq<Byte>, key: Key, from: nat, to: nat): (masked: seq<Byte>)
    requires from <= to <= |data|
    ensures |masked| == |data|
  {
    Splice(data, from, Mask(key, data[from..to]))
  }

  lemma RotateByNone(k: Key)
    ensures Rotate(k, 0) == k
  {
  }

  /** Two parts in a row, the second with the key carried over, are one. */
  lemma PartsCarried(data: seq<Byte>, key: Key, from: nat, mid: nat, to: nat, carried: Key)
    requires from <= mid <= to <= |data| && carried == Rotate(key, (mid - from) % 4)
    ensures MaskPart(MaskPart(data, key, from, mid), carried, mid, to) == MaskPart(data, key, from, to)
  {
    var a, b := data[from..mid], data[mid..to];
    assert data[from..to] == a + b;
    assert |a| == mid - from;
    var x, y := Mask(key, a), Mask(carried, b);
    assert Mask(key, data[from..to]) == x + y by {
      MaskInPieces(key, a, b);
    }
    SpliceTwice(data, from, x, y);
  }

  /** A first part a multiple of four long leaves the key as it is. */
  lemma PartsInARow(data: seq<Byte>, key: Key, from: nat, mid: nat, to: nat)
    requires from <= mid <= to <= |data| && (mid - from) % 4 == 0
    ensures MaskPart(MaskPart(data, key, from, mid), key, mid, to) == MaskPart(data, key, from, to)
  {
    RotateByNone(key);
    PartsCarried(data, key, from, mid, to, key);
  }

  /** Write octets into an array. */
  method Put(b: array<Byte>, at: nat, octets: seq<Byte>)
    requires at + |octets| <= b.Length
    modifies b
    ensures b[..] == Splice(old(b[..]), at, octets)
  {
    ghost var was := b[..];
    for j := 0 to |octets|
      invariant b[..] == Splice(was, at, octets[..j])
    {
      b[at + j] := octets[j];
    }
    assert octets[..|octets|] == octets;
  }

  /** The first octets of an array have been masked, up to a multiple of four. */
  ghost predicate Done(b: array<Byte>, data: seq<Byte>, k: Key, at: nat)
    reads b
  {
    at <= |data| && at % 4 == 0 && b[..] == MaskPart(data, k, 0, at)
  }

  lemma NothingMasked(data: seq<Byte>, k: Key)
    ensures MaskPart(data, k, 0, 0) == data
  {
  }

  lemma AllMasked(data: seq<Byte>, k: Key)
    ensures MaskPart(data, k, 0, |data|) == Mask(k, data)
  {
  }

  /** Four octets with one 32-bit operation. */
  method Xor4(b: array<Byte>, at: nat, key: bv32, ghost k: Key, ghost data: seq<Byte>)
    requires k == Octets(key) && Done(b, data, k, at) && at + 4 <= b.Length
    modifies b
    ensures Done(b, data, k, at + 4)
  {
    var v := Uint32(b[at], b[at + 1], b[at + 2], b[at + 3]) ^ key;
    var octets := Octets(v);
    MaskWord(b[..][at..at + 4], key, v, k, octets);
    StoreMasked(b, at, octets, at + 4, k, data);
  }

  /** Eight octets with one 64-bit operation. */
  method Xor8(b: array<Byte>, at: nat, key: bv32, ghost k: Key, ghost data: seq<Byte>)
    requires k == Octets(key) && Done(b, data, k, at) && at + 8 <= b.Length
    modifies b
    ensures Done(b, data, k, at + 8)
  {
    var key64 := Twice(key);
    var v := Uint64(b[at], b[at + 1], b[at + 2], b[at + 3], b[at + 4], b[at + 5], b[at + 6], b[at + 7]) ^ key64;
    var octets := Octets64(v);
    MaskWord64(b[..][at..at + 8], key, v, k, octets);
    StoreMasked(b, at, octets, at + 8, k, data);
  }

  /** Masking the octets that follow those masked. */
  lemma MaskedFurther(data: seq<Byte>, k: Key, was: seq<Byte>, at: nat, octets: seq<Byte>, next: nat)
    requires at + |octets| <= |data| && at % 4 == 0 && was == MaskPart(data, k, 0, at)
    requires octets == Mask(k, was[at..at + |octets|]) && next == at + |octets|
    ensures Splice(was, at, octets) == MaskPart(data, k, 0, next)
  {
    PartsInARow(data, k, 0, at, at + |octets|);
  }

  /** Store the next octets, masked. */
  method StoreMasked(b: array<Byte>, at: nat, octets: seq<Byte>, ghost next: nat, ghost k: Key, ghost data: seq<Byte>)
    requires Done(b, data, k, at) && at + |octets| == next <= b.Length && next % 4 == 0
    requires octets == Mask(k, b[..][at..next])
    modifies b
    ensures Done(b, data, k, next)
  {
    MaskedFurther(data, k, b[..], at, octets, next);
    Put(b, at, octets);
  }

  method Xor16(b: array<Byte>, at: nat, key: bv32, ghost k: Key, ghost data: seq<Byte>)
    requires k == Octets(key) && Done(b, data, k, at) && at + 16 <= b.Length
    modifies b
    ensures Done(b, data, k, at + 16)
  {
    Xor8(b, at, key, k, data);
    Xor8(b, at + 8, key, k, data);
  }

  method Xor32(b: array<Byte>, at: nat, key: bv32, ghost k: Key, ghost data: seq<Byte>)
    requires k == Octets(key) && Done(b, data, k, at) && at + 32 <= b.Length
    modifies b
    ensures Done(b, data, k, at + 32)
  {
    Xor16(b, at, key, k, data);
    Xor16(b, at + 16, key, k, data);
  }

  method Xor64(b: array<Byte>, at: nat, key: bv32, ghost k: Key, ghost data: seq<Byte>)
    requires k == Octets(key) && Done(b, data, k, at) && at + 64 <= b.Length
    modifies b
    ensures Done(b, data, k, at + 64)
  {
    Xor32(b, at, key, k, data);
    Xor32(b, at + 32, key, k, data);
  }

  method Xor128(b: array<Byte>, at: nat, key: bv32, ghost k: Key, ghost data: seq<Byte>)
    requires k == Octets(key) && Done(b, data, k, at) && at + 128 <= b.Length
    modifies b
    ensures Done(b, data, k, at + 128)
  {
    Xor64(b, at, key, k, data);
    Xor64(b, at + 64, key, k, data);
  }

  /** Mask by eights, in unrolled steps that get shorter, while eight octets are left. */
  method MaskByEights(b: array<Byte>, key: bv32, ghost k: Key, ghost data: seq<Byte>) returns (at: nat)
    requires k == Octets(key) && Done(b, data, k, 0)
    modifies b
    ensures Done(b, data, k, at)
  {
    at := 0;
    if b.Length >= 8 {
      while b.Length - at >= 128
        invariant Done(b, data, k, at)
      {
        Xor128(b, at, key, k, data);
        at := at + 128;
      }
      while b.Length - at >= 64
        invariant Done(b, data, k, at)
      {
        Xor64(b, at, key, k, data);
        at := at + 64;
      }
      while b.Length - at >= 32
        invariant Done(b, data, k, at)
      {
        Xor32(b, at, key, k, data);
        at := at + 32;
      }
      while b.Length - at >= 16
        invariant Done(b, data, k, at)
      {
        Xor16(b, at, key, k, data);
        at := at + 16;
      }
      while b.Length - at >= 8
        invariant Done(b, data, k, at)
      {
        Xor8(b, at, key, k, data);
        at := at + 8;
      }
    }
  }

  lemma MaskOne(k: Key, x: Byte)
    ensures Mask(k, [x]) == [x ^ k[0]]
  {
  }

  /** The key has been carried over n octets. */
  ghost predicate Carried(key: bv32, k: Key, n: nat) {
    n < 4 && Octets(key) == Rotate(k, n)
  }

  lemma NotCarried(key: bv32, k: Key)
    requires k == Octets(key)
    ensures Carried(key, k, 0)
  {
  }

  /** The key for the next octet. */
  method TurnKey(key: bv32, ghost k: Key, ghost n: nat) returns (next: bv32)
    requires Carried(key, k, n) && n < 3
    ensures Carried(next, k, n + 1)
  {
    RotatedOctets(key);
    RotateTwice(k, n, 1);
    next := RotateRight8(key);
  }

  /** One octet, with the first octet of the key as it has been rotated. */
  method Xor1(b: array<Byte>, i: nat, key: bv32, ghost k: Key, ghost n: nat, ghost data: seq<Byte>)
    requires i < |data| && b[..] == MaskPart(data, k, 0, i) && Carried(key, k, n) && n == i % 4
    modifies b
    ensures b[..] == MaskPart(data, k, 0, i + 1)
  {
    ghost var carried := Octets(key);
    PartsCarried(data, k, 0, i, i + 1, carried);
    MaskOne(carried, b[i]);
    assert b[i..i + 1] == [b[i]];
    Put(b, i, [b[i] ^ Octet(key, 0)]);
  }

  /** The remainder is what the fours leave over. */
  lemma PastFours(at: nat, n: nat)
    requires at % 4 == 0 && n < 4
    ensures (at + n) % 4 == n
  {
  }

  /** The rest up to n octets past the fours has been masked. */
  ghost predicate RestDone(b: array<Byte>, data: seq<Byte>, k: Key, at: nat, n: nat, key: bv32)
    reads b
  {
    at + n <= |data| && at % 4 == 0 && b[..] == MaskPart(data, k, 0, at + n) && Carried(key, k, n)
  }

  /** One octet of the rest, and the key for the next. */
  method RestStep(b: array<Byte>, key: bv32, i: nat, ghost k: Key, ghost at: nat, ghost n: nat, ghost data: seq<Byte>) returns (next: bv32)
    requires i == at + n < |data| && n < 3 && RestDone(b, data, k, at, n, key)
    modifies b
    ensures RestDone(b, data, k, at, n + 1, next)
  {
    PastFours(at, n);
    Xor1(b, i, key, k, n, data);
    next := TurnKey(key, k, n);
  }

  /** Mask the last octets, fewer than four, one by one, rotating the key. */
  method MaskRest(b: array<Byte>, at: nat, key0: bv32, ghost k: Key, ghost data: seq<Byte>, ghost n: nat) returns (key: bv32)
    requires RestDone(b, data, k, at, 0, key0) && n == b.Length - at < 4
    modifies b
    ensures RestDone(b, data, k, at, n, key)
  {
    key := key0;
    ghost var done := 0;
    for i := at to b.Length
      invariant i == at + done && done <= n && RestDone(b, data, k, at, done, key)
    {
      key := RestStep(b, key, i, k, at, done, data);
      done := done + 1;
    }
    assert done == n;
  }

  /** Mask by fours while four octets are left. */
  method MaskByFours(b: array<Byte>, at0: nat, key: bv32, ghost k: Key, ghost data: seq<Byte>) returns (at: nat)
    requires k == Octets(key) && Done(b, data, k, at0)
    modifies b
    ensures Done(b, data, k, at) && b.Length - at < 4
  {
    at := at0;
    while b.Length - at >= 4
      invariant Done(b, data, k, at)
    {
      Xor4(b, at, key, k, data);
      at := at + 4;
    }
  }

  /** The three parts of the algorithm in turn. */
  method MaskAll(key0: bv32, b: array<Byte>, ghost k: Key, ghost data: seq<Byte>) returns (key: bv32, ghost at: nat, ghost n: nat)
    requires k == Octets(key0) && Done(b, data, k, 0)
    modifies b
    ensures at + n == |data| && RestDone(b, data, k, at, n, key)
  {
    var i := MaskByEights(b, key0, k, data);
    i := MaskByFours(b, i, key0, k, data);
    at, n := i, b.Length - i;
    NotCarried(key0, k);
    key := MaskRest(b, i, key0, k, data, n);
  }

  /** Mask an array in place. The key returned is the one to carry on with. */
  method MaskWebSocket(key0: bv32, b: array<Byte>) returns (key: bv32)
    modifies b
    ensures b[..] == Mask(Octets(key0), old(b[..]))
    ensures Octets(key) == Rotate(Octets(key0), b.Length % 4)
  {
    ghost var data, k := b[..], Octets(key0);
    ghost var at, n;
    NothingMasked(data, k);
    key, at, n := MaskAll(key0, b, k, data);
    PastFours(at, n);
    AllMasked(data, k);
  }
}
