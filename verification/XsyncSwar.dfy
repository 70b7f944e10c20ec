/** The bit functions of the hash table: a 64-bit meta word holds one tag byte per
    bucket slot, and a bucket is searched by comparing all the bytes at once.
    Byte indices select constant shifts, so every fact here is about fixed-width words. */
module XsyncSwar {
  import opened Arithmetic

  const ENTRIES_PER_BUCKET: nat := 5
  const DEFAULT_META: bv64 := 0x8080_8080_8080_8080
  const META_MASK: bv64 := 0xff_ffff_ffff
  const EMPTY_META_SLOT: bv64 := 0x80

  function ShiftLeft(w: bv64, i: nat): bv64
    requires i < 8
  {
    match i
    case 0 => w
    case 1 => w << 8
    case 2 => w << 16
    case 3 => w << 24
    case 4 => w << 32
    case 5 => w << 40
    case 6 => w << 48
    case _ => w << 56
  }

  /** Byte i of a word, least significant first. */
  function ByteAt(w: bv64, i: nat): bv64
    requires i < 8
  {
    match i
    case 0 => w & 0xff
    case 1 => (w >> 8) & 0xff
    case 2 => (w >> 16) & 0xff
    case 3 => (w >> 24) & 0xff
    case 4 => (w >> 32) & 0xff
    case 5 => (w >> 40) & 0xff
    case 6 => (w >> 48) & 0xff
    case _ => (w >> 56) & 0xff
  }

  function H1(hash: bv64): nat {
    (hash >> 7) as nat
  }

  function H2(hash: bv64): bv64 {
    hash & 0x7f
  }

  function Broadcast(b: bv64): bv64 {
    0x0101_0101_0101_0101 * b
  }

  function MarkZeroBytes(w: bv64): bv64 {
    (w - 0x0101_0101_0101_0101) & !w & 0x8080_8080_8080_8080
  }

  function SetByte(w: bv64, b: bv64, idx: nat): bv64
    requires idx < 8
  {
    (w & !ShiftLeft(0xff, idx)) | ShiftLeft(b, idx)
  }

  function TrailingZeros64(w: bv64): nat
    requires w != 0
    decreases w
  {
    if w & 1 == 1 then 0 else 1 + TrailingZeros64(w >> 1)
  }

  function FirstMarkedByteIndex(w: bv64): nat
    requires w != 0
  {
    TrailingZeros64(w) / 8
  }

  /** Bitwise "and" of two naturals, the operation that turns a hash into a bucket index. */
  function BitAnd(a: nat, b: nat): (r: nat)
    ensures r <= a
  {
    if a == 0 || b == 0 then 0 else (a % 2) * (b % 2) + 2 * BitAnd(a / 2, b / 2)
  }

  function PowerOfTwo(k: nat): (r: nat)
    ensures r >= 1
  {
    if k == 0 then 1 else 2 * PowerOfTwo(k - 1)
  }

  /** For the table lengths the map uses, masking is the remainder. */
  lemma {:induction false} BitAndIsRemainder(k: nat, x: nat)
    ensures BitAnd(PowerOfTwo(k) - 1, x) == x % PowerOfTwo(k)
  {
    if k > 0 {
      BitAndIsRemainder(k - 1, x / 2);
      BitAndDoubled(PowerOfTwo(k - 1), PowerOfTwo(k), x);
    }
  }

  lemma BitAndDoubled(m: nat, n: nat, x: nat)
    requires m >= 1 && n == 2 * m && BitAnd(m - 1, x / 2) == (x / 2) % m
    ensures BitAnd(n - 1, x) == x % n
  {
    BitAndOdd(m - 1, x);
    HalvingRemainder(x, m, n);
  }

  lemma BitAndOdd(a: nat, x: nat)
    ensures BitAnd(2 * a + 1, x) == x % 2 + 2 * BitAnd(a, x / 2)
  {
  }

  lemma HalvingRemainder(x: nat, m: nat, n: nat)
    requires m >= 1 && n == 2 * m
    ensures x % n == 2 * ((x / 2) % m) + x % 2
  {
    var q, r := Divide(x / 2, m);
    var p, a := Divide(x, n);
    Halving(x, m, n, q, r, p, a);
  }

  lemma Divide(x: nat, n: nat) returns (q: nat, r: nat)
    requires n > 0
    ensures x == n * q + r && r < n && r == x % n
  {
    q, r := x / n, x % n;
  }

  lemma Halving(x: nat, m: nat, n: nat, q: nat, r: nat, p: nat, a: nat)
    requires n == 2 * m
    requires x / 2 == m * q + r && r < m
    requires x == n * p + a && a < n
    ensures a == 2 * r + x % 2
  {
    DoubledProduct(m, q);
    assert x == 2 * (x / 2) + x % 2;
    QuotientUnique(n, p, a, q, 2 * r + x % 2);
  }

  lemma DoubledProduct(m: nat, q: nat)
    ensures (2 * m) * q == 2 * (m * q)
  {}

  // ------------------------------------------------------------- writing a byte

  lemma SetByte0(w: bv64, b: bv64, i: nat)
    requires b <= 0xff && i < 8
    ensures ByteAt(SetByte(w, b, 0), i) == if i == 0 then b else ByteAt(w, i)
  {}

  lemma SetByte1(w: bv64, b: bv64, i: nat)
    requires b <= 0xff && i < 8
    ensures ByteAt(SetByte(w, b, 1), i) == if i == 1 then b else ByteAt(w, i)
  {}

  lemma SetByte2(w: bv64, b: bv64, i: nat)
    requires b <= 0xff && i < 8
    ensures ByteAt(SetByte(w, b, 2), i) == if i == 2 then b else ByteAt(w, i)
  {}

  lemma SetByte3(w: bv64, b: bv64, i: nat)
    requires b <= 0xff && i < 8
    ensures ByteAt(SetByte(w, b, 3), i) == if i == 3 then b else ByteAt(w, i)
  {}

  lemma SetByte4(w: bv64, b: bv64, i: nat)
    requires b <= 0xff && i < 8
    ensures ByteAt(SetByte(w, b, 4), i) == if i == 4 then b else ByteAt(w, i)
  {}

  lemma SetByte5(w: bv64, b: bv64, i: nat)
    requires b <= 0xff && i < 8
    ensures ByteAt(SetByte(w, b, 5), i) == if i == 5 then b else ByteAt(w, i)
  {}

  lemma SetByte6(w: bv64, b: bv64, i: nat)
    requires b <= 0xff && i < 8
    ensures ByteAt(SetByte(w, b, 6), i) == if i == 6 then b else ByteAt(w, i)
  {}

  lemma SetByte7(w: bv64, b: bv64, i: nat)
    requires b <= 0xff && i < 8
    ensures ByteAt(SetByte(w, b, 7), i) == if i == 7 then b else ByteAt(w, i)
  {}

  /** SetByte writes one byte and keeps the other seven. */
  lemma SetByteWritesOne(w: bv64, b: bv64, idx: nat, i: nat)
    requires b <= 0xff && idx < 8 && i < 8
    ensures ByteAt(SetByte(w, b, idx), i) == if i == idx then b else ByteAt(w, i)
  {
    match idx
    case 0 => SetByte0(w, b, i);
    case 1 => SetByte1(w, b, i);
    case 2 => SetByte2(w, b, i);
    case 3 => SetByte3(w, b, i);
    case 4 => SetByte4(w, b, i);
    case 5 => SetByte5(w, b, i);
    case 6 => SetByte6(w, b, i);
    case _ => SetByte7(w, b, i);
  }

  lemma BytesDetermineWord(v: bv64, w: bv64)
    requires forall i: nat {:trigger ByteAt(v, i)} :: i < 8 ==> ByteAt(v, i) == ByteAt(w, i)
    ensures v == w
  {
    assert ByteAt(v, 0) == ByteAt(w, 0) && ByteAt(v, 1) == ByteAt(w, 1);
    assert ByteAt(v, 2) == ByteAt(w, 2) && ByteAt(v, 3) == ByteAt(w, 3);
    assert ByteAt(v, 4) == ByteAt(w, 4) && ByteAt(v, 5) == ByteAt(w, 5);
    assert ByteAt(v, 6) == ByteAt(w, 6) && ByteAt(v, 7) == ByteAt(w, 7);
  }

  lemma DefaultMetaBytes(i: nat)
    requires i < 8
    ensures ByteAt(DEFAULT_META, i) == EMPTY_META_SLOT
  {}

  // ------------------------------------------------------------- searching the bytes

  /** A word with no bit set outside the top bits of its bytes. */
  ghost predicate IsMask(m: bv64) {
    m & !0x8080_8080_8080_8080 == 0
  }

  ghost predicate Marked(m: bv64, i: nat)
    requires i < 8
  {
    ByteAt(m, i) == 0x80
  }

  function MatchMask(meta: bv64, h2: bv64): bv64 {
    MarkZeroBytes(meta ^ Broadcast(h2)) & META_MASK
  }

  /** The search word is a mask over the five slots. */
  lemma MatchMaskShape(meta: bv64, h2: bv64, i: nat)
    requires 5 <= i < 8
    ensures IsMask(MatchMask(meta, h2)) && !Marked(MatchMask(meta, h2), i)
  {}

  /** The search never misses a slot whose tag is the one looked for. */
  lemma MatchMaskComplete(meta: bv64, h2: bv64, i: nat)
    requires h2 <= 0xff && i < 5
    requires ByteAt(meta, i) == h2
    ensures Marked(MatchMask(meta, h2), i)
  {
    match i
    case 0 => MatchMask0(meta, h2);
    case 1 => MatchMask1(meta, h2);
    case 2 => MatchMask2(meta, h2);
    case 3 => MatchMask3(meta, h2);
    case 4 => MatchMask4(meta, h2);
  }

  lemma MatchMask0(meta: bv64, h2: bv64)
    requires h2 <= 0xff && ByteAt(meta, 0) == h2
    ensures Marked(MatchMask(meta, h2), 0)
  {}

  lemma MatchMask1(meta: bv64, h2: bv64)
    requires h2 <= 0xff && ByteAt(meta, 1) == h2
    ensures Marked(MatchMask(meta, h2), 1)
  {}

  lemma MatchMask2(meta: bv64, h2: bv64)
    requires h2 <= 0xff && ByteAt(meta, 2) == h2
    ensures Marked(MatchMask(meta, h2), 2)
  {}

  lemma MatchMask3(meta: bv64, h2: bv64)
    requires h2 <= 0xff && ByteAt(meta, 3) == h2
    ensures Marked(MatchMask(meta, h2), 3)
  {}

  lemma MatchMask4(meta: bv64, h2: bv64)
    requires h2 <= 0xff && ByteAt(meta, 4) == h2
    ensures Marked(MatchMask(meta, h2), 4)
  {}

  /** The search never marks an empty slot. */
  lemma EmptyIsNotMarked(meta: bv64, h2: bv64, i: nat)
    requires h2 <= 0x7f && i < 5
    requires ByteAt(meta, i) == EMPTY_META_SLOT
    ensures !Marked(MatchMask(meta, h2), i)
  {
    match i
    case 0 => EmptyUnmarked0(meta, h2);
    case 1 => EmptyUnmarked1(meta, h2);
    case 2 => EmptyUnmarked2(meta, h2);
    case 3 => EmptyUnmarked3(meta, h2);
    case 4 => EmptyUnmarked4(meta, h2);
  }

  lemma EmptyUnmarked0(meta: bv64, h2: bv64)
    requires h2 <= 0x7f && ByteAt(meta, 0) == EMPTY_META_SLOT
    ensures !Marked(MatchMask(meta, h2), 0)
  {}

  lemma EmptyUnmarked1(meta: bv64, h2: bv64)
    requires h2 <= 0x7f && ByteAt(meta, 1) == EMPTY_META_SLOT
    ensures !Marked(MatchMask(meta, h2), 1)
  {}

  lemma EmptyUnmarked2(meta: bv64, h2: bv64)
    requires h2 <= 0x7f && ByteAt(meta, 2) == EMPTY_META_SLOT
    ensures !Marked(MatchMask(meta, h2), 2)
  {}

  lemma EmptyUnmarked3(meta: bv64, h2: bv64)
    requires h2 <= 0x7f && ByteAt(meta, 3) == EMPTY_META_SLOT
    ensures !Marked(MatchMask(meta, h2), 3)
  {}

  lemma EmptyUnmarked4(meta: bv64, h2: bv64)
    requires h2 <= 0x7f && ByteAt(meta, 4) == EMPTY_META_SLOT
    ensures !Marked(MatchMask(meta, h2), 4)
  {}

  /** A marked byte that is not zero is a one with a true zero somewhere below it, so the
      lowest mark is never a false positive. */
  lemma FirstCandidateIsExact(meta: bv64, h2: bv64, i: nat)
    requires h2 <= 0x7f && i < 5
    requires Marked(MatchMask(meta, h2), i)
    requires i > 0 ==> !Marked(MatchMask(meta, h2), 0)
    requires i > 1 ==> !Marked(MatchMask(meta, h2), 1)
    requires i > 2 ==> !Marked(MatchMask(meta, h2), 2)
    requires i > 3 ==> !Marked(MatchMask(meta, h2), 3)
    ensures ByteAt(meta, i) == h2
  {}

  lemma TrailingZerosStep(w: bv64)
    requires w != 0 && w & 1 == 0
    ensures w >> 1 != 0 && TrailingZeros64(w) == 1 + TrailingZeros64(w >> 1)
  {}

  lemma TrailingZerosPair(w: bv64)
    requires w != 0 && w & 3 == 0
    ensures w >> 2 != 0 && TrailingZeros64(w) == 2 + TrailingZeros64(w >> 2)
  {
  }

  lemma TrailingZerosNibble(w: bv64)
    requires w != 0 && w & 0xf == 0
    ensures w >> 4 != 0 && TrailingZeros64(w) == 4 + TrailingZeros64(w >> 4)
  {
    TrailingZerosPair(w);
    TrailingZerosPair(w >> 2);
    assert w >> 2 >> 2 == w >> 4;
  }

  lemma TrailingZerosByte(w: bv64)
    requires w != 0 && w & 0xff == 0
    ensures w >> 8 != 0 && TrailingZeros64(w) == 8 + TrailingZeros64(w >> 8)
  {
    TrailingZerosNibble(w);
    TrailingZerosNibble(w >> 4);
    assert w >> 4 >> 4 == w >> 8;
  }

  lemma TrailingZerosTopBit(w: bv64)
    requires w & 0xff == 0x80
    ensures TrailingZeros64(w) == 7
  {
    TrailingZerosNibble(w);
    TrailingZerosPair(w >> 4);
    TrailingZerosStep(w >> 6);
    assert w >> 4 >> 2 == w >> 6 && w >> 6 >> 1 == w >> 7;
    assert (w >> 7) & 1 == 1;
  }

  lemma MaskTail(m: bv64, i: nat)
    requires IsMask(m) && m != 0 && i < 7
    ensures IsMask(m >> 8)
    ensures m & 0xff == 0 || m & 0xff == 0x80
    ensures ByteAt(m >> 8, i) == ByteAt(m, i + 1)
    ensures m & 0xff == 0 ==> m >> 8 != 0
  {}

  lemma ShiftedMaskTop(m: bv64)
    ensures !Marked(m >> 8, 7)
  {}

  /** Counting trailing zeros finds the lowest marked byte. */
  lemma {:induction false} FirstMarkedIsLowest(m: bv64)
    requires IsMask(m) && m != 0
    ensures FirstMarkedByteIndex(m) < 8 && Marked(m, FirstMarkedByteIndex(m))
    ensures forall k: nat :: k < FirstMarkedByteIndex(m) ==> !Marked(m, k)
    decreases m
  {
    MaskTail(m, 0);
    if m & 0xff == 0x80 {
      TrailingZerosTopBit(m);
    } else {
      TrailingZerosByte(m);
      FirstMarkedIsLowest(m >> 8);
      ShiftedMaskTop(m);
      var first := FirstMarkedByteIndex(m >> 8);
      MaskTail(m, first);
      forall k: nat | k < first + 1
        ensures !Marked(m, k)
      {
        if k > 0 {
          assert !Marked(m >> 8, k - 1);
          MaskTail(m, k - 1);
        }
      }
    }
  }

  /** Clearing the lowest set bit forgets the lowest marked byte and no other. */
  lemma ClearLowestMark(m: bv64, i: nat, j: nat)
    requires IsMask(m) && m != 0 && i < 8 && j < 8
    requires Marked(m, i) && forall k: nat :: k < i ==> !Marked(m, k)
    ensures IsMask(m & (m - 1)) && m & (m - 1) < m
    ensures Marked(m & (m - 1), j) <==> j != i && Marked(m, j)
  {
    assert i > 0 ==> !Marked(m, 0);
    assert i > 1 ==> !Marked(m, 1);
    assert i > 2 ==> !Marked(m, 2);
    assert i > 3 ==> !Marked(m, 3);
    assert i > 4 ==> !Marked(m, 4);
    assert i > 5 ==> !Marked(m, 5);
    assert i > 6 ==> !Marked(m, 6);
  }

  /** There is a candidate exactly if some slot has the tag looked for. */
  lemma SearchWordIsExact(meta: bv64, h2: bv64)
    requires h2 <= 0x7f
    ensures MatchMask(meta, h2) != 0 <==> exists i: nat :: i < 5 && ByteAt(meta, i) == h2
  {
    var m := MatchMask(meta, h2);
    MatchMaskShape(meta, h2, 5);
    if m != 0 {
      FirstMarkedIsLowest(m);
      var i := FirstMarkedByteIndex(m);
      if i >= 5 {
        MatchMaskShape(meta, h2, i);
        assert false;
      }
      FirstCandidateIsExact(meta, h2, i);
    }
    if i: nat :| i < 5 && ByteAt(meta, i) == h2 {
      MatchMaskComplete(meta, h2, i);
      ZeroHasNoMark(i);
    }
  }

  lemma ZeroHasNoMark(i: nat)
    requires i < 8
    ensures !Marked(0, i)
  {}

  // ------------------------------------------------------------- free slots

  function EmptyMask(meta: bv64): bv64 {
    meta & DEFAULT_META & META_MASK
  }

  /** Tags are seven bits wide, so a slot is free exactly when its top bit is set. */
  lemma EmptyMaskExact(meta: bv64, i: nat)
    requires i < 5
    requires ByteAt(meta, i) == EMPTY_META_SLOT || ByteAt(meta, i) <= 0x7f
    ensures Marked(EmptyMask(meta), i) <==> ByteAt(meta, i) == EMPTY_META_SLOT
  {}

  lemma EmptyMaskShape(meta: bv64, i: nat)
    requires 5 <= i < 8
    ensures IsMask(EmptyMask(meta)) && !Marked(EmptyMask(meta), i)
  {}
}
