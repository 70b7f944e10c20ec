/** The 32-bit murmur3 hash: a streaming digest that keeps up to three pending bytes in a
    buffer, and a one-shot form. Words are loaded in little-endian order. How one word is
    mixed in does not matter to the streaming: the digest and its proof take the mixing
    functions as a parameter, and `MURMUR` is the parameter the source uses. */
module Murmur3 {
  type Byte = bv8
  type Word = bv32

  // ------------------------------------------------------------- the mixing functions

  const C1: Word := 0xcc9e2d51
  const C2: Word := 0x1b873593

  function RotateLeft13(x: Word): Word {
    (x << 13) | (x >> 19)
  }

  function RotateLeft15(x: Word): Word {
    (x << 15) | (x >> 17)
  }

  function Scramble(k: Word): Word {
    RotateLeft15(k * C1) * C2
  }

  /** A word of the data goes into the running hash. */
  function MixWord(h: Word, k: Word): Word {
    var h1 := RotateLeft13(h ^ Scramble(k));
    h1 * 4 + h1 + 0xe6546b64
  }

  /** The one to three bytes left over, as a word, go in. */
  function MixRest(h: Word, k: Word): Word {
    h ^ Scramble(k)
  }

  function Avalanche(h: Word): Word {
    var a := (h ^ (h >> 16)) * 0x85ebca6b;
    var b := (a ^ (a >> 13)) * 0xc2b2ae35;
    b ^ (b >> 16)
  }

  datatype Mixer = Mixer(word: (Word, Word) -> Word, rest: (Word, Word) -> Word, finish: Word -> Word)

  const MURMUR := Mixer(MixWord, MixRest, Avalanche)

  // ------------------------------------------------------------- the hash as a function

  function Widen(b: Byte): Word {
    b as bv32
  }

  /** Four bytes as a word. */
  function Load(b0: Byte, b1: Byte, b2: Byte, b3: Byte): Word {
    Widen(b0) | (Widen(b1) << 8) | (Widen(b2) << 16) | (Widen(b3) << 24)
  }

  /** The whole words of some bytes; up to three bytes at the end are left out. */
  function Words(p: seq<Byte>): seq<Word> {
    if |p| < 4 then [] else [Load(p[0], p[1], p[2], p[3])] + Words(p[4..])
  }

  /** Mix words, front first, into a running hash. */
  function MixWords(m: Mixer, h: Word, ks: seq<Word>): Word {
    if ks == [] then h else m.word(MixWords(m, h, ks[..|ks| - 1]), ks[|ks| - 1])
  }

  function Mix(m: Mixer, h: Word, p: seq<Byte>): Word {
    MixWords(m, h, Words(p))
  }

  /** The bytes after the last whole word. */
  function Tail(p: seq<Byte>): seq<Byte> {
    p[|p| / 4 * 4..]
  }

  function MixTail(m: Mixer, h: Word, tail: seq<Byte>): Word {
    match |tail|
    case 1 => m.rest(h, Widen(tail[0]))
    case 2 => m.rest(h, (Widen(tail[1]) << 8) ^ Widen(tail[0]))
    case 3 => m.rest(h, (Widen(tail[2]) << 16) ^ (Widen(tail[1]) << 8) ^ Widen(tail[0]))
    case _ => h
  }

  /** A length cut down to 32 bits. */
  function Length(n: nat): Word {
    (n % 0x1_0000_0000) as bv32
  }

  function Hash(m: Mixer, seed: Word, data: seq<Byte>): Word {
    m.finish(MixTail(m, Mix(m, seed, data), Tail(data)) ^ Length(|data|))
  }

  // ------------------------------------------------------------- what the functions come to

  /** A word is loaded with its first byte lowest. */
  lemma LoadIsLittleEndian(b0: Byte, b1: Byte, b2: Byte, b3: Byte)
    ensures var w := Load(b0, b1, b2, b3);
      && w & 0xFF == Widen(b0) && (w >> 8) & 0xFF == Widen(b1)
      && (w >> 16) & 0xFF == Widen(b2) && w >> 24 == Widen(b3)
  {
  }

  lemma LoadOne(a: Byte)
    ensures Load(a, 0, 0, 0) == Widen(a)
  {
  }

  lemma LoadTwo(a: Byte, b: Byte)
    ensures Load(a, b, 0, 0) == (Widen(b) << 8) ^ Widen(a)
  {
  }

  lemma LoadThree(a: Byte, b: Byte, c: Byte)
    ensures Load(a, b, c, 0) == (Widen(c) << 16) ^ (Widen(b) << 8) ^ Widen(a)
  {
  }

  /** The bytes left over are mixed in as a word that is filled up with zeros. */
  lemma TailIsPadded(m: Mixer, h: Word, tail: seq<Byte>)
    requires 0 < |tail| < 4
    ensures MixTail(m, h, tail) ==
            m.rest(h, Load(tail[0], if |tail| > 1 then tail[1] else 0, if |tail| > 2 then tail[2] else 0, 0))
  {
    match |tail|
    case 1 => LoadOne(tail[0]);
    case 2 => LoadTwo(tail[0], tail[1]);
    case _ => LoadThree(tail[0], tail[1], tail[2]);
  }

  lemma Lengths()
    ensures Length(0) == 0 && Length(1) == 1 && Length(2) == 2 && Length(3) == 3 && Length(4) == 4
  {
  }

  lemma KnownScrambles()
    ensures Scramble(0x00000021) == 0xac5e5123 && Scramble(0x00004321) == 0xec900b60 && Scramble(0x00654321) == 0x17a6636e
    ensures MixWord(0, 0x87654321) == 0xbb095db4
  {
  }

  lemma KnownAvalanches()
    ensures Avalanche(0) == 0 && Avalanche(1) == 0x514e28b7
    ensures Avalanche(0xac5e5122) == 0x72661cf4 && Avalanche(0xec900b62) == 0xa0f7b07a
    ensures Avalanche(0x17a6636d) == 0x7e4a8634 && Avalanche(0xbb095db0) == 0xf55b516b
  {
  }

  lemma XorZero(w: Word)
    ensures 0 ^ w == w
  {
  }

  /** Data shorter than a word is all tail. */
  lemma HashOfTail(m: Mixer, seed: Word, tail: seq<Byte>)
    requires |tail| < 4
    ensures Hash(m, seed, tail) == m.finish(MixTail(m, seed, tail) ^ Length(|tail|))
  {
    assert Words(tail) == [] && Tail(tail) == tail;
  }

  lemma HashOfShort(m: Mixer, seed: Word, tail: seq<Byte>, k: Word)
    requires 0 < |tail| < 4
    requires k == Load(tail[0], if |tail| > 1 then tail[1] else 0, if |tail| > 2 then tail[2] else 0, 0)
    ensures Hash(m, seed, tail) == m.finish(m.rest(seed, k) ^ Length(|tail|))
  {
    HashOfTail(m, seed, tail);
    TailIsPadded(m, seed, tail);
  }

  lemma KnownLoads()
    ensures Load(0x21, 0, 0, 0) == 0x21 && Load(0x21, 0x43, 0, 0) == 0x4321
    ensures Load(0x21, 0x43, 0x65, 0) == 0x654321 && Load(0x21, 0x43, 0x65, 0x87) == 0x87654321
  {
  }

  lemma WordsOfWord(data: seq<Byte>, k: Word)
    requires |data| == 4 && k == Load(data[0], data[1], data[2], data[3])
    ensures Words(data) == [k] && Tail(data) == []
  {
    assert data[4..] == [] && Words([]) == [];
  }

  /** One whole word. */
  lemma HashOfWord(m: Mixer, seed: Word, data: seq<Byte>, k: Word)
    requires |data| == 4 && k == Load(data[0], data[1], data[2], data[3])
    ensures Hash(m, seed, data) == m.finish(m.word(seed, k) ^ Length(4))
  {
    WordsOfWord(data, k);
    MixOne(m, seed, k);
  }

  lemma MixOne(m: Mixer, h: Word, k: Word)
    ensures MixWords(m, h, [k]) == m.word(h, k)
  {
    assert [k][..0] == [];
  }

  lemma KnownXors()
    ensures 0 ^ (0 as Word) == 0 && (1 as Word) ^ 0 == 1 && (0xac5e5123 as Word) ^ 1 == 0xac5e5122
    ensures (0xec900b60 as Word) ^ 2 == 0xec900b62 && (0x17a6636e as Word) ^ 3 == 0x17a6636d && (0xbb095db4 as Word) ^ 4 == 0xbb095db0
  {
  }

  /** The published hashes of some short inputs. */
  lemma KnownHashes()
    ensures Hash(MURMUR, 0, []) == 0 && Hash(MURMUR, 1, []) == 0x514e28b7
    ensures Hash(MURMUR, 0, [0x21]) == 0x72661cf4 && Hash(MURMUR, 0, [0x21, 0x43]) == 0xa0f7b07a
    ensures Hash(MURMUR, 0, [0x21, 0x43, 0x65]) == 0x7e4a8634
    ensures Hash(MURMUR, 0, [0x21, 0x43, 0x65, 0x87]) == 0xf55b516b
  {
    Lengths();
    KnownLoads();
    KnownScrambles();
    KnownXors();
    KnownAvalanches();
    HashOfTail(MURMUR, 0, []);
    HashOfTail(MURMUR, 1, []);
    HashOfShort(MURMUR, 0, [0x21], 0x21);
    HashOfShort(MURMUR, 0, [0x21, 0x43], 0x4321);
    HashOfShort(MURMUR, 0, [0x21, 0x43, 0x65], 0x654321);
    HashOfWord(MURMUR, 0, [0x21, 0x43, 0x65, 0x87], 0x87654321);
  }

  // ------------------------------------------------------------- mixing in pieces

  lemma {:induction false} WordsInPieces(a: seq<Byte>, b: seq<Byte>)
    requires |a| % 4 == 0
    ensures Words(a + b) == Words(a) + Words(b)
    decreases |a|
  {
    if a == [] {
      assert a + b == b;
    } else {
      WordsInPieces(a[4..], b);
      assert (a + b)[4..] == a[4..] + b;
    }
  }

  lemma {:induction false} MixInPieces(m: Mixer, h: Word, x: seq<Word>, y: seq<Word>)
    ensures MixWords(m, h, x + y) == MixWords(m, MixWords(m, h, x), y)
    decreases |y|
  {
    if y == [] {
      assert x + y == x;
    } else {
      MixInPieces(m, h, x, y[..|y| - 1]);
      assert (x + y)[..|x| + |y| - 1] == x + y[..|y| - 1];
    }
  }

  /** Mixing is the same whether or not it stops between whole words. */
  lemma MixAppend(m: Mixer, h: Word, a: seq<Byte>, b: seq<Byte>)
    requires |a| % 4 == 0
    ensures Mix(m, h, a + b) == Mix(m, Mix(m, h, a), b)
  {
    WordsInPieces(a, b);
    MixInPieces(m, h, Words(a), Words(b));
  }

  lemma TailAppend(a: seq<Byte>, b: seq<Byte>)
    requires |a| % 4 == 0
    ensures Tail(a + b) == Tail(b)
  {
  }

  lemma OneWord(m: Mixer, h: Word, block: seq<Byte>)
    requires |block| == 4
    ensures Mix(m, h, block) == m.word(h, Load(block[0], block[1], block[2], block[3]))
  {
    var ks := [Load(block[0], block[1], block[2], block[3])];
    assert block[4..] == [] && Words(block[4..]) == [];
    assert Words(block) == ks && ks[..0] == [] && MixWords(m, h, ks[..0]) == h;
  }

  lemma NextWord(m: Mixer, h: Word, data: seq<Byte>, i: nat)
    requires i * 4 + 4 <= |data|
    ensures Mix(m, h, data[..i * 4 + 4]) ==
            m.word(Mix(m, h, data[..i * 4]), Load(data[i * 4], data[i * 4 + 1], data[i * 4 + 2], data[i * 4 + 3]))
  {
    var block := data[i * 4..i * 4 + 4];
    assert data[..i * 4 + 4] == data[..i * 4] + block;
    MixAppend(m, h, data[..i * 4], block);
    OneWord(m, Mix(m, h, data[..i * 4]), block);
  }

  /** The bytes past the whole words do not reach the running hash. */
  lemma WholeWords(m: Mixer, h: Word, data: seq<Byte>)
    ensures Mix(m, h, data[..|data| / 4 * 4]) == Mix(m, h, data)
    ensures data[..|data| / 4 * 4] + Tail(data) == data
  {
    var n := |data| / 4 * 4;
    var whole, tail := data[..n], data[n..];
    assert whole + tail == data;
    MixAppend(m, h, whole, tail);
    assert Words(tail) == [];
  }

  // ------------------------------------------------------------- the hash as it is computed

  /** Mix as many whole words as there are; the bytes left over are the tail. */
  method BMix(m: Mixer, h: Word, p: seq<Byte>) returns (h1: Word, tail: seq<Byte>)
    ensures h1 == Mix(m, h, p) && tail == Tail(p)
  {
    h1 := h;
    var nblocks := |p| / 4;
    assert p[..0] == [];
    for i := 0 to nblocks
      invariant h1 == Mix(m, h, p[..i * 4])
    {
      NextWord(m, h, p, i);
      h1 := m.word(h1, Load(p[i * 4], p[i * 4 + 1], p[i * 4 + 2], p[i * 4 + 3]));
    }
    WholeWords(m, h, p);
    tail := p[nblocks * 4..];
  }

  /** The word the bytes left over are mixed in as, when they are put together one at a time. */
  lemma TailValues(m: Mixer, h: Word, tail: seq<Byte>)
    requires |tail| < 4
    ensures tail == [] ==> MixTail(m, h, tail) == h
    ensures |tail| == 1 ==> MixTail(m, h, tail) == m.rest(h, 0 ^ Widen(tail[0]))
    ensures |tail| == 2 ==> MixTail(m, h, tail) == m.rest(h, 0 ^ (Widen(tail[1]) << 8) ^ Widen(tail[0]))
    ensures |tail| == 3 ==>
              MixTail(m, h, tail) == m.rest(h, 0 ^ (Widen(tail[2]) << 16) ^ (Widen(tail[1]) << 8) ^ Widen(tail[0]))
  {
    if tail != [] {
      XorZero(Widen(tail[0]));
      XorZero(Widen(tail[|tail| - 1]) << 8);
      XorZero(Widen(tail[|tail| - 1]) << 16);
    }
  }

  /** Mix in the bytes left over, last first, and the length, and finish. */
  method Finish(m: Mixer, h: Word, tail: seq<Byte>, n: nat) returns (h1: Word)
    requires |tail| < 4
    ensures h1 == m.finish(MixTail(m, h, tail) ^ Length(n))
  {
    h1 := h;
    var k1: Word := 0;
    if |tail| == 3 {
      k1 := k1 ^ (Widen(tail[2]) << 16);
    }
    if |tail| >= 2 {
      k1 := k1 ^ (Widen(tail[1]) << 8);
    }
    if |tail| >= 1 {
      k1 := k1 ^ Widen(tail[0]);
      h1 := m.rest(h1, k1);
    }
    TailValues(m, h, tail);
    h1 := m.finish(h1 ^ Length(n));
  }

  /** The hash of data given all at once. */
  method Sum32WithSeed(m: Mixer, data: seq<Byte>, seed: Word) returns (h1: Word)
    ensures h1 == Hash(m, seed, data)
  {
    var tail;
    h1, tail := BMix(m, seed, data);
    h1 := Finish(m, h1, tail, |data|);
  }

  // ------------------------------------------------------------- the streaming digest

  /** A digest in progress. The pending bytes are the first tailLen of the buffer. */
  class Digest32 {
    const m: Mixer
    const seed: Word
    const buf: array<Byte>
    var clen: nat
    var tailLen: nat
    var h1: Word
    ghost var written: seq<Byte>

    /** The state is that of hashing everything written since the last reset: whole words in
        the running hash, fewer than four bytes pending. */
    ghost predicate Valid()
      reads this, buf
    {
      && buf.Length == 16 && tailLen < 4 && clen == |written|
      && buf[..tailLen] == Tail(written) && h1 == Mix(m, seed, written)
    }

    constructor (m: Mixer, seed: Word)
      ensures Valid() && written == [] && this.m == m && this.seed == seed && fresh(buf)
    {
      this.m := m;
      this.seed := seed;
      buf := new Byte[16](_ => 0);
      clen, tailLen, h1, written := 0, 0, seed, [];
    }

    method Reset()
      requires buf.Length == 16
      modifies this
      ensures Valid() && written == []
    {
      clen := 0;
      tailLen := 0;
      h1 := seed;
      written := [];
    }

    /** Hold some bytes back: copy them to the front of the buffer. */
    method Hold(tail: seq<Byte>)
      requires |tail| < 4 && buf.Length == 16
      modifies this`tailLen, buf
      ensures tailLen == |tail| && buf[..tailLen] == tail
    {
      for i := 0 to |tail|
        invariant buf[..i] == tail[..i]
      {
        buf[i] := tail[i];
      }
      tailLen := |tail|;
    }

    /** Append to the pending bytes in the buffer itself. */
    method Extend(p: seq<Byte>) returns (block: seq<Byte>)
      requires Valid() && tailLen + |p| <= buf.Length
      modifies buf
      ensures block == buf[..tailLen + |p|] == old(buf[..tailLen]) + p
    {
      for i := 0 to |p|
        invariant buf[..tailLen + i] == old(buf[..tailLen]) + p[..i]
      {
        buf[tailLen + i] := p[i];
      }
      block := buf[..tailLen + |p|];
    }

    /** Join new data to the pending bytes: either one whole word is formed and mixed in, or
        everything becomes the data still to be mixed. Whole is what has been mixed in. */
    method StickBack(data: seq<Byte>, ghost whole0: seq<Byte>) returns (p: seq<Byte>, ghost whole: seq<Byte>)
      requires Valid() && |whole0| % 4 == 0 && whole0 + buf[..tailLen] == written && h1 == Mix(m, seed, whole0)
      modifies this`h1, buf
      ensures |whole| % 4 == 0 && whole + p == written + data && h1 == Mix(m, seed, whole)
    {
      p, whole := data, whole0;
      if tailLen > 0 {
        var nfree := 4 - tailLen;
        ghost var pending := buf[..tailLen];
        if nfree < |data| {
          // one whole word can be formed
          var block := Extend(data[..nfree]);
          p := data[nfree..];
          MixAppend(m, seed, whole, block);
          var rest;
          h1, rest := BMix(m, h1, block);
          whole := whole + block;
          assert pending + data == block + p;
        } else {
          p := Extend(data);
        }
      }
    }

    /** Take in more data. However the data was cut, the digest is that of all of it. */
    method Write(data: seq<Byte>) returns (n: nat)
      requires Valid()
      modifies this, buf
      ensures Valid() && n == |data| && written == old(written) + data
    {
      n := |data|;
      WholeWords(m, seed, written);
      var p, tail;
      ghost var whole;
      p, whole := StickBack(data, written[..|written| / 4 * 4]);
      MixAppend(m, seed, whole, p);
      TailAppend(whole, p);
      h1, tail := BMix(m, h1, p);
      Hold(tail);
      clen := clen + n;
      written := written + data;
    }

    /** The hash of everything written since the last reset. */
    method Sum32() returns (h: Word)
      requires Valid()
      ensures h == Hash(m, seed, written)
    {
      h := Finish(m, h1, buf[..tailLen], clen);
    }
  }
}
