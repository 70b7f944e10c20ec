/** The lock-free search of one chain, slot by slot, beside a writer that changes the chain under
    its lock. A deletion stores the meta word and then the entry, an insertion likewise, so a
    search may meet either half done. It still answers a value that the map held for its key at
    some moment of the search. */
module XsyncReader {
  import opened Options
  import opened XsyncChain
  import opened XsyncSwar

  /** The hash of keys, the number of chains, the chain searched, and the key looked for. */
  datatype Search<!K> = Search(hash: K -> bv64, len: nat, j: nat, key: K)

  /** What the writer has done: nothing, or the first of two stores, on a chain and its map. */
  datatype Phase<K, V> =
    | Quiet
    | Deleting(base: Chain<K, V>, m: map<K, V>, b: nat, i: nat)
    | Inserting(base: Chain<K, V>, m: map<K, V>, b: nat, i: nat, e: Entry<K, V>)

  datatype Reader<V> =
    | AtBucket(b: nat)
    | Scanning(b: nat, marked: bv64)
    | Answered(answer: Option<V>)

  /** The chain, the map it stands for, the reader, and what the map held for the key after each
      step since the search began. */
  datatype State<K, V> = State(
    chain: Chain<K, V>,
    phase: Phase<K, V>,
    contents: map<K, V>,
    reader: Reader<V>,
    held: seq<Option<V>>)

  datatype Action<K, V> =
    | Update(b: nat, i: nat, value: V)
    | DeleteMeta(b: nat, i: nat)
    | DeleteEntry
    | InsertMeta(b: nat, i: nat, e: Entry<K, V>)
    | InsertEntry
    | Append(e: Entry<K, V>)
    | LoadMeta
    | LoadEntry
    | LoadNext

  function Lookup<K, V>(m: map<K, V>, k: K): Option<V> {
    if k in m then Some(m[k]) else None
  }

  // ------------------------------------------------------------- the steps

  /** The first store of a change: the tag of a slot. */
  function MetaSet<K, V>(c: Chain<K, V>, b: nat, i: nat, tag: bv64): Chain<K, V>
    requires b < |c| && i < 5
  {
    c[b := c[b].(meta := SetByte(c[b].meta, tag, i))]
  }

  predicate Slot<K, V>(c: Chain<K, V>, b: nat, i: nat) {
    b < |c| && i < 5 && |c[b].entries| == 5
  }

  /** The writer holds the lock, and inserts only a key of this chain that it has not found. */
  predicate Enabled<K(==), V>(q: Search<K>, s: State<K, V>, a: Action<K, V>) {
    match a
    case Update(b, i, _) => s.phase.Quiet? && Slot(s.chain, b, i) && s.chain[b].entries[i].Some?
    case DeleteMeta(b, i) => s.phase.Quiet? && Slot(s.chain, b, i) && s.chain[b].entries[i].Some?
    case DeleteEntry => s.phase.Deleting? && Slot(s.chain, s.phase.b, s.phase.i)
    case InsertMeta(b, i, e) =>
      && s.phase.Quiet? && Slot(s.chain, b, i) && s.chain[b].entries[i].None?
      && e.key !in s.contents && q.len > 0 && BucketIndex(q.hash(e.key), q.len) == q.j
    case InsertEntry => s.phase.Inserting? && Slot(s.chain, s.phase.b, s.phase.i)
    case Append(e) => s.phase.Quiet? && e.key !in s.contents && q.len > 0 && BucketIndex(q.hash(e.key), q.len) == q.j
    case LoadMeta => s.reader.AtBucket? && s.reader.b < |s.chain|
    case LoadEntry =>
      && s.reader.Scanning? && s.reader.marked != 0
      && FirstMarkedByteIndex(s.reader.marked) < 5 && Slot(s.chain, s.reader.b, FirstMarkedByteIndex(s.reader.marked))
    case LoadNext => s.reader.Scanning? && s.reader.marked == 0
  }

  predicate ByReader<K, V>(a: Action<K, V>) {
    a.LoadMeta? || a.LoadEntry? || a.LoadNext?
  }

  function WriterStep<K(==), V>(q: Search<K>, s: State<K, V>, a: Action<K, V>): State<K, V>
    requires Enabled(q, s, a) && !ByReader(a)
  {
    match a
    case Update(b, i, value) =>
      var key := s.chain[b].entries[i].value.key;
      s.(chain := ReplaceEntry(s.chain, b, i, Entry(key, value)), contents := s.contents[key := value])
    case DeleteMeta(b, i) =>
      s.(chain := MetaSet(s.chain, b, i, EMPTY_META_SLOT), phase := Deleting(s.chain, s.contents, b, i),
         contents := s.contents - {s.chain[b].entries[i].value.key})
    case DeleteEntry =>
      var b := s.phase.b;
      s.(chain := s.chain[b := s.chain[b].(entries := s.chain[b].entries[s.phase.i := None])], phase := Quiet)
    case InsertMeta(b, i, e) =>
      s.(chain := MetaSet(s.chain, b, i, H2(q.hash(e.key))), phase := Inserting(s.chain, s.contents, b, i, e))
    case InsertEntry =>
      s.(chain := ReplaceEntry(s.chain, s.phase.b, s.phase.i, s.phase.e), phase := Quiet,
         contents := s.contents[s.phase.e.key := s.phase.e.value])
    case Append(e) =>
      s.(chain := s.chain + [NewBucket(H2(q.hash(e.key)), e)], contents := s.contents[e.key := e.value])
  }

  function ReaderStep<K(==), V>(q: Search<K>, s: State<K, V>, a: Action<K, V>): Reader<V>
    requires Enabled(q, s, a) && ByReader(a)
  {
    match a
    case LoadMeta => Scanning(s.reader.b, MatchMask(s.chain[s.reader.b].meta, H2(q.hash(q.key))))
    case LoadEntry =>
      var Scanning(b, marked) := s.reader;
      var slot := s.chain[b].entries[FirstMarkedByteIndex(marked)];
      if slot.Some? && slot.value.key == q.key then Answered(Some(slot.value.value)) else Scanning(b, marked & (marked - 1))
    case LoadNext => if s.reader.b + 1 < |s.chain| then AtBucket(s.reader.b + 1) else Answered(None)
  }

  function Step<K(==), V>(q: Search<K>, s: State<K, V>, a: Action<K, V>): State<K, V>
    requires Enabled(q, s, a)
  {
    var s' := if ByReader(a) then s.(reader := ReaderStep(q, s, a)) else WriterStep(q, s, a);
    s'.(held := s.held + [Lookup(s'.contents, q.key)])
  }

  ghost predicate Starts<K, V>(q: Search<K>, s: State<K, V>) {
    s.reader == AtBucket(0) && s.held == [Lookup(s.contents, q.key)]
  }

  // ------------------------------------------------------------- the chain

  /** The chain stores the map; half way through a change, the chain before it stores the map
      before it. */
  ghost predicate ChainInv<K(!new), V>(q: Search<K>, s: State<K, V>) {
    && q.len > 0
    && match s.phase
       case Quiet => ChainOk(s.chain, q.hash, q.len, q.j, s.contents)
       case Deleting(base, m, b, i) =>
         && ChainOk(base, q.hash, q.len, q.j, m) && Slot(base, b, i) && base[b].entries[i].Some?
         && s.chain == MetaSet(base, b, i, EMPTY_META_SLOT) && s.contents == m - {base[b].entries[i].value.key}
       case Inserting(base, m, b, i, e) =>
         && ChainOk(base, q.hash, q.len, q.j, m) && Slot(base, b, i) && base[b].entries[i].None?
         && e.key !in m && BucketIndex(q.hash(e.key), q.len) == q.j
         && s.chain == MetaSet(base, b, i, H2(q.hash(e.key))) && s.contents == m
  }

  lemma UpdateInv<K(!new), V>(q: Search<K>, s: State<K, V>, b: nat, i: nat, value: V)
    requires ChainInv(q, s) && Enabled(q, s, Update(b, i, value))
    ensures ChainInv(q, Step(q, s, Update(b, i, value)))
  {
    var k := s.chain[b].entries[i].value.key;
    assert Holds(s.chain, b, i, k);
    UpdateKeepsOk(s.chain, q.hash, q.len, q.j, s.contents, b, i, k, value);
  }

  lemma DeleteInv<K(!new), V>(q: Search<K>, s: State<K, V>)
    requires ChainInv(q, s) && Enabled(q, s, DeleteEntry)
    ensures ChainInv(q, Step(q, s, DeleteEntry))
  {
    var Deleting(base, m, b, i) := s.phase;
    var k := base[b].entries[i].value.key;
    assert Holds(base, b, i, k);
    DeleteKeepsOk(base, q.hash, q.len, q.j, m, b, i, k);
    assert Step(q, s, DeleteEntry).chain == WriteSlot(base, b, i, EMPTY_META_SLOT, None);
  }

  lemma InsertInv<K(!new), V>(q: Search<K>, s: State<K, V>)
    requires ChainInv(q, s) && Enabled(q, s, InsertEntry)
    ensures ChainInv(q, Step(q, s, InsertEntry))
  {
    var Inserting(base, m, b, i, e) := s.phase;
    InsertKeepsOk(base, q.hash, q.len, q.j, m, b, i, e.key, e.value);
    assert Step(q, s, InsertEntry).chain == WriteSlot(base, b, i, H2(q.hash(e.key)), Some(e));
  }

  lemma AppendInv<K(!new), V>(q: Search<K>, s: State<K, V>, e: Entry<K, V>)
    requires ChainInv(q, s) && Enabled(q, s, Append(e))
    ensures ChainInv(q, Step(q, s, Append(e)))
  {
    AppendKeepsOk(s.chain, q.hash, q.len, q.j, s.contents, e.key, e.value);
  }

  lemma FirstStoreInv<K(!new), V>(q: Search<K>, s: State<K, V>, a: Action<K, V>)
    requires ChainInv(q, s) && Enabled(q, s, a) && (a.DeleteMeta? || a.InsertMeta?)
    ensures ChainInv(q, Step(q, s, a))
  {
  }

  lemma StepChain<K(!new), V>(q: Search<K>, s: State<K, V>, a: Action<K, V>)
    requires ChainInv(q, s) && Enabled(q, s, a)
    ensures ChainInv(q, Step(q, s, a))
  {
    match a
    case Update(b, i, value) => UpdateInv(q, s, b, i, value);
    case DeleteEntry => DeleteInv(q, s);
    case InsertEntry => InsertInv(q, s);
    case Append(e) => AppendInv(q, s, e);
    case DeleteMeta(_, _) => FirstStoreInv(q, s, a);
    case InsertMeta(_, _, _) => FirstStoreInv(q, s, a);
    case LoadMeta =>
    case LoadEntry =>
    case LoadNext =>
  }

  // ------------------------------------------------------------- where the key is

  /** The slot is being emptied: its tag is gone, its entry not yet. */
  ghost predicate Leaving<K, V>(s: State<K, V>, b: int, i: int) {
    s.phase.Deleting? && s.phase.b == b && s.phase.i == i
  }

  /** The slot holds the key, and the map has it. */
  ghost predicate Live<K, V>(q: Search<K>, s: State<K, V>, b: int, i: int) {
    Holds(s.chain, b, i, q.key) && !Leaving(s, b, i)
  }

  /** A live slot has the tag of the key and its value. */
  lemma LiveIs<K(!new), V>(q: Search<K>, s: State<K, V>, b: int, i: int)
    requires ChainInv(q, s) && Live(q, s, b, i)
    ensures 0 <= i < 5 && ByteAt(s.chain[b].meta, i) == H2(q.hash(q.key))
    ensures Lookup(s.contents, q.key) == Some(s.chain[b].entries[i].value.value)
  {
    var base := if s.phase.Quiet? then s.chain else s.phase.base;
    assert Holds(base, b, i, q.key);
    assert BucketOk(base[b], q.hash);
    assert SlotOk(base[b].meta, i, base[b].entries[i], q.hash);
    if !s.phase.Quiet? && s.phase.b == b {
      SetByteWritesOne(base[b].meta, if s.phase.Deleting? then EMPTY_META_SLOT else H2(q.hash(s.phase.e.key)), s.phase.i, i);
    }
    if s.phase.Deleting? {
      assert Holds(base, s.phase.b, s.phase.i, base[s.phase.b].entries[s.phase.i].value.key);
    }
  }

  /** A key of this chain that the map has stands in a live slot. */
  lemma KeyIsLive<K(!new), V>(q: Search<K>, s: State<K, V>)
    requires ChainInv(q, s) && q.key in s.contents && BucketIndex(q.hash(q.key), q.len) == q.j
    ensures exists b, i :: Live(q, s, b, i)
  {
    var base := if s.phase.Quiet? then s.chain else s.phase.base;
    assert Present(base, q.key);
    var b, i :| Holds(base, b, i, q.key);
    assert Live(q, s, b, i);
  }

  /** A slot being emptied has the mark of an empty one. */
  lemma LeavingIsEmpty<K(!new), V>(q: Search<K>, s: State<K, V>)
    requires ChainInv(q, s) && s.phase.Deleting?
    ensures Slot(s.chain, s.phase.b, s.phase.i) && ByteAt(s.chain[s.phase.b].meta, s.phase.i) == EMPTY_META_SLOT
  {
    var Deleting(base, _, b, i) := s.phase;
    SetByteWritesOne(base[b].meta, EMPTY_META_SLOT, i, i);
  }

  // ------------------------------------------------------------- the search

  /** The reader has yet to pass the slot. */
  ghost predicate Ahead<V>(r: Reader<V>, b: int, i: int) {
    match r
    case AtBucket(at) => at <= b
    case Scanning(at, marked) => at < b || (at == b && i in MarkedSlots(marked))
    case Answered(_) => false
  }

  ghost predicate Held<K, V>(s: State<K, V>, answer: Option<V>) {
    exists n :: 0 <= n < |s.held| && s.held[n] == answer
  }

  ghost predicate Recorded<K, V>(q: Search<K>, s: State<K, V>) {
    |s.held| > 0 && s.held[|s.held| - 1] == Lookup(s.contents, q.key)
  }

  /** The key was missing at some moment, or stands ahead of the reader. */
  ghost predicate Findable<K, V>(q: Search<K>, s: State<K, V>) {
    Held(s, None) || exists b, i :: Live(q, s, b, i) && Ahead(s.reader, b, i)
  }

  ghost predicate MarksOk<K, V>(s: State<K, V>) {
    && (s.reader.AtBucket? ==> s.reader.b < |s.chain|)
    && (s.reader.Scanning? ==>
          && s.reader.b < |s.chain| && IsMask(s.reader.marked)
          && forall i :: i in MarkedSlots(s.reader.marked) ==> i < 5)
  }

  /** The reader still has the mark of a slot that is being emptied of the key. */
  ghost predicate SeesLeaving<K, V>(q: Search<K>, s: State<K, V>) {
    && s.reader.Scanning? && s.phase.Deleting? && s.phase.b == s.reader.b
    && s.phase.i in MarkedSlots(s.reader.marked) && Holds(s.chain, s.phase.b, s.phase.i, q.key)
  }

  /** In that case, the map held the entry that is about to go. */
  ghost predicate LeavingHeld<K, V>(q: Search<K>, s: State<K, V>) {
    SeesLeaving(q, s) ==> Held(s, Some(s.chain[s.phase.b].entries[s.phase.i].value.value))
  }

  ghost predicate ReaderInv<K, V>(q: Search<K>, s: State<K, V>) {
    && Recorded(q, s)
    && if s.reader.Answered? then Held(s, s.reader.answer) else Findable(q, s) && MarksOk(s) && LeavingHeld(q, s)
  }

  lemma HeldLonger<K, V>(q: Search<K>, s: State<K, V>, a: Action<K, V>, answer: Option<V>)
    requires Enabled(q, s, a)
    ensures Held(s, answer) ==> Held(Step(q, s, a), answer)
    ensures Held(Step(q, s, a), Lookup(Step(q, s, a).contents, q.key))
  {
    var s' := Step(q, s, a);
    if Held(s, answer) {
      var n :| 0 <= n < |s.held| && s.held[n] == answer;
      assert s'.held[n] == answer;
    }
    assert s'.held[|s.held|] == Lookup(s'.contents, q.key);
  }

  /** A live slot stays live, or the key is missing after the step. */
  lemma LiveStays<K(!new), V>(q: Search<K>, s: State<K, V>, a: Action<K, V>, b: int, i: int)
    requires ChainInv(q, s) && Enabled(q, s, a) && !ByReader(a) && Live(q, s, b, i)
    ensures Live(q, Step(q, s, a), b, i) || q.key !in Step(q, s, a).contents
  {
  }

  lemma ChainGrows<K, V>(q: Search<K>, s: State<K, V>, a: Action<K, V>)
    requires Enabled(q, s, a)
    ensures |Step(q, s, a).chain| >= |s.chain|
  {
  }

  lemma WriterFindable<K(!new), V>(q: Search<K>, s: State<K, V>, a: Action<K, V>)
    requires ChainInv(q, s) && Findable(q, s) && Enabled(q, s, a) && !ByReader(a)
    ensures Findable(q, Step(q, s, a))
  {
    HeldLonger(q, s, a, None);
    if !Held(s, None) {
      var b, i :| Live(q, s, b, i) && Ahead(s.reader, b, i);
      LiveStays(q, s, a, b, i);
    }
  }

  lemma WriterLeaving<K(!new), V>(q: Search<K>, s: State<K, V>, a: Action<K, V>)
    requires ChainInv(q, s) && Recorded(q, s) && Enabled(q, s, a) && !ByReader(a)
    ensures LeavingHeld(q, Step(q, s, a))
  {
    if SeesLeaving(q, Step(q, s, a)) {
      LeavingWasHeld(q, s, a);
    }
  }

  /** A step of the writer. */
  lemma WriterBeside<K(!new), V>(q: Search<K>, s: State<K, V>, a: Action<K, V>)
    requires ChainInv(q, s) && ReaderInv(q, s) && Enabled(q, s, a) && !ByReader(a)
    ensures ReaderInv(q, Step(q, s, a))
  {
    if s.reader.Answered? {
      HeldLonger(q, s, a, s.reader.answer);
    } else {
      WriterFindable(q, s, a);
      WriterLeaving(q, s, a);
      WriterMarks(q, s, a);
    }
    StepRecorded(q, s, a);
  }

  lemma WriterMarks<K, V>(q: Search<K>, s: State<K, V>, a: Action<K, V>)
    requires MarksOk(s) && Enabled(q, s, a) && !ByReader(a)
    ensures MarksOk(Step(q, s, a)) && Step(q, s, a).reader == s.reader
  {
    ChainGrows(q, s, a);
  }

  lemma StepRecorded<K, V>(q: Search<K>, s: State<K, V>, a: Action<K, V>)
    requires Enabled(q, s, a)
    ensures Recorded(q, Step(q, s, a))
  {
  }

  /** A slot that the writer begins to empty of the key was live, so the map held its entry. */
  lemma LeavingWasHeld<K(!new), V>(q: Search<K>, s: State<K, V>, a: Action<K, V>)
    requires ChainInv(q, s) && Recorded(q, s)
    requires Enabled(q, s, a) && !ByReader(a)
    requires var s' := Step(q, s, a); s'.phase.Deleting? && Holds(s'.chain, s'.phase.b, s'.phase.i, q.key)
    ensures var s' := Step(q, s, a); Held(s', Some(s'.chain[s'.phase.b].entries[s'.phase.i].value.value))
  {
    var s' := Step(q, s, a);
    assert a.DeleteMeta?;
    assert Live(q, s, a.b, a.i);
    LiveIs(q, s, a.b, a.i);
    HeldLonger(q, s, a, Lookup(s.contents, q.key));
  }

  lemma MetaLoaded<K(!new), V>(q: Search<K>, s: State<K, V>)
    requires ChainInv(q, s) && ReaderInv(q, s) && Enabled(q, s, LoadMeta)
    ensures ReaderInv(q, Step(q, s, LoadMeta))
  {
    var at, h2 := s.reader.b, H2(q.hash(q.key));
    var meta := s.chain[at].meta;
    H2Small(q.hash(q.key));
    HeldLonger(q, s, LoadMeta, None);
    MarksOfTag(meta, h2);
    if !Held(s, None) {
      var b, i :| Live(q, s, b, i) && Ahead(s.reader, b, i);
      LiveIs(q, s, b, i);
      assert Live(q, Step(q, s, LoadMeta), b, i) && Ahead(Step(q, s, LoadMeta).reader, b, i);
    }
    if s.phase.Deleting? {
      LeavingIsEmpty(q, s);
    }
  }

  /** The slots marked are slots, those with the tag are, and empty ones are not. */
  lemma MarksOfTag(meta: bv64, h2: bv64)
    requires h2 <= 0x7f
    ensures IsMask(MatchMask(meta, h2)) && forall i :: i in MarkedSlots(MatchMask(meta, h2)) ==> i < 5
    ensures forall i: nat :: i < 5 && ByteAt(meta, i) == h2 ==> i in MarkedSlots(MatchMask(meta, h2))
    ensures forall i: nat :: i < 5 && ByteAt(meta, i) == EMPTY_META_SLOT ==> i !in MarkedSlots(MatchMask(meta, h2))
  {
    MatchMaskShape(meta, h2, 5);
    MatchMaskShape(meta, h2, 6);
    MatchMaskShape(meta, h2, 7);
    forall i: nat | i < 5 && ByteAt(meta, i) == h2
      ensures i in MarkedSlots(MatchMask(meta, h2))
    {
      MatchMaskComplete(meta, h2, i);
    }
    forall i: nat | i < 5 && ByteAt(meta, i) == EMPTY_META_SLOT
      ensures i !in MarkedSlots(MatchMask(meta, h2))
    {
      EmptyIsNotMarked(meta, h2, i);
    }
  }

  /** The entry is that of the key: the map has it, or had it when the search read the tag. */
  lemma KeyLoaded<K(!new), V>(q: Search<K>, s: State<K, V>, idx: nat)
    requires ChainInv(q, s) && ReaderInv(q, s) && Enabled(q, s, LoadEntry) && idx == FirstMarkedByteIndex(s.reader.marked)
    requires Holds(s.chain, s.reader.b, idx, q.key)
    ensures ReaderInv(q, Step(q, s, LoadEntry))
  {
    var Scanning(at, marked) := s.reader;
    OneMarkLess(marked, idx);
    if !Leaving(s, at, idx) {
      LiveIs(q, s, at, idx);
    }
    HeldLonger(q, s, LoadEntry, Some(s.chain[at].entries[idx].value.value));
  }

  lemma OtherFindable<K(!new), V>(q: Search<K>, s: State<K, V>, idx: nat)
    requires Findable(q, s) && MarksOk(s) && Enabled(q, s, LoadEntry) && idx == FirstMarkedByteIndex(s.reader.marked)
    requires !Holds(s.chain, s.reader.b, idx, q.key)
    ensures Findable(q, Step(q, s, LoadEntry))
  {
    HeldLonger(q, s, LoadEntry, None);
    if !Held(s, None) {
      var b, i :| Live(q, s, b, i) && Ahead(s.reader, b, i);
      StillAhead(s.reader, idx, b, i);
      ReaderLeaves(q, s, LoadEntry, b, i);
      assert Step(q, s, LoadEntry).reader == Scanning(s.reader.b, s.reader.marked & (s.reader.marked - 1));
    }
  }

  /** A slot other than the one looked at is still ahead. */
  lemma StillAhead<V>(r: Reader<V>, idx: nat, b: int, i: int)
    requires r.Scanning? && r.marked != 0 && IsMask(r.marked) && idx == FirstMarkedByteIndex(r.marked) < 8
    requires Ahead(r, b, i) && !(b == r.b && i == idx)
    ensures Ahead(Reader<V>.Scanning(r.b, r.marked & (r.marked - 1)), b, i)
  {
    OneMarkLess(r.marked, idx);
  }

  lemma ReaderLeaves<K(!new), V>(q: Search<K>, s: State<K, V>, a: Action<K, V>, b: int, i: int)
    requires Enabled(q, s, a) && ByReader(a)
    ensures Step(q, s, a).chain == s.chain && Step(q, s, a).phase == s.phase
    ensures Live(q, Step(q, s, a), b, i) == Live(q, s, b, i)
  {
  }

  lemma OtherLeaving<K(!new), V>(q: Search<K>, s: State<K, V>, idx: nat)
    requires LeavingHeld(q, s) && MarksOk(s) && Enabled(q, s, LoadEntry) && idx == FirstMarkedByteIndex(s.reader.marked)
    requires !Holds(s.chain, s.reader.b, idx, q.key)
    ensures LeavingHeld(q, Step(q, s, LoadEntry))
  {
    OneMarkLess(s.reader.marked, idx);
    if SeesLeaving(q, Step(q, s, LoadEntry)) {
      HeldLonger(q, s, LoadEntry, Some(s.chain[s.phase.b].entries[s.phase.i].value.value));
    }
  }

  /** It is not: the search goes on to the next mark. */
  lemma OtherLoaded<K(!new), V>(q: Search<K>, s: State<K, V>, idx: nat)
    requires ReaderInv(q, s) && Enabled(q, s, LoadEntry) && idx == FirstMarkedByteIndex(s.reader.marked)
    requires !Holds(s.chain, s.reader.b, idx, q.key)
    ensures ReaderInv(q, Step(q, s, LoadEntry))
  {
    OtherFindable(q, s, idx);
    OtherLeaving(q, s, idx);
    OneMarkLess(s.reader.marked, idx);
  }

  lemma EntryLoaded<K(!new), V>(q: Search<K>, s: State<K, V>)
    requires ChainInv(q, s) && ReaderInv(q, s) && Enabled(q, s, LoadEntry)
    ensures ReaderInv(q, Step(q, s, LoadEntry))
  {
    var idx := FirstMarkedByteIndex(s.reader.marked);
    if Holds(s.chain, s.reader.b, idx, q.key) {
      KeyLoaded(q, s, idx);
    } else {
      OtherLoaded(q, s, idx);
    }
  }

  lemma NextLoaded<K(!new), V>(q: Search<K>, s: State<K, V>)
    requires ChainInv(q, s) && ReaderInv(q, s) && Enabled(q, s, LoadNext)
    ensures ReaderInv(q, Step(q, s, LoadNext))
  {
    HeldLonger(q, s, LoadNext, None);
    NoneMarked();
    if !Held(s, None) {
      var b, i :| Live(q, s, b, i) && Ahead(s.reader, b, i);
      assert Live(q, Step(q, s, LoadNext), b, i) && Ahead(Step(q, s, LoadNext).reader, b, i);
    }
  }

  lemma StepReader<K(!new), V>(q: Search<K>, s: State<K, V>, a: Action<K, V>)
    requires ChainInv(q, s) && ReaderInv(q, s) && Enabled(q, s, a)
    ensures ReaderInv(q, Step(q, s, a))
  {
    match a
    case LoadMeta => MetaLoaded(q, s);
    case LoadEntry => EntryLoaded(q, s);
    case LoadNext => NextLoaded(q, s);
    case _ => WriterBeside(q, s, a);
  }

  /** A search never gets stuck, whatever the writer has done. */
  lemma SearchGoesOn<K(!new), V>(q: Search<K>, s: State<K, V>)
    requires ChainInv(q, s) && ReaderInv(q, s) && !s.reader.Answered?
    ensures Enabled(q, s, LoadMeta) || Enabled(q, s, LoadEntry) || Enabled(q, s, LoadNext)
  {
    if s.reader.Scanning? && s.reader.marked != 0 {
      var idx := FirstMarkedByteIndex(s.reader.marked);
      FirstMarkedIsLowest(s.reader.marked);
      assert idx in MarkedSlots(s.reader.marked);
      var base := if s.phase.Quiet? then s.chain else s.phase.base;
      assert BucketOk(base[s.reader.b], q.hash);
    }
  }

  // ------------------------------------------------------------- every search

  predicate Runs<K(==), V>(q: Search<K>, s: State<K, V>, run: seq<Action<K, V>>)
    decreases |run|
  {
    run == [] || (Enabled(q, s, run[0]) && Runs(q, Step(q, s, run[0]), run[1..]))
  }

  function After<K(==), V>(q: Search<K>, s: State<K, V>, run: seq<Action<K, V>>): State<K, V>
    requires Runs(q, s, run)
    decreases |run|
  {
    if run == [] then s else After(q, Step(q, s, run[0]), run[1..])
  }

  lemma {:induction false} RunKeeps<K(!new), V>(q: Search<K>, s: State<K, V>, run: seq<Action<K, V>>)
    requires ChainInv(q, s) && ReaderInv(q, s) && Runs(q, s, run)
    ensures ChainInv(q, After(q, s, run)) && ReaderInv(q, After(q, s, run))
    decreases |run|
  {
    if run != [] {
      StepChain(q, s, run[0]);
      StepReader(q, s, run[0]);
      RunKeeps(q, Step(q, s, run[0]), run[1..]);
    }
  }

  /** Whatever is stored and deleted in the meantime, and however its loads fall between the stores,
      a search that begins in any state of the chain answers what the map held for the key after
      one of the steps since it began. */
  lemma {:induction false} SearchAnswersHeld<K(!new), V>(q: Search<K>, s: State<K, V>, run: seq<Action<K, V>>) returns (n: nat)
    requires ChainInv(q, s) && Starts(q, s) && BucketIndex(q.hash(q.key), q.len) == q.j
    requires Runs(q, s, run) && After(q, s, run).reader.Answered?
    ensures n < |After(q, s, run).held| && After(q, s, run).reader.answer == After(q, s, run).held[n]
    ensures n <= |run| && Runs(q, s, run[..n]) && After(q, s, run).held[n] == Lookup(After(q, s, run[..n]).contents, q.key)
  {
    if q.key in s.contents {
      KeyIsLive(q, s);
    } else {
      assert s.held[0] == None;
    }
    RunKeeps(q, s, run);
    var end := After(q, s, run);
    n :| 0 <= n < |end.held| && end.held[n] == end.reader.answer;
    HeldIs(q, s, run, n);
  }

  /** What is recorded is what the map held step by step. */
  lemma {:induction false} HeldIs<K(!new), V>(q: Search<K>, s: State<K, V>, run: seq<Action<K, V>>, n: nat)
    requires Runs(q, s, run) && |s.held| > 0 && s.held[|s.held| - 1] == Lookup(s.contents, q.key)
    requires |s.held| - 1 <= n
    ensures |After(q, s, run).held| == |s.held| + |run|
    ensures forall i :: 0 <= i < |s.held| ==> After(q, s, run).held[i] == s.held[i]
    ensures n < |s.held| + |run| ==>
              var k := n - (|s.held| - 1);
              Runs(q, s, run[..k]) && After(q, s, run).held[n] == Lookup(After(q, s, run[..k]).contents, q.key)
    decreases |run|
  {
    if run == [] {
      assert run[..0] == [];
    } else {
      var next := Step(q, s, run[0]);
      if n == |s.held| - 1 {
        HeldIs(q, next, run[1..], n + 1);
        assert run[..0] == [];
      } else {
        HeldIs(q, next, run[1..], n);
        var k := n - (|s.held| - 1);
        if n < |s.held| + |run| {
          assert run[..k][1..] == run[1..][..k - 1];
        }
      }
    }
  }
}
