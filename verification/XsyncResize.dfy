/** The resize protocol of `xsync.Map`, as a step system in which any number of threads
    interleave. A writer loads the table pointer, locks its bucket, checks the `resizing`
    flag, checks the table pointer again, writes, unlocks and only then adjusts the size
    counter. A resizer wins the flag, copies the buckets one by one under their locks,
    publishes the new table and lowers the flag. */
module XsyncResize {
  import opened Options

  datatype Hint = Grow | Shrink | Clear

  /** A table: what its buckets hold together, how many buckets, and its size counter. */
  datatype Table<K, V> = Table(contents: map<K, V>, len: nat, counter: int)

  datatype Thread<K> =
    | Idle
      // writer
    | Loaded(t: nat, key: K)
    | Locked(t: nat, key: K)
    | FlagSeen(t: nat, key: K)
    | Checked(t: nat, key: K)
    | Written(t: nat, key: K, delta: int)
    | Unlocked(t: nat, delta: int)
      // resizer
    | Started(hint: Hint)
    | Copying(src: nat, dst: nat, i: nat)
    | CopyLocked(src: nat, dst: nat, i: nat)
    | BucketCopied(src: nat, dst: nat, i: nat, n: nat)
    | CopyUnlocked(src: nat, dst: nat, i: nat, n: nat)
    | Ready(src: nat, dst: nat, cleared: bool)
    | Published

  /** The shared state. `abs` records the map as the writes took effect one by one, and
      `overtaken` the tables that a Clear replaced; neither is read by the protocol. */
  datatype State<!K, V> = State(
    tables: seq<Table<K, V>>,
    current: nat,
    resizing: bool,
    locks: map<(nat, nat), nat>,
    threads: seq<Thread<K>>,
    index: (nat, K) -> nat,
    abs: map<K, V>,
    overtaken: set<nat>)

  datatype Action<K, V> =
    | LoadTable(key: K)
    | LockBucket
    | CheckFlag
    | CheckTable
    | Write(value: Option<V>)
    | Cancel
    | Retreat
    | UnlockBucket
    | AddSize
    | StartResize(hint: Hint)
    | GiveUp
    | NewTable(len: nat)
    | LockSource
    | CopyBucket
    | UnlockSource
    | AddCopied
    | CopyDone
    | Publish
    | LowerFlag

  // ------------------------------------------------------------- the steps

  function Index<K, V>(s: State<K, V>, t: nat, k: K): (r: nat)
    requires t < |s.tables| && s.tables[t].len > 0
    ensures r < s.tables[t].len
  {
    s.index(t, k) % s.tables[t].len
  }

  predicate TablesOk<K, V>(s: State<K, V>) {
    && s.current < |s.tables|
    && forall t :: 0 <= t < |s.tables| ==> s.tables[t].len > 0
  }

  function Put<K, V>(m: map<K, V>, k: K, value: Option<V>): map<K, V> {
    if value.Some? then m[k := value.value] else m - {k}
  }

  function Delta<K, V>(m: map<K, V>, k: K, value: Option<V>): int {
    |Put(m, k, value)| - |m|
  }

  /** The entries of bucket i of a table. */
  function BucketOf<K, V>(s: State<K, V>, t: nat, i: nat): map<K, V>
    requires t < |s.tables| && s.tables[t].len > 0
  {
    map k | k in s.tables[t].contents && Index(s, t, k) == i :: s.tables[t].contents[k]
  }

  predicate Enabled<K, V>(s: State<K, V>, p: nat, a: Action<K, V>) {
    && TablesOk(s)
    && p < |s.threads|
    && var th := s.threads[p];
       match a
       case LoadTable(_) => th.Idle?
       case LockBucket => th.Loaded? && th.t < |s.tables| && (th.t, Index(s, th.t, th.key)) !in s.locks
       case CheckFlag => th.Locked? && th.t < |s.tables|
       case CheckTable => th.FlagSeen? && th.t < |s.tables|
       case Write(_) => th.Checked? && th.t < |s.tables|
       case Cancel => th.Checked? && th.t < |s.tables|
       case Retreat => th.Checked? && th.t < |s.tables|
       case UnlockBucket => th.Written? && th.t < |s.tables|
       case AddSize => th.Unlocked? && th.t < |s.tables|
       case StartResize(_) => th.Idle? && !s.resizing
       case GiveUp => th.Started? && th.hint.Shrink?
       case NewTable(len) => th.Started? && len > 0
       case LockSource => th.Copying? && th.src < |s.tables| && th.i < s.tables[th.src].len && (th.src, th.i) !in s.locks
       case CopyBucket => th.CopyLocked? && th.src < |s.tables| && th.dst < |s.tables|
       case UnlockSource => th.BucketCopied?
       case AddCopied => th.CopyUnlocked? && th.dst < |s.tables|
       case CopyDone => th.Copying? && th.src < |s.tables| && th.i == s.tables[th.src].len
       case Publish => th.Ready? && th.dst < |s.tables|
       case LowerFlag => th.Published?
  }

  function Become<K, V>(s: State<K, V>, p: nat, th: Thread<K>): State<K, V>
    requires p < |s.threads|
  {
    s.(threads := s.threads[p := th])
  }

  function Release<K, V>(s: State<K, V>, t: nat, b: nat): State<K, V> {
    s.(locks := s.locks - {(t, b)})
  }

  /** The steps of `doCompute`; the others are the steps of `resize`. */
  predicate ByWriter<K, V>(a: Action<K, V>) {
    || a.LoadTable? || a.LockBucket? || a.CheckFlag? || a.CheckTable?
    || a.Write? || a.Cancel? || a.Retreat? || a.UnlockBucket? || a.AddSize?
  }

  function Step<K, V>(s: State<K, V>, p: nat, a: Action<K, V>): State<K, V>
    requires Enabled(s, p, a)
  {
    if ByWriter(a) then WriterStep(s, p, a) else ResizerStep(s, p, a)
  }

  function WriterStep<K, V>(s: State<K, V>, p: nat, a: Action<K, V>): State<K, V>
    requires Enabled(s, p, a) && ByWriter(a)
  {
    var th := s.threads[p];
    match a
    case LoadTable(key) => Become(s, p, Loaded(s.current, key))
    case LockBucket =>
      Become(s.(locks := s.locks[(th.t, Index(s, th.t, th.key)) := p]), p, Locked(th.t, th.key))
    case CheckFlag =>
      // A resize in progress sends the writer back to its first step.
      if s.resizing then Become(Release(s, th.t, Index(s, th.t, th.key)), p, Idle)
      else Become(s, p, FlagSeen(th.t, th.key))
    case CheckTable =>
      if th.t != s.current then Become(Release(s, th.t, Index(s, th.t, th.key)), p, Idle)
      else Become(s, p, Checked(th.t, th.key))
    case Write(value) =>
      var table := s.tables[th.t];
      var delta := Delta(table.contents, th.key, value);
      var table' := table.(contents := Put(table.contents, th.key, value));
      var s' := Become(s.(tables := s.tables[th.t := table']), p, Written(th.t, th.key, delta));
      if th.t == s.current then s'.(abs := Put(s.abs, th.key, value)) else s'
    case Cancel => Become(Release(s, th.t, Index(s, th.t, th.key)), p, Idle)
    case Retreat =>
      // The chain and the table are full: unlock, answering nothing, and start over after a resize.
      Become(Release(s, th.t, Index(s, th.t, th.key)), p, Idle)
    case UnlockBucket => Become(Release(s, th.t, Index(s, th.t, th.key)), p, Unlocked(th.t, th.delta))
    case AddSize =>
      var table := s.tables[th.t];
      Become(s.(tables := s.tables[th.t := table.(counter := table.counter + th.delta)]), p, Idle)
  }

  function ResizerStep<K, V>(s: State<K, V>, p: nat, a: Action<K, V>): State<K, V>
    requires Enabled(s, p, a) && !ByWriter(a)
  {
    var th := s.threads[p];
    match a
    case StartResize(hint) => Become(s.(resizing := true), p, Started(hint))
    case GiveUp => Become(s.(resizing := false), p, Idle)
    case NewTable(len) =>
      var s' := s.(tables := s.tables + [Table(map[], len, 0)]);
      Become(s', p, if th.hint.Clear? then Ready(s.current, |s.tables|, true) else Copying(s.current, |s.tables|, 0))
    case LockSource => Become(s.(locks := s.locks[(th.src, th.i) := p]), p, CopyLocked(th.src, th.dst, th.i))
    case CopyBucket =>
      var copy := BucketOf(s, th.src, th.i);
      var table := s.tables[th.dst];
      Become(s.(tables := s.tables[th.dst := table.(contents := table.contents + copy)]),
             p, BucketCopied(th.src, th.dst, th.i, |copy|))
    case UnlockSource => Become(Release(s, th.src, th.i), p, CopyUnlocked(th.src, th.dst, th.i, th.n))
    case AddCopied =>
      var table := s.tables[th.dst];
      Become(s.(tables := s.tables[th.dst := table.(counter := table.counter + th.n)]),
             p, Copying(th.src, th.dst, th.i + 1))
    case CopyDone => Become(s, p, Ready(th.src, th.dst, false))
    case Publish =>
      var s' := Become(s.(current := th.dst), p, Published);
      if th.cleared then s'.(abs := map[], overtaken := s.overtaken + {th.src}) else s'
    case LowerFlag => Become(s.(resizing := false), p, Idle)
  }

  predicate Init<K, V>(s: State<K, V>) {
    && |s.tables| == 1 && s.current == 0 && s.tables[0].len > 0
    && s.tables[0].contents == map[] && s.tables[0].counter == 0
    && !s.resizing && s.locks == map[] && s.abs == map[] && s.overtaken == {}
    && forall p :: 0 <= p < |s.threads| ==> s.threads[p].Idle?
  }

  // ------------------------------------------------------------- the invariant

  predicate IsWriter<K>(th: Thread<K>) {
    th.Loaded? || th.Locked? || th.FlagSeen? || th.Checked? || th.Written? || th.Unlocked?
  }

  predicate IsCopier<K>(th: Thread<K>) {
    th.Copying? || th.CopyLocked? || th.BucketCopied? || th.CopyUnlocked? || (th.Ready? && !th.cleared)
  }

  /** Threads with a new table not yet published. */
  predicate HasCopy<K>(th: Thread<K>) {
    IsCopier(th) || th.Ready?
  }

  predicate IsResizer<K>(th: Thread<K>) {
    IsCopier(th) || th.Started? || th.Ready? || th.Published?
  }

  /** Threads that may still write to a bucket they locked. */
  predicate MayWrite<K>(th: Thread<K>) {
    th.FlagSeen? || th.Checked?
  }

  /** The bucket lock a thread holds. */
  function LockOf<K, V>(s: State<K, V>, th: Thread<K>): Option<(nat, nat)>
    requires TablesOk(s)
  {
    if (th.Locked? || th.FlagSeen? || th.Checked? || th.Written?) && th.t < |s.tables|
    then Some((th.t, Index(s, th.t, th.key)))
    else if th.CopyLocked? || th.BucketCopied? then Some((th.src, th.i))
    else None
  }

  /** How many buckets of the source a resizer has copied. */
  function DoneBuckets<K, V>(s: State<K, V>, th: Thread<K>): nat
    requires IsCopier(th) && th.src < |s.tables|
  {
    if th.Copying? || th.CopyLocked? then th.i
    else if th.BucketCopied? || th.CopyUnlocked? then th.i + 1
    else s.tables[th.src].len
  }

  /** Copied entries a resizer has not yet added to the new table's counter. */
  function Uncounted<K>(th: Thread<K>): int {
    if th.BucketCopied? || th.CopyUnlocked? then th.n else 0
  }

  /** What a thread still owes to the counter of table t. */
  function Owed<K>(th: Thread<K>, t: nat): int {
    if (th.Written? || th.Unlocked?) && th.t == t then th.delta else 0
  }

  function TotalOwed<K>(threads: seq<Thread<K>>, t: nat): int {
    if threads == [] then 0 else TotalOwed(threads[..|threads| - 1], t) + Owed(threads[|threads| - 1], t)
  }

  /** What holds of each thread p on its own. */
  ghost predicate ThreadOk<K, V>(s: State<K, V>, p: nat, th: Thread<K>)
    requires TablesOk(s)
  {
    && (LockOf(s, th).Some? ==> LockOf(s, th).value in s.locks && s.locks[LockOf(s, th).value] == p)
    && (IsResizer(th) ==> s.resizing)
    && (IsWriter(th) ==> th.t < |s.tables|)
       // A writer past both checks stands on the current table, unless a Clear overtook it.
    && (th.Checked? ==> th.t == s.current || th.t in s.overtaken)
    && (HasCopy(th) ==> th.src == s.current && th.dst < |s.tables| && th.dst != s.current && th.dst !in s.overtaken)
    && (IsCopier(th) ==> DoneBuckets(s, th) <= s.tables[th.src].len)
    && (th.CopyLocked? ==> th.i < s.tables[th.src].len)
  }

  /** What holds between a thread a and another thread b. */
  ghost predicate PairOk<K, V>(s: State<K, V>, a: Thread<K>, b: Thread<K>)
    requires TablesOk(s)
  {
    && !(IsResizer(a) && IsResizer(b))
       // No writer has seen the table a resizer is still filling.
    && (IsWriter(a) && HasCopy(b) ==> a.t != b.dst)
       // No bucket a writer may still write has been copied.
    && (MayWrite(a) && IsCopier(b) && a.t < |s.tables| && a.t == b.src ==>
          Index(s, a.t, a.key) >= DoneBuckets(s, b))
  }

  /** A resizer's private copy: exactly the entries of the buckets it has finished, counted
      up to the bucket in hand; a Clear copies nothing. */
  ghost predicate CopyOk<K(!new), V>(s: State<K, V>, th: Thread<K>)
    requires TablesOk(s) && HasCopy(th) && th.src < |s.tables| && th.dst < |s.tables|
  {
    var source, copy := s.tables[th.src].contents, s.tables[th.dst].contents;
    var done := if IsCopier(th) then DoneBuckets(s, th) else 0;
    && (forall k :: k in copy <==> k in source && Index(s, th.src, k) < done)
    && (forall k :: k in copy ==> copy[k] == source[k])
    && s.tables[th.dst].counter + Uncounted(th) == |copy|
  }

  ghost predicate Globals<K, V>(s: State<K, V>) {
    && TablesOk(s)
    && s.current !in s.overtaken
    && (forall t :: t in s.overtaken ==> t < |s.tables|)
    && s.abs == s.tables[s.current].contents
  }

  /** The counter of the current table, with what threads still owe it, is exact. */
  ghost predicate CountOk<K, V>(s: State<K, V>)
    requires TablesOk(s)
  {
    s.tables[s.current].counter + TotalOwed(s.threads, s.current) == |s.tables[s.current].contents|
  }

  ghost predicate Inv<K(!new), V>(s: State<K, V>) {
    && Globals(s)
    && (forall p :: 0 <= p < |s.threads| ==> ThreadOk(s, p, s.threads[p]))
    && (forall p, q :: 0 <= p < |s.threads| && 0 <= q < |s.threads| && p != q ==> PairOk(s, s.threads[p], s.threads[q]))
    && (forall p :: 0 <= p < |s.threads| && HasCopy(s.threads[p]) ==> CopyOk(s, s.threads[p]))
    && CountOk(s)
  }

  // ------------------------------------------------------------- one step keeps the invariant

  /** A step of p, seen together with a thread q. */
  ghost predicate StepBy<K(!new), V>(s: State<K, V>, p: nat, a: Action<K, V>, q: nat) {
    && Enabled(s, p, a) && Globals(s) && ThreadOk(s, p, s.threads[p])
    && q < |s.threads| && ThreadOk(s, q, s.threads[q])
    && (p != q ==> PairOk(s, s.threads[p], s.threads[q]) && PairOk(s, s.threads[q], s.threads[p]))
  }

  /** What a write changes. */
  ghost predicate Wrote<K, V>(s: State<K, V>, s': State<K, V>, p: nat, value: Option<V>) {
    && TablesOk(s) && p < |s.threads| && s.threads[p].Checked? && s.threads[p].t < |s.tables|
    && var th := s.threads[p];
       var table := s.tables[th.t];
       && s'.tables == s.tables[th.t := table.(contents := Put(table.contents, th.key, value))]
       && s'.threads == s.threads[p := Written(th.t, th.key, Delta(table.contents, th.key, value))]
       && s'.abs == (if th.t == s.current then Put(s.abs, th.key, value) else s.abs)
       && s'.current == s.current && s'.resizing == s.resizing && s'.locks == s.locks
       && s'.index == s.index && s'.overtaken == s.overtaken
  }

  lemma StepWrote<K, V>(s: State<K, V>, p: nat, a: Action<K, V>)
    requires a.Write? && Enabled(s, p, a)
    ensures Wrote(s, Step(s, p, a), p, a.value)
  {}

  lemma WriteGlobals<K(!new), V>(s: State<K, V>, s': State<K, V>, p: nat, value: Option<V>)
    requires Wrote(s, s', p, value) && Globals(s) && ThreadOk(s, p, s.threads[p])
    ensures Globals(s')
  {}

  /** At the moment of publication the new table holds exactly what the old one does, and
      its counter is exact; a Clear publishes an empty table. */
  lemma PublishIsExact<K(!new), V>(s: State<K, V>, p: nat)
    requires Globals(s) && Enabled(s, p, Publish) && ThreadOk(s, p, s.threads[p]) && CopyOk(s, s.threads[p])
    ensures var th := s.threads[p];
      && th.src == s.current
      && s.tables[th.dst].contents == (if th.cleared then map[] else s.tables[th.src].contents)
      && s.tables[th.dst].counter == |s.tables[th.dst].contents|
  {}

  lemma PublishGlobals<K(!new), V>(s: State<K, V>, p: nat, a: Action<K, V>)
    requires a.Publish? && StepBy(s, p, a, p) && CopyOk(s, s.threads[p])
    ensures Globals(Step(s, p, a))
  {
    PublishIsExact(s, p);
  }

  lemma OtherGlobals<K(!new), V>(s: State<K, V>, p: nat, a: Action<K, V>)
    requires !a.Write? && !a.Publish? && StepBy(s, p, a, p)
    ensures Globals(Step(s, p, a))
  {}

  lemma EnterSelf<K(!new), V>(s: State<K, V>, p: nat, a: Action<K, V>)
    requires (a.LoadTable? || a.LockBucket?) && StepBy(s, p, a, p) && Globals(Step(s, p, a))
    ensures ThreadOk(Step(s, p, a), p, Step(s, p, a).threads[p])
  {}

  lemma EnterOther<K(!new), V>(s: State<K, V>, p: nat, a: Action<K, V>, q: nat)
    requires (a.LoadTable? || a.LockBucket?) && StepBy(s, p, a, q) && p != q && Globals(Step(s, p, a))
    ensures ThreadOk(Step(s, p, a), q, s.threads[q])
  {}

  lemma EnterPair<K(!new), V>(s: State<K, V>, p: nat, a: Action<K, V>, q: nat)
    requires (a.LoadTable? || a.LockBucket?) && StepBy(s, p, a, q) && p != q && Globals(Step(s, p, a))
    ensures var s' := Step(s, p, a);
      PairOk(s', s'.threads[p], s.threads[q]) && PairOk(s', s.threads[q], s'.threads[p])
  {}

  lemma CheckSelf<K(!new), V>(s: State<K, V>, p: nat, a: Action<K, V>)
    requires (a.CheckFlag? || a.CheckTable?) && StepBy(s, p, a, p) && Globals(Step(s, p, a))
    ensures ThreadOk(Step(s, p, a), p, Step(s, p, a).threads[p])
  {}

  lemma CheckOther<K(!new), V>(s: State<K, V>, p: nat, a: Action<K, V>, q: nat)
    requires (a.CheckFlag? || a.CheckTable?) && StepBy(s, p, a, q) && p != q && Globals(Step(s, p, a))
    ensures ThreadOk(Step(s, p, a), q, s.threads[q])
  {}

  lemma CheckPair<K(!new), V>(s: State<K, V>, p: nat, a: Action<K, V>, q: nat)
    requires (a.CheckFlag? || a.CheckTable?) && StepBy(s, p, a, q) && p != q && Globals(Step(s, p, a))
    ensures var s' := Step(s, p, a);
      PairOk(s', s'.threads[p], s.threads[q]) && PairOk(s', s.threads[q], s'.threads[p])
  {}

  lemma WriteSelf<K(!new), V>(s: State<K, V>, s': State<K, V>, p: nat, value: Option<V>)
    requires Wrote(s, s', p, value) && TablesOk(s') && ThreadOk(s, p, s.threads[p])
    ensures ThreadOk(s', p, s'.threads[p])
  {}

  lemma WriteOther<K(!new), V>(s: State<K, V>, s': State<K, V>, p: nat, value: Option<V>, q: nat)
    requires Wrote(s, s', p, value) && TablesOk(s') && q < |s.threads| && ThreadOk(s, q, s.threads[q])
    ensures ThreadOk(s', q, s.threads[q])
  {}

  lemma WritePair<K(!new), V>(s: State<K, V>, s': State<K, V>, p: nat, value: Option<V>, q: nat)
    requires Wrote(s, s', p, value) && TablesOk(s')
    requires q < |s.threads| && ThreadOk(s, p, s.threads[p]) && ThreadOk(s, q, s.threads[q])
    requires PairOk(s, s.threads[p], s.threads[q]) && PairOk(s, s.threads[q], s.threads[p])
    ensures PairOk(s', s'.threads[p], s.threads[q]) && PairOk(s', s.threads[q], s'.threads[p])
  {
    BystandersKept(s, s', s.threads[p], s.threads[q]);
    BystandersKept(s, s', s.threads[q], s.threads[p]);
    WrittenPair(s', s.threads[p], s'.threads[p], s.threads[q]);
  }

  /** A writer that has written is bound by less than before. */
  lemma WrittenPair<K, V>(s: State<K, V>, w: Thread<K>, w': Thread<K>, th: Thread<K>)
    requires TablesOk(s) && w.Checked? && w'.Written? && w'.t == w.t
    requires PairOk(s, w, th) && PairOk(s, th, w)
    ensures PairOk(s, w', th) && PairOk(s, th, w')
  {}

  lemma LeaveSelf<K(!new), V>(s: State<K, V>, p: nat, a: Action<K, V>)
    requires (a.Cancel? || a.Retreat? || a.UnlockBucket? || a.AddSize?) && StepBy(s, p, a, p) && Globals(Step(s, p, a))
    ensures ThreadOk(Step(s, p, a), p, Step(s, p, a).threads[p])
  {}

  lemma LeaveOther<K(!new), V>(s: State<K, V>, p: nat, a: Action<K, V>, q: nat)
    requires (a.Cancel? || a.Retreat? || a.UnlockBucket? || a.AddSize?) && StepBy(s, p, a, q) && p != q && Globals(Step(s, p, a))
    ensures ThreadOk(Step(s, p, a), q, s.threads[q])
  {}

  lemma LeavePair<K(!new), V>(s: State<K, V>, p: nat, a: Action<K, V>, q: nat)
    requires (a.Cancel? || a.Retreat? || a.UnlockBucket? || a.AddSize?) && StepBy(s, p, a, q) && p != q && Globals(Step(s, p, a))
    ensures var s' := Step(s, p, a);
      PairOk(s', s'.threads[p], s.threads[q]) && PairOk(s', s.threads[q], s'.threads[p])
  {}

  lemma PrepareSelf<K(!new), V>(s: State<K, V>, p: nat, a: Action<K, V>)
    requires (a.StartResize? || a.GiveUp? || a.NewTable? || a.LockSource?) && StepBy(s, p, a, p) && Globals(Step(s, p, a))
    ensures ThreadOk(Step(s, p, a), p, Step(s, p, a).threads[p])
  {}

  lemma PrepareOther<K(!new), V>(s: State<K, V>, p: nat, a: Action<K, V>, q: nat)
    requires (a.StartResize? || a.GiveUp? || a.NewTable? || a.LockSource?) && StepBy(s, p, a, q) && p != q && Globals(Step(s, p, a))
    ensures ThreadOk(Step(s, p, a), q, s.threads[q])
  {}

  lemma PreparePair<K(!new), V>(s: State<K, V>, p: nat, a: Action<K, V>, q: nat)
    requires (a.StartResize? || a.GiveUp? || a.NewTable? || a.LockSource?) && StepBy(s, p, a, q) && p != q && Globals(Step(s, p, a))
    ensures var s' := Step(s, p, a);
      PairOk(s', s'.threads[p], s.threads[q]) && PairOk(s', s.threads[q], s'.threads[p])
  {}

  lemma CopyBucketSelf<K(!new), V>(s: State<K, V>, p: nat, a: Action<K, V>)
    requires (a.CopyBucket?) && StepBy(s, p, a, p) && Globals(Step(s, p, a))
    ensures ThreadOk(Step(s, p, a), p, Step(s, p, a).threads[p])
  {}

  lemma CountSelf<K(!new), V>(s: State<K, V>, p: nat, a: Action<K, V>)
    requires (a.UnlockSource? || a.AddCopied?) && StepBy(s, p, a, p) && Globals(Step(s, p, a))
    ensures ThreadOk(Step(s, p, a), p, Step(s, p, a).threads[p])
  {}

  lemma CopyOther<K(!new), V>(s: State<K, V>, p: nat, a: Action<K, V>, q: nat)
    requires (a.CopyBucket? || a.UnlockSource? || a.AddCopied?) && StepBy(s, p, a, q) && p != q && Globals(Step(s, p, a))
    ensures ThreadOk(Step(s, p, a), q, s.threads[q])
  {}

  lemma CopyPair<K(!new), V>(s: State<K, V>, p: nat, a: Action<K, V>, q: nat)
    requires (a.CopyBucket? || a.UnlockSource? || a.AddCopied?) && StepBy(s, p, a, q) && p != q && Globals(Step(s, p, a))
    ensures var s' := Step(s, p, a);
      PairOk(s', s'.threads[p], s.threads[q]) && PairOk(s', s.threads[q], s'.threads[p])
  {}

  lemma FinishSelf<K(!new), V>(s: State<K, V>, p: nat, a: Action<K, V>)
    requires (a.CopyDone? || a.Publish? || a.LowerFlag?) && StepBy(s, p, a, p) && Globals(Step(s, p, a))
    ensures ThreadOk(Step(s, p, a), p, Step(s, p, a).threads[p])
  {
    assert LockOf(Step(s, p, a), Step(s, p, a).threads[p]) == None;
  }

  lemma FinishOther<K(!new), V>(s: State<K, V>, p: nat, a: Action<K, V>, q: nat)
    requires (a.CopyDone? || a.Publish? || a.LowerFlag?) && StepBy(s, p, a, q) && p != q && Globals(Step(s, p, a))
    ensures ThreadOk(Step(s, p, a), q, s.threads[q])
  {}

  lemma FinishPair<K(!new), V>(s: State<K, V>, p: nat, a: Action<K, V>, q: nat)
    requires (a.CopyDone? || a.Publish? || a.LowerFlag?) && StepBy(s, p, a, q) && p != q && Globals(Step(s, p, a))
    ensures var s' := Step(s, p, a);
      PairOk(s', s'.threads[p], s.threads[q]) && PairOk(s', s.threads[q], s'.threads[p])
  {}

  function CopyProgress<K, V>(s: State<K, V>, th: Thread<K>): nat
    requires HasCopy(th) && th.src < |s.tables|
  {
    if IsCopier(th) then DoneBuckets(s, th) else 0
  }

  /** A private copy stays right when its own two tables do not change. */
  lemma CopyFrame<K(!new), V>(s: State<K, V>, s': State<K, V>, th: Thread<K>, th': Thread<K>)
    requires TablesOk(s) && TablesOk(s') && s'.index == s.index
    requires HasCopy(th) && HasCopy(th') && th'.src == th.src && th'.dst == th.dst
    requires th.src < |s.tables| && th.dst < |s.tables| && th.src < |s'.tables| && th.dst < |s'.tables|
    requires s'.tables[th.src] == s.tables[th.src].(counter := s'.tables[th.src].counter)
    requires s'.tables[th.dst] == s.tables[th.dst]
    requires CopyProgress(s', th') == CopyProgress(s, th) && Uncounted(th') == Uncounted(th)
    requires CopyOk(s, th)
    ensures CopyOk(s', th')
  {}

  /** A write to a source bucket that is still to be copied does not disturb the copy. */
  lemma SourceWrite<K(!new), V>(s: State<K, V>, s': State<K, V>, th: Thread<K>, key: K, value: Option<V>)
    requires TablesOk(s) && TablesOk(s') && s'.index == s.index && HasCopy(th)
    requires th.src < |s.tables| && th.dst < |s.tables| && th.src < |s'.tables| && th.dst < |s'.tables|
    requires s'.tables[th.src] == s.tables[th.src].(contents := Put(s.tables[th.src].contents, key, value))
    requires s'.tables[th.dst] == s.tables[th.dst]
    requires Index(s, th.src, key) >= CopyProgress(s, th)
    requires CopyOk(s, th)
    ensures CopyOk(s', th)
  {}

  lemma WriteCopies<K(!new), V>(s: State<K, V>, s': State<K, V>, p: nat, value: Option<V>, q: nat)
    requires Wrote(s, s', p, value) && TablesOk(s') && p != q
    requires q < |s.threads| && ThreadOk(s, q, s.threads[q]) && PairOk(s, s.threads[p], s.threads[q])
    requires HasCopy(s.threads[q]) && CopyOk(s, s.threads[q])
    ensures CopyOk(s', s.threads[q])
  {
    WriteBesideCopy(s, s', s.threads[p], s.threads[q], value);
  }

  lemma WriteBesideCopy<K(!new), V>(s: State<K, V>, s': State<K, V>, w: Thread<K>, th: Thread<K>, value: Option<V>)
    requires TablesOk(s) && TablesOk(s') && s'.index == s.index
    requires w.Checked? && w.t < |s.tables|
    requires s'.tables == s.tables[w.t := s.tables[w.t].(contents := Put(s.tables[w.t].contents, w.key, value))]
    requires HasCopy(th) && th.src < |s.tables| && th.dst < |s.tables| && PairOk(s, w, th) && CopyOk(s, th)
    ensures CopyOk(s', th)
  {
    if w.t == th.src {
      SourceWrite(s, s', th, w.key, value);
    } else {
      CopyFrame(s, s', th, th);
    }
  }

  lemma CopyBucketCopies<K(!new), V>(s: State<K, V>, p: nat, a: Action<K, V>)
    requires a.CopyBucket? && StepBy(s, p, a, p) && CopyOk(s, s.threads[p])
    requires var s' := Step(s, p, a); Globals(s') && ThreadOk(s', p, s'.threads[p])
    ensures CopyOk(Step(s, p, a), Step(s, p, a).threads[p])
  {}

  lemma NewTableCopies<K(!new), V>(s: State<K, V>, p: nat, a: Action<K, V>)
    requires a.NewTable? && StepBy(s, p, a, p)
    requires var s' := Step(s, p, a); Globals(s') && ThreadOk(s', p, s'.threads[p])
    ensures CopyOk(Step(s, p, a), Step(s, p, a).threads[p])
  {}

  lemma AddCopiedCopies<K(!new), V>(s: State<K, V>, p: nat, a: Action<K, V>)
    requires a.AddCopied? && StepBy(s, p, a, p) && CopyOk(s, s.threads[p])
    requires var s' := Step(s, p, a); Globals(s') && ThreadOk(s', p, s'.threads[p])
    ensures CopyOk(Step(s, p, a), Step(s, p, a).threads[p])
  {}

  /** No step of another thread but a write touches the two tables of a copy in progress. */
  lemma OtherTables<K(!new), V>(s: State<K, V>, p: nat, a: Action<K, V>, q: nat)
    requires !a.Write? && StepBy(s, p, a, q) && p != q && HasCopy(s.threads[q])
    ensures var s', th := Step(s, p, a), s.threads[q];
      && s'.index == s.index && th.src < |s.tables| <= |s'.tables|
      && s'.tables[th.src] == s.tables[th.src].(counter := s'.tables[th.src].counter)
      && s'.tables[th.dst] == s.tables[th.dst]
  {
    if !ByWriter(a) {
      assert false;
    }
  }

  lemma AdvanceIs<K, V>(s: State<K, V>, p: nat, a: Action<K, V>)
    requires Enabled(s, p, a) && HasCopy(Step(s, p, a).threads[p])
    requires !a.CopyBucket? && !a.NewTable? && !a.AddCopied?
    ensures (a.LockSource? || a.UnlockSource? || a.CopyDone?) && HasCopy(s.threads[p])
  {}

  lemma AdvanceCopies<K(!new), V>(s: State<K, V>, p: nat, a: Action<K, V>)
    requires (a.LockSource? || a.UnlockSource? || a.CopyDone?) && StepBy(s, p, a, p)
    requires HasCopy(s.threads[p]) && CopyOk(s, s.threads[p])
    requires Globals(Step(s, p, a)) && ThreadOk(Step(s, p, a), p, Step(s, p, a).threads[p])
    ensures CopyOk(Step(s, p, a), Step(s, p, a).threads[p])
  {
    AdvancedThread(s, p, a);
    CopyFrame(s, Step(s, p, a), s.threads[p], Step(s, p, a).threads[p]);
  }

  lemma AdvancedThread<K, V>(s: State<K, V>, p: nat, a: Action<K, V>)
    requires (a.LockSource? || a.UnlockSource? || a.CopyDone?) && Enabled(s, p, a)
    requires HasCopy(s.threads[p]) && s.threads[p].src < |s.tables|
    ensures var s' := Step(s, p, a);
      && s'.tables == s.tables && s'.index == s.index && p < |s'.threads| && HasCopy(s'.threads[p])
      && s'.threads[p].src == s.threads[p].src && s'.threads[p].dst == s.threads[p].dst
      && CopyProgress(s', s'.threads[p]) == CopyProgress(s, s.threads[p])
      && Uncounted(s'.threads[p]) == Uncounted(s.threads[p])
  {}

  // ------------------------------------------------------------- the pieces put together

  lemma GlobalsKept<K(!new), V>(s: State<K, V>, p: nat, a: Action<K, V>)
    requires StepBy(s, p, a, p) && (HasCopy(s.threads[p]) ==> CopyOk(s, s.threads[p]))
    ensures Globals(Step(s, p, a))
  {
    if a.Write? {
      StepWrote(s, p, a);
      WriteGlobals(s, Step(s, p, a), p, a.value);
    } else if a.Publish? {
      PublishGlobals(s, p, a);
    } else {
      OtherGlobals(s, p, a);
    }
  }

  lemma SelfKept<K(!new), V>(s: State<K, V>, p: nat, a: Action<K, V>)
    requires StepBy(s, p, a, p) && Globals(Step(s, p, a))
    ensures ThreadOk(Step(s, p, a), p, Step(s, p, a).threads[p])
  {
    if a.LoadTable? || a.LockBucket? {
      EnterSelf(s, p, a);
    } else if a.CheckFlag? || a.CheckTable? {
      CheckSelf(s, p, a);
    } else if a.Write? {
      StepWrote(s, p, a);
      WriteSelf(s, Step(s, p, a), p, a.value);
    } else if a.Cancel? || a.Retreat? || a.UnlockBucket? || a.AddSize? {
      LeaveSelf(s, p, a);
    } else if a.StartResize? || a.GiveUp? || a.NewTable? || a.LockSource? {
      PrepareSelf(s, p, a);
    } else if a.CopyBucket? {
      CopyBucketSelf(s, p, a);
    } else if a.UnlockSource? || a.AddCopied? {
      CountSelf(s, p, a);
    } else {
      FinishSelf(s, p, a);
    }
  }

  lemma OthersKept<K(!new), V>(s: State<K, V>, p: nat, a: Action<K, V>, q: nat)
    requires StepBy(s, p, a, q) && p != q && Globals(Step(s, p, a))
    ensures ThreadOk(Step(s, p, a), q, s.threads[q])
    ensures var s' := Step(s, p, a);
      PairOk(s', s'.threads[p], s.threads[q]) && PairOk(s', s.threads[q], s'.threads[p])
  {
    if a.LoadTable? || a.LockBucket? {
      EnterOther(s, p, a, q);
      EnterPair(s, p, a, q);
    } else if a.CheckFlag? || a.CheckTable? {
      CheckOther(s, p, a, q);
      CheckPair(s, p, a, q);
    } else if a.Write? {
      StepWrote(s, p, a);
      WriteOther(s, Step(s, p, a), p, a.value, q);
      WritePair(s, Step(s, p, a), p, a.value, q);
    } else if a.Cancel? || a.Retreat? || a.UnlockBucket? || a.AddSize? {
      LeaveOther(s, p, a, q);
      LeavePair(s, p, a, q);
    } else if a.StartResize? || a.GiveUp? || a.NewTable? || a.LockSource? {
      PrepareOther(s, p, a, q);
      PreparePair(s, p, a, q);
    } else if a.CopyBucket? || a.UnlockSource? || a.AddCopied? {
      CopyOther(s, p, a, q);
      CopyPair(s, p, a, q);
    } else {
      FinishOther(s, p, a, q);
      FinishPair(s, p, a, q);
    }
  }

  lemma CopyOfOther<K(!new), V>(s: State<K, V>, p: nat, a: Action<K, V>, q: nat)
    requires StepBy(s, p, a, q) && p != q && HasCopy(s.threads[q]) && CopyOk(s, s.threads[q])
    requires Globals(Step(s, p, a))
    ensures CopyOk(Step(s, p, a), s.threads[q])
  {
    if a.Write? {
      StepWrote(s, p, a);
      WriteCopies(s, Step(s, p, a), p, a.value, q);
    } else {
      OtherTables(s, p, a, q);
      CopyFrame(s, Step(s, p, a), s.threads[q], s.threads[q]);
    }
  }

  lemma CopyOfSelf<K(!new), V>(s: State<K, V>, p: nat, a: Action<K, V>)
    requires StepBy(s, p, a, p) && (HasCopy(s.threads[p]) ==> CopyOk(s, s.threads[p]))
    requires var s' := Step(s, p, a); Globals(s') && ThreadOk(s', p, s'.threads[p]) && HasCopy(s'.threads[p])
    ensures CopyOk(Step(s, p, a), Step(s, p, a).threads[p])
  {
    if a.CopyBucket? {
      CopyBucketCopies(s, p, a);
    } else if a.NewTable? {
      NewTableCopies(s, p, a);
    } else if a.AddCopied? {
      AddCopiedCopies(s, p, a);
    } else {
      AdvanceIs(s, p, a);
      AdvanceCopies(s, p, a);
    }
  }

  lemma CopiesKept<K(!new), V>(s: State<K, V>, p: nat, a: Action<K, V>, q: nat)
    requires StepBy(s, p, a, q) && (HasCopy(s.threads[q]) ==> CopyOk(s, s.threads[q]))
    requires var s' := Step(s, p, a); Globals(s') && ThreadOk(s', q, s'.threads[q]) && HasCopy(s'.threads[q])
    ensures CopyOk(Step(s, p, a), Step(s, p, a).threads[q])
  {
    if p == q {
      CopyOfSelf(s, p, a);
    } else {
      StepShape(s, p, a);
      CopyOfOther(s, p, a, q);
    }
  }

  /** What every step leaves alone. */
  ghost predicate SameShape<K, V>(s: State<K, V>, s': State<K, V>, p: nat) {
    && |s'.tables| >= |s.tables| && s'.index == s.index && |s'.threads| == |s.threads|
    && (forall t :: 0 <= t < |s.tables| ==> s'.tables[t].len == s.tables[t].len)
    && (forall q :: 0 <= q < |s.threads| && q != p ==> s'.threads[q] == s.threads[q])
  }

  lemma WriterShape<K, V>(s: State<K, V>, p: nat, a: Action<K, V>)
    requires Enabled(s, p, a) && ByWriter(a)
    ensures SameShape(s, WriterStep(s, p, a), p)
  {}

  lemma ResizerShape<K, V>(s: State<K, V>, p: nat, a: Action<K, V>)
    requires Enabled(s, p, a) && !ByWriter(a)
    ensures SameShape(s, ResizerStep(s, p, a), p)
  {}

  lemma StepShape<K, V>(s: State<K, V>, p: nat, a: Action<K, V>)
    requires Enabled(s, p, a)
    ensures SameShape(s, Step(s, p, a), p)
  {
    if ByWriter(a) {
      WriterShape(s, p, a);
    } else {
      ResizerShape(s, p, a);
    }
  }

  /** A step does not disturb what holds between two threads that do not move. */
  lemma BystandersKept<K(!new), V>(s: State<K, V>, s': State<K, V>, a: Thread<K>, b: Thread<K>)
    requires TablesOk(s) && TablesOk(s') && |s'.tables| >= |s.tables| && s'.index == s.index
    requires forall t :: 0 <= t < |s.tables| ==> s'.tables[t].len == s.tables[t].len
    requires PairOk(s, a, b) && (IsWriter(a) ==> a.t < |s.tables|) && (IsCopier(b) ==> b.src < |s.tables|)
    ensures PairOk(s', a, b)
  {}

  lemma {:induction false} TotalOwedUpdate<K>(threads: seq<Thread<K>>, p: nat, th: Thread<K>, t: nat)
    requires p < |threads|
    ensures TotalOwed(threads[p := th], t) == TotalOwed(threads, t) - Owed(threads[p], t) + Owed(th, t)
  {
    var n := |threads| - 1;
    if p == n {
      assert threads[p := th][..n] == threads[..n];
    } else {
      assert threads[p := th][..n] == threads[..n][p := th];
      TotalOwedUpdate(threads[..n], p, th, t);
    }
  }

  lemma {:induction false} NothingOwed<K>(threads: seq<Thread<K>>, t: nat)
    requires forall p :: 0 <= p < |threads| ==> Owed(threads[p], t) == 0
    ensures TotalOwed(threads, t) == 0
  {
    if threads != [] {
      NothingOwed(threads[..|threads| - 1], t);
    }
  }

  lemma CountKept<K(!new), V>(s: State<K, V>, p: nat, a: Action<K, V>)
    requires Inv(s) && Enabled(s, p, a) && Globals(Step(s, p, a))
    ensures CountOk(Step(s, p, a))
  {
    assert ThreadOk(s, p, s.threads[p]);
    if a.Publish? {
      PublishIsExact(s, p);
      NewTableOwed(s, p);
    } else {
      if ByWriter(a) {
        OwedByWriter(s, p, a);
      } else {
        OwedByResizer(s, p, a);
      }
      TotalOwedUpdate(s.threads, p, Step(s, p, a).threads[p], s.current);
    }
  }

  /** A step other than a publication moves the current counter, its size and what p owes
      it in step with each other. */
  lemma OwedByWriter<K(!new), V>(s: State<K, V>, p: nat, a: Action<K, V>)
    requires Enabled(s, p, a) && ByWriter(a) && Globals(s)
    ensures Balanced(s, WriterStep(s, p, a), p)
  {
    if a.Write? {
      OwedByWrite(s, p, a);
    } else if a.AddSize? {
      OwedByAddSize(s, p, a);
    } else {
      OwedByOther(s, p, a);
    }
  }

  lemma OwedByWrite<K(!new), V>(s: State<K, V>, p: nat, a: Action<K, V>)
    requires a.Write? && Enabled(s, p, a) && Globals(s)
    ensures Balanced(s, WriterStep(s, p, a), p)
  {
    StepWrote(s, p, a);
  }

  lemma OwedByAddSize<K(!new), V>(s: State<K, V>, p: nat, a: Action<K, V>)
    requires a.AddSize? && Enabled(s, p, a) && Globals(s)
    ensures Balanced(s, WriterStep(s, p, a), p)
  {}

  lemma OwedByOther<K(!new), V>(s: State<K, V>, p: nat, a: Action<K, V>)
    requires ByWriter(a) && !a.Write? && !a.AddSize? && Enabled(s, p, a) && Globals(s)
    ensures Balanced(s, WriterStep(s, p, a), p)
  {
    OtherOwesTheSame(s, p, a);
  }

  lemma OtherOwesTheSame<K, V>(s: State<K, V>, p: nat, a: Action<K, V>)
    requires ByWriter(a) && !a.Write? && !a.AddSize? && Enabled(s, p, a)
    ensures var s' := WriterStep(s, p, a);
      && s'.tables == s.tables && s'.current == s.current && p < |s.threads| == |s'.threads|
      && s'.threads == s.threads[p := s'.threads[p]]
      && Owed(s'.threads[p], s.current) == Owed(s.threads[p], s.current)
  {}

  lemma OwedByResizer<K(!new), V>(s: State<K, V>, p: nat, a: Action<K, V>)
    requires Globals(s) && Enabled(s, p, a) && !ByWriter(a) && !a.Publish? && ThreadOk(s, p, s.threads[p])
    ensures Balanced(s, ResizerStep(s, p, a), p)
  {
    ResizerTables(s, p, a);
    ResizerOwesNothing(s, p, a);
  }

  lemma ResizerTables<K(!new), V>(s: State<K, V>, p: nat, a: Action<K, V>)
    requires Globals(s) && Enabled(s, p, a) && !ByWriter(a) && !a.Publish? && ThreadOk(s, p, s.threads[p])
    ensures var s' := ResizerStep(s, p, a);
      s'.current == s.current && s.current < |s'.tables| && s'.tables[s.current] == s.tables[s.current]
  {}

  lemma ResizerOwesNothing<K, V>(s: State<K, V>, p: nat, a: Action<K, V>)
    requires Enabled(s, p, a) && !ByWriter(a)
    ensures var s' := ResizerStep(s, p, a);
      && |s'.threads| == |s.threads| && s'.threads == s.threads[p := s'.threads[p]]
      && Owed(s.threads[p], s.current) == 0 == Owed(s'.threads[p], s.current)
  {
    ResizerShape(s, p, a);
    NoWriterYet(s, p, a);
  }

  lemma NoWriterYet<K, V>(s: State<K, V>, p: nat, a: Action<K, V>)
    requires Enabled(s, p, a) && !ByWriter(a)
    ensures p < |ResizerStep(s, p, a).threads| && !IsWriter(s.threads[p]) && !IsWriter(ResizerStep(s, p, a).threads[p])
  {
    ResizerBefore(s, p, a);
    ResizerAfter(s, p, a);
  }

  lemma ResizerBefore<K, V>(s: State<K, V>, p: nat, a: Action<K, V>)
    requires Enabled(s, p, a) && !ByWriter(a)
    ensures !IsWriter(s.threads[p])
  {}

  lemma ResizerAfter<K, V>(s: State<K, V>, p: nat, a: Action<K, V>)
    requires Enabled(s, p, a) && !ByWriter(a)
    ensures p < |ResizerStep(s, p, a).threads| && !IsWriter(ResizerStep(s, p, a).threads[p])
  {}

  ghost predicate Balanced<K, V>(s: State<K, V>, s': State<K, V>, p: nat)
    requires TablesOk(s) && p < |s.threads|
  {
    && |s'.threads| == |s.threads| && s'.threads == s.threads[p := s'.threads[p]]
    && s'.current == s.current && s.current < |s'.tables|
    && (s'.tables[s.current].counter + Owed(s'.threads[p], s.current)) - |s'.tables[s.current].contents|
       == (s.tables[s.current].counter + Owed(s.threads[p], s.current)) - |s.tables[s.current].contents|
  }

  /** No thread owes anything to a table that is about to be published. */
  lemma NewTableOwed<K(!new), V>(s: State<K, V>, p: nat)
    requires Inv(s) && Enabled(s, p, Publish)
    ensures TotalOwed(s.threads[p := Published], s.threads[p].dst) == 0
  {
    forall q | 0 <= q < |s.threads| && q != p
      ensures Owed(s.threads[q], s.threads[p].dst) == 0
    {
      assert PairOk(s, s.threads[q], s.threads[p]);
    }
    NothingOwed(s.threads[p := Published], s.threads[p].dst);
  }

  lemma ThreadsKept<K(!new), V>(s: State<K, V>, p: nat, a: Action<K, V>, q: nat)
    requires Inv(s) && Enabled(s, p, a) && q < |s.threads| && Globals(Step(s, p, a))
    ensures |Step(s, p, a).threads| == |s.threads|
    ensures var s' := Step(s, p, a);
      && ThreadOk(s', q, s'.threads[q])
      && (q != p ==> PairOk(s', s'.threads[p], s'.threads[q]) && PairOk(s', s'.threads[q], s'.threads[p]))
      && (HasCopy(s'.threads[q]) ==> CopyOk(s', s'.threads[q]))
  {
    StepShape(s, p, a);
    InvAt(s, p, a, q);
    if q == p {
      SelfKept(s, p, a);
    } else {
      OthersKept(s, p, a, q);
    }
    if HasCopy(Step(s, p, a).threads[q]) {
      CopiesKept(s, p, a, q);
    }
  }

  lemma InvAt<K(!new), V>(s: State<K, V>, p: nat, a: Action<K, V>, q: nat)
    requires Inv(s) && Enabled(s, p, a) && q < |s.threads|
    ensures StepBy(s, p, a, q) && (HasCopy(s.threads[q]) ==> CopyOk(s, s.threads[q]))
  {
  }

  lemma PairsKept<K(!new), V>(s: State<K, V>, p: nat, a: Action<K, V>, q: nat, r: nat)
    requires Inv(s) && Enabled(s, p, a) && q < |s.threads| && r < |s.threads| && q != r && Globals(Step(s, p, a))
    ensures |Step(s, p, a).threads| == |s.threads|
    ensures PairOk(Step(s, p, a), Step(s, p, a).threads[q], Step(s, p, a).threads[r])
  {
    StepShape(s, p, a);
    if q == p {
      ThreadsKept(s, p, a, r);
    } else if r == p {
      ThreadsKept(s, p, a, q);
    } else {
      assert ThreadOk(s, q, s.threads[q]) && ThreadOk(s, r, s.threads[r]);
      assert PairOk(s, s.threads[q], s.threads[r]);
      BystandersKept(s, Step(s, p, a), s.threads[q], s.threads[r]);
    }
  }

  /** Every step of every thread keeps the invariant. */
  lemma StepKeepsInv<K(!new), V>(s: State<K, V>, p: nat, a: Action<K, V>)
    requires Inv(s) && Enabled(s, p, a)
    ensures Inv(Step(s, p, a))
  {
    InvAt(s, p, a, p);
    GlobalsKept(s, p, a);
    StepShape(s, p, a);
    forall q: nat | q < |s.threads|
      ensures ThreadOk(Step(s, p, a), q, Step(s, p, a).threads[q])
      ensures HasCopy(Step(s, p, a).threads[q]) ==> CopyOk(Step(s, p, a), Step(s, p, a).threads[q])
    {
      ThreadsKept(s, p, a, q);
    }
    forall q: nat, r: nat | q < |s.threads| && r < |s.threads| && q != r
      ensures PairOk(Step(s, p, a), Step(s, p, a).threads[q], Step(s, p, a).threads[r])
    {
      PairsKept(s, p, a, q, r);
    }
    CountKept(s, p, a);
  }

  // ------------------------------------------------------------- runs

  type Run<K, V> = seq<(nat, Action<K, V>)>

  predicate Runs<K, V>(s: State<K, V>, run: Run<K, V>)
    decreases |run|
  {
    run == [] || (Enabled(s, run[0].0, run[0].1) && Runs(Step(s, run[0].0, run[0].1), run[1..]))
  }

  function After<K, V>(s: State<K, V>, run: Run<K, V>): State<K, V>
    requires Runs(s, run)
    decreases |run|
  {
    if run == [] then s else After(Step(s, run[0].0, run[0].1), run[1..])
  }

  lemma InitInv<K(!new), V>(s: State<K, V>)
    requires Init(s)
    ensures Inv(s)
  {
    NothingOwed(s.threads, 0);
  }

  /** The invariant holds in every state every interleaving can reach. */
  lemma {:induction false} ReachableInv<K(!new), V>(s: State<K, V>, run: Run<K, V>)
    requires Inv(s) && Runs(s, run)
    ensures Inv(After(s, run))
    decreases |run|
  {
    if run != [] {
      StepKeepsInv(s, run[0].0, run[0].1);
      ReachableInv(Step(s, run[0].0, run[0].1), run[1..]);
    }
  }

  /** A write not overtaken by a Clear lands in the current table, in a bucket no resizer
      has copied. */
  lemma WriteIsNotLost<K(!new), V>(s: State<K, V>, p: nat, value: Option<V>, r: nat)
    requires Inv(s) && Enabled(s, p, Write(value)) && s.threads[p].t !in s.overtaken
    requires r < |s.threads| && IsCopier(s.threads[r])
    ensures s.threads[p].t == s.current == s.threads[r].src
    ensures Index(s, s.current, s.threads[p].key) >= DoneBuckets(s, s.threads[r])
  {
  }

  /** A table that a grow or a shrink replaced never changes its entries again. */
  lemma RetiredIsFrozen<K(!new), V>(s: State<K, V>, p: nat, a: Action<K, V>, t: nat)
    requires Inv(s) && Enabled(s, p, a)
    requires t < |s.tables| && t != s.current && t !in s.overtaken
    requires forall r :: 0 <= r < |s.threads| && HasCopy(s.threads[r]) ==> s.threads[r].dst != t
    ensures t < |Step(s, p, a).tables| && Step(s, p, a).tables[t].contents == s.tables[t].contents
  {
    OnlyWritesChange(s, p, a, t);
    assert ThreadOk(s, p, s.threads[p]);
  }

  lemma OnlyWritesChange<K(!new), V>(s: State<K, V>, p: nat, a: Action<K, V>, t: nat)
    requires Enabled(s, p, a) && t < |s.tables|
    requires a.Write? ==> s.threads[p].t != t
    requires a.CopyBucket? ==> s.threads[p].dst != t
    ensures t < |Step(s, p, a).tables| && Step(s, p, a).tables[t].contents == s.tables[t].contents
  {
    if ByWriter(a) {
      assert t < |WriterStep(s, p, a).tables| && WriterStep(s, p, a).tables[t].contents == s.tables[t].contents;
    } else {
      assert t < |ResizerStep(s, p, a).tables| && ResizerStep(s, p, a).tables[t].contents == s.tables[t].contents;
    }
  }

  /** When no thread owes the counter anything, it is the number of entries. */
  lemma QuiescentCount<K(!new), V>(s: State<K, V>)
    requires Inv(s) && forall p :: 0 <= p < |s.threads| ==> Owed(s.threads[p], s.current) == 0
    ensures s.tables[s.current].counter == |s.abs|
  {
    NothingOwed(s.threads, s.current);
  }

  predicate NoClear<K, V>(run: Run<K, V>) {
    forall i :: 0 <= i < |run| ==> run[i].1 != StartResize(Clear)
  }

  predicate ForClear<K>(th: Thread<K>) {
    (th.Started? && th.hint.Clear?) || (th.Ready? && th.cleared)
  }

  ghost predicate Unclear<K, V>(s: State<K, V>) {
    && s.overtaken == {}
    && forall p :: 0 <= p < |s.threads| ==> !ForClear(s.threads[p])
  }

  /** The writes of a run, applied one after another to a plain map. */
  function WritesOf<K, V>(s: State<K, V>, run: Run<K, V>, m: map<K, V>): map<K, V>
    requires Runs(s, run)
    decreases |run|
  {
    if run == [] then m
    else
      var (p, a) := run[0];
      WritesOf(Step(s, p, a), run[1..], if a.Write? then Put(m, s.threads[p].key, a.value) else m)
  }

  /** What a step does to the map: a write to the current table counts, and a Clear empties
      the map when it publishes its table. */
  function EffectOf<K, V>(s: State<K, V>, p: nat, a: Action<K, V>, m: map<K, V>): map<K, V>
    requires Enabled(s, p, a)
  {
    var th := s.threads[p];
    if a.Write? && th.t == s.current then Put(m, th.key, a.value)
    else if a.Publish? && th.cleared then map[]
    else m
  }

  function Effects<K, V>(s: State<K, V>, run: Run<K, V>, m: map<K, V>): map<K, V>
    requires Runs(s, run)
    decreases |run|
  {
    if run == [] then m else Effects(Step(s, run[0].0, run[0].1), run[1..], EffectOf(s, run[0].0, run[0].1, m))
  }

  lemma AbsEffect<K, V>(s: State<K, V>, p: nat, a: Action<K, V>)
    requires Enabled(s, p, a)
    ensures Step(s, p, a).abs == EffectOf(s, p, a, s.abs)
  {
    if ByWriter(a) {
      assert WriterStep(s, p, a).abs == EffectOf(s, p, a, s.abs);
    } else {
      assert ResizerStep(s, p, a).abs == EffectOf(s, p, a, s.abs);
    }
  }

  /** Over every run, across any number of grows, shrinks and Clears, the current table holds
      exactly the effects of the run in their order: none is lost and none is repeated. */
  lemma {:induction false} NoUpdateLost<K(!new), V>(s: State<K, V>, run: Run<K, V>)
    requires Inv(s) && Runs(s, run)
    ensures var end := After(s, run);
      end.current < |end.tables| && end.tables[end.current].contents == Effects(s, run, s.abs)
    decreases |run|
  {
    if run != [] {
      StepKeepsInv(s, run[0].0, run[0].1);
      AbsEffect(s, run[0].0, run[0].1);
      NoUpdateLost(Step(s, run[0].0, run[0].1), run[1..]);
    }
  }

  /** Without a Clear the effects are all the writes. */
  lemma {:induction false} EveryWriteCounts<K(!new), V>(s: State<K, V>, run: Run<K, V>, m: map<K, V>)
    requires Inv(s) && Unclear(s) && Runs(s, run) && NoClear(run)
    ensures Effects(s, run, m) == WritesOf(s, run, m)
    decreases |run|
  {
    if run != [] {
      var (p, a) := run[0];
      StepKeepsInv(s, p, a);
      UnclearKept(s, p, a);
      PlainEffect(s, p, a, m);
      assert NoClear(run[1..]);
      EveryWriteCounts(Step(s, p, a), run[1..], EffectOf(s, p, a, m));
    }
  }

  lemma PlainEffect<K(!new), V>(s: State<K, V>, p: nat, a: Action<K, V>, m: map<K, V>)
    requires Inv(s) && Unclear(s) && Enabled(s, p, a)
    ensures EffectOf(s, p, a, m) == if a.Write? then Put(m, s.threads[p].key, a.value) else m
  {
    assert ThreadOk(s, p, s.threads[p]);
  }

  lemma UnclearKept<K(!new), V>(s: State<K, V>, p: nat, a: Action<K, V>)
    requires Inv(s) && Unclear(s) && Enabled(s, p, a) && a != StartResize(Clear)
    ensures Unclear(Step(s, p, a))
  {
    assert ThreadOk(s, p, s.threads[p]);
    StepShape(s, p, a);
    UnclearStep(s, p, a);
  }

  lemma UnclearStep<K(!new), V>(s: State<K, V>, p: nat, a: Action<K, V>)
    requires Enabled(s, p, a) && a != StartResize(Clear) && s.overtaken == {} && !ForClear(s.threads[p])
    ensures var s' := Step(s, p, a);
      |s'.threads| == |s.threads| && !ForClear(s'.threads[p]) && s'.overtaken == {}
  {
    if ByWriter(a) {
      UnclearWriter(s, p, a);
    } else {
      UnclearResizer(s, p, a);
    }
  }

  lemma UnclearWriter<K, V>(s: State<K, V>, p: nat, a: Action<K, V>)
    requires Enabled(s, p, a) && ByWriter(a)
    ensures var s' := WriterStep(s, p, a);
      |s'.threads| == |s.threads| && !ForClear(s'.threads[p]) && s'.overtaken == s.overtaken
  {}

  lemma UnclearResizer<K, V>(s: State<K, V>, p: nat, a: Action<K, V>)
    requires Enabled(s, p, a) && !ByWriter(a) && a != StartResize(Clear) && !ForClear(s.threads[p])
    ensures var s' := ResizerStep(s, p, a);
      |s'.threads| == |s.threads| && !ForClear(s'.threads[p]) && s'.overtaken == s.overtaken
  {}
}
