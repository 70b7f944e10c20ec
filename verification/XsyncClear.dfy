/** What a Clear of `xsync.Map` does beside other calls: when it overtakes a write, and when it
    does nothing. */
module XsyncClear {
  import opened Options
  import opened XsyncResize

  /** A Clear publishes its table somewhere in the run. */
  predicate Cleared<K, V>(s: State<K, V>, run: Run<K, V>)
    requires Runs(s, run)
    decreases |run|
  {
    && run != []
    && ((run[0].1.Publish? && s.threads[run[0].0].cleared) || Cleared(Step(s, run[0].0, run[0].1), run[1..]))
  }

  predicate Rests<K, V>(run: Run<K, V>, p: nat) {
    forall i :: 0 <= i < |run| ==> run[i].0 != p
  }

  lemma OvertakenAfter<K(!new), V>(s: State<K, V>, q: nat, a: Action<K, V>, p: nat)
    requires Inv(s) && Enabled(s, q, a) && p < |s.threads| && p != q && s.threads[p].Checked?
    ensures var s' := Step(s, q, a);
      && p < |s'.threads| && s'.threads[p] == s.threads[p]
      && (s.threads[p].t in s'.overtaken <==> s.threads[p].t in s.overtaken || (a.Publish? && s.threads[q].cleared))
  {
    StepShape(s, q, a);
    assert ThreadOk(s, p, s.threads[p]) && ThreadOk(s, q, s.threads[q]);
    OvertakenBy(s, q, a);
  }

  /** Only the publication of a Clear overtakes writers: those of the table it replaces. */
  lemma OvertakenBy<K(!new), V>(s: State<K, V>, q: nat, a: Action<K, V>)
    requires Enabled(s, q, a)
    ensures Step(s, q, a).overtaken ==
            if a.Publish? && s.threads[q].cleared then s.overtaken + {s.threads[q].src} else s.overtaken
  {
    if ByWriter(a) {
      assert WriterStep(s, q, a).overtaken == s.overtaken;
    }
  }

  lemma {:induction false} OvertakenWhileChecked<K(!new), V>(s: State<K, V>, run: Run<K, V>, p: nat)
    requires Inv(s) && Runs(s, run) && Rests(run, p) && p < |s.threads| && s.threads[p].Checked?
    ensures var end := After(s, run);
      && p < |end.threads| && end.threads[p] == s.threads[p]
      && (s.threads[p].t in end.overtaken <==> s.threads[p].t in s.overtaken || Cleared(s, run))
    decreases |run|
  {
    if run != [] {
      var (q, a) := run[0];
      OvertakenAfter(s, q, a, p);
      StepKeepsInv(s, q, a);
      assert run[0].0 != p;
      OvertakenWhileChecked(Step(s, q, a), run[1..], p);
    }
  }

  /** A write that passed its check of the table pointer reaches the map if and only if no Clear
      published its table between the check and the write; the table checked is the current one
      then, and otherwise the write goes to the table cleared away. */
  lemma WriteReachesMap<K(!new), V>(s: State<K, V>, p: nat, run: Run<K, V>, value: Option<V>)
    requires Inv(s) && Enabled(s, p, CheckTable) && s.threads[p].t == s.current
    requires Runs(Step(s, p, CheckTable), run) && Rests(run, p)
    ensures var end := After(Step(s, p, CheckTable), run);
      && Enabled(end, p, Write(value))
      && (end.threads[p].t == end.current <==> !Cleared(Step(s, p, CheckTable), run))
      && Step(end, p, Write(value)).abs ==
         if Cleared(Step(s, p, CheckTable), run) then end.abs else Put(end.abs, s.threads[p].key, value)
  {
    var checked := Step(s, p, CheckTable);
    StepKeepsInv(s, p, CheckTable);
    assert checked.threads[p] == Checked(s.current, s.threads[p].key);
    OvertakenWhileChecked(checked, run, p);
    ReachableInv(checked, run);
    var end := After(checked, run);
    assert ThreadOk(end, p, end.threads[p]);
    AbsEffect(end, p, Write(value));
  }

  // ------------------------------------------------------------- a run in which a write is overtaken

  const ONE_BUCKET: (nat, int) -> nat := (_, _) => 0

  /** A map with one bucket and two threads, nothing stored yet. */
  function Empty(): State<int, int> {
    State([Table(map[], 1, 0)], 0, false, map[], [Idle, Idle], ONE_BUCKET, map[], {})
  }

  lemma {:induction false} Then<K, V>(s: State<K, V>, run: Run<K, V>, p: nat, a: Action<K, V>) returns (more: Run<K, V>)
    requires Runs(s, run) && Enabled(After(s, run), p, a)
    ensures more == run + [(p, a)] && Runs(s, more) && After(s, more) == Step(After(s, run), p, a)
    decreases |run|
  {
    more := run + [(p, a)];
    if run != [] {
      var rest := Then(Step(s, run[0].0, run[0].1), run[1..], p, a);
      assert more[1..] == rest;
    }
  }

  /** A map whose first table has one bucket, in the hands of two threads. */
  function With(contents: map<int, int>, counter: int, locked: bool, t0: Thread<int>, resizing: bool): State<int, int> {
    State([Table(contents, 1, counter)], 0, resizing, if locked then map[(0, 0) := 0] else map[],
          [t0, Idle], ONE_BUCKET, contents, {})
  }

  const CHECKS: Run<int, int> := [(0, LoadTable(7)), (0, LockBucket), (0, CheckFlag), (0, CheckTable)]

  lemma CheckSteps()
    ensures var s := With(map[], 0, false, Idle, false);
      Enabled(s, 0, LoadTable(7)) && Step(s, 0, LoadTable(7)) == With(map[], 0, false, Loaded(0, 7), false)
    ensures var s := With(map[], 0, false, Loaded(0, 7), false);
      Enabled(s, 0, LockBucket) && Step(s, 0, LockBucket) == With(map[], 0, true, Locked(0, 7), false)
    ensures var s := With(map[], 0, true, Locked(0, 7), false);
      Enabled(s, 0, CheckFlag) && Step(s, 0, CheckFlag) == With(map[], 0, true, FlagSeen(0, 7), false)
    ensures var s := With(map[], 0, true, FlagSeen(0, 7), false);
      Enabled(s, 0, CheckTable) && Step(s, 0, CheckTable) == With(map[], 0, true, Checked(0, 7), false)
  {
  }

  lemma AfterChecks()
    ensures Init(Empty()) && Runs(Empty(), CHECKS)
    ensures After(Empty(), CHECKS) == With(map[], 0, true, Checked(0, 7), false)
  {
    CheckSteps();
    var s := Empty();
    assert s == With(map[], 0, false, Idle, false);
    var run := Then(s, [], 0, LoadTable(7));
    run := Then(s, run, 0, LockBucket);
    run := Then(s, run, 0, CheckFlag);
    run := Then(s, run, 0, CheckTable);
  }

  const CLEARING: Run<int, int> := [(1, StartResize(Clear)), (1, NewTable(1)), (1, Publish)]

  /** Thread 1 has started to clear the map, and maybe made the new table. */
  function Clearing(ready: bool): State<int, int> {
    var tables := [Table(map[], 1, 0)];
    var t1 := if ready then Ready(0, 1, true) else Started(Clear);
    State(if ready then tables + tables else tables, 0, true, map[(0, 0) := 0], [Checked(0, 7), t1], ONE_BUCKET, map[], {})
  }

  /** The same map after thread 1 has cleared it, thread 0 being where it was. */
  function AfterClear(t0: Thread<int>, cleared: map<int, int>): State<int, int> {
    State([Table(cleared, 1, 0), Table(map[], 1, 0)], 1, true, map[(0, 0) := 0], [t0, Published], ONE_BUCKET, map[], {0})
  }

  lemma ClearStarts()
    ensures var s := With(map[], 0, true, Checked(0, 7), false);
      Enabled(s, 1, StartResize(Clear)) && Step(s, 1, StartResize(Clear)) == Clearing(false)
    ensures Enabled(Clearing(false), 1, NewTable(1)) && Step(Clearing(false), 1, NewTable(1)) == Clearing(true)
  {
  }

  lemma ClearEnds()
    ensures Enabled(Clearing(true), 1, Publish)
    ensures Step(Clearing(true), 1, Publish) == AfterClear(Checked(0, 7), map[])
  {
  }

  lemma LateWrite()
    ensures var s := AfterClear(Checked(0, 7), map[]);
      Enabled(s, 0, Write(Some(1))) && Step(s, 0, Write(Some(1))) == AfterClear(Written(0, 7, 1), map[7 := 1])
  {
  }

  lemma AfterClearing() returns (run: Run<int, int>)
    ensures run == CHECKS + CLEARING && Runs(Empty(), run)
    ensures After(Empty(), run) == AfterClear(Checked(0, 7), map[])
  {
    AfterChecks();
    ClearStarts();
    run := Then(Empty(), CHECKS, 1, StartResize(Clear));
    run := Then(Empty(), run, 1, NewTable(1));
    ClearEnds();
    run := Then(Empty(), run, 1, Publish);
  }

  /** Thread 0 passes both checks, thread 1 clears the map, and only then thread 0 writes: the
      write is the only one of the run, and the map does not have it. */
  lemma WriteIsOvertaken() returns (run: Run<int, int>)
    ensures run == CHECKS + CLEARING + [(0, Write(Some(1)))] && Init(Empty()) && Runs(Empty(), run)
    ensures After(Empty(), run) == AfterClear(Written(0, 7, 1), map[7 := 1])
  {
    run := AfterClearing();
    LateWrite();
    run := Then(Empty(), run, 0, Write(Some(1)));
  }

  // ------------------------------------------------------------- what a Clear does

  /** A call that clears: if another resize is under way it only waits for that one to end, and
      otherwise it starts its own. */
  function CallClear<K, V>(s: State<K, V>, p: nat): State<K, V>
    requires TablesOk(s) && p < |s.threads| && s.threads[p].Idle?
  {
    if s.resizing then s else Step(s, p, StartResize(Clear))
  }

  /** The steps that end a resize. */
  predicate Lowers<K, V>(a: Action<K, V>) {
    a.LowerFlag? || a.GiveUp?
  }

  /** The flag is lowered by the last step of the run, and by no other. */
  predicate EndsResize<K, V>(run: Run<K, V>) {
    run != [] && Lowers(run[|run| - 1].1) && forall i :: 0 <= i < |run| - 1 ==> !Lowers(run[i].1)
  }

  /** Some thread clears, and has not published its table yet. */
  ghost predicate ClearPending<K, V>(s: State<K, V>) {
    exists r :: 0 <= r < |s.threads| && ForClear(s.threads[r])
  }

  lemma OneResizer<K(!new), V>(s: State<K, V>, q: nat, r: nat)
    requires Inv(s) && q < |s.threads| && r < |s.threads| && IsResizer(s.threads[q]) && IsResizer(s.threads[r])
    ensures q == r
  {
    assert q != r ==> PairOk(s, s.threads[q], s.threads[r]);
  }

  /** While a resize goes on, only its own steps publish, and it clears before it publishes. */
  lemma ResizeGoesOn<K(!new), V>(s: State<K, V>, q: nat, a: Action<K, V>, r: nat)
    requires Inv(s) && Enabled(s, q, a) && !Lowers(a) && r < |s.threads| && IsResizer(s.threads[r])
    ensures var s' := Step(s, q, a);
      && r < |s'.threads| && IsResizer(s'.threads[r])
      && (ForClear(s.threads[r]) <==> (a.Publish? && s.threads[q].cleared) || ForClear(s'.threads[r]))
  {
    StepShape(s, q, a);
    assert ThreadOk(s, r, s.threads[r]);
    if q == r {
      OwnStep(s, q, a);
    } else if a.Publish? {
      OneResizer(s, q, r);
    }
  }

  lemma OwnStep<K, V>(s: State<K, V>, r: nat, a: Action<K, V>)
    requires Enabled(s, r, a) && !Lowers(a) && IsResizer(s.threads[r])
    ensures var s' := Step(s, r, a);
      && r < |s'.threads| && IsResizer(s'.threads[r])
      && (ForClear(s.threads[r]) <==> (a.Publish? && s.threads[r].cleared) || ForClear(s'.threads[r]))
  {
    assert !ByWriter(a);
  }

  /** Up to the end of a resize, the map is cleared exactly if that resize clears and has not
      published its table yet. */
  lemma {:induction false} ClearsIfPending<K(!new), V>(s: State<K, V>, run: Run<K, V>, r: nat)
    requires Inv(s) && Runs(s, run) && EndsResize(run) && r < |s.threads| && IsResizer(s.threads[r])
    ensures Cleared(s, run) <==> ForClear(s.threads[r])
    decreases |run|
  {
    var (q, a) := run[0];
    if Lowers(a) {
      LoweringThread(s, q, a);
      OneResizer(s, q, r);
      assert run[1..] == [];
    } else {
      ResizeGoesOn(s, q, a, r);
      StepKeepsInv(s, q, a);
      StillEnds(run);
      ClearsIfPending(Step(s, q, a), run[1..], r);
    }
  }

  lemma LoweringThread<K, V>(s: State<K, V>, q: nat, a: Action<K, V>)
    requires Enabled(s, q, a) && Lowers(a)
    ensures IsResizer(s.threads[q]) && !ForClear(s.threads[q])
  {
  }

  lemma StillEnds<K, V>(run: Run<K, V>)
    requires EndsResize(run) && !Lowers(run[0].1)
    ensures EndsResize(run[1..])
  {
  }

  /** A flag that no thread has raised stays up, and nothing is published. */
  lemma {:induction false} NobodyResizes<K(!new), V>(s: State<K, V>, run: Run<K, V>)
    requires Runs(s, run) && s.resizing && forall r :: 0 <= r < |s.threads| ==> !IsResizer(s.threads[r])
    ensures !Cleared(s, run)
    decreases |run|
  {
    if run != [] {
      var (q, a) := run[0];
      assert ByWriter(a);
      NoNewResizer(s, q, a);
      NobodyResizes(Step(s, q, a), run[1..]);
    }
  }

  lemma NoNewResizer<K(!new), V>(s: State<K, V>, q: nat, a: Action<K, V>)
    requires Enabled(s, q, a) && ByWriter(a) && s.resizing && forall r :: 0 <= r < |s.threads| ==> !IsResizer(s.threads[r])
    ensures var s' := Step(s, q, a);
      s'.resizing && forall r :: 0 <= r < |s'.threads| ==> !IsResizer(s'.threads[r])
  {
    StepShape(s, q, a);
    WriterStaysWriter(s, q, a);
  }

  lemma WriterStaysWriter<K, V>(s: State<K, V>, q: nat, a: Action<K, V>)
    requires Enabled(s, q, a) && ByWriter(a)
    ensures Step(s, q, a).resizing == s.resizing && q < |Step(s, q, a).threads| && !IsResizer(Step(s, q, a).threads[q])
  {
    WriterLeavesFlag(s, q, a);
    WriterThread(s, q, a);
  }

  lemma WriterLeavesFlag<K, V>(s: State<K, V>, q: nat, a: Action<K, V>)
    requires Enabled(s, q, a) && ByWriter(a)
    ensures WriterStep(s, q, a).resizing == s.resizing
  {
  }

  lemma WriterThread<K, V>(s: State<K, V>, q: nat, a: Action<K, V>)
    requires Enabled(s, q, a) && ByWriter(a)
    ensures q < |WriterStep(s, q, a).threads| && !IsResizer(WriterStep(s, q, a).threads[q])
  {
    var th := WriterStep(s, q, a).threads[q];
    assert th.Idle? || IsWriter(th);
  }

  /** From its look at the flag to the end of the resize it starts or meets, a Clear empties the map
      if and only if the flag is down, or the resize it meets is a Clear that has not published
      its table yet. */
  lemma ClearEmptiesExactly<K(!new), V>(s: State<K, V>, p: nat, run: Run<K, V>)
    requires Inv(s) && p < |s.threads| && s.threads[p].Idle?
    requires Runs(CallClear(s, p), run) && EndsResize(run)
    ensures Cleared(CallClear(s, p), run) <==> !s.resizing || ClearPending(s)
  {
    if !s.resizing {
      StepKeepsInv(s, p, StartResize(Clear));
      ClearsIfPending(CallClear(s, p), run, p);
    } else if r :| 0 <= r < |s.threads| && IsResizer(s.threads[r]) {
      ClearsIfPending(s, run, r);
      if q :| 0 <= q < |s.threads| && ForClear(s.threads[q]) {
        OneResizer(s, q, r);
      }
    } else {
      NobodyResizes(s, run);
    }
  }

  /** When the map is cleared, it is empty at that moment. */
  lemma {:induction false} ClearedIsEmpty<K(!new), V>(s: State<K, V>, run: Run<K, V>) returns (n: nat)
    requires Runs(s, run) && Cleared(s, run)
    ensures n <= |run| && Runs(s, run[..n]) && After(s, run[..n]).abs == map[]
    decreases |run|
  {
    var (q, a) := run[0];
    if a.Publish? && s.threads[q].cleared {
      n := 1;
      AbsEffect(s, q, a);
      assert run[..1] == [run[0]] && run[..1][1..] == [];
    } else {
      n := ClearedIsEmpty(Step(s, q, a), run[1..]);
      n := n + 1;
      assert run[..n][1..] == run[1..][..n - 1];
    }
  }

  /** No step of the run writes the key. */
  predicate Untouched<K(==), V>(s: State<K, V>, run: Run<K, V>, k: K)
    requires Runs(s, run)
    decreases |run|
  {
    run == []
    || (!(run[0].1.Write? && s.threads[run[0].0].key == k) && Untouched(Step(s, run[0].0, run[0].1), run[1..], k))
  }

  /** When the map is not cleared, every entry that nobody writes stays. */
  lemma {:induction false} EntryStays<K(!new), V>(s: State<K, V>, run: Run<K, V>, k: K)
    requires Runs(s, run) && !Cleared(s, run) && Untouched(s, run, k)
    ensures var end := After(s, run);
      (k in end.abs <==> k in s.abs) && (k in s.abs ==> end.abs[k] == s.abs[k])
    decreases |run|
  {
    if run != [] {
      AbsEffect(s, run[0].0, run[0].1);
      EntryStays(Step(s, run[0].0, run[0].1), run[1..], k);
    }
  }

  // ------------------------------------------------------------- a Clear that is lost

  lemma StoreWrites()
    ensures var s := With(map[], 0, true, Checked(0, 7), false);
      Enabled(s, 0, Write(Some(1))) && Step(s, 0, Write(Some(1))) == With(map[7 := 1], 0, true, Written(0, 7, 1), false)
  {
  }

  lemma StoreUnlocks()
    ensures var s := With(map[7 := 1], 0, true, Written(0, 7, 1), false);
      Enabled(s, 0, UnlockBucket) && Step(s, 0, UnlockBucket) == With(map[7 := 1], 0, false, Unlocked(0, 1), false)
  {
  }

  lemma GrowStarts()
    ensures var s := With(map[7 := 1], 0, false, Unlocked(0, 1), false);
      Enabled(s, 0, AddSize) && Step(s, 0, AddSize) == With(map[7 := 1], 1, false, Idle, false)
    ensures var s := With(map[7 := 1], 1, false, Idle, false);
      Enabled(s, 0, StartResize(Grow)) && Step(s, 0, StartResize(Grow)) == With(map[7 := 1], 1, false, Started(Grow), true)
  {
  }

  lemma AfterStore() returns (run: Run<int, int>)
    ensures run == CHECKS + [(0, Write(Some(1))), (0, UnlockBucket)] && Runs(Empty(), run)
    ensures After(Empty(), run) == With(map[7 := 1], 0, false, Unlocked(0, 1), false)
  {
    AfterChecks();
    StoreWrites();
    StoreUnlocks();
    run := Then(Empty(), CHECKS, 0, Write(Some(1)));
    run := Then(Empty(), run, 0, UnlockBucket);
  }

  /** Key 7 is stored, and thread 0 has started to grow the table. */
  lemma AfterGrowStarts() returns (run: Run<int, int>)
    ensures run == CHECKS + [(0, Write(Some(1))), (0, UnlockBucket), (0, AddSize), (0, StartResize(Grow))]
    ensures Runs(Empty(), run) && After(Empty(), run) == With(map[7 := 1], 1, false, Started(Grow), true)
  {
    run := AfterStore();
    GrowStarts();
    run := Then(Empty(), run, 0, AddSize);
    run := Then(Empty(), run, 0, StartResize(Grow));
  }

  /** Thread 0 in the middle of growing the table. */
  function Growing(t0: Thread<int>, copy: map<int, int>, counter: int, locked: bool): State<int, int> {
    State([Table(map[7 := 1], 1, 1), Table(copy, 2, counter)], 0, true, if locked then map[(0, 0) := 0] else map[],
          [t0, Idle], ONE_BUCKET, map[7 := 1], {})
  }

  /** Thread 0 has published the larger table. */
  function Grown(t0: Thread<int>, resizing: bool): State<int, int> {
    State([Table(map[7 := 1], 1, 1), Table(map[7 := 1], 2, 1)], 1, resizing, map[], [t0, Idle], ONE_BUCKET, map[7 := 1], {})
  }

  lemma CopyStarts()
    ensures var s := With(map[7 := 1], 1, false, Started(Grow), true);
      Enabled(s, 0, NewTable(2)) && Step(s, 0, NewTable(2)) == Growing(Copying(0, 1, 0), map[], 0, false)
    ensures var s := Growing(Copying(0, 1, 0), map[], 0, false);
      Enabled(s, 0, LockSource) && Step(s, 0, LockSource) == Growing(CopyLocked(0, 1, 0), map[], 0, true)
  {
  }

  lemma CopySteps()
    ensures var s := Growing(CopyLocked(0, 1, 0), map[], 0, true);
      Enabled(s, 0, CopyBucket) && Step(s, 0, CopyBucket) == Growing(BucketCopied(0, 1, 0, 1), map[7 := 1], 0, true)
    ensures var s := Growing(BucketCopied(0, 1, 0, 1), map[7 := 1], 0, true);
      Enabled(s, 0, UnlockSource) && Step(s, 0, UnlockSource) == Growing(CopyUnlocked(0, 1, 0, 1), map[7 := 1], 0, false)
  {
    OneEntry();
  }

  lemma OneEntry()
    ensures BucketOf(Growing(CopyLocked(0, 1, 0), map[], 0, true), 0, 0) == map[7 := 1]
    ensures map[] + map[7 := 1] == map[7 := 1] && |map[7 := 1]| == 1
  {
  }

  lemma CountSteps()
    ensures var s := Growing(CopyUnlocked(0, 1, 0, 1), map[7 := 1], 0, false);
      Enabled(s, 0, AddCopied) && Step(s, 0, AddCopied) == Growing(Copying(0, 1, 1), map[7 := 1], 1, false)
    ensures var s := Growing(Copying(0, 1, 1), map[7 := 1], 1, false);
      Enabled(s, 0, CopyDone) && Step(s, 0, CopyDone) == Growing(Ready(0, 1, false), map[7 := 1], 1, false)
  {
  }

  lemma PublishSteps()
    ensures var s := Growing(Ready(0, 1, false), map[7 := 1], 1, false);
      Enabled(s, 0, Publish) && Step(s, 0, Publish) == Grown(Published, true)
    ensures Enabled(Grown(Published, true), 0, LowerFlag) && Step(Grown(Published, true), 0, LowerFlag) == Grown(Idle, false)
  {
  }

  const COPYING: Run<int, int> := [(0, NewTable(2)), (0, LockSource), (0, CopyBucket), (0, UnlockSource)]

  const GROWING: Run<int, int> := COPYING + [(0, AddCopied), (0, CopyDone), (0, Publish), (0, LowerFlag)]

  /** Thread 0 copies the one bucket. */
  lemma AfterCopying() returns (run: Run<int, int>)
    ensures run == COPYING
    ensures var s := With(map[7 := 1], 1, false, Started(Grow), true);
      Runs(s, run) && After(s, run) == Growing(CopyUnlocked(0, 1, 0, 1), map[7 := 1], 0, false)
  {
    var s := With(map[7 := 1], 1, false, Started(Grow), true);
    run := AfterNewTable();
    CopySteps();
    run := Then(s, run, 0, CopyBucket);
    run := Then(s, run, 0, UnlockSource);
  }

  lemma AfterNewTable() returns (run: Run<int, int>)
    ensures run == [(0, NewTable(2)), (0, LockSource)]
    ensures var s := With(map[7 := 1], 1, false, Started(Grow), true);
      Runs(s, run) && After(s, run) == Growing(CopyLocked(0, 1, 0), map[], 0, true)
  {
    var s := With(map[7 := 1], 1, false, Started(Grow), true);
    CopyStarts();
    run := Then(s, [], 0, NewTable(2));
    run := Then(s, run, 0, LockSource);
  }

  /** Thread 0 has added the entries copied to the counter, and sees that no bucket is left. */
  lemma AfterCounting() returns (run: Run<int, int>)
    ensures run == COPYING + [(0, AddCopied), (0, CopyDone)]
    ensures var s := With(map[7 := 1], 1, false, Started(Grow), true);
      Runs(s, run) && After(s, run) == Growing(Ready(0, 1, false), map[7 := 1], 1, false)
  {
    var s := With(map[7 := 1], 1, false, Started(Grow), true);
    run := AfterCopying();
    CountSteps();
    run := Then(s, run, 0, AddCopied);
    run := Then(s, run, 0, CopyDone);
  }

  lemma AfterGrowing() returns (run: Run<int, int>)
    ensures run == GROWING
    ensures var s := With(map[7 := 1], 1, false, Started(Grow), true);
      Runs(s, run) && After(s, run) == Grown(Idle, false)
  {
    var s := With(map[7 := 1], 1, false, Started(Grow), true);
    run := AfterCounting();
    PublishSteps();
    run := Then(s, run, 0, Publish);
    run := Then(s, run, 0, LowerFlag);
  }

  lemma GrowingEnds()
    ensures EndsResize(GROWING)
  {
  }

  lemma ClearWaits()
    ensures var s := With(map[7 := 1], 1, false, Started(Grow), true);
      TablesOk(s) && 1 < |s.threads| && s.threads[1].Idle? && CallClear(s, 1) == s
  {
  }

  /** A key is stored, thread 0 starts to grow the table, and thread 1 calls Clear. It waits until
      thread 0 is done, and when it returns, with no resize under way, the entry is still there. */
  lemma ClearIsLost() returns (before: Run<int, int>, s: State<int, int>, wait: Run<int, int>, end: State<int, int>)
    ensures before == CHECKS + [(0, Write(Some(1))), (0, UnlockBucket), (0, AddSize), (0, StartResize(Grow))]
    ensures Init(Empty()) && Runs(Empty(), before) && After(Empty(), before) == s
    ensures TablesOk(s) && 1 < |s.threads| && s.threads[1].Idle? && CallClear(s, 1) == s
    ensures wait == GROWING && EndsResize(wait) && Runs(s, wait) && After(s, wait) == end
    ensures !end.resizing && end.abs == map[7 := 1]
  {
    s, end := With(map[7 := 1], 1, false, Started(Grow), true), Grown(Idle, false);
    AfterChecks();
    before := AfterGrowStarts();
    ClearWaits();
    wait := AfterGrowing();
    GrowingEnds();
  }
}
