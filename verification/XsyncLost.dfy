/** A run of `xsync.Map` that no order of a plain map explains: a key is stored, a Clear is called
    while the table grows and returns, and a Load that begins after that still finds the key. */
module XsyncLost {
  import opened Options
  import opened XsyncClear
  import opened XsyncHistory
  import opened XsyncLinear
  import opened XsyncResize

  lemma {:induction false} PlaysHead<K, V>(s: System<K, V>, moves: seq<Move<K, V>>) returns (next: System<K, V>)
    requires Plays(s, moves) && moves != []
    ensures Allowed(s, moves[0]) && next == Next(s, moves[0])
    ensures Plays(next, moves[1..]) && Played(s, moves) == Played(next, moves[1..])
  {
    next := Next(s, moves[0]);
  }

  lemma {:induction false} PlaysFirst<K, V>(s: System<K, V>, m: Move<K, V>, next: System<K, V>, rest: seq<Move<K, V>>)
    requires Allowed(s, m) && next == Next(s, m) && Plays(next, rest)
    ensures Plays(s, [m] + rest) && Played(s, [m] + rest) == Played(next, rest)
  {
    assert ([m] + rest)[1..] == rest;
  }

  lemma {:induction false} PlaysAppend<K, V>(s: System<K, V>, a: seq<Move<K, V>>, b: seq<Move<K, V>>, mid: System<K, V>)
    requires Plays(s, a) && mid == Played(s, a) && Plays(mid, b)
    ensures Plays(s, a + b) && Played(s, a + b) == Played(mid, b)
    decreases |a|
  {
    if a == [] {
      assert a + b == b;
    } else {
      var next := PlaysHead(s, a);
      PlaysAppend(next, a[1..], b, mid);
      PlaysFirst(s, a[0], next, a[1..] + b);
      HeadFirst(a, b);
    }
  }

  lemma {:induction false} HeadFirst<T>(a: seq<T>, b: seq<T>)
    requires a != []
    ensures a + b == [a[0]] + (a[1..] + b)
  {
  }

  lemma {:induction false} OneMove<K, V>(s: System<K, V>, moves: seq<Move<K, V>>, m: Move<K, V>) returns (more: seq<Move<K, V>>)
    requires Plays(s, moves) && Allowed(Played(s, moves), m)
    ensures more == moves + [m] && Plays(s, more) && Played(s, more) == Next(Played(s, moves), m)
  {
    more := moves + [m];
    var mid := Played(s, moves);
    PlaysFirst(mid, m, Next(mid, m), []);
    PlaysAppend(s, moves, [m], mid);
  }

  /** The history tells of no Clear. */
  ghost predicate NoneCleared<K, V>(h: seq<Entry<K, V>>) {
    forall i :: 0 <= i < |h| ==> !Clears(h[i].event) && h[i].event != Emptied
  }

  function Lifted<K, V>(run: Run<K, V>): (moves: seq<Move<K, V>>)
    ensures |moves| == |run|
  {
    seq(|run|, i requires 0 <= i < |run| => Take(run[i].0, run[i].1))
  }

  /** Steps of threads that are not in a call of Clear. */
  ghost predicate Free<K, V>(s: System<K, V>, run: Run<K, V>) {
    && |s.begun| == |s.calls| == |s.core.threads|
    && forall i :: 0 <= i < |run| ==> run[i].1 != StartResize(Clear) && (run[i].0 < |s.calls| ==> s.calls[run[i].0].NoCall?)
  }

  lemma {:induction false} LiftedStep<K, V>(s: System<K, V>, p: nat, a: Action<K, V>)
    requires Enabled(s.core, p, a) && p < |s.begun| && NoneCleared(s.history) && !(a.Publish? && s.core.threads[p].cleared)
    ensures NoneCleared(HistoryAfter(s, p, a)) && |Step(s.core, p, a).threads| == |s.core.threads|
  {
    StepShape(s.core, p, a);
  }

  /** The steps of threads, played beside readers and calls of Clear. */
  lemma {:induction false} LiftedPlays<K, V>(s: System<K, V>, run: Run<K, V>)
    requires Runs(s.core, run) && Free(s, run) && NoneCleared(s.history) && !Cleared(s.core, run)
    ensures Plays(s, Lifted(run))
    ensures var end := Played(s, Lifted(run));
      && end.core == After(s.core, run) && end.calls == s.calls && end.readers == s.readers
      && |end.begun| == |s.begun| && |end.core.threads| == |s.core.threads|
      && end.now == s.now + |run| && NoneCleared(end.history)
    decreases |run|
  {
    if run != [] {
      var (p, a) := run[0];
      LiftedStep(s, p, a);
      var next := Next(s, Take(p, a));
      assert Free(next, run[1..]);
      LiftedPlays(next, run[1..]);
      LiftedRest(run);
    }
  }

  lemma {:induction false} NothingPublished<K, V>(s: State<K, V>, run: Run<K, V>)
    requires Runs(s, run) && forall i :: 0 <= i < |run| ==> !run[i].1.Publish?
    ensures !Cleared(s, run)
    decreases |run|
  {
    if run != [] {
      NothingPublished(Step(s, run[0].0, run[0].1), run[1..]);
    }
  }

  // ------------------------------------------------------------- writes

  /** Every write was answered before a moment. */
  ghost predicate WrittenBefore<K, V>(h: seq<Entry<K, V>>, since: nat) {
    forall i :: 0 <= i < |h| && h[i].event.Wrote? ==> h[i].ended < since
  }

  lemma {:induction false} AnsweredBefore<K(!new), V>(s: System<K, V>, moves: seq<Move<K, V>>, end: System<K, V>)
    requires Start(s) && Plays(s, moves) && end == Played(s, moves)
    ensures WrittenBefore(end.history, end.now)
  {
    StartOk(s);
    PlayedOk(s, moves);
  }

  /** Steps that do not write. */
  ghost predicate WriteFree<K, V>(run: Run<K, V>) {
    forall i :: 0 <= i < |run| ==> !run[i].1.Write?
  }

  lemma {:induction false} NothingWritten<K, V>(s: System<K, V>, p: nat, a: Action<K, V>, since: nat)
    requires Allowed(s, Take(p, a)) && !a.Write? && WrittenBefore(s.history, since)
    ensures WrittenBefore(Next(s, Take(p, a)).history, since)
  {
  }

  lemma {:induction false} LiftedRest<K, V>(run: Run<K, V>)
    requires run != []
    ensures Lifted(run)[0] == Take(run[0].0, run[0].1) && Lifted(run)[1..] == Lifted(run[1..])
  {
  }

  lemma {:induction false} LiftedWrites<K, V>(s: System<K, V>, run: Run<K, V>, since: nat)
    requires Plays(s, Lifted(run)) && WriteFree(run) && WrittenBefore(s.history, since)
    ensures WrittenBefore(Played(s, Lifted(run)).history, since)
    decreases |run|
  {
    if run != [] {
      LiftedRest(run);
      var next := PlaysHead(s, Lifted(run));
      NothingWritten(s, run[0].0, run[0].1, since);
      LiftedWrites(next, run[1..], since);
    }
  }

  /** In a plain map whose calls stand in real-time order, a Load behind a Clear that came after
      all writes finds nothing. */
  lemma {:induction false} NothingAfterClear<K, V>(h: seq<Entry<K, V>>, c: nat, r: nat)
    requires Legal(h) && c < |h| && r < |h| && h[c].event == Emptied && h[r].event.Read?
    requires forall i, j :: 0 <= i < |h| && 0 <= j < |h| && h[i].ended < h[j].begun ==> i < j
    requires h[c].ended < h[r].begun && WrittenBefore(h, h[c].begun)
    ensures h[r].event.answer == None
  {
    EmptyFrom(h, c, r);
    assert Fits(Replay(h[..r]), h[r].event);
  }

  lemma {:induction false} EmptyFrom<K, V>(h: seq<Entry<K, V>>, c: nat, n: nat)
    requires c < n <= |h| && h[c].event == Emptied && forall i :: c < i < |h| ==> !h[i].event.Wrote?
    ensures Replay(h[..n]) == map[]
  {
    assert h[..n][..n - 1] == h[..n - 1];
    if n > c + 1 {
      EmptyFrom(h, c, n - 1);
    }
  }

  // ------------------------------------------------------------- the run

  /** Two threads, one reader and nothing stored. */
  function Fresh(): System<int, int> {
    System(Empty(), [Away], 0, [0, 0], [NoCall, NoCall], [])
  }

  /** All writes were answered before moment 8, and no Clear is told of. */
  ghost predicate Stored<K, V>(h: seq<Entry<K, V>>) {
    NoneCleared(h) && WrittenBefore(h, 8)
  }

  /** The key is stored and thread 0 has started to grow the table. */
  lemma {:induction false} GrowBegins() returns (before: Run<int, int>, s: System<int, int>)
    ensures |before| == 8 && Start(Fresh()) && Plays(Fresh(), Lifted(before)) && s == Played(Fresh(), Lifted(before))
    ensures s.core == With(map[7 := 1], 1, false, Started(Grow), true) && s.now == 8
    ensures s.calls == [NoCall, NoCall] && s.readers == [Away] && |s.begun| == 2 && Stored(s.history)
  {
    before := AfterGrowStarts();
    NothingPublished(Empty(), before);
    LiftedPlays(Fresh(), before);
    s := Played(Fresh(), Lifted(before));
    AnsweredBefore(Fresh(), Lifted(before), s);
  }

  lemma {:induction false} GrowClearsNothing()
    ensures var s := With(map[7 := 1], 1, false, Started(Grow), true);
      Runs(s, GROWING) && After(s, GROWING) == Grown(Idle, false) && !Cleared(s, GROWING)
  {
    var s := With(map[7 := 1], 1, false, Started(Grow), true);
    var before := AfterGrowStarts();
    InitInv(Empty());
    ReachableInv(Empty(), before);
    var wait := AfterGrowing();
    GrowingEnds();
    ClearsIfPending(s, GROWING, 0);
  }

  /** A Clear by thread 1 meets the growing of the table. */
  lemma {:induction false} WaitBegins(s: System<int, int>) returns (called: System<int, int>)
    requires s.core == With(map[7 := 1], 1, false, Started(Grow), true) && s.now == 8
    requires s.calls == [NoCall, NoCall] && |s.begun| == 2
    ensures Allowed(s, CallClear(1)) && called == Next(s, CallClear(1))
    ensures called == s.(now := 9, calls := [NoCall, Clearing(8, None)])
  {
    called := Next(s, CallClear(1));
    assert !s.core.threads[0].Ready?;
    assert s.calls[1 := Clearing(8, None)] == [NoCall, Clearing(8, None)];
  }

  lemma {:induction false} GrowIsFree(s: System<int, int>)
    requires |s.core.threads| == 2 && |s.begun| == 2 && s.calls == [NoCall, Clearing(8, None)]
    ensures Free(s, GROWING) && WriteFree(GROWING)
  {
  }

  /** Thread 0 grows the table while the Clear waits. */
  lemma {:induction false} GrowGoesOn(s: System<int, int>) returns (end: System<int, int>)
    requires s.core == With(map[7 := 1], 1, false, Started(Grow), true) && s.now == 9
    requires s.calls == [NoCall, Clearing(8, None)] && |s.begun| == 2 && Stored(s.history)
    ensures Plays(s, Lifted(GROWING)) && end == Played(s, Lifted(GROWING))
    ensures end.core == Grown(Idle, false) && end.now == 17 && end.calls == s.calls && end.readers == s.readers
    ensures Stored(end.history)
  {
    GrowClearsNothing();
    GrowIsFree(s);
    LiftedPlays(s, GROWING);
    LiftedWrites(s, GROWING, 8);
    end := Played(s, Lifted(GROWING));
  }

  lemma {:induction false} WaitEnds(s: System<int, int>) returns (end: System<int, int>)
    requires s.core == Grown(Idle, false) && s.now == 17 && s.calls == [NoCall, Clearing(8, None)] && Stored(s.history)
    ensures Allowed(s, Return(1)) && end == Next(s, Return(1))
    ensures end.core == s.core && end.now == 18 && end.readers == s.readers && end.history == s.history
  {
    end := Next(s, Return(1));
  }

  /** The Clear waits for thread 0 and returns. */
  lemma {:induction false} WaitedInVain(s: System<int, int>) returns (moves: seq<Move<int, int>>)
    requires s.core == With(map[7 := 1], 1, false, Started(Grow), true) && s.now == 8
    requires s.calls == [NoCall, NoCall] && s.readers == [Away] && |s.begun| == 2 && Stored(s.history)
    ensures moves == [CallClear(1)] + (Lifted(GROWING) + [Return(1)]) && Plays(s, moves)
    ensures var end := Played(s, moves);
      && end.core == Grown(Idle, false) && end.now == 18 && end.readers == [Away] && Stored(end.history)
  {
    var called := WaitBegins(s);
    var waited := GrowGoesOn(called);
    var end := WaitEnds(waited);
    var rest := OneMove(called, Lifted(GROWING), Return(1));
    PlaysFirst(s, CallClear(1), called, rest);
    moves := [CallClear(1)] + rest;
  }

  /** A Load of the key afterwards. */
  lemma {:induction false} StillFound(s: System<int, int>) returns (moves: seq<Move<int, int>>, i: nat)
    requires s.core == Grown(Idle, false) && s.now == 18 && s.readers == [Away] && Stored(s.history)
    ensures moves == [Look(0, 7), Answer(0)] && Plays(s, moves)
    ensures var h := Played(s, moves).history;
      Stored(h) && i < |h| && h[i].event == Read(7, Some(1)) && h[i].begun == 18
  {
    moves := OneMove(s, [], Look(0, 7));
    var looking := Next(s, Look(0, 7));
    moves := OneMove(s, [Look(0, 7)], Answer(0));
    i := PlaceOf(s.history, 1);
    assert Lookup(looking.core.tables[1].contents, 7) == Some(1);
    assert Played(s, moves).history == Recorded(s.history, 1, Read(7, Some(1)), 18, 19);
  }

  /** The moves in turn, each at the moment of its number: the Clear is called at 8 and returns at
      17, all writes having answered before, and the Load that begins at 18 finds the key. The
      history tells of no Clear, and no history can: behind a Clear it would find nothing
      (NothingAfterClear). */
  lemma {:induction false} ClearIsNotInHistory() returns (moves: seq<Move<int, int>>, i: nat)
    ensures Start(Fresh()) && |moves| == 20 && Plays(Fresh(), moves)
    ensures moves[8] == CallClear(1) && moves[17] == Return(1) && moves[18] == Look(0, 7) && moves[19] == Answer(0)
    ensures var h := Played(Fresh(), moves).history;
      NoneCleared(h) && WrittenBefore(h, 8) && i < |h| && h[i].event == Read(7, Some(1)) && h[i].begun == 18
  {
    var before, s := GrowBegins();
    var waiting := WaitedInVain(s);
    PlaysAppend(Fresh(), Lifted(before), waiting, s);
    var found, k := StillFound(Played(s, waiting));
    PlaysAppend(Fresh(), Lifted(before) + waiting, found, Played(s, waiting));
    moves, i := Lifted(before) + waiting + found, k;
  }
}
