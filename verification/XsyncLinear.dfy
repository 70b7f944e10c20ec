/** Linearizability of `xsync.Map`. Beside the steps of writers and resizers there are readers,
    which load the table pointer and later read a bucket of that table, without a lock, and calls
    of Clear, which start a resize or wait for the one they meet. Every call that answers is put
    into a history, at a moment between its first and its last step: a call on the current table
    at the moment it takes effect, a call on a table that has been replaced at the moment of its
    replacement, just before it, and a Clear that waited while another one was published just
    behind that one. The history is that of a plain map. A Clear that waited while none was
    published did nothing, and is not in it. */
module XsyncLinear {
  import opened Options
  import opened XsyncClear
  import opened XsyncHistory
  import opened XsyncResize

  datatype Reader<K> = Away | Looking(t: nat, key: K, begun: nat)

  /** A call of Clear since a moment, and the thread whose Clear serves it: the caller, if it won
      the flag, or the one it met, if that one was to clear the map and had not done so yet. */
  datatype Call = NoCall | Clearing(begun: nat, via: Option<nat>)

  /** The map with its readers, a clock, the moment each thread's steps began, the calls of Clear
      by thread, and the history. */
  datatype System<!K, V> = System(
    core: State<K, V>,
    readers: seq<Reader<K>>,
    now: nat,
    begun: seq<nat>,
    calls: seq<Call>,
    history: seq<Entry<K, V>>)

  datatype Move<K, V> =
    | Take(p: nat, a: Action<K, V>)
    | Look(r: nat, key: K)
    | Answer(r: nat)
    | CallClear(p: nat)
    | Return(p: nat)

  // ------------------------------------------------------------- the steps

  predicate CanTake<K, V>(s: System<K, V>, p: nat, a: Action<K, V>) {
    Enabled(s.core, p, a) && p < |s.begun|
  }

  /** A thread takes no step while it waits for a resize to end, nor between the end of its own
      and its return. */
  predicate Allowed<K, V>(s: System<K, V>, m: Move<K, V>) {
    && TablesOk(s.core)
    && match m
       case Take(p, a) =>
         && CanTake(s, p, a) && a != StartResize(Clear) && p < |s.calls|
         && (s.calls[p].NoCall? || (s.calls[p].via == Some(p) && !s.core.threads[p].Idle?))
       case Look(r, _) => r < |s.readers| && s.readers[r].Away?
       case Answer(r) => r < |s.readers| && s.readers[r].Looking? && s.readers[r].t < |s.core.tables|
       case CallClear(p) =>
         p < |s.core.threads| && p < |s.begun| && p < |s.calls| && s.core.threads[p].Idle? && s.calls[p].NoCall?
       case Return(p) =>
         && p < |s.core.threads| && p < |s.calls| && s.core.threads[p].Idle? && s.calls[p].Clearing?
         && (s.calls[p].via == Some(p) || !s.core.resizing)
  }

  function HistoryAfter<K, V>(s: System<K, V>, p: nat, a: Action<K, V>): seq<Entry<K, V>>
    requires CanTake(s, p, a)
  {
    var th := s.core.threads[p];
    if a.Write? then
      Recorded(s.history, th.t, Wrote(th.key, a.value, Lookup(s.core.tables[th.t].contents, th.key)), s.begun[p], s.now)
    else if a.Cancel? then
      Recorded(s.history, th.t, Read(th.key, Lookup(s.core.tables[th.t].contents, th.key)), s.begun[p], s.now)
    else if a.Publish? then
      s.history + [Entry(Replaced(s.core.current, th.cleared), s.begun[p], s.now, s.now)]
    else s.history
  }

  function Taken<K, V>(s: System<K, V>, p: nat, a: Action<K, V>): System<K, V>
    requires CanTake(s, p, a)
  {
    s.(core := Step(s.core, p, a), now := s.now + 1, history := HistoryAfter(s, p, a),
       begun := if a.LoadTable? || a.StartResize? then s.begun[p := s.now] else s.begun)
  }

  /** A thread that is clearing the map and has not published its table yet. */
  function Clearer<K>(threads: seq<Thread<K>>): (r: Option<nat>)
    ensures r.Some? ==> r.value < |threads| && ForClear(threads[r.value])
    ensures r.None? ==> forall q :: 0 <= q < |threads| ==> !ForClear(threads[q])
  {
    if threads == [] then None
    else if ForClear(threads[|threads| - 1]) then Some(|threads| - 1)
    else Clearer(threads[..|threads| - 1])
  }

  function Next<K, V>(s: System<K, V>, m: Move<K, V>): System<K, V>
    requires Allowed(s, m)
  {
    match m
    case Take(p, a) => Taken(s, p, a)
    case Look(r, key) =>
      s.(readers := s.readers[r := Looking(s.core.current, key, s.now)], now := s.now + 1)
    case Answer(r) =>
      var Looking(t, key, begun) := s.readers[r];
      s.(readers := s.readers[r := Away], now := s.now + 1,
         history := Recorded(s.history, t, Read(key, Lookup(s.core.tables[t].contents, key)), begun, s.now))
    case CallClear(p) =>
      // The flag decides: it is raised by this call, or another resize is under way.
      if s.core.resizing then
        s.(now := s.now + 1, calls := s.calls[p := Clearing(s.now, Clearer(s.core.threads))])
      else
        Taken(s, p, StartResize(Clear)).(calls := s.calls[p := Clearing(s.now, Some(p))])
    case Return(p) =>
      s.(now := s.now + 1, calls := s.calls[p := NoCall],
         history := if s.calls[p].via == Some(p) then s.history else Served(s.history, s.calls[p].begun, s.now))
  }

  predicate Start<K, V>(s: System<K, V>) {
    && Init(s.core) && s.history == [] && |s.begun| == |s.core.threads|
    && |s.calls| == |s.core.threads| && (forall p :: 0 <= p < |s.calls| ==> s.calls[p].NoCall?)
    && (forall p :: 0 <= p < |s.begun| ==> s.begun[p] <= s.now)
    && forall r :: 0 <= r < |s.readers| ==> s.readers[r].Away?
  }

  // ------------------------------------------------------------- the invariant

  /** A table is current, or was replaced after a call that uses it began. */
  ghost predicate InUse<K, V>(s: System<K, V>, t: nat, begun: nat) {
    && begun < s.now && t < |s.core.tables|
    && (t == s.core.current || (Gone(s.history, t) && begun <= s.history[PlaceOf(s.history, t)].at))
  }

  /** A table replaced holds what the history says the map held when it was replaced. */
  ghost predicate GoneOk<K, V>(s: System<K, V>, t: nat)
    requires Gone(s.history, t)
  {
    && t < |s.core.tables| && t != s.core.current
    && Replay(s.history[..PlaceOf(s.history, t)]) == s.core.tables[t].contents
    && (s.history[PlaceOf(s.history, t)].event.cleared <==> t in s.core.overtaken)
  }

  ghost predicate HistoryOk<K, V>(s: System<K, V>) {
    && Legal(s.history) && InOrder(s.history, s.now) && Replay(s.history) == s.core.abs
    && (forall t {:trigger Gone(s.history, t)} :: Gone(s.history, t) ==> GoneOk(s, t))
    && (forall t :: t in s.core.overtaken ==> Gone(s.history, t))
  }

  /** A thread's call began before now, its table is in use, and a copy it makes is not replaced. */
  ghost predicate CallOk<K, V>(s: System<K, V>, th: Thread<K>, begun: nat) {
    && begun <= s.now && (IsResizer(th) ==> begun < s.now)
    && (IsWriter(th) ==> InUse(s, th.t, begun))
    && (HasCopy(th) ==> !Gone(s.history, th.dst))
  }

  ghost predicate CallsOk<K, V>(s: System<K, V>) {
    && |s.begun| == |s.core.threads|
    && (forall p :: 0 <= p < |s.begun| ==> CallOk(s, s.core.threads[p], s.begun[p]))
    && (forall r :: 0 <= r < |s.readers| && s.readers[r].Looking? ==> InUse(s, s.readers[r].t, s.readers[r].begun))
  }

  /** The call of Clear that began at a moment was published. */
  ghost predicate OwnCleared<K, V>(h: seq<Entry<K, V>>, begun: nat) {
    exists i :: 0 <= i < |h| && Clears(h[i].event) && h[i].begun == begun
  }

  /** A call of Clear by thread p that is served has been, or the thread that serves it is still to
      publish its table. */
  ghost predicate ClearOk<K, V>(threads: seq<Thread<K>>, since: nat, h: seq<Entry<K, V>>, now: nat, p: nat, call: Call)
    requires p < |threads|
  {
    call.Clearing? ==>
      && call.begun < now
      && if call.via == Some(p) then OwnCleared(h, call.begun) || (ForClear(threads[p]) && since == call.begun)
         else
           && threads[p].Idle?
           && (call.via.Some? ==>
                 call.via.value < |threads| && (ForClear(threads[call.via.value]) || ClearedSince(h, call.begun)))
  }

  ghost predicate ClearsOk<K, V>(s: System<K, V>) {
    && |s.calls| == |s.begun| == |s.core.threads|
    && forall p :: 0 <= p < |s.calls| ==> ClearOk(s.core.threads, s.begun[p], s.history, s.now, p, s.calls[p])
  }

  ghost predicate SystemOk<K(!new), V>(s: System<K, V>) {
    Inv(s.core) && HistoryOk(s) && CallsOk(s) && ClearsOk(s)
  }

  // ------------------------------------------------------------- recording an answer

  lemma {:induction false} GoneAt<K, V>(s: System<K, V>, t: nat)
    requires HistoryOk(s) && Gone(s.history, t)
    ensures GoneOk(s, t)
  {
  }

  /** What recording an event asks for: the table is in use, the event's answer is what the table
      holds, and only an event overtaken by a Clear changes a table that has been replaced. */
  ghost predicate CanRecord<K, V>(s: System<K, V>, t: nat, event: Event<K, V>, begun: nat) {
    && HistoryOk(s) && TablesOk(s.core) && s.core.abs == s.core.tables[s.core.current].contents
    && InUse(s, t, begun) && !event.Replaced? && Fits(s.core.tables[t].contents, event)
    && (t != s.core.current ==> event.Read? || t in s.core.overtaken)
  }

  lemma {:induction false} RecordedIsNeutral<K, V>(s: System<K, V>, t: nat, event: Event<K, V>, begun: nat)
    requires CanRecord(s, t, event, begun)
    ensures var i := PlaceOf(s.history, t);
      Neutral(s.history, i, event) && Fits(Replay(s.history[..i]), event)
      && (i == |s.history| <==> t == s.core.current)
      && (i < |s.history| ==> begun <= s.history[i].at)
  {
    var h := s.history;
    if Gone(h, t) {
      assert GoneOk(s, t);
    } else {
      assert h[..|h|] == h;
    }
  }

  /** What a step that answers does to the tables and the map. */
  ghost predicate Answers<K, V>(s: State<K, V>, s': State<K, V>, t: nat, event: Event<K, V>)
    requires TablesOk(s) && t < |s.tables|
  {
    && TablesOk(s') && |s'.tables| == |s.tables| && s'.current == s.current && s'.overtaken == s.overtaken
    && s'.abs == (if t == s.current then Apply(s.abs, event) else s.abs)
    && s'.tables[t].contents == Apply(s.tables[t].contents, event)
    && forall u :: 0 <= u < |s.tables| && u != t ==> s'.tables[u].contents == s.tables[u].contents
  }

  lemma {:induction false} RecordedHistory<K, V>(s: System<K, V>, t: nat, event: Event<K, V>, begun: nat) returns (h': seq<Entry<K, V>>)
    requires CanRecord(s, t, event, begun)
    ensures h' == Recorded(s.history, t, event, begun, s.now) && Legal(h') && InOrder(h', s.now + 1)
    ensures Replay(h') == if t == s.core.current then Apply(s.core.abs, event) else s.core.abs
  {
    RecordedIsNeutral(s, t, event, begun);
    var i := PlaceOf(s.history, t);
    var e := Entry(event, begun, if i < |s.history| then s.history[i].at else s.now, s.now);
    h' := Inserted(s.history, i, e);
    LegalInserted(s.history, i, e);
    RecordedInOrder(s.history, t, event, begun, s.now);
    ReplayAll(s.history, i, e);
  }

  lemma {:induction false} RecordedGone<K, V>(s: System<K, V>, s': System<K, V>, t: nat, event: Event<K, V>, begun: nat, u: nat)
    requires CanRecord(s, t, event, begun) && Answers(s.core, s'.core, t, event)
    requires s'.history == Recorded(s.history, t, event, begun, s.now) && Gone(s'.history, u)
    ensures GoneOk(s', u)
  {
    RecordedIsNeutral(s, t, event, begun);
    RecordedIsLonger(s.history, t, event, begun, s.now);
    PlacesKept(s.history, s'.history, u);
    GoneAt(s, u);
    ReplayBefore(s.history, t, event, begun, s.now, u);
  }

  lemma {:induction false} RecordKeeps<K, V>(s: System<K, V>, t: nat, event: Event<K, V>, begun: nat, core': State<K, V>) returns (s': System<K, V>)
    requires CanRecord(s, t, event, begun) && Answers(s.core, core', t, event)
    ensures s' == s.(core := core', now := s.now + 1, history := Recorded(s.history, t, event, begun, s.now))
    ensures HistoryOk(s')
  {
    var h' := RecordedHistory(s, t, event, begun);
    s' := s.(core := core', now := s.now + 1, history := h');
    RecordedTables(s, s', t, event, begun);
  }

  lemma {:induction false} RecordedTables<K, V>(s: System<K, V>, s': System<K, V>, t: nat, event: Event<K, V>, begun: nat)
    requires CanRecord(s, t, event, begun) && Answers(s.core, s'.core, t, event)
    requires s'.history == Recorded(s.history, t, event, begun, s.now)
    ensures forall u {:trigger Gone(s'.history, u)} :: Gone(s'.history, u) ==> GoneOk(s', u)
    ensures forall u :: u in s'.core.overtaken ==> Gone(s'.history, u)
  {
    forall u: nat | Gone(s'.history, u)
      ensures GoneOk(s', u)
    {
      RecordedGone(s, s', t, event, begun, u);
    }
    RecordedIsLonger(s.history, t, event, begun, s.now);
    forall u | u in s.core.overtaken
      ensures Gone(s'.history, u)
    {
      PlacesKept(s.history, s'.history, u);
    }
  }

  // ------------------------------------------------------------- the calls under way

  /** A table stays in use when an answer is recorded. */
  lemma {:induction false} StillInUse<K, V>(s: System<K, V>, s': System<K, V>, u: nat, since: nat)
    requires Longer(s.history, s'.history) && s'.now == s.now + 1
    requires |s'.core.tables| >= |s.core.tables| && s'.core.current == s.core.current
    requires InUse(s, u, since)
    ensures InUse(s', u, since)
  {
    PlacesKept(s.history, s'.history, u);
  }

  /** A call of Clear is all right after an event is recorded, while no thread moves. */
  lemma {:induction false} ClearKept<K, V>(threads: seq<Thread<K>>, since: nat, h: seq<Entry<K, V>>, h': seq<Entry<K, V>>,
                                           now: nat, now': nat, p: nat, call: Call)
    requires p < |threads| && ClearOk(threads, since, h, now, p, call) && now <= now' && Longer(h, h')
    ensures ClearOk(threads, since, h', now', p, call)
  {
    if call.Clearing? && ClearedSince(h, call.begun) {
      var i :| 0 <= i < |h| && Clears(h[i].event) && h[i].at >= call.begun;
      var k := EntryKept(h, h', i);
    }
    if call.Clearing? && OwnCleared(h, call.begun) {
      var i :| 0 <= i < |h| && Clears(h[i].event) && h[i].begun == call.begun;
      var k := EntryKept(h, h', i);
    }
  }

  lemma {:induction false} ClearsKept<K, V>(s: System<K, V>, s': System<K, V>)
    requires ClearsOk(s) && s'.core.threads == s.core.threads && s'.begun == s.begun
    requires s'.now >= s.now && Longer(s.history, s'.history) && |s'.calls| == |s.calls|
    requires forall p :: 0 <= p < |s.calls| && s'.calls[p].Clearing? ==> s'.calls[p] == s.calls[p]
    ensures ClearsOk(s')
  {
    forall p: nat | p < |s.calls|
      ensures ClearOk(s'.core.threads, s'.begun[p], s'.history, s'.now, p, s'.calls[p])
    {
      ClearKept(s.core.threads, s.begun[p], s.history, s'.history, s.now, s'.now, p, s.calls[p]);
    }
  }

  // ------------------------------------------------------------- steps that answer nothing

  predicate Silent<K, V>(a: Action<K, V>) {
    !a.Write? && !a.Cancel? && !a.Publish?
  }

  /** What a step that answers nothing leaves alone. */
  ghost predicate Quiet<K, V>(s: State<K, V>, s': State<K, V>) {
    && TablesOk(s) && TablesOk(s') && |s.tables| <= |s'.tables|
    && s'.current == s.current && s'.overtaken == s.overtaken && s'.abs == s.abs
  }

  lemma {:induction false} SilentIsQuiet<K, V>(s: State<K, V>, p: nat, a: Action<K, V>)
    requires Enabled(s, p, a) && Silent(a)
    ensures Quiet(s, Step(s, p, a))
  {
    if ByWriter(a) {
      assert Quiet(s, WriterStep(s, p, a));
    } else {
      assert Quiet(s, ResizerStep(s, p, a));
    }
  }

  /** Where a thread stands after a step that answers nothing. */
  ghost predicate Moved<K, V>(s: State<K, V>, th: Thread<K>, th': Thread<K>, a: Action<K, V>) {
    && (IsWriter(th') ==> !a.StartResize? && if a.LoadTable? then th'.t == s.current else IsWriter(th) && th'.t == th.t)
    && (HasCopy(th') ==> if a.NewTable? then IsResizer(th) && th'.dst == |s.tables| else HasCopy(th) && th'.dst == th.dst)
    && (IsResizer(th') ==> a.StartResize? || (!a.LoadTable? && IsResizer(th)))
  }

  lemma {:induction false} WriterMoved<K, V>(s: State<K, V>, p: nat, a: Action<K, V>)
    requires Enabled(s, p, a) && ByWriter(a)
    ensures p < |WriterStep(s, p, a).threads| && Moved(s, s.threads[p], WriterStep(s, p, a).threads[p], a)
  {
    var th := WriterStep(s, p, a).threads[p];
    if a.LoadTable? {
      assert th == Loaded(s.current, a.key);
    } else {
      WriterStays(s, p, a);
    }
  }

  lemma {:induction false} WriterStays<K, V>(s: State<K, V>, p: nat, a: Action<K, V>)
    requires Enabled(s, p, a) && ByWriter(a) && !a.LoadTable?
    ensures p < |WriterStep(s, p, a).threads|
    ensures var th := WriterStep(s, p, a).threads[p];
      th.Idle? || (IsWriter(th) && IsWriter(s.threads[p]) && th.t == s.threads[p].t)
  {
  }

  lemma {:induction false} ResizerMoved<K, V>(s: State<K, V>, p: nat, a: Action<K, V>)
    requires Enabled(s, p, a) && !ByWriter(a)
    ensures p < |ResizerStep(s, p, a).threads| && Moved(s, s.threads[p], ResizerStep(s, p, a).threads[p], a)
  {
    if a.StartResize? || a.NewTable? {
      ResizerStarts(s, p, a);
      StartsMoved(s, s.threads[p], ResizerStep(s, p, a).threads[p], a);
    } else {
      ResizerStays(s, p, a);
      StaysMoved(s, s.threads[p], ResizerStep(s, p, a).threads[p], a);
    }
  }

  lemma {:induction false} StartsMoved<K, V>(s: State<K, V>, th: Thread<K>, th': Thread<K>, a: Action<K, V>)
    requires a.StartResize? || a.NewTable?
    requires if a.StartResize? then th'.Started? else IsResizer(th) && HasCopy(th') && th'.dst == |s.tables|
    ensures Moved(s, th, th', a)
  {
  }

  lemma {:induction false} StaysMoved<K, V>(s: State<K, V>, th: Thread<K>, th': Thread<K>, a: Action<K, V>)
    requires !a.StartResize? && !a.NewTable? && !ByWriter(a) && IsResizer(th)
    requires th'.Idle? || th'.Published? || (HasCopy(th') && HasCopy(th) && th'.dst == th.dst)
    ensures Moved(s, th, th', a)
  {
  }

  lemma {:induction false} ResizerStarts<K, V>(s: State<K, V>, p: nat, a: Action<K, V>)
    requires Enabled(s, p, a) && (a.StartResize? || a.NewTable?)
    ensures p < |ResizerStep(s, p, a).threads|
    ensures var th := ResizerStep(s, p, a).threads[p];
      if a.StartResize? then th.Started? else IsResizer(s.threads[p]) && HasCopy(th) && th.dst == |s.tables|
  {
  }

  lemma {:induction false} ResizerStays<K, V>(s: State<K, V>, p: nat, a: Action<K, V>)
    requires Enabled(s, p, a) && !ByWriter(a) && !a.StartResize? && !a.NewTable?
    ensures p < |ResizerStep(s, p, a).threads| && IsResizer(s.threads[p])
    ensures var th := ResizerStep(s, p, a).threads[p];
      th.Idle? || th.Published? || (HasCopy(th) && HasCopy(s.threads[p]) && th.dst == s.threads[p].dst)
  {
  }

  lemma {:induction false} ThreadMoved<K, V>(s: State<K, V>, p: nat, a: Action<K, V>)
    requires Enabled(s, p, a)
    ensures p < |Step(s, p, a).threads| && Moved(s, s.threads[p], Step(s, p, a).threads[p], a)
  {
    if ByWriter(a) {
      WriterMoved(s, p, a);
    } else {
      ResizerMoved(s, p, a);
    }
  }

  lemma {:induction false} SilentHistory<K(!new), V>(s: System<K, V>, p: nat, a: Action<K, V>)
    requires SystemOk(s) && CanTake(s, p, a) && Silent(a)
    ensures HistoryOk(Taken(s, p, a))
  {
    var s' := Taken(s, p, a);
    SilentIsQuiet(s.core, p, a);
    forall u: nat | Gone(s.history, u)
      ensures GoneOk(s', u)
    {
      assert GoneOk(s, u);
      OnlyWritesChange(s.core, p, a, u);
    }
    assert s'.history == s.history;
  }

  lemma {:induction false} FreshIsNotGone<K, V>(s: System<K, V>)
    requires HistoryOk(s)
    ensures !Gone(s.history, |s.core.tables|)
  {
    if Gone(s.history, |s.core.tables|) {
      GoneAt(s, |s.core.tables|);
      assert false;
    }
  }

  /** A table in use stays in use while the history and the current table stay the same. */
  lemma {:induction false} QuietUse<K, V>(s: System<K, V>, s': System<K, V>, t: nat, begun: nat)
    requires InUse(s, t, begun) && Quiet(s.core, s'.core) && s'.history == s.history && s'.now == s.now + 1
    ensures InUse(s', t, begun)
  {
  }

  lemma {:induction false} QuietCall<K, V>(s: System<K, V>, s': System<K, V>, th: Thread<K>, begun: nat)
    requires CallOk(s, th, begun) && Quiet(s.core, s'.core) && s'.history == s.history && s'.now == s.now + 1
    ensures CallOk(s', th, begun)
  {
    if IsWriter(th) {
      QuietUse(s, s', th.t, begun);
    }
  }

  /** The thread that moved. */
  lemma {:induction false} MovedCall<K, V>(s: System<K, V>, s': System<K, V>, th: Thread<K>, th': Thread<K>, a: Action<K, V>, begun: nat)
    requires CallOk(s, th, begun) && Quiet(s.core, s'.core) && s'.history == s.history && s'.now == s.now + 1
    requires Moved(s.core, th, th', a) && !Gone(s.history, |s.core.tables|)
    ensures CallOk(s', th', if a.LoadTable? || a.StartResize? then s.now else begun)
  {
    if IsWriter(th') && !a.LoadTable? {
      QuietUse(s, s', th.t, begun);
    }
  }

  lemma {:induction false} SilentCalls<K(!new), V>(s: System<K, V>, p: nat, a: Action<K, V>)
    requires SystemOk(s) && CanTake(s, p, a) && Silent(a)
    ensures CallsOk(Taken(s, p, a))
  {
    var s' := Taken(s, p, a);
    StepShape(s.core, p, a);
    SilentIsQuiet(s.core, p, a);
    ThreadMoved(s.core, p, a);
    FreshIsNotGone(s);
    forall q: nat | q < |s.begun|
      ensures CallOk(s', s'.core.threads[q], s'.begun[q])
    {
      assert CallOk(s, s.core.threads[q], s.begun[q]);
      if q == p {
        MovedCall(s, s', s.core.threads[p], s'.core.threads[p], a, s.begun[p]);
      } else {
        QuietCall(s, s', s.core.threads[q], s.begun[q]);
      }
    }
    forall r | 0 <= r < |s'.readers| && s'.readers[r].Looking?
      ensures InUse(s', s'.readers[r].t, s'.readers[r].begun)
    {
      QuietUse(s, s', s.readers[r].t, s.readers[r].begun);
    }
  }

  // ------------------------------------------------------------- steps that answer

  lemma {:induction false} WriteAnswers<K, V>(s: State<K, V>, p: nat, a: Action<K, V>, event: Event<K, V>)
    requires Enabled(s, p, a) && a.Write?
    requires var th := s.threads[p]; event == Wrote(th.key, a.value, Lookup(s.tables[th.t].contents, th.key))
    ensures Answers(s, Step(s, p, a), s.threads[p].t, event)
  {
    StepWrote(s, p, a);
  }

  lemma {:induction false} CancelAnswers<K, V>(s: State<K, V>, p: nat, a: Action<K, V>, event: Event<K, V>)
    requires Enabled(s, p, a) && a.Cancel? && event.Read?
    ensures Answers(s, Step(s, p, a), s.threads[p].t, event)
  {
  }

  /** The event of a writer that answers. */
  function EventOf<K, V>(s: State<K, V>, p: nat, a: Action<K, V>): Event<K, V>
    requires Enabled(s, p, a) && (a.Write? || a.Cancel?)
  {
    var th := s.threads[p];
    var before := Lookup(s.tables[th.t].contents, th.key);
    if a.Write? then Wrote(th.key, a.value, before) else Read(th.key, before)
  }

  lemma {:induction false} StepAnswers<K, V>(s: State<K, V>, p: nat, a: Action<K, V>)
    requires Enabled(s, p, a) && (a.Write? || a.Cancel?)
    ensures Answers(s, Step(s, p, a), s.threads[p].t, EventOf(s, p, a))
    ensures Fits(s.tables[s.threads[p].t].contents, EventOf(s, p, a))
  {
    if a.Write? {
      WriteAnswers(s, p, a, EventOf(s, p, a));
    } else {
      CancelAnswers(s, p, a, EventOf(s, p, a));
    }
  }

  lemma {:induction false} WriterCanRecord<K(!new), V>(s: System<K, V>, p: nat, a: Action<K, V>)
    requires SystemOk(s) && CanTake(s, p, a) && (a.Write? || a.Cancel?)
    ensures CanRecord(s, s.core.threads[p].t, EventOf(s.core, p, a), s.begun[p])
  {
    assert ThreadOk(s.core, p, s.core.threads[p]) && CallOk(s, s.core.threads[p], s.begun[p]);
  }

  lemma {:induction false} AnswerHistory<K(!new), V>(s: System<K, V>, p: nat, a: Action<K, V>)
    requires SystemOk(s) && CanTake(s, p, a) && (a.Write? || a.Cancel?)
    ensures HistoryOk(Taken(s, p, a))
  {
    WriterCanRecord(s, p, a);
    StepAnswers(s.core, p, a);
    var s' := AnsweredNext(s, p, a, s.core.threads[p].t, EventOf(s.core, p, a), s.begun[p], Step(s.core, p, a));
  }

  /** The state after a writer's answer, from its parts. */
  lemma {:induction false} AnsweredNext<K(!new), V>(s: System<K, V>, p: nat, a: Action<K, V>, t: nat, event: Event<K, V>, begun: nat,
                                                    core': State<K, V>) returns (s': System<K, V>)
    requires CanTake(s, p, a) && (a.Write? || a.Cancel?)
    requires t == s.core.threads[p].t && event == EventOf(s.core, p, a) && begun == s.begun[p] && core' == Step(s.core, p, a)
    requires CanRecord(s, t, event, begun) && Answers(s.core, core', t, event)
    ensures s' == Taken(s, p, a) && HistoryOk(s')
  {
    s' := RecordKeeps(s, t, event, begun, core');
  }

  /** A call is all right after an answer is recorded, if it went on or ended. */
  lemma {:induction false} AnswerCall<K, V>(s: System<K, V>, s': System<K, V>, th: Thread<K>, th': Thread<K>, since: nat)
    requires Longer(s.history, s'.history) && s'.now == s.now + 1
    requires |s'.core.tables| >= |s.core.tables| && s'.core.current == s.core.current
    requires CallOk(s, th, since) && (th' == th || th'.Idle? || (th'.Written? && IsWriter(th) && th'.t == th.t))
    ensures CallOk(s', th', since)
  {
    if IsWriter(th') {
      StillInUse(s, s', th.t, since);
    } else if HasCopy(th') {
      PlacesKept(s.history, s'.history, th.dst);
    }
  }

  lemma {:induction false} AnswerCalls<K(!new), V>(s: System<K, V>, p: nat, a: Action<K, V>)
    requires SystemOk(s) && CanTake(s, p, a) && (a.Write? || a.Cancel?)
    ensures CallsOk(Taken(s, p, a))
  {
    var s' := Taken(s, p, a);
    var t, event := s.core.threads[p].t, EventOf(s.core, p, a);
    StepShape(s.core, p, a);
    StepAnswers(s.core, p, a);
    AnswerEnds(s.core, p, a);
    RecordedIsLonger(s.history, t, event, s.begun[p], s.now);
    forall q: nat | q < |s.begun|
      ensures CallOk(s', s'.core.threads[q], s'.begun[q])
    {
      assert CallOk(s, s.core.threads[q], s.begun[q]);
      AnswerCall(s, s', s.core.threads[q], s'.core.threads[q], s.begun[q]);
    }
    forall r | 0 <= r < |s'.readers| && s'.readers[r].Looking?
      ensures InUse(s', s'.readers[r].t, s'.readers[r].begun)
    {
      StillInUse(s, s', s.readers[r].t, s.readers[r].begun);
    }
  }

  lemma {:induction false} AnswerEnds<K, V>(s: State<K, V>, p: nat, a: Action<K, V>)
    requires Enabled(s, p, a) && (a.Write? || a.Cancel?)
    ensures p < |Step(s, p, a).threads| && IsWriter(s.threads[p])
    ensures var th := Step(s, p, a).threads[p]; th.Idle? || (th.Written? && th.t == s.threads[p].t)
  {
  }

  lemma {:induction false} LookKeeps<K(!new), V>(s: System<K, V>, r: nat, key: K)
    requires SystemOk(s) && Allowed(s, Look(r, key))
    ensures SystemOk(Next(s, Look(r, key)))
  {
    var s' := Next(s, Look(r, key));
    assert Quiet(s.core, s'.core);
    forall u: nat | Gone(s.history, u)
      ensures GoneOk(s', u)
    {
      GoneAt(s, u);
    }
    forall q: nat | q < |s.begun|
      ensures CallOk(s', s.core.threads[q], s.begun[q])
    {
      QuietCall(s, s', s.core.threads[q], s.begun[q]);
    }
    forall x | 0 <= x < |s'.readers| && s'.readers[x].Looking?
      ensures InUse(s', s'.readers[x].t, s'.readers[x].begun)
    {
      if x != r {
        QuietUse(s, s', s.readers[x].t, s.readers[x].begun);
      }
    }
    ClearsKept(s, s');
  }

  /** Readers and calls of Clear do not matter to the history. */
  lemma {:induction false} SameHistory<K, V>(s: System<K, V>, s': System<K, V>)
    requires HistoryOk(s) && s'.core == s.core && s'.history == s.history && s'.now >= s.now
    ensures HistoryOk(s')
  {
    forall u: nat | Gone(s'.history, u)
      ensures GoneOk(s', u)
    {
      GoneAt(s, u);
    }
  }

  /** The calls under way after an event is recorded, while no thread moves. */
  lemma {:induction false} AnsweredCalls<K, V>(s: System<K, V>, s': System<K, V>)
    requires CallsOk(s) && Longer(s.history, s'.history) && s'.now == s.now + 1
    requires s'.core == s.core && s'.begun == s.begun && |s'.readers| == |s.readers|
    requires forall x :: 0 <= x < |s.readers| && s'.readers[x].Looking? ==> s'.readers[x] == s.readers[x]
    ensures CallsOk(s')
  {
    forall q: nat | q < |s.begun|
      ensures CallOk(s', s.core.threads[q], s.begun[q])
    {
      AnswerCall(s, s', s.core.threads[q], s.core.threads[q], s.begun[q]);
    }
    forall x | 0 <= x < |s'.readers| && s'.readers[x].Looking?
      ensures InUse(s', s'.readers[x].t, s'.readers[x].begun)
    {
      StillInUse(s, s', s.readers[x].t, s.readers[x].begun);
    }
  }

  /** A reader may record what it has read. */
  lemma {:induction false} ReaderCanRecord<K(!new), V>(s: System<K, V>, r: nat) returns (event: Event<K, V>)
    requires SystemOk(s) && Allowed(s, Answer(r))
    ensures var Looking(t, key, begun) := s.readers[r];
      event == Read(key, Lookup(s.core.tables[t].contents, key)) && CanRecord(s, t, event, begun)
      && Answers(s.core, s.core, t, event)
  {
    var Looking(t, key, begun) := s.readers[r];
    event := Read(key, Lookup(s.core.tables[t].contents, key));
  }

  /** The history and the calls after a reader's answer. */
  lemma {:induction false} ReadNext<K, V>(s: System<K, V>, r: nat, t: nat, event: Event<K, V>, begun: nat) returns (s': System<K, V>)
    requires CanRecord(s, t, event, begun) && Answers(s.core, s.core, t, event) && CallsOk(s) && r < |s.readers|
    ensures s' == s.(readers := s.readers[r := Away], now := s.now + 1, history := Recorded(s.history, t, event, begun, s.now))
    ensures HistoryOk(s') && CallsOk(s') && Longer(s.history, s'.history)
  {
    var kept := RecordKeeps(s, t, event, begun, s.core);
    s' := kept.(readers := s.readers[r := Away]);
    SameHistory(kept, s');
    ReadCalls(s, s', r, t, event, begun);
  }

  lemma {:induction false} ReadCalls<K, V>(s: System<K, V>, s': System<K, V>, r: nat, t: nat, event: Event<K, V>, begun: nat)
    requires CallsOk(s) && r < |s.readers| && !event.Replaced? && s'.now == s.now + 1
    requires s'.core == s.core && s'.begun == s.begun && s'.readers == s.readers[r := Away]
    requires s'.history == Recorded(s.history, t, event, begun, s.now)
    ensures CallsOk(s') && Longer(s.history, s'.history)
  {
    RecordedIsLonger(s.history, t, event, begun, s.now);
    AnsweredCalls(s, s');
  }

  lemma {:induction false} AnswerKeeps<K(!new), V>(s: System<K, V>, r: nat) returns (s': System<K, V>)
    requires SystemOk(s) && Allowed(s, Answer(r))
    ensures s' == Next(s, Answer(r)) && SystemOk(s')
  {
    var event := ReaderCanRecord(s, r);
    s' := ReadNext(s, r, s.readers[r].t, event, s.readers[r].begun);
    ClearsKept(s, s');
  }

  // ------------------------------------------------------------- replacing the table

  /** What a publication changes. */
  ghost predicate Publishes<K, V>(s: State<K, V>, s': State<K, V>, p: nat) {
    && p < |s.threads| && s.threads[p].Ready?
    && var th := s.threads[p];
       && s'.tables == s.tables && s'.current == th.dst && s'.threads == s.threads[p := Published]
       && s'.abs == (if th.cleared then map[] else s.abs)
       && s'.overtaken == (if th.cleared then s.overtaken + {th.src} else s.overtaken)
  }

  lemma {:induction false} PublishIs<K, V>(s: State<K, V>, p: nat)
    requires Enabled(s, p, Publish)
    ensures Publishes(s, Step(s, p, Publish), p)
  {
  }

  lemma {:induction false} PublishGone<K, V>(s: System<K, V>, s': System<K, V>, p: nat, e: Entry<K, V>, u: nat)
    requires HistoryOk(s) && Globals(s.core) && Publishes(s.core, s'.core, p) && s.core.threads[p].src == s.core.current
    requires s'.history == s.history + [e] && e.event == Replaced(s.core.current, s.core.threads[p].cleared)
    requires s.core.threads[p].dst != s.core.current && !Gone(s.history, s.core.threads[p].dst) && Gone(s'.history, u)
    ensures GoneOk(s', u)
  {
    GoneAfter(s.history, e, u);
    if Gone(s.history, u) {
      GoneAt(s, u);
    }
  }

  lemma {:induction false} PublishOvertaken<K, V>(s: System<K, V>, s': System<K, V>, p: nat, e: Entry<K, V>, u: nat)
    requires HistoryOk(s) && Publishes(s.core, s'.core, p) && s.core.threads[p].src == s.core.current
    requires s'.history == s.history + [e] && e.event == Replaced(s.core.current, s.core.threads[p].cleared)
    requires u in s'.core.overtaken
    ensures Gone(s'.history, u)
  {
    GoneAfter(s.history, e, u);
  }

  lemma {:induction false} PublishedHistory<K, V>(s: System<K, V>, s': System<K, V>, p: nat, e: Entry<K, V>)
    requires HistoryOk(s) && Globals(s.core) && Publishes(s.core, s'.core, p) && s.core.threads[p].src == s.core.current
    requires s'.history == s.history + [e] && e.event == Replaced(s.core.current, s.core.threads[p].cleared)
    requires s.core.threads[p].dst != s.core.current && !Gone(s.history, s.core.threads[p].dst)
    requires e.begun <= e.at == e.ended == s.now && s'.now == s.now + 1
    ensures HistoryOk(s')
  {
    ReplacedHistory(s.history, e, s.now);
    forall u: nat | Gone(s'.history, u)
      ensures GoneOk(s', u)
    {
      PublishGone(s, s', p, e, u);
    }
    forall u | u in s'.core.overtaken
      ensures Gone(s'.history, u)
    {
      PublishOvertaken(s, s', p, e, u);
    }
  }

  lemma {:induction false} PublishHistory<K(!new), V>(s: System<K, V>, p: nat)
    requires SystemOk(s) && CanTake(s, p, Publish)
    ensures HistoryOk(Taken(s, p, Publish))
  {
    var th := s.core.threads[p];
    assert ThreadOk(s.core, p, th);
    PublishIs(s.core, p);
    var e := Entry<K, V>.Entry(Replaced(s.core.current, th.cleared), s.begun[p], s.now, s.now);
    PublishedHistory(s, Taken(s, p, Publish), p, e);
  }

  lemma {:induction false} CurrentIsNotGone<K, V>(s: System<K, V>)
    requires HistoryOk(s)
    ensures !Gone(s.history, s.core.current)
  {
    if Gone(s.history, s.core.current) {
      GoneAt(s, s.core.current);
      assert false;
    }
  }

  /** A table in use stays in use when the current one is replaced: if it is that one, its call
      began before. */
  lemma {:induction false} UseAfterPublish<K, V>(s: System<K, V>, s': System<K, V>, e: Entry<K, V>, u: nat, since: nat)
    requires InUse(s, u, since) && e.event.Replaced? && e.event.t == s.core.current && e.at == s.now
    requires s'.history == s.history + [e] && s'.now == s.now + 1 && |s'.core.tables| == |s.core.tables|
    requires !Gone(s.history, s.core.current)
    ensures InUse(s', u, since)
  {
    GoneAfter(s.history, e, u);
  }

  lemma {:induction false} PublishCalls<K(!new), V>(s: System<K, V>, p: nat)
    requires SystemOk(s) && CanTake(s, p, Publish)
    ensures CallsOk(Taken(s, p, Publish))
  {
    var s', th := Taken(s, p, Publish), s.core.threads[p];
    PublishIs(s.core, p);
    CurrentIsNotGone(s);
    var e := Entry<K, V>.Entry(Replaced(s.core.current, th.cleared), s.begun[p], s.now, s.now);
    forall q: nat | q < |s.begun|
      ensures CallOk(s', s'.core.threads[q], s'.begun[q])
    {
      assert CallOk(s, s.core.threads[q], s.begun[q]);
      if q != p {
        assert PairOk(s.core, s.core.threads[p], s.core.threads[q]);
        if IsWriter(s.core.threads[q]) {
          UseAfterPublish(s, s', e, s.core.threads[q].t, s.begun[q]);
        }
      }
    }
    forall r | 0 <= r < |s'.readers| && s'.readers[r].Looking?
      ensures InUse(s', s'.readers[r].t, s'.readers[r].begun)
    {
      UseAfterPublish(s, s', e, s.readers[r].t, s.readers[r].begun);
    }
  }

  // ------------------------------------------------------------- calls of Clear

  /** An entry is still there after a step. */
  lemma {:induction false} TakenEntry<K, V>(s: System<K, V>, p: nat, a: Action<K, V>, j: nat) returns (k: nat)
    requires CanTake(s, p, a) && j < |s.history|
    ensures k < |HistoryAfter(s, p, a)| && HistoryAfter(s, p, a)[k] == s.history[j]
  {
    if a.Write? || a.Cancel? {
      RecordedIsLonger(s.history, s.core.threads[p].t, EventOf(s.core, p, a), s.begun[p], s.now);
      k := EntryKept(s.history, HistoryAfter(s, p, a), j);
    } else {
      k := j;
    }
  }

  /** A thread that clears goes on to clear, or has just published its table. */
  lemma {:induction false} ClearingStep<K, V>(s: System<K, V>, r: nat, a: Action<K, V>)
    requires CanTake(s, r, a) && ForClear(s.core.threads[r])
    ensures var s' := Taken(s, r, a);
      && r < |s'.core.threads| && s'.begun == s.begun
      && (ForClear(s'.core.threads[r]) ||
          s'.history == s.history + [Entry(Replaced(s.core.current, true), s.begun[r], s.now, s.now)])
  {
    assert !Lowers(a) by {
      if Lowers(a) {
        LoweringThread(s.core, r, a);
      }
    }
    OwnStep(s.core, r, a);
  }

  lemma {:induction false} StillCleared<K, V>(s: System<K, V>, p: nat, a: Action<K, V>, since: nat)
    requires CanTake(s, p, a)
    ensures ClearedSince(s.history, since) ==> ClearedSince(HistoryAfter(s, p, a), since)
    ensures OwnCleared(s.history, since) ==> OwnCleared(HistoryAfter(s, p, a), since)
  {
    if ClearedSince(s.history, since) {
      var i :| 0 <= i < |s.history| && Clears(s.history[i].event) && s.history[i].at >= since;
      var k := TakenEntry(s, p, a, i);
    }
    if OwnCleared(s.history, since) {
      var i :| 0 <= i < |s.history| && Clears(s.history[i].event) && s.history[i].begun == since;
      var k := TakenEntry(s, p, a, i);
    }
  }

  /** A thread r that clears still does, or the map has just been cleared. */
  lemma {:induction false} StillClearing<K, V>(s: System<K, V>, p: nat, a: Action<K, V>, r: nat, since: nat)
    requires CanTake(s, p, a) && r < |s.core.threads| == |s.begun| && ForClear(s.core.threads[r]) && since <= s.now
    ensures var s' := Taken(s, p, a);
      && r < |s'.core.threads| && r < |s'.begun| && s'.begun[r] == s.begun[r]
      && (ForClear(s'.core.threads[r]) || (ClearedSince(s'.history, since) && OwnCleared(s'.history, s.begun[r])))
  {
    StepShape(s.core, p, a);
    if p == r {
      ClearingStep(s, p, a);
      var h' := Taken(s, p, a).history;
      if !ForClear(Taken(s, p, a).core.threads[r]) {
        assert Clears(h'[|s.history|].event) && h'[|s.history|].at == s.now && h'[|s.history|].begun == s.begun[r];
      }
    }
  }

  lemma {:induction false} TakenClear<K(!new), V>(s: System<K, V>, p: nat, a: Action<K, V>, q: nat)
    requires ClearsOk(s) && CanTake(s, p, a) && q < |s.calls| && (s.calls[p].Clearing? ==> s.calls[p].via == Some(p))
    ensures var s' := Taken(s, p, a);
      |s'.core.threads| == |s'.begun| == |s.calls| && ClearOk(s'.core.threads, s'.begun[q], s'.history, s'.now, q, s.calls[q])
  {
    var call := s.calls[q];
    StepShape(s.core, p, a);
    if call.Clearing? && call.via.Some? && call.via.value < |s.core.threads| {
      StillCleared(s, p, a, call.begun);
      if ForClear(s.core.threads[call.via.value]) {
        StillClearing(s, p, a, call.via.value, call.begun);
      }
    }
  }

  lemma {:induction false} TakenClears<K(!new), V>(s: System<K, V>, p: nat, a: Action<K, V>)
    requires ClearsOk(s) && CanTake(s, p, a) && (s.calls[p].Clearing? ==> s.calls[p].via == Some(p))
    ensures ClearsOk(Taken(s, p, a))
  {
    forall q: nat | q < |s.calls|
      ensures var s' := Taken(s, p, a);
        |s'.core.threads| == |s'.begun| == |s.calls| && ClearOk(s'.core.threads, s'.begun[q], s'.history, s'.now, q, s.calls[q])
    {
      TakenClear(s, p, a, q);
    }
    StepShape(s.core, p, a);
  }

  lemma {:induction false} CallClearKeeps<K(!new), V>(s: System<K, V>, p: nat)
    requires SystemOk(s) && Allowed(s, CallClear(p))
    ensures SystemOk(Next(s, CallClear(p)))
  {
    if s.core.resizing {
      var _ := WaitKeeps(s, p);
    } else {
      var _ := StartKeeps(s, p);
    }
  }

  /** A Clear that meets another resize. */
  lemma {:induction false} WaitKeeps<K(!new), V>(s: System<K, V>, p: nat) returns (s': System<K, V>)
    requires SystemOk(s) && Allowed(s, CallClear(p)) && s.core.resizing
    ensures s' == Next(s, CallClear(p)) && SystemOk(s')
  {
    var call := Clearing(s.now, Clearer(s.core.threads));
    s' := s.(now := s.now + 1, calls := s.calls[p := call]);
    SameHistory(s, s');
    AnsweredCalls(s, s');
    ClearsKept(s, s.(now := s.now + 1));
    assert ClearOk(s.core.threads, s.begun[p], s.history, s.now + 1, p, call);
  }

  /** A Clear that starts its own. */
  lemma {:induction false} StartKeeps<K(!new), V>(s: System<K, V>, p: nat) returns (s': System<K, V>)
    requires SystemOk(s) && Allowed(s, CallClear(p)) && !s.core.resizing
    ensures s' == Next(s, CallClear(p)) && SystemOk(s')
  {
    var taken := Taken(s, p, StartResize(Clear));
    TakeKeeps(s, p, StartResize(Clear));
    StartedClear(s, p);
    s' := CallNoted(taken, p, Clearing(s.now, Some(p)));
  }

  lemma {:induction false} StartedClear<K, V>(s: System<K, V>, p: nat)
    requires CanTake(s, p, StartResize(Clear))
    ensures var taken := Taken(s, p, StartResize(Clear));
      p < |taken.core.threads| && p < |taken.begun| && taken.calls == s.calls
      && ClearOk(taken.core.threads, taken.begun[p], taken.history, taken.now, p, Clearing(s.now, Some(p)))
  {
  }

  lemma {:induction false} CallNoted<K(!new), V>(s: System<K, V>, p: nat, call: Call) returns (s': System<K, V>)
    requires SystemOk(s) && p < |s.calls| && ClearOk(s.core.threads, s.begun[p], s.history, s.now, p, call)
    ensures s' == s.(calls := s.calls[p := call]) && SystemOk(s')
  {
    s' := s.(calls := s.calls[p := call]);
    SameHistory(s, s');
    forall q: nat | q < |s.begun|
      ensures CallOk(s', s.core.threads[q], s.begun[q])
    {
      assert CallOk(s, s.core.threads[q], s.begun[q]);
    }
  }

  lemma {:induction false} ServedKeeps<K, V>(s: System<K, V>, s': System<K, V>, begun: nat)
    requires HistoryOk(s) && begun < s.now && s'.core == s.core && s'.now == s.now + 1
    requires s'.history == Served(s.history, begun, s.now)
    ensures HistoryOk(s')
  {
    ServedHistory(s.history, begun, s.now);
    ServedIsLonger(s.history, begun, s.now);
    forall u: nat | Gone(s'.history, u)
      ensures GoneOk(s', u)
    {
      PlacesKept(s.history, s'.history, u);
      GoneAt(s, u);
      ServedBefore(s.history, begun, s.now, u);
    }
    forall u | u in s.core.overtaken
      ensures Gone(s'.history, u)
    {
      PlacesKept(s.history, s'.history, u);
    }
  }

  /** A Clear returns. */
  lemma {:induction false} ReturnKeeps<K(!new), V>(s: System<K, V>, p: nat) returns (s': System<K, V>)
    requires SystemOk(s) && Allowed(s, Return(p))
    ensures s' == Next(s, Return(p)) && SystemOk(s')
  {
    var call := s.calls[p];
    var h' := if call.via == Some(p) then s.history else Served(s.history, call.begun, s.now);
    s' := s.(now := s.now + 1, calls := s.calls[p := NoCall], history := h');
    assert ClearOk(s.core.threads, s.begun[p], s.history, s.now, p, call);
    ServedIsLonger(s.history, call.begun, s.now);
    if call.via == Some(p) {
      SameHistory(s, s');
    } else {
      ServedKeeps(s, s', call.begun);
    }
    AnsweredCalls(s, s');
    ClearsKept(s, s');
  }

  // ------------------------------------------------------------- every run

  lemma {:induction false} TakeKeeps<K(!new), V>(s: System<K, V>, p: nat, a: Action<K, V>)
    requires SystemOk(s) && CanTake(s, p, a) && (s.calls[p].Clearing? ==> s.calls[p].via == Some(p))
    ensures SystemOk(Taken(s, p, a))
  {
    StepKeepsInv(s.core, p, a);
    TakenClears(s, p, a);
    if a.Write? || a.Cancel? {
      AnswerHistory(s, p, a);
      AnswerCalls(s, p, a);
    } else if a.Publish? {
      PublishHistory(s, p);
      PublishCalls(s, p);
    } else {
      SilentHistory(s, p, a);
      SilentCalls(s, p, a);
    }
  }

  lemma {:induction false} NextKeeps<K(!new), V>(s: System<K, V>, m: Move<K, V>)
    requires SystemOk(s) && Allowed(s, m)
    ensures SystemOk(Next(s, m))
  {
    match m
    case Take(p, a) => TakeKeeps(s, p, a);
    case Look(r, key) => LookKeeps(s, r, key);
    case Answer(r) => var _ := AnswerKeeps(s, r);
    case CallClear(p) => CallClearKeeps(s, p);
    case Return(p) => var _ := ReturnKeeps(s, p);
  }

  predicate Plays<K, V>(s: System<K, V>, moves: seq<Move<K, V>>)
    decreases |moves|
  {
    moves == [] || (Allowed(s, moves[0]) && Plays(Next(s, moves[0]), moves[1..]))
  }

  function Played<K, V>(s: System<K, V>, moves: seq<Move<K, V>>): System<K, V>
    requires Plays(s, moves)
    decreases |moves|
  {
    if moves == [] then s else Played(Next(s, moves[0]), moves[1..])
  }

  lemma {:induction false} PlayedOk<K(!new), V>(s: System<K, V>, moves: seq<Move<K, V>>)
    requires SystemOk(s) && Plays(s, moves)
    ensures SystemOk(Played(s, moves))
    decreases |moves|
  {
    if moves != [] {
      NextKeeps(s, moves[0]);
      PlayedOk(Next(s, moves[0]), moves[1..]);
    }
  }

  lemma {:induction false} StartOk<K(!new), V>(s: System<K, V>)
    requires Start(s)
    ensures SystemOk(s)
  {
    InitInv(s.core);
    assert forall t :: !Gone(s.history, t);
    assert forall p :: 0 <= p < |s.calls| ==> !s.calls[p].Clearing?;
  }

  /** Calls that do not overlap stand in the order they were made. */
  lemma {:induction false} RealTime<K, V>(h: seq<Entry<K, V>>, now: nat, i: nat, j: nat)
    requires InOrder(h, now) && i < |h| && j < |h| && h[i].ended < h[j].begun
    ensures i < j
  {
    assert h[i].at <= h[i].ended && h[j].begun <= h[j].at;
  }

  /** Every run of any number of writers, resizers, readers and calls of Clear has the history of a
      plain map, which ends with what the current table holds. Each event takes effect between
      the first and the last step of its call, and calls that do not overlap stand in the history
      in the order they were made. Every call that answers is in it (EachAnswerOnce), and every
      call of Clear but those that are lost (ClearTakesEffect, ClearIsServedOrLost). */
  lemma {:induction false} Linearizable<K(!new), V>(s: System<K, V>, moves: seq<Move<K, V>>)
    requires Start(s) && Plays(s, moves)
    ensures var end := Played(s, moves);
      && Legal(end.history)
      && end.core.current < |end.core.tables| && Replay(end.history) == end.core.tables[end.core.current].contents
      && (forall i :: 0 <= i < |end.history| ==> end.history[i].begun <= end.history[i].at <= end.history[i].ended)
      && (forall i, j :: 0 <= i < |end.history| && 0 <= j < |end.history| && end.history[i].ended < end.history[j].begun ==> i < j)
  {
    StartOk(s);
    PlayedOk(s, moves);
    var end := Played(s, moves);
    forall i: nat, j: nat | i < |end.history| && j < |end.history| && end.history[i].ended < end.history[j].begun
      ensures i < j
    {
      RealTime(end.history, end.now, i, j);
    }
  }

  // ------------------------------------------------------------- which calls of Clear take effect

  predicate NoReturn<K, V>(moves: seq<Move<K, V>>, p: nat) {
    forall i :: 0 <= i < |moves| ==> moves[i] != Return(p)
  }

  /** A call of Clear goes on until it returns. */
  lemma {:induction false} CallGoesOn<K, V>(s: System<K, V>, moves: seq<Move<K, V>>, p: nat)
    requires Plays(s, moves) && NoReturn(moves, p) && p < |s.calls| && s.calls[p].Clearing?
    ensures p < |Played(s, moves).calls| && Played(s, moves).calls[p] == s.calls[p]
    decreases |moves|
  {
    if moves != [] {
      assert moves[0] != Return(p);
      CallGoesOn(Next(s, moves[0]), moves[1..], p);
    }
  }

  /** The emptying of a call that began at a moment. */
  ghost predicate EmptiedBy<K, V>(h: seq<Entry<K, V>>, begun: nat) {
    exists i :: 0 <= i < |h| && (Clears(h[i].event) || h[i].event == Emptied) && h[i].begun == begun
  }

  lemma {:induction false} ReturnEmptied<K(!new), V>(s: System<K, V>, p: nat)
    requires SystemOk(s) && Allowed(s, Return(p)) && s.calls[p].via.Some?
    ensures EmptiedBy(Next(s, Return(p)).history, s.calls[p].begun)
  {
    var call := s.calls[p];
    assert ClearOk(s.core.threads, s.begun[p], s.history, s.now, p, call);
    assert forall q: nat :: q < |s.core.threads| && ForClear(s.core.threads[q]) ==> ThreadOk(s.core, q, s.core.threads[q]);
    var h' := Next(s, Return(p)).history;
    if call.via == Some(p) {
      assert OwnCleared(h', call.begun);
    } else {
      var i := ClearedAt(s.history, call.begun);
      assert h'[i + 1].event == Emptied && h'[i + 1].begun == call.begun;
    }
  }

  /** A call of Clear that finds the flag down, or meets a Clear that has not published its table
      yet, has emptied the map when it returns: its event is in the history. */
  lemma {:induction false} ClearTakesEffect<K(!new), V>(s: System<K, V>, p: nat, moves: seq<Move<K, V>>)
    requires SystemOk(s) && Allowed(s, CallClear(p)) && (!s.core.resizing || ClearPending(s.core))
    requires Plays(Next(s, CallClear(p)), moves) && NoReturn(moves, p)
    requires Allowed(Played(Next(s, CallClear(p)), moves), Return(p))
    ensures EmptiedBy(Next(Played(Next(s, CallClear(p)), moves), Return(p)).history, s.now)
  {
    var called := Next(s, CallClear(p));
    CallClearKeeps(s, p);
    PlayedOk(called, moves);
    CallGoesOn(called, moves, p);
    ReturnEmptied(Played(called, moves), p);
  }

  /** A call of Clear that meets another resize is put into the history when it returns if and only
      if a Clear was published while it waited; otherwise it is lost. */
  lemma {:induction false} ClearIsServedOrLost<K(!new), V>(s: System<K, V>, p: nat, moves: seq<Move<K, V>>)
    requires SystemOk(s) && Allowed(s, CallClear(p)) && s.core.resizing
    requires Plays(Next(s, CallClear(p)), moves) && NoReturn(moves, p)
    requires Allowed(Played(Next(s, CallClear(p)), moves), Return(p))
    ensures var end := Played(Next(s, CallClear(p)), moves);
      Next(end, Return(p)).history != end.history <==> ClearedSince(end.history, s.now)
  {
    var called := Next(s, CallClear(p));
    CallGoesOn(called, moves, p);
    var end := Played(called, moves);
    ServedDiffers(end.history, s.now, end.now);
    assert !(end.calls[p].via == Some(p));
  }

  lemma {:induction false} ServedDiffers<K, V>(h: seq<Entry<K, V>>, begun: nat, now: nat)
    ensures Served(h, begun, now) != h <==> ClearedSince(h, begun)
  {
    var i := ClearedAt(h, begun);
    if i < |h| {
      assert |Served(h, begun, now)| == |h| + 1;
    }
  }

  // ------------------------------------------------------------- what is in the history

  /** The event of a move that answers, and the table it was answered from. */
  ghost predicate Recording<K, V>(s: System<K, V>, m: Move<K, V>, event: Event<K, V>, begun: nat)
    requires Allowed(s, m)
  {
    match m
    case CallClear(_) => false
    case Return(p) => begun == s.calls[p].begun && s.calls[p].via != Some(p) && ClearedSince(s.history, begun) && event == Emptied
    case Take(p, a) =>
      var th := s.core.threads[p];
      && begun == s.begun[p]
      && (if a.Write? then event == Wrote(th.key, a.value, Lookup(s.core.tables[th.t].contents, th.key))
          else if a.Cancel? then event == Read(th.key, Lookup(s.core.tables[th.t].contents, th.key))
          else a.Publish? && event == Replaced(s.core.current, th.cleared))
    case Look(_, _) => false
    case Answer(r) =>
      var Looking(t, key, since) := s.readers[r];
      begun == since && event == Read(key, Lookup(s.core.tables[t].contents, key))
  }

  /** Each answer is recorded, once, and no entry is ever lost or changed. */
  lemma {:induction false} EachAnswerOnce<K, V>(s: System<K, V>, m: Move<K, V>, event: Event<K, V>, begun: nat) returns (i: nat, at: nat)
    requires Allowed(s, m) && Recording(s, m, event, begun)
    ensures i <= |s.history| && Next(s, m).history == Inserted(s.history, i, Entry(event, begun, at, s.now))
  {
    var h := s.history;
    if m.Take? && m.a.Publish? {
      i := |h|;
    } else if m.Return? {
      i := ClearedAt(h, begun) + 1;
      at := h[i - 1].at;
      return;
    } else {
      i := PlaceOf(h, if m.Take? then s.core.threads[m.p].t else s.readers[m.r].t);
    }
    at := if i < |h| then h[i].at else s.now;
  }

  lemma {:induction false} NothingElseRecorded<K, V>(s: System<K, V>, m: Move<K, V>)
    requires Allowed(s, m) && !m.Answer? && (m.Take? ==> Silent(m.a))
    requires m.Return? ==> s.calls[m.p].via == Some(m.p) || !ClearedSince(s.history, s.calls[m.p].begun)
    ensures Next(s, m).history == s.history
  {
  }
}
