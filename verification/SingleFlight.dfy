/** Sharing of calls by key as a system of interleaved steps. A step is what one goroutine
    does while it holds the mutex, or the return of the function it runs in between. Results
    are not stored, and functions return normally. */
module SingleFlight {
  import opened Options

  type Key = string

  /** The function runs; it has returned; its result has been handed out. */
  datatype Phase<V> = Running | Returned(val: V) | Finished(val: V)

  /** Who takes part in a call: a goroutine in Do, or a channel made by DoChan. */
  datatype Member = ByTask(task: nat) | ByChan(chan: nat)

  /** A call, with the duplicates and channels it counts. The members, and whether the key was
      forgotten while the call ran, are recorded for the proofs only. */
  datatype Call<V> = Call(key: Key, phase: Phase<V>, dups: nat, chans: seq<nat>, members: seq<Member>, forgotten: bool)

  datatype Answer<V> = Answer(val: V, shared: bool)

  /** A channel with room for one answer: what was ever sent, and how much was received. */
  datatype Chan<V> = Chan(call: nat, sent: seq<Answer<V>>, received: nat)

  /** A goroutine in Do runs the call, waits for it, or has its answer. */
  datatype Task<V> = Task(call: nat, owner: bool, answer: Option<Answer<V>>)

  /** Calls, channels and tasks are numbered in the order they are made. */
  datatype State<V> = State(table: map<Key, nat>, calls: seq<Call<V>>, chans: seq<Chan<V>>, tasks: seq<Task<V>>)

  datatype Op<V> =
    | OpDo(key: Key)
    | OpDoChan(key: Key)
    | OpReturn(call: nat, val: V)
    | OpFinish(call: nat)
    | OpResume(task: nat)
    | OpReceive(chan: nat)
    | OpForget(key: Key)
    | OpReset

  function Start<V>(): State<V> {
    State(map[], [], [], [])
  }

  // ------------------------------------------------------------- steps

  function Join<V>(c: Call<V>, m: Member): Call<V> {
    c.(dups := c.dups + 1, chans := if m.ByChan? then c.chans + [m.chan] else c.chans, members := c.members + [m])
  }

  function NewCall<V>(key: Key, m: Member): Call<V> {
    Call(key, Running, 0, if m.ByChan? then [m.chan] else [], [m], false)
  }

  /** Enter Do: join the call in the table, or put a new one there and run it. */
  function EnterDo<V>(s: State<V>, key: Key): Option<State<V>> {
    var m := ByTask(|s.tasks|);
    if key in s.table then
      var c := s.table[key];
      if c >= |s.calls| then None
      else Some(s.(calls := s.calls[c := Join(s.calls[c], m)], tasks := s.tasks + [Task(c, false, None)]))
    else
      var c := |s.calls|;
      Some(s.(table := s.table[key := c], calls := s.calls + [NewCall(key, m)], tasks := s.tasks + [Task(c, true, None)]))
  }

  function EnterDoChan<V>(s: State<V>, key: Key): Option<State<V>> {
    var m := ByChan(|s.chans|);
    if key in s.table then
      var c := s.table[key];
      if c >= |s.calls| then None
      else Some(s.(calls := s.calls[c := Join(s.calls[c], m)], chans := s.chans + [Chan(c, [], 0)]))
    else
      var c := |s.calls|;
      Some(s.(table := s.table[key := c], calls := s.calls + [NewCall(key, m)], chans := s.chans + [Chan(c, [], 0)]))
  }

  /** The function of a call returns. */
  function FnReturn<V>(s: State<V>, c: nat, val: V): Option<State<V>> {
    if c >= |s.calls| || !s.calls[c].phase.Running? then None
    else Some(s.(calls := s.calls[c := s.calls[c].(phase := Returned(val))]))
  }

  /** Send an answer to channels one after the other; None if a send would block. */
  function SendAll<V>(chans: seq<Chan<V>>, ids: seq<nat>, a: Answer<V>): Option<seq<Chan<V>>>
    decreases |ids|
  {
    if ids == [] then Some(chans)
    else
      var id := ids[0];
      if id >= |chans| || |chans[id].sent| > chans[id].received then None
      else SendAll(chans[id := chans[id].(sent := chans[id].sent + [a])], ids[1..], a)
  }

  function AnswerOf<V>(c: Call<V>): Answer<V>
    requires !c.phase.Running?
  {
    Answer(c.phase.val, c.dups > 0)
  }

  /** A call whose function has returned removes its own entry, if it is still there, and
      answers its channels, holding the mutex. */
  function Finish<V>(s: State<V>, c: nat): Option<State<V>> {
    if c >= |s.calls| || !s.calls[c].phase.Returned? then None
    else
      var call := s.calls[c];
      var table := if call.key in s.table && s.table[call.key] == c then s.table - {call.key} else s.table;
      var chans := SendAll(s.chans, call.chans, AnswerOf(call));
      if chans.None? then None
      else Some(s.(table := table, calls := s.calls[c := call.(phase := Finished(call.phase.val))], chans := chans.value))
  }

  /** A goroutine in Do gets its answer once its call has finished: a duplicate's is always
      shared, the owner's if there were duplicates. */
  function Resume<V>(s: State<V>, t: nat): Option<State<V>> {
    if t >= |s.tasks| || s.tasks[t].answer.Some? || s.tasks[t].call >= |s.calls| then None
    else
      var call := s.calls[s.tasks[t].call];
      if !call.phase.Finished? then None
      else
        var a := Answer(call.phase.val, if s.tasks[t].owner then call.dups > 0 else true);
        Some(s.(tasks := s.tasks[t := s.tasks[t].(answer := Some(a))]))
  }

  function Receive<V>(s: State<V>, ch: nat): Option<State<V>> {
    if ch >= |s.chans| || |s.chans[ch].sent| <= s.chans[ch].received then None
    else Some(s.(chans := s.chans[ch := s.chans[ch].(received := s.chans[ch].received + 1)]))
  }

  /** Record that calls whose entry is taken away are forgotten. */
  function Forgetting<V>(calls: seq<Call<V>>, gone: set<nat>): seq<Call<V>> {
    seq(|calls|, c requires 0 <= c < |calls| => if c in gone then calls[c].(forgotten := true) else calls[c])
  }

  function Forget<V>(s: State<V>, key: Key): State<V> {
    s.(table := s.table - {key}, calls := Forgetting(s.calls, if key in s.table then {s.table[key]} else {}))
  }

  function Reset<V>(s: State<V>): State<V> {
    s.(table := map[], calls := Forgetting(s.calls, s.table.Values))
  }

  /** One step, or None if it cannot be taken now. */
  function Step<V>(s: State<V>, op: Op<V>): Option<State<V>> {
    match op
    case OpDo(key) => EnterDo(s, key)
    case OpDoChan(key) => EnterDoChan(s, key)
    case OpReturn(c, val) => FnReturn(s, c, val)
    case OpFinish(c) => Finish(s, c)
    case OpResume(t) => Resume(s, t)
    case OpReceive(ch) => Receive(s, ch)
    case OpForget(key) => Some(Forget(s, key))
    case OpReset => Some(Reset(s))
  }

  // ------------------------------------------------------------- the invariant

  /** The table leads to the one unfinished call of each key that has not been forgotten. */
  ghost predicate TableOk<V>(s: State<V>) {
    && (forall k :: k in s.table ==> s.table[k] < |s.calls| && s.calls[s.table[k]].key == k
                                     && !s.calls[s.table[k]].phase.Finished? && !s.calls[s.table[k]].forgotten)
    && (forall c :: 0 <= c < |s.calls| && !s.calls[c].phase.Finished? && !s.calls[c].forgotten ==>
          s.calls[c].key in s.table && s.table[s.calls[c].key] == c)
  }

  /** A call counts its duplicates right, and has the channels among its members. */
  ghost predicate CallOk<V>(call: Call<V>) {
    && |call.members| == call.dups + 1
    && forall ch :: ch in call.chans <==> ByChan(ch) in call.members
  }

  ghost predicate Distinct(ids: seq<nat>) {
    forall i, j :: 0 <= i < j < |ids| ==> ids[i] != ids[j]
  }

  /** A channel belongs to one call, once, and was sent its answer when the call finished. */
  ghost predicate ChanOk<V>(ch: nat, chan: Chan<V>, calls: seq<Call<V>>) {
    && chan.call < |calls| && ch in calls[chan.call].chans && chan.received <= |chan.sent|
    && chan.sent == if calls[chan.call].phase.Finished? then [AnswerOf(calls[chan.call])] else []
  }

  ghost predicate TaskOk<V>(t: nat, task: Task<V>, calls: seq<Call<V>>) {
    && task.call < |calls| && ByTask(t) in calls[task.call].members
    && (!task.owner ==> calls[task.call].dups > 0)
    && (task.answer.Some? ==> calls[task.call].phase.Finished? && task.answer.value == AnswerOf(calls[task.call]))
  }

  /** The channels a call lists are its own, each listed once. */
  ghost predicate Lists<V>(c: nat, call: Call<V>, chans: seq<Chan<V>>) {
    && Distinct(call.chans)
    && forall i :: 0 <= i < |call.chans| ==> call.chans[i] < |chans| && chans[call.chans[i]].call == c
  }

  ghost predicate CallsOk<V>(s: State<V>) {
    forall c :: 0 <= c < |s.calls| ==> CallOk(s.calls[c]) && Lists(c, s.calls[c], s.chans)
  }

  ghost predicate ChansOk<V>(s: State<V>) {
    forall ch :: 0 <= ch < |s.chans| ==> ChanOk(ch, s.chans[ch], s.calls)
  }

  ghost predicate TasksOk<V>(s: State<V>) {
    forall t :: 0 <= t < |s.tasks| ==> TaskOk(t, s.tasks[t], s.calls)
  }

  ghost predicate Inv<V>(s: State<V>) {
    TableOk(s) && CallsOk(s) && ChansOk(s) && TasksOk(s)
  }

  // ------------------------------------------------------------- joining

  /** What stays true of a task or a channel when its call is joined by another member. */
  lemma JoinKeeps<V>(calls: seq<Call<V>>, c: nat, m: Member) returns (calls': seq<Call<V>>)
    requires c < |calls| && !calls[c].phase.Finished? && CallOk(calls[c])
    requires m.ByChan? ==> m.chan !in calls[c].chans
    ensures calls' == calls[c := Join(calls[c], m)] && CallOk(calls'[c])
    ensures forall ch: nat, chan: Chan<V> :: ChanOk(ch, chan, calls) ==> ChanOk(ch, chan, calls')
    ensures forall t: nat, task: Task<V> :: TaskOk(t, task, calls) ==> TaskOk(t, task, calls')
  {
    calls' := calls[c := Join(calls[c], m)];
  }

  lemma DoJoins<V>(s: State<V>, key: Key) returns (s': State<V>)
    requires Inv(s) && key in s.table
    ensures EnterDo(s, key) == Some(s') && Inv(s')
  {
    var c, m := s.table[key], ByTask(|s.tasks|);
    var calls' := JoinKeeps(s.calls, c, m);
    var task := Task(c, false, None);
    s' := s.(calls := calls', tasks := s.tasks + [task]);
    assert m in calls'[c].members by {
      assert calls'[c].members[|s.calls[c].members|] == m;
    }
    forall t | 0 <= t < |s'.tasks|
      ensures TaskOk(t, s'.tasks[t], calls')
    {
      if t < |s.tasks| {
        assert TaskOk(t, s.tasks[t], s.calls);
      }
    }
    forall ch | 0 <= ch < |s.chans|
      ensures ChanOk(ch, s.chans[ch], calls')
    {
      assert ChanOk(ch, s.chans[ch], s.calls);
    }
  }

  lemma DoChanJoins<V>(s: State<V>, key: Key) returns (s': State<V>)
    requires Inv(s) && key in s.table
    ensures EnterDoChan(s, key) == Some(s') && Inv(s')
  {
    var c, n := s.table[key], |s.chans|;
    assert Lists(c, s.calls[c], s.chans);
    var calls' := JoinKeeps(s.calls, c, ByChan(n));
    var chan: Chan<V> := Chan(c, [], 0);
    s' := s.(calls := calls', chans := s.chans + [chan]);
    assert calls'[c].chans[|s.calls[c].chans|] == n;
    forall d | 0 <= d < |calls'|
      ensures CallOk(calls'[d]) && Lists(d, calls'[d], s'.chans)
    {
      assert CallOk(s.calls[d]) && Lists(d, s.calls[d], s.chans);
    }
    forall ch | 0 <= ch < |s'.chans|
      ensures ChanOk(ch, s'.chans[ch], calls')
    {
      if ch < n {
        assert ChanOk(ch, s.chans[ch], s.calls);
      }
    }
    forall t | 0 <= t < |s.tasks|
      ensures TaskOk(t, s.tasks[t], calls')
    {
      assert TaskOk(t, s.tasks[t], s.calls);
    }
  }

  // ------------------------------------------------------------- starting a call

  lemma MoreCalls<V>(calls: seq<Call<V>>, call: Call<V>) returns (calls': seq<Call<V>>)
    ensures calls' == calls + [call]
    ensures forall ch: nat, chan: Chan<V> :: ChanOk(ch, chan, calls) ==> ChanOk(ch, chan, calls')
    ensures forall t: nat, task: Task<V> :: TaskOk(t, task, calls) ==> TaskOk(t, task, calls')
  {
    calls' := calls + [call];
  }

  lemma DoStarts<V>(s: State<V>, key: Key) returns (s': State<V>)
    requires Inv(s) && key !in s.table
    ensures EnterDo(s, key) == Some(s') && Inv(s')
  {
    var c, m := |s.calls|, ByTask(|s.tasks|);
    var call: Call<V> := NewCall(key, m);
    var calls' := MoreCalls(s.calls, call);
    s' := s.(table := s.table[key := c], calls := calls', tasks := s.tasks + [Task(c, true, None)]);
    assert call.members[0] == m;
    forall t | 0 <= t < |s'.tasks|
      ensures TaskOk(t, s'.tasks[t], calls')
    {
      if t < |s.tasks| {
        assert TaskOk(t, s.tasks[t], s.calls);
      }
    }
    forall ch | 0 <= ch < |s.chans|
      ensures ChanOk(ch, s.chans[ch], calls')
    {
      assert ChanOk(ch, s.chans[ch], s.calls);
    }
  }

  lemma DoChanStarts<V>(s: State<V>, key: Key) returns (s': State<V>)
    requires Inv(s) && key !in s.table
    ensures EnterDoChan(s, key) == Some(s') && Inv(s')
  {
    var c, n := |s.calls|, |s.chans|;
    var call: Call<V> := NewCall(key, ByChan(n));
    var calls' := MoreCalls(s.calls, call);
    s' := s.(table := s.table[key := c], calls := calls', chans := s.chans + [Chan(c, [], 0)]);
    assert call.members[0] == ByChan(n) && call.chans[0] == n;
    forall d | 0 <= d < |calls'|
      ensures CallOk(calls'[d]) && Lists(d, calls'[d], s'.chans)
    {
      if d < c {
        assert CallOk(s.calls[d]) && Lists(d, s.calls[d], s.chans);
      }
    }
    forall ch | 0 <= ch < |s'.chans|
      ensures ChanOk(ch, s'.chans[ch], calls')
    {
      if ch < n {
        assert ChanOk(ch, s.chans[ch], s.calls);
      }
    }
    forall t | 0 <= t < |s.tasks|
      ensures TaskOk(t, s.tasks[t], calls')
    {
      assert TaskOk(t, s.tasks[t], s.calls);
    }
  }

  // ------------------------------------------------------------- the function returns

  lemma ReturnOk<V>(s: State<V>, c: nat, val: V) returns (s': State<V>)
    requires Inv(s) && c < |s.calls| && s.calls[c].phase.Running?
    ensures FnReturn(s, c, val) == Some(s') && Inv(s')
  {
    s' := s.(calls := s.calls[c := s.calls[c].(phase := Returned(val))]);
    forall ch | 0 <= ch < |s.chans|
      ensures ChanOk(ch, s.chans[ch], s'.calls)
    {
      assert ChanOk(ch, s.chans[ch], s.calls);
    }
    forall t | 0 <= t < |s.tasks|
      ensures TaskOk(t, s.tasks[t], s'.calls)
    {
      assert TaskOk(t, s.tasks[t], s.calls);
    }
    forall d | 0 <= d < |s'.calls|
      ensures CallOk(s'.calls[d]) && Lists(d, s'.calls[d], s.chans)
    {
      assert CallOk(s.calls[d]) && Lists(d, s.calls[d], s.chans);
    }
  }

  // ------------------------------------------------------------- a call finishes

  /** Channels that are empty and listed once each take an answer without blocking. */
  lemma {:induction false} SendsDoNotBlock<V>(chans: seq<Chan<V>>, ids: seq<nat>, a: Answer<V>) returns (chans': seq<Chan<V>>)
    requires Distinct(ids)
    requires forall i :: 0 <= i < |ids| ==> ids[i] < |chans| && |chans[ids[i]].sent| <= chans[ids[i]].received
    ensures SendAll(chans, ids, a) == Some(chans') && |chans'| == |chans|
    ensures forall ch :: 0 <= ch < |chans| ==>
              chans'[ch] == if ch in ids then chans[ch].(sent := chans[ch].sent + [a]) else chans[ch]
    decreases |ids|
  {
    if ids == [] {
      chans' := chans;
    } else {
      var id := ids[0];
      var next := chans[id := chans[id].(sent := chans[id].sent + [a])];
      chans' := SendsDoNotBlock(next, ids[1..], a);
      assert id !in ids[1..];
      assert ids == [id] + ids[1..];
    }
  }

  /** No send of a finishing call blocks: each of its channels is still empty. */
  lemma FinishDoesNotBlock<V>(s: State<V>, c: nat) returns (chans': seq<Chan<V>>)
    requires CallsOk(s) && ChansOk(s) && c < |s.calls| && s.calls[c].phase.Returned?
    ensures SendAll(s.chans, s.calls[c].chans, AnswerOf(s.calls[c])) == Some(chans') && |chans'| == |s.chans|
    ensures forall ch :: 0 <= ch < |s.chans| ==>
              chans'[ch] == if ch in s.calls[c].chans then s.chans[ch].(sent := s.chans[ch].sent + [AnswerOf(s.calls[c])]) else s.chans[ch]
  {
    var call := s.calls[c];
    assert CallOk(call) && Lists(c, call, s.chans);
    forall i | 0 <= i < |call.chans|
      ensures |s.chans[call.chans[i]].sent| <= s.chans[call.chans[i]].received
    {
      assert ChanOk(call.chans[i], s.chans[call.chans[i]], s.calls);
    }
    chans' := SendsDoNotBlock(s.chans, call.chans, AnswerOf(call));
  }

  lemma FinishedCalls<V>(s: State<V>, c: nat) returns (calls': seq<Call<V>>)
    requires CallsOk(s) && TasksOk(s) && c < |s.calls| && s.calls[c].phase.Returned?
    ensures calls' == s.calls[c := s.calls[c].(phase := Finished(s.calls[c].phase.val))]
    ensures forall t :: 0 <= t < |s.tasks| ==> TaskOk(t, s.tasks[t], calls')
    ensures forall d :: 0 <= d < |calls'| ==> CallOk(calls'[d])
  {
    calls' := s.calls[c := s.calls[c].(phase := Finished(s.calls[c].phase.val))];
    forall t | 0 <= t < |s.tasks|
      ensures TaskOk(t, s.tasks[t], calls')
    {
      assert TaskOk(t, s.tasks[t], s.calls);
    }
    forall d | 0 <= d < |calls'|
      ensures CallOk(calls'[d])
    {
      assert CallOk(s.calls[d]);
    }
  }

  lemma FinishedChans<V>(s: State<V>, c: nat, calls': seq<Call<V>>, chans': seq<Chan<V>>)
    requires CallsOk(s) && ChansOk(s) && c < |s.calls| && s.calls[c].phase.Returned?
    requires calls' == s.calls[c := s.calls[c].(phase := Finished(s.calls[c].phase.val))] && |chans'| == |s.chans|
    requires forall ch :: 0 <= ch < |s.chans| ==>
              chans'[ch] == if ch in s.calls[c].chans then s.chans[ch].(sent := s.chans[ch].sent + [AnswerOf(s.calls[c])]) else s.chans[ch]
    ensures forall ch :: 0 <= ch < |chans'| ==> ChanOk(ch, chans'[ch], calls')
    ensures forall d :: 0 <= d < |calls'| ==> Lists(d, calls'[d], chans')
  {
  }

  lemma FinishOk<V>(s: State<V>, c: nat) returns (s': State<V>)
    requires Inv(s) && c < |s.calls| && s.calls[c].phase.Returned?
    ensures Finish(s, c) == Some(s') && Inv(s')
  {
    var chans' := FinishDoesNotBlock(s, c);
    var calls' := FinishedCalls(s, c);
    FinishedChans(s, c, calls', chans');
    var call := s.calls[c];
    var table' := if call.key in s.table && s.table[call.key] == c then s.table - {call.key} else s.table;
    s' := State(table', calls', chans', s.tasks);
  }

  // ------------------------------------------------------------- answers are taken

  lemma ResumeOk<V>(s: State<V>, t: nat) returns (s': State<V>)
    requires Inv(s) && Resume(s, t).Some?
    ensures Resume(s, t) == Some(s') && Inv(s')
  {
    s' := Resume(s, t).value;
    assert TaskOk(t, s.tasks[t], s.calls);
    forall u | 0 <= u < |s'.tasks|
      ensures TaskOk(u, s'.tasks[u], s.calls)
    {
      assert TaskOk(u, s.tasks[u], s.calls);
    }
  }

  lemma ReceiveOk<V>(s: State<V>, ch: nat) returns (s': State<V>)
    requires Inv(s) && Receive(s, ch).Some?
    ensures Receive(s, ch) == Some(s') && Inv(s')
  {
    s' := Receive(s, ch).value;
    forall d | 0 <= d < |s.calls|
      ensures CallOk(s.calls[d]) && Lists(d, s.calls[d], s'.chans)
    {
      assert CallOk(s.calls[d]) && Lists(d, s.calls[d], s.chans);
    }
    forall x | 0 <= x < |s'.chans|
      ensures ChanOk(x, s'.chans[x], s.calls)
    {
      assert ChanOk(x, s.chans[x], s.calls);
    }
  }

  // ------------------------------------------------------------- forgetting

  lemma ForgettingKeeps<V>(s: State<V>, gone: set<nat>) returns (calls': seq<Call<V>>)
    requires Inv(s)
    ensures calls' == Forgetting(s.calls, gone)
    ensures forall d :: 0 <= d < |calls'| ==> CallOk(calls'[d]) && Lists(d, calls'[d], s.chans)
    ensures forall ch :: 0 <= ch < |s.chans| ==> ChanOk(ch, s.chans[ch], calls')
    ensures forall t :: 0 <= t < |s.tasks| ==> TaskOk(t, s.tasks[t], calls')
  {
    calls' := Forgetting(s.calls, gone);
    forall d | 0 <= d < |calls'|
      ensures CallOk(calls'[d]) && Lists(d, calls'[d], s.chans)
    {
      assert CallOk(s.calls[d]) && Lists(d, s.calls[d], s.chans);
    }
    forall ch | 0 <= ch < |s.chans|
      ensures ChanOk(ch, s.chans[ch], calls')
    {
      assert ChanOk(ch, s.chans[ch], s.calls);
    }
    forall t | 0 <= t < |s.tasks|
      ensures TaskOk(t, s.tasks[t], calls')
    {
      assert TaskOk(t, s.tasks[t], s.calls);
    }
  }

  lemma ForgetOk<V>(s: State<V>, key: Key)
    requires Inv(s)
    ensures Inv(Forget(s, key))
  {
    var calls' := ForgettingKeeps(s, if key in s.table then {s.table[key]} else {});
  }

  lemma ResetOk<V>(s: State<V>)
    requires Inv(s)
    ensures Inv(Reset(s))
  {
    var calls' := ForgettingKeeps(s, s.table.Values);
  }

  // ------------------------------------------------------------- runs

  lemma StepOk<V>(s: State<V>, op: Op<V>) returns (s': State<V>)
    requires Inv(s) && Step(s, op).Some?
    ensures Step(s, op) == Some(s') && Inv(s')
  {
    match op
    case OpDo(key) =>
      if key in s.table {
        s' := DoJoins(s, key);
      } else {
        s' := DoStarts(s, key);
      }
    case OpDoChan(key) =>
      if key in s.table {
        s' := DoChanJoins(s, key);
      } else {
        s' := DoChanStarts(s, key);
      }
    case OpReturn(c, val) => s' := ReturnOk(s, c, val);
    case OpFinish(c) => s' := FinishOk(s, c);
    case OpResume(t) => s' := ResumeOk(s, t);
    case OpReceive(ch) => s' := ReceiveOk(s, ch);
    case OpForget(key) =>
      ForgetOk(s, key);
      s' := Forget(s, key);
    case OpReset =>
      ResetOk(s);
      s' := Reset(s);
  }

  /** The state after a run, if every step of it could be taken. */
  function Run<V>(ops: seq<Op<V>>): Option<State<V>>
    decreases |ops|
  {
    if ops == [] then Some(Start())
    else
      var before := Run(ops[..|ops| - 1]);
      if before.None? then None else Step(before.value, ops[|ops| - 1])
  }

  lemma {:induction false} RunOk<V>(ops: seq<Op<V>>) returns (s: State<V>)
    requires Run(ops).Some?
    ensures Run(ops) == Some(s) && Inv(s)
    decreases |ops|
  {
    if ops == [] {
      s := Start();
    } else {
      s := RunOk(ops[..|ops| - 1]);
      s := StepOk(s, ops[|ops| - 1]);
    }
  }

  /** Every channel is sent one answer, when its call finishes, and never another: the value of
      that call, marked shared exactly if the call had more than one member. */
  lemma OneAnswerPerChannel<V>(ops: seq<Op<V>>, ch: nat)
    requires Run(ops).Some? && ch < |Run(ops).value.chans|
    ensures var s := Run(ops).value; var chan := s.chans[ch];
      && chan.call < |s.calls| && ByChan(ch) in s.calls[chan.call].members
      && (!s.calls[chan.call].phase.Finished? ==> chan.sent == [])
      && (s.calls[chan.call].phase.Finished? ==>
            chan.sent == [Answer(s.calls[chan.call].phase.val, |s.calls[chan.call].members| > 1)])
  {
    var s := RunOk(ops);
    var call := s.chans[ch].call;
    assert ChanOk(ch, s.chans[ch], s.calls);
    assert CallOk(s.calls[call]);
  }

  /** Everyone who took part in a call and has an answer has the same one. */
  lemma SameAnswer<V>(ops: seq<Op<V>>, t: nat, ch: nat)
    requires Run(ops).Some? && t < |Run(ops).value.tasks| && ch < |Run(ops).value.chans|
    requires var s := Run(ops).value; s.tasks[t].call == s.chans[ch].call && s.tasks[t].answer.Some?
    ensures var s := Run(ops).value; s.chans[ch].sent == [s.tasks[t].answer.value]
  {
    var s := RunOk(ops);
    assert TaskOk(t, s.tasks[t], s.calls) && ChanOk(ch, s.chans[ch], s.calls);
  }

  lemma SameAnswerInDo<V>(ops: seq<Op<V>>, t: nat, u: nat)
    requires Run(ops).Some? && t < |Run(ops).value.tasks| && u < |Run(ops).value.tasks|
    requires var s := Run(ops).value;
      s.tasks[t].call == s.tasks[u].call && s.tasks[t].answer.Some? && s.tasks[u].answer.Some?
    ensures var s := Run(ops).value;
      && s.tasks[t].answer == s.tasks[u].answer && s.tasks[t].call < |s.calls|
      && (s.tasks[t].answer.value.shared <==> |s.calls[s.tasks[t].call].members| > 1)
  {
    var s := RunOk(ops);
    assert TaskOk(t, s.tasks[t], s.calls) && TaskOk(u, s.tasks[u], s.calls);
    assert CallOk(s.calls[s.tasks[t].call]);
  }

  /** Since the last Forget of a key, or Reset, at most one call for it is unfinished, and it
      is the one in the table. */
  lemma OneCallPerKey<V>(ops: seq<Op<V>>, c: nat, d: nat)
    requires Run(ops).Some? && c < |Run(ops).value.calls| && d < |Run(ops).value.calls|
    requires var s := Run(ops).value;
      && s.calls[c].key == s.calls[d].key && !s.calls[c].forgotten && !s.calls[d].forgotten
      && !s.calls[c].phase.Finished? && !s.calls[d].phase.Finished?
    ensures c == d && Run(ops).value.calls[c].key in Run(ops).value.table
  {
    var s := RunOk(ops);
  }

  /** A call whose function has returned can always finish: no send under the mutex blocks. It
      takes away its own entry and no other. */
  lemma FinishNeverBlocks<V>(ops: seq<Op<V>>, c: nat)
    requires Run(ops).Some? && c < |Run(ops).value.calls| && Run(ops).value.calls[c].phase.Returned?
    ensures var s := Run(ops).value;
      && Step(s, OpFinish(c)).Some?
      && forall k :: k in s.table ==> (k in Step(s, OpFinish(c)).value.table <==> s.table[k] != c)
  {
    var s := RunOk(ops);
    var s' := FinishOk(s, c);
  }

  /** Do and DoChan only ever join a call that has not finished: no caller gets a result from
      before it asked. */
  lemma JoinsUnfinished<V>(ops: seq<Op<V>>, key: Key)
    requires Run(ops).Some? && key in Run(ops).value.table
    ensures var s := Run(ops).value;
      s.table[key] < |s.calls| && s.calls[s.table[key]].key == key && !s.calls[s.table[key]].phase.Finished?
  {
    var s := RunOk(ops);
  }
}
