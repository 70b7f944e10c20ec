/** Whose value is handed out, over whole runs: the one that the function of the call returned,
    for the key that was asked for, and never one from a call that was forgotten before. */
module SingleFlightRuns {
  import opened Options
  import opened SingleFlight

  // ------------------------------------------------------------- what one step does to calls

  predicate ReturnOf<V>(op: Op<V>, c: nat) {
    op.OpReturn? && op.call == c
  }

  /** Calls keep their keys; only the return of its function and its end change the phase of one. */
  lemma StepCalls<V>(s: State<V>, op: Op<V>, s': State<V>, c: nat)
    requires Step(s, op) == Some(s') && c < |s.calls|
    ensures c < |s'.calls| && s'.calls[c].key == s.calls[c].key
    ensures ReturnOf(op, c) ==> s.calls[c].phase.Running? && s'.calls[c].phase == Returned(op.val)
    ensures op == OpFinish(c) ==> s.calls[c].phase.Returned? && s'.calls[c].phase == Finished(s.calls[c].phase.val)
    ensures !ReturnOf(op, c) && op != OpFinish(c) ==> s'.calls[c].phase == s.calls[c].phase
  {
  }

  /** A call made by a step runs, and no function of a call that is not there returns. */
  lemma StepStarts<V>(s: State<V>, op: Op<V>, s': State<V>, c: nat)
    requires Step(s, op) == Some(s') && c >= |s.calls|
    ensures !ReturnOf(op, c) && (c < |s'.calls| ==> s'.calls[c].phase.Running?)
  {
  }

  lemma {:induction false} RunLast<V>(ops: seq<Op<V>>) returns (before: State<V>, op: Op<V>, after: State<V>)
    requires ops != [] && Run(ops).Some?
    ensures op == ops[|ops| - 1] && Run(ops[..|ops| - 1]) == Some(before) && Run(ops) == Some(after)
    ensures Step(before, op) == Some(after)
  {
    before, op, after := Run(ops[..|ops| - 1]).value, ops[|ops| - 1], Run(ops).value;
  }

  // ------------------------------------------------------------- the value of a call

  /** The one step at which the function of a call returned. */
  ghost predicate ReturnedAt<V>(ops: seq<Op<V>>, c: nat, val: V, i: nat) {
    && i < |ops| && ops[i] == OpReturn(c, val)
    && forall j :: 0 <= j < |ops| && j != i ==> !ReturnOf(ops[j], c)
  }

  ghost predicate NotReturned<V>(ops: seq<Op<V>>, c: nat) {
    forall j :: 0 <= j < |ops| ==> !ReturnOf(ops[j], c)
  }

  lemma {:induction false} ReturnedLater<V>(ops: seq<Op<V>>, c: nat, val: V, i: nat)
    requires ops != [] && ReturnedAt(ops[..|ops| - 1], c, val, i) && !ReturnOf(ops[|ops| - 1], c)
    ensures ReturnedAt(ops, c, val, i)
  {
    assert forall j :: 0 <= j < |ops| - 1 ==> ops[j] == ops[..|ops| - 1][j];
  }

  lemma {:induction false} ReturnedNow<V>(ops: seq<Op<V>>, c: nat)
    requires ops != [] && NotReturned(ops[..|ops| - 1], c)
    ensures if ReturnOf(ops[|ops| - 1], c) then ReturnedAt(ops, c, ops[|ops| - 1].val, |ops| - 1) else NotReturned(ops, c)
  {
    assert forall j :: 0 <= j < |ops| - 1 ==> ops[j] == ops[..|ops| - 1][j];
  }

  /** After any run, the value of a call is the one its function returned, and it returned once;
      while the call runs, or is not there yet, it has not. */
  lemma {:induction false} ReturnedOnce<V>(ops: seq<Op<V>>, c: nat) returns (i: nat)
    requires Run(ops).Some?
    ensures var s := Run(ops).value;
      if c < |s.calls| && !s.calls[c].phase.Running? then ReturnedAt(ops, c, s.calls[c].phase.val, i)
      else NotReturned(ops, c)
    decreases |ops|
  {
    i := 0;
    if ops != [] {
      var s, op, s' := RunLast(ops);
      i := ReturnedOnce(ops[..|ops| - 1], c);
      if c < |s.calls| {
        StepCalls(s, op, s', c);
        if s.calls[c].phase.Running? {
          ReturnedNow(ops, c);
          i := |ops| - 1;
        } else {
          ReturnedLater(ops, c, s.calls[c].phase.val, i);
        }
      } else {
        StepStarts(s, op, s', c);
        ReturnedNow(ops, c);
      }
    }
  }

  // ------------------------------------------------------------- the key asked for

  /** The keys of the calls of DoChan, in order. */
  function ChanKeys<V>(ops: seq<Op<V>>): seq<Key> {
    if ops == [] then []
    else ChanKeys(ops[..|ops| - 1]) + if ops[|ops| - 1].OpDoChan? then [ops[|ops| - 1].key] else []
  }

  /** The keys of the calls of Do, in order. */
  function TaskKeys<V>(ops: seq<Op<V>>): seq<Key> {
    if ops == [] then []
    else TaskKeys(ops[..|ops| - 1]) + if ops[|ops| - 1].OpDo? then [ops[|ops| - 1].key] else []
  }

  /** Everyone takes part in a call of the key given. */
  ghost predicate KeysOk<V>(s: State<V>, chanKeys: seq<Key>, taskKeys: seq<Key>) {
    && |s.chans| == |chanKeys| && |s.tasks| == |taskKeys|
    && (forall ch :: 0 <= ch < |s.chans| ==> s.chans[ch].call < |s.calls| && s.calls[s.chans[ch].call].key == chanKeys[ch])
    && (forall t :: 0 <= t < |s.tasks| ==> s.tasks[t].call < |s.calls| && s.calls[s.tasks[t].call].key == taskKeys[t])
  }

  /** Only Do and DoChan make goroutines and channels wait, on a call of their key; nobody changes
      the call. */
  lemma StepMembers<V>(s: State<V>, op: Op<V>, s': State<V>)
    requires Inv(s) && Step(s, op) == Some(s')
    ensures |s'.calls| >= |s.calls|
    ensures |s'.chans| == |s.chans| + if op.OpDoChan? then 1 else 0
    ensures |s'.tasks| == |s.tasks| + if op.OpDo? then 1 else 0
    ensures forall ch :: 0 <= ch < |s.chans| ==> s'.chans[ch].call == s.chans[ch].call
    ensures forall t :: 0 <= t < |s.tasks| ==> s'.tasks[t].call == s.tasks[t].call
  {
    if op.OpFinish? {
      var _ := FinishDoesNotBlock(s, op.call);
    }
  }

  /** Those who wait already wait on the calls they did, whose keys stay. */
  lemma StepOthers<V>(s: State<V>, op: Op<V>, s': State<V>)
    requires Inv(s) && Step(s, op) == Some(s')
    ensures |s'.calls| >= |s.calls| && |s'.chans| >= |s.chans| && |s'.tasks| >= |s.tasks|
    ensures forall ch :: 0 <= ch < |s.chans| ==>
              s'.chans[ch].call == s.chans[ch].call < |s.calls| && s'.calls[s.chans[ch].call].key == s.calls[s.chans[ch].call].key
    ensures forall t :: 0 <= t < |s.tasks| ==>
              s'.tasks[t].call == s.tasks[t].call < |s.calls| && s'.calls[s.tasks[t].call].key == s.calls[s.tasks[t].call].key
  {
    StepMembers(s, op, s');
    forall ch | 0 <= ch < |s.chans|
      ensures s.chans[ch].call < |s.calls| && s'.calls[s.chans[ch].call].key == s.calls[s.chans[ch].call].key
    {
      assert ChanOk(ch, s.chans[ch], s.calls);
      StepCalls(s, op, s', s.chans[ch].call);
    }
    forall t | 0 <= t < |s.tasks|
      ensures s.tasks[t].call < |s.calls| && s'.calls[s.tasks[t].call].key == s.calls[s.tasks[t].call].key
    {
      assert TaskOk(t, s.tasks[t], s.calls);
      StepCalls(s, op, s', s.tasks[t].call);
    }
  }

  /** A newcomer takes part in the call of the table, or in a new one. */
  lemma StepJoins<V>(s: State<V>, op: Op<V>, s': State<V>) returns (c: nat)
    requires Inv(s) && Step(s, op) == Some(s') && (op.OpDo? || op.OpDoChan?)
    ensures c < |s'.calls| && s'.calls[c].key == op.key && c == if op.key in s.table then s.table[op.key] else |s.calls|
    ensures op.OpDo? ==> |s'.tasks| == |s.tasks| + 1 && s'.tasks[|s.tasks|].call == c
    ensures op.OpDoChan? ==> |s'.chans| == |s.chans| + 1 && s'.chans[|s.chans|].call == c
    ensures s'.table == s.table[op.key := c]
  {
    c := if op.key in s.table then s.table[op.key] else |s.calls|;
  }

  lemma {:induction false} StepKeys<V>(s: State<V>, op: Op<V>, s': State<V>, chanKeys: seq<Key>, taskKeys: seq<Key>)
    requires Inv(s) && Step(s, op) == Some(s') && KeysOk(s, chanKeys, taskKeys)
    ensures KeysOk(s', chanKeys + if op.OpDoChan? then [op.key] else [], taskKeys + if op.OpDo? then [op.key] else [])
  {
    StepOthers(s, op, s');
    StepMembers(s, op, s');
    if op.OpDo? || op.OpDoChan? {
      var _ := StepJoins(s, op, s');
    }
  }

  /** Whoever asked for a key takes part in a call of that key. */
  lemma {:induction false} RunKeys<V>(ops: seq<Op<V>>) returns (s: State<V>)
    requires Run(ops).Some?
    ensures Run(ops) == Some(s) && Inv(s) && KeysOk(s, ChanKeys(ops), TaskKeys(ops))
    decreases |ops|
  {
    s := RunOk(ops);
    if ops != [] {
      var before, op, after := RunLast(ops);
      var _ := RunKeys(ops[..|ops| - 1]);
      StepKeys(before, op, after, ChanKeys(ops[..|ops| - 1]), TaskKeys(ops[..|ops| - 1]));
    }
  }

  // ------------------------------------------------------------- what is handed out

  /** The value sent to a channel is the one that the function of its call returned, at the one
      step at which it did, and the call is one of the key given to DoChan. */
  lemma ChanGetsReturned<V>(ops: seq<Op<V>>, ch: nat) returns (c: nat, val: V, i: nat)
    requires Run(ops).Some? && ch < |Run(ops).value.chans| && Run(ops).value.chans[ch].sent != []
    ensures var s := Run(ops).value;
      && c == s.chans[ch].call && ReturnedAt(ops, c, val, i)
      && |s.chans[ch].sent| == 1 && s.chans[ch].sent[0].val == val
      && ch < |ChanKeys(ops)| && c < |s.calls| && s.calls[c].key == ChanKeys(ops)[ch]
  {
    var s := RunKeys(ops);
    c := s.chans[ch].call;
    assert ChanOk(ch, s.chans[ch], s.calls);
    val := s.calls[c].phase.val;
    i := ReturnedOnce(ops, c);
  }

  /** The same of a goroutine in Do. */
  lemma TaskGetsReturned<V>(ops: seq<Op<V>>, t: nat) returns (c: nat, val: V, i: nat)
    requires Run(ops).Some? && t < |Run(ops).value.tasks| && Run(ops).value.tasks[t].answer.Some?
    ensures var s := Run(ops).value;
      && c == s.tasks[t].call && ReturnedAt(ops, c, val, i) && s.tasks[t].answer.value.val == val
      && t < |TaskKeys(ops)| && c < |s.calls| && s.calls[c].key == TaskKeys(ops)[t]
  {
    var s := RunKeys(ops);
    c := s.tasks[t].call;
    assert TaskOk(t, s.tasks[t], s.calls);
    val := s.calls[c].phase.val;
    i := ReturnedOnce(ops, c);
  }

  // ------------------------------------------------------------- after a Forget

  /** From a moment with so many calls, channels and goroutines on, nobody who asks for the key
      takes part in a call made before. */
  ghost predicate Anew<V>(s: State<V>, key: Key, calls: nat, chans: nat, tasks: nat) {
    && |s.calls| >= calls && (key in s.table ==> s.table[key] >= calls)
    && (forall ch :: chans <= ch < |s.chans| && s.chans[ch].call < |s.calls| && s.calls[s.chans[ch].call].key == key ==>
          s.chans[ch].call >= calls)
    && (forall t :: tasks <= t < |s.tasks| && s.tasks[t].call < |s.calls| && s.calls[s.tasks[t].call].key == key ==>
          s.tasks[t].call >= calls)
  }

  /** Only Do and DoChan put a call into the table. */
  lemma StepTable<V>(s: State<V>, op: Op<V>, s': State<V>, key: Key)
    requires Step(s, op) == Some(s') && !op.OpDo? && !op.OpDoChan? && key in s'.table
    ensures key in s.table && s'.table[key] == s.table[key]
  {
  }

  lemma {:induction false} StepAnew<V>(s: State<V>, op: Op<V>, s': State<V>, key: Key, calls: nat, chans: nat, tasks: nat)
    requires Inv(s) && Step(s, op) == Some(s') && Anew(s, key, calls, chans, tasks)
    ensures Anew(s', key, calls, chans, tasks)
  {
    StepOthers(s, op, s');
    StepMembers(s, op, s');
    if op.OpDo? || op.OpDoChan? {
      var c := StepJoins(s, op, s');
    } else if key in s'.table {
      StepTable(s, op, s', key);
    }
  }

  lemma {:induction false} RunAnew<V>(ops: seq<Op<V>>, more: seq<Op<V>>, s: State<V>, key: Key, calls: nat, chans: nat, tasks: nat)
    requires Run(ops) == Some(s) && Run(ops + more).Some? && Anew(s, key, calls, chans, tasks)
    ensures Anew(Run(ops + more).value, key, calls, chans, tasks)
    decreases |more|
  {
    var run := ops + more;
    if more == [] {
      assert run == ops;
    } else {
      assert run[..|run| - 1] == ops + more[..|more| - 1];
      var before, op, after := RunLast(run);
      RunAnew(ops, more[..|more| - 1], s, key, calls, chans, tasks);
      var _ := RunOk(run[..|run| - 1]);
      StepAnew(before, op, after, key, calls, chans, tasks);
    }
  }

  /** Takes the entry of a key away. */
  predicate Forgets<V>(op: Op<V>, key: Key) {
    op == OpForget(key) || op == OpReset
  }

  /** Once a key was forgotten, or the group was reset, whoever asks for it takes part in a call
      made after that, whatever happens in between and however long the old call still runs. */
  lemma {:induction false} ForgottenIsNotJoined<V>(ops: seq<Op<V>>, forget: Op<V>, key: Key, more: seq<Op<V>>)
    requires Forgets(forget, key) && Run(ops).Some? && Run(ops + [forget] + more).Some?
    ensures var earlier, s := Run(ops).value, Run(ops + [forget] + more).value;
      && |s.chans| == |ChanKeys(ops + [forget] + more)| && |s.tasks| == |TaskKeys(ops + [forget] + more)|
      && (forall ch :: |earlier.chans| <= ch < |s.chans| && ChanKeys(ops + [forget] + more)[ch] == key ==> s.chans[ch].call >= |earlier.calls|)
      && (forall t :: |earlier.tasks| <= t < |s.tasks| && TaskKeys(ops + [forget] + more)[t] == key ==> s.tasks[t].call >= |earlier.calls|)
  {
    var run := ops + [forget];
    assert run[..|run| - 1] == ops;
    var earlier := Run(ops).value;
    var forgotten := Step(earlier, forget).value;
    assert Anew(forgotten, key, |earlier.calls|, |earlier.chans|, |earlier.tasks|);
    RunAnew(run, more, forgotten, key, |earlier.calls|, |earlier.chans|, |earlier.tasks|);
    var s := RunKeys(run + more);
  }

  // ------------------------------------------------------------- between two Forgets

  /** Calls of the key made from a moment on are not forgotten. */
  ghost predicate Remembered<V>(s: State<V>, key: Key, calls: nat) {
    forall c :: calls <= c < |s.calls| && s.calls[c].key == key ==> !s.calls[c].forgotten
  }

  lemma StepRemembers<V>(s: State<V>, op: Op<V>, s': State<V>, key: Key, calls: nat)
    requires Inv(s) && Step(s, op) == Some(s') && !Forgets(op, key) && Remembered(s, key, calls)
    ensures Remembered(s', key, calls)
  {
  }

  lemma {:induction false} RunRemembers<V>(ops: seq<Op<V>>, more: seq<Op<V>>, key: Key)
    requires Run(ops).Some? && Run(ops + more).Some? && forall i :: 0 <= i < |more| ==> !Forgets(more[i], key)
    ensures Remembered(Run(ops + more).value, key, |Run(ops).value.calls|)
    decreases |more|
  {
    var run := ops + more;
    if more == [] {
      assert run == ops;
    } else {
      assert run[..|run| - 1] == ops + more[..|more| - 1];
      var before, op, after := RunLast(run);
      RunRemembers(ops, more[..|more| - 1], key);
      var _ := RunOk(run[..|run| - 1]);
      StepRemembers(before, op, after, key, |Run(ops).value.calls|);
    }
  }

  /** While a key is not forgotten, its function runs once at a time: two unfinished calls of the
      key made since are the same. */
  lemma {:induction false} OneAtATime<V>(ops: seq<Op<V>>, more: seq<Op<V>>, key: Key, c: nat, d: nat)
    requires Run(ops).Some? && Run(ops + more).Some? && forall i :: 0 <= i < |more| ==> !Forgets(more[i], key)
    requires |Run(ops).value.calls| <= c < |Run(ops + more).value.calls|
    requires |Run(ops).value.calls| <= d < |Run(ops + more).value.calls|
    requires var s := Run(ops + more).value;
      s.calls[c].key == s.calls[d].key == key && !s.calls[c].phase.Finished? && !s.calls[d].phase.Finished?
    ensures c == d
  {
    RunRemembers(ops, more, key);
    OneCallPerKey(ops + more, c, d);
  }
}
