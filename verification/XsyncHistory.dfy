/** Histories of a map: the events of calls and of the table's replacements, in the order they
    take effect, and what it means to put one more event into a history. */
module XsyncHistory {
  import opened Options
  import opened XsyncResize

  datatype Event<K, V> =
    | Wrote(key: K, value: Option<V>, before: Option<V>)
    | Read(key: K, answer: Option<V>)
    | Replaced(t: nat, cleared: bool)
    | Emptied

  /** An event with the moments its call began, took effect and answered. */
  datatype Entry<K, V> = Entry(event: Event<K, V>, begun: nat, at: nat, ended: nat)

  function Lookup<K, V>(m: map<K, V>, k: K): Option<V> {
    if k in m then Some(m[k]) else None
  }

  // ------------------------------------------------------------- the plain map

  function Apply<K, V>(m: map<K, V>, e: Event<K, V>): map<K, V> {
    match e
    case Wrote(key, value, _) => Put(m, key, value)
    case Read(_, _) => m
    case Replaced(_, cleared) => if cleared then map[] else m
    case Emptied => map[]
  }

  /** The event's answer is that of a plain map. */
  ghost predicate Fits<K, V>(m: map<K, V>, e: Event<K, V>) {
    match e
    case Wrote(key, _, before) => before == Lookup(m, key)
    case Read(key, answer) => answer == Lookup(m, key)
    case Replaced(_, _) => true
    case Emptied => true
  }

  function Replay<K, V>(h: seq<Entry<K, V>>): map<K, V> {
    if h == [] then map[] else Apply(Replay(h[..|h| - 1]), h[|h| - 1].event)
  }

  ghost predicate Legal<K, V>(h: seq<Entry<K, V>>) {
    forall i :: 0 <= i < |h| ==> Fits(Replay(h[..i]), h[i].event)
  }

  /** Events stand in the order of their moments, each within its call. */
  ghost predicate InOrder<K, V>(h: seq<Entry<K, V>>, now: nat) {
    && (forall i, j :: 0 <= i < j < |h| ==> h[i].at <= h[j].at)
    && (forall i :: 0 <= i < |h| ==> h[i].begun <= h[i].at <= h[i].ended < now)
  }

  // ------------------------------------------------------------- replacements

  /** Where the replacement of a table stands, or the length. */
  function PlaceOf<K, V>(h: seq<Entry<K, V>>, t: nat): (i: nat)
    ensures i <= |h|
    ensures i < |h| ==> h[i].event.Replaced? && h[i].event.t == t
    ensures forall j :: 0 <= j < i ==> !(h[j].event.Replaced? && h[j].event.t == t)
  {
    if h == [] || (h[0].event.Replaced? && h[0].event.t == t) then 0 else 1 + PlaceOf(h[1..], t)
  }

  function Inserted<K, V>(h: seq<Entry<K, V>>, i: nat, e: Entry<K, V>): seq<Entry<K, V>>
    requires i <= |h|
  {
    h[..i] + [e] + h[i..]
  }

  /** Record an event on table t: now, or just before the table was replaced. */
  function Recorded<K, V>(h: seq<Entry<K, V>>, t: nat, event: Event<K, V>, begun: nat, now: nat): seq<Entry<K, V>> {
    var i := PlaceOf(h, t);
    Inserted(h, i, Entry(event, begun, if i < |h| then h[i].at else now, now))
  }

  ghost predicate Gone<K, V>(h: seq<Entry<K, V>>, t: nat) {
    PlaceOf(h, t) < |h|
  }

  /** The publication of a Clear. */
  predicate Clears<K, V>(e: Event<K, V>) {
    e.Replaced? && e.cleared
  }

  /** Where a Clear was first published from a moment on, or the length. */
  function ClearedAt<K, V>(h: seq<Entry<K, V>>, since: nat): (i: nat)
    ensures i <= |h|
    ensures i < |h| ==> Clears(h[i].event) && h[i].at >= since
    ensures forall j :: 0 <= j < i ==> !(Clears(h[j].event) && h[j].at >= since)
  {
    if h == [] || (Clears(h[0].event) && h[0].at >= since) then 0 else 1 + ClearedAt(h[1..], since)
  }

  ghost predicate ClearedSince<K, V>(h: seq<Entry<K, V>>, since: nat) {
    exists i :: 0 <= i < |h| && Clears(h[i].event) && h[i].at >= since
  }

  /** Record a call that waited while a Clear was published: just behind that publication. */
  function Served<K, V>(h: seq<Entry<K, V>>, begun: nat, now: nat): seq<Entry<K, V>> {
    var i := ClearedAt(h, begun);
    if i < |h| then Inserted(h, i + 1, Entry(Emptied, begun, h[i].at, now)) else h
  }

  // ------------------------------------------------------------- one event more

  /** The same history, or one event more that is not a replacement. */
  ghost predicate Longer<K, V>(h: seq<Entry<K, V>>, h': seq<Entry<K, V>>) {
    h' == h || (|h'| == |h| + 1 && exists i :: 0 <= i <= |h| && !h'[i].event.Replaced? && h' == Inserted(h, i, h'[i]))
  }

  lemma {:induction false} PlaceAfterInsert<K, V>(h: seq<Entry<K, V>>, i: nat, e: Entry<K, V>, t: nat)
    requires i <= |h| && !e.event.Replaced?
    ensures PlaceOf(Inserted(h, i, e), t) == if PlaceOf(h, t) < i then PlaceOf(h, t) else PlaceOf(h, t) + 1
  {
    var n := PlaceOf(h, t);
    InsertedAt(h, i, e);
    PlaceIs(Inserted(h, i, e), t, if n < i then n else n + 1);
  }

  lemma {:induction false} InsertedAt<K, V>(h: seq<Entry<K, V>>, i: nat, e: Entry<K, V>)
    requires i <= |h|
    ensures var h' := Inserted(h, i, e);
      |h'| == |h| + 1 && forall j :: 0 <= j < |h'| ==> h'[j] == if j < i then h[j] else if j == i then e else h[j - 1]
  {
  }

  lemma {:induction false} PlaceIs<K, V>(h: seq<Entry<K, V>>, t: nat, k: nat)
    requires k <= |h| && (k < |h| ==> h[k].event.Replaced? && h[k].event.t == t)
    requires forall j :: 0 <= j < k ==> !(h[j].event.Replaced? && h[j].event.t == t)
    ensures PlaceOf(h, t) == k
  {
  }

  lemma {:induction false} PlaceAfterReplace<K, V>(h: seq<Entry<K, V>>, e: Entry<K, V>, t: nat)
    requires e.event.Replaced?
    ensures PlaceOf(h + [e], t) ==
            if Gone(h, t) then PlaceOf(h, t) else if e.event.t == t then |h| else |h| + 1
  {
    var h' := h + [e];
    PlaceIs(h', t, if Gone(h, t) then PlaceOf(h, t) else if e.event.t == t then |h| else |h| + 1);
  }

  /** The event makes no difference to the one after place i, nor to what that one leaves. */
  ghost predicate Neutral<K, V>(h: seq<Entry<K, V>>, i: nat, e: Event<K, V>)
    requires i <= |h|
  {
    i < |h| ==>
      var m := Replay(h[..i]);
      Fits(Apply(m, e), h[i].event) && Apply(Apply(m, e), h[i].event) == Apply(m, h[i].event)
  }

  /** Inserting a neutral event does not change what comes after. */
  lemma {:induction false} ReplayInserted<K, V>(h: seq<Entry<K, V>>, i: nat, e: Entry<K, V>, n: nat)
    requires i < n <= |h| && Neutral(h, i, e.event)
    ensures Replay(Inserted(h, i, e)[..n + 1]) == Replay(h[..n])
  {
    var h' := Inserted(h, i, e);
    assert h'[..n + 1][..n] == h'[..n] && h'[n] == h[n - 1] && h[..n][..n - 1] == h[..n - 1];
    if n == i + 1 {
      assert h'[..i + 1] == h[..i] + [e] && (h[..i] + [e])[..i] == h[..i];
    } else {
      ReplayInserted(h, i, e, n - 1);
    }
  }

  lemma {:induction false} InsertedPrefix<K, V>(h: seq<Entry<K, V>>, i: nat, e: Entry<K, V>)
    requires i <= |h|
    ensures forall n :: 0 <= n <= i ==> Inserted(h, i, e)[..n] == h[..n]
    ensures Inserted(h, i, e)[..i + 1] == h[..i] + [e]
    ensures Replay(Inserted(h, i, e)[..i + 1]) == Apply(Replay(h[..i]), e.event)
  {
    assert (h[..i] + [e])[..i] == h[..i];
  }

  lemma {:induction false} FitsAfter<K, V>(h: seq<Entry<K, V>>, i: nat, e: Entry<K, V>, n: nat)
    requires Legal(h) && i < n <= |h| && Neutral(h, i, e.event)
    ensures Fits(Replay(Inserted(h, i, e)[..n]), h[n - 1].event)
  {
    if n > i + 1 {
      ReplayInserted(h, i, e, n - 1);
      assert Fits(Replay(h[..n - 1]), h[n - 1].event);
    } else {
      InsertedPrefix(h, i, e);
    }
  }

  lemma {:induction false} FitsBefore<K, V>(h: seq<Entry<K, V>>, i: nat, e: Entry<K, V>, n: nat)
    requires Legal(h) && n <= i <= |h| && Fits(Replay(h[..i]), e.event)
    ensures Fits(Replay(Inserted(h, i, e)[..n]), if n == i then e.event else h[n].event)
  {
    assert Inserted(h, i, e)[..n] == h[..n];
  }

  lemma {:induction false} LegalInserted<K, V>(h: seq<Entry<K, V>>, i: nat, e: Entry<K, V>)
    requires Legal(h) && i <= |h| && Neutral(h, i, e.event) && Fits(Replay(h[..i]), e.event)
    ensures Legal(Inserted(h, i, e))
  {
    var h' := Inserted(h, i, e);
    InsertedAt(h, i, e);
    forall n | 0 <= n < |h'|
      ensures Fits(Replay(h'[..n]), h'[n].event)
    {
      if n > i {
        FitsAfter(h, i, e, n);
      } else {
        FitsBefore(h, i, e, n);
      }
    }
  }

  lemma {:induction false} PlacesKept<K, V>(h: seq<Entry<K, V>>, h': seq<Entry<K, V>>, u: nat)
    requires Longer(h, h')
    ensures Gone(h', u) <==> Gone(h, u)
    ensures Gone(h, u) ==> h'[PlaceOf(h', u)] == h[PlaceOf(h, u)]
  {
    if h' != h {
      var i :| 0 <= i <= |h| && !h'[i].event.Replaced? && h' == Inserted(h, i, h'[i]);
      PlaceAfterInsert(h, i, h'[i], u);
    }
  }

  /** A publication stays where it is, or moves one place on. */
  lemma {:induction false} EntryKept<K, V>(h: seq<Entry<K, V>>, h': seq<Entry<K, V>>, j: nat) returns (k: nat)
    requires Longer(h, h') && j < |h|
    ensures k < |h'| && h'[k] == h[j]
  {
    k := j;
    if h' != h {
      var i :| 0 <= i <= |h| && !h'[i].event.Replaced? && h' == Inserted(h, i, h'[i]);
      k := if j < i then j else j + 1;
    }
  }

  lemma {:induction false} RecordedIsLonger<K, V>(h: seq<Entry<K, V>>, t: nat, event: Event<K, V>, begun: nat, now: nat)
    requires !event.Replaced?
    ensures Longer(h, Recorded(h, t, event, begun, now))
  {
    var i := PlaceOf(h, t);
    assert Recorded(h, t, event, begun, now)[i].event == event;
  }

  lemma {:induction false} ServedIsLonger<K, V>(h: seq<Entry<K, V>>, begun: nat, now: nat)
    ensures Longer(h, Served(h, begun, now))
  {
    var i := ClearedAt(h, begun);
    if i < |h| {
      assert Served(h, begun, now)[i + 1].event == Emptied;
    }
  }

  lemma {:induction false} InsertedInOrder<K, V>(h: seq<Entry<K, V>>, i: nat, e: Entry<K, V>, now: nat)
    requires InOrder(h, now) && i <= |h| && e.begun <= e.at <= e.ended == now
    requires (i > 0 ==> h[i - 1].at <= e.at) && (i < |h| ==> e.at <= h[i].at)
    ensures InOrder(Inserted(h, i, e), now + 1)
  {
    var h' := Inserted(h, i, e);
    InsertedAt(h, i, e);
    assert forall j :: 0 <= j < i ==> h[j].at <= e.at;
    assert forall j :: i <= j < |h| ==> e.at <= h[j].at;
  }

  lemma {:induction false} RecordedInOrder<K, V>(h: seq<Entry<K, V>>, t: nat, event: Event<K, V>, begun: nat, now: nat)
    requires InOrder(h, now) && begun < now && (Gone(h, t) ==> begun <= h[PlaceOf(h, t)].at)
    ensures InOrder(Recorded(h, t, event, begun, now), now + 1)
  {
    var i := PlaceOf(h, t);
    var at := if i < |h| then h[i].at else now;
    assert forall j :: 0 <= j < |h| ==> h[j].at <= h[j].ended < now;
    InsertedInOrder(h, i, Entry(event, begun, at, now), now);
  }

  /** What the map held when table u was replaced, after an event on table t is recorded. */
  lemma {:induction false} ReplayBefore<K, V>(h: seq<Entry<K, V>>, t: nat, event: Event<K, V>, begun: nat, now: nat, u: nat)
    requires !event.Replaced? && Neutral(h, PlaceOf(h, t), event) && Gone(h, u)
    ensures var h' := Recorded(h, t, event, begun, now);
      Replay(h'[..PlaceOf(h', u)]) ==
      if u == t then Apply(Replay(h[..PlaceOf(h, u)]), event) else Replay(h[..PlaceOf(h, u)])
  {
    var i, n := PlaceOf(h, t), PlaceOf(h, u);
    var e := Entry(event, begun, if i < |h| then h[i].at else now, now);
    PlaceAfterInsert(h, i, e, u);
    InsertedPrefix(h, i, e);
    if n > i {
      ReplayInserted(h, i, e, n);
    }
  }

  lemma {:induction false} Whole<T>(s: seq<T>)
    ensures s[..|s|] == s
  {
  }

  lemma {:induction false} ReplayAll<K, V>(h: seq<Entry<K, V>>, i: nat, e: Entry<K, V>)
    requires i <= |h| && Neutral(h, i, e.event)
    ensures Replay(Inserted(h, i, e)) == if i == |h| then Apply(Replay(h), e.event) else Replay(h)
  {
    Whole(h);
    Whole(Inserted(h, i, e));
    if i < |h| {
      ReplayInserted(h, i, e, |h|);
    } else {
      InsertedPrefix(h, i, e);
    }
  }

  // ------------------------------------------------------------- a call served by another's Clear

  ghost predicate NoEffect<K, V>(h: seq<Entry<K, V>>, i: nat, e: Event<K, V>)
    requires i <= |h|
  {
    Apply(Replay(h[..i]), e) == Replay(h[..i])
  }

  lemma {:induction false} NoEffectIsNeutral<K, V>(h: seq<Entry<K, V>>, i: nat, e: Event<K, V>)
    requires Legal(h) && i <= |h| && NoEffect(h, i, e)
    ensures Neutral(h, i, e)
  {
    if i < |h| {
      assert Fits(Replay(h[..i]), h[i].event);
    }
  }

  /** An event without effect where it is put in changes no map afterwards. */
  lemma {:induction false} NoEffectAfter<K, V>(h: seq<Entry<K, V>>, i: nat, e: Entry<K, V>, n: nat)
    requires i <= n <= |h| && Neutral(h, i, e.event) && NoEffect(h, i, e.event)
    ensures Replay(Inserted(h, i, e)[..n + 1]) == Replay(h[..n])
  {
    if n > i {
      ReplayInserted(h, i, e, n);
    } else {
      InsertedPrefix(h, i, e);
    }
  }

  lemma {:induction false} NoEffectBefore<K, V>(h: seq<Entry<K, V>>, i: nat, e: Entry<K, V>, u: nat)
    requires i <= |h| && !e.event.Replaced? && Neutral(h, i, e.event) && NoEffect(h, i, e.event) && Gone(h, u)
    ensures var h' := Inserted(h, i, e);
      Gone(h', u) && Replay(h'[..PlaceOf(h', u)]) == Replay(h[..PlaceOf(h, u)])
  {
    PlaceAfterInsert(h, i, e, u);
    if PlaceOf(h, u) < i {
      InsertedPrefix(h, i, e);
    } else {
      NoEffectAfter(h, i, e, PlaceOf(h, u));
    }
  }

  lemma {:induction false} EmptyAfterClear<K, V>(h: seq<Entry<K, V>>, i: nat)
    requires i < |h| && Clears(h[i].event)
    ensures Replay(h[..i + 1]) == map[] && NoEffect(h, i + 1, Emptied)
  {
    assert h[..i + 1][..i] == h[..i];
  }

  lemma {:induction false} ServedInOrder<K, V>(h: seq<Entry<K, V>>, i: nat, begun: nat, now: nat)
    requires InOrder(h, now) && i < |h| && begun <= h[i].at
    ensures InOrder(Inserted(h, i + 1, Entry(Emptied, begun, h[i].at, now)), now + 1)
  {
    assert h[i].at <= h[i].ended < now;
    InsertedInOrder(h, i + 1, Entry(Emptied, begun, h[i].at, now), now);
  }

  lemma {:induction false} ServedLegal<K, V>(h: seq<Entry<K, V>>, i: nat, e: Entry<K, V>)
    requires Legal(h) && i < |h| && Clears(h[i].event) && e.event == Emptied
    ensures Legal(Inserted(h, i + 1, e)) && Replay(Inserted(h, i + 1, e)) == Replay(h)
  {
    EmptyAfterClear(h, i);
    NoEffectIsNeutral(h, i + 1, e.event);
    LegalInserted(h, i + 1, e);
    ReplayAll(h, i + 1, e);
    Whole(h);
  }

  /** The history stays that of a plain map, in order, and leaves the same map. */
  lemma {:induction false} ServedHistory<K, V>(h: seq<Entry<K, V>>, begun: nat, now: nat)
    requires Legal(h) && InOrder(h, now) && begun < now
    ensures var h' := Served(h, begun, now);
      Legal(h') && InOrder(h', now + 1) && Replay(h') == Replay(h)
  {
    var i := ClearedAt(h, begun);
    if i < |h| {
      ServedLegal(h, i, Entry(Emptied, begun, h[i].at, now));
      ServedInOrder(h, i, begun, now);
    }
  }

  lemma {:induction false} EmptiedBefore<K, V>(h: seq<Entry<K, V>>, i: nat, e: Entry<K, V>, u: nat)
    requires Legal(h) && Gone(h, u) && i < |h| && Clears(h[i].event) && e.event == Emptied
    ensures var h' := Inserted(h, i + 1, e);
      Gone(h', u) && Replay(h'[..PlaceOf(h', u)]) == Replay(h[..PlaceOf(h, u)])
  {
    EmptyAfterClear(h, i);
    NoEffectIsNeutral(h, i + 1, e.event);
    NoEffectBefore(h, i + 1, e, u);
  }

  lemma {:induction false} ServedBefore<K, V>(h: seq<Entry<K, V>>, begun: nat, now: nat, u: nat)
    requires Legal(h) && Gone(h, u)
    ensures var h' := Served(h, begun, now);
      Gone(h', u) && Replay(h'[..PlaceOf(h', u)]) == Replay(h[..PlaceOf(h, u)])
  {
    var i := ClearedAt(h, begun);
    if i < |h| {
      EmptiedBefore(h, i, Entry(Emptied, begun, h[i].at, now), u);
    }
  }

  // ------------------------------------------------------------- one replacement more

  lemma {:induction false} AppendedPrefix<K, V>(h: seq<Entry<K, V>>, e: Entry<K, V>, n: nat)
    requires n <= |h|
    ensures (h + [e])[..n] == h[..n] && h[..|h|] == h
  {
  }

  lemma {:induction false} LegalAppended<K, V>(h: seq<Entry<K, V>>, e: Entry<K, V>)
    requires Legal(h) && e.event.Replaced?
    ensures Legal(h + [e]) && Replay(h + [e]) == Apply(Replay(h), e.event)
  {
    forall i | 0 <= i < |h| + 1
      ensures Fits(Replay((h + [e])[..i]), (h + [e])[i].event)
    {
      AppendedPrefix(h, e, i);
    }
    AppendedPrefix(h, e, |h|);
  }

  /** The history after table t was replaced. */
  lemma {:induction false} ReplacedHistory<K, V>(h: seq<Entry<K, V>>, e: Entry<K, V>, now: nat)
    requires Legal(h) && InOrder(h, now) && e.event.Replaced? && e.begun <= e.at == e.ended == now
    ensures var h' := h + [e];
      Legal(h') && InOrder(h', now + 1) && Replay(h') == Apply(Replay(h), e.event)
  {
    LegalAppended(h, e);
    InsertedInOrder(h, |h|, e, now);
    assert Inserted(h, |h|, e) == h + [e];
  }

  /** The tables replaced are those before, and the one replaced now, in the last place. */
  lemma {:induction false} GoneAfter<K, V>(h: seq<Entry<K, V>>, e: Entry<K, V>, u: nat)
    requires e.event.Replaced?
    ensures Gone(h + [e], u) <==> Gone(h, u) || u == e.event.t
    ensures Gone(h, u) ==> PlaceOf(h + [e], u) == PlaceOf(h, u) && (h + [e])[..PlaceOf(h, u)] == h[..PlaceOf(h, u)]
    ensures !Gone(h, u) && u == e.event.t ==> PlaceOf(h + [e], u) == |h| && (h + [e])[..|h|] == h
  {
    PlaceAfterReplace(h, e, u);
  }
}
