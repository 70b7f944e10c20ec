/** The adaptive replacement cache as a state machine on values. The four lists hold keys,
    most recently used first. A step that would take the back of an empty list, or divide
    by zero, crashes: its result is `None`. */
module ArcSpec {
  import opened Options

  datatype Item<V> = Item(value: V, isGhost: bool, expires: int)

  datatype State<K, V> = State(
    p: int, c: int, len: int,
    t1: seq<K>, b1: seq<K>, t2: seq<K>, b2: seq<K>,
    data: map<K, Item<V>>)

  function New<K, V>(c: int): State<K, V> {
    State(0, c, 0, [], [], [], [], map[])
  }

  function Min(a: int, b: int): int {
    if a < b then a else b
  }

  function Max(a: int, b: int): int {
    if a < b then b else a
  }

  /** A list without its element k. */
  function Remove<K(==)>(s: seq<K>, k: K): seq<K> {
    if s == [] then [] else if s[0] == k then s[1..] else [s[0]] + Remove(s[1..], k)
  }

  function Last<K>(s: seq<K>): K
    requires s != []
  {
    s[|s| - 1]
  }

  function Front<K>(s: seq<K>): seq<K>
    requires s != []
  {
    s[..|s| - 1]
  }

  /** Drop the value of an entry, keeping the entry as a ghost. */
  function Ghosted<K, V>(data: map<K, Item<V>>, k: K, empty: V): map<K, Item<V>> {
    if k in data then data[k := data[k].(value := empty, isGhost := true)] else data
  }

  function GhostT1<K, V>(s: State<K, V>, empty: V): State<K, V>
    requires s.t1 != []
  {
    s.(t1 := Front(s.t1), b1 := [Last(s.t1)] + s.b1, len := s.len - 1, data := Ghosted(s.data, Last(s.t1), empty))
  }

  function GhostT2<K, V>(s: State<K, V>, empty: V): State<K, V>
    requires s.t2 != []
  {
    s.(t2 := Front(s.t2), b2 := [Last(s.t2)] + s.b2, len := s.len - 1, data := Ghosted(s.data, Last(s.t2), empty))
  }

  /** Turn the least recently used entry of t1 or t2 into a ghost. */
  function Replace<K, V>(s: State<K, V>, inB2: bool, empty: V): Option<State<K, V>> {
    if |s.t1| > 0 && (|s.t1| > s.p || (inB2 && |s.t1| == s.p)) then Some(GhostT1(s, empty))
    else if s.t2 == [] then None
    else Some(GhostT2(s, empty))
  }

  function DropT1<K, V>(s: State<K, V>): State<K, V>
    requires s.t1 != []
  {
    s.(t1 := Front(s.t1), len := s.len - 1, data := s.data - {Last(s.t1)})
  }

  function DropB1<K, V>(s: State<K, V>): State<K, V>
    requires s.b1 != []
  {
    s.(b1 := Front(s.b1), len := s.len - 1, data := s.data - {Last(s.b1)})
  }

  function DropB2<K, V>(s: State<K, V>): State<K, V>
    requires s.b2 != []
  {
    s.(b2 := Front(s.b2), len := s.len - 1, data := s.data - {Last(s.b2)})
  }

  datatype Victim = OfT1 | OfB1 | OfB2

  /** Forget the least recently used entry of a list altogether. */
  function DelLRU<K, V>(s: State<K, V>, victim: Victim): Option<State<K, V>> {
    match victim
    case OfT1 => if s.t1 == [] then None
                 else Some(DropT1(s))
    case OfB1 => if s.b1 == [] then None
                 else Some(DropB1(s))
    case OfB2 => if s.b2 == [] then None
                 else Some(DropB2(s))
  }

  function Total<K, V>(s: State<K, V>): nat {
    |s.t1| + |s.t2| + |s.b1| + |s.b2|
  }

  function GrowBy<K, V>(s: State<K, V>): int
    requires s.b1 != []
  {
    if |s.b1| >= |s.b2| then 1 else |s.b2| / |s.b1|
  }

  function ShrinkBy<K, V>(s: State<K, V>): int
    requires s.b2 != []
  {
    if |s.b2| >= |s.b1| then 1 else |s.b1| / |s.b2|
  }

  /** Bring a ghost back: evict to make room, then move the key to the front of t2. */
  function Revive<K(==), V>(s: State<K, V>, k: K, inB2: bool, empty: V): Option<State<K, V>> {
    var r := Replace(s, inB2, empty);
    if r.None? then None
    else if inB2 then Some(r.value.(b2 := Remove(r.value.b2, k), t2 := [k] + r.value.t2))
    else Some(r.value.(b1 := Remove(r.value.b1, k), t2 := [k] + r.value.t2))
  }

  /** The request transition for key k; a key in no list is new. */
  function Req<K(==), V>(s: State<K, V>, k: K, empty: V): Option<State<K, V>> {
    if k in s.t1 then Some(s.(t1 := Remove(s.t1, k), t2 := [k] + s.t2))
    else if k in s.t2 then Some(s.(t2 := [k] + Remove(s.t2, k)))
    else if k in s.b1 then
      if |s.b1| == 0 then None else Revive(s.(p := Min(s.p + GrowBy(s), s.c)), k, false, empty)
    else if k in s.b2 then
      if |s.b2| == 0 then None else Revive(s.(p := Max(s.p - ShrinkBy(s), 0)), k, true, empty)
    else
      var r := MakeRoom(s, empty);
      if r.None? then None else Some(r.value.(t1 := [k] + r.value.t1))
  }

  /** The evictions that precede the insertion of a new key. */
  function MakeRoom<K, V>(s: State<K, V>, empty: V): Option<State<K, V>> {
    if |s.t1| + |s.b1| == s.c then
      if |s.t1| < s.c then
        var r := DelLRU(s, OfB1);
        if r.None? then None else Replace(r.value, false, empty)
      else DelLRU(s, OfT1)
    else if |s.t1| + |s.b1| < s.c then
      if Total(s) >= s.c then
        if Total(s) == 2 * s.c then
          var r := DelLRU(s, OfB2);
          if r.None? then None else Replace(r.value, false, empty)
        else Replace(s, false, empty)
      else Some(s)
    else Some(s)
  }

  /** Bind the key of a new entry in the map, once the entry has its place. */
  function Stored<K, V>(r: Option<State<K, V>>, k: K, item: Item<V>): Option<State<K, V>> {
    if r.None? then None else Some(r.value.(data := r.value.data[k := item]))
  }

  function SetNew<K(==), V>(s: State<K, V>, k: K, item: Item<V>, empty: V): Option<State<K, V>> {
    Stored(Req(s.(len := s.len + 1), k, empty), k, item)
  }

  function SetKnown<K(==), V>(s: State<K, V>, k: K, item: Item<V>, empty: V): Option<State<K, V>>
    requires k in s.data
  {
    var len := if s.data[k].isGhost then s.len + 1 else s.len;
    Req(s.(len := len, data := s.data[k := item]), k, empty)
  }

  function Set<K(==), V>(s: State<K, V>, k: K, v: V, expires: int, empty: V): Option<State<K, V>> {
    var item := Item(v, false, expires);
    if k !in s.data then SetNew(s, k, item, empty) else SetKnown(s, k, item, empty)
  }

  /** The state after a Get. */
  function Get<K(==), V>(s: State<K, V>, k: K, empty: V): Option<State<K, V>> {
    if k !in s.data then Some(s) else Req(s, k, empty)
  }

  /** What a Get answers once its transition is done. */
  predicate Hit<K, V>(s: State<K, V>, k: K) {
    k in s.data && !s.data[k].isGhost
  }

  // ------------------------------------------------------------- the invariant

  ghost function Keys<K, V>(s: State<K, V>): multiset<K> {
    multiset(s.t1) + multiset(s.b1) + multiset(s.t2) + multiset(s.b2)
  }

  ghost predicate Bounds<K, V>(s: State<K, V>) {
    && 0 <= s.p <= s.c
    && |s.t1| + |s.t2| <= s.c
    && |s.t1| + |s.b1| <= s.c
    && Total(s) <= 2 * s.c
    && (s.b1 != [] || s.b2 != [] ==> |s.t1| + |s.t2| == s.c)
  }

  /** The lists are disjoint, free of repetitions, and cover exactly the known keys; ghost
      lists hold ghosts and t1 holds live entries. (An entry of t2 can be a ghost still.) */
  ghost predicate Tidy<K, V>(s: State<K, V>) {
    && Keys(s) == multiset(s.data.Keys)
    && (forall k :: k in s.data && k in s.t1 ==> !s.data[k].isGhost)
    && (forall k :: k in s.data && k in s.b1 ==> s.data[k].isGhost)
    && (forall k :: k in s.data && k in s.b2 ==> s.data[k].isGhost)
  }

  ghost predicate Inv<K, V>(s: State<K, V>) {
    s.c >= 1 && Bounds(s) && Tidy(s)
  }

  /** The same while key k is being served: k may be new, or its flag may be set already. */
  ghost predicate TidyBut<K, V>(s: State<K, V>, k: K) {
    && Keys(s) == multiset(s.data.Keys)
    && (forall k' :: k' in s.data && k' != k && k' in s.t1 ==> !s.data[k'].isGhost)
    && (forall k' :: k' in s.data && k' != k && k' in s.b1 ==> s.data[k'].isGhost)
    && (forall k' :: k' in s.data && k' != k && k' in s.b2 ==> s.data[k'].isGhost)
  }

  /** Other entries stay as they are, become ghosts, or go. */
  ghost predicate Frame<K, V>(s: State<K, V>, s': State<K, V>, k: K) {
    && s'.c == s.c
    && (k in s.data ==> k in s'.data && s'.data[k] == s.data[k])
    && (forall k' :: k' in s'.data ==> k' in s.data && (s'.data[k'] == s.data[k'] || s'.data[k'].isGhost))
  }

  // ------------------------------------------------------------- lists as multisets

  lemma {:induction false} RemoveOne<K>(s: seq<K>, k: K)
    requires k in s
    ensures multiset(Remove(s, k)) == multiset(s) - multiset{k}
    ensures |Remove(s, k)| == |s| - 1
  {
    assert s == [s[0]] + s[1..];
    if s[0] != k {
      RemoveOne(s[1..], k);
      assert multiset(s) == multiset{s[0]} + multiset(s[1..]);
    }
  }

  lemma SplitLast<K>(s: seq<K>)
    requires s != []
    ensures multiset(s) == multiset(Front(s)) + multiset{Last(s)}
    ensures |Front(s)| == |s| - 1 && Last(s) in s
    ensures forall k :: k in Front(s) ==> k in s
  {
    assert s == Front(s) + [Last(s)];
  }

  /** A key stands in at most one list, once. */
  lemma OnePlace<K, V>(s: State<K, V>, k: K)
    requires Keys(s) == multiset(s.data.Keys)
    ensures multiset(s.t1)[k] + multiset(s.b1)[k] + multiset(s.t2)[k] + multiset(s.b2)[k] == (if k in s.data then 1 else 0)
    ensures k in s.t1 <==> multiset(s.t1)[k] == 1
    ensures k in s.b1 <==> multiset(s.b1)[k] == 1
    ensures k in s.t2 <==> multiset(s.t2)[k] == 1
    ensures k in s.b2 <==> multiset(s.b2)[k] == 1
  {
    assert Keys(s)[k] == multiset(s.data.Keys)[k];
    assert k in s.t1 <==> k in multiset(s.t1);
    assert k in s.b1 <==> k in multiset(s.b1);
    assert k in s.t2 <==> k in multiset(s.t2);
    assert k in s.b2 <==> k in multiset(s.b2);
  }

  lemma LastIsUnique<K, V>(s: State<K, V>, list: seq<K>)
    requires Keys(s) == multiset(s.data.Keys)
    requires list != [] && (list == s.t1 || list == s.b1 || list == s.t2 || list == s.b2)
    ensures Last(list) in s.data && Last(list) !in Front(list)
  {
    SplitLast(list);
    OnePlace(s, Last(list));
    assert Last(list) in Front(list) <==> Last(list) in multiset(Front(list));
  }

  // ------------------------------------------------------------- the transitions

  ghost predicate ReplacePost<K, V>(s: State<K, V>, s': State<K, V>, k: K) {
    && TidyBut(s', k) && Frame(s, s', k) && s'.p == s.p && s'.data.Keys == s.data.Keys
    && |s'.t1| + |s'.t2| == |s.t1| + |s.t2| - 1
    && |s'.t1| + |s'.b1| == |s.t1| + |s.b1|
    && Total(s') == Total(s)
    && (k in s'.b1 <==> k in s.b1) && (k in s'.b2 <==> k in s.b2) && k !in s'.t1 && k !in s'.t2
  }

  lemma ReplaceT1<K, V>(s: State<K, V>, empty: V, k: K)
    requires TidyBut(s, k) && k !in s.t1 && k !in s.t2 && s.t1 != []
    ensures ReplacePost(s, GhostT1(s, empty), k)
  {
    var lru := Last(s.t1);
    SplitLast(s.t1);
    LastIsUnique(s, s.t1);
    var b1 := [lru] + s.b1;
    assert multiset(b1) == multiset(s.b1) + multiset{lru};
    assert Ghosted(s.data, lru, empty).Keys == s.data.Keys;
    OnePlace(s, lru);
  }

  lemma ReplaceT2<K, V>(s: State<K, V>, empty: V, k: K)
    requires TidyBut(s, k) && k !in s.t1 && k !in s.t2 && s.t2 != []
    ensures ReplacePost(s, GhostT2(s, empty), k)
  {
    var lru := Last(s.t2);
    SplitLast(s.t2);
    LastIsUnique(s, s.t2);
    var b2 := [lru] + s.b2;
    assert multiset(b2) == multiset(s.b2) + multiset{lru};
    assert Ghosted(s.data, lru, empty).Keys == s.data.Keys;
    OnePlace(s, lru);
  }

  lemma ReplaceOk<K, V>(s: State<K, V>, inB2: bool, empty: V, k: K) returns (s': State<K, V>)
    requires TidyBut(s, k) && k !in s.t1 && k !in s.t2
    requires |s.t1| > 0 || |s.t2| > 0
    requires s.t2 == [] ==> |s.t1| > s.p
    ensures Replace(s, inB2, empty) == Some(s') && ReplacePost(s, s', k)
  {
    if |s.t1| > 0 && (|s.t1| > s.p || (inB2 && |s.t1| == s.p)) {
      ReplaceT1(s, empty, k);
      s' := GhostT1(s, empty);
    } else {
      ReplaceT2(s, empty, k);
      s' := GhostT2(s, empty);
    }
  }

  ghost predicate DelPost<K, V>(s: State<K, V>, s': State<K, V>, k: K) {
    && TidyBut(s', k) && Frame(s, s', k) && s'.p == s.p && k !in s'.data
  }

  lemma DelT1<K, V>(s: State<K, V>, k: K)
    requires TidyBut(s, k) && k !in s.data && s.t1 != []
    ensures DelPost(s, DropT1(s), k)
  {
    SplitLast(s.t1);
    LastIsUnique(s, s.t1);
    assert multiset((s.data - {Last(s.t1)}).Keys) == multiset(s.data.Keys) - multiset{Last(s.t1)};
  }

  lemma DelB1<K, V>(s: State<K, V>, k: K)
    requires TidyBut(s, k) && k !in s.data && s.b1 != []
    ensures DelPost(s, DropB1(s), k)
  {
    SplitLast(s.b1);
    LastIsUnique(s, s.b1);
    assert multiset((s.data - {Last(s.b1)}).Keys) == multiset(s.data.Keys) - multiset{Last(s.b1)};
  }

  lemma DelB2<K, V>(s: State<K, V>, k: K)
    requires TidyBut(s, k) && k !in s.data && s.b2 != []
    ensures DelPost(s, DropB2(s), k)
  {
    SplitLast(s.b2);
    LastIsUnique(s, s.b2);
    assert multiset((s.data - {Last(s.b2)}).Keys) == multiset(s.data.Keys) - multiset{Last(s.b2)};
  }

  // ------------------------------------------------------------- serving a key

  /** The lists once key k has its place: in front of t2 if it was known, else of t1. */
  ghost predicate Served<K, V>(s: State<K, V>, k: K, known: bool) {
    && Keys(s) == multiset(s.data.Keys) + (if known then multiset{} else multiset{k})
    && (forall k' :: k' in s.data && k' != k && k' in s.t1 ==> !s.data[k'].isGhost)
    && (forall k' :: k' in s.data && k' != k && k' in s.b1 ==> s.data[k'].isGhost)
    && (forall k' :: k' in s.data && k' != k && k' in s.b2 ==> s.data[k'].isGhost)
    && k !in s.b1 && k !in s.b2
    && (if known then k !in s.t1 && s.t2 != [] && s.t2[0] == k
        else k !in s.data && s.t1 != [] && s.t1[0] == k)
  }

  ghost predicate ReqPost<K, V>(s: State<K, V>, s': State<K, V>, k: K) {
    Bounds(s') && Frame(s, s', k) && Served(s', k, k in s.data)
  }

  lemma RemovedIsGone<K>(s: seq<K>, k: K)
    requires multiset(s)[k] == 1
    ensures k !in Remove(s, k)
    ensures forall k' :: k' in Remove(s, k) ==> k' in s
  {
    assert k in multiset(s);
    RemoveOne(s, k);
    assert multiset(Remove(s, k))[k] == 0;
    assert k in Remove(s, k) <==> k in multiset(Remove(s, k));
    forall k' | k' in Remove(s, k)
      ensures k' in s
    {
      assert k' in multiset(Remove(s, k));
      assert k' in multiset(s);
    }
  }

  lemma FromT1<K, V>(s: State<K, V>, k: K)
    requires TidyBut(s, k) && k in s.t1
    ensures Served(s.(t1 := Remove(s.t1, k), t2 := [k] + s.t2), k, true)
  {
    OnePlace(s, k);
    RemoveOne(s.t1, k);
    RemovedIsGone(s.t1, k);
  }

  lemma FromT2<K, V>(s: State<K, V>, k: K)
    requires TidyBut(s, k) && k in s.t2
    ensures Served(s.(t2 := [k] + Remove(s.t2, k)), k, true)
  {
    OnePlace(s, k);
    RemoveOne(s.t2, k);
  }

  lemma FromB1<K, V>(s: State<K, V>, k: K)
    requires TidyBut(s, k) && k in s.b1
    ensures Served(s.(b1 := Remove(s.b1, k), t2 := [k] + s.t2), k, true)
  {
    OnePlace(s, k);
    RemoveOne(s.b1, k);
    RemovedIsGone(s.b1, k);
  }

  lemma FromB2<K, V>(s: State<K, V>, k: K)
    requires TidyBut(s, k) && k in s.b2
    ensures Served(s.(b2 := Remove(s.b2, k), t2 := [k] + s.t2), k, true)
  {
    OnePlace(s, k);
    RemoveOne(s.b2, k);
    RemovedIsGone(s.b2, k);
  }

  /** Case I: the key is cached. */
  lemma ReqCached<K, V>(s: State<K, V>, k: K, empty: V) returns (s': State<K, V>)
    requires s.c >= 1 && Bounds(s) && TidyBut(s, k) && (k in s.t1 || k in s.t2)
    ensures Req(s, k, empty) == Some(s') && ReqPost(s, s', k)
  {
    OnePlace(s, k);
    if k in s.t1 {
      FromT1(s, k);
      RemoveOne(s.t1, k);
      s' := s.(t1 := Remove(s.t1, k), t2 := [k] + s.t2);
    } else {
      FromT2(s, k);
      RemoveOne(s.t2, k);
      s' := s.(t2 := [k] + Remove(s.t2, k));
    }
  }

  ghost predicate CanEvict<K, V>(s: State<K, V>) {
    s.c >= 1 && Bounds(s) && (s.t2 == [] ==> |s.t1| > s.p)
  }

  lemma ReviveB1Ok<K, V>(s: State<K, V>, k: K, empty: V) returns (s': State<K, V>)
    requires CanEvict(s) && TidyBut(s, k) && k in s.b1
    ensures Revive(s, k, false, empty) == Some(s') && ReqPost(s, s', k)
  {
    OnePlace(s, k);
    var s2 := ReplaceOk(s, false, empty, k);
    FromB1(s2, k);
    RemoveOne(s2.b1, k);
    s' := s2.(b1 := Remove(s2.b1, k), t2 := [k] + s2.t2);
  }

  lemma ReviveB2Ok<K, V>(s: State<K, V>, k: K, empty: V) returns (s': State<K, V>)
    requires CanEvict(s) && TidyBut(s, k) && k in s.b2
    ensures Revive(s, k, true, empty) == Some(s') && ReqPost(s, s', k)
  {
    OnePlace(s, k);
    var s2 := ReplaceOk(s, true, empty, k);
    FromB2(s2, k);
    RemoveOne(s2.b2, k);
    s' := s2.(b2 := Remove(s2.b2, k), t2 := [k] + s2.t2);
  }

  /** Case II: the key is a ghost of t1, so the cache is full; p grows, and something is
      evicted to make room. */
  lemma ReqB1<K, V>(s: State<K, V>, k: K, empty: V) returns (s': State<K, V>)
    requires s.c >= 1 && Bounds(s) && TidyBut(s, k) && k in s.b1
    ensures Req(s, k, empty) == Some(s') && ReqPost(s, s', k)
  {
    OnePlace(s, k);
    AtLeastOne(|s.b2|, |s.b1|);
    s' := ReviveB1Ok(s.(p := Min(s.p + GrowBy(s), s.c)), k, empty);
  }

  /** Case III: the key is a ghost of t2; p shrinks. */
  lemma ReqB2<K, V>(s: State<K, V>, k: K, empty: V) returns (s': State<K, V>)
    requires s.c >= 1 && Bounds(s) && TidyBut(s, k) && k in s.b2
    ensures Req(s, k, empty) == Some(s') && ReqPost(s, s', k)
  {
    OnePlace(s, k);
    AtLeastOne(|s.b1|, |s.b2|);
    s' := ReviveB2Ok(s.(p := Max(s.p - ShrinkBy(s), 0)), k, empty);
  }

  lemma AtLeastOne(a: nat, b: nat)
    ensures 0 < b < a ==> a / b >= 1
  {}

  // ------------------------------------------------------------- new keys

  /** Room has been made for a new key. */
  ghost predicate RoomPost<K, V>(s: State<K, V>, s': State<K, V>, k: K) {
    && TidyBut(s', k) && Frame(s, s', k) && k !in s'.data && 0 <= s'.p <= s'.c
    && |s'.t1| + |s'.t2| < s'.c
    && |s'.t1| + |s'.b1| < s'.c
    && Total(s') < 2 * s'.c
    && (s'.b1 != [] || s'.b2 != [] ==> |s'.t1| + |s'.t2| == s'.c - 1)
  }

  lemma FrameTrans<K, V>(s: State<K, V>, s1: State<K, V>, s2: State<K, V>, k: K)
    requires k !in s.data && Frame(s, s1, k) && Frame(s1, s2, k)
    ensures Frame(s, s2, k)
  {}

  /** Evicting from a cache that is full but whose t1 is not. */
  lemma EvictForNew<K, V>(s: State<K, V>, s1: State<K, V>, k: K, empty: V) returns (s': State<K, V>)
    requires s.c >= 1 && TidyBut(s1, k) && k !in s.data && k !in s1.data && Frame(s, s1, k)
    requires 0 <= s1.p <= s1.c && |s1.t1| + |s1.t2| == s1.c && |s1.t1| + |s1.b1| < s1.c && Total(s1) < 2 * s1.c
    ensures Replace(s1, false, empty) == Some(s') && RoomPost(s, s', k)
  {
    OnePlace(s1, k);
    s' := ReplaceOk(s1, false, empty, k);
    FrameTrans(s, s1, s', k);
  }

  /** Case IV A: t1 and b1 together are full. */
  lemma RoomA<K, V>(s: State<K, V>, k: K, empty: V) returns (s': State<K, V>)
    requires s.c >= 1 && Bounds(s) && TidyBut(s, k) && k !in s.data && |s.t1| + |s.b1| == s.c
    ensures MakeRoom(s, empty) == Some(s') && RoomPost(s, s', k)
  {
    if |s.t1| < s.c {
      DelB1(s, k);
      SplitLast(s.b1);
      s' := EvictForNew(s, DropB1(s), k, empty);
    } else {
      DelT1(s, k);
      SplitLast(s.t1);
      s' := DropT1(s);
    }
  }

  /** Case IV B: they are not. */
  lemma RoomB<K, V>(s: State<K, V>, k: K, empty: V) returns (s': State<K, V>)
    requires s.c >= 1 && Bounds(s) && TidyBut(s, k) && k !in s.data && |s.t1| + |s.b1| < s.c
    ensures MakeRoom(s, empty) == Some(s') && RoomPost(s, s', k)
  {
    if Total(s) == 2 * s.c {
      DelB2(s, k);
      SplitLast(s.b2);
      s' := EvictForNew(s, DropB2(s), k, empty);
    } else if Total(s) >= s.c {
      s' := EvictForNew(s, s, k, empty);
    } else {
      s' := s;
    }
  }

  lemma NewInFront<K, V>(s: State<K, V>, s1: State<K, V>, k: K)
    requires RoomPost(s, s1, k) && k !in s.data
    ensures ReqPost(s, s1.(t1 := [k] + s1.t1), k)
  {
    OnePlace(s1, k);
    assert multiset([k] + s1.t1) == multiset(s1.t1) + multiset{k};
  }

  lemma ReqNew<K, V>(s: State<K, V>, k: K, empty: V) returns (s': State<K, V>)
    requires s.c >= 1 && Bounds(s) && TidyBut(s, k) && k !in s.data
    ensures Req(s, k, empty) == Some(s') && ReqPost(s, s', k)
  {
    if |s.t1| + |s.b1| == s.c {
      s' := RoomA(s, k, empty);
    } else {
      s' := RoomB(s, k, empty);
    }
    NewInFront(s, s', k);
    OnePlace(s, k);
    s' := s'.(t1 := [k] + s'.t1);
  }

  /** The request transition never takes the back of an empty list, never divides by
      zero, and keeps the bounds. */
  lemma ReqOk<K, V>(s: State<K, V>, k: K, empty: V) returns (s': State<K, V>)
    requires s.c >= 1 && Bounds(s) && TidyBut(s, k)
    ensures Req(s, k, empty) == Some(s') && ReqPost(s, s', k)
  {
    OnePlace(s, k);
    if k in s.t1 || k in s.t2 {
      s' := ReqCached(s, k, empty);
    } else if k in s.b1 {
      s' := ReqB1(s, k, empty);
    } else if k in s.b2 {
      s' := ReqB2(s, k, empty);
    } else {
      s' := ReqNew(s, k, empty);
    }
  }

  // ------------------------------------------------------------- the operations

  ghost predicate SetPost<K, V>(s: State<K, V>, s': State<K, V>, k: K, item: Item<V>) {
    && Inv(s') && s'.c == s.c
    && k in s'.data && s'.data[k] == item
    && forall k' :: k' in s'.data && k' != k ==> k' in s.data && (s'.data[k'] == s.data[k'] || s'.data[k'].isGhost)
  }

  lemma StoredKnown<K, V>(s: State<K, V>, s1: State<K, V>, s2: State<K, V>, k: K, item: Item<V>)
    requires s.c >= 1 && k in s.data && s1.data == s.data[k := item] && s1.c == s.c && ReqPost(s1, s2, k)
    ensures SetPost(s, s2, k, item)
  {}

  lemma Admitted<K, V>(s: State<K, V>, k: K, item: Item<V>, len: int)
    requires Inv(s)
    ensures var s1 := s.(len := len); Bounds(s1) && TidyBut(s1, k)
    ensures var s1 := s.(len := len, data := s.data[k := item]); k in s.data ==> Bounds(s1) && TidyBut(s1, k)
  {
  }

  /** Storing the item of a new key once the key has its place; the length counter plays
      no part. */
  lemma StoredNew<K, V>(s: State<K, V>, s1: State<K, V>, s2: State<K, V>, k: K, item: Item<V>)
    requires s.c >= 1 && s1 == s.(len := s1.len) && k !in s.data && !item.isGhost && ReqPost(s1, s2, k)
    ensures SetPost(s, s2.(data := s2.data[k := item]), k, item)
  {
    assert multiset(s2.data[k := item].Keys) == multiset(s2.data.Keys) + multiset{k};
  }

  lemma SetNewOk<K, V>(s: State<K, V>, k: K, item: Item<V>, empty: V) returns (s': State<K, V>)
    requires Inv(s) && k !in s.data && !item.isGhost
    ensures SetNew(s, k, item, empty) == Some(s') && SetPost(s, s', k, item)
  {
    var s1 := s.(len := s.len + 1);
    Admitted(s, k, item, s.len + 1);
    var s2 := ReqOk(s1, k, empty);
    s' := s2.(data := s2.data[k := item]);
    SetNewIs(s, k, item, empty, Some(s2));
    StoredNew(s, s1, s2, k, item);
  }

  lemma SetNewIs<K, V>(s: State<K, V>, k: K, item: Item<V>, empty: V, r: Option<State<K, V>>)
    requires r == Req(s.(len := s.len + 1), k, empty)
    ensures SetNew(s, k, item, empty) == Stored(r, k, item)
  {
  }

  lemma SetKnownOk<K, V>(s: State<K, V>, k: K, item: Item<V>, empty: V) returns (s': State<K, V>)
    requires Inv(s) && k in s.data && !item.isGhost
    ensures SetKnown(s, k, item, empty) == Some(s') && SetPost(s, s', k, item)
  {
    var len := if s.data[k].isGhost then s.len + 1 else s.len;
    var s1 := s.(len := len, data := s.data[k := item]);
    Admitted(s, k, item, len);
    s' := ReqOk(s1, k, empty);
    StoredKnown(s, s1, s', k, item);
  }

  /** A Set never crashes, keeps the invariant, stores the entry as a live one, and leaves
      the others as they are or turns them into ghosts. */
  lemma SetOk<K, V>(s: State<K, V>, k: K, v: V, expires: int, empty: V)
    requires Inv(s)
    ensures Set(s, k, v, expires, empty).Some?
    ensures SetPost(s, Set(s, k, v, expires, empty).value, k, Item(v, false, expires))
  {
    if k !in s.data {
      var _ := SetNewOk(s, k, Item(v, false, expires), empty);
    } else {
      var _ := SetKnownOk(s, k, Item(v, false, expires), empty);
    }
  }

  lemma GetOk<K, V>(s: State<K, V>, k: K, empty: V)
    requires Inv(s)
    ensures Get(s, k, empty).Some?
    ensures var s' := Get(s, k, empty).value;
      && Inv(s') && s'.c == s.c
      && (k in s'.data <==> k in s.data) && (k in s.data ==> s'.data[k] == s.data[k])
      && forall k' :: k' in s'.data ==> k' in s.data && (s'.data[k'] == s.data[k'] || s'.data[k'].isGhost)
  {
    if k in s.data {
      var _ := ReqOk(s, k, empty);
    }
  }

  // ------------------------------------------------------------- runs

  datatype Op<K, V> = OpSet(key: K, value: V, expires: int) | OpGet(key: K) | OpClear

  function Apply<K(==), V>(s: State<K, V>, op: Op<K, V>, empty: V): Option<State<K, V>> {
    match op
    case OpSet(k, v, expires) => Set(s, k, v, expires, empty)
    case OpGet(k) => Get(s, k, empty)
    case OpClear => Some(New(s.c))
  }

  /** The state after a run, or None if some step of it crashes. */
  function Run<K(==), V>(s: State<K, V>, ops: seq<Op<K, V>>, empty: V): Option<State<K, V>> {
    if ops == [] then Some(s)
    else
      var before := Run(s, ops[..|ops| - 1], empty);
      if before.None? then None else Apply(before.value, ops[|ops| - 1], empty)
  }

  /** The value and expiry of the latest Set of k since the last Clear. */
  function LatestSet<K(==), V>(ops: seq<Op<K, V>>, k: K): Option<(V, int)> {
    if ops == [] then None
    else
      match ops[|ops| - 1]
      case OpClear => None
      case OpSet(k', v, expires) => if k' == k then Some((v, expires)) else LatestSet(ops[..|ops| - 1], k)
      case OpGet(_) => LatestSet(ops[..|ops| - 1], k)
  }

  /** Every live entry is the latest Set of its key. */
  ghost predicate Fresh<K(!new), V>(s: State<K, V>, ops: seq<Op<K, V>>) {
    forall k :: Hit(s, k) ==> LatestSet(ops, k) == Some((s.data[k].value, s.data[k].expires))
  }

  lemma NewOk<K(!new), V>(c: int)
    requires c >= 1
    ensures Inv(New<K, V>(c))
  {
  }

  /** With a capacity of at least one, no run crashes, and every state it reaches keeps the
      bounds and holds only the latest values. */
  lemma {:induction false} RunOk<K(!new), V>(c: int, ops: seq<Op<K, V>>, empty: V)
    requires c >= 1
    ensures Run(New(c), ops, empty).Some?
    ensures var s := Run(New(c), ops, empty).value; s.c == c && Inv(s) && Fresh(s, ops)
  {
    if ops == [] {
      NewOk<K, V>(c);
    } else {
      var prefix, op := ops[..|ops| - 1], ops[|ops| - 1];
      RunOk(c, prefix, empty);
      var s := Run(New(c), prefix, empty).value;
      match op
      case OpSet(k, v, expires) => SetOk(s, k, v, expires, empty);
      case OpGet(k) => GetOk(s, k, empty);
      case OpClear => NewOk<K, V>(c);
    }
  }

  /** The cache is sound: whenever a Get after any run reports a hit, the value and expiry
      are those of the latest Set of that key since the last Clear. */
  lemma CacheIsSound<K(!new), V>(c: int, ops: seq<Op<K, V>>, k: K, empty: V)
    requires c >= 1
    ensures Run(New(c), ops + [OpGet(k)], empty).Some?
    ensures var s := Run(New(c), ops + [OpGet(k)], empty).value;
      Hit(s, k) ==> LatestSet(ops, k) == Some((s.data[k].value, s.data[k].expires))
  {
    var run := ops + [OpGet(k)];
    RunOk(c, run, empty);
    assert run[..|run| - 1] == ops;
  }

  // ------------------------------------------------------------- other capacities

  /** With a negative capacity nothing is ever evicted. */
  ghost predicate Unbounded<K, V>(s: State<K, V>) {
    && s.c < 0 && s.b1 == [] && s.b2 == []
    && forall k :: k in s.data ==> k in s.t1 || k in s.t2
  }

  lemma {:induction false} RemoveKeepsOthers<K>(s: seq<K>, k: K, k': K)
    requires k' in s && k' != k
    ensures k' in Remove(s, k)
  {
    if s[0] != k && s[0] != k' {
      RemoveKeepsOthers(s[1..], k, k');
    }
  }

  lemma NegativeStep<K(!new), V>(s: State<K, V>, op: Op<K, V>, empty: V)
    requires Unbounded(s)
    ensures Apply(s, op, empty).Some? && Unbounded(Apply(s, op, empty).value) && Apply(s, op, empty).value.c == s.c
  {
    if !op.OpClear? {
      forall k | k in s.t1 && k != op.key
        ensures k in Remove(s.t1, op.key)
      {
        RemoveKeepsOthers(s.t1, op.key, k);
      }
      forall k | k in s.t2 && k != op.key
        ensures k in Remove(s.t2, op.key)
      {
        RemoveKeepsOthers(s.t2, op.key, k);
      }
    }
  }

  lemma {:induction false} NegativeRun<K(!new), V>(c: int, ops: seq<Op<K, V>>, empty: V)
    requires c < 0
    ensures Run(New(c), ops, empty).Some?
    ensures Unbounded(Run(New(c), ops, empty).value) && Run(New(c), ops, empty).value.c == c
  {
    if ops != [] {
      NegativeRun(c, ops[..|ops| - 1], empty);
      NegativeStep(Run(New(c), ops[..|ops| - 1], empty).value, ops[|ops| - 1], empty);
    }
  }

  predicate StoresNothing<K, V>(ops: seq<Op<K, V>>) {
    forall i :: 0 <= i < |ops| ==> !ops[i].OpSet?
  }

  /** With a capacity of zero the first Set crashes, and until then the cache is empty. */
  lemma {:induction false} ZeroRun<K(!new), V>(ops: seq<Op<K, V>>, empty: V)
    ensures Run(New(0), ops, empty) == if StoresNothing(ops) then Some(New(0)) else None
  {
    if ops != [] {
      var before, last := ops[..|ops| - 1], ops[|ops| - 1];
      ZeroRun(before, empty);
      assert ops == before + [last];
      assert forall i :: 0 <= i < |before| ==> before[i] == ops[i];
      assert StoresNothing(ops) ==> StoresNothing(before);
    }
  }

  /** A run crashes exactly when the capacity is zero and the run holds a Set. */
  lemma RunsUnlessZero<K(!new), V>(c: int, ops: seq<Op<K, V>>, empty: V)
    ensures Run(New(c), ops, empty).Some? <==> c != 0 || StoresNothing(ops)
  {
    if c > 0 {
      RunOk(c, ops, empty);
    } else if c == 0 {
      ZeroRun(ops, empty);
    } else {
      NegativeRun(c, ops, empty);
    }
  }

  /** The last case of the request switch: t1 and b1 over capacity. */
  predicate LastCase<K, V>(s: State<K, V>) {
    |s.t1| + |s.b1| > s.c
  }

  /** After any run, the last case is the one a new key takes exactly when the capacity is
      negative; with any other capacity it never arises. */
  lemma LastCaseIsNegative<K(!new), V>(c: int, ops: seq<Op<K, V>>, empty: V)
    requires Run(New(c), ops, empty).Some?
    ensures LastCase(Run(New(c), ops, empty).value) <==> c < 0
  {
    if c > 0 {
      RunOk(c, ops, empty);
    } else if c == 0 {
      ZeroRun(ops, empty);
    } else {
      NegativeRun(c, ops, empty);
    }
  }

  ghost predicate NeverCrashes<K(!new), V(!new)>(c: int, empty: V) {
    forall ops: seq<Op<K, V>> :: Run<K, V>(New(c), ops, empty).Some?
  }

  /** A cache crashes on some run exactly when its capacity is zero, which is what it has
      when no size option is given. */
  lemma CrashesOnlyAtZero<K(!new), V(!new)>(c: int, k: K, v: V, empty: V)
    ensures NeverCrashes<K, V>(c, empty) <==> c != 0
  {
    if c == 0 {
      var run: seq<Op<K, V>> := [OpSet(k, v, 0)];
      assert run[0].OpSet?;
      RunsUnlessZero(c, run, empty);
    } else {
      forall ops: seq<Op<K, V>>
        ensures Run<K, V>(New(c), ops, empty).Some?
      {
        RunsUnlessZero(c, ops, empty);
      }
    }
  }
}
