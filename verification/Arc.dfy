/** The adaptive replacement cache as it is written: entry objects that know the list they
    stand in, four lists of them, and a map from keys to entries. Every method is proved to
    take the abstract state of `ArcSpec` one step, whatever the capacity. */
module Arc {
  import opened Options
  import Spec = ArcSpec

  /** A linked list by its contents, front first. */
  class List<K, V> {
    var items: seq<Entry<K, V>>

    constructor ()
      ensures items == []
    {
      items := [];
    }
  }

  class Entry<K, V> {
    const key: K
    var value: V
    var isGhost: bool
    var expires: int
    var ll: List?<K, V>

    constructor (key: K, value: V, expires: int)
      ensures this.key == key && this.value == value && !isGhost && this.expires == expires && ll == null
    {
      this.key := key;
      this.value := value;
      this.isGhost := false;
      this.expires := expires;
      this.ll := null;
    }

    ghost function Item(): Spec.Item<V>
      reads this`value, this`isGhost, this`expires
    {
      Spec.Item(value, isGhost, expires)
    }

    /** Take the entry out of its list, if it stands in one. */
    method Detach()
      modifies ll
      ensures ll != null ==> ll.items == Without(old(ll.items), this)
    {
      if ll != null {
        ll.items := Without(ll.items, this);
      }
    }

    /** Move the entry to the front of a list. */
    method SetMRU(list: List<K, V>)
      modifies this`ll, ll, list
      ensures ll == list
      ensures old(ll) != null && old(ll) != list ==> old(ll).items == Without(old(ll.items), this)
      ensures list.items == [this] + if old(ll) == list then Without(old(list.items), this) else old(list.items)
    {
      Detach();
      ll := list;
      ll.items := [this] + ll.items;
    }
  }

  // ------------------------------------------------------------- lists of entries

  function KeysOf<K, V>(list: seq<Entry<K, V>>): (keys: seq<K>)
    ensures |keys| == |list|
  {
    if list == [] then [] else [list[0].key] + KeysOf(list[1..])
  }

  lemma {:induction false} KeyAt<K, V>(list: seq<Entry<K, V>>, i: nat)
    requires i < |list|
    ensures KeysOf(list)[i] == list[i].key
  {
    if i > 0 {
      KeyAt(list[1..], i - 1);
    }
  }

  /** A list without one of its entries. */
  function Without<K, V>(list: seq<Entry<K, V>>, e: Entry<K, V>): (rest: seq<Entry<K, V>>)
    ensures forall i :: 0 <= i < |rest| ==> rest[i] in list
  {
    if list == [] then [] else if list[0] == e then list[1..] else [list[0]] + Without(list[1..], e)
  }

  lemma {:induction false} WithoutOne<K, V>(list: seq<Entry<K, V>>, e: Entry<K, V>)
    requires e in list
    ensures multiset(Without(list, e)) == multiset(list) - multiset{e}
  {
    assert list == [list[0]] + list[1..];
    if list[0] != e {
      WithoutOne(list[1..], e);
      assert multiset(list) == multiset{list[0]} + multiset(list[1..]);
    }
  }

  /** Removing an entry removes its key. */
  lemma {:induction false} WithoutKeys<K, V>(list: seq<Entry<K, V>>, e: Entry<K, V>)
    requires forall x :: x in list && x.key == e.key ==> x == e
    ensures KeysOf(Without(list, e)) == Spec.Remove(KeysOf(list), e.key)
  {
    if list != [] {
      assert list[0] in list;
      WithoutKeys(list[1..], e);
      assert KeysOf(list)[1..] == KeysOf(list[1..]);
      var rest := Without(list[1..], e);
      assert ([list[0]] + rest)[1..] == rest;
    }
  }

  lemma {:induction false} WithoutLast<K, V>(list: seq<Entry<K, V>>)
    requires list != [] && Spec.Last(list) !in Spec.Front(list)
    ensures Without(list, Spec.Last(list)) == Spec.Front(list)
    ensures KeysOf(Spec.Front(list)) == Spec.Front(KeysOf(list))
  {
    if |list| == 1 {
      assert Spec.Front(list) == [];
    } else {
      assert list[0] == Spec.Front(list)[0];
      assert Spec.Front(list) == [list[0]] + Spec.Front(list[1..]);
      assert forall i :: 0 <= i < |list| - 2 ==> Spec.Front(list[1..])[i] == Spec.Front(list)[i + 1];
      WithoutLast(list[1..]);
    }
  }

  /** A list after an entry left it, or joined it at the front, or both. */
  function After<K, V>(items: seq<Entry<K, V>>, e: Entry<K, V>, leaves: bool, joins: bool): seq<Entry<K, V>> {
    var rest := if leaves then Without(items, e) else items;
    if joins then [e] + rest else rest
  }

  // ------------------------------------------------------------- shapes

  /** The list an entry stands in. */
  datatype Tag = Unlisted | T1 | B1 | T2 | B2

  /** Who stands where: the four lists, each entry's own list, and the map. */
  datatype Shape<!K, V> = Shape(
    t1: seq<Entry<K, V>>, b1: seq<Entry<K, V>>, t2: seq<Entry<K, V>>, b2: seq<Entry<K, V>>,
    ll: map<Entry<K, V>, Tag>, cache: map<K, Entry<K, V>>)

  ghost function Tagged<K, V>(ll: map<Entry<K, V>, Tag>, tag: Tag): set<Entry<K, V>> {
    set e | e in ll && ll[e] == tag
  }

  /** A list holds, once each, the entries that point to it. */
  ghost predicate Holds<K, V>(list: seq<Entry<K, V>>, tag: Tag, ll: map<Entry<K, V>, Tag>) {
    multiset(list) == multiset(Tagged(ll, tag))
  }

  ghost predicate KeysDistinct<K, V>(ll: map<Entry<K, V>, Tag>) {
    forall e, e' :: e in ll && e' in ll && e.key == e'.key ==> e == e'
  }

  ghost predicate Linked<K, V>(s: Shape<K, V>) {
    && KeysDistinct(s.ll)
    && (forall k :: k in s.cache ==> s.cache[k] in s.ll && s.cache[k].key == k)
    && Holds(s.t1, T1, s.ll) && Holds(s.b1, B1, s.ll) && Holds(s.t2, T2, s.ll) && Holds(s.b2, B2, s.ll)
  }

  /** Every entry stands in a list and in the map; the one being served may be new. */
  ghost predicate Serving<K, V>(s: Shape<K, V>, ent: Entry<K, V>) {
    && Linked(s) && ent in s.ll
    && (forall e :: e in s.ll && e != ent ==> s.ll[e] != Unlisted && e.key in s.cache)
    && (s.ll[ent] == Unlisted ==> ent.key !in s.cache)
  }

  ghost predicate Settled<K, V>(s: Shape<K, V>) {
    && Linked(s)
    && (forall e :: e in s.ll ==> s.ll[e] != Unlisted && e.key in s.cache)
  }

  lemma BoundTo<K, V>(s: Shape<K, V>, e: Entry<K, V>)
    requires Linked(s) && e in s.ll && e.key in s.cache
    ensures forall k :: k in s.cache ==> (s.cache[k] == e <==> k == e.key)
  {
  }

  /** Moving an entry to the front of a list. */
  ghost function Moved<K, V>(s: Shape<K, V>, e: Entry<K, V>, tag: Tag): Shape<K, V>
    requires e in s.ll
  {
    s.(t1 := After(s.t1, e, s.ll[e] == T1, tag == T1),
       b1 := After(s.b1, e, s.ll[e] == B1, tag == B1),
       t2 := After(s.t2, e, s.ll[e] == T2, tag == T2),
       b2 := After(s.b2, e, s.ll[e] == B2, tag == B2),
       ll := s.ll[e := tag])
  }

  lemma HeldIffTagged<K, V>(list: seq<Entry<K, V>>, tag: Tag, ll: map<Entry<K, V>, Tag>, e: Entry<K, V>)
    requires Holds(list, tag, ll)
    ensures e in list <==> e in ll && ll[e] == tag
    ensures multiset(list)[e] == if e in list then 1 else 0
  {
    assert e in list <==> e in multiset(list);
    assert multiset(list)[e] == multiset(Tagged(ll, tag))[e];
  }

  lemma TaggedAfter<K, V>(ll: map<Entry<K, V>, Tag>, e: Entry<K, V>, to: Tag, tag: Tag)
    requires e in ll
    ensures multiset(Tagged(ll[e := to], tag)) ==
            multiset(Tagged(ll, tag)) - multiset{e} + if to == tag then multiset{e} else multiset{}
  {
  }

  lemma HeldAfter<K, V>(list: seq<Entry<K, V>>, e: Entry<K, V>, leaves: bool, joins: bool) returns (after: seq<Entry<K, V>>)
    requires leaves == (e in list) && multiset(list)[e] <= 1
    ensures after == After(list, e, leaves, joins)
    ensures multiset(after) == multiset(list) - multiset{e} + if joins then multiset{e} else multiset{}
  {
    var rest := if leaves then Without(list, e) else list;
    if leaves {
      WithoutOne(list, e);
    } else {
      assert e !in multiset(list);
    }
    after := if joins then [e] + rest else rest;
  }

  lemma HoldsAfter<K, V>(list: seq<Entry<K, V>>, tag: Tag, ll: map<Entry<K, V>, Tag>, e: Entry<K, V>, to: Tag)
      returns (after: seq<Entry<K, V>>)
    requires e in ll && Holds(list, tag, ll)
    ensures after == After(list, e, ll[e] == tag, to == tag)
    ensures Holds(after, tag, ll[e := to])
  {
    HeldIffTagged(list, tag, ll, e);
    TaggedAfter(ll, e, to, tag);
    after := HeldAfter(list, e, ll[e] == tag, to == tag);
  }

  lemma MovedLinked<K, V>(s: Shape<K, V>, e: Entry<K, V>, tag: Tag)
    requires Linked(s) && e in s.ll
    ensures Linked(Moved(s, e, tag))
  {
    var _ := HoldsAfter(s.t1, T1, s.ll, e, tag);
    var _ := HoldsAfter(s.b1, B1, s.ll, e, tag);
    var _ := HoldsAfter(s.t2, T2, s.ll, e, tag);
    var _ := HoldsAfter(s.b2, B2, s.ll, e, tag);
  }

  /** Forgetting an entry altogether. */
  ghost function Forgotten<K, V>(s: Shape<K, V>, e: Entry<K, V>): Shape<K, V>
    requires e in s.ll
  {
    Moved(s, e, Unlisted).(ll := s.ll - {e}, cache := s.cache - {e.key})
  }

  lemma ForgottenHolds<K, V>(list: seq<Entry<K, V>>, tag: Tag, ll: map<Entry<K, V>, Tag>, e: Entry<K, V>)
    requires tag != Unlisted && Holds(list, tag, ll[e := Unlisted])
    ensures Holds(list, tag, ll - {e})
  {
  }

  lemma ForgottenLinked<K, V>(s: Shape<K, V>, e: Entry<K, V>)
    requires Linked(s) && e in s.ll
    ensures Linked(Forgotten(s, e))
  {
    MovedLinked(s, e, Unlisted);
    var m := Moved(s, e, Unlisted);
    ForgottenHolds(m.t1, T1, s.ll, e);
    ForgottenHolds(m.b1, B1, s.ll, e);
    ForgottenHolds(m.t2, T2, s.ll, e);
    ForgottenHolds(m.b2, B2, s.ll, e);
  }

  /** The back of a list, and the list without it, in keys. */
  lemma BackOk<K, V>(list: seq<Entry<K, V>>, tag: Tag, ll: map<Entry<K, V>, Tag>) returns (lru: Entry<K, V>)
    requires Holds(list, tag, ll) && list != []
    ensures lru == list[|list| - 1] && lru in ll && ll[lru] == tag
    ensures lru.key == Spec.Last(KeysOf(list))
    ensures KeysOf(Without(list, lru)) == Spec.Front(KeysOf(list))
  {
    lru := list[|list| - 1];
    KeyAt(list, |list| - 1);
    HeldIffTagged(list, tag, ll, lru);
    Spec.SplitLast(list);
    assert lru in Spec.Front(list) <==> lru in multiset(Spec.Front(list));
    WithoutLast(list);
  }

  lemma KeysInFront<K, V>(e: Entry<K, V>, list: seq<Entry<K, V>>)
    ensures KeysOf([e] + list) == [e.key] + KeysOf(list)
  {
  }

  /** Moving another entry does not disturb the one being served. */
  lemma StillServing<K, V>(s: Shape<K, V>, ent: Entry<K, V>, e: Entry<K, V>, tag: Tag)
    requires Serving(s, ent) && e in s.ll && e != ent && tag != Unlisted
    ensures Serving(Moved(s, e, tag), ent) && Moved(s, e, tag).ll[ent] == s.ll[ent]
  {
    MovedLinked(s, e, tag);
  }

  /** The back of t1 becomes the front of b1. */
  lemma BackOfT1<K, V>(s: Shape<K, V>, ent: Entry<K, V>) returns (lru: Entry<K, V>, s': Shape<K, V>)
    requires Serving(s, ent) && s.t1 != [] && s.ll[ent] != T1
    ensures lru == s.t1[|s.t1| - 1] && lru in s.ll && lru != ent && s.ll[lru] == T1 && s' == Moved(s, lru, B1)
    ensures Serving(s', ent) && s'.ll[ent] == s.ll[ent]
    ensures lru.key == Spec.Last(KeysOf(s.t1)) && KeysOf(s'.t1) == Spec.Front(KeysOf(s.t1))
    ensures KeysOf(s'.b1) == [lru.key] + KeysOf(s.b1) && s'.t2 == s.t2 && s'.b2 == s.b2
  {
    lru := BackOk(s.t1, T1, s.ll);
    StillServing(s, ent, lru, B1);
    KeysInFront(lru, s.b1);
    s' := Moved(s, lru, B1);
  }

  /** The back of t2 becomes the front of b2. */
  lemma BackOfT2<K, V>(s: Shape<K, V>, ent: Entry<K, V>) returns (lru: Entry<K, V>, s': Shape<K, V>)
    requires Serving(s, ent) && s.t2 != [] && s.ll[ent] != T2
    ensures lru == s.t2[|s.t2| - 1] && lru in s.ll && lru != ent && s.ll[lru] == T2 && s' == Moved(s, lru, B2)
    ensures Serving(s', ent) && s'.ll[ent] == s.ll[ent]
    ensures lru.key == Spec.Last(KeysOf(s.t2)) && KeysOf(s'.t2) == Spec.Front(KeysOf(s.t2))
    ensures KeysOf(s'.b2) == [lru.key] + KeysOf(s.b2) && s'.t1 == s.t1 && s'.b1 == s.b1
  {
    lru := BackOk(s.t2, T2, s.ll);
    StillServing(s, ent, lru, B2);
    KeysInFront(lru, s.b2);
    s' := Moved(s, lru, B2);
  }

  ghost function ListIn<K, V>(s: Shape<K, V>, tag: Tag): seq<Entry<K, V>> {
    match tag
    case Unlisted => []
    case T1 => s.t1
    case B1 => s.b1
    case T2 => s.t2
    case B2 => s.b2
  }

  lemma ForgottenServing<K, V>(s: Shape<K, V>, ent: Entry<K, V>, e: Entry<K, V>)
    requires Serving(s, ent) && s.ll[ent] == Unlisted && e in s.ll && e != ent
    ensures Serving(Forgotten(s, e), ent) && Forgotten(s, e).ll[ent] == Unlisted
  {
    ForgottenLinked(s, e);
  }

  /** The back of a list is forgotten. */
  lemma BackForgotten<K, V>(s: Shape<K, V>, ent: Entry<K, V>, tag: Tag) returns (lru: Entry<K, V>, s': Shape<K, V>)
    requires Serving(s, ent) && s.ll[ent] == Unlisted && ListIn(s, tag) != []
    ensures lru == ListIn(s, tag)[|ListIn(s, tag)| - 1] && lru in s.ll && lru != ent && s.ll[lru] == tag
    ensures s' == Forgotten(s, lru) && Serving(s', ent) && s'.ll[ent] == Unlisted
    ensures ListIn(s', tag) == Without(ListIn(s, tag), lru)
    ensures lru.key == Spec.Last(KeysOf(ListIn(s, tag))) && KeysOf(ListIn(s', tag)) == Spec.Front(KeysOf(ListIn(s, tag)))
    ensures forall k :: k in s.cache ==> (s.cache[k] == lru <==> k == lru.key)
  {
    lru := BackOk(ListIn(s, tag), tag, s.ll);
    BoundTo(s, lru);
    ForgottenServing(s, ent, lru);
    s' := Forgotten(s, lru);
  }

  /** The abstract state of a shape and the remaining fields. */
  ghost function StateOf<K, V>(s: Shape<K, V>, p: int, c: int, len: int, data: map<K, Spec.Item<V>>): Spec.State<K, V> {
    Spec.State(p, c, len, KeysOf(s.t1), KeysOf(s.b1), KeysOf(s.t2), KeysOf(s.b2), data)
  }

  /** An entry's own list is the one list that holds its key. */
  lemma KeyIsWhereEntryIs<K, V>(s: Shape<K, V>, e: Entry<K, V>, tag: Tag)
    requires Linked(s) && e in s.ll && tag != Unlisted
    ensures e.key in KeysOf(ListIn(s, tag)) <==> s.ll[e] == tag
  {
    var list := ListIn(s, tag);
    HeldIffTagged(list, tag, s.ll, e);
    if e in list {
      var i :| 0 <= i < |list| && list[i] == e;
      KeyAt(list, i);
    }
    if e.key in KeysOf(list) {
      var i :| 0 <= i < |list| && KeysOf(list)[i] == e.key;
      KeyAt(list, i);
      HeldIffTagged(list, tag, s.ll, list[i]);
    }
  }

  /** The four lists of keys show where an entry stands. */
  lemma WhereKeyIs<K, V>(s: Shape<K, V>, e: Entry<K, V>)
    requires Linked(s) && e in s.ll
    ensures e.key in KeysOf(s.t1) <==> s.ll[e] == T1
    ensures e.key in KeysOf(s.b1) <==> s.ll[e] == B1
    ensures e.key in KeysOf(s.t2) <==> s.ll[e] == T2
    ensures e.key in KeysOf(s.b2) <==> s.ll[e] == B2
    ensures s.ll[e] != Unlisted ==> ListIn(s, s.ll[e]) != []
  {
    KeyIsWhereEntryIs(s, e, T1);
    KeyIsWhereEntryIs(s, e, B1);
    KeyIsWhereEntryIs(s, e, T2);
    KeyIsWhereEntryIs(s, e, B2);
  }

  function MovedKeys<K(==)>(keys: seq<K>, k: K, leaves: bool, joins: bool): seq<K> {
    var rest := if leaves then Spec.Remove(keys, k) else keys;
    if joins then [k] + rest else rest
  }

  lemma KeysAfter<K, V>(s: Shape<K, V>, e: Entry<K, V>, tag: Tag, to: Tag)
    requires Linked(s) && e in s.ll && tag != Unlisted
    ensures KeysOf(ListIn(Moved(s, e, to), tag)) == MovedKeys(KeysOf(ListIn(s, tag)), e.key, s.ll[e] == tag, to == tag)
  {
    var list := ListIn(s, tag);
    forall i | 0 <= i < |list| && list[i].key == e.key
      ensures list[i] == e
    {
      HeldIffTagged(list, tag, s.ll, list[i]);
    }
    WithoutKeys(list, e);
    KeysInFront(e, if s.ll[e] == tag then Without(list, e) else list);
  }

  /** The abstract state once key k has moved to the front of a list. */
  function MovedState<K(==), V>(s: Spec.State<K, V>, k: K, from: Tag, to: Tag): Spec.State<K, V> {
    s.(t1 := MovedKeys(s.t1, k, from == T1, to == T1),
       b1 := MovedKeys(s.b1, k, from == B1, to == B1),
       t2 := MovedKeys(s.t2, k, from == T2, to == T2),
       b2 := MovedKeys(s.b2, k, from == B2, to == B2))
  }

  /** The entry served has its place; everything else is settled. */
  ghost predicate Placed<K, V>(s: Shape<K, V>, ent: Entry<K, V>) {
    && Linked(s) && ent in s.ll && s.ll[ent] != Unlisted
    && (forall e :: e in s.ll && e != ent ==> s.ll[e] != Unlisted && e.key in s.cache)
  }

  lemma PlacedOk<K, V>(s: Shape<K, V>, ent: Entry<K, V>, to: Tag, p: int, c: int, len: int, data: map<K, Spec.Item<V>>)
      returns (s': Shape<K, V>)
    requires Serving(s, ent) && to != Unlisted
    ensures s' == Moved(s, ent, to) && Placed(s', ent)
    ensures StateOf(s', p, c, len, data) == MovedState(StateOf(s, p, c, len, data), ent.key, s.ll[ent], to)
  {
    MovedLinked(s, ent, to);
    KeysAfter(s, ent, T1, to);
    KeysAfter(s, ent, B1, to);
    KeysAfter(s, ent, T2, to);
    KeysAfter(s, ent, B2, to);
    s' := Moved(s, ent, to);
  }

  /** Once the entry placed is bound in the map, everything is settled. */
  lemma BindOk<K, V>(s: Shape<K, V>, ent: Entry<K, V>) returns (s': Shape<K, V>)
    requires Placed(s, ent)
    ensures s' == s.(cache := s.cache[ent.key := ent]) && Settled(s')
    ensures forall k :: k in s.cache && s.cache[k] == ent ==> k == ent.key
  {
    s' := s.(cache := s.cache[ent.key := ent]);
  }

  /** A known entry can be served, and once served everything is settled again. */
  lemma KnownOk<K, V>(s: Shape<K, V>, key: K) returns (ent: Entry<K, V>)
    requires Settled(s) && key in s.cache
    ensures ent == s.cache[key] && ent in s.ll && ent.key == key && Serving(s, ent)
    ensures forall k :: k in s.cache ==> (s.cache[k] == ent <==> k == key)
  {
    ent := s.cache[key];
    BoundTo(s, ent);
  }

  lemma HoldsWithNew<K, V>(list: seq<Entry<K, V>>, tag: Tag, ll: map<Entry<K, V>, Tag>, ent: Entry<K, V>)
    requires Holds(list, tag, ll) && tag != Unlisted && ent !in ll
    ensures Holds(list, tag, ll[ent := Unlisted])
  {
  }

  /** A new entry, in no list and not in the map, can be served. */
  lemma AdmitOk<K, V>(s: Shape<K, V>, ent: Entry<K, V>) returns (s': Shape<K, V>)
    requires Settled(s) && ent !in s.ll && ent.key !in s.cache
    ensures s' == s.(ll := s.ll[ent := Unlisted]) && Serving(s', ent)
  {
    HoldsWithNew(s.t1, T1, s.ll, ent);
    HoldsWithNew(s.b1, B1, s.ll, ent);
    HoldsWithNew(s.t2, T2, s.ll, ent);
    HoldsWithNew(s.b2, B2, s.ll, ent);
    s' := s.(ll := s.ll[ent := Unlisted]);
  }

  lemma GhostT1Ok<K, V>(s: Shape<K, V>, s': Shape<K, V>, lru: K, p: int, c: int, len: int, data: map<K, Spec.Item<V>>, empty: V)
    requires s.t1 != [] && lru == Spec.Last(KeysOf(s.t1)) && KeysOf(s'.t1) == Spec.Front(KeysOf(s.t1))
    requires KeysOf(s'.b1) == [lru] + KeysOf(s.b1) && s'.t2 == s.t2 && s'.b2 == s.b2
    ensures StateOf(s', p, c, len - 1, Spec.Ghosted(data, lru, empty)) == Spec.GhostT1(StateOf(s, p, c, len, data), empty)
  {
  }

  lemma GhostT2Ok<K, V>(s: Shape<K, V>, s': Shape<K, V>, lru: K, p: int, c: int, len: int, data: map<K, Spec.Item<V>>, empty: V)
    requires s.t2 != [] && lru == Spec.Last(KeysOf(s.t2)) && KeysOf(s'.t2) == Spec.Front(KeysOf(s.t2))
    requires KeysOf(s'.b2) == [lru] + KeysOf(s.b2) && s'.t1 == s.t1 && s'.b1 == s.b1
    ensures StateOf(s', p, c, len - 1, Spec.Ghosted(data, lru, empty)) == Spec.GhostT2(StateOf(s, p, c, len, data), empty)
  {
  }

  lemma DroppedT1<K, V>(s: Shape<K, V>, s': Shape<K, V>, lru: K, p: int, c: int, len: int, data: map<K, Spec.Item<V>>)
    requires s.t1 != [] && lru == Spec.Last(KeysOf(s.t1)) && KeysOf(s'.t1) == Spec.Front(KeysOf(s.t1))
    requires s'.b1 == s.b1 && s'.t2 == s.t2 && s'.b2 == s.b2
    ensures StateOf(s', p, c, len - 1, data - {lru}) == Spec.DropT1(StateOf(s, p, c, len, data))
  {
  }

  lemma DroppedB1<K, V>(s: Shape<K, V>, s': Shape<K, V>, lru: K, p: int, c: int, len: int, data: map<K, Spec.Item<V>>)
    requires s.b1 != [] && lru == Spec.Last(KeysOf(s.b1)) && KeysOf(s'.b1) == Spec.Front(KeysOf(s.b1))
    requires s'.t1 == s.t1 && s'.t2 == s.t2 && s'.b2 == s.b2
    ensures StateOf(s', p, c, len - 1, data - {lru}) == Spec.DropB1(StateOf(s, p, c, len, data))
  {
  }

  lemma DroppedB2<K, V>(s: Shape<K, V>, s': Shape<K, V>, lru: K, p: int, c: int, len: int, data: map<K, Spec.Item<V>>)
    requires s.b2 != [] && lru == Spec.Last(KeysOf(s.b2)) && KeysOf(s'.b2) == Spec.Front(KeysOf(s.b2))
    requires s'.t1 == s.t1 && s'.b1 == s.b1 && s'.t2 == s.t2
    ensures StateOf(s', p, c, len - 1, data - {lru}) == Spec.DropB2(StateOf(s, p, c, len, data))
  {
  }

  /** Making room in a cache whose t1 and b1 are not full is trimming and replacing. */
  lemma RoomIsReplace<K, V>(s: Spec.State<K, V>, s1: Spec.State<K, V>, empty: V)
    requires |s.t1| + |s.b1| < s.c <= Spec.Total(s) && (Spec.Total(s) == 2 * s.c ==> s.b2 != [])
    requires s1 == if Spec.Total(s) == 2 * s.c then Spec.DropB2(s) else s
    ensures Spec.MakeRoom(s, empty) == Spec.Replace(s1, false, empty)
  {
  }

  /** The state in which a known key has a new item but has not been served yet. */
  ghost function Written<K, V>(s: Spec.State<K, V>, k: K, item: Spec.Item<V>): Spec.State<K, V>
    requires k in s.data
  {
    s.(len := if s.data[k].isGhost then s.len + 1 else s.len, data := s.data[k := item])
  }

  // ------------------------------------------------------------- the cache

  /** Four different lists, all empty. */
  method NewLists<K, V>() returns (l1: List<K, V>, l2: List<K, V>, l3: List<K, V>, l4: List<K, V>)
    ensures fresh(l1) && fresh(l2) && fresh(l3) && fresh(l4)
    ensures l1 != l2 && l1 != l3 && l1 != l4 && l2 != l3 && l2 != l4 && l3 != l4
    ensures l1.items == l2.items == l3.items == l4.items == []
  {
    l1 := new List();
    l2 := new List();
    l3 := new List();
    l4 := new List();
  }

  class ARC<K(==), V> {
    var p: int
    var c: int
    var len: int
    var t1: List<K, V>
    var b1: List<K, V>
    var t2: List<K, V>
    var b2: List<K, V>
    var cache: map<K, Entry<K, V>>
    const empty: V
    ghost var entries: set<Entry<K, V>>

    ghost function TagOf(list: List?<K, V>): Tag
      reads this`t1, this`b1, this`t2, this`b2
    {
      if list == t1 then T1 else if list == b1 then B1 else if list == t2 then T2 else if list == b2 then B2 else Unlisted
    }

    ghost function Shaped(): Shape<K, V>
      reads this`cache, this`entries, this`t1, this`b1, this`t2, this`b2
      reads entries`ll, t1`items, b1`items, t2`items, b2`items
    {
      Shape(t1.items, b1.items, t2.items, b2.items, map e | e in entries :: TagOf(e.ll), cache)
    }

    /** The four lists are different objects, and no entry points to any other list. */
    ghost predicate Rooted()
      reads this`entries, this`t1, this`b1, this`t2, this`b2, entries`ll
    {
      && t1 != b1 && t1 != t2 && t1 != b2 && b1 != t2 && b1 != b2 && t2 != b2
      && (forall e :: e in entries ==> e.ll in {null, t1, b1, t2, b2})
    }

    ghost predicate Valid()
      reads this`cache, this`entries, this`t1, this`b1, this`t2, this`b2
      reads entries`ll, t1`items, b1`items, t2`items, b2`items
    {
      Rooted() && Settled(Shaped())
    }

    ghost function Data(): map<K, Spec.Item<V>>
      reads this`cache, this`entries, entries`value, entries`isGhost, entries`expires
    {
      map k | k in cache && cache[k] in entries :: cache[k].Item()
    }

    ghost function State(): Spec.State<K, V>
      reads this, entries, t1, b1, t2, b2
    {
      StateOf(Shaped(), p, c, len, Data())
    }

    /** A new cache of the given capacity; empty stands for the zero value of V. */
    constructor (size: int, empty: V)
      ensures Valid() && fresh(t1) && fresh(b1) && fresh(t2) && fresh(b2) && entries == {}
      ensures State() == Spec.New(size) && this.empty == empty
    {
      p, c, len := 0, size, 0;
      t1 := new List();
      b1 := new List();
      t2 := new List();
      b2 := new List();
      cache := map[];
      entries := {};
      this.empty := empty;
    }

    method MoveItems(e: Entry<K, V>, list: List<K, V>)
      requires Rooted() && e in entries
      requires list == t1 || list == b1 || list == t2 || list == b2
      modifies e`ll, t1, b1, t2, b2
      ensures Rooted() && e.ll == list
      ensures t1.items == After(old(t1.items), e, old(e.ll) == t1, list == t1)
      ensures b1.items == After(old(b1.items), e, old(e.ll) == b1, list == b1)
      ensures t2.items == After(old(t2.items), e, old(e.ll) == t2, list == t2)
      ensures b2.items == After(old(b2.items), e, old(e.ll) == b2, list == b2)
      ensures Data() == old(Data())
    {
      e.SetMRU(list);
    }

    /** Move an entry to the front of a list. */
    method Move(e: Entry<K, V>, list: List<K, V>)
      requires Rooted() && e in entries
      requires list == t1 || list == b1 || list == t2 || list == b2
      modifies e`ll, t1, b1, t2, b2
      ensures Rooted() && e.ll == list
      ensures Shaped() == Moved(old(Shaped()), e, TagOf(list)) && Data() == old(Data())
    {
      ghost var ll := Shaped().ll[e := TagOf(list)];
      MoveItems(e, list);
      forall x | x in entries
        ensures TagOf(x.ll) == ll[x]
      {
      }
      assert Shaped().ll == ll;
    }

    method MarkGhost(lru: Entry<K, V>)
      requires lru in entries && forall k :: k in cache ==> (cache[k] == lru <==> k == lru.key)
      modifies this`len, lru`value, lru`isGhost
      ensures len == old(len) - 1 && Shaped() == old(Shaped()) && Rooted() == old(Rooted())
      ensures Data() == Spec.Ghosted(old(Data()), lru.key, empty)
    {
      lru.value := empty;
      lru.isGhost := true;
      len := len - 1;
    }

    /** Turn an entry into a ghost in front of a ghost list. */
    method Demote(lru: Entry<K, V>, ghosts: List<K, V>)
      requires Rooted() && Linked(Shaped()) && lru in entries && lru.key in cache
      requires ghosts == b1 || ghosts == b2
      modifies this`len, lru, t1, b1, t2, b2
      ensures Rooted() && Shaped() == Moved(old(Shaped()), lru, TagOf(ghosts))
      ensures Data() == Spec.Ghosted(old(Data()), lru.key, empty) && len == old(len) - 1
    {
      BoundTo(Shaped(), lru);
      MarkGhost(lru);
      Move(lru, ghosts);
    }

    /** The same while another entry is served. */
    method DemoteFor(lru: Entry<K, V>, ghosts: List<K, V>, ghost ent: Entry<K, V>, ghost s: Shape<K, V>)
      requires Rooted() && Linked(Shaped()) && lru in entries && lru.key in cache
      requires (ghosts == b1 || ghosts == b2) && lru != ent && s == Moved(Shaped(), lru, TagOf(ghosts))
      modifies this`len, lru, t1, b1, t2, b2
      ensures Rooted() && Shaped() == s && ent.ll == old(ent.ll) && ent.Item() == old(ent.Item())
      ensures State() == StateOf(s, p, c, old(len) - 1, Spec.Ghosted(old(Data()), lru.key, empty))
    {
      Demote(lru, ghosts);
    }

    /** What turning the back of a list into a ghost comes to. */
    lemma OldestT1(ent: Entry<K, V>) returns (s: Shape<K, V>)
      requires Rooted() && Serving(Shaped(), ent) && ent.ll != t1 && t1.items != []
      ensures var lru := t1.items[|t1.items| - 1];
        && lru in entries && lru.key in cache && lru != ent
        && s == Moved(Shaped(), lru, B1) && Serving(s, ent)
        && StateOf(s, p, c, len - 1, Spec.Ghosted(Data(), lru.key, empty)) == Spec.GhostT1(State(), empty)
    {
      var lru;
      lru, s := BackOfT1(Shaped(), ent);
      GhostT1Ok(Shaped(), s, lru.key, p, c, len, Data(), empty);
    }

    lemma OldestT2(ent: Entry<K, V>) returns (s: Shape<K, V>)
      requires Rooted() && Serving(Shaped(), ent) && ent.ll != t2 && t2.items != []
      ensures var lru := t2.items[|t2.items| - 1];
        && lru in entries && lru.key in cache && lru != ent
        && s == Moved(Shaped(), lru, B2) && Serving(s, ent)
        && StateOf(s, p, c, len - 1, Spec.Ghosted(Data(), lru.key, empty)) == Spec.GhostT2(State(), empty)
    {
      var lru;
      lru, s := BackOfT2(Shaped(), ent);
      GhostT2Ok(Shaped(), s, lru.key, p, c, len, Data(), empty);
    }

    /** Turn the back of t1 into a ghost in front of b1. */
    method ReplaceT1(ent: Entry<K, V>)
      requires Rooted() && Serving(Shaped(), ent) && ent.ll != t1 && t1.items != []
      modifies this`len, entries, t1, b1, t2, b2
      ensures Rooted() && Serving(Shaped(), ent) && ent.ll == old(ent.ll) && ent.Item() == old(ent.Item())
      ensures State() == Spec.GhostT1(old(State()), empty)
    {
      var lru := t1.items[|t1.items| - 1];
      ghost var s := OldestT1(ent);
      DemoteFor(lru, b1, ent, s);
    }

    /** Turn the back of t2 into a ghost in front of b2. */
    method ReplaceT2(ent: Entry<K, V>)
      requires Rooted() && Serving(Shaped(), ent) && ent.ll != t2 && t2.items != []
      modifies this`len, entries, t1, b1, t2, b2
      ensures Rooted() && Serving(Shaped(), ent) && ent.ll == old(ent.ll) && ent.Item() == old(ent.Item())
      ensures State() == Spec.GhostT2(old(State()), empty)
    {
      var lru := t2.items[|t2.items| - 1];
      ghost var s := OldestT2(ent);
      DemoteFor(lru, b2, ent, s);
    }

    method Replace(ent: Entry<K, V>)
      requires Rooted() && Serving(Shaped(), ent) && ent.ll != t1 && ent.ll != t2
      requires Spec.Replace(State(), ent.ll == b2, empty).Some?
      modifies this`len, entries, t1, b1, t2, b2
      ensures Rooted() && Serving(Shaped(), ent) && ent.ll == old(ent.ll) && ent.Item() == old(ent.Item())
      ensures State() == Spec.Replace(old(State()), old(ent.ll) == b2, empty).value
    {
      if |t1.items| > 0 && (|t1.items| > p || (ent.ll == b2 && |t1.items| == p)) {
        ReplaceT1(ent);
      } else {
        ReplaceT2(ent);
      }
    }

    method Unlink(e: Entry<K, V>, list: List<K, V>)
      requires Rooted() && e in entries && e.ll == list
      requires list == t1 || list == b1 || list == b2
      modifies list
      ensures Shaped() == Moved(old(Shaped()), e, Unlisted).(ll := old(Shaped()).ll)
    {
      list.items := Without(list.items, e);
    }

    method Drop(lru: Entry<K, V>)
      requires Rooted() && lru in entries
      requires forall k :: k in cache ==> (cache[k] == lru <==> k == lru.key)
      modifies this`len, this`cache, this`entries
      ensures Rooted() && entries == old(entries) - {lru} && len == old(len) - 1
      ensures Shaped() == old(Shaped()).(ll := old(Shaped()).ll - {lru}, cache := old(cache) - {lru.key})
      ensures Data() == old(Data()) - {lru.key}
    {
      len := len - 1;
      cache := cache - {lru.key};
      entries := entries - {lru};
    }

    /** Forget the back of a list altogether. */
    method DelLRU(list: List<K, V>, ghost lru: Entry<K, V>)
      requires Rooted() && (list == t1 || list == b1 || list == b2)
      requires list.items != [] && lru == list.items[|list.items| - 1] && lru in entries && lru.ll == list
      requires forall k :: k in cache ==> (cache[k] == lru <==> k == lru.key)
      modifies this`len, this`cache, this`entries, list
      ensures Rooted() && entries == old(entries) - {lru} && len == old(len) - 1
      ensures Shaped() == Forgotten(old(Shaped()), lru)
      ensures Data() == old(Data()) - {lru.key}
    {
      var back := list.items[|list.items| - 1];
      Unlink(back, list);
      assert Shaped() == Moved(old(Shaped()), lru, Unlisted).(ll := old(Shaped()).ll);
      Drop(back);
    }

    /** What forgetting the back of a list comes to. */
    lemma VictimT1(ent: Entry<K, V>) returns (lru: Entry<K, V>, s: Shape<K, V>)
      requires Rooted() && Serving(Shaped(), ent) && ent.ll == null && t1.items != []
      ensures lru == t1.items[|t1.items| - 1] && lru in entries && lru.ll == t1 && lru != ent
      ensures forall k :: k in cache ==> (cache[k] == lru <==> k == lru.key)
      ensures s == Forgotten(Shaped(), lru) && Serving(s, ent)
      ensures StateOf(s, p, c, len - 1, Data() - {lru.key}) == Spec.DropT1(State())
    {
      lru, s := BackForgotten(Shaped(), ent, T1);
      DroppedT1(Shaped(), s, lru.key, p, c, len, Data());
    }

    lemma VictimB1(ent: Entry<K, V>) returns (lru: Entry<K, V>, s: Shape<K, V>)
      requires Rooted() && Serving(Shaped(), ent) && ent.ll == null && b1.items != []
      ensures lru == b1.items[|b1.items| - 1] && lru in entries && lru.ll == b1 && lru != ent
      ensures forall k :: k in cache ==> (cache[k] == lru <==> k == lru.key)
      ensures s == Forgotten(Shaped(), lru) && Serving(s, ent)
      ensures StateOf(s, p, c, len - 1, Data() - {lru.key}) == Spec.DropB1(State())
    {
      lru, s := BackForgotten(Shaped(), ent, B1);
      DroppedB1(Shaped(), s, lru.key, p, c, len, Data());
    }

    lemma VictimB2(ent: Entry<K, V>) returns (lru: Entry<K, V>, s: Shape<K, V>)
      requires Rooted() && Serving(Shaped(), ent) && ent.ll == null && b2.items != []
      ensures lru == b2.items[|b2.items| - 1] && lru in entries && lru.ll == b2 && lru != ent
      ensures forall k :: k in cache ==> (cache[k] == lru <==> k == lru.key)
      ensures s == Forgotten(Shaped(), lru) && Serving(s, ent)
      ensures StateOf(s, p, c, len - 1, Data() - {lru.key}) == Spec.DropB2(State())
    {
      lru, s := BackForgotten(Shaped(), ent, B2);
      DroppedB2(Shaped(), s, lru.key, p, c, len, Data());
    }

    /** The cache forgets the back of t1, b1 or b2 while it serves a new entry. */
    method DelT1(ghost ent: Entry<K, V>)
      requires Rooted() && Serving(Shaped(), ent) && ent.ll == null && t1.items != []
      modifies this`len, this`cache, this`entries, t1
      ensures Rooted() && entries <= old(entries) && Serving(Shaped(), ent) && ent.ll == null
      ensures State() == Spec.DropT1(old(State()))
    {
      ghost var lru, s := VictimT1(ent);
      DelLRU(t1, lru);
      assert Shaped() == s;
    }

    method DelB1(ghost ent: Entry<K, V>)
      requires Rooted() && Serving(Shaped(), ent) && ent.ll == null && b1.items != []
      modifies this`len, this`cache, this`entries, b1
      ensures Rooted() && entries <= old(entries) && Serving(Shaped(), ent) && ent.ll == null
      ensures State() == Spec.DropB1(old(State()))
    {
      ghost var lru, s := VictimB1(ent);
      DelLRU(b1, lru);
      assert Shaped() == s;
    }

    method DelB2(ghost ent: Entry<K, V>)
      requires Rooted() && Serving(Shaped(), ent) && ent.ll == null && b2.items != []
      modifies this`len, this`cache, this`entries, b2
      ensures Rooted() && entries <= old(entries) && Serving(Shaped(), ent) && ent.ll == null
      ensures State() == Spec.DropB2(old(State()))
    {
      ghost var lru, s := VictimB2(ent);
      DelLRU(b2, lru);
      assert Shaped() == s;
    }

    /** The entry served moves to the front of t1 or t2. */
    method Place(ent: Entry<K, V>, list: List<K, V>)
      requires Rooted() && Serving(Shaped(), ent) && (list == t1 || list == t2)
      modifies ent`ll, t1, b1, t2, b2
      ensures Rooted() && Placed(Shaped(), ent)
      ensures State() == MovedState(old(State()), ent.key, old(TagOf(ent.ll)), TagOf(list))
    {
      ghost var s := PlacedOk(Shaped(), ent, TagOf(list), p, c, len, Data());
      Move(ent, list);
      assert Shaped() == s;
    }

    // ----------------------------------------------------------- the request transition

    /** A ghost of t1 comes back: something is evicted, and it moves to t2. */
    method ReviveB1(ent: Entry<K, V>)
      requires Rooted() && Serving(Shaped(), ent) && ent.ll == b1
      requires Spec.Replace(State(), false, empty).Some?
      modifies this`len, entries, t1, b1, t2, b2
      ensures Rooted() && Placed(Shaped(), ent) && ent.Item() == old(ent.Item())
      ensures Some(State()) == Spec.Revive(old(State()), ent.key, false, empty)
    {
      Replace(ent);
      ghost var s := State();
      Place(ent, t2);
      assert State() == MovedState(s, ent.key, B1, T2);
    }

    /** A ghost of t2 comes back. */
    method ReviveB2(ent: Entry<K, V>)
      requires Rooted() && Serving(Shaped(), ent) && ent.ll == b2
      requires Spec.Replace(State(), true, empty).Some?
      modifies this`len, entries, t1, b1, t2, b2
      ensures Rooted() && Placed(Shaped(), ent) && ent.Item() == old(ent.Item())
      ensures Some(State()) == Spec.Revive(old(State()), ent.key, true, empty)
    {
      Replace(ent);
      ghost var s := State();
      Place(ent, t2);
      assert State() == MovedState(s, ent.key, B2, T2);
    }

    /** Case I: the entry is cached. */
    method ReqCached(ent: Entry<K, V>)
      requires Rooted() && Serving(Shaped(), ent) && (ent.ll == t1 || ent.ll == t2)
      modifies ent`ll, t1, b1, t2, b2
      ensures Rooted() && Placed(Shaped(), ent)
      ensures Some(State()) == Spec.Req(old(State()), ent.key, empty)
    {
      WhereKeyIs(Shaped(), ent);
      Place(ent, t2);
    }

    method Grow()
      requires |b1.items| > 0
      modifies this`p
      ensures State() == old(State()).(p := Spec.Min(old(p) + Spec.GrowBy(old(State())), c))
    {
      var d := if |b1.items| >= |b2.items| then 1 else |b2.items| / |b1.items|;
      p := Spec.Min(p + d, c);
    }

    method Shrink()
      requires |b2.items| > 0
      modifies this`p
      ensures State() == old(State()).(p := Spec.Max(old(p) - Spec.ShrinkBy(old(State())), 0))
    {
      var d := if |b2.items| >= |b1.items| then 1 else |b1.items| / |b2.items|;
      p := Spec.Max(p - d, 0);
    }

    /** Case II: the entry is a ghost of t1, whose share grows. */
    method ReqB1(ent: Entry<K, V>)
      requires Rooted() && Serving(Shaped(), ent) && ent.ll == b1
      requires Spec.Req(State(), ent.key, empty).Some?
      modifies this`p, this`len, entries, t1, b1, t2, b2
      ensures Rooted() && Placed(Shaped(), ent) && ent.Item() == old(ent.Item())
      ensures Some(State()) == Spec.Req(old(State()), ent.key, empty)
    {
      WhereKeyIs(Shaped(), ent);
      ghost var want := Spec.Req(State(), ent.key, empty);
      Grow();
      assert want == Spec.Revive(State(), ent.key, false, empty);
      ReviveB1(ent);
    }

    /** Case III: the entry is a ghost of t2, and the share of t1 shrinks. */
    method ReqB2(ent: Entry<K, V>)
      requires Rooted() && Serving(Shaped(), ent) && ent.ll == b2
      requires Spec.Req(State(), ent.key, empty).Some?
      modifies this`p, this`len, entries, t1, b1, t2, b2
      ensures Rooted() && Placed(Shaped(), ent) && ent.Item() == old(ent.Item())
      ensures Some(State()) == Spec.Req(old(State()), ent.key, empty)
    {
      WhereKeyIs(Shaped(), ent);
      ghost var want := Spec.Req(State(), ent.key, empty);
      Shrink();
      assert want == Spec.Revive(State(), ent.key, true, empty);
      ReviveB2(ent);
    }

    /** Case IV A: the entry is new, and t1 and b1 together are full. */
    method MakeRoomA(ent: Entry<K, V>)
      requires Rooted() && Serving(Shaped(), ent) && ent.ll == null
      requires Spec.MakeRoom(State(), empty).Some? && |t1.items| + |b1.items| == c
      modifies this`len, this`cache, this`entries, entries, t1, b1, t2, b2
      ensures entries <= old(entries)
      ensures Rooted() && Serving(Shaped(), ent) && ent.ll == null && ent.Item() == old(ent.Item())
      ensures Some(State()) == Spec.MakeRoom(old(State()), empty)
    {
      ghost var want := Spec.MakeRoom(State(), empty);
      if |t1.items| < c {
        DelB1(ent);
        assert want == Spec.Replace(State(), false, empty);
        Replace(ent);
      } else {
        DelT1(ent);
      }
    }

    /** At twice the capacity, the oldest ghost of t2 goes. */
    method TrimGhosts(ent: Entry<K, V>)
      requires Rooted() && Serving(Shaped(), ent) && ent.ll == null
      requires Spec.Total(State()) == 2 * c ==> b2.items != []
      modifies this`len, this`cache, this`entries, b2
      ensures entries <= old(entries)
      ensures Rooted() && Serving(Shaped(), ent) && ent.ll == null
      ensures State() == if old(Spec.Total(State()) == 2 * c) then Spec.DropB2(old(State())) else old(State())
    {
      if |t1.items| + |t2.items| + |b1.items| + |b2.items| == 2 * c {
        DelB2(ent);
      }
    }

    /** Case IV B: they are not. */
    method MakeRoomB(ent: Entry<K, V>)
      requires Rooted() && Serving(Shaped(), ent) && ent.ll == null
      requires Spec.MakeRoom(State(), empty).Some? && |t1.items| + |b1.items| < c
      modifies this`len, this`cache, this`entries, entries, t1, b1, t2, b2
      ensures entries <= old(entries)
      ensures Rooted() && Serving(Shaped(), ent) && ent.ll == null && ent.Item() == old(ent.Item())
      ensures Some(State()) == Spec.MakeRoom(old(State()), empty)
    {
      ghost var s := State();
      if |t1.items| + |t2.items| + |b1.items| + |b2.items| >= c {
        TrimGhosts(ent);
        RoomIsReplace(s, State(), empty);
        Replace(ent);
      }
    }

    method MakeRoom(ent: Entry<K, V>)
      requires Rooted() && Serving(Shaped(), ent) && ent.ll == null
      requires Spec.MakeRoom(State(), empty).Some?
      modifies this`len, this`cache, this`entries, entries, t1, b1, t2, b2
      ensures entries <= old(entries)
      ensures Rooted() && Serving(Shaped(), ent) && ent.ll == null && ent.Item() == old(ent.Item())
      ensures Some(State()) == Spec.MakeRoom(old(State()), empty)
    {
      if |t1.items| + |b1.items| == c {
        MakeRoomA(ent);
      } else if |t1.items| + |b1.items| < c {
        MakeRoomB(ent);
      }
    }

    method ReqNew(ent: Entry<K, V>)
      requires Rooted() && Serving(Shaped(), ent) && ent.ll == null
      requires Spec.Req(State(), ent.key, empty).Some?
      modifies this`len, this`cache, this`entries, entries, t1, b1, t2, b2
      ensures entries <= old(entries)
      ensures Rooted() && Placed(Shaped(), ent) && ent.Item() == old(ent.Item())
      ensures Some(State()) == Spec.Req(old(State()), ent.key, empty)
    {
      WhereKeyIs(Shaped(), ent);
      MakeRoom(ent);
      ghost var s := State();
      Place(ent, t1);
      assert State() == MovedState(s, ent.key, Unlisted, T1);
    }

    /** Serve a request for an entry. Whenever the abstract transition does not crash, this
        one does not either, and it ends in the same state. */
    method Req(ent: Entry<K, V>)
      requires Rooted() && Serving(Shaped(), ent)
      requires Spec.Req(State(), ent.key, empty).Some?
      modifies this`p, this`len, this`cache, this`entries, entries, t1, b1, t2, b2
      ensures entries <= old(entries)
      ensures old(ent.ll) != null ==> cache == old(cache) && entries == old(entries)
      ensures Rooted() && Placed(Shaped(), ent) && ent.Item() == old(ent.Item())
      ensures Some(State()) == Spec.Req(old(State()), ent.key, empty)
    {
      if ent.ll == t1 || ent.ll == t2 {
        ReqCached(ent);
      } else if ent.ll == b1 {
        ReqB1(ent);
      } else if ent.ll == b2 {
        ReqB2(ent);
      } else {
        ReqNew(ent);
      }
    }

    // ----------------------------------------------------------- the operations

    method BindMap(ent: Entry<K, V>)
      requires ent in entries && forall k :: k in cache && cache[k] == ent ==> k == ent.key
      modifies this`cache
      ensures Shaped() == old(Shaped()).(cache := old(cache)[ent.key := ent])
      ensures Data() == old(Data())[ent.key := ent.Item()]
    {
      cache := cache[ent.key := ent];
    }

    /** Bind the entry just placed in the map. */
    method Bind(ent: Entry<K, V>)
      requires Rooted() && Placed(Shaped(), ent)
      modifies this`cache
      ensures Valid() && State() == old(State()).(data := old(State()).data[ent.key := ent.Item()])
    {
      ghost var s := BindOk(Shaped(), ent);
      BindMap(ent);
      assert Shaped() == s;
    }

    method Enrol(ent: Entry<K, V>)
      requires Valid() && ent !in entries && ent.ll == null && ent.key !in cache
      modifies this`entries
      ensures entries == old(entries) + {ent}
      ensures Rooted() && Serving(Shaped(), ent) && State() == old(State())
    {
      ghost var s := AdmitOk(Shaped(), ent);
      entries := entries + {ent};
      assert Shaped() == s;
    }

    method CountUp()
      modifies this`len
      ensures len == old(len) + 1 && Shaped() == old(Shaped()) && Rooted() == old(Rooted()) && Data() == old(Data())
    {
      len := len + 1;
    }

    method Admit(ent: Entry<K, V>)
      requires Valid() && ent !in entries && ent.ll == null && ent.key !in cache
      modifies this`len, this`entries
      ensures entries == old(entries) + {ent} && ent.Item() == old(ent.Item())
      ensures Rooted() && Serving(Shaped(), ent) && State() == old(State()).(len := old(State()).len + 1)
    {
      Enrol(ent);
      CountUp();
    }

    method Insert(ent: Entry<K, V>, ghost longer: Spec.State<K, V>)
      requires Valid() && ent !in entries && ent.ll == null && ent.key !in cache
      requires longer == State().(len := State().len + 1) && Spec.Req(longer, ent.key, empty).Some?
      modifies this`p, this`len, this`cache, this`entries, entries, ent, t1, b1, t2, b2
      ensures Valid() && entries <= old(entries) + {ent}
      ensures Some(State()) == Spec.Stored(Spec.Req(longer, ent.key, empty), ent.key, old(ent.Item()))
    {
      Admit(ent);
      Req(ent);
      Bind(ent);
    }

    method SetNew(key: K, value: V, expires: int, ghost longer: Spec.State<K, V>)
      requires Valid() && key !in cache
      requires longer == State().(len := State().len + 1) && Spec.Req(longer, key, empty).Some?
      modifies this`p, this`len, this`cache, this`entries, entries, t1, b1, t2, b2
      ensures Valid() && fresh(entries - old(entries))
      ensures Some(State()) == Spec.Stored(Spec.Req(longer, key, empty), key, Spec.Item(value, false, expires))
    {
      var ent := new Entry(key, value, expires);
      assert State() == old(State());
      Insert(ent, longer);
    }

    /** Serve a known entry. */
    method Touch(ent: Entry<K, V>, ghost before: Spec.State<K, V>)
      requires Valid() && ent.key in cache && cache[ent.key] == ent && Serving(Shaped(), ent)
      requires before == State() && Spec.Req(before, ent.key, empty).Some?
      modifies this`p, this`len, this`cache, this`entries, entries, t1, b1, t2, b2
      ensures Valid() && entries == old(entries) && cache == old(cache) && ent.Item() == old(ent.Item())
      ensures Some(State()) == Spec.Req(before, ent.key, empty)
    {
      Req(ent);
    }

    /** Overwrite a known entry. */
    method Overwrite(ent: Entry<K, V>, value: V, expires: int)
      requires ent in entries && forall k :: k in cache ==> (cache[k] == ent <==> k == ent.key)
      requires ent.key in cache
      modifies this`len, ent`value, ent`isGhost, ent`expires
      ensures Shaped() == old(Shaped()) && Rooted() == old(Rooted())
      ensures ent.Item() == Spec.Item(value, false, expires)
      ensures State() == old(State()).(len := if old(ent.isGhost) then old(len) + 1 else old(len),
                                       data := old(State()).data[ent.key := Spec.Item(value, false, expires)])
    {
      if ent.isGhost {
        len := len + 1;
      }
      ent.value := value;
      ent.isGhost := false;
      ent.expires := expires;
    }

    method SetKnown(key: K, value: V, expires: int, ghost written: Spec.State<K, V>)
      requires Valid() && key in cache && key in Data()
      requires written == Written(State(), key, Spec.Item(value, false, expires))
      requires Spec.Req(written, key, empty).Some?
      modifies this`p, this`len, this`cache, this`entries, entries, t1, b1, t2, b2
      ensures Valid() && entries == old(entries)
      ensures Some(State()) == Spec.Req(written, key, empty)
    {
      var ent := cache[key];
      var _ := KnownOk(Shaped(), key);
      Overwrite(ent, value, expires);
      Touch(ent, written);
    }

    /** Store a value with its expiry, in seconds. The only way to crash is a crash of the
        abstract step: `ArcSpec` shows when that is. */
    method SetWithExpire(key: K, value: V, expires: int)
      requires Valid() && Spec.Set(State(), key, value, expires, empty).Some?
      modifies this`p, this`len, this`cache, this`entries, entries, t1, b1, t2, b2
      ensures Valid() && fresh(entries - old(entries))
      ensures Some(State()) == Spec.Set(old(State()), key, value, expires, empty)
    {
      ghost var item := Spec.Item(value, false, expires);
      KeysOfData(key);
      if key !in cache {
        ghost var longer := State().(len := State().len + 1);
        assert Spec.Set(State(), key, value, expires, empty) == Spec.Stored(Spec.Req(longer, key, empty), key, item);
        SetNew(key, value, expires, longer);
      } else {
        ghost var written := Written(State(), key, item);
        assert Spec.Set(State(), key, value, expires, empty) == Spec.Req(written, key, empty);
        SetKnown(key, value, expires, written);
      }
    }

    lemma KeysOfData(key: K)
      requires Valid()
      ensures key in cache <==> key in Data()
    {
    }

    method Set(key: K, value: V)
      requires Valid() && Spec.Set(State(), key, value, 0, empty).Some?
      modifies this`p, this`len, this`cache, this`entries, entries, t1, b1, t2, b2
      ensures Valid() && fresh(entries - old(entries))
      ensures Some(State()) == Spec.Set(old(State()), key, value, 0, empty)
    {
      SetWithExpire(key, value, 0);
    }

    /** Look a key up, which counts as a request for it. A ghost is moved but not returned. */
    method GetWithExpire(key: K) returns (value: V, expires: int, ok: bool)
      requires Valid() && Spec.Get(State(), key, empty).Some?
      modifies this`p, this`len, this`cache, this`entries, entries, t1, b1, t2, b2
      ensures Valid() && entries == old(entries)
      ensures Some(State()) == Spec.Get(old(State()), key, empty)
      ensures ok == Spec.Hit(State(), key)
      ensures ok ==> value == State().data[key].value && expires == State().data[key].expires
      ensures !ok ==> value == empty
    {
      KeysOfData(key);
      if key !in cache {
        return empty, 0, false;
      }
      var ent := cache[key];
      var _ := KnownOk(Shaped(), key);
      Touch(ent, State());
      if ent.isGhost {
        return empty, 0, false;
      }
      return ent.value, ent.expires, true;
    }

    method Get(key: K) returns (value: V, ok: bool)
      requires Valid() && Spec.Get(State(), key, empty).Some?
      modifies this`p, this`len, this`cache, this`entries, entries, t1, b1, t2, b2
      ensures Valid() && entries == old(entries)
      ensures Some(State()) == Spec.Get(old(State()), key, empty)
      ensures ok == Spec.Hit(State(), key)
      ensures value == if ok then State().data[key].value else empty
    {
      var expires;
      value, expires, ok := GetWithExpire(key);
    }

    /** Empty lists and an empty map are the state of a new cache. */
    lemma NothingHeld()
      requires p == len == 0 && entries == {} && cache == map[]
      requires t1.items == b1.items == t2.items == b2.items == []
      ensures Shaped() == Shape([], [], [], [], map[], map[]) && Settled(Shaped())
      ensures State() == Spec.New(c)
    {
    }

    /** Forget everything but the capacity. */
    method Clear()
      modifies this
      ensures Valid() && State() == Spec.New(old(c))
      ensures fresh(t1) && fresh(b1) && fresh(t2) && fresh(b2) && entries == {}
    {
      var l1, l2, l3, l4 := NewLists<K, V>();
      p, len, cache, entries := 0, 0, map[], {};
      t1, b1, t2, b2 := l1, l2, l3, l4;
      NothingHeld();
    }

    method Len() returns (n: int)
      ensures n == State().len
    {
      n := len;
    }
  }
}
