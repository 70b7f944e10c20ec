/** The cache as it is written: a list of entry objects, least recent first, and a map from
    keys to the same objects. Each method is proved to do to its items what `LruSpec` says.
    The clock reading is a parameter, and no callback is told of evictions. */
module Lru {
  import opened Options
  import Spec = LruSpec

  class Entry<K, V> {
    const key: K
    var value: V
    var expires: int

    constructor (key: K, value: V, expires: int)
      ensures this.key == key && this.value == value && this.expires == expires
    {
      this.key := key;
      this.value := value;
      this.expires := expires;
    }

    ghost function Item(): Spec.Item<K, V>
      reads this
    {
      Spec.Item(key, value, expires)
    }
  }

  ghost function ItemsOf<K, V>(list: seq<Entry<K, V>>): (items: seq<Spec.Item<K, V>>)
    reads list
    ensures |items| == |list|
    ensures forall i :: 0 <= i < |list| ==> items[i] == list[i].Item()
  {
    seq(|list|, i requires 0 <= i < |list| reads list => list[i].Item())
  }

  /** Where an entry stands in a list, or the length. */
  function PositionOf<K, V>(list: seq<Entry<K, V>>, e: Entry<K, V>): (i: nat)
    ensures i <= |list|
    ensures i < |list| ==> list[i] == e
    ensures e in list ==> i < |list|
  {
    if list == [] || list[0] == e then 0 else 1 + PositionOf(list[1..], e)
  }

  lemma ItemsOfRest<K, V>(list: seq<Entry<K, V>>, i: nat)
    requires i < |list|
    ensures ItemsOf(Spec.RemoveAt(list, i)) == Spec.RemoveAt(ItemsOf(list), i)
  {
  }

  lemma ItemsOfPushed<K, V>(list: seq<Entry<K, V>>, e: Entry<K, V>)
    ensures ItemsOf(list + [e]) == ItemsOf(list) + [e.Item()]
  {
  }

  /** Keys are distinct, and the map leads to the entries of the list and to no others. */
  ghost predicate Linked<K, V>(list: seq<Entry<K, V>>, cache: map<K, Entry<K, V>>) {
    && (forall i, j :: 0 <= i < j < |list| ==> list[i].key != list[j].key)
    && (forall i :: 0 <= i < |list| ==> list[i].key in cache && cache[list[i].key] == list[i])
    && (forall k :: k in cache ==> cache[k] in list && cache[k].key == k)
  }

  lemma RemoveLinked<K, V>(list: seq<Entry<K, V>>, cache: map<K, Entry<K, V>>, i: nat)
    requires Linked(list, cache) && i < |list|
    ensures Linked(Spec.RemoveAt(list, i), cache - {list[i].key})
  {
  }

  lemma PushLinked<K, V>(list: seq<Entry<K, V>>, cache: map<K, Entry<K, V>>, e: Entry<K, V>)
    requires Linked(list, cache) && e.key !in cache
    ensures Linked(list + [e], cache[e.key := e])
  {
  }

  /** Moving an entry to the back is removing it and putting it back. */
  lemma MoveLinked<K, V>(list: seq<Entry<K, V>>, cache: map<K, Entry<K, V>>, i: nat)
    requires Linked(list, cache) && i < |list|
    ensures Linked(Spec.RemoveAt(list, i) + [list[i]], cache)
  {
  }

  class LruCache<K(==), V> {
    const config: Spec.Config
    var cache: map<K, Entry<K, V>>
    var lru: seq<Entry<K, V>>
    ghost var entries: set<object>

    ghost predicate Valid()
      reads this
    {
      Linked(lru, cache) && this !in entries && forall i :: 0 <= i < |lru| ==> lru[i] in entries
    }

    ghost function Items(): seq<Spec.Item<K, V>>
      requires Valid()
      reads this, entries
    {
      ItemsOf(lru)
    }

    constructor (config: Spec.Config)
      ensures Valid() && Items() == [] && entries == {} && this.config == config
    {
      this.config := config;
      cache := map[];
      lru := [];
      entries := {};
    }

    method Clear()
      modifies `lru, `cache, `entries
      ensures Valid() && Items() == [] && entries == {}
    {
      cache := map[];
      lru := [];
      entries := {};
    }

    /** The entry the map has for a key stands where the specification finds the key. */
    lemma Located(key: K)
      requires Valid()
      ensures key in cache <==> Spec.Has(Items(), key)
      ensures key in cache ==> PositionOf(lru, cache[key]) == Spec.IndexOf(Items(), key) < |lru|
    {
    }

    /** The list without an element. */
    lemma Removed(le: Entry<K, V>) returns (i: nat, rest: seq<Entry<K, V>>)
      requires Valid() && le.key in cache && cache[le.key] == le
      ensures i == PositionOf(lru, le) < |lru| && lru[i] == le && rest == Spec.RemoveAt(lru, i)
      ensures Linked(rest, cache - {le.key}) && Linked(rest + [le], cache)
      ensures ItemsOf(rest) == Spec.Delete(Items(), le.key)
      ensures forall j :: 0 <= j < |rest| ==> rest[j] in lru
    {
      i := PositionOf(lru, le);
      rest := Spec.RemoveAt(lru, i);
      Located(le.key);
      RemoveLinked(lru, cache, i);
      MoveLinked(lru, cache, i);
      ItemsOfRest(lru, i);
    }

    method DeleteElement(le: Entry<K, V>)
      requires Valid() && le.key in cache && cache[le.key] == le
      modifies `lru, `cache
      ensures Valid() && Items() == Spec.Delete(old(Items()), le.key)
    {
      ghost var i, rest := Removed(le);
      lru := Spec.RemoveAt(lru, PositionOf(lru, le));
      cache := cache - {le.key};
      assert lru == rest;
    }

    /** Drop items from the front while they are too old. */
    method MaybeDeleteOldest(now: int)
      requires Valid()
      modifies `lru, `cache
      ensures Valid() && Items() == Spec.DropOldest(old(Items()), config, now)
    {
      if !config.staleReturn && config.maxAge > 0 {
        while lru != [] && lru[0].expires <= now
          invariant Valid()
          invariant Spec.DropOldest(Items(), config, now) == Spec.DropOldest(old(Items()), config, now)
          decreases |lru|
        {
          ghost var items := Items();
          DeleteElement(lru[0]);
          assert Items() == items[1..];
        }
      }
    }

    method MoveToBack(le: Entry<K, V>)
      requires Valid() && le.key in cache && cache[le.key] == le
      modifies `lru
      ensures Valid() && Items() == Spec.Delete(old(Items()), le.key) + [le.Item()]
      ensures lru != [] && lru[|lru| - 1] == le
    {
      ghost var i, rest := Removed(le);
      ItemsOfPushed(rest, le);
      var moved := Spec.RemoveAt(lru, PositionOf(lru, le)) + [le];
      ghost var items := ItemsOf(moved);
      assert items == Spec.Delete(Items(), le.key) + [le.Item()];
      lru := moved;
      assert ItemsOf(lru) == items;
    }

    method PushBack(e: Entry<K, V>)
      requires Valid() && e.key !in cache
      modifies `lru, `cache, `entries
      ensures Valid() && Items() == old(Items()) + [e.Item()] && entries == old(entries) + {e}
    {
      PushLinked(lru, cache, e);
      ItemsOfPushed(lru, e);
      lru := lru + [e];
      cache := cache[e.key := e];
      entries := entries + {e};
    }

    method Overwrite(le: Entry<K, V>, value: V, expires: int)
      requires Valid() && le.key in cache && cache[le.key] == le
      requires lru != [] && lru[|lru| - 1] == le
      modifies le`value, le`expires
      ensures Items() == old(Items())[..|lru| - 1] + [Spec.Item(le.key, value, expires)]
    {
      assert forall i :: 0 <= i < |lru| - 1 ==> lru[i] != le;
      le.value := value;
      le.expires := expires;
    }

    /** A new key pushes the least recent item out of a full cache. */
    method InsertNew(e: Entry<K, V>)
      requires Valid() && e.key !in cache
      modifies `lru, `cache, `entries
      ensures Valid() && Items() == Spec.Shrink(old(Items()) + [e.Item()], config)
      ensures entries == old(entries) + {e}
    {
      PushBack(e);
      if config.maxSize > 0 && |lru| > config.maxSize {
        ghost var items := Items();
        DeleteElement(lru[0]);
        assert Items() == items[1..];
      }
    }

    method SetWithExpire(key: K, value: V, expires: int, now: int)
      requires Valid()
      modifies `lru, `cache, `entries, entries
      ensures Valid() && Items() == Spec.SetWithExpire(old(Items()), config, key, value, expires, now)
      ensures fresh(entries - old(entries))
    {
      Located(key);
      if key in cache {
        var le := cache[key];
        MoveToBack(le);
        Overwrite(le, value, expires);
      } else {
        var e := new Entry(key, value, expires);
        InsertNew(e);
      }
      MaybeDeleteOldest(now);
    }

    method Set(key: K, value: V, now: int)
      requires Valid()
      modifies `lru, `cache, `entries, entries
      ensures Valid() && Items() == Spec.Set(old(Items()), config, key, value, now)
      ensures fresh(entries - old(entries))
    {
      var expires := 0;
      if config.maxAge > 0 {
        expires := now + config.maxAge;
      }
      SetWithExpire(key, value, expires, now);
    }

    /** An entry found moves to the back, and may have its age renewed. */
    method Promote(le: Entry<K, V>, now: int)
      requires Valid() && le.key in cache && cache[le.key] == le
      modifies `lru, le`value, le`expires
      ensures Valid() && Items() == Spec.Delete(old(Items()), le.key) + [Spec.Refreshed(old(le.Item()), config, now)]
      ensures lru != [] && lru[|lru| - 1] == le
    {
      ghost var others, item := Spec.Delete(Items(), le.key), le.Item();
      MoveToBack(le);
      if config.maxAge > 0 && config.updateAgeOnGet {
        assert Items()[..|lru| - 1] == others;
        Overwrite(le, le.value, now + config.maxAge);
        assert Spec.Refreshed(item, config, now) == Spec.Item(le.key, le.value, now + config.maxAge);
      }
    }

    /** The entry of a key, moved to the back; none if it is missing or too old. */
    method GetEntry(key: K, now: int) returns (found: Option<Entry<K, V>>)
      requires Valid()
      modifies `lru, `cache, entries
      ensures Valid() && Items() == Spec.Get(old(Items()), config, key, now)
      ensures found.Some? <==> Spec.Hits(old(Items()), config, key, now)
      ensures found.Some? ==> lru != [] && found.value == lru[|lru| - 1] && found.value.key == key
    {
      Located(key);
      if key !in cache {
        return None;
      }
      var le := cache[key];
      if !config.staleReturn && config.maxAge > 0 && le.expires <= now {
        DeleteElement(le);
        MaybeDeleteOldest(now);
        return None;
      }
      Promote(le, now);
      return Some(le);
    }

    method Get(key: K, now: int) returns (value: Option<V>)
      requires Valid()
      modifies `lru, `cache, entries
      ensures Valid() && Items() == Spec.Get(old(Items()), config, key, now)
      ensures value == Spec.Lookup(old(Items()), config, key, now)
    {
      var found := GetEntry(key, now);
      if found.None? {
        return None;
      }
      return Some(found.value.value);
    }

    method Exist(key: K) returns (ok: bool)
      requires Valid()
      ensures ok == Spec.Has(Items(), key)
    {
      Located(key);
      ok := key in cache;
    }

    method Delete(key: K)
      requires Valid()
      modifies `lru, `cache
      ensures Valid() && Items() == Spec.Delete(old(Items()), key)
    {
      Located(key);
      if key in cache {
        DeleteElement(cache[key]);
      }
    }
  }
}
