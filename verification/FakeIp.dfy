/** The fake-IP pool over two cache objects. Each operation is proved to take the state of
    `FakeIpSpec` one step, so everything proved there about runs holds of the objects. */
module FakeIp {
  import opened Options
  import opened Lru
  import L = LruSpec
  import Spec = FakeIpSpec

  /** Two caches that nothing keeps in step but the order of the calls made on them. No ages
      are set, so the clock is never read; its reading is given as zero. */
  class MemoryStore {
    const size: int
    const cacheIP: LruCache<Spec.Host, Spec.Addr>
    const cacheHost: LruCache<Spec.Addr, Spec.Host>

    /** The objects the store may change. */
    ghost function Repr(): set<object>
      reads cacheIP`entries, cacheHost`entries
    {
      {cacheIP, cacheHost} + cacheIP.entries + cacheHost.entries
    }

    ghost predicate Valid()
      reads cacheIP, cacheHost
    {
      && cacheIP.Valid() && cacheHost.Valid()
      && cacheIP.config == Spec.Conf(size) && cacheHost.config == Spec.Conf(size)
      && cacheIP.entries !! cacheHost.entries
      && cacheIP !in cacheHost.entries && cacheHost !in cacheIP.entries
    }

    ghost function State(): Spec.Store
      requires Valid()
      reads cacheIP, cacheHost, cacheIP.entries, cacheHost.entries
    {
      Spec.Store(size, cacheIP.Items(), cacheHost.Items())
    }

    constructor (size: int)
      ensures Valid() && State() == Spec.EmptyStore(size) && fresh(Repr())
    {
      this.size := size;
      cacheIP := new LruCache(Spec.Conf(size));
      cacheHost := new LruCache(Spec.Conf(size));
    }

    // One call on one cache leaves the other as it is.

    method GetIP(host: Spec.Host) returns (ip: Option<Spec.Addr>)
      requires Valid()
      modifies cacheIP`lru, cacheIP`cache, cacheIP.entries
      ensures Valid() && Repr() == old(Repr())
      ensures State() == old(State()).(byHost := L.Get(old(State()).byHost, Spec.Conf(size), host, 0))
      ensures ip == L.Lookup(old(State()).byHost, Spec.Conf(size), host, 0)
    {
      ip := cacheIP.Get(host, 0);
    }

    method GetHost(ip: Spec.Addr) returns (host: Option<Spec.Host>)
      requires Valid()
      modifies cacheHost`lru, cacheHost`cache, cacheHost.entries
      ensures Valid() && Repr() == old(Repr())
      ensures State() == old(State()).(byIp := L.Get(old(State()).byIp, Spec.Conf(size), ip, 0))
      ensures host == L.Lookup(old(State()).byIp, Spec.Conf(size), ip, 0)
    {
      host := cacheHost.Get(ip, 0);
    }

    method GetByHost(host: Spec.Host) returns (ip: Option<Spec.Addr>)
      requires Valid()
      modifies Repr()
      ensures Valid() && Repr() == old(Repr())
      ensures (ip, State()) == Spec.GetByHost(old(State()), host)
    {
      ip := GetIP(host);
      if ip.Some? {
        // keep the mirror entry as recent
        var _ := GetHost(ip.value);
      }
    }

    method GetByIP(ip: Spec.Addr) returns (host: Option<Spec.Host>)
      requires Valid()
      modifies Repr()
      ensures Valid() && Repr() == old(Repr())
      ensures (host, State()) == Spec.GetByIp(old(State()), ip)
    {
      host := GetHost(ip);
      if host.Some? {
        // keep the mirror entry as recent
        var _ := GetIP(host.value);
      }
    }

    method PutByHost(host: Spec.Host, ip: Spec.Addr)
      requires Valid()
      modifies Repr()
      ensures Valid() && fresh(Repr() - old(Repr()))
      ensures State() == Spec.PutByHost(old(State()), host, ip)
    {
      cacheIP.Set(host, ip, 0);
    }

    method PutByIP(ip: Spec.Addr, host: Spec.Host)
      requires Valid()
      modifies Repr()
      ensures Valid() && fresh(Repr() - old(Repr()))
      ensures State() == Spec.PutByIp(old(State()), ip, host)
    {
      cacheHost.Set(ip, host, 0);
    }

    method DeleteIP(host: Spec.Host)
      requires Valid()
      modifies cacheIP`lru, cacheIP`cache
      ensures Valid() && Repr() == old(Repr())
      ensures State() == old(State()).(byHost := L.Delete(old(State()).byHost, host))
    {
      cacheIP.Delete(host);
    }

    method DeleteHost(ip: Spec.Addr)
      requires Valid()
      modifies cacheHost`lru, cacheHost`cache
      ensures Valid() && Repr() == old(Repr())
      ensures State() == old(State()).(byIp := L.Delete(old(State()).byIp, ip))
    {
      cacheHost.Delete(ip);
    }

    method DelByIP(ip: Spec.Addr)
      requires Valid()
      modifies Repr()
      ensures Valid() && Repr() == old(Repr())
      ensures State() == Spec.DelByIp(old(State()), ip)
    {
      var host := GetHost(ip);
      if host.Some? {
        DeleteIP(host.value);
      }
      DeleteHost(ip);
    }

    method Exist(ip: Spec.Addr) returns (ok: bool)
      requires Valid()
      ensures ok == Spec.Exist(State(), ip)
    {
      ok := cacheHost.Exist(ip);
    }

    method FlushFakeIP()
      requires Valid()
      modifies Repr()
      ensures Valid() && fresh(Repr() - old(Repr()))
      ensures State() == Spec.EmptyStore(size)
    {
      cacheIP.Clear();
      cacheHost.Clear();
    }
  }

  /** The pool. Reading and writing its state file is not part of the model. */
  class Pool {
    const gateway: Spec.Addr
    const first: Spec.Addr
    const last: Spec.Addr
    var offset: Spec.Addr
    var cycle: bool
    const store: MemoryStore

    ghost function Repr(): set<object>
      reads store.cacheIP`entries, store.cacheHost`entries
    {
      {this} + store.Repr()
    }

    ghost predicate Valid()
      reads this, store.cacheIP, store.cacheHost
    {
      store.Valid() && this !in store.Repr() && first > 0
    }

    ghost function State(): Spec.Pool
      requires Valid()
      reads this, store.cacheIP, store.cacheHost, store.cacheIP.entries, store.cacheHost.entries
    {
      Spec.Pool(gateway, first, last, offset, cycle, store.State())
    }

    constructor (gateway: Spec.Addr, first: Spec.Addr, last: Spec.Addr, size: int)
      requires first > 0
      ensures Valid() && fresh(Repr())
      ensures State() == Spec.Pool(gateway, first, last, first - 1, false, Spec.EmptyStore(size))
    {
      this.gateway := gateway;
      this.first := first;
      this.last := last;
      offset := first - 1;
      cycle := false;
      store := new MemoryStore(size);
    }

    /** A pool for a network, or an error when it has no room for one address. */
    static method New(valid: bool, hostAddr: Spec.Addr, last: Spec.Addr, top: Spec.Addr, size: int)
        returns (result: Result<Pool, string>)
      ensures result.Ok? == Spec.New(valid, hostAddr, last, top, size).Ok?
      ensures result.Ok? ==>
                && result.value.Valid() && fresh(result.value.Repr())
                && result.value.State() == Spec.New(valid, hostAddr, last, top, size).value
    {
      var gateway := Spec.Next(Some(hostAddr), top);
      var first := Spec.Next(Spec.Next(Spec.Next(gateway, top), top), top);
      if !valid || first.None? || !(first.value < last) {
        return Err("ipnet don't have valid ip");
      }
      var pool := new Pool(gateway.value, first.value, last, size);
      return Ok(pool);
    }

    /** Move the cursor to the next address, back to the first after the last. */
    method Advance()
      requires Valid()
      modifies this`offset, this`cycle
      ensures Valid() && store.State() == old(store.State())
      ensures offset == (if old(offset) + 1 < last then old(offset) + 1 else first)
      ensures cycle == (old(cycle) || !(old(offset) + 1 < last))
    {
      offset := offset + 1;
      if !(offset < last) {
        cycle := true;
        offset := first;
      }
    }

    /** Take the address at the cursor from whoever has it. */
    method Free()
      requires Valid()
      modifies store.Repr()
      ensures Valid() && store.Repr() == old(store.Repr())
      ensures store.State() == if cycle || Spec.Exist(old(store.State()), offset)
                               then Spec.DelByIp(old(store.State()), offset) else old(store.State())
    {
      var known := store.Exist(offset);
      if cycle || known {
        store.DelByIP(offset);
      }
    }

    method Get(host: Spec.Host) returns (ip: Spec.Addr)
      requires Valid()
      modifies Repr()
      ensures Valid() && fresh(Repr() - old(Repr()))
      ensures (ip, State()) == Spec.Get(old(State()), host)
    {
      Advance();
      Free();
      store.PutByIP(offset, host);
      return offset;
    }

    method Lookup(lower: Spec.Host -> Spec.Host, name: Spec.Host) returns (ip: Spec.Addr)
      requires Valid()
      modifies Repr()
      ensures Valid() && fresh(Repr() - old(Repr()))
      ensures (ip, State()) == (Spec.Lookup(lower, old(State()), name).0, Spec.Lookup(lower, old(State()), name).2)
    {
      var host := lower(name);
      var found := Find(host);
      if found.Some? {
        return found.value;
      }
      ip := Assign(host);
    }

    /** The next address for a host that is not live. */
    method Assign(host: Spec.Host) returns (ip: Spec.Addr)
      requires Valid()
      modifies Repr()
      ensures Valid() && fresh(Repr() - old(Repr()))
      ensures (ip, State()) == Spec.Assign(old(State()), host)
    {
      ip := Get(host);
      Record(host, ip);
    }

    method Find(host: Spec.Host) returns (ip: Option<Spec.Addr>)
      requires Valid()
      modifies store.Repr()
      ensures Valid() && Repr() == old(Repr()) && ip == Spec.GetByHost(old(State()).store, host).0
      ensures State() == old(State()).(store := Spec.GetByHost(old(State()).store, host).1)
    {
      ip := store.GetByHost(host);
    }

    method Record(host: Spec.Host, ip: Spec.Addr)
      requires Valid()
      modifies store.Repr()
      ensures Valid() && fresh(Repr() - old(Repr())) && offset == old(offset) && cycle == old(cycle)
      ensures State() == old(State()).(store := Spec.PutByHost(old(State()).store, host, ip))
    {
      store.PutByHost(host, ip);
    }

    method LookBack(ip: Spec.Addr) returns (host: Option<Spec.Host>)
      requires Valid()
      modifies Repr()
      ensures Valid() && fresh(Repr() - old(Repr()))
      ensures (host, State()) == Spec.LookBack(old(State()), ip)
    {
      host := store.GetByIP(ip);
    }

    method Exist(ip: Spec.Addr) returns (ok: bool)
      requires Valid()
      ensures ok == Spec.Exist(State().store, ip)
    {
      ok := store.Exist(ip);
    }

    method FlushFakeIP()
      requires Valid()
      modifies Repr()
      ensures Valid() && fresh(Repr() - old(Repr()))
      ensures State() == Spec.Flush(old(State()))
    {
      store.FlushFakeIP();
      cycle := false;
      offset := first - 1;
    }
  }
}
