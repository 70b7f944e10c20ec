/** The fake-IP pool as a state machine on values: two least-recently-used caches, one from
    hosts to addresses and one from addresses to hosts, and an allocation cursor. Addresses
    are natural numbers. Nothing in the code compares the caches; that they mirror each
    other is proved here. */
module FakeIpSpec {
  import opened Arithmetic
  import opened Options
  import L = LruSpec

  type Host = string
  type Addr = nat

  /** Both caches have a size limit and no ages, so the clock plays no part. */
  function Conf(size: int): L.Config {
    L.Config(0, size, false, false)
  }

  datatype Store = Store(size: int, byHost: seq<L.Item<Host, Addr>>, byIp: seq<L.Item<Addr, Host>>)

  function EmptyStore(size: int): Store {
    Store(size, [], [])
  }

  /** The answer and the store after it; the mirror entry is made recent too. */
  function GetByHost(s: Store, host: Host): (Option<Addr>, Store) {
    var c := Conf(s.size);
    var ip := L.Lookup(s.byHost, c, host, 0);
    var byHost := L.Get(s.byHost, c, host, 0);
    if ip.None? then (None, s.(byHost := byHost))
    else (ip, s.(byHost := byHost, byIp := L.Get(s.byIp, c, ip.value, 0)))
  }

  function GetByIp(s: Store, ip: Addr): (Option<Host>, Store) {
    var c := Conf(s.size);
    var host := L.Lookup(s.byIp, c, ip, 0);
    var byIp := L.Get(s.byIp, c, ip, 0);
    if host.None? then (None, s.(byIp := byIp))
    else (host, s.(byIp := byIp, byHost := L.Get(s.byHost, c, host.value, 0)))
  }

  function PutByHost(s: Store, host: Host, ip: Addr): Store {
    s.(byHost := L.Set(s.byHost, Conf(s.size), host, ip, 0))
  }

  function PutByIp(s: Store, ip: Addr, host: Host): Store {
    s.(byIp := L.Set(s.byIp, Conf(s.size), ip, host, 0))
  }

  function DelByIp(s: Store, ip: Addr): Store {
    var c := Conf(s.size);
    var host := L.Lookup(s.byIp, c, ip, 0);
    var byIp := L.Get(s.byIp, c, ip, 0);
    s.(byHost := if host.None? then s.byHost else L.Delete(s.byHost, host.value), byIp := L.Delete(byIp, ip))
  }

  function Exist(s: Store, ip: Addr): bool {
    L.Has(s.byIp, ip)
  }

  // ------------------------------------------------------------- the mirror

  function Flip<A, B>(item: L.Item<A, B>): L.Item<B, A> {
    L.Item(item.value, item.key, item.expires)
  }

  /** One cache is the other read backwards: the same pairs in the same order. */
  ghost predicate Mirror<A, B>(a: seq<L.Item<A, B>>, b: seq<L.Item<B, A>>) {
    |a| == |b| && forall i :: 0 <= i < |a| ==> b[i] == Flip(a[i])
  }

  ghost predicate StoreOk(s: Store) {
    && L.Distinct(s.byHost) && L.Distinct(s.byIp) && Mirror(s.byHost, s.byIp)
    && L.Bounded(s.byHost, Conf(s.size)) && L.Bounded(s.byIp, Conf(s.size))
  }

  /** A pair stands at the same place in both caches. */
  lemma {:induction false} SamePlace<A, B>(a: seq<L.Item<A, B>>, b: seq<L.Item<B, A>>, k: A) returns (i: nat)
    requires L.Distinct(b) && Mirror(a, b) && L.Has(a, k)
    ensures i == L.IndexOf(a, k) < |a| && L.IndexOf(b, a[i].value) == i
  {
    i := L.IndexOf(a, k);
    L.IndexIs(b, i);
  }

  lemma {:induction false} RemoveBoth<A, B>(a: seq<L.Item<A, B>>, b: seq<L.Item<B, A>>, i: nat)
    requires Mirror(a, b) && i < |a|
    ensures Mirror(L.RemoveAt(a, i), L.RemoveAt(b, i))
  {
    assert forall j :: 0 <= j < i ==> L.RemoveAt(a, i)[j] == a[j];
    assert forall j :: i <= j < |a| - 1 ==> L.RemoveAt(a, i)[j] == a[j + 1];
  }

  lemma {:induction false} AppendBoth<A, B>(a: seq<L.Item<A, B>>, b: seq<L.Item<B, A>>, item: L.Item<A, B>)
    requires Mirror(a, b)
    ensures Mirror(a + [item], b + [Flip(item)])
  {
  }

  /** Making a pair recent in both caches keeps them mirrored. */
  lemma {:induction false} TouchBoth<A, B>(a: seq<L.Item<A, B>>, b: seq<L.Item<B, A>>, size: int, k: A)
    requires L.Distinct(a) && L.Distinct(b) && Mirror(a, b) && L.Has(a, k)
    ensures Mirror(L.Get(a, Conf(size), k, 0), L.Get(b, Conf(size), a[L.IndexOf(a, k)].value, 0))
  {
    var i := SamePlace(a, b, k);
    RemoveBoth(a, b, i);
    AppendBoth(L.RemoveAt(a, i), L.RemoveAt(b, i), a[i]);
  }

  lemma {:induction false} DeleteBoth<A, B>(a: seq<L.Item<A, B>>, b: seq<L.Item<B, A>>, k: A)
    requires L.Distinct(a) && L.Distinct(b) && Mirror(a, b) && L.Has(a, k)
    ensures Mirror(L.Delete(a, k), L.Delete(b, a[L.IndexOf(a, k)].value))
  {
    var i := SamePlace(a, b, k);
    RemoveBoth(a, b, i);
  }

  /** Adding a new pair to both caches keeps them mirrored: if one is full, both are, and
      they evict mirror entries. */
  lemma {:induction false} PutBoth<A, B>(a: seq<L.Item<A, B>>, b: seq<L.Item<B, A>>, size: int, k: A, v: B)
    requires Mirror(a, b) && !L.Has(a, k) && !L.Has(b, v)
    ensures Mirror(L.Set(a, Conf(size), k, v, 0), L.Set(b, Conf(size), v, k, 0))
  {
    AppendBoth(a, b, L.Item(k, v, 0));
  }

  /** The live pairs: the host of an address, and the address of a host. */
  function HostOf(s: Store, ip: Addr): Option<Host> {
    L.ValueOf(s.byIp, ip)
  }

  function IpOf(s: Store, host: Host): Option<Addr> {
    L.ValueOf(s.byHost, host)
  }

  lemma Mirrored<A, B>(a: seq<L.Item<A, B>>, b: seq<L.Item<B, A>>)
    requires Mirror(a, b)
    ensures Mirror(b, a)
  {
  }

  /** The two caches are exact inverses of each other. */
  lemma {:induction false} ExactInverses(s: Store, host: Host, ip: Addr)
    requires StoreOk(s)
    ensures IpOf(s, host) == Some(ip) <==> HostOf(s, ip) == Some(host)
  {
  }

  /** Two live hosts never share an address. */
  lemma NoSharing(s: Store, h1: Host, h2: Host)
    requires StoreOk(s) && IpOf(s, h1).Some? && IpOf(s, h1) == IpOf(s, h2)
    ensures h1 == h2
  {
  }

  // ------------------------------------------------------------- what the store operations do

  lemma {:induction false} GetByHostOk(s: Store, host: Host) returns (r: (Option<Addr>, Store))
    requires StoreOk(s)
    ensures r == GetByHost(s, host) && StoreOk(r.1) && r.1.size == s.size
    ensures r.0 == IpOf(s, host) && (r.0.None? ==> r.1 == s)
    ensures forall x :: HostOf(r.1, x) == HostOf(s, x)
  {
    r := GetByHost(s, host);
    var c := Conf(s.size);
    L.ValueAfterGet(s.byHost, c, host, 0, host);
    if r.0.Some? {
      TouchBoth(s.byHost, s.byIp, s.size, host);
      L.GetOk(s.byHost, c, host, 0);
      L.GetOk(s.byIp, c, r.0.value, 0);
      forall x
        ensures HostOf(r.1, x) == HostOf(s, x)
      {
        L.ValueAfterGet(s.byIp, c, r.0.value, 0, x);
      }
    }
  }

  lemma {:induction false} GetByIpOk(s: Store, ip: Addr) returns (r: (Option<Host>, Store))
    requires StoreOk(s)
    ensures r == GetByIp(s, ip) && StoreOk(r.1) && r.1.size == s.size
    ensures r.0 == HostOf(s, ip) && (r.0.None? ==> r.1 == s)
    ensures forall x :: HostOf(r.1, x) == HostOf(s, x)
  {
    r := GetByIp(s, ip);
    var c := Conf(s.size);
    forall x
      ensures L.ValueOf(r.1.byIp, x) == HostOf(s, x)
    {
      L.ValueAfterGet(s.byIp, c, ip, 0, x);
    }
    if r.0.Some? {
      Mirrored(s.byHost, s.byIp);
      TouchBoth(s.byIp, s.byHost, s.size, ip);
      Mirrored(r.1.byIp, r.1.byHost);
      L.GetOk(s.byIp, c, ip, 0);
      L.GetOk(s.byHost, c, r.0.value, 0);
    }
  }

  lemma {:induction false} DelByIpOk(s: Store, ip: Addr) returns (s': Store)
    requires StoreOk(s)
    ensures s' == DelByIp(s, ip) && StoreOk(s') && s'.size == s.size
    ensures HostOf(s', ip) == None && forall x :: x != ip ==> HostOf(s', x) == HostOf(s, x)
    ensures forall host :: IpOf(s, host).None? ==> IpOf(s', host).None?
  {
    s' := DelByIp(s, ip);
    DelByIpIs(s, ip);
    forall x
      ensures HostOf(s', x) == if x == ip then None else HostOf(s, x)
    {
      L.ValueAfterDelete(s.byIp, ip, x);
    }
    if HostOf(s, ip).Some? {
      DelPairOk(s, ip, HostOf(s, ip).value, s');
    }
  }

  /** Looking the address up first makes no difference to what is left. */
  lemma {:induction false} DelByIpIs(s: Store, ip: Addr)
    requires StoreOk(s)
    ensures DelByIp(s, ip) == if HostOf(s, ip).None? then s
                              else Store(s.size, L.Delete(s.byHost, HostOf(s, ip).value), L.Delete(s.byIp, ip))
  {
    var c := Conf(s.size);
    L.DeleteAfterGet(s.byIp, c, ip, 0);
    L.ValueAfterGet(s.byIp, c, ip, 0, ip);
  }

  /** The pair of an address leaves both caches. */
  lemma {:induction false} DelPairOk(s: Store, ip: Addr, host: Host, s': Store)
    requires StoreOk(s) && HostOf(s, ip) == Some(host)
    requires s' == Store(s.size, L.Delete(s.byHost, host), L.Delete(s.byIp, ip))
    ensures StoreOk(s') && forall h :: IpOf(s', h) == if h == host then None else IpOf(s, h)
  {
    L.DeleteOk(s.byIp, ip);
    L.DeleteOk(s.byHost, host);
    Mirrored(s.byHost, s.byIp);
    DeleteBoth(s.byIp, s.byHost, ip);
    Mirrored(s'.byIp, s'.byHost);
    forall h
      ensures IpOf(s', h) == if h == host then None else IpOf(s, h)
    {
      L.ValueAfterDelete(s.byHost, host, h);
    }
  }

  /** Recording a new pair in both caches. */
  lemma {:induction false} PutPairOk(s: Store, host: Host, ip: Addr) returns (s': Store)
    requires StoreOk(s) && IpOf(s, host).None? && HostOf(s, ip).None?
    ensures s' == PutByHost(PutByIp(s, ip, host), host, ip) && StoreOk(s') && s'.size == s.size
    ensures HostOf(s', ip) == Some(host)
    ensures forall x :: x != ip ==> HostOf(s', x) in {HostOf(s, x), None}
  {
    s' := PutByHost(PutByIp(s, ip, host), host, ip);
    var c := Conf(s.size);
    var _, _ := L.SetOk(s.byHost, c, host, ip, 0, 0);
    var _, _ := L.SetOk(s.byIp, c, ip, host, 0, 0);
    PutBoth(s.byHost, s.byIp, s.size, host, ip);
    L.ValueAfterSet(s.byIp, c, ip, host, 0, ip);
    forall x | x != ip
      ensures HostOf(s', x) in {HostOf(s, x), None}
    {
      L.ValueAfterSet(s.byIp, c, ip, host, 0, x);
    }
  }

  // ------------------------------------------------------------- the pool

  /** The gateway, the range of addresses to give out (first up to but not including last,
      the broadcast address), the cursor, whether it has wrapped, and the live pairs. */
  datatype Pool = Pool(gateway: Addr, first: Addr, last: Addr, offset: Addr, cycle: bool, store: Store)

  /** The next address, if there is one below the end of the address family. */
  function Next(a: Option<Addr>, top: Addr): Option<Addr> {
    if a.Some? && a.value < top then Some(a.value + 1) else None
  }

  /** A pool for the network from hostAddr to last, in a family of addresses up to top. */
  function New(valid: bool, hostAddr: Addr, last: Addr, top: Addr, size: int): Result<Pool, string> {
    var gateway := Next(Some(hostAddr), top);
    var first := Next(Next(Next(gateway, top), top), top);
    if !valid || first.None? || !(first.value < last) then Err("ipnet don't have valid ip")
    else Ok(Pool(gateway.value, first.value, last, first.value - 1, false, EmptyStore(size)))
  }

  /** The next address goes to a new host, whoever has it now. */
  function Get(p: Pool, host: Host): (Addr, Pool) {
    var wraps := !(p.offset + 1 < p.last);
    var offset := if wraps then p.first else p.offset + 1;
    var cycle := p.cycle || wraps;
    var store := if cycle || Exist(p.store, offset) then DelByIp(p.store, offset) else p.store;
    (offset, p.(offset := offset, cycle := cycle, store := PutByIp(store, offset, host)))
  }

  /** The next address goes to a new host and is recorded both ways. */
  function Assign(p: Pool, host: Host): (Addr, Pool) {
    var (ip, after) := Get(p, host);
    (ip, after.(store := PutByHost(after.store, host, ip)))
  }

  /** The address of a host, allocated if the host is not live; and was it allocated? Hosts are
      compared without regard to case; lower is any way of lower-casing them. */
  function Lookup(lower: Host -> Host, p: Pool, name: Host): (Addr, bool, Pool) {
    var host := lower(name);
    var (found, store) := GetByHost(p.store, host);
    if found.Some? then (found.value, false, p.(store := store))
    else
      var (ip, after) := Assign(p.(store := store), host);
      (ip, true, after)
  }

  function LookBack(p: Pool, ip: Addr): (Option<Host>, Pool) {
    var (host, store) := GetByIp(p.store, ip);
    (host, p.(store := store))
  }

  /** Start over. (A pool's first address is never zero, so it has one before it.) */
  function Flush(p: Pool): Pool {
    p.(store := EmptyStore(p.store.size), cycle := false, offset := if p.first > 0 then p.first - 1 else 0)
  }

  // ------------------------------------------------------------- runs

  datatype Op = OpLookup(host: Host) | OpLookBack(ip: Addr) | OpExist(ip: Addr) | OpFlush

  /** One fresh allocation. */
  datatype Grant = Grant(ip: Addr, host: Host)

  /** The pool, and every fresh allocation since it was made or flushed. */
  datatype State = State(pool: Pool, grants: seq<Grant>)

  function Step(lower: Host -> Host, s: State, op: Op): State {
    match op
    case OpLookup(name) =>
      var (ip, isFresh, pool) := Lookup(lower, s.pool, name);
      State(pool, if isFresh then s.grants + [Grant(ip, lower(name))] else s.grants)
    case OpLookBack(ip) => s.(pool := LookBack(s.pool, ip).1)
    case OpExist(_) => s
    case OpFlush => State(Flush(s.pool), [])
  }

  function Run(lower: Host -> Host, pool: Pool, ops: seq<Op>): State {
    if ops == [] then State(pool, []) else Step(lower, Run(lower, pool, ops[..|ops| - 1]), ops[|ops| - 1])
  }

  /** The host an address was last granted to. */
  function LatestHost(grants: seq<Grant>, ip: Addr): Option<Host> {
    if grants == [] then None
    else if grants[|grants| - 1].ip == ip then Some(grants[|grants| - 1].host)
    else LatestHost(grants[..|grants| - 1], ip)
  }

  /** How many addresses the pool gives out before it starts over. */
  function Span(p: Pool): int {
    p.last - p.first
  }

  /** The n-th address in the pool's order, counted from zero. */
  function Nth(p: Pool, n: nat): int
    requires Span(p) > 0
  {
    p.first + n % Span(p)
  }

  /** The n-th fresh allocation, from zero, gets the n-th address, going round and round. */
  ghost predicate Cyclic(p: Pool, grants: seq<Grant>)
    requires Span(p) > 0
  {
    && (forall n :: 0 <= n < |grants| ==> grants[n].ip == Nth(p, n))
    && p.offset == (if grants == [] then p.first - 1 else grants[|grants| - 1].ip)
    && p.cycle == (|grants| > Span(p))
  }

  ghost predicate Sound(s: State) {
    && 0 < s.pool.first < s.pool.last && StoreOk(s.pool.store) && Cyclic(s.pool, s.grants)
    && forall ip :: HostOf(s.pool.store, ip).Some? ==> LatestHost(s.grants, ip) == HostOf(s.pool.store, ip)
  }

  /** One step of the cursor, from the last address to the next. */
  lemma NextAddress(first: nat, span: int, last: int, n: nat)
    requires span > 0 && last == if n == 0 then first - 1 else first + (n - 1) % span
    ensures (if last + 1 < first + span then last + 1 else first) == first + n % span
    ensures n > span || !(last + 1 < first + span) <==> n + 1 > span
    ensures 0 <= n % span < span
  {
    if n > 0 {
      NextRemainder(n - 1, span);
    }
    if n < span {
      RemainderIs(n, span, 0, n);
    }
    if n == span {
      RemainderIs(n, span, 1, 0);
    }
  }

  /** The cursor moves to the address the count of allocations says. */
  lemma {:induction false} CursorOk(p: Pool, grants: seq<Grant>, host: Host) returns (ip: Addr, after: Pool)
    requires 0 < p.first < p.last && Cyclic(p, grants)
    ensures (ip, after) == Get(p, host) && p.first <= ip < p.last
    ensures after.gateway == p.gateway && after.first == p.first && after.last == p.last
    ensures Cyclic(after, grants + [Grant(ip, host)])
  {
    NextAddress(p.first, Span(p), p.offset, |grants|);
    ip := Nth(p, |grants|);
    after := Get(p, host).1;
    CyclicMore(p, grants, after, Grant(ip, host));
  }

  /** One more allocation at the address whose turn it is. */
  lemma {:induction false} CyclicMore(p: Pool, grants: seq<Grant>, after: Pool, g: Grant)
    requires 0 < p.first < p.last && Cyclic(p, grants)
    requires after.first == p.first && after.last == p.last && after.offset == g.ip == Nth(p, |grants|)
    requires after.cycle == (|grants| + 1 > Span(p))
    ensures Cyclic(after, grants + [g])
  {
    assert forall i :: 0 <= i < |grants| ==> Nth(after, i) == Nth(p, i);
  }

  /** A fresh allocation: the address loses its old pair, if it had one, and is paired with
      the new host. */
  lemma {:induction false} GrantOk(p: Pool, host: Host) returns (ip: Addr, store: Store)
    requires StoreOk(p.store) && IpOf(p.store, host).None?
    ensures ip == Get(p, host).0 && store == PutByHost(Get(p, host).1.store, host, ip)
    ensures StoreOk(store) && HostOf(store, ip) == Some(host)
    ensures forall x :: x != ip ==> HostOf(store, x) in {HostOf(p.store, x), None}
  {
    ip := Get(p, host).0;
    var cleared := p.store;
    if Exist(p.store, ip) || !(p.offset + 1 < p.last) || p.cycle {
      cleared := DelByIpOk(p.store, ip);
    }
    store := PutPairOk(cleared, host, ip);
  }

  lemma LatestOfNew(grants: seq<Grant>, g: Grant, ip: Addr)
    ensures LatestHost(grants + [g], ip) == if ip == g.ip then Some(g.host) else LatestHost(grants, ip)
  {
  }

  /** The host is live: only the order changes. */
  lemma {:induction false} LookupKnown(lower: Host -> Host, s: State, name: Host) returns (s': State)
    requires Sound(s) && IpOf(s.pool.store, lower(name)).Some?
    ensures s' == Step(lower, s, OpLookup(name)) && Sound(s')
    ensures s'.pool == s.pool.(store := s'.pool.store)
    ensures HostOf(s'.pool.store, Lookup(lower, s.pool, name).0) == Some(lower(name))
  {
    s' := Step(lower, s, OpLookup(name));
    var r := GetByHostOk(s.pool.store, lower(name));
    ExactInverses(s.pool.store, lower(name), r.0.value);
    assert s' == State(s.pool.(store := r.1), s.grants);
  }

  lemma {:induction false} LookupNew(lower: Host -> Host, s: State, name: Host) returns (s': State)
    requires Sound(s) && IpOf(s.pool.store, lower(name)).None?
    ensures s' == Step(lower, s, OpLookup(name)) && Sound(s')
    ensures s'.pool.first == s.pool.first && s'.pool.last == s.pool.last && s'.pool.gateway == s.pool.gateway
    ensures HostOf(s'.pool.store, Lookup(lower, s.pool, name).0) == Some(lower(name))
  {
    var host := lower(name);
    var r := GetByHostOk(s.pool.store, host);
    var ip, after := CursorOk(s.pool, s.grants, host);
    var _, store := GrantOk(s.pool, host);
    var grants := s.grants + [Grant(ip, host)];
    forall x | HostOf(store, x).Some?
      ensures LatestHost(grants, x) == HostOf(store, x)
    {
      LatestOfNew(s.grants, Grant(ip, host), x);
    }
    s' := State(after.(store := store), grants);
    assert s.pool.(store := r.1) == s.pool;
  }

  /** A Lookup keeps everything sound, and the address it returns leads back to the
      lower-cased host. */
  lemma LookupOk(lower: Host -> Host, s: State, name: Host) returns (s': State)
    requires Sound(s)
    ensures s' == Step(lower, s, OpLookup(name)) && Sound(s')
    ensures s'.pool.first == s.pool.first && s'.pool.last == s.pool.last && s'.pool.gateway == s.pool.gateway
    ensures HostOf(s'.pool.store, Lookup(lower, s.pool, name).0) == Some(lower(name))
  {
    if IpOf(s.pool.store, lower(name)).Some? {
      s' := LookupKnown(lower, s, name);
    } else {
      s' := LookupNew(lower, s, name);
    }
  }

  /** A look back changes nothing but the order. */
  lemma LookBackOk(lower: Host -> Host, s: State, ip: Addr) returns (s': State)
    requires Sound(s)
    ensures s' == Step(lower, s, OpLookBack(ip)) && Sound(s') && s'.pool == s.pool.(store := s'.pool.store)
  {
    s' := Step(lower, s, OpLookBack(ip));
    var _ := GetByIpOk(s.pool.store, ip);
  }

  lemma StepOk(lower: Host -> Host, s: State, op: Op) returns (s': State)
    requires Sound(s)
    ensures s' == Step(lower, s, op) && Sound(s')
    ensures s'.pool.first == s.pool.first && s'.pool.last == s.pool.last && s'.pool.gateway == s.pool.gateway
  {
    s' := Step(lower, s, op);
    match op
    case OpLookup(name) => var _ := LookupOk(lower, s, name);
    case OpLookBack(ip) => var _ := LookBackOk(lower, s, ip);
    case OpExist(_) =>
    case OpFlush =>
  }

  /** A new pool exists exactly when the network is valid and has room for the first address,
      three past the gateway, below the broadcast address. */
  lemma NewOk(valid: bool, hostAddr: Addr, last: Addr, top: Addr, size: int)
    requires hostAddr <= last <= top
    ensures New(valid, hostAddr, last, top, size).Ok? <==> valid && hostAddr + 4 < last
    ensures New(valid, hostAddr, last, top, size).Ok? ==>
              var p := New(valid, hostAddr, last, top, size).value;
              p.gateway == hostAddr + 1 && p.first == hostAddr + 4 && p.last == last && Sound(State(p, []))
  {
  }

  lemma {:induction false} RunOk(lower: Host -> Host, p: Pool, ops: seq<Op>) returns (s: State)
    requires Sound(State(p, []))
    ensures s == Run(lower, p, ops) && Sound(s)
    ensures s.pool.first == p.first && s.pool.last == p.last && s.pool.gateway == p.gateway
  {
    if ops == [] {
      s := State(p, []);
    } else {
      s := RunOk(lower, p, ops[..|ops| - 1]);
      s := StepOk(lower, s, ops[|ops| - 1]);
    }
  }

  // ------------------------------------------------------------- what callers rely on, over every run

  lemma {:induction false} LatestIsGranted(grants: seq<Grant>, ip: Addr) returns (n: nat)
    requires LatestHost(grants, ip).Some?
    ensures n < |grants| && grants[n] == Grant(ip, LatestHost(grants, ip).value)
  {
    if grants[|grants| - 1].ip == ip {
      n := |grants| - 1;
    } else {
      n := LatestIsGranted(grants[..|grants| - 1], ip);
    }
  }

  /** After any run, a live address lies in the range and belongs to the host it was last
      granted to. */
  lemma {:induction false} LiveIsLatest(lower: Host -> Host, p: Pool, ops: seq<Op>, host: Host, ip: Addr)
    requires Sound(State(p, [])) && IpOf(Run(lower, p, ops).pool.store, host) == Some(ip)
    ensures p.first <= ip < p.last && LatestHost(Run(lower, p, ops).grants, ip) == Some(host)
  {
    var s := RunOk(lower, p, ops);
    ExactInverses(s.pool.store, host, ip);
    var n := LatestIsGranted(s.grants, ip);
    assert ip == Nth(s.pool, n);
  }

  lemma GrantedInOrder(s: State, p: Pool, n: nat)
    requires Sound(s) && n < |s.grants| && s.pool.first == p.first && s.pool.last == p.last
    ensures s.grants[n].ip == Nth(p, n)
  {
  }

  lemma GrantedKth(s: State, p: Pool, k: nat)
    requires Sound(s) && s.pool.first == p.first && s.pool.last == p.last
    ensures Span(p) > 0 && (1 <= k <= |s.grants| ==> s.grants[k - 1].ip == Nth(p, k - 1))
  {
    if 1 <= k <= |s.grants| {
      GrantedInOrder(s, p, k - 1);
    }
  }

  /** The k-th fresh allocation since the pool was made or flushed, counting from one, is
      first + (k - 1) mod (last - first). */
  lemma {:induction false} AllocationOrder(lower: Host -> Host, p: Pool, ops: seq<Op>, k: nat) returns (s: State)
    requires Sound(State(p, []))
    ensures s == Run(lower, p, ops) && (1 <= k <= |s.grants| ==> s.grants[k - 1].ip == Nth(p, k - 1))
  {
    s := RunOk(lower, p, ops);
    GrantedKth(s, p, k);
  }

  lemma SameRemainder(i: nat, j: nat, span: int)
    requires span > 0 && i < j && i % span == j % span
    ensures j - i >= span
  {
    var d := j / span - i / span;
    assert d * span == j - i;
    assert d <= 0 ==> d * span <= 0;
    assert d >= 1 ==> d * span >= span;
  }

  /** An address is granted again only after a full cycle of fresh allocations. */
  lemma {:induction false} ReuseAfterFullCycle(lower: Host -> Host, p: Pool, ops: seq<Op>, i: nat, j: nat)
    requires Sound(State(p, [])) && i < j < |Run(lower, p, ops).grants|
    requires Run(lower, p, ops).grants[i].ip == Run(lower, p, ops).grants[j].ip
    ensures j - i >= p.last - p.first
  {
    var s := RunOk(lower, p, ops);
    GrantedInOrder(s, p, i);
    GrantedInOrder(s, p, j);
    SameRemainder(i, j, Span(p));
  }

  /** After any run, an address exists exactly when some host has it, and then looking it back gives
      that host; otherwise nothing. */
  lemma {:induction false} ExistIsLive(lower: Host -> Host, p: Pool, ops: seq<Op>, ip: Addr) returns (s: State)
    requires Sound(State(p, []))
    ensures s == Run(lower, p, ops)
    ensures Exist(s.pool.store, ip) <==> LookBack(s.pool, ip).0.Some?
    ensures Exist(s.pool.store, ip) <==> exists host :: IpOf(s.pool.store, host) == Some(ip)
  {
    s := RunOk(lower, p, ops);
    var store := s.pool.store;
    var found := GetByIpOk(store, ip);
    forall host
      ensures IpOf(store, host) == Some(ip) <==> HostOf(store, ip) == Some(host)
    {
      ExactInverses(store, host, ip);
    }
    if Exist(store, ip) {
      assert IpOf(store, HostOf(store, ip).value) == Some(ip);
    }
  }

  /** After any run, the two caches hold the same number of pairs, and no more than the size allows. */
  lemma {:induction false} NoMoreThanSize(lower: Host -> Host, p: Pool, ops: seq<Op>) returns (s: State)
    requires Sound(State(p, []))
    ensures s == Run(lower, p, ops) && s.pool.store.size == p.store.size
    ensures |s.pool.store.byHost| == |s.pool.store.byIp| && (p.store.size > 0 ==> |s.pool.store.byHost| <= p.store.size)
  {
    s := RunOk(lower, p, ops);
    RunSize(lower, p, ops);
  }

  lemma {:induction false} RunSize(lower: Host -> Host, p: Pool, ops: seq<Op>)
    ensures Run(lower, p, ops).pool.store.size == p.store.size
  {
    if ops != [] {
      RunSize(lower, p, ops[..|ops| - 1]);
    }
  }

  /** After any run: looking a host up gives an address of the range, never the network, the
      gateway or the broadcast address; looking the address back gives the lower-cased host;
      and looking any spelling of the host up again gives the same address. */
  lemma {:induction false} LookBackOfLookup(lower: Host -> Host, hostAddr: Addr, last: Addr, top: Addr, size: int, ops: seq<Op>, name: Host, again: Host)
    requires hostAddr <= last <= top && New(true, hostAddr, last, top, size).Ok? && lower(again) == lower(name)
    ensures var p := Run(lower, New(true, hostAddr, last, top, size).value, ops).pool;
      var (ip, _, after) := Lookup(lower, p, name);
      && ip !in {hostAddr, p.gateway, last} && hostAddr + 4 <= ip < last
      && LookBack(after, ip).0 == Some(lower(name))
      && Lookup(lower, after, again).0 == ip && !Lookup(lower, after, again).1
  {
    NewOk(true, hostAddr, last, top, size);
    var p0 := New(true, hostAddr, last, top, size).value;
    var s := RunOk(lower, p0, ops);
    var s' := LookupOk(lower, s, name);
    var ip := Lookup(lower, s.pool, name).0;
    var n := LatestIsGranted(s'.grants, ip);
    assert ip == Nth(s'.pool, n);
    var _ := GetByIpOk(s'.pool.store, ip);
    ExactInverses(s'.pool.store, lower(name), ip);
    var _ := GetByHostOk(s'.pool.store, lower(name));
  }
}
