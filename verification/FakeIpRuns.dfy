/** How long a host keeps its fake address: until the cursor comes round to it, or as many other
    hosts as the store has room for were used since. */
module FakeIpRuns {
  import opened FakeIpSpec
  import opened Options
  import L = LruSpec
  import R = LruRuns

  // ------------------------------------------------------------- a host in the host cache

  /** The host has the address, and the hosts used since are among these. */
  ghost predicate Tracked(items: seq<L.Item<Host, Addr>>, h: Host, ip: Addr, others: set<Host>) {
    var i := L.IndexOf(items, h);
    && L.Distinct(items) && L.Has(items, h) && items[i].value == ip
    && forall j :: i < j < |items| ==> items[j].key in others
  }

  /** An item of the list tells where the host stands. */
  lemma {:induction false} TrackedAt(items: seq<L.Item<Host, Addr>>, i: nat, h: Host, ip: Addr, others: set<Host>)
    requires L.Distinct(items) && i < |items| && items[i].key == h && items[i].value == ip
    requires forall j :: i < j < |items| ==> items[j].key in others
    ensures Tracked(items, h, ip, others)
  {
    L.IndexIs(items, i);
  }

  lemma {:induction false} TrackedLonger(items: seq<L.Item<Host, Addr>>, h: Host, ip: Addr, others: set<Host>, more: set<Host>)
    requires Tracked(items, h, ip, others) && others <= more
    ensures Tracked(items, h, ip, more)
  {
  }

  lemma {:induction false} TrackedRemoved(items: seq<L.Item<Host, Addr>>, n: nat, h: Host, ip: Addr, others: set<Host>)
    requires Tracked(items, h, ip, others) && n < |items| && items[n].key != h
    ensures Tracked(L.RemoveAt(items, n), h, ip, others)
  {
    var rest, i := L.RemoveAt(items, n), L.IndexOf(items, h);
    assert forall j :: 0 <= j < |rest| ==> rest[j] == items[if j < n then j else j + 1];
    TrackedAt(rest, if i < n then i else i - 1, h, ip, others);
  }

  lemma {:induction false} TrackedDelete(items: seq<L.Item<Host, Addr>>, k: Host, h: Host, ip: Addr, others: set<Host>)
    requires Tracked(items, h, ip, others) && k != h
    ensures Tracked(L.Delete(items, k), h, ip, others)
  {
    if L.Has(items, k) {
      TrackedRemoved(items, L.IndexOf(items, k), h, ip, others);
    }
  }

  lemma {:induction false} TrackedPush(items: seq<L.Item<Host, Addr>>, x: L.Item<Host, Addr>, h: Host, ip: Addr, others: set<Host>)
    requires Tracked(items, h, ip, others) && !L.Has(items, x.key)
    ensures Tracked(items + [x], h, ip, others + {x.key})
  {
    L.PutLast(items, x);
    TrackedAt(items + [x], L.IndexOf(items, h), h, ip, others + {x.key});
  }

  /** Whatever stood there, the last item was used last. */
  lemma {:induction false} TrackedLast(rest: seq<L.Item<Host, Addr>>, x: L.Item<Host, Addr>)
    requires L.Distinct(rest) && !L.Has(rest, x.key)
    ensures Tracked(rest + [x], x.key, x.value, {})
  {
    L.PutLast(rest, x);
    TrackedAt(rest + [x], |rest|, x.key, x.value, {});
  }

  /** A Get of another host. */
  lemma {:induction false} TrackedGet(items: seq<L.Item<Host, Addr>>, size: int, k: Host, h: Host, ip: Addr, others: set<Host>)
    requires Tracked(items, h, ip, others) && k != h
    ensures Tracked(L.Get(items, Conf(size), k, 0), h, ip, others + {k})
  {
    if L.Has(items, k) {
      L.DeleteOk(items, k);
      TrackedDelete(items, k, h, ip, others);
      TrackedPush(L.Delete(items, k), items[L.IndexOf(items, k)], h, ip, others);
    } else {
      TrackedLonger(items, h, ip, others, others + {k});
    }
  }

  /** A Get of the host itself. */
  lemma {:induction false} TrackedHit(items: seq<L.Item<Host, Addr>>, size: int, h: Host)
    requires L.Distinct(items) && L.Has(items, h)
    ensures Tracked(L.Get(items, Conf(size), h, 0), h, items[L.IndexOf(items, h)].value, {})
  {
    L.DeleteOk(items, h);
    TrackedLast(L.Delete(items, h), items[L.IndexOf(items, h)]);
  }

  /** A new host pushes out the least recent one of a full cache; that is not this one while fewer
      others were used than there is room for. */
  lemma {:induction false} TrackedSet(items: seq<L.Item<Host, Addr>>, size: int, k: Host, v: Addr, h: Host, ip: Addr, others: set<Host>)
    requires Tracked(items, h, ip, others) && L.Bounded(items, Conf(size)) && !L.Has(items, k)
    requires size > 0 ==> |others + {k}| < size
    ensures Tracked(L.Set(items, Conf(size), k, v, 0), h, ip, others + {k})
  {
    var x := L.Item(k, v, 0);
    var all := items + [x];
    TrackedPush(items, x, h, ip, others);
    if 0 < size < |all| {
      if L.IndexOf(all, h) == 0 {
        L.DistinctSuffix(all, 1);
        var keys := R.KeySet(all[1..]);
        forall y | y in keys
          ensures y in others + {k}
        {
          assert all[L.IndexOf(all[1..], y) + 1].key == y;
        }
        R.Smaller(keys, others + {k});
        assert false;
      }
      TrackedAt(all[1..], L.IndexOf(all, h) - 1, h, ip, others + {k});
    }
  }

  // ------------------------------------------------------------- one operation of the pool

  /** The hosts an operation uses. */
  function UsedBy(lower: Host -> Host, s: State, op: Op): set<Host> {
    match op
    case OpLookup(name) => {lower(name)}
    case OpLookBack(ip) => if HostOf(s.pool.store, ip).Some? then {HostOf(s.pool.store, ip).value} else {}
    case OpExist(_) => {}
    case OpFlush => {}
  }

  lemma {:induction false} HostIsTracked(s: Store, h: Host, ip: Addr, others: set<Host>)
    requires Tracked(s.byHost, h, ip, others)
    ensures IpOf(s, h) == Some(ip)
  {
  }

  lemma {:induction false} LookupKeeps(lower: Host -> Host, s: State, name: Host, h: Host, ip: Addr, others: set<Host>)
    requires Sound(s) && Tracked(s.pool.store.byHost, h, ip, others) && lower(name) != h
    requires IpOf(s.pool.store, lower(name)).Some?
    ensures Tracked(Step(lower, s, OpLookup(name)).pool.store.byHost, h, ip, others + {lower(name)})
  {
    var store := s.pool.store;
    var r := GetByHostOk(store, lower(name));
    TrackedGet(store.byHost, store.size, lower(name), h, ip, others);
  }

  /** What a fresh allocation makes of the host cache. */
  lemma {:induction false} AssignedHosts(p: Pool, host: Host) returns (cleared: Store)
    requires StoreOk(p.store) && IpOf(p.store, host).None?
    ensures cleared == p.store || cleared == DelByIp(p.store, Get(p, host).0)
    ensures Assign(p, host).1.store.byHost == L.Set(cleared.byHost, Conf(cleared.size), host, Get(p, host).0, 0)
    ensures cleared.size == p.store.size
  {
    var ip := Get(p, host).0;
    cleared := if Exist(p.store, ip) || !(p.offset + 1 < p.last) || p.cycle then DelByIp(p.store, ip) else p.store;
  }

  /** The address goes to the new host; its old holder, which is not this host, loses it. */
  lemma {:induction false} ClearedKeeps(s: Store, ip': Addr, h: Host, ip: Addr, others: set<Host>)
    requires StoreOk(s) && Tracked(s.byHost, h, ip, others) && ip' != ip
    ensures Tracked(DelByIp(s, ip').byHost, h, ip, others)
  {
    HostIsTracked(s, h, ip, others);
    ExactInverses(s, h, ip');
    DelByIpIs(s, ip');
    if HostOf(s, ip').Some? {
      TrackedDelete(s.byHost, HostOf(s, ip').value, h, ip, others);
    }
  }

  lemma {:induction false} AssignKeeps(p: Pool, host: Host, h: Host, ip: Addr, others: set<Host>)
    requires StoreOk(p.store) && IpOf(p.store, host).None? && Tracked(p.store.byHost, h, ip, others) && Get(p, host).0 != ip
    requires p.store.size > 0 ==> |others + {host}| < p.store.size
    ensures Tracked(Assign(p, host).1.store.byHost, h, ip, others + {host})
  {
    var ip' := Get(p, host).0;
    ClearedKeeps(p.store, ip', h, ip, others);
    var deleted := DelByIpOk(p.store, ip');
    var cleared := AssignedHosts(p, host);
    TrackedSet(cleared.byHost, cleared.size, host, ip', h, ip, others);
  }

  lemma {:induction false} NewKeeps(lower: Host -> Host, s: State, name: Host, h: Host, ip: Addr, others: set<Host>)
    requires Sound(s) && Tracked(s.pool.store.byHost, h, ip, others) && IpOf(s.pool.store, lower(name)).None?
    requires Nth(s.pool, |s.grants|) != ip
    requires s.pool.store.size > 0 ==> |others + {lower(name)}| < s.pool.store.size
    ensures Tracked(Step(lower, s, OpLookup(name)).pool.store.byHost, h, ip, others + {lower(name)})
  {
    var host := lower(name);
    var r := GetByHostOk(s.pool.store, host);
    var ip', _ := CursorOk(s.pool, s.grants, host);
    NextAddress(s.pool.first, Span(s.pool), s.pool.offset, |s.grants|);
    AssignKeeps(s.pool, host, h, ip, others);
    assert s.pool.(store := r.1) == s.pool;
  }

  lemma {:induction false} LookBackKeeps(s: Store, a: Addr, h: Host, ip: Addr, others: set<Host>, more: set<Host>)
    requires StoreOk(s) && Tracked(s.byHost, h, ip, others) && others <= more
    requires HostOf(s, a).Some? && HostOf(s, a).value != h ==> HostOf(s, a).value in more
    ensures Tracked(GetByIp(s, a).1.byHost, h, ip, more)
  {
    var r := GetByIpOk(s, a);
    if r.0.None? {
      TrackedLonger(s.byHost, h, ip, others, more);
    } else if r.0.value == h {
      TrackedHit(s.byHost, s.size, h);
      TrackedLonger(r.1.byHost, h, ip, {}, more);
    } else {
      TrackedGet(s.byHost, s.size, r.0.value, h, ip, others);
      TrackedLonger(r.1.byHost, h, ip, others + {r.0.value}, more);
    }
  }

  /** The host itself is looked up. */
  lemma {:induction false} AgainKeeps(lower: Host -> Host, s: State, name: Host, ip: Addr)
    requires Sound(s) && IpOf(s.pool.store, lower(name)) == Some(ip)
    ensures Tracked(Step(lower, s, OpLookup(name)).pool.store.byHost, lower(name), ip, {})
  {
    TrackedHit(s.pool.store.byHost, s.pool.store.size, lower(name));
    var r := GetByHostOk(s.pool.store, lower(name));
  }

  /** The other hosts used, with those of one operation more. */
  function OthersWith(lower: Host -> Host, s: State, op: Op, h: Host, others: set<Host>): set<Host> {
    others + (UsedBy(lower, s, op) - {h})
  }

  lemma {:induction false} LookupStep(lower: Host -> Host, s: State, name: Host, h: Host, ip: Addr, others: set<Host>)
    requires Sound(s) && Tracked(s.pool.store.byHost, h, ip, others)
    requires Nth(s.pool, |s.grants|) != ip || IpOf(s.pool.store, lower(name)).Some?
    requires s.pool.store.size > 0 ==> |OthersWith(lower, s, OpLookup(name), h, others)| < s.pool.store.size
    ensures Tracked(Step(lower, s, OpLookup(name)).pool.store.byHost, h, ip, OthersWith(lower, s, OpLookup(name), h, others))
  {
    var host, after := lower(name), Step(lower, s, OpLookup(name)).pool.store.byHost;
    HostIsTracked(s.pool.store, h, ip, others);
    if host == h {
      AgainKeeps(lower, s, name, ip);
      TrackedLonger(after, h, ip, {}, OthersWith(lower, s, OpLookup(name), h, others));
    } else {
      assert OthersWith(lower, s, OpLookup(name), h, others) == others + {host};
      if IpOf(s.pool.store, host).Some? {
        LookupKeeps(lower, s, name, h, ip, others);
      } else {
        NewKeeps(lower, s, name, h, ip, others);
      }
    }
  }

  /** Any operation but a Flush. */
  lemma {:induction false} StepKeeps(lower: Host -> Host, s: State, op: Op, h: Host, ip: Addr, others: set<Host>)
    requires Sound(s) && Tracked(s.pool.store.byHost, h, ip, others) && !op.OpFlush?
    requires Nth(s.pool, |s.grants|) != ip || |Step(lower, s, op).grants| == |s.grants|
    requires s.pool.store.size > 0 ==> |OthersWith(lower, s, op, h, others)| < s.pool.store.size
    ensures Tracked(Step(lower, s, op).pool.store.byHost, h, ip, OthersWith(lower, s, op, h, others))
  {
    match op
    case OpLookup(name) =>
      GrantsWhenNew(lower, s, name);
      LookupStep(lower, s, name, h, ip, others);
    case OpLookBack(a) => LookBackKeeps(s.pool.store, a, h, ip, others, OthersWith(lower, s, op, h, others));
    case OpExist(_) => TrackedLonger(s.pool.store.byHost, h, ip, others, OthersWith(lower, s, op, h, others));
  }

  lemma {:induction false} GrantsWhenNew(lower: Host -> Host, s: State, name: Host)
    requires Sound(s)
    ensures IpOf(s.pool.store, lower(name)).None? ==> |Step(lower, s, OpLookup(name)).grants| == |s.grants| + 1
  {
    var r := GetByHostOk(s.pool.store, lower(name));
  }

  // ------------------------------------------------------------- runs

  predicate NoFlush(ops: seq<Op>) {
    forall i :: 0 <= i < |ops| ==> !ops[i].OpFlush?
  }

  /** The other hosts used by a run that goes on. */
  function OthersUsed(lower: Host -> Host, p: Pool, ops: seq<Op>, more: seq<Op>, h: Host): set<Host> {
    if more == [] then {}
    else
      var front := more[..|more| - 1];
      OthersWith(lower, Run(lower, p, ops + front), more[|more| - 1], h, OthersUsed(lower, p, ops, front, h))
  }

  lemma {:induction false} RunNext(lower: Host -> Host, p: Pool, ops: seq<Op>, op: Op) returns (s: State, s': State)
    requires Sound(State(p, []))
    ensures s == Run(lower, p, ops) && s' == Run(lower, p, ops + [op]) == Step(lower, s, op) && Sound(s) && Sound(s')
    ensures s.pool.first == p.first && s.pool.last == p.last
    ensures s'.pool.first == p.first && s'.pool.last == p.last && s'.pool.store.size == s.pool.store.size
  {
    s := RunOk(lower, p, ops);
    assert (ops + [op])[..|ops + [op]| - 1] == ops;
    s' := StepOk(lower, s, op);
  }

  /** Grants stay until a Flush, and only come to be more. */
  lemma {:induction false} GrantsStay(lower: Host -> Host, s: State, op: Op)
    requires !op.OpFlush?
    ensures s.grants <= Step(lower, s, op).grants && |Step(lower, s, op).grants| <= |s.grants| + 1
  {
  }

  lemma {:induction false} NotYet(s: State, p: Pool, n: nat, ip: Addr)
    requires Sound(s) && s.pool.first == p.first && s.pool.last == p.last
    requires n < |s.grants| < n + Span(p) && s.grants[n].ip == ip
    ensures Nth(s.pool, |s.grants|) != ip
  {
    if Nth(s.pool, |s.grants|) == ip {
      SameRemainder(n, |s.grants|, Span(p));
    }
  }

  /** One step of such a run. */
  lemma {:induction false} OneMore(lower: Host -> Host, p: Pool, s: State, op: Op, s': State, h: Host, ip: Addr, n: nat,
                                   others: set<Host>, more: set<Host>)
    requires Sound(s) && s' == Step(lower, s, op) && !op.OpFlush? && Tracked(s.pool.store.byHost, h, ip, others)
    requires s.pool.first == p.first && s.pool.last == p.last && s.pool.store.size == p.store.size
    requires n < |s.grants| && s.grants[n].ip == ip && |s'.grants| <= n + Span(p)
    requires more == OthersWith(lower, s, op, h, others) && (p.store.size > 0 ==> |more| < p.store.size)
    ensures s.grants <= s'.grants && Tracked(s'.pool.store.byHost, h, ip, more)
  {
    GrantsStay(lower, s, op);
    if |s'.grants| > |s.grants| {
      NotYet(s, p, n, ip);
    }
    StepKeeps(lower, s, op, h, ip, others);
  }

  /** The host keeps its address over a run that does not use too many others, nor grants so many
      addresses that its own has its turn. */
  lemma {:induction false} RunKeepsHost(lower: Host -> Host, p: Pool, ops: seq<Op>, more: seq<Op>, h: Host, ip: Addr, n: nat)
      returns (end: State)
    requires Sound(State(p, [])) && NoFlush(more)
    requires Tracked(Run(lower, p, ops).pool.store.byHost, h, ip, {})
    requires n < |Run(lower, p, ops).grants| && Run(lower, p, ops).grants[n].ip == ip
    requires |Run(lower, p, ops + more).grants| <= n + Span(p)
    requires p.store.size > 0 ==> |OthersUsed(lower, p, ops, more, h)| < p.store.size
    ensures end == Run(lower, p, ops + more) && n < |end.grants| && end.grants[n].ip == ip
    ensures Tracked(end.pool.store.byHost, h, ip, OthersUsed(lower, p, ops, more, h))
    decreases |more|
  {
    if more == [] {
      assert ops + more == ops;
      end := Run(lower, p, ops);
    } else {
      var front, op := more[..|more| - 1], more[|more| - 1];
      RunEnds(ops, more, front, op);
      var s;
      s, end := RunNext(lower, p, ops + front, op);
      GrantsStay(lower, s, op);
      var others := OthersUsed(lower, p, ops, front, h);
      R.Smaller(others, OthersUsed(lower, p, ops, more, h));
      var _ := RunKeepsHost(lower, p, ops, front, h, ip, n);
      RunSize(lower, p, ops + front);
      OneMore(lower, p, s, op, end, h, ip, n, others, OthersUsed(lower, p, ops, more, h));
    }
  }

  lemma {:induction false} RunEnds<T>(ops: seq<T>, more: seq<T>, front: seq<T>, op: T)
    requires more != [] && front == more[..|more| - 1] && op == more[|more| - 1]
    ensures ops + more == (ops + front) + [op]
  {
  }

  /** A Lookup puts its host last in the host cache. */
  lemma {:induction false} LookupTracks(lower: Host -> Host, s: State, name: Host) returns (ip: Addr)
    requires Sound(s)
    ensures ip == Lookup(lower, s.pool, name).0
    ensures Tracked(Step(lower, s, OpLookup(name)).pool.store.byHost, lower(name), ip, {})
  {
    ip := Lookup(lower, s.pool, name).0;
    var host := lower(name);
    var r := GetByHostOk(s.pool.store, host);
    if r.0.Some? {
      AgainKeeps(lower, s, name, ip);
    } else {
      assert s.pool.(store := r.1) == s.pool;
      AssignTracks(s.pool, host);
    }
  }

  lemma {:induction false} AssignTracks(p: Pool, host: Host)
    requires StoreOk(p.store) && IpOf(p.store, host).None?
    ensures Tracked(Assign(p, host).1.store.byHost, host, Get(p, host).0, {})
  {
    var ip := Get(p, host).0;
    var deleted := DelByIpOk(p.store, ip);
    var cleared := AssignedHosts(p, host);
    var all := cleared.byHost + [L.Item(host, ip, 0)];
    TrackedLast(cleared.byHost, L.Item(host, ip, 0));
    if 0 < cleared.size < |all| {
      L.DistinctSuffix(all, 1);
      TrackedAt(all[1..], |all| - 2, host, ip, {});
    }
  }

  /** A LookBack puts the host it finds last, too. */
  lemma {:induction false} LookBackTracks(lower: Host -> Host, s: State, ip: Addr, h: Host)
    requires Sound(s) && HostOf(s.pool.store, ip) == Some(h)
    ensures Tracked(Step(lower, s, OpLookBack(ip)).pool.store.byHost, h, ip, {})
  {
    var store := s.pool.store;
    var r := GetByIpOk(store, ip);
    ExactInverses(store, h, ip);
    TrackedHit(store.byHost, store.size, h);
  }

  /** The use of a host that its address is counted from. */
  ghost predicate Uses(lower: Host -> Host, s: State, op: Op, h: Host, ip: Addr) {
    match op
    case OpLookup(name) => lower(name) == h && Lookup(lower, s.pool, name).0 == ip
    case OpLookBack(a) => a == ip && LookBack(s.pool, ip).0 == Some(h)
    case OpExist(_) => false
    case OpFlush => false
  }

  /** After any run and a Lookup of a host, or a LookBack that finds it, the host keeps its address: a
      later Lookup of any spelling answers the same one without allocating, if in between nothing
      was flushed, fewer other hosts were used than the store has room for, and the addresses
      handed out since its own was have not come round to it. */
  lemma {:induction false} StaysWithHost(lower: Host -> Host, p: Pool, ops: seq<Op>, use: Op, h: Host, ip: Addr,
                                         more: seq<Op>, again: Host, n: nat)
    requires Sound(State(p, [])) && Uses(lower, Run(lower, p, ops), use, h, ip) && NoFlush(more) && lower(again) == h
    requires n < |Run(lower, p, ops + [use]).grants| && Run(lower, p, ops + [use]).grants[n].ip == ip
    requires |Run(lower, p, ops + [use] + more).grants| <= n + Span(p)
    requires p.store.size > 0 ==> |OthersUsed(lower, p, ops + [use], more, h)| < p.store.size
    ensures var (found, isNew, _) := Lookup(lower, Run(lower, p, ops + [use] + more).pool, again);
      found == ip && !isNew
  {
    var before := ops + [use];
    var s, s' := RunNext(lower, p, ops, use);
    if use.OpLookup? {
      var _ := LookupTracks(lower, s, use.host);
    } else {
      var r := GetByIpOk(s.pool.store, ip);
      LookBackTracks(lower, s, ip, h);
    }
    var end := RunKeepsHost(lower, p, before, more, h, ip, n);
    var _ := RunOk(lower, p, before + more);
    HostIsTracked(end.pool.store, h, ip, OthersUsed(lower, p, before, more, h));
    var r := GetByHostOk(end.pool.store, h);
  }
}
