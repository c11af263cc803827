/**
 Reading through the guarded cache publishes the same state as reading the server.
 */
module CacheTransparency {
  import opened Wrappers
  import opened ContentKeys
  import opened Networks
  import opened OvnTables
  import opened StateDerivation
  import opened CacheGuard
  import opened JoinProofs

  // ---------------------------------------------------------------------------
  // The abstract rows determine what is published
  // ---------------------------------------------------------------------------

  /** Equal up to the order of the lists the agent does not sort. */
  ghost predicate SameState(v: OvnState, w: OvnState) {
    && Abs(v.localRouters, AbsInfo) == Abs(w.localRouters, AbsInfo)
    && ToSet(v.fips) == ToSet(w.fips) && ToSet(v.snatIps) == ToSet(w.snatIps)
    && v.natIpToMac == w.natIpToMac
    && v.discovered == w.discovered
    && v.allChassis == w.allChassis
  }

  lemma MacsAreDetermined(d: Db, s: Setup, m: map<string, string>, n: map<string, string>)
    requires SingleOwner(d, s)
    requires forall ip :: (ip in m <==> exists mac :: MacIs(d, s, ip, mac)) && (ip in n <==> exists mac :: MacIs(d, s, ip, mac))
    requires forall ip :: (ip in m ==> MacIs(d, s, ip, m[ip])) && (ip in n ==> MacIs(d, s, ip, n[ip]))
    ensures m == n
  {
    forall ip | ip in m ensures ip in n && m[ip] == n[ip] {
      assert MacIs(d, s, ip, m[ip]) && MacIs(d, s, ip, n[ip]);
    }
  }

  lemma RoutersAreDetermined(d: Db, s: Setup, v: OvnState, w: OvnState)
    requires Refines(d, s, v) && Refines(d, s, w)
    ensures Abs(v.localRouters, AbsInfo) == Abs(w.localRouters, AbsInfo)
  {
    forall i ensures i in Abs(v.localRouters, AbsInfo) <==> i in Abs(w.localRouters, AbsInfo) {
      assert i in Abs(v.localRouters, AbsInfo) <==> exists r, p, b :: InfoOf(d, s, i, r, p, b);
    }
  }

  lemma AddressesAreDetermined(d: Db, s: Setup, v: OvnState, w: OvnState)
    requires Refines(d, s, v) && Refines(d, s, w)
    ensures ToSet(v.fips) == ToSet(w.fips) && ToSet(v.snatIps) == ToSet(w.snatIps)
  {
    assert forall ip :: ip in ToSet(v.fips) <==> ip in ToSet(w.fips);
    assert forall ip :: ip in ToSet(v.snatIps) <==> ip in ToSet(w.snatIps);
  }

  lemma InTexts(nets: seq<Network>, text: string)
    ensures text in NetworkTexts(nets) <==> exists n :: n in nets && NetworkText(n) == text
  {
    if n :| n in nets && NetworkText(n) == text {
      var i :| 0 <= i < |nets| && nets[i] == n;
      assert NetworkTexts(nets)[i] == text;
    }
  }

  /** The published networks are sorted, so even their order is determined. */
  lemma NetworksAreDetermined(a: seq<Network>, b: seq<Network>)
    requires Strict(NetworkTexts(a)) && Strict(NetworkTexts(b))
    requires forall n :: n in a <==> n in b
    ensures a == b
  {
    forall text ensures text in NetworkTexts(a) <==> text in NetworkTexts(b) {
      InTexts(a, text);
      InTexts(b, text);
    }
    StrictLists(NetworkTexts(a), NetworkTexts(b));
    forall i | 0 <= i < |a| ensures i < |b| && a[i] == b[i] {
      assert |NetworkTexts(a)| == |NetworkTexts(b)| && NetworkTexts(a)[i] == NetworkTexts(b)[i];
      NetworkTextInjective(a[i], b[i]);
    }
    assert |NetworkTexts(a)| == |NetworkTexts(b)|;
  }

  lemma JoinDeterminesState(d: Db, s: Setup, v: OvnState, w: OvnState)
    requires Refines(d, s, v) && Refines(d, s, w) && SingleOwner(d, s)
    ensures SameState(v, w)
  {
    RoutersAreDetermined(d, s, v, w);
    AddressesAreDetermined(d, s, v, w);
    NetworksAreDetermined(v.discovered, w.discovered);
    MacsAreDetermined(d, s, v.natIpToMac, w.natIpToMac);
  }

  // ---------------------------------------------------------------------------
  // Columns the check does not select agree between the cache and the server
  // ---------------------------------------------------------------------------

  ghost predicate BindingsAgree(a: seq<PortBinding>, b: seq<PortBinding>) {
    && (forall r :: r in a || r in b ==> CleanPortBinding(r))
    && (forall p, q :: p in a && q in b && p.uuid == q.uuid
                       ==> p.logicalPort == q.logicalPort && p.options == q.options && p.externalIds == q.externalIds)
  }

  ghost predicate ChassisAgree(a: seq<Chassis>, b: seq<Chassis>) {
    && (forall r :: r in a || r in b ==> CleanChassis(r))
    && (forall p, q :: p in a && q in b && p.uuid == q.uuid ==> p.name == q.name)
  }

  ghost predicate PortsAgree(a: seq<RouterPort>, b: seq<RouterPort>) {
    && (forall r :: r in a || r in b ==> CleanRouterPort(r))
    && (forall p, q :: p in a && q in b && p.uuid == q.uuid ==> p.name == q.name)
  }

  ghost predicate RoutersAgree(a: seq<Router>, b: seq<Router>) {
    && (forall r :: r in a || r in b ==> CleanRouter(r))
    && (forall p, q :: p in a && q in b && p.uuid == q.uuid ==> p.name == q.name)
  }

  ghost predicate NatsAgree(a: seq<Nat>, b: seq<Nat>) {
    forall r :: r in a || r in b ==> CleanNat(r)
  }

  lemma BindingKeysDetermine(a: seq<PortBinding>, b: seq<PortBinding>)
    requires BindingsAgree(a, b)
    ensures KeyDetermines(a, b, PortBindingKey, AbsPortBinding)
  {
    forall p, q | p in a && q in b && PortBindingKey(p) == PortBindingKey(q) ensures AbsPortBinding(p) == AbsPortBinding(q) {
      PortBindingKeyDecides(p, q);
      EqualMultisetsEqualSets(p.natAddresses, q.natAddresses);
    }
  }

  lemma ChassisKeysDetermine(a: seq<Chassis>, b: seq<Chassis>)
    requires ChassisAgree(a, b)
    ensures KeyDetermines(a, b, ChassisKey, Same)
  {
    forall p, q | p in a && q in b && ChassisKey(p) == ChassisKey(q) ensures p == q {
      ChassisKeyDecides(p, q);
    }
  }

  lemma PortKeysDetermine(a: seq<RouterPort>, b: seq<RouterPort>)
    requires PortsAgree(a, b)
    ensures KeyDetermines(a, b, RouterPortKey, AbsRouterPort)
  {
    forall p, q | p in a && q in b && RouterPortKey(p) == RouterPortKey(q) ensures AbsRouterPort(p) == AbsRouterPort(q) {
      RouterPortKeyDecides(p, q);
      EqualMultisetsEqualSets(p.networks, q.networks);
    }
  }

  lemma RouterKeysDetermine(a: seq<Router>, b: seq<Router>)
    requires RoutersAgree(a, b)
    ensures KeyDetermines(a, b, RouterKey, AbsRouter)
  {
    forall p, q | p in a && q in b && RouterKey(p) == RouterKey(q) ensures AbsRouter(p) == AbsRouter(q) {
      RouterKeyDecides(p, q);
      EqualMultisetsEqualSets(p.ports, q.ports);
      EqualMultisetsEqualSets(p.nats, q.nats);
      EqualMultisetsEqualSets(p.staticRoutes, q.staticRoutes);
    }
  }

  lemma NatKeysDetermine(a: seq<Nat>, b: seq<Nat>)
    requires NatsAgree(a, b)
    ensures KeyDetermines(a, b, NatKey, Same)
  {
    forall p, q | p in a && q in b && NatKey(p) == NatKey(q) ensures p == q {
      NatKeyDecides(p, q);
    }
  }

  // ---------------------------------------------------------------------------
  // Transparency of the five guarded reads
  // ---------------------------------------------------------------------------

  /** What the refresh acts on: each table through its guard, both selects having succeeded. */
  function GuardedRead(cached: Tables, checked: Tables, server: Tables): Tables {
    Tables(Authoritative(cached.bindings, Some(checked.bindings), Some(server.bindings), PortBindingKey),
           Authoritative(cached.chassis, Some(checked.chassis), Some(server.chassis), ChassisKey),
           Authoritative(cached.ports, Some(checked.ports), Some(server.ports), RouterPortKey),
           Authoritative(cached.routers, Some(checked.routers), Some(server.routers), RouterKey),
           Authoritative(cached.nats, Some(checked.nats), Some(server.nats), NatKey))
  }

  /** The server does not change between the check select and the full select. */
  ghost predicate SameSelects(checked: Tables, server: Tables) {
    && Keys(checked.bindings, PortBindingKey) == Keys(server.bindings, PortBindingKey)
    && Keys(checked.chassis, ChassisKey) == Keys(server.chassis, ChassisKey)
    && Keys(checked.ports, RouterPortKey) == Keys(server.ports, RouterPortKey)
    && Keys(checked.routers, RouterKey) == Keys(server.routers, RouterKey)
    && Keys(checked.nats, NatKey) == Keys(server.nats, NatKey)
  }

  ghost predicate UncheckedColumnsAgree(cached: Tables, server: Tables) {
    && BindingsAgree(cached.bindings, server.bindings) && ChassisAgree(cached.chassis, server.chassis)
    && PortsAgree(cached.ports, server.ports) && RoutersAgree(cached.routers, server.routers)
    && NatsAgree(cached.nats, server.nats)
  }

  lemma GuardedReadIsServer(cached: Tables, checked: Tables, server: Tables)
    requires SameSelects(checked, server) && UncheckedColumnsAgree(cached, server)
    ensures DbOf(GuardedRead(cached, checked, server)) == DbOf(server)
  {
    BindingKeysDetermine(cached.bindings, server.bindings);
    GuardIsTransparent(cached.bindings, checked.bindings, server.bindings, PortBindingKey, AbsPortBinding);
    PortKeysDetermine(cached.ports, server.ports);
    GuardIsTransparent(cached.ports, checked.ports, server.ports, RouterPortKey, AbsRouterPort);
    RouterKeysDetermine(cached.routers, server.routers);
    GuardIsTransparent(cached.routers, checked.routers, server.routers, RouterKey, AbsRouter);
    ChassisRead(cached, checked, server);
    NatRead(cached, checked, server);
  }

  lemma SameIsToSet<T>(rows: seq<T>)
    ensures Abs(rows, Same) == ToSet(rows)
  {
  }

  lemma ChassisRead(cached: Tables, checked: Tables, server: Tables)
    requires SameSelects(checked, server) && ChassisAgree(cached.chassis, server.chassis)
    ensures ToSet(GuardedRead(cached, checked, server).chassis) == ToSet(server.chassis)
  {
    ChassisKeysDetermine(cached.chassis, server.chassis);
    GuardIsTransparent(cached.chassis, checked.chassis, server.chassis, ChassisKey, Same);
    SameIsToSet(GuardedRead(cached, checked, server).chassis);
    SameIsToSet(server.chassis);
  }

  lemma NatRead(cached: Tables, checked: Tables, server: Tables)
    requires SameSelects(checked, server) && NatsAgree(cached.nats, server.nats)
    ensures ToSet(GuardedRead(cached, checked, server).nats) == ToSet(server.nats)
  {
    NatKeysDetermine(cached.nats, server.nats);
    GuardIsTransparent(cached.nats, checked.nats, server.nats, NatKey, Same);
    SameIsToSet(GuardedRead(cached, checked, server).nats);
    SameIsToSet(server.nats);
  }

  /** Whatever the cache has lost or kept stale in the checked columns, the same state is published. */
  lemma CacheIsTransparent(cached: Tables, checked: Tables, server: Tables, s: Setup, v: OvnState, w: OvnState)
    requires SameSelects(checked, server) && UncheckedColumnsAgree(cached, server)
    requires Refines(DbOf(GuardedRead(cached, checked, server)), s, v)
    requires Refines(DbOf(server), s, w)
    requires SingleOwner(DbOf(server), s)
    ensures SameState(v, w)
  {
    GuardedReadIsServer(cached, checked, server);
    JoinDeterminesState(DbOf(server), s, v, w);
  }
}
