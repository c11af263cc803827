/**
 The refresh publishes exactly the declarative join, and what it publishes
 depends only on the abstract rows it was given.
 */
module JoinProofs {
  import opened Wrappers
  import ContentKeys
  import opened Networks
  import opened OvnTables
  import opened StateDerivation
  import opened StateRefresh

  /** The indexes of a refresh up to the router table. */
  datatype Indexes = Indexes(
    host: map<string, string>, lrps: map<string, string>, uuidOf: map<string, string>, byUuid: map<string, RouterPort>,
    macOf: map<string, string>, local: set<string>)

  datatype Tables = Tables(
    bindings: seq<PortBinding>, chassis: seq<Chassis>, ports: seq<RouterPort>, routers: seq<Router>, nats: seq<Nat>)

  function DbOf(t: Tables): Db {
    AbsDb(t.bindings, t.chassis, t.ports, t.routers, t.nats)
  }

  ghost predicate PortsIndexed(t: Tables, x: Indexes) {
    && IndexOf(t.ports, UuidEntry, x.uuidOf) && IndexOf(t.ports, RowEntry, x.byUuid) && IndexOf(t.ports, MacEntry, x.macOf)
    && x.local == set n | n in x.lrps && n in x.uuidOf :: x.uuidOf[n]
  }

  ghost predicate Indexed(t: Tables, s: Setup, x: Indexes) {
    && IndexOf(t.chassis, HostEntry, x.host)
    && IndexOf(t.bindings, LrpEntry(x.host, s), x.lrps)
    && PortsIndexed(t, x)
  }

  // ---------------------------------------------------------------------------
  // Each index against the join
  // ---------------------------------------------------------------------------

  lemma HostIsLookup(t: Tables, s: Setup, x: Indexes, ref: string, name: string)
    requires IndexOf(t.chassis, HostEntry, x.host) && WellFormed(DbOf(t), s)
    ensures HostIs(DbOf(t).chassis, ref, name) <==> Lookup(x.host, ref) == name
  {
    if ref in x.host {
      assert Carries(t.chassis, HostEntry, ref, x.host[ref]);
      var c :| c in t.chassis && HostEntry(c, ref, x.host[ref]);
      assert c in DbOf(t).chassis;
    } else {
      forall c | c in DbOf(t).chassis ensures !RefersTo(c, ref) {
        if RefersTo(c, ref) {
          assert HostEntry(c, ref, c.hostname);
          assert Carries(t.chassis, HostEntry, ref, c.hostname);
        }
      }
    }
  }

  lemma LocalRowIsLocalGateway(t: Tables, s: Setup, x: Indexes, b: PortBinding)
    requires Indexed(t, s, x) && WellFormed(DbOf(t), s) && b in t.bindings
    ensures LocalRow(b, x.host, s) <==> LocalGateway(DbOf(t), s, AbsPortBinding(b))
  {
    HostIsLookup(t, s, x, ChassisText(b), s.localChassis);
    assert AbsPortBinding(b) in DbOf(t).bindings;
  }

  /** An entry of the LRP index comes from a local gateway port that names this LRP. */
  lemma IndexedLrpIsLocal(t: Tables, s: Setup, x: Indexes, name: string) returns (a: PortBindingA)
    requires Indexed(t, s, x) && WellFormed(DbOf(t), s) && name in x.lrps
    ensures LocalGateway(DbOf(t), s, a) && NamesLrp(a.logicalPort, name) && x.lrps[name] == a.logicalPort
  {
    var entry := LrpEntry(x.host, s);
    assert Carries(t.bindings, entry, name, x.lrps[name]);
    var b :| b in t.bindings && entry(b, name, x.lrps[name]);
    LocalRowIsLocalGateway(t, s, x, b);
    LrpNameOfExactly(b.logicalPort, name);
    a := AbsPortBinding(b);
  }

  lemma LocalLrpIsIndexed(t: Tables, s: Setup, x: Indexes, a: PortBindingA, name: string)
    requires Indexed(t, s, x) && WellFormed(DbOf(t), s) && LocalGateway(DbOf(t), s, a) && NamesLrp(a.logicalPort, name)
    ensures name in x.lrps && x.lrps[name] == a.logicalPort
  {
    var entry := LrpEntry(x.host, s);
    var b :| b in t.bindings && AbsPortBinding(b) == a;
    LocalRowIsLocalGateway(t, s, x, b);
    LrpNameOfExactly(b.logicalPort, name);
    assert entry(b, name, b.logicalPort);
    assert Carries(t.bindings, entry, name, b.logicalPort);
    var c := IndexedLrpIsLocal(t, s, x, name);
  }

  lemma LrpsAreLocal(t: Tables, s: Setup, x: Indexes, name: string)
    requires Indexed(t, s, x) && WellFormed(DbOf(t), s)
    ensures name in x.lrps <==> LocalLrp(DbOf(t), s, name)
  {
    if name in x.lrps {
      var a := IndexedLrpIsLocal(t, s, x, name);
    }
    if a :| LocalGateway(DbOf(t), s, a) && NamesLrp(a.logicalPort, name) {
      LocalLrpIsIndexed(t, s, x, a, name);
    }
  }

  lemma PortIsIndexed(t: Tables, s: Setup, x: Indexes, p: RouterPort)
    requires PortsIndexed(t, x) && WellFormed(DbOf(t), s) && p in t.ports
    ensures p.name in x.uuidOf && x.uuidOf[p.name] == p.uuid
    ensures p.uuid in x.byUuid && AbsRouterPort(x.byUuid[p.uuid]) == AbsRouterPort(p)
    ensures p.name in x.macOf && x.macOf[p.name] == p.mac
  {
    assert Carries(t.ports, UuidEntry, p.name, p.uuid) by { assert UuidEntry(p, p.name, p.uuid); }
    assert Carries(t.ports, RowEntry, p.uuid, p) by { assert RowEntry(p, p.uuid, p); }
    assert Carries(t.ports, MacEntry, p.name, p.mac) by { assert MacEntry(p, p.name, p.mac); }
    var q :| q in t.ports && UuidEntry(q, p.name, x.uuidOf[p.name]);
    var w :| w in t.ports && RowEntry(w, p.uuid, x.byUuid[p.uuid]);
    var z :| z in t.ports && MacEntry(z, p.name, x.macOf[p.name]);
    assert AbsRouterPort(p) in DbOf(t).ports && AbsRouterPort(q) in DbOf(t).ports;
    assert AbsRouterPort(w) in DbOf(t).ports && AbsRouterPort(z) in DbOf(t).ports;
  }

  lemma LocalUuidsHaveRows(t: Tables, x: Indexes)
    requires PortsIndexed(t, x)
    ensures x.local <= x.byUuid.Keys
  {
    forall u | u in x.local ensures u in x.byUuid {
      var n :| n in x.lrps && n in x.uuidOf && x.uuidOf[n] == u;
      assert Carries(t.ports, UuidEntry, n, u);
      var p :| p in t.ports && UuidEntry(p, n, u);
      assert Carries(t.ports, RowEntry, u, p) by { assert RowEntry(p, u, p); }
    }
  }

  lemma LocalUuids(t: Tables, s: Setup, x: Indexes, p: RouterPort)
    requires PortsIndexed(t, x) && WellFormed(DbOf(t), s) && p in t.ports
    ensures p.uuid in x.local <==> p.name in x.lrps
  {
    PortIsIndexed(t, s, x, p);
    if p.uuid in x.local {
      var n :| n in x.lrps && n in x.uuidOf && x.uuidOf[n] == p.uuid;
      assert Carries(t.ports, UuidEntry, n, p.uuid);
      var q :| q in t.ports && UuidEntry(q, n, p.uuid);
      assert AbsRouterPort(p) in DbOf(t).ports && AbsRouterPort(q) in DbOf(t).ports;
    }
  }

  /** The port a router matches is its only local one. */
  lemma MatchesIsLocal(t: Tables, s: Setup, x: Indexes, r: Router, p: RouterPort)
    requires Indexed(t, s, x) && WellFormed(DbOf(t), s) && r in t.routers && Matches(r, p, x.local, x.byUuid)
    ensures p in t.ports && LocalRouter(DbOf(t), s, AbsRouter(r), AbsRouterPort(p))
  {
    var u := FirstLocal(r.ports, x.local).value;
    assert Carries(t.ports, RowEntry, u, x.byUuid[u]);
    LocalUuids(t, s, x, p);
    LrpsAreLocal(t, s, x, p.name);
    assert AbsRouter(r) in DbOf(t).routers && AbsRouterPort(p) in DbOf(t).ports;
  }

  lemma LocalIsMatched(t: Tables, s: Setup, x: Indexes, a: RouterA, q: RouterPortA) returns (r: Router, p: RouterPort)
    requires Indexed(t, s, x) && WellFormed(DbOf(t), s) && LocalRouter(DbOf(t), s, a, q)
    ensures r in t.routers && AbsRouter(r) == a && AbsRouterPort(p) == q && Matches(r, p, x.local, x.byUuid)
  {
    r :| r in t.routers && AbsRouter(r) == a;
    var w :| w in t.ports && AbsRouterPort(w) == q;
    LrpsAreLocal(t, s, x, w.name);
    LocalUuids(t, s, x, w);
    assert w.uuid in r.ports && w.uuid in x.local;
    LocalUuidsHaveRows(t, x);
    p := x.byUuid[FirstLocal(r.ports, x.local).value];
    assert Matches(r, p, x.local, x.byUuid);
    MatchesIsLocal(t, s, x, r, p);
  }

  lemma InfosAreTheJoin(t: Tables, s: Setup, x: Indexes, infos: seq<LocalRouterInfo>, info: RouterInfoA)
    requires Indexed(t, s, x) && WellFormed(DbOf(t), s)
    requires forall i :: i in infos <==> HasInfo(t.routers, x.local, x.byUuid, x.lrps, i)
    ensures info in Abs(infos, AbsInfo) <==> exists r, p, b :: InfoOf(DbOf(t), s, info, r, p, b)
  {
    if info in Abs(infos, AbsInfo) {
      var i :| i in infos && AbsInfo(i) == info;
      InfoIsJoined(t, s, x, i);
    }
    if r, p, b :| InfoOf(DbOf(t), s, info, r, p, b) {
      JoinedIsInfo(t, s, x, info, r, p, b);
    }
  }

  lemma InfoIsJoined(t: Tables, s: Setup, x: Indexes, i: LocalRouterInfo)
    requires Indexed(t, s, x) && WellFormed(DbOf(t), s) && HasInfo(t.routers, x.local, x.byUuid, x.lrps, i)
    ensures exists r, p, b :: InfoOf(DbOf(t), s, AbsInfo(i), r, p, b)
  {
    var r, p :| r in t.routers && Matches(r, p, x.local, x.byUuid) && i == InfoFor(r, p, x.lrps);
    MatchesIsLocal(t, s, x, r, p);
    LrpsAreLocal(t, s, x, p.name);
    var b := IndexedLrpIsLocal(t, s, x, p.name);
    assert InfoOf(DbOf(t), s, AbsInfo(i), AbsRouter(r), AbsRouterPort(p), b);
  }

  lemma JoinedIsInfo(t: Tables, s: Setup, x: Indexes, info: RouterInfoA, r: RouterA, p: RouterPortA, b: PortBindingA)
    requires Indexed(t, s, x) && WellFormed(DbOf(t), s) && InfoOf(DbOf(t), s, info, r, p, b)
    ensures exists i :: HasInfo(t.routers, x.local, x.byUuid, x.lrps, i) && AbsInfo(i) == info
  {
    var r', p' := LocalIsMatched(t, s, x, r, p);
    LocalLrpIsIndexed(t, s, x, b, p.name);
    assert HasInfo(t.routers, x.local, x.byUuid, x.lrps, InfoFor(r', p', x.lrps));
    assert AbsInfo(InfoFor(r', p', x.lrps)) == info;
  }

  lemma NatMacIsOwner(t: Tables, s: Setup, x: Indexes, natMac: map<string, string>, nat': string)
    requires Indexed(t, s, x) && WellFormed(DbOf(t), s) && IndexOf(t.routers, NatEntry(x.local, x.byUuid), natMac)
    ensures nat' in natMac <==> exists mac :: NatOwner(DbOf(t), s, nat', mac)
    ensures nat' in natMac ==> NatOwner(DbOf(t), s, nat', natMac[nat'])
  {
    var entry := NatEntry(x.local, x.byUuid);
    if nat' in natMac {
      assert Carries(t.routers, entry, nat', natMac[nat']);
      var r :| r in t.routers && entry(r, nat', natMac[nat']);
      var p :| Matches(r, p, x.local, x.byUuid) && p.mac == natMac[nat'];
      MatchesIsLocal(t, s, x, r, p);
      assert NatOwner(DbOf(t), s, nat', natMac[nat']);
    }
    if mac :| NatOwner(DbOf(t), s, nat', mac) {
      var a, q :| LocalRouter(DbOf(t), s, a, q) && nat' in a.nats && q.mac == mac;
      var r, p := LocalIsMatched(t, s, x, a, q);
      assert entry(r, nat', mac);
      assert Carries(t.routers, entry, nat', mac);
    }
  }

  lemma DiscoveredIsTheJoin(t: Tables, s: Setup, x: Indexes, infos: seq<LocalRouterInfo>, n: Network)
    requires Indexed(t, s, x) && WellFormed(DbOf(t), s)
    requires forall i :: i in infos <==> HasInfo(t.routers, x.local, x.byUuid, x.lrps, i)
    ensures DiscoveredIn(infos, s, n) <==> Discovered(DbOf(t), s, n)
  {
    if DiscoveredIn(infos, s, n) {
      var i, text :| i in infos && text in i.lrpNetworks && s.parseCidr(text) == Some(n);
      var r, p :| r in t.routers && Matches(r, p, x.local, x.byUuid) && i == InfoFor(r, p, x.lrps);
      MatchesIsLocal(t, s, x, r, p);
      assert text in AbsRouterPort(p).networks;
    }
    if Discovered(DbOf(t), s, n) {
      var a, q, text :| LocalRouter(DbOf(t), s, a, q) && text in q.networks && s.parseCidr(text) == Some(n);
      var r, p := LocalIsMatched(t, s, x, a, q);
      assert HasInfo(t.routers, x.local, x.byUuid, x.lrps, InfoFor(r, p, x.lrps));
      assert text in InfoFor(r, p, x.lrps).lrpNetworks;
    }
  }

  lemma PassesIsAdmitted(d: Db, s: Setup, nets: seq<Network>, ip: string)
    requires forall n :: n in nets <==> Discovered(d, s, n)
    ensures Passes(EffectiveNetworkFilters(s.networkFilters, nets), s, ip) <==> Admitted(d, s, ip)
  {
    var filters := EffectiveNetworkFilters(s.networkFilters, nets);
    assert forall n :: n in filters <==> InFilter(d, s, n);
    forall n {
      CoversExactly(s, n, s.parseIp(ip));
    }
    if |filters| > 0 {
      assert InFilter(d, s, filters[0]);
    }
  }

  /** The NAT owners and the filters as the refresh holds them. */
  ghost predicate OwnersKnown(t: Tables, s: Setup, natMac: map<string, string>, filters: seq<Network>) {
    && (forall u, mac :: NatOwner(DbOf(t), s, u, mac) ==> u in natMac)
    && (forall u :: u in natMac ==> NatOwner(DbOf(t), s, u, natMac[u]))
    && (forall ip :: Passes(filters, s, ip) <==> Admitted(DbOf(t), s, ip))
  }

  /** What the refresh knows once it reaches the NAT table. */
  ghost predicate Prepared(t: Tables, s: Setup, x: Indexes, natMac: map<string, string>, filters: seq<Network>) {
    Indexed(t, s, x) && WellFormed(DbOf(t), s) && OwnersKnown(t, s, natMac, filters)
  }

  lemma NatsAreTheJoin(t: Tables, s: Setup, natMac: map<string, string>, filters: seq<Network>, kind: string, ip: string)
    requires OwnersKnown(t, s, natMac, filters)
    ensures NatsGive(t.nats, natMac, filters, s, kind, ip) <==> NatIp(DbOf(t), s, kind, ip)
  {
  }

  lemma PatchGivesPatchIp(t: Tables, s: Setup, x: Indexes, natMac: map<string, string>, filters: seq<Network>, b: PortBinding, ip: string)
    requires Prepared(t, s, x, natMac, filters) && b in t.bindings && PatchGives(b, x.lrps, filters, s, ip)
    ensures PatchIp(DbOf(t), s, Lookup(b.options, PEER), ip)
  {
    var a, peer := AbsPortBinding(b), Lookup(b.options, PEER);
    assert a in DbOf(t).bindings;
    LrpsAreLocal(t, s, x, peer);
    var text :| text in b.natAddresses && GivesAddress(s, text, ip);
    assert text in a.natAddresses;
  }

  lemma PatchIpIsGiven(t: Tables, s: Setup, x: Indexes, natMac: map<string, string>, filters: seq<Network>, peer: string, ip: string)
    returns (b: PortBinding)
    requires Prepared(t, s, x, natMac, filters) && PatchIp(DbOf(t), s, peer, ip)
    ensures b in t.bindings && Lookup(b.options, PEER) == peer && PatchGives(b, x.lrps, filters, s, ip)
  {
    var a, text :| a in DbOf(t).bindings && a.kind == PATCH && Lookup(a.options, PEER) == peer
                   && Lookup(a.externalIds, DEVICE_OWNER) == ROUTER_GATEWAY && text in a.natAddresses && GivesAddress(s, text, ip);
    b :| b in t.bindings && AbsPortBinding(b) == a;
    LrpsAreLocal(t, s, x, peer);
    assert text in b.natAddresses;
  }

  lemma PatchesAreTheJoin(t: Tables, s: Setup, x: Indexes, natMac: map<string, string>, filters: seq<Network>, ip: string)
    requires Prepared(t, s, x, natMac, filters)
    ensures PatchesGive(t.bindings, x.lrps, filters, s, ip) <==> exists peer :: PatchIp(DbOf(t), s, peer, ip)
  {
    if PatchesGive(t.bindings, x.lrps, filters, s, ip) {
      var b :| b in t.bindings && PatchGives(b, x.lrps, filters, s, ip);
      PatchGivesPatchIp(t, s, x, natMac, filters, b, ip);
    }
    if peer :| PatchIp(DbOf(t), s, peer, ip) {
      var b := PatchIpIsGiven(t, s, x, natMac, filters, peer, ip);
    }
  }

  lemma CarriedIsOwnedMac(t: Tables, s: Setup, natMac: map<string, string>, filters: seq<Network>, ip: string, mac: string)
    requires OwnersKnown(t, s, natMac, filters)
    requires Carries(t.nats, OwnedEntry(natMac, filters, s), ip, mac)
    ensures OwnedMac(DbOf(t), s, ip, mac)
  {
  }

  lemma OwnedMacIsCarried(t: Tables, s: Setup, natMac: map<string, string>, filters: seq<Network>, ip: string, mac: string) returns (mac': string)
    requires OwnersKnown(t, s, natMac, filters) && OwnedMac(DbOf(t), s, ip, mac)
    ensures Carries(t.nats, OwnedEntry(natMac, filters, s), ip, mac')
  {
    var n :| n in DbOf(t).nats && n.externalIp == ip && NatOwner(DbOf(t), s, n.uuid, mac);
    mac' := natMac[n.uuid];
    assert OwnedEntry(natMac, filters, s)(n, ip, mac');
  }

  lemma CarriedIsPatchMac(t: Tables, s: Setup, x: Indexes, natMac: map<string, string>, filters: seq<Network>, ip: string, mac: string)
    requires Prepared(t, s, x, natMac, filters)
    requires Carries(t.bindings, PatchEntry(x.lrps, x.macOf, filters, s), ip, mac)
    ensures PatchMac(DbOf(t), s, ip, mac)
  {
    var entry := PatchEntry(x.lrps, x.macOf, filters, s);
    var b :| b in t.bindings && entry(b, ip, mac);
    PatchGivesPatchIp(t, s, x, natMac, filters, b, ip);
    var peer := Lookup(b.options, PEER);
    assert Carries(t.ports, MacEntry, peer, mac);
    var p :| p in t.ports && MacEntry(p, peer, mac);
    assert AbsRouterPort(p) in DbOf(t).ports;
  }

  lemma PatchMacIsCarried(t: Tables, s: Setup, x: Indexes, natMac: map<string, string>, filters: seq<Network>, ip: string, mac: string)
    requires Prepared(t, s, x, natMac, filters) && PatchMac(DbOf(t), s, ip, mac)
    ensures Carries(t.bindings, PatchEntry(x.lrps, x.macOf, filters, s), ip, mac)
  {
    var a :| a in DbOf(t).ports && a.mac == mac && PatchIp(DbOf(t), s, a.name, ip);
    var p :| p in t.ports && AbsRouterPort(p) == a;
    PortIsIndexed(t, s, x, p);
    var b := PatchIpIsGiven(t, s, x, natMac, filters, a.name, ip);
    var entry := PatchEntry(x.lrps, x.macOf, filters, s);
    assert entry(b, ip, mac);
  }

  ghost predicate MacsIndexed(t: Tables, s: Setup, x: Indexes, natMac: map<string, string>, filters: seq<Network>,
                              natMacs: map<string, string>, macs: map<string, string>)
  {
    && IndexOf(t.nats, OwnedEntry(natMac, filters, s), natMacs)
    && Extends(natMacs, t.bindings, PatchEntry(x.lrps, x.macOf, filters, s), macs)
  }

  lemma PublishedMacIsJoined(t: Tables, s: Setup, x: Indexes, natMac: map<string, string>, filters: seq<Network>,
                             natMacs: map<string, string>, macs: map<string, string>, ip: string)
    requires Prepared(t, s, x, natMac, filters) && MacsIndexed(t, s, x, natMac, filters, natMacs, macs) && ip in macs
    ensures MacIs(DbOf(t), s, ip, macs[ip])
  {
    if Carries(t.bindings, PatchEntry(x.lrps, x.macOf, filters, s), ip, macs[ip]) {
      CarriedIsPatchMac(t, s, x, natMac, filters, ip, macs[ip]);
    } else {
      CarriedIsOwnedMac(t, s, natMac, filters, ip, macs[ip]);
    }
  }

  lemma JoinedMacIsPublished(t: Tables, s: Setup, x: Indexes, natMac: map<string, string>, filters: seq<Network>,
                             natMacs: map<string, string>, macs: map<string, string>, ip: string, mac: string)
    requires Prepared(t, s, x, natMac, filters) && MacsIndexed(t, s, x, natMac, filters, natMacs, macs) && MacIs(DbOf(t), s, ip, mac)
    ensures ip in macs
  {
    if OwnedMac(DbOf(t), s, ip, mac) {
      var mac' := OwnedMacIsCarried(t, s, natMac, filters, ip, mac);
    } else {
      PatchMacIsCarried(t, s, x, natMac, filters, ip, mac);
    }
  }

  // ---------------------------------------------------------------------------
  // The refresh
  // ---------------------------------------------------------------------------

  class OvnClient {
    const setup: Setup
    var state: OvnState

    constructor (setup: Setup)
      ensures this.setup == setup
      ensures state == OvnState([], [], [], map[], [], {})
    {
      this.setup := setup;
      state := OvnState([], [], [], map[], [], {});
    }

    /** Each table arrives as a list, or not at all; one failed list leaves the published state alone. */
    method RefreshState(bindings: Option<seq<PortBinding>>, chassis: Option<seq<Chassis>>, ports: Option<seq<RouterPort>>,
                        routers: Option<seq<Router>>, nats: Option<seq<Nat>>)
      modifies this
      ensures bindings.None? || chassis.None? || ports.None? || routers.None? || nats.None? ==> state == old(state)
      ensures bindings.Some? && chassis.Some? && ports.Some? && routers.Some? && nats.Some? ==>
                var d := AbsDb(bindings.value, chassis.value, ports.value, routers.value, nats.value);
                WellFormed(d, setup) ==> Refines(d, setup, state)
    {
      if bindings.None? || chassis.None? {
        return;
      }
      var host, all := HostNames(chassis.value);
      var lrps := LocalLrps(bindings.value, host, setup);
      if ports.None? {
        return;
      }
      var uuidOf, byUuid, macOf := IndexPorts(ports.value);
      var local := LocalPortUuids(lrps, uuidOf);
      if routers.None? {
        return;
      }
      ghost var t := Tables(bindings.value, chassis.value, ports.value, routers.value, if nats.Some? then nats.value else []);
      ghost var x := Indexes(host, lrps, uuidOf, byUuid, macOf, local);
      LocalUuidsHaveRows(t, x);
      var infos, natMac := FindLocalRouters(routers.value, local, byUuid, lrps);
      var nets := DiscoverNetworks(infos, setup);
      nets := UniqueNetworks(nets);
      var filters := EffectiveNetworkFilters(setup.networkFilters, nets);
      if nats.None? {
        return;
      }
      var fips, natSnat, natMacs := CollectNats(nats.value, natMac, filters, setup);
      var snatIps, macs := CollectPatchAddresses(bindings.value, lrps, macOf, filters, setup, natSnat, natMacs);
      state := OvnState(infos, fips, snatIps, macs, nets, all);
      if WellFormed(DbOf(t), setup) {
        RefinementHolds(t, setup, x, natMac, natSnat, natMacs, state);
      }
    }
  }

  /** What the refresh has collected from the NAT and port-binding tables. */
  ghost predicate AddressesCollected(t: Tables, s: Setup, x: Indexes, natMac: map<string, string>, natSnat: seq<string>,
                                     natMacs: map<string, string>, filters: seq<Network>, v: OvnState)
  {
    && (forall ip :: ip in v.fips <==> NatsGive(t.nats, natMac, filters, s, DNAT_AND_SNAT, ip))
    && (forall ip :: ip in natSnat <==> NatsGive(t.nats, natMac, filters, s, SNAT, ip))
    && (forall ip :: ip in v.snatIps <==> ip in natSnat || PatchesGive(t.bindings, x.lrps, filters, s, ip))
    && MacsIndexed(t, s, x, natMac, filters, natMacs, v.natIpToMac)
  }

  ghost predicate AddressesRefine(d: Db, s: Setup, v: OvnState) {
    && (forall ip :: ip in v.fips <==> NatIp(d, s, DNAT_AND_SNAT, ip))
    && (forall ip :: ip in v.snatIps <==> NatIp(d, s, SNAT, ip) || exists peer :: PatchIp(d, s, peer, ip))
  }

  ghost predicate MacsRefine(d: Db, s: Setup, m: map<string, string>) {
    && (forall ip :: ip in m <==> exists mac :: MacIs(d, s, ip, mac))
    && (forall ip :: ip in m ==> MacIs(d, s, ip, m[ip]))
  }

  lemma AddressesAreTheJoin(t: Tables, s: Setup, x: Indexes, natMac: map<string, string>, natSnat: seq<string>,
                            natMacs: map<string, string>, filters: seq<Network>, v: OvnState)
    requires Prepared(t, s, x, natMac, filters) && AddressesCollected(t, s, x, natMac, natSnat, natMacs, filters, v)
    ensures AddressesRefine(DbOf(t), s, v)
  {
    forall ip ensures ip in v.fips <==> NatIp(DbOf(t), s, DNAT_AND_SNAT, ip) {
      NatsAreTheJoin(t, s, natMac, filters, DNAT_AND_SNAT, ip);
    }
    forall ip ensures ip in v.snatIps <==> NatIp(DbOf(t), s, SNAT, ip) || exists peer :: PatchIp(DbOf(t), s, peer, ip) {
      NatsAreTheJoin(t, s, natMac, filters, SNAT, ip);
      PatchesAreTheJoin(t, s, x, natMac, filters, ip);
    }
  }

  lemma MacsAreTheJoin(t: Tables, s: Setup, x: Indexes, natMac: map<string, string>, filters: seq<Network>,
                       natMacs: map<string, string>, macs: map<string, string>)
    requires Prepared(t, s, x, natMac, filters) && MacsIndexed(t, s, x, natMac, filters, natMacs, macs)
    ensures MacsRefine(DbOf(t), s, macs)
  {
    forall ip | ip in macs ensures MacIs(DbOf(t), s, ip, macs[ip]) {
      PublishedMacIsJoined(t, s, x, natMac, filters, natMacs, macs, ip);
    }
    forall ip, mac | MacIs(DbOf(t), s, ip, mac) ensures ip in macs {
      JoinedMacIsPublished(t, s, x, natMac, filters, natMacs, macs, ip, mac);
    }
  }

  lemma OwnersAreKnown(t: Tables, s: Setup, x: Indexes, natMac: map<string, string>, nets: seq<Network>)
    requires Indexed(t, s, x) && WellFormed(DbOf(t), s) && IndexOf(t.routers, NatEntry(x.local, x.byUuid), natMac)
    requires forall n :: n in nets <==> Discovered(DbOf(t), s, n)
    ensures Prepared(t, s, x, natMac, EffectiveNetworkFilters(s.networkFilters, nets))
  {
    forall u {
      NatMacIsOwner(t, s, x, natMac, u);
    }
    forall ip {
      PassesIsAdmitted(DbOf(t), s, nets, ip);
    }
  }

  lemma RefinementHolds(t: Tables, s: Setup, x: Indexes, natMac: map<string, string>, natSnat: seq<string>, natMacs: map<string, string>, v: OvnState)
    requires Indexed(t, s, x) && WellFormed(DbOf(t), s)
    requires forall i :: i in v.localRouters <==> HasInfo(t.routers, x.local, x.byUuid, x.lrps, i)
    requires IndexOf(t.routers, NatEntry(x.local, x.byUuid), natMac)
    requires forall n :: n in v.discovered <==> DiscoveredIn(v.localRouters, s, n)
    requires ContentKeys.Strict(NetworkTexts(v.discovered))
    requires AddressesCollected(t, s, x, natMac, natSnat, natMacs, EffectiveNetworkFilters(s.networkFilters, v.discovered), v)
    requires v.allChassis == set c | c in t.chassis :: c.hostname
    ensures Refines(DbOf(t), s, v)
  {
    var filters := EffectiveNetworkFilters(s.networkFilters, v.discovered);
    var d := DbOf(t);
    forall n ensures n in v.discovered <==> Discovered(d, s, n) {
      DiscoveredIsTheJoin(t, s, x, v.localRouters, n);
    }
    OwnersAreKnown(t, s, x, natMac, v.discovered);
    forall i {
      InfosAreTheJoin(t, s, x, v.localRouters, i);
    }
    AddressesAreTheJoin(t, s, x, natMac, natSnat, natMacs, filters, v);
    MacsAreTheJoin(t, s, x, natMac, filters, natMacs, v.natIpToMac);
    assert v.allChassis == set c | c in d.chassis :: c.hostname;
  }
}
