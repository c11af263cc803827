/**
 The northbound rows an agent creates for its routers: a default route through a
 virtual gateway and the static MAC binding of that gateway. The database is
 shared with the other agents and with Neutron.
 */
module NorthboundEntries {
  import opened Wrappers
  import opened Ipv4
  import StateDerivation

  datatype StaticRoute = StaticRoute(prefix: string, nexthop: string, outputPort: Option<string>, externalIds: map<string, string>)

  datatype RouterRow = RouterRow(name: string, staticRoutes: set<string>)

  datatype MacBinding = MacBinding(logicalPort: string, ip: string, mac: string)

  /** Three northbound tables, keyed by row UUID. */
  datatype Nb = Nb(routes: map<string, StaticRoute>, routers: map<string, RouterRow>, bindings: map<string, MacBinding>)

  /** A local router and the networks of its port, parsed. */
  datatype Gateway = Gateway(routerUuid: string, lrpName: string, networks: seq<CidrText>)

  const DEFAULT_PREFIX := "0.0.0.0/0"
  const AGENT := "ovn-network-agent"
  const AGENT_CHASSIS := "ovn-network-agent-chassis"
  const MANAGED := "managed"

  predicate Managed(r: StaticRoute) {
    StateDerivation.Lookup(r.externalIds, AGENT) == MANAGED
  }

  function Owner(r: StaticRoute): string {
    StateDerivation.Lookup(r.externalIds, AGENT_CHASSIS)
  }

  function Tagged(r: StaticRoute, chassis: string): (t: StaticRoute)
    ensures Owner(t) == chassis && (Managed(t) <==> Managed(r))
    ensures t == r.(externalIds := t.externalIds)
    ensures t == r ==> Owner(r) == chassis
  {
    r.(externalIds := r.externalIds[AGENT_CHASSIS := chassis])
  }

  function NewRoute(port: string, vgw: string, chassis: string): (r: StaticRoute)
    ensures Managed(r) && Owner(r) == chassis
  {
    StaticRoute(DEFAULT_PREFIX, vgw, Some(port), map[AGENT := MANAGED, AGENT_CHASSIS := chassis])
  }

  predicate Owns(nb: Nb, router: string, route: string) {
    router in nb.routers && route in nb.routers[router].staticRoutes
  }

  predicate DefaultOn(nb: Nb, router: string, route: string) {
    Owns(nb, router, route) && route in nb.routes && nb.routes[route].prefix == DEFAULT_PREFIX
  }

  /** References resolve, a route belongs to one router, (port, ip) is unique among bindings. */
  ghost predicate Sound(nb: Nb) {
    && (forall r, u :: Owns(nb, r, u) ==> u in nb.routes)
    && (forall r, s, u :: Owns(nb, r, u) && Owns(nb, s, u) ==> r == s)
    && (forall a, b :: a in nb.bindings && b in nb.bindings && SameKey(nb.bindings[a], nb.bindings[b]) ==> a == b)
  }

  predicate SameKey(a: MacBinding, b: MacBinding) {
    a.logicalPort == b.logicalPort && a.ip == b.ip
  }

  // ---------------------------------------------------------------------------
  // What one ensure may do
  // ---------------------------------------------------------------------------

  /** The existing default route u after an ensure: foreign routes stay, managed ones are claimed. */
  function Claimed(r: StaticRoute, port: string, vgw: string, chassis: string): StaticRoute {
    if !Managed(r) then r
    else if r.nexthop == vgw then (if Owner(r) == chassis then r else Tagged(r, chassis))
    else Tagged(r.(nexthop := vgw, outputPort := Some(port)), chassis)
  }

  /** Route u carries the default traffic of a router in view: it was there, or there was none in view. */
  ghost predicate RouteEnsured(before: Nb, after: Nb, g: Gateway, vgw: string, chassis: string, seen: set<string>, u: string) {
    g.routerUuid in seen &&
    if u in before.routes then
      u in seen && DefaultOn(before, g.routerUuid, u)
      && after == before.(routes := before.routes[u := Claimed(before.routes[u], g.lrpName, vgw, chassis)])
    else
      (forall v :: v in seen ==> !DefaultOn(before, g.routerUuid, v))
      && g.routerUuid in before.routers
      && after == before.(routes := before.routes[u := NewRoute(g.lrpName, vgw, chassis)],
                          routers := before.routers[g.routerUuid := before.routers[g.routerUuid].(staticRoutes := before.routers[g.routerUuid].staticRoutes + {u})])
  }

  /** The tags of t are those of r, except that the agent's chassis tag names this chassis. */
  ghost predicate RetaggedFor(r: StaticRoute, t: StaticRoute, chassis: string) {
    forall k :: StateDerivation.Lookup(t.externalIds, k)
                == if k == "ovn-network-agent-chassis" then chassis else StateDerivation.Lookup(r.externalIds, k)
  }

  /**
   The route an ensure settles on, field by field: a new one is the agent's own, a foreign one is untouched, and one of
   the agents is tagged for this chassis and leads to the gateway, through this port if it led elsewhere.
   */
  ghost predicate RouteFields(before: Nb, after: Nb, g: Gateway, vgw: string, chassis: string, u: string) {
    u in after.routes &&
    var t := after.routes[u];
    if u !in before.routes then
      t == StaticRoute("0.0.0.0/0", vgw, Some(g.lrpName), map["ovn-network-agent" := "managed", "ovn-network-agent-chassis" := chassis])
    else
      var r := before.routes[u];
      && r.prefix == t.prefix == "0.0.0.0/0"
      && if StateDerivation.Lookup(r.externalIds, "ovn-network-agent") != "managed" then t == r
         else
           && t.nexthop == vgw && RetaggedFor(r, t, chassis)
           && t.outputPort == if r.nexthop == vgw then r.outputPort else Some(g.lrpName)
  }

  ghost predicate BindingEnsured(before: Nb, after: Nb, port: string, ip: string, mac: string, b: string) {
    && after == before.(bindings := before.bindings[b := MacBinding(port, ip, mac)])
    && (if b in before.bindings then before.bindings[b].logicalPort == port && before.bindings[b].ip == ip
        else forall c :: c in before.bindings ==> !(before.bindings[c].logicalPort == port && before.bindings[c].ip == ip))
  }

  /** The router has a default route nobody needs to touch again. */
  ghost predicate RouteReady(nb: Nb, g: Gateway, vgw: string, chassis: string, u: string) {
    DefaultOn(nb, g.routerUuid, u) && (Managed(nb.routes[u]) ==> nb.routes[u].nexthop == vgw && Owner(nb.routes[u]) == chassis)
  }

  ghost predicate BindingReady(nb: Nb, port: string, ip: string, mac: string) {
    exists b :: b in nb.bindings && nb.bindings[b] == MacBinding(port, ip, mac)
  }

  ghost predicate IsGatewayOf(networks: seq<CidrText>, ip: Ip) {
    exists i :: FirstUsable(networks, i) && IsLastUsable(SubnetOf(networks[i]), ip)
  }

  // ---------------------------------------------------------------------------
  // What the cleanups may do
  // ---------------------------------------------------------------------------

  function RoutersOf(gs: seq<Gateway>): set<string> {
    set g | g in gs :: g.routerUuid
  }

  function PortsOf(gs: seq<Gateway>): set<string> {
    set g | g in gs :: g.lrpName
  }

  predicate OnLocalRouter(nb: Nb, local: set<string>, u: string) {
    exists r :: r in local && Owns(nb, r, u)
  }

  ghost predicate LocalManaged(nb: Nb, local: set<string>, u: string) {
    u in nb.routes && Managed(nb.routes[u]) && OnLocalRouter(nb, local, u)
  }

  /** A managed route of a stale chassis that some router still lists. */
  ghost predicate StaleRoute(nb: Nb, stale: set<string>, u: string) {
    && u in nb.routes && Managed(nb.routes[u]) && Owner(nb.routes[u]) != "" && Owner(nb.routes[u]) in stale
    && exists r :: Owns(nb, r, u)
  }

  /** A chassis that is not stale has a managed route leaving through this port. */
  ghost predicate LivePort(nb: Nb, stale: set<string>, port: string) {
    exists u :: u in nb.routes && Managed(nb.routes[u]) && Owner(nb.routes[u]) != "" && Owner(nb.routes[u]) !in stale
                && nb.routes[u].outputPort == Some(port)
  }

  ghost predicate StaleBinding(nb: Nb, stale: set<string>, b: string) {
    b in nb.bindings && !LivePort(nb, stale, nb.bindings[b].logicalPort)
    && exists u :: StaleRoute(nb, stale, u) && nb.routes[u].outputPort == Some(nb.bindings[b].logicalPort)
                   && nb.routes[u].nexthop == nb.bindings[b].ip
  }

  /** after is before without some routes (unlinked from their router as well) and some bindings. */
  ghost predicate Pruned(before: Nb, after: Nb, routes: set<string>, bindings: set<string>) {
    && after.routes == before.routes - routes
    && after.bindings == before.bindings - bindings
    && after.routers.Keys == before.routers.Keys
    && (forall r :: r in before.routers ==> after.routers[r] == before.routers[r].(staticRoutes := after.routers[r].staticRoutes))
    && (forall r, u :: Owns(after, r, u) ==> Owns(before, r, u))
    && (forall r, u :: Owns(before, r, u) && u !in routes ==> Owns(after, r, u))
  }

  // ---------------------------------------------------------------------------
  // The client
  // ---------------------------------------------------------------------------

  method Listing(keys: set<string>) returns (list: seq<string>)
    ensures forall k :: k in list <==> k in keys
  {
    list := [];
    var todo := keys;
    while todo != {}
      invariant todo <= keys
      invariant forall k :: k in list <==> k in keys - todo
      decreases todo
    {
      var k :| k in todo;
      list := list + [k];
      todo := todo - {k};
    }
  }

  class OvnNorthbound {
    const localChassis: string
    const render: Ip -> string
    var nb: Nb
    var writes: nat
    /** Transactions that failed, apart from rejected duplicates. */
    ghost var failures: nat

    constructor (localChassis: string, render: Ip -> string, nb: Nb)
      ensures this.nb == nb && this.localChassis == localChassis && this.render == render && writes == 0 && failures == 0
    {
      this.localChassis, this.render, this.nb, writes, failures := localChassis, render, nb, 0, 0;
    }

    /** One transaction: all of it or nothing. */
    method Transact(next: Nb) returns (ok: bool)
      modifies this
      ensures nb == if ok then next else old(nb)
      ensures writes == old(writes) + 1
      ensures failures == old(failures) + if ok then 0 else 1
    {
      ok := *;
      writes := writes + 1;
      if ok {
        nb := next;
      } else {
        failures := failures + 1;
      }
    }

    /** The table has a unique index on port and address, so the server rejects a second row for them. */
    method InsertBinding(b: string, row: MacBinding) returns (ok: bool)
      requires b !in nb.bindings
      modifies this
      ensures nb == if ok then old(nb).(bindings := old(nb).bindings[b := row]) else old(nb)
      ensures ok ==> forall c :: c in old(nb).bindings ==> !SameKey(old(nb).bindings[c], row)
      ensures writes == old(writes) + 1
      ensures failures >= old(failures)
      ensures !ok && (forall c :: c in old(nb).bindings ==> !SameKey(old(nb).bindings[c], row)) ==> failures > old(failures)
    {
      if c :| c in nb.bindings && SameKey(nb.bindings[c], row) {
        writes := writes + 1;
        return false;
      }
      ok := Transact(nb.(bindings := nb.bindings[b := row]));
    }

    /** `seen` is what the unguarded cache shows of the routes and the routers, by UUID. */
    method EnsureDefaultRoute(g: Gateway, vgw: string, seen: set<string>, fresh': string) returns (ok: bool, u: string)
      requires fresh' !in nb.routes
      modifies this
      ensures ok ==> RouteEnsured(old(nb), nb, g, vgw, localChassis, seen, u) && RouteFields(old(nb), nb, g, vgw, localChassis, u)
      ensures !ok ==> nb == old(nb)
      ensures ok ==> (writes == old(writes) <==> nb == old(nb))
      ensures u in old(nb).routes || u == fresh'
      ensures failures >= old(failures)
      ensures failures == old(failures) ==> (ok <==> InView(old(nb), g.routerUuid, seen))
      ensures !InView(old(nb), g.routerUuid, seen) ==> writes == old(writes) && failures == old(failures)
      ensures RouteQuiet(old(nb), g, vgw, localChassis, seen) ==> ok && nb == old(nb) && writes == old(writes) && failures == old(failures)
    {
      u := fresh';
      if g.routerUuid !in nb.routers || g.routerUuid !in seen {
        return false, u;
      }
      var mine := nb.routers[g.routerUuid].staticRoutes;
      var list := Listing(seen * nb.routes.Keys);
      for i := 0 to |list|
        invariant nb == old(nb) && writes == old(writes) && failures == old(failures)
        invariant forall j :: 0 <= j < i ==> !DefaultOn(nb, g.routerUuid, list[j])
      {
        assert list[i] in list;
        if list[i] !in mine {
          continue;
        }
        var r := nb.routes[list[i]];
        if r.prefix == DEFAULT_PREFIX {
          u := list[i];
          assert u in seen;
          if !Managed(r) {
            assert nb == nb.(routes := nb.routes[u := r]);
            return true, u;
          }
          if r.nexthop == vgw {
            if Owner(r) != localChassis {
              ok := Transact(nb.(routes := nb.routes[u := Tagged(r, localChassis)]));
              assert ok ==> nb.routes[u] != old(nb).routes[u];
              return ok, u;
            }
            assert nb == nb.(routes := nb.routes[u := r]);
            return true, u;
          }
          ok := Transact(nb.(routes := nb.routes[u := Tagged(r.(nexthop := vgw, outputPort := Some(g.lrpName)), localChassis)]));
          assert ok ==> nb.routes[u].nexthop != old(nb).routes[u].nexthop;
          return ok, u;
        }
      }
      assert forall v :: v in seen && DefaultOn(nb, g.routerUuid, v) ==> v in list;
      var row := nb.routers[g.routerUuid];
      ok := Transact(nb.(routes := nb.routes[u := NewRoute(g.lrpName, vgw, localChassis)],
                         routers := nb.routers[g.routerUuid := row.(staticRoutes := row.staticRoutes + {u})]));
      assert ok ==> u in nb.routes;
    }

    /** `seen` is what the unguarded cache shows of the bindings. */
    method EnsureStaticMacBinding(port: string, ip: string, mac: string, seen: set<string>, fresh': string) returns (ok: bool, b: string)
      requires seen <= nb.bindings.Keys && fresh' !in nb.bindings
      modifies this
      ensures ok ==> BindingEnsured(old(nb), nb, port, ip, mac, b)
      ensures !ok ==> nb == old(nb)
      ensures ok ==> (writes == old(writes) <==> nb == old(nb))
      ensures failures >= old(failures)
      ensures failures == old(failures) ==> (ok <==> !BindingHidden(old(nb), port, ip, seen))
      ensures BindingQuiet(old(nb), port, ip, mac, seen) && Sound(old(nb)) ==> ok && nb == old(nb) && writes == old(writes) && failures == old(failures)
    {
      b := fresh';
      var list := Listing(seen);
      for i := 0 to |list|
        invariant nb == old(nb) && writes == old(writes) && failures == old(failures)
        invariant forall j :: 0 <= j < i ==> !(nb.bindings[list[j]].logicalPort == port && nb.bindings[list[j]].ip == ip)
      {
        var x := nb.bindings[list[i]];
        assert list[i] in seen;
        if x.logicalPort == port && x.ip == ip {
          b := list[i];
          if x.mac == mac {
            assert nb == nb.(bindings := nb.bindings[b := x]);
            return true, b;
          }
          ok := Transact(nb.(bindings := nb.bindings[b := x.(mac := mac)]));
          assert ok ==> nb.bindings[b] != old(nb).bindings[b];
          return ok, b;
        }
      }
      ok := InsertBinding(b, MacBinding(port, ip, mac));
      assert ok ==> b in nb.bindings;
    }

    method DeleteRoute(router: string, u: string) returns (ok: bool)
      requires router in nb.routers
      modifies this
      ensures nb == if ok then Unlinked(old(nb), router, u) else old(nb)
      ensures writes == old(writes) + 1
      ensures failures == old(failures) + if ok then 0 else 1
    {
      ok := Transact(Unlinked(nb, router, u));
    }

    /** Unlink and delete one route, besides those already gone. */
    method TakeRoute(router: string, u: string, ghost snapshot: Nb, ghost gone: set<string>) returns (deleted: bool, ghost gone': set<string>)
      requires Pruned(snapshot, nb, gone, {}) && router in snapshot.routers
      modifies this
      ensures gone' == if deleted then gone + {u} else gone
      ensures Pruned(snapshot, nb, gone', {})
      ensures failures == old(failures) + if deleted then 0 else 1
    {
      UnlinkPrunes(snapshot, nb, gone, {}, router, u);
      deleted := DeleteRoute(router, u);
      gone' := if deleted then gone + {u} else gone;
    }

    method DeleteBindings(doomed: set<string>) returns (failed: bool)
      requires doomed <= nb.bindings.Keys
      modifies this
      ensures BindingsWent(old(nb), nb, doomed, !failed, failures - old(failures))
      ensures doomed == {} ==> writes == old(writes)
      ensures failures >= old(failures) && (failures == old(failures) ==> !failed)
    {
      failed := false;
      ghost var gone: set<string>, missed: set<string> := {}, {};
      var list := Listing(doomed);
      for i := 0 to |list|
        invariant gone <= doomed && Pruned(old(nb), nb, {}, gone)
        invariant |missed| <= failures - old(failures) && (failed <==> missed != {})
        invariant forall j :: 0 <= j < i ==> list[j] in gone || list[j] in missed
        invariant i == 0 ==> writes == old(writes)
      {
        var b := list[i];
        assert b in doomed;
        var ok := Transact(nb.(bindings := nb.bindings - {b}));
        if ok {
          gone := gone + {b};
        } else {
          failed, missed := true, missed + {b};
        }
      }
      AllButMissed(old(nb), nb, doomed, gone, missed, !failed, failures - old(failures));
      assert doomed == {} ==> |list| == 0 by {
        if |list| > 0 {
          assert list[0] in list;
        }
      }
    }

    /** `hidden` are the rows the unguarded cache has lost during this pass. */
    method EnsureRoute(gs: seq<Gateway>, i: nat, vgw: string, mac: string, hidden: set<string>) returns (ok: bool, u: string)
      requires Sound(nb) && Apart(gs) && i < |gs|
      modifies this
      ensures Keeps(old(nb), nb, gs, i, render, localChassis, mac) && nb.bindings == old(nb).bindings
      ensures ok ==> RouteReady(nb, gs[i], vgw, localChassis, u)
      ensures failures >= old(failures)
      ensures failures == old(failures) && InView(old(nb), gs[i].routerUuid, Visible(old(nb), hidden)) ==> ok
      ensures RouteQuiet(old(nb), gs[i], vgw, localChassis, Visible(old(nb), hidden))
              ==> ok && nb == old(nb) && writes == old(writes) && failures == old(failures)
    {
      var id := FreshUuid(nb.routes.Keys);
      ok, u := EnsureDefaultRoute(gs[i], vgw, Visible(nb, hidden), id);
      if ok {
        RouteEnsuredKeeps(old(nb), nb, gs, i, vgw, localChassis, Visible(old(nb), hidden), u, render, mac);
      } else {
        NothingKeeps(nb, gs, i, render, localChassis, mac);
      }
    }

    method EnsureBinding(gs: seq<Gateway>, i: nat, vgw: string, mac: string, hidden: set<string>, ghost u: string) returns (ok: bool)
      requires Sound(nb) && Apart(gs) && i < |gs| && RouteReady(nb, gs[i], vgw, localChassis, u)
      modifies this
      ensures Keeps(old(nb), nb, gs, i, render, localChassis, mac) && RouteReady(nb, gs[i], vgw, localChassis, u)
      ensures ok ==> BindingReady(nb, gs[i].lrpName, vgw, mac)
      ensures failures >= old(failures)
      ensures failures == old(failures) && !BindingHidden(old(nb), gs[i].lrpName, vgw, old(nb).bindings.Keys - hidden) ==> ok
      ensures BindingQuiet(old(nb), gs[i].lrpName, vgw, mac, old(nb).bindings.Keys - hidden)
              ==> ok && nb == old(nb) && writes == old(writes) && failures == old(failures)
    {
      var id := FreshUuid(nb.bindings.Keys);
      var b;
      ok, b := EnsureStaticMacBinding(gs[i].lrpName, vgw, mac, nb.bindings.Keys - hidden, id);
      if ok {
        BindingEnsuredKeeps(old(nb), nb, gs, i, vgw, localChassis, b, render, mac);
      } else {
        NothingKeeps(nb, gs, i, render, localChassis, mac);
      }
    }

    /** Route and binding of one router for a known gateway. */
    method EnsureVia(gs: seq<Gateway>, i: nat, vgw: string, mac: string, hidden: set<string>) returns (done: bool)
      requires Sound(nb) && Apart(gs) && i < |gs|
      modifies this
      ensures Keeps(old(nb), nb, gs, i, render, localChassis, mac)
      ensures done ==> exists u :: RouteReady(nb, gs[i], vgw, localChassis, u) && BindingReady(nb, gs[i].lrpName, vgw, mac)
      ensures failures >= old(failures)
      ensures failures == old(failures) && GatewayReachable(old(nb), gs[i], vgw, hidden) ==> done
      ensures GatewayQuiet(old(nb), gs[i], vgw, localChassis, mac, hidden) ==> nb == old(nb) && writes == old(writes) && failures == old(failures)
    {
      var ok, u := EnsureRoute(gs, i, vgw, mac, hidden);
      if !ok {
        return false;
      }
      ghost var mid := nb;
      done := EnsureBinding(gs, i, vgw, mac, hidden, u);
      KeepsCompose(old(nb), mid, nb, gs, i, render, localChassis, mac);
    }

    method EnsureGateway(gs: seq<Gateway>, i: nat, mac: string, hidden: set<string>) returns (done: bool)
      requires Sound(nb) && Apart(gs) && i < |gs|
      modifies this
      ensures Keeps(old(nb), nb, gs, i, render, localChassis, mac)
      ensures done ==> Ready(nb, gs[i], render, localChassis, mac)
      ensures failures >= old(failures)
      ensures failures == old(failures) && old(Reachable(nb, gs[i], render, hidden)) ==> done
      ensures QuietGateway(old(nb), gs[i], render, localChassis, mac, hidden) ==> nb == old(nb) && writes == old(writes) && failures == old(failures)
    {
      var ip := VirtualGatewayIp(gs[i].networks);
      if ip.None? {
        NothingKeeps(nb, gs, i, render, localChassis, mac);
        return false;
      }
      assert IsGatewayOf(gs[i].networks, ip.value);
      done := EnsureVia(gs, i, render(ip.value), mac, hidden);
    }

    /**
     done[i] says router i logged no error. Without failed transactions every router is done that has a
     usable network, whose row the cache shows, and whose binding the cache does not hide. Over quiet routers nothing is written.
     */
    method EnsureGatewayRouting(gs: seq<Gateway>, mac: string, hidden: set<string>) returns (done: seq<bool>)
      requires Sound(nb) && Apart(gs)
      modifies this
      ensures |done| == |gs| && Sound(nb)
      ensures forall i :: 0 <= i < |gs| && done[i] ==> Ready(nb, gs[i], render, localChassis, mac)
      ensures |Undone(old(nb), gs, done, render, hidden)| <= failures - old(failures)
      ensures failures == old(failures) ==> ReachableAreDone(old(nb), gs, done, render, hidden)
      ensures Spares(old(nb), nb, localChassis)
      ensures OwnPorts(old(nb), gs) ==> OwnPorts(nb, gs)
      ensures (forall i :: 0 <= i < |gs| ==> QuietGateway(old(nb), gs[i], render, localChassis, mac, hidden))
              ==> nb == old(nb) && writes == old(writes) && failures == old(failures)
    {
      done := [];
      ghost var start, quiet := nb, forall i :: 0 <= i < |gs| ==> QuietGateway(nb, gs[i], render, localChassis, mac, hidden);
      for i := 0 to |gs|
        invariant |done| == i && Sound(nb)
        invariant DoneAreReady(nb, gs, done, render, localChassis, mac)
        invariant |Undone(start, gs, done, render, hidden)| <= failures - old(failures)
        invariant StayReachable(start, nb, gs, i, render, hidden)
        invariant Spares(start, nb, localChassis) && (OwnPorts(start, gs) ==> OwnPorts(nb, gs))
        invariant quiet ==> nb == start && writes == old(writes) && failures == old(failures)
      {
        ghost var before := nb;
        var ok := EnsureGateway(gs, i, mac, hidden);
        RoutingStep(start, before, nb, gs, i, done, ok, render, localChassis, mac, hidden);
        done := done + [ok];
      }
      NoneUndone(start, gs, done, render, hidden);
    }

    /** The router that lists this route, among the local ones. */
    method LocalOwner(routers: seq<string>, local: set<string>, snapshot: map<string, RouterRow>, u: string) returns (owner: Option<string>)
      requires forall r :: r in routers ==> r in snapshot
      ensures owner.Some? ==> owner.value in local && owner.value in snapshot && u in snapshot[owner.value].staticRoutes
      ensures owner.None? ==> forall r :: r in routers && r in local ==> u !in snapshot[r].staticRoutes
    {
      for i := 0 to |routers|
        invariant forall j :: 0 <= j < i && routers[j] in local ==> u !in snapshot[routers[j]].staticRoutes
      {
        if routers[i] !in local {
          continue;
        }
        if u in snapshot[routers[i]].staticRoutes {
          return Some(routers[i]);
        }
      }
      return None;
    }

    method DeleteLocalRoutes(local: set<string>, ghost snapshot: Nb) returns (failed: bool)
      requires snapshot == nb
      modifies this
      ensures LocalRoutesWent(snapshot, nb, local, !failed, failures - old(failures))
      ensures failures >= old(failures) && (failures == old(failures) ==> !failed)
    {
      failed := false;
      ghost var gone: set<string>, missed: set<string> := {}, {};
      PrunedStart(nb);
      var routes, rows := nb.routes, nb.routers;
      var list := Listing(nb.routes.Keys);
      var routers := Listing(nb.routers.Keys);
      for i := 0 to |list|
        invariant Pruned(snapshot, nb, gone, {})
        invariant forall u :: u in gone ==> LocalManaged(snapshot, local, u)
        invariant |missed| <= failures - old(failures) && (failed <==> missed != {})
        invariant forall j :: 0 <= j < i && LocalManaged(snapshot, local, list[j]) ==> list[j] in gone || list[j] in missed
      {
        var u := list[i];
        assert u in snapshot.routes;
        if !Managed(routes[u]) {
          continue;
        }
        var owner := LocalOwner(routers, local, rows, u);
        if owner.Some? {
          assert Owns(snapshot, owner.value, u);
          var deleted;
          deleted, gone := TakeRoute(owner.value, u, snapshot, gone);
          if !deleted {
            failed, missed := true, missed + {u};
          }
        }
      }
      assert !failed ==> forall u :: LocalManaged(snapshot, local, u) ==> u in gone;
      SubsetSize(LocalRoutes(snapshot, local) - gone, missed);
      assert GoneLocal(snapshot, nb, local, gone, !failed, failures - old(failures));
    }

    /** `routesRead` and `bindingsRead` say whether the guarded reads succeed; `failed` whether a delete did not. */
    method RemoveManagedNBEntries(gs: seq<Gateway>, routesRead: bool, bindingsRead: bool) returns (ok: bool, failed: bool)
      modifies this
      ensures gs == [] ==> ok && nb == old(nb) && writes == old(writes)
      ensures LeavesOthers(old(nb), nb, gs)
      ensures routesRead && bindingsRead ==> ok
      ensures failures >= old(failures) && (failures == old(failures) ==> !failed)
      ensures ok && !failed ==> RemovesAll(old(nb), nb, gs)
      ensures ok ==> LocalLeft(old(nb), nb, gs) <= failures - old(failures)
    {
      var local, ports := RoutersOf(gs), PortsOf(gs);
      PrunedStart(nb);
      if gs != [] {
        assert gs[0].routerUuid in local;
      }
      if local == {} {
        assert LocalRoutes(nb, local) == {} && BindingsOn(nb, ports) == {};
        return true, false;
      }
      if !routesRead {
        return false, false;
      }
      ghost var snapshot := nb;
      failed := DeleteLocalRoutes(local, nb);
      if !bindingsRead {
        LocalRoutesOnly(snapshot, nb, gs, !failed, failures - old(failures));
        return false, failed;
      }
      ghost var mid, failures' := nb, failures;
      var missed := DeleteBindings(BindingsOn(nb, ports));
      LocalRowsWent(snapshot, mid, nb, gs, !failed, failures' - old(failures), !missed, failures - failures');
      return true, failed || missed;
    }

    method StaleRoutes(stale: set<string>) returns (owners: map<string, string>, live: set<string>)
      ensures forall u :: u in owners <==> exists r :: Owns(nb, r, u)
      ensures forall u :: u in owners ==> Owns(nb, owners[u], u)
      ensures forall p :: p in live <==> LivePort(nb, stale, p)
    {
      owners := map[];
      var routers := Listing(nb.routers.Keys);
      for i := 0 to |routers|
        invariant forall r, u :: r in routers[..i] && Owns(nb, r, u) ==> u in owners
        invariant forall u :: u in owners ==> Owns(nb, owners[u], u)
      {
        var r := routers[i];
        assert r in routers;
        assert routers[..i + 1] == routers[..i] + [r];
        owners := owners + map u | u in nb.routers[r].staticRoutes :: r;
      }
      assert routers[..|routers|] == routers;
      live := set u | u in nb.routes && Managed(nb.routes[u]) && Owner(nb.routes[u]) != "" && Owner(nb.routes[u]) !in stale
                      && nb.routes[u].outputPort.Some? :: nb.routes[u].outputPort.value;
    }

    /** The bindings of a stale route's port and gateway go as well, unless the port still serves a live chassis. */
    static method NoteCondemned(u: string, r: StaticRoute, live: set<string>, keys: set<(string, string)>, ghost snapshot: Nb, ghost stale: set<string>, ghost list: seq<string>)
      returns (keys': set<(string, string)>)
      requires StaleRoute(snapshot, stale, u) && snapshot.routes[u] == r && KeysOf(snapshot, stale, list, keys)
      requires forall p :: p in live <==> LivePort(snapshot, stale, p)
      ensures KeysOf(snapshot, stale, list + [u], keys')
    {
      KeysStep(snapshot, stale, list, keys, u);
      keys' := keys;
      if r.outputPort.Some? && r.outputPort.value !in live {
        keys' := keys + {(r.outputPort.value, r.nexthop)};
      }
    }

    /** The second pass: stale routes are unlinked and deleted, and the bindings they condemn are noted. */
    method DeleteStaleRoutes(stale: set<string>, ghost snapshot: Nb) returns (keys: set<(string, string)>, failed: bool, ghost gone: set<string>)
      requires snapshot == nb
      modifies this
      ensures failures >= old(failures) && (failures == old(failures) ==> !failed)
      ensures GoneStale(snapshot, nb, stale, gone, !failed, failures - old(failures))
      ensures KeysCondemn(snapshot, stale, keys)
      ensures keys == {} <==> !CondemnsAny(snapshot, stale)
    {
      failed, keys := false, {};
      var routes := nb.routes;
      gone := {};
      ghost var missed: set<string> := {};
      PrunedStart(nb);
      var owners, live := StaleRoutes(stale);
      var list := Listing(nb.routes.Keys);
      for i := 0 to |list|
        invariant Pruned(snapshot, nb, gone, {})
        invariant forall u :: u in gone ==> StaleRoute(snapshot, stale, u)
        invariant |missed| <= failures - old(failures) && (failed <==> missed != {})
        invariant forall u :: u in list[..i] && StaleRoute(snapshot, stale, u) ==> u in gone || u in missed
        invariant KeysOf(snapshot, stale, list[..i], keys)
      {
        var u := list[i];
        assert u in list && list[..i + 1] == list[..i] + [u];
        var r := routes[u];
        assert StaleRoute(snapshot, stale, u) <==> Managed(r) && Owner(r) != "" && Owner(r) in stale && u in owners;
        if !Managed(r) || Owner(r) == "" || Owner(r) !in stale || u !in owners {
          KeysStep(snapshot, stale, list[..i], keys, u);
          continue;
        }
        keys := NoteCondemned(u, r, live, keys, snapshot, stale, list[..i]);
        var deleted;
        deleted, gone := TakeRoute(owners[u], u, snapshot, gone);
        if !deleted {
          failed, missed := true, missed + {u};
        }
      }
      assert list[..|list|] == list;
      assert KeysCondemn(snapshot, stale, keys) && (keys == {} <==> !CondemnsAny(snapshot, stale)) by {
        CondemnedBindings(snapshot, stale, list, keys);
        KeysAreCondemned(snapshot, stale, list, keys);
      }
      StaleButMissed(snapshot, nb, stale, list, gone, missed, !failed, failures - old(failures));
    }

    /** The third pass: the condemned bindings. */
    method DeleteCondemned(keys: set<(string, string)>, ghost stale: set<string>, ghost snapshot: Nb, ghost gone: set<string>, ghost all: bool, ghost routesMissed: int)
      returns (missed: bool)
      requires GoneStale(snapshot, nb, stale, gone, all, routesMissed) && KeysCondemn(snapshot, stale, keys)
      modifies this
      ensures failures >= old(failures) && (failures == old(failures) ==> !missed)
      ensures OnlyStaleGone(snapshot, nb, stale)
      ensures all && !missed ==> AllStaleGone(snapshot, nb, stale)
      ensures StaleLeft(snapshot, nb, stale) <= routesMissed + failures - old(failures)
    {
      ghost var mid := nb;
      missed := DeleteBindings(Keyed(nb, keys));
      StaleRowsWent(snapshot, mid, nb, stale, keys, gone, all, routesMissed, !missed, failures - old(failures));
    }

    method CleanupStaleChassisManagedEntries(stale: set<string>, routesRead: bool, bindingsRead: bool) returns (ok: bool, failed: bool)
      modifies this
      ensures failures >= old(failures) && (failures == old(failures) ==> !failed)
      ensures ok <==> CleanupReads(old(nb), stale, routesRead, bindingsRead)
      ensures OnlyStaleGone(old(nb), nb, stale)
      ensures ok && !failed ==> AllStaleGone(old(nb), nb, stale)
      ensures ok ==> StaleLeft(old(nb), nb, stale) <= failures - old(failures)
    {
      if !routesRead {
        NothingGone(nb, stale);
        return false, false;
      }
      ghost var snapshot := nb;
      var keys;
      ghost var gone;
      keys, failed, gone := DeleteStaleRoutes(stale, nb);
      if keys == {} || !bindingsRead {
        StaleRoutesOnly(snapshot, nb, stale, keys, gone, !failed, failures - old(failures));
        return keys == {}, failed;
      }
      var missed := DeleteCondemned(keys, stale, snapshot, gone, !failed, failures - old(failures));
      return true, failed || missed;
    }
  }

  function Unlinked(nb: Nb, router: string, u: string): Nb
    requires router in nb.routers
  {
    nb.(routes := nb.routes - {u},
        routers := nb.routers[router := nb.routers[router].(staticRoutes := nb.routers[router].staticRoutes - {u})])
  }

  /** A string longer than every key. */
  method FreshUuid(keys: set<string>) returns (u: string)
    ensures u !in keys
  {
    var n: nat := 0;
    var todo := keys;
    while todo != {}
      invariant todo <= keys && forall k :: k in keys - todo ==> |k| < n
      decreases todo
    {
      var k :| k in todo;
      n := if |k| >= n then |k| + 1 else n;
      todo := todo - {k};
    }
    u := seq(n, _ => 'u');
    assert |u| == n;
  }

  /** Local routers and their ports are distinct. */
  ghost predicate Apart(gs: seq<Gateway>) {
    forall i, j :: 0 <= i < |gs| && 0 <= j < |gs| && i != j ==> gs[i].routerUuid != gs[j].routerUuid && gs[i].lrpName != gs[j].lrpName
  }

  /** The router's traffic leaves through its virtual gateway, or through a default route of somebody else. */
  ghost predicate Ready(nb: Nb, g: Gateway, render: Ip -> string, chassis: string, mac: string) {
    exists vgw, u :: IsGatewayOf(g.networks, vgw) && RouteReady(nb, g, render(vgw), chassis, u)
                     && BindingReady(nb, g.lrpName, render(vgw), mac)
  }

  /** The visible default route needs no write, whichever of them is listed first. */
  predicate SettledRoute(r: StaticRoute, vgw: string, chassis: string) {
    Managed(r) ==> r.nexthop == vgw && Owner(r) == chassis
  }

  /** The routes and routers an unguarded listing shows while the cache has lost the hidden rows. */
  function Visible(nb: Nb, hidden: set<string>): set<string> {
    nb.routes.Keys + nb.routers.Keys - hidden
  }

  predicate InView(nb: Nb, router: string, seen: set<string>) {
    router in nb.routers && router in seen
  }

  ghost predicate RouteQuiet(nb: Nb, g: Gateway, vgw: string, chassis: string, seen: set<string>) {
    && InView(nb, g.routerUuid, seen)
    && (exists v :: v in seen && DefaultOn(nb, g.routerUuid, v))
    && (forall v :: v in seen && DefaultOn(nb, g.routerUuid, v) ==> SettledRoute(nb.routes[v], vgw, chassis))
  }

  ghost predicate BindingQuiet(nb: Nb, port: string, ip: string, mac: string, seen: set<string>) {
    exists b :: b in seen && b in nb.bindings && nb.bindings[b] == MacBinding(port, ip, mac)
  }

  /** The table has a row for the port and address, but the cache shows none. */
  ghost predicate BindingHidden(nb: Nb, port: string, ip: string, seen: set<string>) {
    && (exists b :: b in nb.bindings && nb.bindings[b].logicalPort == port && nb.bindings[b].ip == ip)
    && (forall b :: b in seen && b in nb.bindings ==> !(nb.bindings[b].logicalPort == port && nb.bindings[b].ip == ip))
  }

  ghost predicate QuietGateway(nb: Nb, g: Gateway, render: Ip -> string, chassis: string, mac: string, hidden: set<string>) {
    forall ip :: IsGatewayOf(g.networks, ip) ==> GatewayQuiet(nb, g, render(ip), chassis, mac, hidden)
  }

  ghost predicate GatewayQuiet(nb: Nb, g: Gateway, vgw: string, chassis: string, mac: string, hidden: set<string>) {
    RouteQuiet(nb, g, vgw, chassis, Visible(nb, hidden)) && BindingQuiet(nb, g.lrpName, vgw, mac, nb.bindings.Keys - hidden)
  }

  /** The router exists, has a usable network, and the cache hides neither its row nor its gateway's binding. */
  ghost predicate Reachable(nb: Nb, g: Gateway, render: Ip -> string, hidden: set<string>) {
    && (exists ip :: IsGatewayOf(g.networks, ip))
    && (forall ip :: IsGatewayOf(g.networks, ip) ==> GatewayReachable(nb, g, render(ip), hidden))
  }

  ghost predicate GatewayReachable(nb: Nb, g: Gateway, vgw: string, hidden: set<string>) {
    InView(nb, g.routerUuid, Visible(nb, hidden)) && !BindingHidden(nb, g.lrpName, vgw, nb.bindings.Keys - hidden)
  }

  /** No router comes or goes, and only bindings of this port change. */
  ghost predicate OthersUntouched(before: Nb, after: Nb, port: string) {
    && before.routers.Keys == after.routers.Keys
    && (forall b :: b in before.bindings && before.bindings[b].logicalPort != port ==> b in after.bindings && after.bindings[b] == before.bindings[b])
    && (forall b :: b in after.bindings && after.bindings[b].logicalPort != port ==> b in before.bindings && after.bindings[b] == before.bindings[b])
  }

  lemma ReachableStays(before: Nb, after: Nb, gs: seq<Gateway>, i: nat, render: Ip -> string, hidden: set<string>)
    requires Apart(gs) && i < |gs| && OthersUntouched(before, after, gs[i].lrpName)
    ensures forall j :: 0 <= j < |gs| && j != i && Reachable(before, gs[j], render, hidden) ==> Reachable(after, gs[j], render, hidden)
  {
    forall j, ip | 0 <= j < |gs| && j != i && GatewayReachable(before, gs[j], render(ip), hidden)
      ensures GatewayReachable(after, gs[j], render(ip), hidden)
    {
    }
  }

  ghost predicate DoneAreReady(nb: Nb, gs: seq<Gateway>, done: seq<bool>, render: Ip -> string, chassis: string, mac: string)
    requires |done| <= |gs|
  {
    forall j :: 0 <= j < |done| && done[j] ==> Ready(nb, gs[j], render, chassis, mac)
  }

  ghost predicate ReachableAreDone(start: Nb, gs: seq<Gateway>, done: seq<bool>, render: Ip -> string, hidden: set<string>)
    requires |done| <= |gs|
  {
    forall j :: 0 <= j < |done| && Reachable(start, gs[j], render, hidden) ==> done[j]
  }

  /** The routers among the first ones that should be done and are not. */
  ghost function Undone(start: Nb, gs: seq<Gateway>, done: seq<bool>, render: Ip -> string, hidden: set<string>): set<int>
    requires |done| <= |gs|
  {
    set j | 0 <= j < |done| && Reachable(start, gs[j], render, hidden) && !done[j]
  }

  lemma UndoneStep(start: Nb, gs: seq<Gateway>, done: seq<bool>, ok: bool, render: Ip -> string, hidden: set<string>)
    requires |done| < |gs|
    ensures Undone(start, gs, done + [ok], render, hidden)
            == Undone(start, gs, done, render, hidden) + if Reachable(start, gs[|done|], render, hidden) && !ok then {|done|} else {}
  {
  }

  lemma NoneUndone(start: Nb, gs: seq<Gateway>, done: seq<bool>, render: Ip -> string, hidden: set<string>)
    requires |done| <= |gs|
    ensures |Undone(start, gs, done, render, hidden)| == 0 ==> ReachableAreDone(start, gs, done, render, hidden)
  {
    assert forall j :: 0 <= j < |done| && Reachable(start, gs[j], render, hidden) && !done[j] ==> j in Undone(start, gs, done, render, hidden);
  }

  ghost predicate StayReachable(start: Nb, nb: Nb, gs: seq<Gateway>, i: nat, render: Ip -> string, hidden: set<string>) {
    forall j :: i <= j < |gs| && Reachable(start, gs[j], render, hidden) ==> Reachable(nb, gs[j], render, hidden)
  }

  lemma RoutingStep(start: Nb, before: Nb, after: Nb, gs: seq<Gateway>, i: nat, done: seq<bool>, ok: bool,
                    render: Ip -> string, chassis: string, mac: string, hidden: set<string>)
    requires Apart(gs) && i < |gs| && |done| == i
    requires Keeps(before, after, gs, i, render, chassis, mac) && (ok ==> Ready(after, gs[i], render, chassis, mac))
    requires DoneAreReady(before, gs, done, render, chassis, mac) && StayReachable(start, before, gs, i, render, hidden)
    ensures DoneAreReady(after, gs, done + [ok], render, chassis, mac) && StayReachable(start, after, gs, i + 1, render, hidden)
    ensures |Undone(start, gs, done + [ok], render, hidden)|
            <= |Undone(start, gs, done, render, hidden)| + if Reachable(before, gs[i], render, hidden) && !ok then 1 else 0
  {
    ReachableStays(before, after, gs, i, render, hidden);
    UndoneStep(start, gs, done, ok, render, hidden);
  }

  /** What the ensures of gateway i leave alone. */
  ghost predicate Keeps(before: Nb, after: Nb, gs: seq<Gateway>, i: nat, render: Ip -> string, chassis: string, mac: string)
    requires i < |gs|
  {
    && Sound(after) && Spares(before, after, chassis) && OthersUntouched(before, after, gs[i].lrpName)
    && (OwnPorts(before, gs) ==> OwnPorts(after, gs))
    && (forall j :: 0 <= j < |gs| && j != i && Ready(before, gs[j], render, chassis, mac) ==> Ready(after, gs[j], render, chassis, mac))
  }

  lemma NothingKeeps(nb: Nb, gs: seq<Gateway>, i: nat, render: Ip -> string, chassis: string, mac: string)
    requires Sound(nb) && i < |gs|
    ensures Keeps(nb, nb, gs, i, render, chassis, mac)
  {
  }

  lemma KeepsCompose(a: Nb, b: Nb, c: Nb, gs: seq<Gateway>, i: nat, render: Ip -> string, chassis: string, mac: string)
    requires i < |gs| && Keeps(a, b, gs, i, render, chassis, mac) && Keeps(b, c, gs, i, render, chassis, mac)
    ensures Keeps(a, c, gs, i, render, chassis, mac)
  {
  }

  /** No row disappears, no route is unlinked, and a route changes or appears only as a managed one of this chassis. */
  ghost predicate Spares(before: Nb, after: Nb, chassis: string) {
    && before.routes.Keys <= after.routes.Keys && before.bindings.Keys <= after.bindings.Keys
    && (forall u :: u in before.routes && after.routes[u] != before.routes[u] ==> Managed(before.routes[u]))
    && (forall u :: u in after.routes && (u !in before.routes || after.routes[u] != before.routes[u])
                    ==> Managed(after.routes[u]) && Owner(after.routes[u]) == chassis)
    && (forall r, u :: Owns(before, r, u) ==> Owns(after, r, u))
  }

  /** Managed default routes of these routers leave through the routers' own ports. */
  ghost predicate OwnPorts(nb: Nb, gs: seq<Gateway>) {
    forall i, u :: 0 <= i < |gs| && DefaultOn(nb, gs[i].routerUuid, u) && Managed(nb.routes[u]) ==> nb.routes[u].outputPort == Some(gs[i].lrpName)
  }

  ghost predicate LeavesOthers(before: Nb, after: Nb, gs: seq<Gateway>) {
    exists routes, bindings :: Pruned(before, after, routes, bindings) && LocalOnly(before, gs, routes, bindings)
  }

  ghost predicate LocalOnly(nb: Nb, gs: seq<Gateway>, routes: set<string>, bindings: set<string>) {
    && (forall u :: u in routes ==> LocalManaged(nb, RoutersOf(gs), u))
    && (forall b :: b in bindings ==> b in nb.bindings && nb.bindings[b].logicalPort in PortsOf(gs))
  }

  ghost predicate RemovesAll(before: Nb, after: Nb, gs: seq<Gateway>) {
    && (forall u :: LocalManaged(before, RoutersOf(gs), u) ==> u !in after.routes)
    && (forall b :: b in before.bindings && before.bindings[b].logicalPort in PortsOf(gs) ==> b !in after.bindings)
  }

  ghost function LocalRoutes(nb: Nb, local: set<string>): set<string> {
    set u | u in nb.routes && LocalManaged(nb, local, u)
  }

  function BindingsOn(nb: Nb, ports: set<string>): set<string> {
    set b | b in nb.bindings && nb.bindings[b].logicalPort in ports
  }

  ghost function Kept<V>(ids: set<string>, rows: map<string, V>): set<string> {
    set u | u in ids && u in rows
  }

  /** How many rows a removal should have taken and did not. */
  ghost function LocalLeft(before: Nb, after: Nb, gs: seq<Gateway>): nat {
    |Kept(LocalRoutes(before, RoutersOf(gs)), after.routes)| + |Kept(BindingsOn(before, PortsOf(gs)), after.bindings)|
  }

  ghost function StaleRoutesIn(nb: Nb, stale: set<string>): set<string> {
    set u | u in nb.routes && StaleRoute(nb, stale, u)
  }

  ghost function StaleBindingsIn(nb: Nb, stale: set<string>): set<string> {
    set b | b in nb.bindings && StaleBinding(nb, stale, b)
  }

  ghost function StaleLeft(before: Nb, after: Nb, stale: set<string>): nat {
    |Kept(StaleRoutesIn(before, stale), after.routes)| + |Kept(StaleBindingsIn(before, stale), after.bindings)|
  }

  /** The bindings of these (port, address) pairs. */
  function Keyed(nb: Nb, keys: set<(string, string)>): set<string> {
    set b | b in nb.bindings && (nb.bindings[b].logicalPort, nb.bindings[b].ip) in keys
  }

  lemma SubsetSize(a: set<string>, b: set<string>)
    requires a <= b
    ensures |a| <= |b|
  {
    assert b == a + (b - a);
  }

  /** The bindings of these (port, address) pairs are the stale ones. */
  ghost predicate KeysCondemn(nb: Nb, stale: set<string>, keys: set<(string, string)>) {
    forall b :: b in nb.bindings && (nb.bindings[b].logicalPort, nb.bindings[b].ip) in keys <==> StaleBinding(nb, stale, b)
  }

  /** These bindings went: all of the doomed, or all but a number. */
  ghost predicate Lost(before: Nb, after: Nb, doomed: set<string>, lost: set<string>, all: bool, missed: int) {
    lost <= doomed && Pruned(before, after, {}, lost) && (all ==> lost == doomed) && |doomed - lost| <= missed
  }

  ghost predicate BindingsWent(before: Nb, after: Nb, doomed: set<string>, all: bool, missed: int) {
    exists lost :: Lost(before, after, doomed, lost, all, missed)
  }

  lemma AllButMissed(before: Nb, after: Nb, doomed: set<string>, gone: set<string>, missed: set<string>, all: bool, n: int)
    requires gone <= doomed && Pruned(before, after, {}, gone) && (all <==> missed == {}) && |missed| <= n
    requires forall b :: b in doomed ==> b in gone || b in missed
    ensures BindingsWent(before, after, doomed, all, n)
  {
    SubsetSize(doomed - gone, missed);
    assert all ==> gone == doomed;
    assert Lost(before, after, doomed, gone, all, n);
  }

  ghost predicate GoneLocal(before: Nb, after: Nb, local: set<string>, gone: set<string>, all: bool, missed: int) {
    Pruned(before, after, gone, {}) && GoneAreLocal(before, local, gone, all) && |LocalRoutes(before, local) - gone| <= missed
  }

  ghost predicate LocalRoutesWent(before: Nb, after: Nb, local: set<string>, all: bool, missed: int) {
    exists gone :: GoneLocal(before, after, local, gone, all, missed)
  }

  ghost predicate GoneStale(before: Nb, after: Nb, stale: set<string>, gone: set<string>, all: bool, missed: int) {
    Pruned(before, after, gone, {}) && GoneAreStale(before, stale, gone, all) && |StaleRoutesIn(before, stale) - gone| <= missed
  }

  lemma StaleButMissed(before: Nb, after: Nb, stale: set<string>, list: seq<string>, gone: set<string>, missed: set<string>, all: bool, n: int)
    requires Pruned(before, after, gone, {}) && (all <==> missed == {}) && |missed| <= n
    requires forall u :: u in before.routes ==> u in list
    requires forall u :: u in gone ==> StaleRoute(before, stale, u)
    requires forall u :: u in list && StaleRoute(before, stale, u) ==> u in gone || u in missed
    ensures GoneStale(before, after, stale, gone, all, n)
  {
    SubsetSize(StaleRoutesIn(before, stale) - gone, missed);
  }

  lemma KeptAre(before: Nb, mid: Nb, after: Nb, routes: set<string>, bindings: set<string>, gone: set<string>, lost: set<string>)
    requires mid.routes == before.routes - gone && after.routes == mid.routes - {} && after.bindings == mid.bindings - lost
    ensures |Kept(routes, after.routes)| <= |routes - gone| && |Kept(bindings, after.bindings)| <= |bindings - lost|
  {
    SubsetSize(Kept(routes, after.routes), routes - gone);
    SubsetSize(Kept(bindings, after.bindings), bindings - lost);
  }

  lemma LocalRoutesOnly(before: Nb, after: Nb, gs: seq<Gateway>, all: bool, missed: int)
    requires LocalRoutesWent(before, after, RoutersOf(gs), all, missed)
    ensures LeavesOthers(before, after, gs)
  {
    var gone :| GoneLocal(before, after, RoutersOf(gs), gone, all, missed);
    assert LocalOnly(before, gs, gone, {});
  }

  lemma LocalRowsWent(before: Nb, mid: Nb, after: Nb, gs: seq<Gateway>, allRoutes: bool, routesMissed: int, allBindings: bool, bindingsMissed: int)
    requires LocalRoutesWent(before, mid, RoutersOf(gs), allRoutes, routesMissed)
    requires BindingsWent(mid, after, BindingsOn(mid, PortsOf(gs)), allBindings, bindingsMissed)
    ensures LeavesOthers(before, after, gs)
    ensures allRoutes && allBindings ==> RemovesAll(before, after, gs)
    ensures LocalLeft(before, after, gs) <= routesMissed + bindingsMissed
  {
    var gone :| GoneLocal(before, mid, RoutersOf(gs), gone, allRoutes, routesMissed);
    var lost :| Lost(mid, after, BindingsOn(mid, PortsOf(gs)), lost, allBindings, bindingsMissed);
    LocalRowsPruned(before, mid, after, gs, gone, lost, allRoutes, allBindings);
    KeptAre(before, mid, after, LocalRoutes(before, RoutersOf(gs)), BindingsOn(before, PortsOf(gs)), gone, lost);
  }

  lemma LocalRowsPruned(before: Nb, mid: Nb, after: Nb, gs: seq<Gateway>, gone: set<string>, lost: set<string>, allRoutes: bool, allBindings: bool)
    requires Pruned(before, mid, gone, {}) && GoneAreLocal(before, RoutersOf(gs), gone, allRoutes) && Pruned(mid, after, {}, lost)
    requires lost <= BindingsOn(mid, PortsOf(gs)) && (allBindings ==> lost == BindingsOn(mid, PortsOf(gs)))
    ensures LeavesOthers(before, after, gs) && BindingsOn(mid, PortsOf(gs)) == BindingsOn(before, PortsOf(gs))
    ensures allRoutes && allBindings ==> RemovesAll(before, after, gs)
  {
    PrunesCompose(before, mid, after, gone, lost);
    assert LocalOnly(before, gs, gone, lost);
  }

  lemma StaleRoutesOnly(before: Nb, after: Nb, stale: set<string>, keys: set<(string, string)>, gone: set<string>, all: bool, missed: int)
    requires GoneStale(before, after, stale, gone, all, missed) && KeysCondemn(before, stale, keys)
    ensures OnlyStaleGone(before, after, stale)
    ensures keys == {} ==> StaleLeft(before, after, stale) <= missed && (all ==> AllStaleGone(before, after, stale))
  {
    assert StaleOnly(before, stale, gone, {});
    if keys == {} {
      NoKeysNoBindings(before, stale);
      KeptAre(before, after, after, StaleRoutesIn(before, stale), {}, gone, {});
    }
  }

  lemma NoKeysNoBindings(nb: Nb, stale: set<string>)
    requires KeysCondemn(nb, stale, {})
    ensures StaleBindingsIn(nb, stale) == {} && forall b :: !StaleBinding(nb, stale, b)
  {
  }

  lemma NothingGone(nb: Nb, stale: set<string>)
    ensures OnlyStaleGone(nb, nb, stale)
  {
    PrunedStart(nb);
    assert StaleOnly(nb, stale, {}, {});
  }

  ghost predicate OnlyStaleGone(before: Nb, after: Nb, stale: set<string>) {
    exists routes, bindings :: Pruned(before, after, routes, bindings) && StaleOnly(before, stale, routes, bindings)
  }

  ghost predicate StaleOnly(nb: Nb, stale: set<string>, routes: set<string>, bindings: set<string>) {
    && (forall u :: u in routes ==> StaleRoute(nb, stale, u))
    && (forall b :: b in bindings ==> StaleBinding(nb, stale, b))
  }

  ghost predicate AllStaleGone(before: Nb, after: Nb, stale: set<string>) {
    && (forall u :: StaleRoute(before, stale, u) ==> u !in after.routes)
    && (forall b :: StaleBinding(before, stale, b) ==> b !in after.bindings)
  }

  /** Stale route u condemns the bindings of this (port, address). */
  ghost predicate Condemns(nb: Nb, stale: set<string>, u: string, key: (string, string)) {
    StaleRoute(nb, stale, u) && nb.routes[u].outputPort == Some(key.0) && nb.routes[u].nexthop == key.1 && !LivePort(nb, stale, key.0)
  }

  ghost predicate GoneAreLocal(nb: Nb, local: set<string>, gone: set<string>, all: bool) {
    && (forall u :: u in gone ==> LocalManaged(nb, local, u))
    && (all ==> forall u :: LocalManaged(nb, local, u) ==> u in gone)
  }

  ghost predicate GoneAreStale(nb: Nb, stale: set<string>, gone: set<string>, all: bool) {
    && (forall u :: u in gone ==> StaleRoute(nb, stale, u))
    && (all ==> forall u :: StaleRoute(nb, stale, u) ==> u in gone)
  }

  ghost predicate KeysOf(nb: Nb, stale: set<string>, list: seq<string>, keys: set<(string, string)>) {
    && (forall u, k :: u in list && Condemns(nb, stale, u, k) ==> k in keys)
    && (forall k :: k in keys ==> Condemned(nb, stale, list, k))
  }

  ghost predicate Condemned(nb: Nb, stale: set<string>, list: seq<string>, k: (string, string)) {
    exists u :: u in list && Condemns(nb, stale, u, k)
  }

  lemma KeysStep(nb: Nb, stale: set<string>, list: seq<string>, keys: set<(string, string)>, u: string)
    requires KeysOf(nb, stale, list, keys) && u in nb.routes
    ensures !StaleRoute(nb, stale, u) ==> KeysOf(nb, stale, list + [u], keys)
    ensures var r := nb.routes[u];
            StaleRoute(nb, stale, u) ==>
              KeysOf(nb, stale, list + [u], if r.outputPort.Some? && !LivePort(nb, stale, r.outputPort.value)
                                            then keys + {(r.outputPort.value, r.nexthop)} else keys)
  {
    assert u in list + [u] && forall v :: v in list ==> v in list + [u];
    var r := nb.routes[u];
    var after := if StaleRoute(nb, stale, u) && r.outputPort.Some? && !LivePort(nb, stale, r.outputPort.value)
                 then keys + {(r.outputPort.value, r.nexthop)} else keys;
    forall k | k in after ensures Condemned(nb, stale, list + [u], k) {
      if k in keys {
        var v :| v in list && Condemns(nb, stale, v, k);
      } else {
        assert Condemns(nb, stale, u, k);
      }
    }
  }

  /** Some stale route condemns bindings, whether or not there are any. */
  ghost predicate CondemnsAny(nb: Nb, stale: set<string>) {
    exists u, key :: Condemns(nb, stale, u, key)
  }

  /** The lists a cleanup needs could be read: the routes, and the bindings if any are condemned. */
  ghost predicate CleanupReads(nb: Nb, stale: set<string>, routesRead: bool, bindingsRead: bool) {
    routesRead && (bindingsRead || !CondemnsAny(nb, stale))
  }

  lemma KeysAreCondemned(nb: Nb, stale: set<string>, list: seq<string>, keys: set<(string, string)>)
    requires forall u :: u in list <==> u in nb.routes
    requires KeysOf(nb, stale, list, keys)
    ensures keys == {} <==> !CondemnsAny(nb, stale)
  {
    if k :| k in keys {
      assert Condemned(nb, stale, list, k);
    }
    if u, k :| Condemns(nb, stale, u, k) {
      assert u in list;
      assert k in keys;
    }
  }

  lemma CondemnedBindings(nb: Nb, stale: set<string>, list: seq<string>, keys: set<(string, string)>)
    requires forall u :: u in list <==> u in nb.routes
    requires KeysOf(nb, stale, list, keys)
    ensures KeysCondemn(nb, stale, keys)
  {
  }

  lemma PrunedStart(nb: Nb)
    ensures Pruned(nb, nb, {}, {})
  {
  }

  lemma UnlinkPrunes(start: Nb, nb: Nb, routes: set<string>, bindings: set<string>, r: string, u: string)
    requires Pruned(start, nb, routes, bindings) && r in nb.routers
    ensures Pruned(start, Unlinked(nb, r, u), routes + {u}, bindings)
  {
  }

  lemma PrunesCompose(a: Nb, b: Nb, c: Nb, routes: set<string>, bindings: set<string>)
    requires Pruned(a, b, routes, {}) && Pruned(b, c, {}, bindings)
    ensures Pruned(a, c, routes, bindings)
  {
  }

  lemma StaleRowsWent(before: Nb, mid: Nb, after: Nb, stale: set<string>, keys: set<(string, string)>, gone: set<string>,
                      allRoutes: bool, routesMissed: int, allBindings: bool, bindingsMissed: int)
    requires GoneStale(before, mid, stale, gone, allRoutes, routesMissed) && BindingsWent(mid, after, Keyed(mid, keys), allBindings, bindingsMissed)
    requires KeysCondemn(before, stale, keys)
    ensures OnlyStaleGone(before, after, stale)
    ensures StaleLeft(before, after, stale) <= routesMissed + bindingsMissed
    ensures allRoutes && allBindings ==> AllStaleGone(before, after, stale)
  {
    var lost :| Lost(mid, after, Keyed(mid, keys), lost, allBindings, bindingsMissed);
    StaleRowsPruned(before, mid, after, stale, keys, gone, lost, allRoutes, allBindings);
    KeptAre(before, mid, after, StaleRoutesIn(before, stale), StaleBindingsIn(before, stale), gone, lost);
  }

  lemma StaleRowsPruned(before: Nb, mid: Nb, after: Nb, stale: set<string>, keys: set<(string, string)>, gone: set<string>, lost: set<string>,
                        allRoutes: bool, allBindings: bool)
    requires Pruned(before, mid, gone, {}) && GoneAreStale(before, stale, gone, allRoutes) && Pruned(mid, after, {}, lost)
    requires KeysCondemn(before, stale, keys)
    requires lost <= Keyed(mid, keys) && (allBindings ==> lost == Keyed(mid, keys))
    ensures OnlyStaleGone(before, after, stale) && StaleBindingsIn(before, stale) == Keyed(mid, keys)
    ensures allRoutes && allBindings ==> AllStaleGone(before, after, stale)
  {
    PrunesCompose(before, mid, after, gone, lost);
    assert StaleOnly(before, stale, gone, lost);
  }

  /** Only route u, of this router, is new or different. */
  ghost predicate OnlyRouteChanged(before: Nb, after: Nb, router: string, u: string) {
    && after.bindings == before.bindings && after.routers.Keys == before.routers.Keys
    && (forall r, v :: Owns(after, r, v) <==> Owns(before, r, v) || (u !in before.routes && r == router && v == u))
    && (forall v :: v in before.routes && v != u ==> v in after.routes && after.routes[v] == before.routes[v])
    && (u in before.routes ==> DefaultOn(before, router, u))
  }

  lemma ReadyElsewhere(before: Nb, after: Nb, router: string, u: string, g: Gateway, render: Ip -> string, chassis: string, mac: string)
    requires Sound(before) && OnlyRouteChanged(before, after, router, u) && g.routerUuid != router && Ready(before, g, render, chassis, mac)
    ensures Ready(after, g, render, chassis, mac)
  {
    var ip, v :| IsGatewayOf(g.networks, ip) && RouteReady(before, g, render(ip), chassis, v) && BindingReady(before, g.lrpName, render(ip), mac);
    assert Owns(before, g.routerUuid, v);
    assert RouteReady(after, g, render(ip), chassis, v);
  }

  lemma PortsKept(before: Nb, after: Nb, gs: seq<Gateway>, i: nat, u: string)
    requires Sound(before) && Apart(gs) && i < |gs| && OnlyRouteChanged(before, after, gs[i].routerUuid, u) && u in after.routes
    requires u in before.routes && before.routes[u].outputPort == Some(gs[i].lrpName) ==> after.routes[u].outputPort == Some(gs[i].lrpName)
    requires u !in before.routes ==> after.routes[u].outputPort == Some(gs[i].lrpName)
    requires u in before.routes ==> (Managed(after.routes[u]) <==> Managed(before.routes[u]))
    requires OwnPorts(before, gs)
    ensures OwnPorts(after, gs)
  {
    forall j, v | 0 <= j < |gs| && DefaultOn(after, gs[j].routerUuid, v) && Managed(after.routes[v])
      ensures after.routes[v].outputPort == Some(gs[j].lrpName)
    {
      if v != u {
        assert DefaultOn(before, gs[j].routerUuid, v);
      } else if u in before.routes {
        assert DefaultOn(before, gs[i].routerUuid, u) && Owns(before, gs[j].routerUuid, u);
        assert i == j;
      }
    }
  }

  /** Ensuring one router's route keeps the tables sound and the other routers ready. */
  lemma RouteEnsuredKeeps(before: Nb, after: Nb, gs: seq<Gateway>, i: nat, vgw: string, chassis: string, seen: set<string>, u: string,
                          render: Ip -> string, mac: string)
    requires Sound(before) && Apart(gs) && i < |gs| && RouteEnsured(before, after, gs[i], vgw, chassis, seen, u)
    ensures Keeps(before, after, gs, i, render, chassis, mac) && RouteReady(after, gs[i], vgw, chassis, u) && after.bindings == before.bindings
  {
    RouteEnsuredIsSound(before, after, gs[i], vgw, chassis, seen, u);
    forall j | 0 <= j < |gs| && j != i && Ready(before, gs[j], render, chassis, mac) ensures Ready(after, gs[j], render, chassis, mac) {
      ReadyElsewhere(before, after, gs[i].routerUuid, u, gs[j], render, chassis, mac);
    }
    if OwnPorts(before, gs) {
      PortsKept(before, after, gs, i, u);
    }
  }

  lemma RouteEnsuredIsSound(before: Nb, after: Nb, g: Gateway, vgw: string, chassis: string, seen: set<string>, u: string)
    requires Sound(before) && RouteEnsured(before, after, g, vgw, chassis, seen, u)
    ensures Sound(after) && Spares(before, after, chassis) && RouteReady(after, g, vgw, chassis, u)
    ensures OnlyRouteChanged(before, after, g.routerUuid, u)
    ensures u in before.routes && before.routes[u].outputPort == Some(g.lrpName) ==> after.routes[u].outputPort == Some(g.lrpName)
    ensures u !in before.routes ==> after.routes[u].outputPort == Some(g.lrpName)
    ensures u in before.routes ==> (Managed(after.routes[u]) <==> Managed(before.routes[u]))
  {
    assert forall r, v :: Owns(after, r, v) <==> Owns(before, r, v) || (u !in before.routes && r == g.routerUuid && v == u);
    assert after.routes[u].prefix == DEFAULT_PREFIX;
  }

  lemma ReadyAtOtherPort(before: Nb, after: Nb, port: string, ip: string, mac': string, b: string, g: Gateway, render: Ip -> string, chassis: string, mac: string)
    requires BindingEnsured(before, after, port, ip, mac', b) && g.lrpName != port && Ready(before, g, render, chassis, mac)
    ensures Ready(after, g, render, chassis, mac)
  {
    var x, v :| IsGatewayOf(g.networks, x) && RouteReady(before, g, render(x), chassis, v) && BindingReady(before, g.lrpName, render(x), mac);
    var c :| c in before.bindings && before.bindings[c] == MacBinding(g.lrpName, render(x), mac);
    assert c in after.bindings && after.bindings[c] == MacBinding(g.lrpName, render(x), mac);
    assert RouteReady(after, g, render(x), chassis, v);
  }

  lemma BindingEnsuredIsSound(before: Nb, after: Nb, port: string, ip: string, mac: string, b: string, chassis: string)
    requires Sound(before) && BindingEnsured(before, after, port, ip, mac, b)
    ensures Sound(after) && Spares(before, after, chassis) && OthersUntouched(before, after, port) && BindingReady(after, port, ip, mac)
  {
    assert after.bindings[b] == MacBinding(port, ip, mac);
    assert forall r, u :: Owns(after, r, u) <==> Owns(before, r, u);
  }

  lemma BindingEnsuredKeeps(before: Nb, after: Nb, gs: seq<Gateway>, i: nat, vgw: string, chassis: string, b: string,
                            render: Ip -> string, mac: string)
    requires Sound(before) && Apart(gs) && i < |gs| && BindingEnsured(before, after, gs[i].lrpName, vgw, mac, b)
    ensures Keeps(before, after, gs, i, render, chassis, mac) && BindingReady(after, gs[i].lrpName, vgw, mac)
    ensures forall u :: RouteReady(before, gs[i], vgw, chassis, u) ==> RouteReady(after, gs[i], vgw, chassis, u)
  {
    BindingEnsuredIsSound(before, after, gs[i].lrpName, vgw, mac, b, chassis);
    assert forall r, u :: DefaultOn(after, r, u) <==> DefaultOn(before, r, u);
    forall j | 0 <= j < |gs| && j != i && Ready(before, gs[j], render, chassis, mac) ensures Ready(after, gs[j], render, chassis, mac) {
      ReadyAtOtherPort(before, after, gs[i].lrpName, vgw, mac, b, gs[j], render, chassis, mac);
    }
  }

  ghost predicate ForeignRoutesKept(before: Nb, after: Nb) {
    forall u :: u in before.routes && !Managed(before.routes[u]) ==> u in after.routes && after.routes[u] == before.routes[u]
  }

  /** As Ready, but the gateway's MAC binding is promised only next to a managed route. */
  ghost predicate StillReady(nb: Nb, g: Gateway, render: Ip -> string, chassis: string, mac: string) {
    exists vgw, u :: IsGatewayOf(g.networks, vgw) && RouteReady(nb, g, render(vgw), chassis, u)
                     && (Managed(nb.routes[u]) ==> BindingReady(nb, g.lrpName, render(vgw), mac))
  }

  // ---------------------------------------------------------------------------
  // Same-cycle ownership
  // ---------------------------------------------------------------------------

  lemma EnsuredRouteSurvives(mid: Nb, after: Nb, g: Gateway, vgw: string, chassis: string, stale: set<string>, u: string)
    requires RouteReady(mid, g, vgw, chassis, u) && OnlyStaleGone(mid, after, stale) && chassis !in stale
    ensures RouteReady(after, g, vgw, chassis, u) && after.routes[u] == mid.routes[u]
  {
  }

  /** Every binding on the port of a managed route of this chassis survives, not only the gateway's. */
  lemma BindingsOfLivePortSurvive(mid: Nb, after: Nb, chassis: string, stale: set<string>, u: string, port: string, b: string)
    requires OnlyStaleGone(mid, after, stale) && chassis !in stale && chassis != ""
    requires u in mid.routes && Managed(mid.routes[u]) && Owner(mid.routes[u]) == chassis && mid.routes[u].outputPort == Some(port)
    requires b in mid.bindings && mid.bindings[b].logicalPort == port
    ensures b in after.bindings && after.bindings[b] == mid.bindings[b]
  {
  }

  lemma ReadySurvivesCleanup(mid: Nb, after: Nb, gs: seq<Gateway>, i: nat, render: Ip -> string, chassis: string, mac: string, stale: set<string>)
    requires i < |gs| && OwnPorts(mid, gs) && Ready(mid, gs[i], render, chassis, mac)
    requires OnlyStaleGone(mid, after, stale) && chassis !in stale && chassis != ""
    ensures StillReady(after, gs[i], render, chassis, mac)
  {
    var vgw, u :| IsGatewayOf(gs[i].networks, vgw) && RouteReady(mid, gs[i], render(vgw), chassis, u)
                  && BindingReady(mid, gs[i].lrpName, render(vgw), mac);
    EnsuredRouteSurvives(mid, after, gs[i], render(vgw), chassis, stale, u);
    if Managed(mid.routes[u]) {
      var b :| b in mid.bindings && mid.bindings[b] == MacBinding(gs[i].lrpName, render(vgw), mac);
      BindingsOfLivePortSurvive(mid, after, chassis, stale, u, gs[i].lrpName, b);
    }
  }
}
