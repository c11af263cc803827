/**
 Who owns a northbound row, and what the ensures and the cleanups of several
 chassis do to each other's rows.
 */
module NorthboundOwnership {
  import opened Wrappers
  import Ipv4
  import opened NorthboundEntries

  /** After a cleanup without failures a binding is gone exactly when a stale route condemned it and its port is not live. */
  lemma BindingLostExactly(mid: Nb, after: Nb, stale: set<string>, b: string)
    requires OnlyStaleGone(mid, after, stale) && AllStaleGone(mid, after, stale) && b in mid.bindings
    ensures b !in after.bindings
            <==> !LivePort(mid, stale, mid.bindings[b].logicalPort)
                 && exists u :: StaleRoute(mid, stale, u) && mid.routes[u].outputPort == Some(mid.bindings[b].logicalPort)
                                && mid.routes[u].nexthop == mid.bindings[b].ip
  {
  }

  /**
   Next to a default route of somebody else the ensure adds no managed route, so a dead
   chassis's leftover for the same gateway takes the binding just ensured with it.
   */
  lemma ForeignDefaultLosesBinding(g: Gateway, render: Ipv4.Ip -> string, chassis: string, mac: string, dead: string, vgw: Ipv4.Ip)
    returns (mid: Nb, stale: set<string>, after: Nb)
    requires IsGatewayOf(g.networks, vgw) && dead != "" && dead != chassis
    ensures Sound(mid) && OwnPorts(mid, [g]) && chassis !in stale
    ensures Ready(mid, g, render, chassis, mac)
    ensures OnlyStaleGone(mid, after, stale) && AllStaleGone(mid, after, stale)
    ensures !BindingReady(after, g.lrpName, render(vgw), mac)
  {
    var foreign := StaticRoute(DEFAULT_PREFIX, "", None, map[]);
    var leftover := NewRoute(g.lrpName, render(vgw), dead);
    var f, l, b := "f", "l", "b";
    mid := Nb(map[f := foreign, l := leftover], map[g.routerUuid := RouterRow("", {f, l})], map[b := MacBinding(g.lrpName, render(vgw), mac)]);
    stale := {dead};
    assert DefaultOn(mid, g.routerUuid, f) && !Managed(mid.routes[f]);
    assert RouteReady(mid, g, render(vgw), chassis, f);
    assert b in mid.bindings;
    assert BindingReady(mid, g.lrpName, render(vgw), mac);
    assert Owns(mid, g.routerUuid, l) && StaleRoute(mid, stale, l);
    assert !LivePort(mid, stale, g.lrpName);
    assert StaleBinding(mid, stale, b);
    after := Nb(map[f := foreign], map[g.routerUuid := RouterRow("", {f})], map[]);
    assert Pruned(mid, after, {l}, {b}) && StaleOnly(mid, stale, {l}, {b});
  }

  // ---------------------------------------------------------------------------
  // Repetition and failover
  // ---------------------------------------------------------------------------

  /** Whichever visible default route is listed first, an ensure writes nothing. */
  ghost predicate EnsureIsQuiet(nb: Nb, g: Gateway, vgw: string, chassis: string, seen: set<string>) {
    forall after, u :: RouteEnsured(nb, after, g, vgw, chassis, seen, u) ==> after == nb
  }

  /**
   An ensure writes nothing under every listing order if and only if its router is not in view, or there is a
   visible default route and every visible one is settled.
   */
  lemma QuietExactly(nb: Nb, g: Gateway, vgw: string, chassis: string, seen: set<string>, unused: string)
    requires unused !in nb.routes
    ensures EnsureIsQuiet(nb, g, vgw, chassis, seen) <==> !InView(nb, g.routerUuid, seen) || RouteQuiet(nb, g, vgw, chassis, seen)
  {
    if !InView(nb, g.routerUuid, seen) {
    } else if RouteQuiet(nb, g, vgw, chassis, seen) {
      forall after, u | RouteEnsured(nb, after, g, vgw, chassis, seen, u) ensures after == nb {
        assert nb.routes == nb.routes[u := nb.routes[u]];
      }
    } else if v :| v in seen && DefaultOn(nb, g.routerUuid, v) && !SettledRoute(nb.routes[v], vgw, chassis) {
      var after := nb.(routes := nb.routes[v := Claimed(nb.routes[v], g.lrpName, vgw, chassis)]);
      assert RouteEnsured(nb, after, g, vgw, chassis, seen, v);
      assert SettledRoute(after.routes[v], vgw, chassis);
    } else {
      var row := nb.routers[g.routerUuid];
      var after := nb.(routes := nb.routes[unused := NewRoute(g.lrpName, vgw, chassis)],
                       routers := nb.routers[g.routerUuid := row.(staticRoutes := row.staticRoutes + {unused})]);
      assert RouteEnsured(nb, after, g, vgw, chassis, seen, unused);
      assert unused in after.routes;
    }
  }

  /**
   After an ensure whose route and router the cache shows, a further one writes nothing under every listing order if and
   only if every other visible default route of the router is settled. So one default route is enough.
   */
  lemma RepeatedEnsureChangesNothing(a: Nb, b: Nb, g: Gateway, vgw: string, chassis: string, seen: set<string>, u: string, seen': set<string>, unused: string)
    requires Sound(a) && RouteEnsured(a, b, g, vgw, chassis, seen, u)
    requires u in seen' && g.routerUuid in seen' && unused !in b.routes
    ensures EnsureIsQuiet(b, g, vgw, chassis, seen')
            <==> forall v :: v in seen' && v != u && DefaultOn(a, g.routerUuid, v) ==> SettledRoute(a.routes[v], vgw, chassis)
  {
    RouteEnsuredIsSound(a, b, g, vgw, chassis, seen, u);
    assert g.routerUuid in b.routers && DefaultOn(b, g.routerUuid, u);
    QuietExactly(b, g, vgw, chassis, seen', unused);
    assert forall v :: v != u ==> (DefaultOn(b, g.routerUuid, v) <==> DefaultOn(a, g.routerUuid, v)) by {
      forall v | v != u ensures DefaultOn(b, g.routerUuid, v) <==> DefaultOn(a, g.routerUuid, v) {
        assert Owns(b, g.routerUuid, v) <==> Owns(a, g.routerUuid, v);
      }
    }
  }

  lemma RepeatedBindingChangesNothing(a: Nb, b: Nb, c: Nb, port: string, ip: string, mac: string, x: string, y: string)
    requires Sound(b) && BindingEnsured(a, b, port, ip, mac, x) && BindingEnsured(b, c, port, ip, mac, y)
    ensures c == b
  {
    assert b.bindings[x] == MacBinding(port, ip, mac);
    assert y == x;
    assert b.bindings == b.bindings[x := b.bindings[x]];
  }

  /** A second default route appears exactly when the cache hides every one the router has. */
  lemma DuplicateExactlyWhenHidden(a: Nb, b: Nb, g: Gateway, vgw: string, chassis: string, seen: set<string>, u: string)
    requires Sound(a) && RouteEnsured(a, b, g, vgw, chassis, seen, u)
    ensures u !in a.routes <==> forall v :: DefaultOn(a, g.routerUuid, v) ==> v !in seen
    ensures u !in a.routes ==> forall v :: DefaultOn(b, g.routerUuid, v) <==> DefaultOn(a, g.routerUuid, v) || v == u
    ensures u in a.routes ==> forall v :: DefaultOn(b, g.routerUuid, v) <==> DefaultOn(a, g.routerUuid, v)
  {
  }

  /** The same subnet gives the takeover chassis the same gateway, so it only retags the managed route. */
  lemma FailoverOnlyRetags(a: Nb, b: Nb, g: Gateway, g': Gateway, render: Ipv4.Ip -> string, x: Ipv4.Ip, y: Ipv4.Ip, chassis: string, seen: set<string>, u: string, i: nat, j: nat)
    requires u in a.routes && Managed(a.routes[u]) && a.routes[u].nexthop == render(x)
    requires Ipv4.FirstUsable(g.networks, i) && Ipv4.IsLastUsable(Ipv4.SubnetOf(g.networks[i]), x)
    requires Ipv4.FirstUsable(g'.networks, j) && Ipv4.IsLastUsable(Ipv4.SubnetOf(g'.networks[j]), y)
    requires g.networks[i].prefix == g'.networks[j].prefix && Ipv4.Contains(Ipv4.SubnetOf(g.networks[i]), g'.networks[j].ip)
    requires RouteEnsured(a, b, g', render(y), chassis, seen, u)
    ensures Owner(b.routes[u]) == chassis
    ensures b.routes[u] == a.routes[u].(externalIds := b.routes[u].externalIds)
    ensures b.routers == a.routers && b.routes - {u} == a.routes - {u}
  {
    Ipv4.LastUsableUnique(Ipv4.SubnetOf(g.networks[i]), Ipv4.SubnetOf(g'.networks[j]), x, y);
  }

  /** Outside the local routers and ports a shutdown cleanup changes nothing, and it deletes only managed routes. */
  lemma ShutdownLeavesOthers(before: Nb, after: Nb, gs: seq<Gateway>)
    requires LeavesOthers(before, after, gs)
    ensures forall u :: u in before.routes && (!Managed(before.routes[u]) || !OnLocalRouter(before, RoutersOf(gs), u))
                        ==> u in after.routes && after.routes[u] == before.routes[u]
    ensures forall b :: b in before.bindings && (forall g :: g in gs ==> g.lrpName != before.bindings[b].logicalPort)
                        ==> b in after.bindings && after.bindings[b] == before.bindings[b]
    ensures forall r :: r in before.routers && (forall g :: g in gs ==> g.routerUuid != r) && Sound(before)
                        ==> after.routers[r] == before.routers[r]
  {
    var routes, bindings :| Pruned(before, after, routes, bindings) && LocalOnly(before, gs, routes, bindings);
    forall r | r in before.routers && (forall g :: g in gs ==> g.routerUuid != r) && Sound(before)
      ensures after.routers[r] == before.routers[r]
    {
      forall u ensures u in after.routers[r].staticRoutes <==> u in before.routers[r].staticRoutes {
        assert Owns(after, r, u) ==> Owns(before, r, u);
        assert Owns(before, r, u) ==> u !in routes;
      }
    }
  }
}
