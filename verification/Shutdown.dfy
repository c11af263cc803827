/**
 The shutdown after a drain: the drain waits until no chassisredirect port is bound
 here, the state is refreshed once more, and only then are northbound rows removed.
 */
module Shutdown {
  import opened Wrappers
  import Ipv4
  import opened OvnTables
  import opened StateDerivation
  import opened StateRefresh
  import opened JoinProofs
  import NorthboundEntries

  type Nb = NorthboundEntries.Nb

  /** Equal under case folding. */
  predicate EqualFold(s: Setup, a: string, b: string) {
    s.fold(a) == s.fold(b)
  }

  predicate BoundHere(b: PortBinding, host: map<string, string>, s: Setup) {
    && IsTrackedGateway(s.gatewayPort, b.kind, b.logicalPort, ChassisText(b))
    && EqualFold(s, Lookup(host, ChassisText(b)), s.localChassis)
  }

  function BoundCount(bindings: seq<PortBinding>, host: map<string, string>, s: Setup): nat {
    if bindings == [] then 0
    else
      var last := |bindings| - 1;
      BoundCount(bindings[..last], host, s) + if BoundHere(bindings[last], host, s) then 1 else 0
  }

  lemma {:induction false} CountIsZeroExactly(bindings: seq<PortBinding>, host: map<string, string>, s: Setup)
    ensures BoundCount(bindings, host, s) == 0 <==> forall b :: b in bindings ==> !BoundHere(b, host, s)
  {
    if bindings != [] {
      var last := |bindings| - 1;
      CountIsZeroExactly(bindings[..last], host, s);
      assert bindings == bindings[..last] + [bindings[last]];
      assert bindings[last] in bindings;
    }
  }

  /** Row i is a gateway port whose chassis row names this host, up to case. */
  ghost predicate BoundByRow(t: Tables, s: Setup, i: int) {
    && 0 <= i < |t.bindings|
    && var b := t.bindings[i];
    && b.kind == "chassisredirect" && ChassisText(b) != "" && (s.gatewayPort == "" || b.logicalPort == s.gatewayPort)
    && exists name :: HostIs(DbOf(t).chassis, ChassisText(b), name) && s.fold(name) == s.fold(s.localChassis)
  }

  lemma BoundHereIsBoundByRow(t: Tables, s: Setup, host: map<string, string>, i: nat)
    requires i < |t.bindings| && WellFormed(DbOf(t), s) && IndexOf(t.chassis, HostEntry, host)
    ensures BoundHere(t.bindings[i], host, s) <==> BoundByRow(t, s, i)
  {
    var ref := ChassisText(t.bindings[i]);
    var x := Indexes(host, map[], map[], map[], map[], {});
    HostIsLookup(t, s, x, ref, Lookup(host, ref));
    if BoundByRow(t, s, i) {
      var name :| HostIs(DbOf(t).chassis, ref, name) && s.fold(name) == s.fold(s.localChassis);
      HostIsLookup(t, s, x, ref, name);
    }
  }

  /** The first n rows that are bound to this host. */
  ghost function BoundRows(t: Tables, s: Setup, n: int): set<int> {
    set i | 0 <= i < n && BoundByRow(t, s, i)
  }

  lemma BoundRowsGrow(t: Tables, s: Setup, n: nat)
    ensures BoundRows(t, s, n + 1) == BoundRows(t, s, n) + (if BoundByRow(t, s, n) then {n} else {}) && n !in BoundRows(t, s, n)
  {
  }

  /** The count is the number of rows bound to this host. */
  lemma CountIsExact(t: Tables, s: Setup, host: map<string, string>)
    requires WellFormed(DbOf(t), s) && IndexOf(t.chassis, HostEntry, host)
    ensures BoundCount(t.bindings, host, s) == |BoundRows(t, s, |t.bindings|)|
  {
    forall i: nat | i < |t.bindings| ensures BoundHere(t.bindings[i], host, s) <==> BoundByRow(t, s, i) {
      BoundHereIsBoundByRow(t, s, host, i);
    }
    CountAddsUp(t, s, host, |t.bindings|);
    assert t.bindings[..|t.bindings|] == t.bindings;
  }

  lemma {:induction false} CountAddsUp(t: Tables, s: Setup, host: map<string, string>, n: nat)
    requires n <= |t.bindings| && forall i: nat :: i < |t.bindings| ==> (BoundHere(t.bindings[i], host, s) <==> BoundByRow(t, s, i))
    ensures BoundCount(t.bindings[..n], host, s) == |BoundRows(t, s, n)|
  {
    if n == 0 {
      assert BoundRows(t, s, 0) == {};
    } else {
      CountAddsUp(t, s, host, n - 1);
      CountStep(t, s, host, n - 1);
      BoundRowsGrow(t, s, n - 1);
    }
  }

  lemma CountStep(t: Tables, s: Setup, host: map<string, string>, n: nat)
    requires n < |t.bindings|
    ensures BoundCount(t.bindings[..n + 1], host, s) == BoundCount(t.bindings[..n], host, s) + if BoundHere(t.bindings[n], host, s) then 1 else 0
  {
    assert t.bindings[..n + 1][..n] == t.bindings[..n] && t.bindings[..n + 1][n] == t.bindings[n];
  }

  method CountLocalCrPorts(t: Tables, s: Setup) returns (count: nat, host: map<string, string>)
    ensures IndexOf(t.chassis, HostEntry, host)
    ensures count == BoundCount(t.bindings, host, s)
    ensures WellFormed(DbOf(t), s) ==> count == |BoundRows(t, s, |t.bindings|)|
  {
    var all;
    host, all := HostNames(t.chassis);
    count := 0;
    for i := 0 to |t.bindings|
      invariant count == BoundCount(t.bindings[..i], host, s)
    {
      var b := t.bindings[i];
      assert t.bindings[..i + 1][..i] == t.bindings[..i];
      if b.kind != CHASSISREDIRECT || b.chassis.None? || b.chassis.value == "" {
        continue;
      }
      if s.gatewayPort != "" && b.logicalPort != s.gatewayPort {
        continue;
      }
      if EqualFold(s, Lookup(host, b.chassis.value), s.localChassis) {
        count := count + 1;
      }
    }
    assert t.bindings[..|t.bindings|] == t.bindings;
    if WellFormed(DbOf(t), s) {
      CountIsExact(t, s, host);
    }
  }

  /** A count of zero leaves the next refresh of the same rows without local routers, whichever spelling the count forgave. */
  lemma NothingBoundNothingLocal(t: Tables, s: Setup, host: map<string, string>, v: OvnState)
    requires WellFormed(DbOf(t), s) && IndexOf(t.chassis, HostEntry, host)
    requires BoundCount(t.bindings, host, s) == 0 && Refines(DbOf(t), s, v)
    ensures v.localRouters == []
  {
    CountIsZeroExactly(t.bindings, host, s);
    var x := Indexes(host, map[], map[], map[], map[], {});
    forall a ensures !LocalGateway(DbOf(t), s, a) {
      if LocalGateway(DbOf(t), s, a) {
        var b :| b in t.bindings && AbsPortBinding(b) == a;
        HostIsLookup(t, s, x, ChassisText(b), s.localChassis);
      }
    }
    assert forall i, r, p, b :: !InfoOf(DbOf(t), s, i, r, p, b);
    assert v.localRouters != [] ==> AbsInfo(v.localRouters[0]) in Abs(v.localRouters, AbsInfo);
  }

  function GatewaysOf(infos: seq<LocalRouterInfo>, parse: string -> Ipv4.CidrText): (gs: seq<NorthboundEntries.Gateway>)
    ensures |gs| == |infos|
  {
    seq(|infos|, i requires 0 <= i < |infos| =>
      var info := infos[i];
      NorthboundEntries.Gateway(info.routerUuid, info.lrpName, seq(|info.lrpNetworks|, j requires 0 <= j < |info.lrpNetworks| => parse(info.lrpNetworks[j]))))
  }

  function RouterUuids(infos: seq<LocalRouterInfo>): set<string> {
    set i | i in infos :: i.routerUuid
  }

  function LrpNames(infos: seq<LocalRouterInfo>): set<string> {
    set i | i in infos :: i.lrpName
  }

  lemma GatewaysAreInfos(infos: seq<LocalRouterInfo>, parse: string -> Ipv4.CidrText)
    ensures NorthboundEntries.RoutersOf(GatewaysOf(infos, parse)) == RouterUuids(infos)
    ensures NorthboundEntries.PortsOf(GatewaysOf(infos, parse)) == LrpNames(infos)
  {
    var gs := GatewaysOf(infos, parse);
    forall i | i in infos ensures exists g :: g in gs && g.routerUuid == i.routerUuid && g.lrpName == i.lrpName {
      var k :| 0 <= k < |infos| && infos[k] == i;
      assert gs[k] in gs;
    }
    forall g | g in gs ensures exists i :: i in infos && g.routerUuid == i.routerUuid && g.lrpName == i.lrpName {
      var k :| 0 <= k < |gs| && gs[k] == g;
      assert infos[k] in infos;
    }
  }

  /** Only managed routes of the given local routers and bindings on their ports may go; nothing changes or comes. */
  ghost predicate OthersStay(before: Nb, after: Nb, infos: seq<LocalRouterInfo>) {
    && (forall u :: u in after.routes ==> u in before.routes && after.routes[u] == before.routes[u])
    && (forall u :: u in before.routes && !NorthboundEntries.LocalManaged(before, RouterUuids(infos), u) ==> u in after.routes)
    && (forall b :: b in after.bindings ==> b in before.bindings && after.bindings[b] == before.bindings[b])
    && (forall b :: b in before.bindings && before.bindings[b].logicalPort !in LrpNames(infos) ==> b in after.bindings)
  }

  ghost predicate OwnAreGone(before: Nb, after: Nb, infos: seq<LocalRouterInfo>) {
    && (forall u :: NorthboundEntries.LocalManaged(before, RouterUuids(infos), u) ==> u !in after.routes)
    && (forall b :: b in before.bindings && before.bindings[b].logicalPort in LrpNames(infos) ==> b !in after.bindings)
  }

  lemma LeavesOthersStays(before: Nb, after: Nb, infos: seq<LocalRouterInfo>, parse: string -> Ipv4.CidrText)
    requires NorthboundEntries.LeavesOthers(before, after, GatewaysOf(infos, parse))
    ensures OthersStay(before, after, infos)
    ensures NorthboundEntries.RemovesAll(before, after, GatewaysOf(infos, parse)) ==> OwnAreGone(before, after, infos)
  {
    GatewaysAreInfos(infos, parse);
    var routes, bindings :| NorthboundEntries.Pruned(before, after, routes, bindings)
                            && NorthboundEntries.LocalOnly(before, GatewaysOf(infos, parse), routes, bindings);
  }

  /** The end of the shutdown arm: the last count of the drain, the refresh, the northbound cleanup. */
  method DrainedShutdown(client: OvnClient, north: NorthboundEntries.OvnNorthbound, t: Tables, parse: string -> Ipv4.CidrText, routesRead: bool, bindingsRead: bool)
    returns (count: nat)
    modifies client, north
    ensures WellFormed(DbOf(t), client.setup) && count == 0 ==> north.nb == old(north.nb) && north.writes == old(north.writes)
    ensures WellFormed(DbOf(t), client.setup) && count == 0 ==> client.state.localRouters == []
    ensures WellFormed(DbOf(t), client.setup) ==> Refines(DbOf(t), client.setup, client.state)
    ensures WellFormed(DbOf(t), client.setup) ==> count == |BoundRows(t, client.setup, |t.bindings|)|
    ensures NorthboundEntries.LeavesOthers(old(north.nb), north.nb, GatewaysOf(client.state.localRouters, parse))
    ensures OthersStay(old(north.nb), north.nb, client.state.localRouters)
    ensures routesRead && bindingsRead && north.failures == old(north.failures)
            ==> OwnAreGone(old(north.nb), north.nb, client.state.localRouters)
  {
    var host;
    count, host := CountLocalCrPorts(t, client.setup);
    client.RefreshState(Some(t.bindings), Some(t.chassis), Some(t.ports), Some(t.routers), Some(t.nats));
    if WellFormed(DbOf(t), client.setup) && count == 0 {
      NothingBoundNothingLocal(t, client.setup, host, client.state);
    }
    var ok, failed := north.RemoveManagedNBEntries(GatewaysOf(client.state.localRouters, parse), routesRead, bindingsRead);
    LeavesOthersStays(old(north.nb), north.nb, client.state.localRouters, parse);
  }

  // ---------------------------------------------------------------------------
  // The server read that guards a boost
  // ---------------------------------------------------------------------------

  function BoundEntry(host: map<string, string>): (PortBinding, string, string) -> bool {
    (b: PortBinding, port: string, where': string) =>
      b.kind == CHASSISREDIRECT && ChassisText(b) != "" && b.logicalPort == port && Lookup(host, ChassisText(b)) == where'
  }

  method SelectCrPortChassis(t: Tables) returns (bound: map<string, string>, host: map<string, string>)
    ensures IndexOf(t.chassis, HostEntry, host)
    ensures IndexOf(t.bindings, BoundEntry(host), bound)
  {
    var all;
    host, all := HostNames(t.chassis);
    bound := map[];
    for i := 0 to |t.bindings|
      invariant IndexOf(t.bindings[..i], BoundEntry(host), bound)
    {
      var b := t.bindings[i];
      assert t.bindings[..i + 1] == t.bindings[..i] + [b];
      ghost var before := bound;
      if b.kind == CHASSISREDIRECT && b.chassis.Some? && b.chassis.value != "" {
        bound := bound[b.logicalPort := Lookup(host, b.chassis.value)];
        assert ChassisText(b) == b.chassis.value;
        assert bound[b.logicalPort] == Lookup(host, ChassisText(b));
        assert BoundEntry(host)(b, b.logicalPort, bound[b.logicalPort]);
      } else {
        assert b.kind != CHASSISREDIRECT || ChassisText(b) == "";
      }
      IndexStep(map[], t.bindings[..i], b, BoundEntry(host), before, bound);
    }
    assert t.bindings[..|t.bindings|] == t.bindings;
  }

  /**
   Every port a refresh of the same rows takes for local is bound here by the server
   read as well, so with fresh state the boost's check never refuses.
   */
  lemma LocalPortIsBoundHere(t: Tables, s: Setup, host: map<string, string>, bound: map<string, string>, v: OvnState, i: LocalRouterInfo)
    requires WellFormed(DbOf(t), s) && IndexOf(t.chassis, HostEntry, host) && IndexOf(t.bindings, BoundEntry(host), bound)
    requires forall b, c :: b in t.bindings && c in t.bindings && b.logicalPort == c.logicalPort ==> b == c
    requires Refines(DbOf(t), s, v) && i in v.localRouters
    ensures i.crPort in bound && bound[i.crPort] == s.localChassis
  {
    assert AbsInfo(i) in Abs(v.localRouters, AbsInfo);
    var r, p, a :| InfoOf(DbOf(t), s, AbsInfo(i), r, p, a);
    LocalGatewayIsBound(t, s, host, bound, a);
  }

  lemma LocalGatewayIsBound(t: Tables, s: Setup, host: map<string, string>, bound: map<string, string>, a: PortBindingA)
    requires WellFormed(DbOf(t), s) && IndexOf(t.chassis, HostEntry, host) && IndexOf(t.bindings, BoundEntry(host), bound)
    requires forall b, c :: b in t.bindings && c in t.bindings && b.logicalPort == c.logicalPort ==> b == c
    requires LocalGateway(DbOf(t), s, a)
    ensures a.logicalPort in bound && bound[a.logicalPort] == s.localChassis
  {
    var b :| b in t.bindings && AbsPortBinding(b) == a;
    var x := Indexes(host, map[], map[], map[], map[], {});
    HostIsLookup(t, s, x, ChassisText(b), s.localChassis);
    var entry := BoundEntry(host);
    assert entry(b, a.logicalPort, s.localChassis);
    assert Carries(t.bindings, entry, a.logicalPort, s.localChassis);
    var c :| c in t.bindings && entry(c, a.logicalPort, bound[a.logicalPort]);
    assert c == b;
  }
}
