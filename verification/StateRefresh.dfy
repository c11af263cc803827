/**
 How a refresh computes the join: it reads each table once and builds hash maps
 from one table to the next. Each map is specified by the rows it was built from.
 */
module StateRefresh {
  import opened Wrappers
  import opened ContentKeys
  import opened Networks
  import opened OvnTables
  import opened StateDerivation

  // ---------------------------------------------------------------------------
  // Maps built from rows
  // ---------------------------------------------------------------------------

  /** Some row carries this key and this value. */
  ghost predicate Carries<T(!new), V>(rows: seq<T>, entry: (T, string, V) -> bool, key: string, v: V) {
    exists r :: r in rows && entry(r, key, v)
  }

  /** m adds to base exactly the keys that rows carry, each with a value carried for it. */
  ghost predicate Extends<T(!new), V(!new)>(base: map<string, V>, rows: seq<T>, entry: (T, string, V) -> bool, m: map<string, V>) {
    && (forall key :: key in base ==> key in m)
    && (forall key, v :: Carries(rows, entry, key, v) ==> key in m)
    && (forall key :: key in m ==> Carries(rows, entry, key, m[key]) || (key in base && m[key] == base[key]))
  }

  ghost predicate IndexOf<T(!new), V(!new)>(rows: seq<T>, entry: (T, string, V) -> bool, m: map<string, V>) {
    Extends(map[], rows, entry, m)
  }

  lemma CarriesLater<T(!new), V>(rows: seq<T>, r: T, entry: (T, string, V) -> bool, key: string, v: V)
    ensures Carries(rows + [r], entry, key, v) <==> Carries(rows, entry, key, v) || entry(r, key, v)
  {
  }

  /** One more row overwrites exactly the keys it carries. */
  lemma IndexStep<T(!new), V(!new)>(base: map<string, V>, rows: seq<T>, r: T, entry: (T, string, V) -> bool, m: map<string, V>, m': map<string, V>)
    requires Extends(base, rows, entry, m)
    requires forall key, v :: entry(r, key, v) ==> key in m'
    requires forall key :: key in m ==> key in m'
    requires forall key :: key in m' ==> entry(r, key, m'[key]) || (key in m && m'[key] == m[key])
    ensures Extends(base, rows + [r], entry, m')
  {
    forall key, v | Carries(rows + [r], entry, key, v) ensures key in m' {
      CarriesLater(rows, r, entry, key, v);
    }
    forall key | key in m' ensures Carries(rows + [r], entry, key, m'[key]) || (key in base && m'[key] == base[key]) {
      CarriesLater(rows, r, entry, key, m'[key]);
    }
  }

  function HostEntry(c: Chassis, ref: string, host: string): bool {
    RefersTo(c, ref) && c.hostname == host
  }

  method HostNames(chassis: seq<Chassis>) returns (host: map<string, string>, all: set<string>)
    ensures IndexOf(chassis, HostEntry, host)
    ensures all == set c | c in chassis :: c.hostname
  {
    host, all := map[], {};
    for i := 0 to |chassis|
      invariant IndexOf(chassis[..i], HostEntry, host)
      invariant all == set c | c in chassis[..i] :: c.hostname
    {
      var c := chassis[i];
      assert chassis[..i + 1] == chassis[..i] + [c];
      ghost var before := host;
      host := host[c.uuid := c.hostname];
      host := host[c.name := c.hostname];
      IndexStep(map[], chassis[..i], c, HostEntry, before, host);
      all := all + {c.hostname};
    }
    assert chassis[..|chassis|] == chassis;
  }

  /** The row as the refresh tests it, with chassis references already indexed. */
  predicate LocalRow(b: PortBinding, host: map<string, string>, s: Setup) {
    && IsTrackedGateway(s.gatewayPort, b.kind, b.logicalPort, ChassisText(b))
    && Lookup(host, ChassisText(b)) == s.localChassis
  }

  function LrpEntry(host: map<string, string>, s: Setup): (PortBinding, string, string) -> bool {
    (b: PortBinding, name: string, port: string) => LocalRow(b, host, s) && LrpNameOf(b.logicalPort) == name && b.logicalPort == port
  }

  method LocalLrps(bindings: seq<PortBinding>, host: map<string, string>, s: Setup) returns (lrps: map<string, string>)
    ensures IndexOf(bindings, LrpEntry(host, s), lrps)
  {
    lrps := map[];
    for i := 0 to |bindings|
      invariant IndexOf(bindings[..i], LrpEntry(host, s), lrps)
    {
      var b := bindings[i];
      assert bindings[..i + 1] == bindings[..i] + [b];
      ghost var before := lrps;
      if b.kind != CHASSISREDIRECT || b.chassis.None? || b.chassis.value == "" {
        IndexStep(map[], bindings[..i], b, LrpEntry(host, s), before, lrps);
        continue;
      }
      if s.gatewayPort != "" && b.logicalPort != s.gatewayPort {
        IndexStep(map[], bindings[..i], b, LrpEntry(host, s), before, lrps);
        continue;
      }
      assert LocalRow(b, host, s) <==> Lookup(host, b.chassis.value) == s.localChassis;
      if Lookup(host, b.chassis.value) == s.localChassis {
        assert LrpEntry(host, s)(b, LrpNameOf(b.logicalPort), b.logicalPort);
        lrps := lrps[LrpNameOf(b.logicalPort) := b.logicalPort];
      }
      IndexStep(map[], bindings[..i], b, LrpEntry(host, s), before, lrps);
    }
    assert bindings[..|bindings|] == bindings;
  }

  predicate UuidEntry(p: RouterPort, name: string, uuid: string) { p.name == name && p.uuid == uuid }

  predicate RowEntry(p: RouterPort, uuid: string, row: RouterPort) { p.uuid == uuid && p == row }

  predicate MacEntry(p: RouterPort, name: string, mac: string) { p.name == name && p.mac == mac }

  method IndexPorts(ports: seq<RouterPort>)
    returns (uuidOf: map<string, string>, byUuid: map<string, RouterPort>, macOf: map<string, string>)
    ensures IndexOf(ports, UuidEntry, uuidOf)
    ensures IndexOf(ports, RowEntry, byUuid)
    ensures IndexOf(ports, MacEntry, macOf)
  {
    uuidOf, byUuid, macOf := map[], map[], map[];
    for i := 0 to |ports|
      invariant IndexOf(ports[..i], UuidEntry, uuidOf)
      invariant IndexOf(ports[..i], RowEntry, byUuid)
      invariant IndexOf(ports[..i], MacEntry, macOf)
    {
      var p := ports[i];
      ghost var uuidOf0, byUuid0, macOf0 := uuidOf, byUuid, macOf;
      assert ports[..i + 1] == ports[..i] + [p];
      uuidOf := uuidOf[p.name := p.uuid];
      byUuid := byUuid[p.uuid := p];
      macOf := macOf[p.name := p.mac];
      IndexStep(map[], ports[..i], p, UuidEntry, uuidOf0, uuidOf);
      IndexStep(map[], ports[..i], p, RowEntry, byUuid0, byUuid);
      IndexStep(map[], ports[..i], p, MacEntry, macOf0, macOf);
    }
    assert ports[..|ports|] == ports;
  }

  method LocalPortUuids(lrps: map<string, string>, uuidOf: map<string, string>) returns (local: set<string>)
    ensures local == set n | n in lrps && n in uuidOf :: uuidOf[n]
  {
    local := {};
    var todo := lrps.Keys;
    while todo != {}
      invariant todo <= lrps.Keys
      invariant local == set n | n in lrps && n !in todo && n in uuidOf :: uuidOf[n]
      decreases todo
    {
      var n :| n in todo;
      if n in uuidOf {
        local := local + {uuidOf[n]};
      }
      todo := todo - {n};
    }
  }

  ghost predicate FirstAt(ports: seq<string>, local: set<string>, i: int) {
    0 <= i < |ports| && ports[i] in local && forall j :: 0 <= j < i ==> ports[j] !in local
  }

  /** The first port of a router that is active here. */
  function FirstLocal(ports: seq<string>, local: set<string>): (u: Option<string>)
    ensures u.Some? ==> u.value in ports && u.value in local
    ensures u.Some? ==> exists i :: FirstAt(ports, local, i) && ports[i] == u.value
    ensures u.None? ==> forall p :: p in ports ==> p !in local
  {
    if ports == [] then None
    else if ports[0] in local then
      assert FirstAt(ports, local, 0);
      Some(ports[0])
    else
      assert forall i :: FirstAt(ports[1..], local, i) ==> FirstAt(ports, local, i + 1) && ports[i + 1] == ports[1..][i];
      FirstLocal(ports[1..], local)
  }

  method MatchPort(ports: seq<string>, local: set<string>) returns (u: Option<string>)
    ensures u == FirstLocal(ports, local)
  {
    for i := 0 to |ports|
      invariant FirstLocal(ports, local) == FirstLocal(ports[i..], local)
    {
      if ports[i] in local {
        return Some(ports[i]);
      }
    }
    return None;
  }

  function InfoFor(r: Router, p: RouterPort, lrps: map<string, string>): LocalRouterInfo {
    LocalRouterInfo(r.name, r.uuid, p.name, p.uuid, p.mac, p.networks, Lookup(lrps, p.name))
  }

  ghost predicate Matches(r: Router, p: RouterPort, local: set<string>, byUuid: map<string, RouterPort>) {
    var u := FirstLocal(r.ports, local);
    u.Some? && u.value in byUuid && byUuid[u.value] == p
  }

  ghost predicate HasInfo(routers: seq<Router>, local: set<string>, byUuid: map<string, RouterPort>, lrps: map<string, string>, info: LocalRouterInfo) {
    exists r, p :: r in routers && Matches(r, p, local, byUuid) && info == InfoFor(r, p, lrps)
  }

  ghost function NatEntry(local: set<string>, byUuid: map<string, RouterPort>): (Router, string, string) -> bool {
    (r: Router, nat': string, mac: string) => mac != "" && nat' in r.nats && exists p :: Matches(r, p, local, byUuid) && p.mac == mac
  }

  method FindLocalRouters(routers: seq<Router>, local: set<string>, byUuid: map<string, RouterPort>, lrps: map<string, string>)
    returns (infos: seq<LocalRouterInfo>, natMac: map<string, string>)
    requires local <= byUuid.Keys
    ensures forall i :: i in infos <==> HasInfo(routers, local, byUuid, lrps, i)
    ensures IndexOf(routers, NatEntry(local, byUuid), natMac)
  {
    infos, natMac := [], map[];
    for i := 0 to |routers|
      invariant forall i' :: i' in infos <==> HasInfo(routers[..i], local, byUuid, lrps, i')
      invariant IndexOf(routers[..i], NatEntry(local, byUuid), natMac)
    {
      var r := routers[i];
      assert routers[..i + 1] == routers[..i] + [r];
      InfoStep(routers[..i], r, local, byUuid, lrps);
      var matched := MatchPort(r.ports, local);
      if matched.None? {
        IndexStep(map[], routers[..i], r, NatEntry(local, byUuid), natMac, natMac);
        continue;
      }
      var lrp := byUuid[matched.value];
      ghost var natMac0 := natMac;
      infos := infos + [InfoFor(r, lrp, lrps)];
      for j := 0 to |r.nats|
        invariant natMac.Keys == natMac0.Keys + if lrp.mac == "" then {} else set u | u in r.nats[..j]
        invariant forall u :: u in natMac ==> natMac[u] == if lrp.mac != "" && u in r.nats[..j] then lrp.mac else natMac0[u]
      {
        assert r.nats[..j + 1] == r.nats[..j] + [r.nats[j]];
        if lrp.mac != "" {
          natMac := natMac[r.nats[j] := lrp.mac];
        }
      }
      assert r.nats[..|r.nats|] == r.nats;
      assert Matches(r, lrp, local, byUuid);
      IndexStep(map[], routers[..i], r, NatEntry(local, byUuid), natMac0, natMac);
    }
    assert routers[..|routers|] == routers;
  }

  lemma InfoStep(before: seq<Router>, r: Router, local: set<string>, byUuid: map<string, RouterPort>, lrps: map<string, string>)
    requires local <= byUuid.Keys
    ensures forall i :: HasInfo(before + [r], local, byUuid, lrps, i)
                        <==> HasInfo(before, local, byUuid, lrps, i)
                             || (FirstLocal(r.ports, local).Some? && i == InfoFor(r, byUuid[FirstLocal(r.ports, local).value], lrps))
  {
  }

  // ---------------------------------------------------------------------------
  // Addresses
  // ---------------------------------------------------------------------------

  ghost predicate DiscoveredIn(infos: seq<LocalRouterInfo>, s: Setup, n: Network) {
    exists i, text :: i in infos && text in i.lrpNetworks && s.parseCidr(text) == Some(n)
  }

  method DiscoverNetworks(infos: seq<LocalRouterInfo>, s: Setup) returns (nets: seq<Network>)
    ensures forall n :: n in nets <==> DiscoveredIn(infos, s, n)
  {
    nets := [];
    for i := 0 to |infos|
      invariant forall n :: n in nets <==> DiscoveredIn(infos[..i], s, n)
    {
      var info := infos[i];
      assert infos[..i + 1] == infos[..i] + [info];
      ghost var nets0 := nets;
      for j := 0 to |info.lrpNetworks|
        invariant forall n :: n in nets <==> n in nets0 || exists text :: text in info.lrpNetworks[..j] && s.parseCidr(text) == Some(n)
      {
        var text := info.lrpNetworks[j];
        assert info.lrpNetworks[..j + 1] == info.lrpNetworks[..j] + [text];
        ghost var nets1 := nets;
        var cidr := s.parseCidr(text);
        if cidr.Some? {
          nets := nets + [cidr.value];
        }
        assert forall n :: n in nets <==> n in nets1 || s.parseCidr(text) == Some(n);
      }
      assert info.lrpNetworks[..|info.lrpNetworks|] == info.lrpNetworks;
      DiscoveredStep(infos[..i], info, s);
    }
    assert infos[..|infos|] == infos;
  }

  lemma DiscoveredStep(before: seq<LocalRouterInfo>, info: LocalRouterInfo, s: Setup)
    ensures forall n :: DiscoveredIn(before + [info], s, n)
                        <==> DiscoveredIn(before, s, n) || exists text :: text in info.lrpNetworks && s.parseCidr(text) == Some(n)
  {
  }

  /** A network takes its place in a list sorted by text. */
  function InsertNetwork(n: Network, sorted: seq<Network>): (r: seq<Network>)
    ensures multiset(r) == multiset(sorted) + multiset{n}
  {
    if sorted == [] then [n]
    else if Below(NetworkText(n), NetworkText(sorted[0])) then [n] + sorted
    else
      assert sorted == [sorted[0]] + sorted[1..];
      [sorted[0]] + InsertNetwork(n, sorted[1..])
  }

  /** Sorting by text: the texts end up as sort.Strings leaves them. */
  function SortNetworks(nets: seq<Network>): (r: seq<Network>)
    ensures multiset(r) == multiset(nets)
  {
    if nets == [] then []
    else
      assert nets == [nets[0]] + nets[1..];
      InsertNetwork(nets[0], SortNetworks(nets[1..]))
  }

  lemma TextsOfCons(n: Network, nets: seq<Network>)
    ensures NetworkTexts([n] + nets) == [NetworkText(n)] + NetworkTexts(nets)
  {
  }

  lemma {:induction false} InsertNetworkInsertsText(n: Network, sorted: seq<Network>)
    ensures NetworkTexts(InsertNetwork(n, sorted)) == Insert(NetworkText(n), NetworkTexts(sorted))
  {
    if sorted != [] {
      var first, rest := sorted[0], sorted[1..];
      assert sorted == [first] + rest;
      TextsOfCons(first, rest);
      if Below(NetworkText(n), NetworkText(first)) {
        TextsOfCons(n, sorted);
      } else {
        InsertNetworkInsertsText(n, rest);
        TextsOfCons(first, InsertNetwork(n, rest));
      }
    }
  }

  lemma {:induction false} SortNetworksSortsTexts(nets: seq<Network>)
    ensures NetworkTexts(SortNetworks(nets)) == Sorted(NetworkTexts(nets))
  {
    if nets != [] {
      assert nets == [nets[0]] + nets[1..];
      TextsOfCons(nets[0], nets[1..]);
      SortNetworksSortsTexts(nets[1..]);
      InsertNetworkInsertsText(nets[0], SortNetworks(nets[1..]));
    }
  }

  lemma SortingKeepsDistinct(texts: seq<string>)
    requires Distinct(texts)
    ensures Strict(Sorted(texts))
  {
    SortedSorts(texts);
    MultisetKeepsDistinct(texts, Sorted(texts));
  }

  method UniqueNetworks(nets: seq<Network>) returns (unique: seq<Network>)
    ensures forall n :: n in unique <==> n in nets
    ensures Strict(NetworkTexts(unique))
  {
    unique := [];
    var seen: set<string> := {};
    for i := 0 to |nets|
      invariant seen == ToSet(NetworkTexts(unique))
      invariant forall n :: n in unique <==> n in nets[..i]
      invariant Distinct(NetworkTexts(unique))
    {
      assert nets[..i + 1] == nets[..i] + [nets[i]];
      var key := NetworkText(nets[i]);
      if key !in seen {
        assert NetworkTexts(unique + [nets[i]]) == NetworkTexts(unique) + [key];
        seen, unique := seen + {key}, unique + [nets[i]];
      } else {
        var k :| 0 <= k < |unique| && NetworkText(unique[k]) == key;
        NetworkTextInjective(unique[k], nets[i]);
      }
    }
    assert nets[..|nets|] == nets;
    SortingKeepsDistinct(NetworkTexts(unique));
    SortNetworksSortsTexts(unique);
    assert forall n :: n in unique <==> n in multiset(unique);
    unique := SortNetworks(unique);
    assert forall n :: n in unique <==> n in multiset(unique);
  }

  predicate Passes(filters: seq<Network>, s: Setup, ip: string) {
    |filters| > 0 ==> exists n :: n in filters && Covers(s, n, s.parseIp(ip))
  }

  /**
   An IPv4 address passes when there are no filters, or when it lies in the block of some IPv4 one: exactly when the
   routes to it are managed. A text that is no address passes only where there are no filters.
   */
  lemma PassesExactly(filters: seq<Network>, s: Setup, text: string)
    ensures s.parseIp(text).V4Address? ==>
              (Passes(filters, s, text) <==> filters == [] || exists n :: n in filters && InBlock(n, s.parseIp(text).ip))
    ensures s.parseIp(text).NotAnAddress? ==> (Passes(filters, s, text) <==> filters == [])
  {
    if s.parseIp(text).V4Address? {
      CoveredExactly(s.parseIp(text).ip, filters);
      assert Passes(filters, s, text) <==> filters == [] || CoveredByAny(s.parseIp(text).ip, filters);
    }
  }

  predicate NatGives(n: Nat, natMac: map<string, string>, filters: seq<Network>, s: Setup, ip: string) {
    n.uuid in natMac && n.externalIp == ip && Passes(filters, s, ip)
  }

  ghost predicate NatsGive(nats: seq<Nat>, natMac: map<string, string>, filters: seq<Network>, s: Setup, kind: string, ip: string) {
    exists n :: n in nats && n.kind == kind && NatGives(n, natMac, filters, s, ip)
  }

  lemma NatStep(before: seq<Nat>, n: Nat, natMac: map<string, string>, filters: seq<Network>, s: Setup, kind: string)
    ensures forall ip :: NatsGive(before + [n], natMac, filters, s, kind, ip)
                         <==> NatsGive(before, natMac, filters, s, kind, ip) || (n.kind == kind && NatGives(n, natMac, filters, s, ip))
  {
  }

  function OwnedEntry(natMac: map<string, string>, filters: seq<Network>, s: Setup): (Nat, string, string) -> bool {
    (n: Nat, ip: string, mac: string) => NatGives(n, natMac, filters, s, ip) && natMac[n.uuid] == mac
  }

  method CollectNats(nats: seq<Nat>, natMac: map<string, string>, filters: seq<Network>, s: Setup)
    returns (fips: seq<string>, snatIps: seq<string>, macOf: map<string, string>)
    ensures forall ip :: ip in fips <==> NatsGive(nats, natMac, filters, s, DNAT_AND_SNAT, ip)
    ensures forall ip :: ip in snatIps <==> NatsGive(nats, natMac, filters, s, SNAT, ip)
    ensures IndexOf(nats, OwnedEntry(natMac, filters, s), macOf)
  {
    fips, snatIps, macOf := [], [], map[];
    for i := 0 to |nats|
      invariant forall ip :: ip in fips <==> NatsGive(nats[..i], natMac, filters, s, DNAT_AND_SNAT, ip)
      invariant forall ip :: ip in snatIps <==> NatsGive(nats[..i], natMac, filters, s, SNAT, ip)
      invariant IndexOf(nats[..i], OwnedEntry(natMac, filters, s), macOf)
    {
      var n := nats[i];
      assert nats[..i + 1] == nats[..i] + [n];
      ghost var macOf0 := macOf;
      NatStep(nats[..i], n, natMac, filters, s, DNAT_AND_SNAT);
      NatStep(nats[..i], n, natMac, filters, s, SNAT);
      var ip := n.externalIp;
      if n.uuid !in natMac || !Passes(filters, s, ip) {
        IndexStep(map[], nats[..i], n, OwnedEntry(natMac, filters, s), macOf0, macOf);
        continue;
      }
      macOf := macOf[ip := natMac[n.uuid]];
      if n.kind == DNAT_AND_SNAT {
        fips := fips + [ip];
      } else if n.kind == SNAT {
        snatIps := snatIps + [ip];
      }
      IndexStep(map[], nats[..i], n, OwnedEntry(natMac, filters, s), macOf0, macOf);
    }
    assert nats[..|nats|] == nats;
  }

  /** The positions `at` of the addresses, in order: every address of the entry, and nothing else. */
  ghost predicate Selects(s: Setup, fields: seq<string>, upTo: int, at: seq<int>, ips: seq<string>) {
    && |ips| == |at| && (forall i, j :: 0 <= i < j < |at| ==> at[i] < at[j])
    && (forall i :: 0 <= i < |at| ==> at[i] < upTo && AddressAt(s, fields, at[i]) && ips[i] == fields[at[i]])
    && (forall k :: k < upTo && AddressAt(s, fields, k) ==> k in at)
  }

  method ParseNatAddressIps(s: Setup, text: string) returns (ips: seq<string>, ghost at: seq<int>)
    ensures Selects(s, s.fields(text), |s.fields(text)|, at, ips)
    ensures forall ip :: ip in ips <==> GivesAddress(s, text, ip)
  {
    var fields := s.fields(text);
    ips, at := [], [];
    if |fields| < 2 {
      return;
    }
    for i := 1 to |fields|
      invariant Selects(s, fields, i, at, ips)
      invariant forall j :: 1 <= j < i ==> !StartsWith(fields[j], RESIDENT)
    {
      HasPrefixExactly(fields[i], RESIDENT);
      if HasPrefix(fields[i], RESIDENT) {
        assert forall k :: k >= i ==> !AddressAt(s, fields, k);
        break;
      }
      if !s.parseIp(fields[i]).NotAnAddress? {
        assert AddressAt(s, fields, i);
        ips, at := ips + [fields[i]], at + [i];
      }
    }
  }

  /** One of these nat_addresses entries gives the address, and the filters admit it. */
  ghost predicate Announced(entries: seq<string>, filters: seq<Network>, s: Setup, ip: string) {
    Passes(filters, s, ip) && exists text :: text in entries && GivesAddress(s, text, ip)
  }

  lemma AnnouncedStep(before: seq<string>, text: string, filters: seq<Network>, s: Setup)
    ensures forall ip :: Announced(before + [text], filters, s, ip)
                         <==> Announced(before, filters, s, ip) || (Passes(filters, s, ip) && GivesAddress(s, text, ip))
  {
  }

  method AddAddresses(entries: seq<string>, mac: string, filters: seq<Network>, s: Setup, snat0: seq<string>, macOf0: map<string, string>)
    returns (snat: seq<string>, macOf: map<string, string>)
    ensures forall ip :: ip in snat <==> ip in snat0 || Announced(entries, filters, s, ip)
    ensures forall ip :: ip in macOf <==> ip in macOf0 || (mac != "" && Announced(entries, filters, s, ip))
    ensures forall ip :: ip in macOf ==> macOf[ip] == if mac != "" && Announced(entries, filters, s, ip) then mac else macOf0[ip]
  {
    snat, macOf := snat0, macOf0;
    for j := 0 to |entries|
      invariant forall ip :: ip in snat <==> ip in snat0 || Announced(entries[..j], filters, s, ip)
      invariant forall ip :: ip in macOf <==> ip in macOf0 || (mac != "" && Announced(entries[..j], filters, s, ip))
      invariant forall ip :: ip in macOf ==> macOf[ip] == if mac != "" && Announced(entries[..j], filters, s, ip) then mac else macOf0[ip]
    {
      assert entries[..j + 1] == entries[..j] + [entries[j]];
      AnnouncedStep(entries[..j], entries[j], filters, s);
      var ips, _ := ParseNatAddressIps(s, entries[j]);
      snat, macOf := AddEntry(ips, mac, filters, s, snat, macOf);
    }
    assert entries[..|entries|] == entries;
  }

  method AddEntry(ips: seq<string>, mac: string, filters: seq<Network>, s: Setup, snat0: seq<string>, macOf0: map<string, string>)
    returns (snat: seq<string>, macOf: map<string, string>)
    ensures forall ip :: ip in snat <==> ip in snat0 || (ip in ips && Passes(filters, s, ip))
    ensures forall ip :: ip in macOf <==> ip in macOf0 || (mac != "" && ip in ips && Passes(filters, s, ip))
    ensures forall ip :: ip in macOf ==> macOf[ip] == if mac != "" && ip in ips && Passes(filters, s, ip) then mac else macOf0[ip]
  {
    snat, macOf := snat0, macOf0;
    for k := 0 to |ips|
      invariant forall ip :: ip in snat <==> ip in snat0 || (ip in ips[..k] && Passes(filters, s, ip))
      invariant forall ip :: ip in macOf <==> ip in macOf0 || (mac != "" && ip in ips[..k] && Passes(filters, s, ip))
      invariant forall ip :: ip in macOf ==> macOf[ip] == if mac != "" && ip in ips[..k] && Passes(filters, s, ip) then mac else macOf0[ip]
    {
      assert ips[..k + 1] == ips[..k] + [ips[k]];
      if !Passes(filters, s, ips[k]) {
        continue;
      }
      snat := snat + [ips[k]];
      if mac != "" {
        macOf := macOf[ips[k] := mac];
      }
    }
    assert ips[..|ips|] == ips;
  }

  predicate IsGatewayPatch(b: PortBinding, lrps: map<string, string>) {
    && b.kind == PATCH && Lookup(b.options, PEER) != "" && Lookup(b.options, PEER) in lrps
    && Lookup(b.externalIds, DEVICE_OWNER) == ROUTER_GATEWAY
  }

  ghost predicate PatchGives(b: PortBinding, lrps: map<string, string>, filters: seq<Network>, s: Setup, ip: string) {
    IsGatewayPatch(b, lrps) && Announced(b.natAddresses, filters, s, ip)
  }

  ghost predicate PatchesGive(bindings: seq<PortBinding>, lrps: map<string, string>, filters: seq<Network>, s: Setup, ip: string) {
    exists b :: b in bindings && PatchGives(b, lrps, filters, s, ip)
  }

  lemma PatchStep(before: seq<PortBinding>, b: PortBinding, lrps: map<string, string>, filters: seq<Network>, s: Setup)
    ensures forall ip :: PatchesGive(before + [b], lrps, filters, s, ip)
                         <==> PatchesGive(before, lrps, filters, s, ip) || PatchGives(b, lrps, filters, s, ip)
  {
  }

  ghost function PatchEntry(lrps: map<string, string>, portMac: map<string, string>, filters: seq<Network>, s: Setup): (PortBinding, string, string) -> bool {
    (b: PortBinding, ip: string, mac: string) =>
      PatchGives(b, lrps, filters, s, ip) && mac != "" && Lookup(portMac, Lookup(b.options, PEER)) == mac
  }

  method CollectPatchAddresses(bindings: seq<PortBinding>, lrps: map<string, string>, portMac: map<string, string>, filters: seq<Network>,
                               s: Setup, snat0: seq<string>, macOf0: map<string, string>)
    returns (snat: seq<string>, macOf: map<string, string>)
    ensures forall ip :: ip in snat <==> ip in snat0 || PatchesGive(bindings, lrps, filters, s, ip)
    ensures Extends(macOf0, bindings, PatchEntry(lrps, portMac, filters, s), macOf)
  {
    snat, macOf := snat0, macOf0;
    for i := 0 to |bindings|
      invariant forall ip :: ip in snat <==> ip in snat0 || PatchesGive(bindings[..i], lrps, filters, s, ip)
      invariant Extends(macOf0, bindings[..i], PatchEntry(lrps, portMac, filters, s), macOf)
    {
      var b := bindings[i];
      assert bindings[..i + 1] == bindings[..i] + [b];
      PatchStep(bindings[..i], b, lrps, filters, s);
      ghost var before := macOf;
      if IsGatewayPatch(b, lrps) {
        snat, macOf := AddAddresses(b.natAddresses, Lookup(portMac, Lookup(b.options, PEER)), filters, s, snat, macOf);
      }
      IndexStep(macOf0, bindings[..i], b, PatchEntry(lrps, portMac, filters, s), before, macOf);
    }
    assert bindings[..|bindings|] == bindings;
  }
}
