/**
 The state refresh: a join over five OVN tables that finds the routers whose
 gateway is on this chassis and the addresses they own. The refresh reads lists;
 the join it is proved against is stated over sets of rows.
 */
module StateDerivation {
  import opened Wrappers
  import opened ContentKeys
  import Ipv4
  import opened Networks
  import opened OvnTables

  /** Configuration, and the library functions that read and compare texts. */
  datatype Setup = Setup(
    localChassis: string, gatewayPort: string, networkFilters: seq<Network>,
    parseIp: string -> ParsedIp, parseCidr: string -> Option<Network>, contains6: (V6Text, V6Text) -> bool,
    fields: string -> seq<string>, fold: string -> string)

  datatype LocalRouterInfo = LocalRouterInfo(
    routerName: string, routerUuid: string, lrpName: string, lrpUuid: string, lrpMac: string,
    lrpNetworks: seq<string>, crPort: string)

  datatype OvnState = OvnState(
    localRouters: seq<LocalRouterInfo>, fips: seq<string>, snatIps: seq<string>,
    natIpToMac: map<string, string>, discovered: seq<Network>, allChassis: set<string>)

  const CHASSISREDIRECT := "chassisredirect"
  const PATCH := "patch"
  const DNAT_AND_SNAT := "dnat_and_snat"
  const SNAT := "snat"
  const PEER := "peer"
  const DEVICE_OWNER := "neutron:device_owner"
  const ROUTER_GATEWAY := "network:router_gateway"
  const CR_PREFIX := "cr-"
  const RESIDENT := "is_chassis_resident"

  predicate HasPrefix(s: string, prefix: string) {
    |prefix| <= |s| && s[..|prefix|] == prefix
  }

  function TrimPrefix(s: string, prefix: string): string {
    if HasPrefix(s, prefix) then s[|prefix|..] else s
  }

  function LrpNameOf(logicalPort: string): string {
    TrimPrefix(logicalPort, CR_PREFIX)
  }

  ghost predicate StartsWith(s: string, prefix: string) {
    exists rest :: s == prefix + rest
  }

  lemma HasPrefixExactly(s: string, prefix: string)
    ensures HasPrefix(s, prefix) <==> StartsWith(s, prefix)
  {
    if HasPrefix(s, prefix) {
      assert s == prefix + s[|prefix|..];
    }
  }

  /** A chassisredirect port is named cr-<lrp>; a port without the prefix stands for itself. */
  ghost predicate NamesLrp(logicalPort: string, name: string) {
    logicalPort == "cr-" + name || (logicalPort == name && !StartsWith(logicalPort, "cr-"))
  }

  lemma LrpNameOfExactly(logicalPort: string, name: string)
    ensures LrpNameOf(logicalPort) == name <==> NamesLrp(logicalPort, name)
  {
    HasPrefixExactly(logicalPort, CR_PREFIX);
    if HasPrefix(logicalPort, CR_PREFIX) {
      assert logicalPort == CR_PREFIX + logicalPort[|CR_PREFIX|..];
    }
  }

  function Lookup(m: map<string, string>, key: string): string {
    if key in m then m[key] else ""
  }

  /** An address lies in a network of its own family only. */
  predicate Covers(s: Setup, n: Network, ip: ParsedIp) {
    match (n, ip)
    case (Network4(subnet), V4Address(a)) => Ipv4.Contains(subnet, a)
    case (Network6(net), V6Address(a)) => s.contains6(net, a)
    case _ => false
  }

  /** The address lies in the network's block, or, for IPv6, where the host's own test says so. */
  ghost predicate LiesIn(s: Setup, n: Network, ip: ParsedIp) {
    (ip.V4Address? && InBlock(n, ip.ip)) || (n.Network6? && ip.V6Address? && s.contains6(n.text, ip.text))
  }

  lemma CoversExactly(s: Setup, n: Network, ip: ParsedIp)
    ensures Covers(s, n, ip) <==> LiesIn(s, n, ip)
  {
    if n.Network4? && ip.V4Address? {
      Ipv4.ContainsIsInterval(n.subnet, ip.ip);
    }
  }

  // ---------------------------------------------------------------------------
  // The declarative join, in the words of the schema
  // ---------------------------------------------------------------------------

  datatype Db = Db(
    bindings: set<PortBindingA>, chassis: set<Chassis>, ports: set<RouterPortA>, routers: set<RouterA>, nats: set<Nat>)

  predicate RefersTo(c: Chassis, ref: string) {
    c.uuid == ref || c.name == ref
  }

  /** A chassis reference resolves to a hostname, a dangling one to the empty name. */
  ghost predicate HostIs(chassis: set<Chassis>, ref: string, host: string) {
    || (exists c :: c in chassis && RefersTo(c, ref) && c.hostname == host)
    || (host == "" && forall c :: c in chassis ==> !RefersTo(c, ref))
  }

  predicate IsTrackedGateway(gatewayPort: string, kind: string, logicalPort: string, chassis: string) {
    kind == CHASSISREDIRECT && chassis != "" && (gatewayPort != "" ==> logicalPort == gatewayPort)
  }

  /** A tracked chassisredirect port bound to this chassis. */
  ghost predicate LocalGateway(d: Db, s: Setup, b: PortBindingA) {
    && b in d.bindings && b.kind == "chassisredirect" && b.chassis != "" && (s.gatewayPort == "" || b.logicalPort == s.gatewayPort)
    && HostIs(d.chassis, b.chassis, s.localChassis)
  }

  ghost predicate LocalLrp(d: Db, s: Setup, name: string) {
    exists b :: LocalGateway(d, s, b) && NamesLrp(b.logicalPort, name)
  }

  /** Router r owns port p, and p is active on this chassis. */
  ghost predicate LocalRouter(d: Db, s: Setup, r: RouterA, p: RouterPortA) {
    r in d.routers && p in d.ports && p.uuid in r.ports && LocalLrp(d, s, p.name)
  }

  ghost predicate NatOwner(d: Db, s: Setup, natUuid: string, mac: string) {
    mac != "" && exists r, p :: LocalRouter(d, s, r, p) && natUuid in r.nats && p.mac == mac
  }

  ghost predicate Discovered(d: Db, s: Setup, n: Network) {
    exists r, p, text :: LocalRouter(d, s, r, p) && text in p.networks && s.parseCidr(text) == Some(n)
  }

  ghost predicate InFilter(d: Db, s: Setup, n: Network) {
    if |s.networkFilters| > 0 then n in s.networkFilters else Discovered(d, s, n)
  }

  /** No filter at all admits every address; otherwise the address must lie in a filter network. */
  ghost predicate Admitted(d: Db, s: Setup, ip: string) {
    || (forall n :: !InFilter(d, s, n))
    || (exists n :: InFilter(d, s, n) && LiesIn(s, n, s.parseIp(ip)))
  }

  /** The addresses a NAT of the given kind gives this chassis. */
  ghost predicate NatIp(d: Db, s: Setup, kind: string, ip: string) {
    Admitted(d, s, ip) && exists n, mac :: n in d.nats && n.kind == kind && n.externalIp == ip && NatOwner(d, s, n.uuid, mac)
  }

  /**
   Field k of a nat_addresses entry "MAC IP... [is_chassis_resident(...)]" is one of its addresses: it comes after
   the MAC, it parses, and neither it nor a field between is the resident clause.
   */
  ghost predicate AddressAt(s: Setup, fields: seq<string>, k: int) {
    && 1 <= k < |fields| && !s.parseIp(fields[k]).NotAnAddress?
    && forall j :: 1 <= j <= k ==> !StartsWith(fields[j], "is_chassis_resident")
  }

  ghost predicate GivesAddress(s: Setup, text: string, ip: string) {
    exists k :: AddressAt(s, s.fields(text), k) && s.fields(text)[k] == ip
  }

  /** A gateway patch port announces this address for the local router port `peer`. */
  ghost predicate PatchIp(d: Db, s: Setup, peer: string, ip: string) {
    && Admitted(d, s, ip) && peer != "" && LocalLrp(d, s, peer)
    && exists b, addr :: b in d.bindings && b.kind == "patch" && Lookup(b.options, "peer") == peer
                         && Lookup(b.externalIds, "neutron:device_owner") == "network:router_gateway"
                         && addr in b.natAddresses && GivesAddress(s, addr, ip)
  }

  /** A NAT entry ties this address to the MAC of the router port that owns it. */
  ghost predicate OwnedMac(d: Db, s: Setup, ip: string, mac: string) {
    Admitted(d, s, ip) && exists n :: n in d.nats && n.externalIp == ip && NatOwner(d, s, n.uuid, mac)
  }

  ghost predicate PatchMac(d: Db, s: Setup, ip: string, mac: string) {
    mac != "" && exists p :: p in d.ports && p.mac == mac && PatchIp(d, s, p.name, ip)
  }

  ghost predicate MacIs(d: Db, s: Setup, ip: string, mac: string) {
    OwnedMac(d, s, ip, mac) || PatchMac(d, s, ip, mac)
  }

  /** What the schema guarantees, and one local port per router. */
  ghost predicate WellFormed(d: Db, s: Setup) {
    && (forall c, e, ref :: c in d.chassis && e in d.chassis && RefersTo(c, ref) && RefersTo(e, ref) ==> c.hostname == e.hostname)
    && (forall p, q :: p in d.ports && q in d.ports && (p.uuid == q.uuid || p.name == q.name) ==> p == q)
    && (forall a, b, name :: LocalGateway(d, s, a) && LocalGateway(d, s, b) && NamesLrp(a.logicalPort, name) && NamesLrp(b.logicalPort, name)
                             ==> a.logicalPort == b.logicalPort)
    && (forall r, p, q :: LocalRouter(d, s, r, p) && LocalRouter(d, s, r, q) ==> p == q)
  }

  /** No address is owned through two different router ports. */
  ghost predicate SingleOwner(d: Db, s: Setup) {
    forall ip, m, n :: MacIs(d, s, ip, m) && MacIs(d, s, ip, n) ==> m == n
  }

  datatype RouterInfoA = RouterInfoA(
    routerName: string, routerUuid: string, lrpName: string, lrpUuid: string, lrpMac: string,
    lrpNetworks: set<string>, crPort: string)

  function AbsInfo(i: LocalRouterInfo): RouterInfoA {
    RouterInfoA(i.routerName, i.routerUuid, i.lrpName, i.lrpUuid, i.lrpMac, ToSet(i.lrpNetworks), i.crPort)
  }

  ghost predicate InfoOf(d: Db, s: Setup, i: RouterInfoA, r: RouterA, p: RouterPortA, b: PortBindingA) {
    && LocalRouter(d, s, r, p) && LocalGateway(d, s, b) && NamesLrp(b.logicalPort, p.name)
    && i == RouterInfoA(r.name, r.uuid, p.name, p.uuid, p.mac, p.networks, b.logicalPort)
  }

  /** The published state is exactly the join. */
  ghost predicate Refines(d: Db, s: Setup, v: OvnState) {
    && (forall i :: i in Abs(v.localRouters, AbsInfo) <==> exists r, p, b :: InfoOf(d, s, i, r, p, b))
    && (forall ip :: ip in v.fips <==> NatIp(d, s, "dnat_and_snat", ip))
    && (forall ip :: ip in v.snatIps <==> NatIp(d, s, "snat", ip) || exists peer :: PatchIp(d, s, peer, ip))
    && (forall ip :: ip in v.natIpToMac <==> exists mac :: MacIs(d, s, ip, mac))
    && (forall ip :: ip in v.natIpToMac ==> MacIs(d, s, ip, v.natIpToMac[ip]))
    && (forall n :: n in v.discovered <==> Discovered(d, s, n))
    && Strict(NetworkTexts(v.discovered))
    && v.allChassis == set c | c in d.chassis :: c.hostname
  }

  function AbsDb(bindings: seq<PortBinding>, chassis: seq<Chassis>, ports: seq<RouterPort>, routers: seq<Router>, nats: seq<Nat>): Db {
    Db(Abs(bindings, AbsPortBinding), ToSet(chassis), Abs(ports, AbsRouterPort), Abs(routers, AbsRouter), ToSet(nats))
  }
}
