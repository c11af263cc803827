/** Networks and addresses of either family, by value for IPv4 and by canonical text for IPv6. */
module Networks {
  import opened AddressText
  import opened ContentKeys
  import opened Ipv4

  /** An IPv6 address or network by its canonical text, which has a colon. */
  type V6Text = t: string | ':' in t witness "::"

  datatype ParsedIp = V4Address(ip: Ip) | V6Address(text: V6Text) | NotAnAddress

  datatype Network = Network4(subnet: Subnet) | Network6(text: V6Text)

  /** Some network of the list holds this IPv4 address. */
  predicate CoveredByAny(ip: Ip, nets: seq<Network>) {
    exists n :: n in nets && n.Network4? && Contains(n.subnet, ip)
  }

  /** The address lies between the first and the last address of an IPv4 network. */
  predicate InBlock(n: Network, ip: Ip) {
    n.Network4? && NetworkOf(n.subnet) <= ip < NetworkOf(n.subnet) + BlockSize(n.subnet.prefix)
  }

  lemma CoveredExactly(ip: Ip, nets: seq<Network>)
    ensures CoveredByAny(ip, nets) <==> exists n :: n in nets && InBlock(n, ip)
  {
    forall n | n in nets && n.Network4? {
      ContainsIsInterval(n.subnet, ip);
    }
    if n :| n in nets && InBlock(n, ip) {
      assert Contains(n.subnet, ip);
    }
    if CoveredByAny(ip, nets) {
      var n :| n in nets && n.Network4? && Contains(n.subnet, ip);
      assert InBlock(n, ip);
    }
  }

  ghost predicate AllNetwork4(nets: seq<Network>) {
    forall n :: n in nets ==> n.Network4?
  }

  const SLASH := '/'

  /** What a network prints as, which is what networks are deduplicated and sorted by. */
  function NetworkText(n: Network): string {
    match n
    case Network4(subnet) => Join([Dotted(subnet.network), Decimal(subnet.prefix)], SLASH)
    case Network6(text) => text
  }

  function NetworkTexts(nets: seq<Network>): seq<string> {
    seq(|nets|, i requires 0 <= i < |nets| => NetworkText(nets[i]))
  }

  /** Configured networks take precedence over discovered ones. */
  function EffectiveNetworkFilters(manual: seq<Network>, discovered: seq<Network>): seq<Network> {
    if |manual| > 0 then manual else discovered
  }

  lemma Network4TextIsFree(n: Subnet)
    ensures AllFree([Dotted(n.network), Decimal(n.prefix)], SLASH) && ':' !in NetworkText(Network4(n))
  {
    FieldsAreFree(n.network);
    DecimalHasDigits(n.prefix);
    JoinFree(Fields(n.network), DOT, SLASH);
    JoinFree(Fields(n.network), DOT, ':');
    JoinFree([Dotted(n.network), Decimal(n.prefix)], SLASH, ':');
  }

  lemma NetworkTextInjective(m: Network, n: Network)
    requires NetworkText(m) == NetworkText(n)
    ensures m == n
  {
    if m.Network4? {
      Network4TextIsFree(m.subnet);
    }
    if n.Network4? {
      Network4TextIsFree(n.subnet);
    }
    if m.Network4? && n.Network4? {
      var a, b := m.subnet, n.subnet;
      var x, y := [Dotted(a.network), Decimal(a.prefix)], [Dotted(b.network), Decimal(b.prefix)];
      JoinInjective(x, y, SLASH);
      assert x[0] == y[0] && x[1] == y[1];
      DottedInjective(a.network, b.network);
      DecimalInjective(a.prefix, b.prefix);
    }
  }
}
