/**
 The port-forward compiler: from forwarding rules to nftables chains. Chains are
 lists of rules; what a packet meets in a chain is defined by `Fires`.
 */
module NftCompiler {
  import opened Wrappers
  import AddressText
  import opened Ipv4
  import ContentKeys
  import opened Networks
  import opened PortForwardConfig

  // ---------------------------------------------------------------------------
  // Rules and packets
  // ---------------------------------------------------------------------------

  datatype Cond =
    | Destination(addr: string, proto: string, port: int)
    | Source(addr: string, proto: string, port: int)
    | SourceInNets(nets: seq<Network>)
    | SourceIsOneOf(addrs: seq<string>)
    | OriginalDestinations(vips: seq<string>)
    | Original
    | Reply
    | Dnatted
    | OutVeth
    | Marked(mark: nat)

  datatype Action =
    | SetZone(zone: nat)
    | DnatTo(addr: string, port: int)
    | DnatByHash(modulus: nat, targets: seq<(string, int)>)
    | SetMark(mark: nat)
    | Masquerade
    | Accept
    | Drop

  datatype NftRule = NftRule(conds: seq<Cond>, action: Action)

  /** The chains of the table; the last one is emitted only when it has rules. */
  datatype Ruleset = Ruleset(
    preroutingCtZone: seq<NftRule>, outputCtZone: seq<NftRule>, preroutingDnat: seq<NftRule>, preroutingFwmark: seq<NftRule>,
    outputFwmark: seq<NftRule>, forwardVethGuard: seq<NftRule>, postroutingFwmarkClear: seq<NftRule>, postroutingSnat: Option<seq<NftRule>>)

  /** A packet and what conntrack knows of its flow: `originalDaddr` is the destination before DNAT. */
  datatype Packet = Packet(
    saddr: Ip, daddr: Ip, proto: string, sport: int, dport: int,
    dnatted: bool, reply: bool, originalDaddr: Ip, outVeth: bool, mark: nat)

  /** nft reads an operand of the table's address family as a dotted quad. */
  predicate Is(text: string, ip: Ip) {
    text == AddressText.Dotted(ip)
  }

  predicate Holds(c: Cond, p: Packet) {
    match c
    case Destination(addr, proto, port) => Is(addr, p.daddr) && p.proto == proto && p.dport == port
    case Source(addr, proto, port) => Is(addr, p.saddr) && p.proto == proto && p.sport == port
    case SourceInNets(nets) => CoveredByAny(p.saddr, nets)
    case SourceIsOneOf(addrs) => exists a :: a in addrs && Is(a, p.saddr)
    case OriginalDestinations(vips) => exists v :: v in vips && Is(v, p.originalDaddr)
    case Original => !p.reply
    case Reply => p.reply
    case Dnatted => p.dnatted
    case OutVeth => p.outVeth
    case Marked(m) => p.mark == m
  }

  predicate Fires(r: NftRule, p: Packet) {
    forall c :: c in r.conds ==> Holds(c, p)
  }

  /** The first rule that fires, for chains whose statements end the chain. */
  function FirstAction(chain: seq<NftRule>, p: Packet): Option<NftRule> {
    if chain == [] then None
    else if Fires(chain[0], p) then Some(chain[0])
    else FirstAction(chain[1..], p)
  }

  /** Zone statements do not end the chain, so the last one that fires counts. */
  function ZoneAfter(chain: seq<NftRule>, p: Packet): Option<nat> {
    if chain == [] then None
    else
      var last := |chain| - 1;
      if Fires(chain[last], p) && chain[last].action.SetZone? then Some(chain[last].action.zone)
      else ZoneAfter(chain[..last], p)
  }

  function MarkAfter(chain: seq<NftRule>, p: Packet): Packet {
    if chain == [] then p
    else
      var q := if Fires(chain[0], p) && chain[0].action.SetMark? then p.(mark := chain[0].action.mark) else p;
      MarkAfter(chain[1..], q)
  }

  // ---------------------------------------------------------------------------
  // What each chain is compiled to
  // ---------------------------------------------------------------------------

  function PerRule<T>(v: Vip, rules: seq<Rule>, f: (Vip, Rule) -> seq<T>): seq<T> {
    if rules == [] then []
    else PerRule(v, rules[..|rules| - 1], f) + f(v, rules[|rules| - 1])
  }

  function PerVip<T>(forwards: seq<Vip>, f: (Vip, Rule) -> seq<T>): seq<T> {
    if forwards == [] then []
    else
      var v := forwards[|forwards| - 1];
      PerVip(forwards[..|forwards| - 1], f) + PerRule(v, v.rules, f)
  }

  function ReplyZoneRule(addr: string, proto: string, port: int, zone: nat): NftRule {
    NftRule([Source(addr, proto, port)], SetZone(zone))
  }

  function MasqueradeRule(addr: string, proto: string, port: int): NftRule {
    NftRule([Destination(addr, proto, port), Dnatted], Masquerade)
  }

  function SourceRule(source: Cond, vip: string): NftRule {
    NftRule([source, OriginalDestinations([vip]), Dnatted], Masquerade)
  }

  function ZoneRules(zone: nat): (Vip, Rule) -> seq<NftRule> {
    (v: Vip, r: Rule) =>
      var addrs := DestAddrs(r);
      if |addrs| == 0 then []
      else [NftRule([Destination(v.vip, r.proto, r.port)], SetZone(zone))]
           + seq(|addrs|, k requires 0 <= k < |addrs| => ReplyZoneRule(addrs[k], r.proto, DestPort(r), zone))
  }

  function Targets(addrs: seq<string>, port: int): (t: seq<(string, int)>)
    ensures |t| == |addrs|
  {
    seq(|addrs|, k requires 0 <= k < |addrs| => (addrs[k], port))
  }

  function DnatRules(v: Vip, r: Rule): seq<NftRule> {
    var addrs := DestAddrs(r);
    if |addrs| == 0 then []
    else [NftRule([Destination(v.vip, r.proto, r.port)],
                  if |addrs| == 1 then DnatTo(addrs[0], DestPort(r)) else DnatByHash(|addrs|, Targets(addrs, DestPort(r))))]
  }

  function MasqueradeRules(v: Vip, r: Rule): seq<NftRule> {
    var addrs := DestAddrs(r);
    if !EffectiveMasquerade(v, r) then []
    else seq(|addrs|, k requires 0 <= k < |addrs| => MasqueradeRule(addrs[k], r.proto, DestPort(r)))
  }

  function VipsWhere(forwards: seq<Vip>, wanted: Vip -> bool): (vips: seq<string>)
    ensures forall t :: t in vips <==> exists v :: v in forwards && wanted(v) && v.vip == t
  {
    if forwards == [] then []
    else
      var last := |forwards| - 1;
      assert forwards == forwards[..last] + [forwards[last]];
      VipsWhere(forwards[..last], wanted) + if wanted(forwards[last]) then [forwards[last].vip] else []
  }

  predicate Any(v: Vip) { true }

  predicate Hairpin(v: Vip) { v.hairpin }

  predicate RouterMasquerade(v: Vip) { v.routerMasquerade }

  function SourceRules(source: Cond, vips: seq<string>): seq<NftRule> {
    seq(|vips|, k requires 0 <= k < |vips| => SourceRule(source, vips[k]))
  }

  function Compact(s: seq<string>): seq<string> {
    if |s| < 2 then s
    else
      var last := |s| - 1;
      Compact(s[..last]) + if s[last] == s[last - 1] then [] else [s[last]]
  }

  function SnatChain(forwards: seq<Vip>, providers: seq<Network>, snatIps: seq<string>): Option<seq<NftRule>> {
    var entries := PerVip(forwards, MasqueradeRules);
    var hairpin, router := VipsWhere(forwards, Hairpin), VipsWhere(forwards, RouterMasquerade);
    var hairpinRules := if |hairpin| > 0 && |providers| > 0 then SourceRules(SourceInNets(providers), hairpin) else [];
    var routerRules :=
      if |router| > 0 && |snatIps| > 0 then SourceRules(SourceIsOneOf(Compact(ContentKeys.Sorted(snatIps))), router) else [];
    if entries + hairpinRules + routerRules == [] then None else Some(entries + hairpinRules + routerRules)
  }

  const DNAT_FWMARK: nat := 0x100
  const DNAT_REPLY_FWMARK: nat := 0x200

  function OriginalMarkRule(vips: seq<string>): NftRule {
    NftRule([Original, Dnatted, OriginalDestinations(vips)], SetMark(DNAT_FWMARK))
  }

  function ReplyMarkRule(vips: seq<string>): NftRule {
    NftRule([Reply, Dnatted, OriginalDestinations(vips)], SetMark(DNAT_REPLY_FWMARK))
  }

  function GuardRules(providers: seq<Network>): seq<NftRule> {
    (if |providers| > 0 then [NftRule([OutVeth, SourceInNets(providers)], Accept)] else [])
    + [NftRule([OutVeth, Marked(DNAT_REPLY_FWMARK)], Accept), NftRule([OutVeth], Drop)]
  }

  function Compiled(forwards: seq<Vip>, providers: seq<Network>, snatIps: seq<string>, zone: nat): Ruleset {
    var vips := VipsWhere(forwards, Any);
    var zones := PerVip(forwards, ZoneRules(zone));
    Ruleset(zones, zones, PerVip(forwards, DnatRules), [OriginalMarkRule(vips), ReplyMarkRule(vips)], [ReplyMarkRule(vips)],
            GuardRules(providers), [NftRule([OutVeth, Marked(DNAT_REPLY_FWMARK)], SetMark(0))],
            SnatChain(forwards, providers, snatIps))
  }

  // ---------------------------------------------------------------------------
  // The compiler
  // ---------------------------------------------------------------------------

  lemma PerRuleStep<T>(v: Vip, j: nat, f: (Vip, Rule) -> seq<T>)
    requires j < |v.rules|
    ensures PerRule(v, v.rules[..j + 1], f) == PerRule(v, v.rules[..j], f) + f(v, v.rules[j])
  {
    assert v.rules[..j + 1][..j] == v.rules[..j];
  }

  lemma PerVipStep<T>(forwards: seq<Vip>, i: nat, f: (Vip, Rule) -> seq<T>)
    requires i < |forwards|
    ensures PerVip(forwards[..i + 1], f) == PerVip(forwards[..i], f) + PerRule(forwards[i], forwards[i].rules, f)
  {
    assert forwards[..i + 1][..i] == forwards[..i];
  }

  lemma Reassociate<T>(a: seq<T>, b: seq<T>, c: seq<T>)
    ensures (a + b) + c == a + (b + c)
  {
  }

  method ZoneRulesOf(v: Vip, r: Rule, zone: nat) returns (rules: seq<NftRule>)
    ensures rules == ZoneRules(zone)(v, r)
  {
    rules := [];
    var addrs := DestAddrs(r);
    if |addrs| == 0 {
      return;
    }
    var destPort := if r.destPort == 0 then r.port else r.destPort;
    rules := rules + [NftRule([Destination(v.vip, r.proto, r.port)], SetZone(zone))];
    for k := 0 to |addrs|
      invariant rules == ZoneRules(zone)(v, r)[..k + 1]
    {
      assert ZoneRules(zone)(v, r)[..k + 2] == ZoneRules(zone)(v, r)[..k + 1] + [ZoneRules(zone)(v, r)[k + 1]];
      rules := rules + [ReplyZoneRule(addrs[k], r.proto, destPort, zone)];
    }
  }

  method WriteCtZoneRules(forwards: seq<Vip>, zone: nat) returns (chain: seq<NftRule>)
    ensures chain == PerVip(forwards, ZoneRules(zone))
  {
    chain := [];
    for i := 0 to |forwards|
      invariant chain == PerVip(forwards[..i], ZoneRules(zone))
    {
      var v := forwards[i];
      PerVipStep(forwards, i, ZoneRules(zone));
      ghost var start := chain;
      for j := 0 to |v.rules|
        invariant chain == start + PerRule(v, v.rules[..j], ZoneRules(zone))
      {
        PerRuleStep(v, j, ZoneRules(zone));
        var rules := ZoneRulesOf(v, v.rules[j], zone);
        Reassociate(start, PerRule(v, v.rules[..j], ZoneRules(zone)), rules);
        chain := chain + rules;
      }
      assert v.rules[..|v.rules|] == v.rules;
    }
    assert forwards[..|forwards|] == forwards;
  }

  method MasqueradeRulesOf(v: Vip, r: Rule) returns (rules: seq<NftRule>)
    ensures rules == MasqueradeRules(v, r)
  {
    rules := [];
    if !EffectiveMasquerade(v, r) {
      return;
    }
    var addrs := DestAddrs(r);
    var destPort := if r.destPort == 0 then r.port else r.destPort;
    for k := 0 to |addrs|
      invariant rules == MasqueradeRules(v, r)[..k]
    {
      assert MasqueradeRules(v, r)[..k + 1] == MasqueradeRules(v, r)[..k] + [MasqueradeRules(v, r)[k]];
      rules := rules + [MasqueradeRule(addrs[k], r.proto, destPort)];
    }
  }

  method CollectSnatEntries(forwards: seq<Vip>) returns (entries: seq<NftRule>)
    ensures entries == PerVip(forwards, MasqueradeRules)
  {
    entries := [];
    for i := 0 to |forwards|
      invariant entries == PerVip(forwards[..i], MasqueradeRules)
    {
      var v := forwards[i];
      PerVipStep(forwards, i, MasqueradeRules);
      ghost var start := entries;
      for j := 0 to |v.rules|
        invariant entries == start + PerRule(v, v.rules[..j], MasqueradeRules)
      {
        PerRuleStep(v, j, MasqueradeRules);
        var rules := MasqueradeRulesOf(v, v.rules[j]);
        Reassociate(start, PerRule(v, v.rules[..j], MasqueradeRules), rules);
        entries := entries + rules;
      }
      assert v.rules[..|v.rules|] == v.rules;
    }
    assert forwards[..|forwards|] == forwards;
  }

  method DnatRuleOf(v: Vip, r: Rule) returns (rules: seq<NftRule>)
    ensures rules == DnatRules(v, r)
  {
    var destPort := if r.destPort == 0 then r.port else r.destPort;
    var addrs := DestAddrs(r);
    if |addrs| == 0 {
      return [];
    }
    var match' := [Destination(v.vip, r.proto, r.port)];
    if |addrs| == 1 {
      return [NftRule(match', DnatTo(addrs[0], destPort))];
    }
    var targets: seq<(string, int)> := [];
    for k := 0 to |addrs|
      invariant targets == Targets(addrs, destPort)[..k]
    {
      targets := targets + [(addrs[k], destPort)];
    }
    assert targets == Targets(addrs, destPort);
    return [NftRule(match', DnatByHash(|addrs|, targets))];
  }

  method WriteDnatRules(forwards: seq<Vip>) returns (chain: seq<NftRule>)
    ensures chain == PerVip(forwards, DnatRules)
  {
    chain := [];
    for i := 0 to |forwards|
      invariant chain == PerVip(forwards[..i], DnatRules)
    {
      var v := forwards[i];
      PerVipStep(forwards, i, DnatRules);
      ghost var start := chain;
      for j := 0 to |v.rules|
        invariant chain == start + PerRule(v, v.rules[..j], DnatRules)
      {
        PerRuleStep(v, j, DnatRules);
        var rules := DnatRuleOf(v, v.rules[j]);
        Reassociate(start, PerRule(v, v.rules[..j], DnatRules), rules);
        chain := chain + rules;
      }
      assert v.rules[..|v.rules|] == v.rules;
    }
    assert forwards[..|forwards|] == forwards;
  }

  method CollectVips(forwards: seq<Vip>, wanted: Vip -> bool) returns (vips: seq<string>)
    ensures vips == VipsWhere(forwards, wanted)
  {
    vips := [];
    for i := 0 to |forwards|
      invariant vips == VipsWhere(forwards[..i], wanted)
    {
      assert forwards[..i + 1][..i] == forwards[..i];
      if wanted(forwards[i]) {
        vips := vips + [forwards[i].vip];
      }
    }
    assert forwards[..|forwards|] == forwards;
  }

  method CompactSorted(ips: seq<string>) returns (r: seq<string>)
    ensures r == Compact(ContentKeys.Sorted(ips))
  {
    var s := ContentKeys.Sorted(ips);
    r := s[..if |s| < 2 then |s| else 1];
    for i := |r| to |s|
      invariant r == Compact(s[..i])
    {
      assert s[..i + 1][..i] == s[..i];
      if s[i] != s[i - 1] {
        r := r + [s[i]];
      }
    }
    assert s[..|s|] == s;
  }

  method WriteSourceRules(source: Cond, vips: seq<string>) returns (chain: seq<NftRule>)
    ensures chain == SourceRules(source, vips)
  {
    chain := [];
    for k := 0 to |vips|
      invariant chain == SourceRules(source, vips)[..k]
    {
      chain := chain + [SourceRule(source, vips[k])];
    }
  }

  /** The chain is left out when none of its three parts has a rule. */
  method WriteSnatChain(forwards: seq<Vip>, providers: seq<Network>, snatIps: seq<string>) returns (snat: Option<seq<NftRule>>)
    ensures snat == SnatChain(forwards, providers, snatIps)
  {
    var entries := CollectSnatEntries(forwards);
    var hairpinVips := CollectVips(forwards, Hairpin);
    var routerVips := CollectVips(forwards, RouterMasquerade);
    var hairpinNeeded := |hairpinVips| > 0 && |providers| > 0;
    var routerNeeded := |routerVips| > 0 && |snatIps| > 0;
    if !(|entries| > 0 || hairpinNeeded || routerNeeded) {
      return None;
    }
    var hairpinRules: seq<NftRule> := [];
    if hairpinNeeded {
      hairpinRules := WriteSourceRules(SourceInNets(providers), hairpinVips);
    }
    var routerRules: seq<NftRule> := [];
    if routerNeeded {
      var sources := CompactSorted(snatIps);
      routerRules := WriteSourceRules(SourceIsOneOf(sources), routerVips);
    }
    assert |entries + hairpinRules + routerRules| > 0;
    return Some(entries + hairpinRules + routerRules);
  }

  method BuildNftRuleset(forwards: seq<Vip>, providers: seq<Network>, snatIps: seq<string>, zone: nat) returns (rs: Ruleset)
    ensures rs == Compiled(forwards, providers, snatIps, zone)
  {
    var vips := CollectVips(forwards, Any);
    var prerouting := WriteCtZoneRules(forwards, zone);
    var output := WriteCtZoneRules(forwards, zone);
    var dnat := WriteDnatRules(forwards);
    var guard: seq<NftRule> := [];
    if |providers| > 0 {
      guard := guard + [NftRule([OutVeth, SourceInNets(providers)], Accept)];
    }
    guard := guard + [NftRule([OutVeth, Marked(DNAT_REPLY_FWMARK)], Accept)];
    guard := guard + [NftRule([OutVeth], Drop)];
    assert guard == GuardRules(providers);
    var snat := WriteSnatChain(forwards, providers, snatIps);
    rs := Ruleset(prerouting, output, dnat, [OriginalMarkRule(vips), ReplyMarkRule(vips)], [ReplyMarkRule(vips)], guard,
                  [NftRule([OutVeth, Marked(DNAT_REPLY_FWMARK)], SetMark(0))], snat);
  }
}
