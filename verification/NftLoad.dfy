/**
 What it takes to load a compiled ruleset. One nft call replaces the whole table, so an operand
 nft cannot read in any chain keeps all of them from being replaced.
 */
module NftLoad {
  import opened Wrappers
  import opened AddressText
  import opened Ipv4
  import ContentKeys
  import opened Networks
  import opened PortForwardConfig
  import opened NftCompiler
  import opened NftCorrectness

  const MAPPED := "::ffff:"

  /**
   How net.ParseIP followed by To4 reads two kinds of text: a dotted quad, and the IPv4-mapped
   text of an address, which it takes for the same address.
   */
  ghost predicate ReadsAddresses(parse: Parser) {
    forall ip: Ip :: parse(Dotted(ip)) == V4Address(ip) && parse(MAPPED + Dotted(ip)) == V4Address(ip)
  }

  ghost predicate AllQuadTexts(texts: seq<string>) {
    forall t :: t in texts ==> IsQuad(t)
  }

  /** nft can read the operands of the condition. */
  ghost predicate CondLoads(c: Cond) {
    match c
    case Destination(addr, _, _) => IsQuad(addr)
    case Source(addr, _, _) => IsQuad(addr)
    case SourceInNets(nets) => AllNetwork4(nets)
    case SourceIsOneOf(addrs) => AllQuadTexts(addrs)
    case OriginalDestinations(vips) => AllQuadTexts(vips)
    case _ => true
  }

  ghost predicate ActionLoads(a: Action) {
    match a
    case DnatTo(addr, _) => IsQuad(addr)
    case DnatByHash(_, targets) => forall k :: 0 <= k < |targets| ==> IsQuad(targets[k].0)
    case _ => true
  }

  ghost predicate RuleLoads(r: NftRule) {
    ActionLoads(r.action) && forall c :: c in r.conds ==> CondLoads(c)
  }

  ghost predicate ChainLoads(chain: seq<NftRule>) {
    forall r :: r in chain ==> RuleLoads(r)
  }

  ghost predicate Loads(rs: Ruleset) {
    && ChainLoads(rs.preroutingCtZone) && ChainLoads(rs.outputCtZone) && ChainLoads(rs.preroutingDnat) && ChainLoads(rs.preroutingFwmark)
    && ChainLoads(rs.outputFwmark) && ChainLoads(rs.forwardVethGuard) && ChainLoads(rs.postroutingFwmarkClear)
    && (rs.postroutingSnat.Some? ==> ChainLoads(rs.postroutingSnat.value))
  }

  /** Every VIP and every backend is written as a dotted quad. */
  ghost predicate QuadsOnly(forwards: seq<Vip>) {
    forall v, r :: Configured(forwards, v, r) ==> IsQuad(v.vip) && AllQuadTexts(DestAddrs(r))
  }

  ghost predicate RouterMasquerades(forwards: seq<Vip>) {
    exists v :: v in forwards && v.routerMasquerade
  }

  /** What the reload of one reconciliation brings along can be read as well. */
  ghost predicate ReadableInputs(forwards: seq<Vip>, providers: seq<Network>, snatIps: seq<string>) {
    AllNetwork4(providers) && (RouterMasquerades(forwards) ==> AllQuadTexts(snatIps))
  }

  // ---------------------------------------------------------------------------
  // What loads
  // ---------------------------------------------------------------------------

  lemma DnatRulesLoad(v: Vip, r: Rule)
    requires |DestAddrs(r)| > 0
    ensures ChainLoads(DnatRules(v, r)) <==> IsQuad(v.vip) && AllQuadTexts(DestAddrs(r))
  {
    var rule, addrs := DnatRules(v, r)[0], DestAddrs(r);
    assert DnatRules(v, r) == [rule] && rule in DnatRules(v, r);
    assert rule.conds == [Destination(v.vip, r.proto, r.port)] && Destination(v.vip, r.proto, r.port) in rule.conds;
    if |addrs| == 1 {
      assert AllQuadTexts(addrs) <==> IsQuad(addrs[0]) by { assert addrs == [addrs[0]]; }
    } else {
      assert rule.action.targets == Targets(addrs, DestPort(r));
      if ActionLoads(rule.action) {
        forall t | t in addrs ensures IsQuad(t) {
          var k :| 0 <= k < |addrs| && addrs[k] == t;
          assert rule.action.targets[k].0 == t;
        }
      }
    }
  }

  lemma ZoneRulesLoad(v: Vip, r: Rule, zone: nat)
    requires IsQuad(v.vip) && AllQuadTexts(DestAddrs(r))
    ensures ChainLoads(ZoneRules(zone)(v, r))
  {
    var addrs, rules := DestAddrs(r), ZoneRules(zone)(v, r);
    forall k | 0 <= k < |rules| ensures RuleLoads(rules[k]) {
      if k == 0 {
        TupleRuleLoads(Destination(v.vip, r.proto, r.port), zone);
      } else {
        assert rules[k] == ReplyZoneRule(addrs[k - 1], r.proto, DestPort(r), zone) && addrs[k - 1] in addrs;
        TupleRuleLoads(Source(addrs[k - 1], r.proto, DestPort(r)), zone);
      }
    }
  }

  lemma TupleRuleLoads(c: Cond, zone: nat)
    requires CondLoads(c)
    ensures RuleLoads(NftRule([c], SetZone(zone)))
  {
  }

  lemma MasqueradeRulesLoad(v: Vip, r: Rule)
    requires AllQuadTexts(DestAddrs(r))
    ensures ChainLoads(MasqueradeRules(v, r))
  {
    var addrs := DestAddrs(r);
    forall x | x in MasqueradeRules(v, r) ensures RuleLoads(x) {
      var k :| 0 <= k < |MasqueradeRules(v, r)| && MasqueradeRules(v, r)[k] == x;
      assert x == MasqueradeRule(addrs[k], r.proto, DestPort(r)) && addrs[k] in addrs;
    }
  }

  lemma SourceRulesLoad(source: Cond, vips: seq<string>)
    requires AllQuadTexts(vips)
    ensures ChainLoads(SourceRules(source, vips)) <==> vips == [] || CondLoads(source)
  {
    var rules := SourceRules(source, vips);
    forall k | 0 <= k < |vips| ensures rules[k] in rules && (RuleLoads(rules[k]) <==> CondLoads(source)) {
      assert rules[k] == SourceRule(source, vips[k]);
      assert rules[k].conds == [source, OriginalDestinations([vips[k]]), Dnatted];
      assert source in rules[k].conds && vips[k] in vips;
    }
    if vips != [] {
      assert rules[0] in rules;
    }
  }

  lemma VipTextsAreQuads(forwards: seq<Vip>, wanted: Vip -> bool)
    requires QuadsOnly(forwards) && forall v :: v in forwards ==> |v.rules| > 0
    ensures AllQuadTexts(VipsWhere(forwards, wanted))
  {
    forall t | t in VipsWhere(forwards, wanted) ensures IsQuad(t) {
      var v :| v in forwards && wanted(v) && v.vip == t;
      assert Configured(forwards, v, v.rules[0]);
    }
  }

  lemma SnatChainLoads(forwards: seq<Vip>, providers: seq<Network>, snatIps: seq<string>)
    requires QuadsOnly(forwards) && AllNetwork4(providers) && forall v :: v in forwards ==> |v.rules| > 0
    ensures (SnatChain(forwards, providers, snatIps).Some? ==> ChainLoads(SnatChain(forwards, providers, snatIps).value))
            <==> (RouterMasquerades(forwards) ==> AllQuadTexts(snatIps))
  {
    var entries := PerVip(forwards, MasqueradeRules);
    var hairpin, router := VipsWhere(forwards, Hairpin), VipsWhere(forwards, RouterMasquerade);
    var hairpinRules := if |hairpin| > 0 && |providers| > 0 then SourceRules(SourceInNets(providers), hairpin) else [];
    var routerRules := RouterRules(router, snatIps);
    EntriesLoad(forwards);
    VipTextsAreQuads(forwards, Hairpin);
    SourceRulesLoad(SourceInNets(providers), hairpin);
    RouterRulesLoad(forwards, snatIps);
    ThreeParts(entries, hairpinRules, routerRules);
  }

  lemma ThreeParts(a: seq<NftRule>, b: seq<NftRule>, c: seq<NftRule>)
    ensures ChainLoads(a + b + c) <==> ChainLoads(a) && ChainLoads(b) && ChainLoads(c)
  {
    assert forall x :: x in a + b + c <==> x in a || x in b || x in c;
  }

  lemma EntriesLoad(forwards: seq<Vip>)
    requires QuadsOnly(forwards)
    ensures ChainLoads(PerVip(forwards, MasqueradeRules))
  {
    forall x | x in PerVip(forwards, MasqueradeRules) ensures RuleLoads(x) {
      InPerVip(forwards, MasqueradeRules, x);
      var v, r :| Configured(forwards, v, r) && x in MasqueradeRules(v, r);
      MasqueradeRulesLoad(v, r);
    }
  }

  function RouterRules(router: seq<string>, snatIps: seq<string>): seq<NftRule> {
    if |router| > 0 && |snatIps| > 0 then SourceRules(SourceIsOneOf(Compact(ContentKeys.Sorted(snatIps))), router) else []
  }

  lemma RouterRulesLoad(forwards: seq<Vip>, snatIps: seq<string>)
    requires QuadsOnly(forwards) && forall v :: v in forwards ==> |v.rules| > 0
    ensures ChainLoads(RouterRules(VipsWhere(forwards, RouterMasquerade), snatIps))
            <==> (RouterMasquerades(forwards) ==> AllQuadTexts(snatIps))
  {
    VipTextsAreQuads(forwards, RouterMasquerade);
    ListedRulesLoad(VipsWhere(forwards, RouterMasquerade), snatIps);
    RouterVipsExist(forwards);
  }

  lemma ListedRulesLoad(router: seq<string>, snatIps: seq<string>)
    requires AllQuadTexts(router)
    ensures ChainLoads(RouterRules(router, snatIps)) <==> (|router| > 0 ==> AllQuadTexts(snatIps))
  {
    SourceRulesLoad(SourceIsOneOf(Compact(ContentKeys.Sorted(snatIps))), router);
    CompactedQuads(snatIps);
    assert snatIps == [] ==> AllQuadTexts(snatIps);
  }

  lemma CompactedQuads(texts: seq<string>)
    ensures AllQuadTexts(Compact(ContentKeys.Sorted(texts))) <==> AllQuadTexts(texts)
  {
    forall t ensures t in Compact(ContentKeys.Sorted(texts)) <==> t in texts {
      InSortedCompact(texts, t);
    }
  }

  lemma RouterVipsExist(forwards: seq<Vip>)
    ensures |VipsWhere(forwards, RouterMasquerade)| > 0 <==> RouterMasquerades(forwards)
  {
    var vips := VipsWhere(forwards, RouterMasquerade);
    if |vips| > 0 {
      assert vips[0] in vips;
      var v :| v in forwards && RouterMasquerade(v) && v.vip == vips[0];
    }
    if v :| v in forwards && v.routerMasquerade {
      assert RouterMasquerade(v) && v.vip in vips;
    }
  }

  lemma DnatChainLoads(forwards: seq<Vip>)
    requires WellShaped(forwards)
    ensures ChainLoads(PerVip(forwards, DnatRules)) <==> QuadsOnly(forwards)
  {
    var chain := PerVip(forwards, DnatRules);
    if ChainLoads(chain) {
      forall v, r | Configured(forwards, v, r) ensures IsQuad(v.vip) && AllQuadTexts(DestAddrs(r)) {
        forall x | x in DnatRules(v, r) ensures RuleLoads(x) {
          InPerVip(forwards, DnatRules, x);
        }
        DnatRulesLoad(v, r);
      }
    }
    if QuadsOnly(forwards) {
      forall x | x in chain ensures RuleLoads(x) {
        InPerVip(forwards, DnatRules, x);
        var v, r :| Configured(forwards, v, r) && x in DnatRules(v, r);
        DnatRulesLoad(v, r);
      }
    }
  }

  lemma OtherChainsLoad(forwards: seq<Vip>, providers: seq<Network>, snatIps: seq<string>, zone: nat)
    requires QuadsOnly(forwards) && forall v :: v in forwards ==> |v.rules| > 0
    ensures var rs := Compiled(forwards, providers, snatIps, zone);
            && ChainLoads(rs.preroutingCtZone) && ChainLoads(rs.outputCtZone) && ChainLoads(rs.preroutingFwmark)
            && ChainLoads(rs.outputFwmark) && ChainLoads(rs.postroutingFwmarkClear)
            && (ChainLoads(rs.forwardVethGuard) <==> AllNetwork4(providers))
  {
    VipTextsAreQuads(forwards, Any);
    ZoneChainLoads(forwards, zone);
    MarkRulesLoad(VipsWhere(forwards, Any));
    GuardLoads(providers);
  }

  lemma GuardLoads(providers: seq<Network>)
    ensures ChainLoads(GuardRules(providers)) <==> AllNetwork4(providers)
    ensures RuleLoads(NftRule([OutVeth, Marked(DNAT_REPLY_FWMARK)], SetMark(0)))
  {
    var rule := NftRule([OutVeth, SourceInNets(providers)], Accept);
    assert RuleLoads(rule) <==> AllNetwork4(providers) by {
      assert SourceInNets(providers) in rule.conds;
    }
    if |providers| > 0 {
      assert GuardRules(providers)[0] == rule && rule in GuardRules(providers);
    }
  }

  lemma ZoneChainLoads(forwards: seq<Vip>, zone: nat)
    requires QuadsOnly(forwards)
    ensures ChainLoads(PerVip(forwards, ZoneRules(zone)))
  {
    forall x | x in PerVip(forwards, ZoneRules(zone)) ensures RuleLoads(x) {
      InPerVip(forwards, ZoneRules(zone), x);
      var v, r :| Configured(forwards, v, r) && x in ZoneRules(zone)(v, r);
      ZoneRulesLoad(v, r, zone);
    }
  }

  lemma MarkRulesLoad(vips: seq<string>)
    requires AllQuadTexts(vips)
    ensures RuleLoads(OriginalMarkRule(vips)) && RuleLoads(ReplyMarkRule(vips))
  {
  }

  /**
   The ruleset loads if and only if VIPs and backends are dotted quads, provider networks are IPv4, and, where
   router masquerading needs them, SNAT addresses are dotted quads.
   */
  lemma LoadsExactly(forwards: seq<Vip>, providers: seq<Network>, snatIps: seq<string>, zone: nat, parse: Parser)
    requires Accepted(forwards, parse)
    ensures Loads(Compiled(forwards, providers, snatIps, zone)) <==> QuadsOnly(forwards) && ReadableInputs(forwards, providers, snatIps)
  {
    AcceptedIsWellShaped(forwards, parse);
    DnatChainLoads(forwards);
    if QuadsOnly(forwards) {
      forall v | v in forwards ensures |v.rules| > 0 {
        var i :| 0 <= i < |forwards| && forwards[i] == v;
        assert GoodVip(forwards[i], parse);
      }
      OtherChainsLoad(forwards, providers, snatIps, zone);
      if AllNetwork4(providers) {
        SnatChainLoads(forwards, providers, snatIps);
      }
    }
  }

  /**
   The failing input: one VIP written as an IPv4-mapped text. The configuration is accepted, and no ruleset
   of it loads, although the texts of the other entry are all dotted quads.
   */
  lemma MappedVipStopsTheLoad(x: Ip, y: Ip, a: Ip, b: Ip, proto: string, providers: seq<Network>, snatIps: seq<string>, zone: nat, parse: Parser)
    requires ReadsAddresses(parse) && (proto == "tcp" || proto == "udp")
    ensures var forwards := TwoVips(MAPPED + Dotted(x), Dotted(a), Dotted(y), Dotted(b), proto, None, None);
            && Accepted(forwards, parse) && !Loads(Compiled(forwards, providers, snatIps, zone))
  {
    var mapped := MAPPED + Dotted(x);
    var forwards := TwoVips(mapped, Dotted(a), Dotted(y), Dotted(b), proto, None, None);
    assert mapped[0] == ':';
    ColonIsNoQuad(mapped);
    assert IsQuad(Dotted(y));
    DottedNotEmpty(a);
    DottedNotEmpty(b);
    assert parse(mapped) == V4Address(x) && parse(Dotted(y)) == V4Address(y) && parse(Dotted(a)) == V4Address(a) && parse(Dotted(b)) == V4Address(b);
    TwoVipsAccepted(mapped, Dotted(a), Dotted(y), Dotted(b), proto, None, None, parse);
    assert Configured(forwards, forwards[0], forwards[0].rules[0]);
    LoadsExactly(forwards, providers, snatIps, zone, parse);
  }
}
