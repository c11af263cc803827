/** The compiled chains mean what the configuration says. */
module NftCorrectness {
  import opened Wrappers
  import opened AddressText
  import opened Ipv4
  import opened ContentKeys
  import opened Networks
  import opened PortForwardConfig
  import opened NftCompiler

  // ---------------------------------------------------------------------------
  // Chains
  // ---------------------------------------------------------------------------

  lemma {:induction false} FirstActionMeans(chain: seq<NftRule>, p: Packet)
    ensures FirstAction(chain, p).None? <==> forall r :: r in chain ==> !Fires(r, p)
    ensures FirstAction(chain, p).Some? ==> FirstAction(chain, p).value in chain && Fires(FirstAction(chain, p).value, p)
  {
    if chain != [] {
      FirstActionMeans(chain[1..], p);
      assert chain[0] in chain;
      assert forall r :: r in chain <==> r == chain[0] || r in chain[1..];
    }
  }

  ghost predicate AllSetZone(chain: seq<NftRule>, zone: nat) {
    forall r :: r in chain ==> r.action == SetZone(zone)
  }

  lemma {:induction false} ZoneAfterMeans(chain: seq<NftRule>, zone: nat, p: Packet)
    requires AllSetZone(chain, zone)
    ensures ZoneAfter(chain, p) == if exists r :: r in chain && Fires(r, p) then Some(zone) else None
  {
    if chain != [] {
      var last := |chain| - 1;
      assert chain[last] in chain;
      assert forall r :: r in chain <==> r == chain[last] || r in chain[..last];
      ZoneAfterMeans(chain[..last], zone, p);
    }
  }

  lemma {:induction false} InPerRule<T>(v: Vip, rules: seq<Rule>, f: (Vip, Rule) -> seq<T>, x: T)
    ensures x in PerRule(v, rules, f) <==> exists r :: r in rules && x in f(v, r)
  {
    if rules != [] {
      var last := |rules| - 1;
      InPerRule(v, rules[..last], f, x);
      assert rules[last] in rules;
      assert forall r :: r in rules <==> r == rules[last] || r in rules[..last];
    }
  }

  lemma {:induction false} InPerVip<T>(forwards: seq<Vip>, f: (Vip, Rule) -> seq<T>, x: T)
    ensures x in PerVip(forwards, f) <==> exists v, r :: Configured(forwards, v, r) && x in f(v, r)
  {
    if forwards != [] {
      var last := |forwards| - 1;
      InPerVip(forwards[..last], f, x);
      InPerRule(forwards[last], forwards[last].rules, f, x);
      assert forwards[last] in forwards;
      assert forall v :: v in forwards <==> v == forwards[last] || v in forwards[..last];
      if x in PerVip(forwards[..last], f) {
        var v, r :| Configured(forwards[..last], v, r) && x in f(v, r);
        assert Configured(forwards, v, r);
      }
      if r :| r in forwards[last].rules && x in f(forwards[last], r) {
        assert Configured(forwards, forwards[last], r);
      }
    }
  }

  // ---------------------------------------------------------------------------
  // DNAT
  // ---------------------------------------------------------------------------

  /** The packet goes to this entry's VIP, as nft reads it. */
  predicate Serves(v: Vip, r: Rule, p: Packet) {
    Is(v.vip, p.daddr) && p.proto == r.proto && p.dport == r.port
  }

  /** A DNAT rule fires exactly for the packets its entry serves, and sits in the chain. */
  lemma DnatRuleFires(forwards: seq<Vip>, v: Vip, r: Rule, p: Packet)
    requires WellShaped(forwards) && Configured(forwards, v, r)
    ensures |DnatRules(v, r)| == 1 && DnatRules(v, r)[0] in PerVip(forwards, DnatRules)
    ensures Fires(DnatRules(v, r)[0], p) <==> Serves(v, r, p)
  {
    InPerVip(forwards, DnatRules, DnatRules(v, r)[0]);
    assert DnatRules(v, r)[0].conds == [Destination(v.vip, r.proto, r.port)];
    assert Destination(v.vip, r.proto, r.port) in DnatRules(v, r)[0].conds;
  }

  /** The rule met by a packet is that of an entry serving it; no rule, no entry. */
  lemma DnatMeets(forwards: seq<Vip>, p: Packet)
    requires WellShaped(forwards)
    ensures var met := FirstAction(PerVip(forwards, DnatRules), p);
            && (met.None? <==> forall v, r :: Configured(forwards, v, r) ==> !Serves(v, r, p))
            && (met.Some? ==> exists v, r :: Configured(forwards, v, r) && Serves(v, r, p) && DnatRules(v, r) == [met.value])
  {
    var chain := PerVip(forwards, DnatRules);
    FirstActionMeans(chain, p);
    var met := FirstAction(chain, p);
    if met.Some? {
      InPerVip(forwards, DnatRules, met.value);
      var v, r :| Configured(forwards, v, r) && met.value in DnatRules(v, r);
      DnatRuleFires(forwards, v, r, p);
      assert DnatRules(v, r) == [met.value];
    } else {
      forall v, r | Configured(forwards, v, r) ensures !Serves(v, r, p) {
        DnatRuleFires(forwards, v, r, p);
      }
    }
  }

  /** At most one entry serves a packet. */
  lemma OneServer(forwards: seq<Vip>, v: Vip, r: Rule, w: Vip, q: Rule, p: Packet)
    requires WellShaped(forwards)
    requires Configured(forwards, v, r) && Serves(v, r, p) && Configured(forwards, w, q) && Serves(w, q, p)
    ensures v == w && r == q
  {
    assert v.vip == w.vip && Key(r) == Key(q);
  }

  function TargetOf(rule: NftRule, h: nat): Option<(string, int)> {
    match rule.action
    case DnatTo(addr, port) => Some((addr, port))
    case DnatByHash(modulus, targets) =>
      if modulus > 0 && h % modulus < |targets| then Some(targets[h % modulus]) else None
    case _ => None
  }

  /** Where the DNAT chain sends a packet. Each rule of the kernel has its own hash of the source address. */
  function TranslateIn(chain: seq<NftRule>, p: Packet, jhash: (NftRule, Ip) -> nat): Option<(string, int)> {
    var met := FirstAction(chain, p);
    if met.None? then None else TargetOf(met.value, jhash(met.value, p.saddr))
  }

  function Translate(forwards: seq<Vip>, p: Packet, jhash: (NftRule, Ip) -> nat): Option<(string, int)> {
    TranslateIn(PerVip(forwards, DnatRules), p, jhash)
  }

  /** What the configuration says: the backend picked by the hash, at the configured or defaulted port. */
  function Chosen(r: Rule, h: nat): (t: (string, int))
    requires |DestAddrs(r)| > 0
    ensures IsBackend(r, t.0) && IsBackendPort(r, t.1)
    ensures |r.destAddrs| > 0 ==> t.0 == r.destAddrs[h % |r.destAddrs|]
  {
    (DestAddrs(r)[h % |DestAddrs(r)|], DestPort(r))
  }

  lemma TargetIsChosen(v: Vip, r: Rule, h: nat)
    requires |DestAddrs(r)| > 0
    ensures |DnatRules(v, r)| == 1 && TargetOf(DnatRules(v, r)[0], h) == Some(Chosen(r, h))
  {
  }

  /** Compilation preserves meaning: the chain sends every packet where the configuration says, and no other packet anywhere. */
  lemma DnatIsLookup(forwards: seq<Vip>, p: Packet, jhash: (NftRule, Ip) -> nat)
    requires WellShaped(forwards)
    ensures forall v, r :: Configured(forwards, v, r) && Serves(v, r, p) ==>
              |DestAddrs(r)| > 0 && |DnatRules(v, r)| == 1
              && Translate(forwards, p, jhash) == Some(Chosen(r, jhash(DnatRules(v, r)[0], p.saddr)))
    ensures Translate(forwards, p, jhash).None? <==> forall v, r :: Configured(forwards, v, r) ==> !Serves(v, r, p)
  {
    DnatMeets(forwards, p);
    var met := FirstAction(PerVip(forwards, DnatRules), p);
    forall v, r | Configured(forwards, v, r) && Serves(v, r, p)
      ensures |DestAddrs(r)| > 0 && |DnatRules(v, r)| == 1
              && Translate(forwards, p, jhash) == Some(Chosen(r, jhash(DnatRules(v, r)[0], p.saddr)))
    {
      var w, q :| Configured(forwards, w, q) && Serves(w, q, p) && DnatRules(w, q) == [met.value];
      OneServer(forwards, v, r, w, q, p);
      TargetIsChosen(v, r, jhash(met.value, p.saddr));
    }
  }

  /** Flows of one entry from one source go to one backend, whatever their source ports. */
  lemma BackendIsSticky(forwards: seq<Vip>, jhash: (NftRule, Ip) -> nat, v: Vip, r: Rule, p: Packet, q: Packet)
    requires WellShaped(forwards) && Configured(forwards, v, r)
    requires Serves(v, r, p) && Serves(v, r, q) && p.saddr == q.saddr
    ensures Translate(forwards, p, jhash) == Translate(forwards, q, jhash) != None
  {
    DnatIsLookup(forwards, p, jhash);
    DnatIsLookup(forwards, q, jhash);
  }

  ghost predicate HasEntry(forwards: seq<Vip>, vip: string, r: Rule) {
    exists v :: Configured(forwards, v, r) && v.vip == vip
  }

  /** The order of VIPs and of rules does not matter. */
  lemma OrderIsIrrelevant(f: seq<Vip>, g: seq<Vip>, p: Packet, jhash: (NftRule, Ip) -> nat)
    requires WellShaped(f) && WellShaped(g)
    requires forall vip, r :: HasEntry(f, vip, r) <==> HasEntry(g, vip, r)
    ensures Translate(f, p, jhash) == Translate(g, p, jhash)
  {
    DnatIsLookup(f, p, jhash);
    DnatIsLookup(g, p, jhash);
    if v, r :| Configured(f, v, r) && Serves(v, r, p) {
      assert HasEntry(f, v.vip, r);
      var w :| Configured(g, w, r) && w.vip == v.vip;
      assert Serves(w, r, p) && DnatRules(w, r) == DnatRules(v, r);
    } else {
      forall w, r | Configured(g, w, r) ensures !Serves(w, r, p) {
        assert HasEntry(g, w.vip, r);
        var v :| Configured(f, v, r) && v.vip == w.vip;
        assert !Serves(v, r, p);
      }
    }
  }

  // ---------------------------------------------------------------------------
  // Conntrack zones
  // ---------------------------------------------------------------------------

  ghost predicate FromBackend(r: Rule, p: Packet) {
    p.proto == r.proto && IsBackendPort(r, p.sport) && exists a :: IsBackend(r, a) && Is(a, p.saddr)
  }

  lemma ForwardZoneRuleFires(v: Vip, r: Rule, zone: nat, p: Packet)
    requires |DestAddrs(r)| > 0
    ensures ZoneRules(zone)(v, r)[0] in ZoneRules(zone)(v, r)
    ensures Fires(ZoneRules(zone)(v, r)[0], p) <==> Serves(v, r, p)
  {
    OneCond(Destination(v.vip, r.proto, r.port), SetZone(zone), p);
    assert ZoneRules(zone)(v, r)[0] == NftRule([Destination(v.vip, r.proto, r.port)], SetZone(zone));
  }

  lemma ReplyZoneRuleFires(v: Vip, r: Rule, zone: nat, k: nat, p: Packet)
    requires k < |DestAddrs(r)|
    ensures ZoneRules(zone)(v, r)[k + 1] in ZoneRules(zone)(v, r)
    ensures Fires(ZoneRules(zone)(v, r)[k + 1], p) <==> Is(DestAddrs(r)[k], p.saddr) && p.proto == r.proto && p.sport == DestPort(r)
  {
    OneCond(Source(DestAddrs(r)[k], r.proto, DestPort(r)), SetZone(zone), p);
    assert ZoneRules(zone)(v, r)[k + 1] == ReplyZoneRule(DestAddrs(r)[k], r.proto, DestPort(r), zone);
  }

  /** One entry's zone rules. */
  ghost predicate ZoneRuleFired(v: Vip, r: Rule, zone: nat, p: Packet) {
    exists x :: x in ZoneRules(zone)(v, r) && Fires(x, p)
  }

  lemma ZoneRuleFires(v: Vip, r: Rule, zone: nat, p: Packet)
    requires |DestAddrs(r)| > 0
    ensures ZoneRuleFired(v, r, zone, p) <==> Serves(v, r, p) || FromBackend(r, p)
  {
    var addrs := DestAddrs(r);
    ForwardZoneRuleFires(v, r, zone, p);
    if ZoneRuleFired(v, r, zone, p) {
      var x :| x in ZoneRules(zone)(v, r) && Fires(x, p);
      var k :| 0 <= k <= |addrs| && ZoneRules(zone)(v, r)[k] == x;
      if k > 0 {
        ReplyZoneRuleFires(v, r, zone, k - 1, p);
        assert addrs[k - 1] in addrs;
      }
    }
    if FromBackend(r, p) {
      var k :| 0 <= k < |addrs| && Is(addrs[k], p.saddr);
      ReplyZoneRuleFires(v, r, zone, k, p);
    }
  }

  /** A packet gets the shared zone exactly when it goes to a forwarded port or comes from a backend of one. */
  lemma ZoneExactly(forwards: seq<Vip>, zone: nat, p: Packet)
    requires WellShaped(forwards)
    ensures ZoneAfter(PerVip(forwards, ZoneRules(zone)), p)
            == if exists v, r :: Configured(forwards, v, r) && (Serves(v, r, p) || FromBackend(r, p)) then Some(zone) else None
  {
    var chain := PerVip(forwards, ZoneRules(zone));
    forall x | x in chain ensures x.action == SetZone(zone) {
      InPerVip(forwards, ZoneRules(zone), x);
    }
    ZoneAfterMeans(chain, zone, p);
    if x :| x in chain && Fires(x, p) {
      InPerVip(forwards, ZoneRules(zone), x);
      var v, r :| Configured(forwards, v, r) && x in ZoneRules(zone)(v, r);
      ZoneRuleFires(v, r, zone, p);
    }
    if v, r :| Configured(forwards, v, r) && (Serves(v, r, p) || FromBackend(r, p)) {
      ZoneRuleFires(v, r, zone, p);
      var x :| x in ZoneRules(zone)(v, r) && Fires(x, p);
      InPerVip(forwards, ZoneRules(zone), x);
    }
  }

  /**
   Zone pairing, end to end: whatever backend a packet is sent to, the packet and every reply of that
   backend get the same zone, whether the reply arrives from the network or from this host.
   */
  lemma RepliesShareZone(forwards: seq<Vip>, providers: seq<Network>, snatIps: seq<string>, zone: nat,
                         jhash: (NftRule, Ip) -> nat, p: Packet, q: Packet)
    requires WellShaped(forwards) && Translate(forwards, p, jhash).Some?
    requires var (backend, port) := Translate(forwards, p, jhash).value;
             Is(backend, q.saddr) && q.sport == port && q.proto == p.proto
    ensures var rs := Compiled(forwards, providers, snatIps, zone);
            && ZoneAfter(rs.preroutingCtZone, p) == Some(zone)
            && ZoneAfter(rs.preroutingCtZone, q) == Some(zone)
            && ZoneAfter(rs.outputCtZone, q) == Some(zone)
  {
    DnatMeets(forwards, p);
    var met := FirstAction(PerVip(forwards, DnatRules), p).value;
    var v, r :| Configured(forwards, v, r) && Serves(v, r, p) && DnatRules(v, r) == [met];
    TargetIsChosen(v, r, jhash(met, p.saddr));
    assert FromBackend(r, q);
    ZoneExactly(forwards, zone, p);
    ZoneExactly(forwards, zone, q);
  }

  // ---------------------------------------------------------------------------
  // SNAT
  // ---------------------------------------------------------------------------

  predicate IsMasqueraded(snat: Option<seq<NftRule>>, p: Packet) {
    snat.Some? && FirstAction(snat.value, p).Some?
  }

  /** A masquerading rule sends traffic to this backend address, protocol and port. */
  ghost predicate MasqueradedTuple(forwards: seq<Vip>, p: Packet) {
    exists v, r, a :: Configured(forwards, v, r) && WantsMasquerade(v, r) && IsBackend(r, a) && BackendTuple(r, a, p)
  }

  ghost predicate ToHairpinVip(forwards: seq<Vip>, p: Packet) {
    exists v :: v in forwards && v.hairpin && Is(v.vip, p.originalDaddr)
  }

  ghost predicate ToRouterVip(forwards: seq<Vip>, p: Packet) {
    exists v :: v in forwards && v.routerMasquerade && Is(v.vip, p.originalDaddr)
  }

  ghost predicate FromSnatIp(snatIps: seq<string>, p: Packet) {
    exists a :: a in snatIps && Is(a, p.saddr)
  }

  lemma {:induction false} InCompact(s: seq<string>, x: string)
    ensures x in Compact(s) <==> x in s
  {
    if |s| >= 2 {
      var last := |s| - 1;
      InCompact(s[..last], x);
      assert forall y :: y in s <==> y == s[last] || y in s[..last];
      assert s[last - 1] in s[..last];
    }
  }

  lemma InSortedCompact(s: seq<string>, x: string)
    ensures x in Compact(Sorted(s)) <==> x in s
  {
    InCompact(Sorted(s), x);
    InMultiset(x, s);
    InMultiset(x, Sorted(s));
  }

  lemma SourceRuleFires(source: Cond, vips: seq<string>, p: Packet)
    ensures (exists x :: x in SourceRules(source, vips) && Fires(x, p))
            <==> Holds(source, p) && p.dnatted && exists t :: t in vips && Is(t, p.originalDaddr)
  {
    var rules := SourceRules(source, vips);
    forall k | 0 <= k < |vips|
      ensures rules[k] in rules
      ensures Fires(rules[k], p) <==> Holds(source, p) && p.dnatted && Is(vips[k], p.originalDaddr)
    {
      assert rules[k] == SourceRule(source, vips[k]);
      var conds := rules[k].conds;
      assert conds == [source, OriginalDestinations([vips[k]]), Dnatted];
      assert source in conds && Dnatted in conds && OriginalDestinations([vips[k]]) in conds;
      assert vips[k] in [vips[k]];
    }
    if x :| x in rules && Fires(x, p) {
      var k :| 0 <= k < |rules| && rules[k] == x;
      assert vips[k] in vips;
    }
    if t :| Holds(source, p) && p.dnatted && t in vips && Is(t, p.originalDaddr) {
      var k :| 0 <= k < |vips| && vips[k] == t;
      assert Fires(rules[k], p);
    }
  }

  predicate BackendTuple(r: Rule, a: string, p: Packet) {
    Is(a, p.daddr) && p.proto == r.proto && IsBackendPort(r, p.dport)
  }

  lemma MasqueradeRuleFires(v: Vip, r: Rule, k: nat, p: Packet)
    requires EffectiveMasquerade(v, r) && k < |DestAddrs(r)|
    ensures MasqueradeRules(v, r)[k] in MasqueradeRules(v, r)
    ensures Fires(MasqueradeRules(v, r)[k], p) <==> p.dnatted && BackendTuple(r, DestAddrs(r)[k], p)
  {
    var x := MasqueradeRules(v, r)[k];
    assert x == MasqueradeRule(DestAddrs(r)[k], r.proto, DestPort(r));
    assert x.conds == [Destination(DestAddrs(r)[k], r.proto, DestPort(r)), Dnatted];
    assert Destination(DestAddrs(r)[k], r.proto, DestPort(r)) in x.conds && Dnatted in x.conds;
  }

  lemma BackendIsTuple(forwards: seq<Vip>, v: Vip, r: Rule, a: string, p: Packet)
    requires Configured(forwards, v, r) && EffectiveMasquerade(v, r) && a in DestAddrs(r) && BackendTuple(r, a, p)
    ensures MasqueradedTuple(forwards, p)
  {
    assert IsBackend(r, a) && WantsMasquerade(v, r);
  }

  lemma FiredIsTuple(forwards: seq<Vip>, x: NftRule, p: Packet)
    requires x in PerVip(forwards, MasqueradeRules) && Fires(x, p)
    ensures p.dnatted && MasqueradedTuple(forwards, p)
  {
    InPerVip(forwards, MasqueradeRules, x);
    var v, r :| Configured(forwards, v, r) && x in MasqueradeRules(v, r);
    var k :| 0 <= k < |MasqueradeRules(v, r)| && MasqueradeRules(v, r)[k] == x;
    assert EffectiveMasquerade(v, r) && k < |DestAddrs(r)|;
    MasqueradeRuleFires(v, r, k, p);
    BackendIsTuple(forwards, v, r, DestAddrs(r)[k], p);
  }

  lemma TupleFires(forwards: seq<Vip>, p: Packet) returns (x: NftRule)
    requires p.dnatted && MasqueradedTuple(forwards, p)
    ensures x in PerVip(forwards, MasqueradeRules) && Fires(x, p)
  {
    var v, r, a :| Configured(forwards, v, r) && WantsMasquerade(v, r) && IsBackend(r, a) && BackendTuple(r, a, p);
    var k :| 0 <= k < |DestAddrs(r)| && DestAddrs(r)[k] == a;
    MasqueradeRuleFires(v, r, k, p);
    x := MasqueradeRules(v, r)[k];
    InPerVip(forwards, MasqueradeRules, x);
  }

  lemma TuplePart(forwards: seq<Vip>, p: Packet)
    ensures (exists x :: x in PerVip(forwards, MasqueradeRules) && Fires(x, p)) <==> p.dnatted && MasqueradedTuple(forwards, p)
  {
    if x :| x in PerVip(forwards, MasqueradeRules) && Fires(x, p) {
      FiredIsTuple(forwards, x, p);
    }
    if p.dnatted && MasqueradedTuple(forwards, p) {
      var x := TupleFires(forwards, p);
    }
  }

  /** The masquerade decision, exactly; leaving the chain out and sorting the SNAT addresses do not change it. */
  lemma SnatDecisionExactly(forwards: seq<Vip>, providers: seq<Network>, snatIps: seq<string>, p: Packet)
    ensures IsMasqueraded(SnatChain(forwards, providers, snatIps), p)
            <==> p.dnatted && (|| MasqueradedTuple(forwards, p)
                               || (ToHairpinVip(forwards, p) && CoveredByAny(p.saddr, providers))
                               || (ToRouterVip(forwards, p) && FromSnatIp(snatIps, p)))
  {
    var entries := PerVip(forwards, MasqueradeRules);
    var hairpin, router := VipsWhere(forwards, Hairpin), VipsWhere(forwards, RouterMasquerade);
    var hairpinRules := if |hairpin| > 0 && |providers| > 0 then SourceRules(SourceInNets(providers), hairpin) else [];
    var sources := SourceIsOneOf(Compact(Sorted(snatIps)));
    var routerRules := if |router| > 0 && |snatIps| > 0 then SourceRules(sources, router) else [];
    var chain := entries + hairpinRules + routerRules;
    FirstActionMeans(chain, p);
    TuplePart(forwards, p);
    HairpinPart(forwards, providers, p);
    RouterPart(forwards, snatIps, p);
    assert forall x :: x in chain <==> x in entries || x in hairpinRules || x in routerRules;
    assert IsMasqueraded(SnatChain(forwards, providers, snatIps), p) <==> exists x :: x in chain && Fires(x, p);
  }

  lemma HairpinPart(forwards: seq<Vip>, providers: seq<Network>, p: Packet)
    ensures var hairpin := VipsWhere(forwards, Hairpin);
            (exists x :: x in (if |hairpin| > 0 && |providers| > 0 then SourceRules(SourceInNets(providers), hairpin) else []) && Fires(x, p))
            <==> p.dnatted && ToHairpinVip(forwards, p) && CoveredByAny(p.saddr, providers)
  {
    SourceRuleFires(SourceInNets(providers), VipsWhere(forwards, Hairpin), p);
    if ToHairpinVip(forwards, p) {
      var v :| v in forwards && Hairpin(v) && Is(v.vip, p.originalDaddr);
      assert v.vip in VipsWhere(forwards, Hairpin);
    }
  }

  lemma RouterPart(forwards: seq<Vip>, snatIps: seq<string>, p: Packet)
    ensures var router := VipsWhere(forwards, RouterMasquerade);
            (exists x :: x in (if |router| > 0 && |snatIps| > 0 then SourceRules(SourceIsOneOf(Compact(Sorted(snatIps))), router) else [])
                         && Fires(x, p))
            <==> p.dnatted && ToRouterVip(forwards, p) && FromSnatIp(snatIps, p)
  {
    SourceRuleFires(SourceIsOneOf(Compact(Sorted(snatIps))), VipsWhere(forwards, RouterMasquerade), p);
    forall a ensures a in Compact(Sorted(snatIps)) <==> a in snatIps {
      InSortedCompact(snatIps, a);
    }
    if ToRouterVip(forwards, p) {
      var v :| v in forwards && RouterMasquerade(v) && Is(v.vip, p.originalDaddr);
      assert v.vip in VipsWhere(forwards, RouterMasquerade);
    }
  }

  /** Some masquerading rule shares this backend, protocol and port. */
  ghost predicate SharedWithMasquerading(forwards: seq<Vip>, a: string, r: Rule) {
    exists w, q, port :: Configured(forwards, w, q) && WantsMasquerade(w, q) && IsBackend(q, a)
                         && q.proto == r.proto && IsBackendPort(q, port) && IsBackendPort(r, port)
  }

  /**
   The chain masquerades per backend tuple, not per rule: a packet of rule r is masqueraded when r
   says so, and also when any other rule to the same backend does.
   */
  lemma SettingIsHonouredExactly(forwards: seq<Vip>, providers: seq<Network>, snatIps: seq<string>, v: Vip, r: Rule, a: string, p: Packet)
    requires Configured(forwards, v, r) && IsBackend(r, a)
    requires p.dnatted && BackendTuple(r, a, p) && Is(v.vip, p.originalDaddr)
    requires forall w :: w in forwards && w.vip == v.vip ==> !w.hairpin && !w.routerMasquerade
    ensures IsMasqueraded(SnatChain(forwards, providers, snatIps), p)
            <==> WantsMasquerade(v, r) || SharedWithMasquerading(forwards, a, r)
  {
    SnatDecisionExactly(forwards, providers, snatIps, p);
    if WantsMasquerade(v, r) {
      assert MasqueradedTuple(forwards, p);
    }
    if SharedWithMasquerading(forwards, a, r) {
      var w, q, port :| Configured(forwards, w, q) && WantsMasquerade(w, q) && IsBackend(q, a)
                        && q.proto == r.proto && IsBackendPort(q, port) && IsBackendPort(r, port);
      assert BackendTuple(q, a, p);
    }
    if MasqueradedTuple(forwards, p) {
      var w, q, b :| Configured(forwards, w, q) && WantsMasquerade(w, q) && IsBackend(q, b) && BackendTuple(q, b, p);
      assert b == a;
    }
  }

  /** Two VIPs, each forwarding one port of a protocol to one backend. */
  function TwoVips(first: string, a: string, second: string, b: string, proto: string, opt: Option<bool>, opt': Option<bool>): seq<Vip> {
    [Vip(first, false, false, false, [Rule(proto, 80, a, [], 0, opt)]), Vip(second, false, false, false, [Rule(proto, 80, b, [], 0, opt')])]
  }

  lemma TwoVipsAccepted(first: string, a: string, second: string, b: string, proto: string, opt: Option<bool>, opt': Option<bool>, parse: Parser)
    requires first != second && a != "" && b != "" && (proto == "tcp" || proto == "udp")
    requires parse(first).V4Address? && parse(second).V4Address? && parse(a).V4Address? && parse(b).V4Address?
    ensures Accepted(TwoVips(first, a, second, b, proto, opt, opt'), parse)
  {
  }

  /** An accepted configuration in which a rule that opts out is masqueraded all the same. */
  lemma OptOutIsOverridden(x: Ip, y: Ip, z: Ip, proto: string, parse: Parser)
    requires x != y && (proto == "tcp" || proto == "udp")
    requires parse(Dotted(x)).V4Address? && parse(Dotted(y)).V4Address? && parse(Dotted(z)).V4Address?
    ensures var forwards := TwoVips(Dotted(x), Dotted(z), Dotted(y), Dotted(z), proto, Some(false), Some(true));
            var p := Packet(0, z, proto, 0, 80, true, false, x, false, 0);
            && Accepted(forwards, parse)
            && !WantsMasquerade(forwards[0], forwards[0].rules[0])
            && Is(forwards[0].vip, p.originalDaddr) && BackendTuple(forwards[0].rules[0], Dotted(z), p)
            && IsMasqueraded(SnatChain(forwards, [], []), p)
  {
    var forwards := TwoVips(Dotted(x), Dotted(z), Dotted(y), Dotted(z), proto, Some(false), Some(true));
    var p := Packet(0, z, proto, 0, 80, true, false, x, false, 0);
    if Dotted(x) == Dotted(y) {
      DottedInjective(x, y);
    }
    DottedNotEmpty(z);
    TwoVipsAccepted(Dotted(x), Dotted(z), Dotted(y), Dotted(z), proto, Some(false), Some(true), parse);
    var w := forwards[1];
    assert w in forwards && w.rules[0] in w.rules && IsBackend(w.rules[0], Dotted(z));
    assert WantsMasquerade(w, w.rules[0]) && BackendTuple(w.rules[0], Dotted(z), p);
    assert MasqueradedTuple(forwards, p);
    SnatDecisionExactly(forwards, [], [], p);
  }

  /** The ruleset depends on the SNAT addresses only as a set, so reordering them reloads nothing. */
  lemma SnatIpsAreASet(forwards: seq<Vip>, providers: seq<Network>, a: seq<string>, b: seq<string>, zone: nat)
    requires forall x :: x in a <==> x in b
    ensures Compiled(forwards, providers, a, zone) == Compiled(forwards, providers, b, zone)
  {
    SortedSorts(a);
    SortedSorts(b);
    CompactIsStrict(Sorted(a));
    CompactIsStrict(Sorted(b));
    forall x ensures x in Compact(Sorted(a)) <==> x in Compact(Sorted(b)) {
      InSortedCompact(a, x);
      InSortedCompact(b, x);
    }
    StrictLists(Compact(Sorted(a)), Compact(Sorted(b)));
    assert |a| > 0 <==> |b| > 0 by {
      if |a| > 0 { assert a[0] in b; }
      if |b| > 0 { assert b[0] in a; }
    }
  }

  lemma {:induction false} CompactIsStrict(s: seq<string>)
    requires IsSorted(s)
    ensures Strict(Compact(s))
  {
    if |s| >= 2 {
      var last := |s| - 1;
      CompactIsStrict(s[..last]);
      forall i | 0 <= i < |Compact(s[..last])|
        ensures Below(Compact(s[..last])[i], s[last]) && (s[last] != s[last - 1] ==> Compact(s[..last])[i] != s[last])
      {
        InCompact(s[..last], Compact(s[..last])[i]);
        var j :| 0 <= j < last && s[j] == Compact(s[..last])[i];
        if s[j] == s[last] && j < last - 1 {
          BelowAntisymmetric(s[last - 1], s[last]);
        }
      }
    }
  }

  // ---------------------------------------------------------------------------
  // Marks and the veth guard
  // ---------------------------------------------------------------------------

  ghost predicate ToVip(forwards: seq<Vip>, p: Packet) {
    p.dnatted && exists v :: v in forwards && Is(v.vip, p.originalDaddr)
  }

  lemma ThreeConds(a: Cond, b: Cond, c: Cond, action: Action, p: Packet)
    ensures Fires(NftRule([a, b, c], action), p) <==> Holds(a, p) && Holds(b, p) && Holds(c, p)
  {
  }

  lemma ToVipIsMatched(forwards: seq<Vip>, p: Packet)
    ensures ToVip(forwards, p) <==> p.dnatted && Holds(OriginalDestinations(VipsWhere(forwards, Any)), p)
  {
  }

  lemma MarkRulesFire(forwards: seq<Vip>, p: Packet)
    ensures Fires(OriginalMarkRule(VipsWhere(forwards, Any)), p) <==> ToVip(forwards, p) && !p.reply
    ensures Fires(ReplyMarkRule(VipsWhere(forwards, Any)), p) <==> ToVip(forwards, p) && p.reply
  {
    var vips := VipsWhere(forwards, Any);
    ToVipIsMatched(forwards, p);
    ThreeConds(Original, Dnatted, OriginalDestinations(vips), SetMark(DNAT_FWMARK), p);
    ThreeConds(Reply, Dnatted, OriginalDestinations(vips), SetMark(DNAT_REPLY_FWMARK), p);
  }

  /** Exactly the translated flows of configured VIPs are marked, each direction with its own mark. */
  lemma MarksExactly(forwards: seq<Vip>, providers: seq<Network>, snatIps: seq<string>, zone: nat, p: Packet)
    ensures var rs := Compiled(forwards, providers, snatIps, zone);
            && MarkAfter(rs.preroutingFwmark, p)
               == (if !ToVip(forwards, p) then p else p.(mark := if p.reply then DNAT_REPLY_FWMARK else DNAT_FWMARK))
            && MarkAfter(rs.outputFwmark, p)
               == (if ToVip(forwards, p) && p.reply then p.(mark := DNAT_REPLY_FWMARK) else p)
  {
    var vips := VipsWhere(forwards, Any);
    var o, r := OriginalMarkRule(vips), ReplyMarkRule(vips);
    var p' := if Fires(o, p) then p.(mark := DNAT_FWMARK) else p;
    MarkRulesFire(forwards, p);
    MarkRulesFire(forwards, p');
    TwoMarks(o, r, p);
    OneMark(r, p);
  }

  lemma OneMark(r: NftRule, p: Packet)
    requires r.action.SetMark?
    ensures MarkAfter([r], p) == if Fires(r, p) then p.(mark := r.action.mark) else p
  {
  }

  lemma TwoMarks(o: NftRule, r: NftRule, p: Packet)
    requires o.action.SetMark? && r.action.SetMark?
    ensures MarkAfter([o, r], p)
            == var p' := if Fires(o, p) then p.(mark := o.action.mark) else p;
               if Fires(r, p') then p'.(mark := r.action.mark) else p'
  {
    assert [o, r][1..] == [r];
    OneMark(r, if Fires(o, p) then p.(mark := o.action.mark) else p);
  }

  lemma TwoConds(a: Cond, b: Cond, action: Action, p: Packet)
    ensures Fires(NftRule([a, b], action), p) <==> Holds(a, p) && Holds(b, p)
  {
  }

  lemma OneCond(a: Cond, action: Action, p: Packet)
    ensures Fires(NftRule([a], action), p) <==> Holds(a, p)
  {
  }

  /** The guard's verdict: none for packets not leaving through the veth, otherwise drop or accept. */
  lemma GuardDecides(providers: seq<Network>, p: Packet)
    ensures var met := FirstAction(GuardRules(providers), p);
            && (met.None? <==> !p.outVeth)
            && (met.Some? ==> met.value.action
                              == if CoveredByAny(p.saddr, providers) || p.mark == DNAT_REPLY_FWMARK then Accept else Drop)
  {
    var accept, reply, drop := NftRule([OutVeth, SourceInNets(providers)], Accept), NftRule([OutVeth, Marked(DNAT_REPLY_FWMARK)], Accept),
                               NftRule([OutVeth], Drop);
    TwoConds(OutVeth, SourceInNets(providers), Accept, p);
    TwoConds(OutVeth, Marked(DNAT_REPLY_FWMARK), Accept, p);
    OneCond(OutVeth, Drop, p);
    FirstActionCons(drop, [], p);
    FirstActionCons(reply, [drop], p);
    assert [drop] + [] == [drop];
    var tail := [reply] + [drop];
    FirstActionCons(accept, tail, p);
    if |providers| > 0 {
      assert GuardRules(providers) == [accept] + tail;
    } else {
      assert GuardRules(providers) == tail;
    }
  }

  lemma FirstActionCons(r: NftRule, rest: seq<NftRule>, p: Packet)
    ensures FirstAction([r] + rest, p) == if Fires(r, p) then Some(r) else FirstAction(rest, p)
  {
  }

  const CLEAR_RULE := NftRule([OutVeth, Marked(DNAT_REPLY_FWMARK)], SetMark(0))

  lemma ClearUnmarks(p: Packet)
    requires p.outVeth && p.mark == DNAT_REPLY_FWMARK
    ensures MarkAfter([CLEAR_RULE], p) == p.(mark := 0)
  {
  }

  /** A reply of a forwarded flow, marked on either path, passes the guard and leaves unmarked. */
  lemma ReplyCrossesVeth(forwards: seq<Vip>, providers: seq<Network>, snatIps: seq<string>, zone: nat, p: Packet)
    requires ToVip(forwards, p) && p.reply && p.outVeth
    ensures var rs := Compiled(forwards, providers, snatIps, zone);
            var marked := MarkAfter(rs.preroutingFwmark, p);
            && marked == MarkAfter(rs.outputFwmark, p)
            && (var met := FirstAction(rs.forwardVethGuard, marked); met.Some? && met.value.action == Accept)
            && MarkAfter(rs.postroutingFwmarkClear, marked) == p.(mark := 0)
  {
    MarksExactly(forwards, providers, snatIps, zone, p);
    var marked := p.(mark := DNAT_REPLY_FWMARK);
    GuardDecides(providers, marked);
    ClearUnmarks(marked);
    assert Compiled(forwards, providers, snatIps, zone).postroutingFwmarkClear == [CLEAR_RULE];
  }

  /** The request of a forwarded flow carries the other mark: out of the veth it passes only from a provider network. */
  lemma RequestNeedsProvider(forwards: seq<Vip>, providers: seq<Network>, snatIps: seq<string>, zone: nat, p: Packet)
    requires ToVip(forwards, p) && !p.reply && p.outVeth
    ensures var rs := Compiled(forwards, providers, snatIps, zone);
            var met := FirstAction(rs.forwardVethGuard, MarkAfter(rs.preroutingFwmark, p));
            met.Some? && met.value.action == if CoveredByAny(p.saddr, providers) then Accept else Drop
  {
    MarksExactly(forwards, providers, snatIps, zone, p);
    GuardDecides(providers, p.(mark := DNAT_FWMARK));
  }
}
