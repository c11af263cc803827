/**
 The table in the kernel over the life of the agent: the set-up loads it, every reconciliation reloads
 it, and a reload that fails leaves the table of an earlier one in place.
 */
module NftTable {
  import opened Wrappers
  import opened AddressText
  import opened Ipv4
  import opened Networks
  import opened PortForwardConfig
  import opened NftCompiler
  import opened NftCorrectness
  import opened NftLoad

  /** One reconciliation: what it compiles, and whether it gets as far as nft and nft can run. */
  datatype Reload = Reload(providers: seq<Network>, snatIps: seq<string>, runs: bool)

  /** nft takes exactly the rulesets of which it can read every operand. */
  ghost predicate ReadsRulesets(nft: Ruleset -> bool) {
    forall rs: Ruleset :: nft(rs) <==> Loads(rs)
  }

  function SetupRuleset(forwards: seq<Vip>, zone: nat): Ruleset {
    Compiled(forwards, [], [], zone)
  }

  function RulesetOf(forwards: seq<Vip>, zone: nat, r: Reload): Ruleset {
    Compiled(forwards, r.providers, r.snatIps, zone)
  }

  /** The reload replaces the table. */
  ghost predicate Takes(forwards: seq<Vip>, zone: nat, r: Reload) {
    r.runs && Loads(RulesetOf(forwards, zone, r))
  }

  /** The table after a set-up that loaded and these reloads. */
  ghost function TableAfter(forwards: seq<Vip>, zone: nat, reloads: seq<Reload>): Ruleset {
    if reloads == [] then SetupRuleset(forwards, zone)
    else
      var last := |reloads| - 1;
      if Takes(forwards, zone, reloads[last]) then RulesetOf(forwards, zone, reloads[last]) else TableAfter(forwards, zone, reloads[..last])
  }

  // ---------------------------------------------------------------------------
  // The agent's part
  // ---------------------------------------------------------------------------

  class PortForwardTable {
    const forwards: seq<Vip>
    const zone: nat
    const parse: Parser
    const nft: Ruleset -> bool
    /** What the kernel has, possibly from an earlier run of the agent. */
    var table: Option<Ruleset>

    ghost predicate Valid() {
      Accepted(forwards, parse) && ReadsRulesets(nft)
    }

    constructor (forwards: seq<Vip>, zone: nat, parse: Parser, nft: Ruleset -> bool, table: Option<Ruleset>)
      requires Accepted(forwards, parse) && ReadsRulesets(nft)
      ensures Valid() && this.forwards == forwards && this.zone == zone && this.table == table
    {
      this.forwards, this.zone, this.parse, this.nft, this.table := forwards, zone, parse, nft, table;
    }

    /** Delete and create in one call: the whole table is replaced, or none of it. */
    method ApplyNftRuleset(providers: seq<Network>, snatIps: seq<string>, runs: bool) returns (ok: bool)
      requires Valid()
      modifies this
      ensures ok <==> runs && QuadsOnly(forwards) && ReadableInputs(forwards, providers, snatIps)
      ensures table == if ok then Some(Compiled(forwards, providers, snatIps, zone)) else old(table)
    {
      LoadsExactly(forwards, providers, snatIps, zone, parse);
      var rs := BuildNftRuleset(forwards, providers, snatIps, zone);
      ok := runs && nft(rs);
      if ok {
        table := Some(rs);
      }
    }

    /** `vips` and `rest` say whether the steps before and after the ruleset succeed. */
    method SetupPortForward(vips: bool, runs: bool, rest: bool) returns (ok: bool)
      requires Valid()
      modifies this
      ensures ok <==> vips && runs && rest && QuadsOnly(forwards)
      ensures table == if vips && runs && QuadsOnly(forwards) then Some(SetupRuleset(forwards, zone)) else old(table)
    {
      if !vips {
        return false;
      }
      var loaded := ApplyNftRuleset([], [], runs);
      ok := loaded && rest;
    }

    method ReconcilePortForward(r: Reload)
      requires Valid()
      modifies this
      ensures table == if Takes(forwards, zone, r) then Some(RulesetOf(forwards, zone, r)) else old(table)
    {
      LoadsExactly(forwards, r.providers, r.snatIps, zone, parse);
      var _ := ApplyNftRuleset(r.providers, r.snatIps, r.runs);
    }

    /** A run of the agent: without a set-up there is none. */
    method Run(vips: bool, runs: bool, rest: bool, reloads: seq<Reload>) returns (started: bool)
      requires Valid()
      modifies this
      ensures started <==> vips && runs && rest && QuadsOnly(forwards)
      ensures started ==> table == Some(TableAfter(forwards, zone, reloads))
      ensures !QuadsOnly(forwards) ==> table == old(table)
    {
      started := SetupPortForward(vips, runs, rest);
      if !started {
        return;
      }
      for i := 0 to |reloads|
        invariant table == Some(TableAfter(forwards, zone, reloads[..i]))
      {
        assert reloads[..i + 1][..i] == reloads[..i];
        ReconcilePortForward(reloads[i]);
      }
      assert reloads[..|reloads|] == reloads;
    }
  }

  // ---------------------------------------------------------------------------
  // Which ruleset is in place
  // ---------------------------------------------------------------------------

  /** The set-up loads if and only if every VIP and backend is a dotted quad. */
  lemma SetupLoadsExactly(forwards: seq<Vip>, zone: nat, parse: Parser)
    requires Accepted(forwards, parse)
    ensures Loads(SetupRuleset(forwards, zone)) <==> QuadsOnly(forwards)
  {
    LoadsExactly(forwards, [], [], zone, parse);
  }

  ghost predicate NoneTaken(forwards: seq<Vip>, zone: nat, reloads: seq<Reload>) {
    forall r :: r in reloads ==> !Takes(forwards, zone, r)
  }

  /** While nft takes no further reload the table stays what it was. */
  lemma {:induction false} UntakenChangeNothing(forwards: seq<Vip>, zone: nat, before: seq<Reload>, untaken: seq<Reload>)
    requires NoneTaken(forwards, zone, untaken)
    ensures TableAfter(forwards, zone, before + untaken) == TableAfter(forwards, zone, before)
  {
    if untaken == [] {
      assert before + untaken == before;
    } else {
      var last := |untaken| - 1;
      assert (before + untaken)[..|before + untaken| - 1] == before + untaken[..last];
      assert untaken[last] in untaken;
      UntakenChangeNothing(forwards, zone, before, untaken[..last]);
    }
  }

  /** The table is that of the last reload nft took, or of the set-up when it took none. */
  lemma LastTakenIsInPlace(forwards: seq<Vip>, zone: nat, before: seq<Reload>, r: Reload, untaken: seq<Reload>)
    requires NoneTaken(forwards, zone, untaken)
    ensures TableAfter(forwards, zone, untaken) == SetupRuleset(forwards, zone)
    ensures Takes(forwards, zone, r) ==> TableAfter(forwards, zone, before + [r] + untaken) == RulesetOf(forwards, zone, r)
  {
    UntakenChangeNothing(forwards, zone, [], untaken);
    assert [] + untaken == untaken;
    UntakenChangeNothing(forwards, zone, before + [r], untaken);
    assert (before + [r])[..|before|] == before;
  }

  lemma {:induction false} TableLoads(forwards: seq<Vip>, zone: nat, reloads: seq<Reload>, parse: Parser)
    requires Accepted(forwards, parse) && QuadsOnly(forwards)
    ensures Loads(TableAfter(forwards, zone, reloads))
  {
    if reloads == [] {
      SetupLoadsExactly(forwards, zone, parse);
    } else {
      TableLoads(forwards, zone, reloads[..|reloads| - 1], parse);
    }
  }

  /** Outside the guard and the SNAT chain a table is that of the set-up. */
  ghost predicate SameOutside(a: Ruleset, b: Ruleset) {
    a.(forwardVethGuard := b.forwardVethGuard, postroutingSnat := b.postroutingSnat) == b
  }

  lemma {:induction false} OnlyGuardAndSnatChange(forwards: seq<Vip>, zone: nat, reloads: seq<Reload>)
    ensures SameOutside(SetupRuleset(forwards, zone), TableAfter(forwards, zone, reloads))
  {
    if reloads != [] {
      OnlyGuardAndSnatChange(forwards, zone, reloads[..|reloads| - 1]);
    }
  }

  /**
   After a reload with which nft ran, the guard and the SNAT chain are those of this reload if and only if
   its provider networks are IPv4 and, with router masquerading, its SNAT addresses are dotted quads.
   */
  lemma ChainsCurrentExactly(forwards: seq<Vip>, zone: nat, reloads: seq<Reload>, parse: Parser)
    requires Accepted(forwards, parse) && QuadsOnly(forwards) && reloads != [] && reloads[|reloads| - 1].runs
    ensures var (now, r) := (TableAfter(forwards, zone, reloads), reloads[|reloads| - 1]);
            && (now == RulesetOf(forwards, zone, r) <==> ReadableInputs(forwards, r.providers, r.snatIps))
            && (now == RulesetOf(forwards, zone, r)
                <==> now.forwardVethGuard == RulesetOf(forwards, zone, r).forwardVethGuard
                     && now.postroutingSnat == RulesetOf(forwards, zone, r).postroutingSnat)
  {
    var r := reloads[|reloads| - 1];
    LoadsExactly(forwards, r.providers, r.snatIps, zone, parse);
    TableLoads(forwards, zone, reloads, parse);
    OnlyGuardAndSnatChange(forwards, zone, reloads);
  }

  // ---------------------------------------------------------------------------
  // What keeps working
  // ---------------------------------------------------------------------------

  /** The configuration means this packet for this entry, as validation reads its VIP. */
  predicate Meant(v: Vip, r: Rule, p: Packet, parse: Parser) {
    parse(v.vip) == V4Address(p.daddr) && p.proto == r.proto && p.dport == r.port
  }

  ghost predicate SentAsConfigured(rs: Ruleset, v: Vip, r: Rule, p: Packet, jhash: (NftRule, Ip) -> nat) {
    && |DestAddrs(r)| > 0 && |DnatRules(v, r)| == 1
    && TranslateIn(rs.preroutingDnat, p, jhash) == Some(Chosen(r, jhash(DnatRules(v, r)[0], p.saddr)))
  }

  /** Distinct texts of dotted quads are distinct addresses, so no entry shadows another. */
  lemma QuadVipsAreApart(forwards: seq<Vip>, parse: Parser, v: Vip, w: Vip)
    requires DistinctVips(forwards) && ReadsAddresses(parse) && v in forwards && w in forwards
    requires IsQuad(v.vip) && IsQuad(w.vip) && parse(v.vip) == parse(w.vip)
    ensures v == w
  {
    var x: Ip :| v.vip == Dotted(x);
    var y: Ip :| w.vip == Dotted(y);
    assert parse(Dotted(x)) == V4Address(x) && parse(Dotted(y)) == V4Address(y);
  }

  /** For a dotted quad, validation and nft read the same address. */
  lemma MeantIsServed(v: Vip, r: Rule, p: Packet, parse: Parser)
    requires ReadsAddresses(parse) && IsQuad(v.vip)
    ensures Meant(v, r, p, parse) <==> Serves(v, r, p)
  {
    var x: Ip :| v.vip == Dotted(x);
    assert parse(Dotted(x)) == V4Address(x);
    if Dotted(x) == Dotted(p.daddr) {
      DottedInjective(x, p.daddr);
    }
  }

  /** Whatever the reloads bring and however many fail, every packet meant for an entry is sent where the entry says. */
  lemma EntriesStayServed(forwards: seq<Vip>, zone: nat, reloads: seq<Reload>, parse: Parser, v: Vip, r: Rule, p: Packet, jhash: (NftRule, Ip) -> nat)
    requires Accepted(forwards, parse) && ReadsAddresses(parse) && QuadsOnly(forwards)
    requires Configured(forwards, v, r) && Meant(v, r, p, parse)
    ensures SentAsConfigured(TableAfter(forwards, zone, reloads), v, r, p, jhash)
  {
    AcceptedIsWellShaped(forwards, parse);
    OnlyGuardAndSnatChange(forwards, zone, reloads);
    MeantIsServed(v, r, p, parse);
    DnatIsLookup(forwards, p, jhash);
  }

  // ---------------------------------------------------------------------------
  // The failing input
  // ---------------------------------------------------------------------------

  /** A reload that brings along an IPv6 network is never taken. */
  lemma Network6IsNotTaken(forwards: seq<Vip>, zone: nat, reloads: seq<Reload>, parse: Parser)
    requires Accepted(forwards, parse) && forall r :: r in reloads ==> exists n :: n in r.providers && n.Network6?
    ensures NoneTaken(forwards, zone, reloads)
  {
    forall r | r in reloads ensures !Takes(forwards, zone, r) {
      LoadsExactly(forwards, r.providers, r.snatIps, zone, parse);
    }
  }

  /**
   A router port with an IPv4 and an IPv6 network: no reload is ever taken, the guard stays that of the set-up,
   and it drops the return traffic of the IPv4 network, which every reload meant to accept.
   */
  lemma DualStackStopsTheReloads(forwards: seq<Vip>, zone: nat, reloads: seq<Reload>, parse: Parser, four: Subnet, six: V6Text, p: Packet)
    requires Accepted(forwards, parse) && forall r :: r in reloads ==> r.providers == [Network4(four), Network6(six)]
    requires p.outVeth && Contains(four, p.saddr) && p.mark != DNAT_REPLY_FWMARK
    ensures TableAfter(forwards, zone, reloads) == SetupRuleset(forwards, zone)
    ensures GuardActionIs(SetupRuleset(forwards, zone), p, Drop)
    ensures forall r :: r in reloads ==> GuardActionIs(RulesetOf(forwards, zone, r), p, Accept)
  {
    var providers := [Network4(four), Network6(six)];
    assert providers[0] in providers && providers[1] in providers;
    Network6IsNotTaken(forwards, zone, reloads, parse);
    UntakenChangeNothing(forwards, zone, [], reloads);
    assert [] + reloads == reloads;
    GuardDecides([], p);
    GuardDecides(providers, p);
  }

  predicate GuardActionIs(rs: Ruleset, p: Packet, a: Action) {
    var met := FirstAction(rs.forwardVethGuard, p);
    met.Some? && met.value.action == a
  }
}
