/** The port-forward part of the configuration and its validation. */
module PortForwardConfig {
  import opened Wrappers
  import Networks

  datatype Rule = Rule(proto: string, port: int, destAddr: string, destAddrs: seq<string>, destPort: int, masquerade: Option<bool>)

  datatype Vip = Vip(vip: string, masquerade: bool, hairpin: bool, routerMasquerade: bool, rules: seq<Rule>)

  type Parser = string -> Networks.ParsedIp

  const MAX_BACKENDS := 256

  /** The plural field wins over the singular one. */
  function DestAddrs(r: Rule): seq<string> {
    if |r.destAddrs| > 0 then r.destAddrs
    else if r.destAddr != "" then [r.destAddr]
    else []
  }

  function DestPort(r: Rule): int {
    if r.destPort == 0 then r.port else r.destPort
  }

  function EffectiveMasquerade(v: Vip, r: Rule): bool {
    if r.masquerade.Some? then r.masquerade.value else v.masquerade
  }

  /** An address of the rule: the plural field's, or the singular one's where that is empty. */
  predicate IsBackend(r: Rule, a: string) {
    a in r.destAddrs || (r.destAddrs == [] && a == r.destAddr != "")
  }

  /** The rule's target port; zero stands for the listening port. */
  predicate IsBackendPort(r: Rule, port: int) {
    (r.destPort != 0 && port == r.destPort) || (r.destPort == 0 && port == r.port)
  }

  /** The rule's own setting decides, and the VIP's where the rule has none. */
  predicate WantsMasquerade(v: Vip, r: Rule) {
    r.masquerade == Some(true) || (r.masquerade.None? && v.masquerade)
  }

  function Key(r: Rule): (string, int) {
    (r.proto, r.port)
  }

  // ---------------------------------------------------------------------------
  // Which configurations are accepted
  // ---------------------------------------------------------------------------

  predicate IsPort(p: int) {
    1 <= p <= 65535
  }

  ghost predicate GoodAddrs(addrs: seq<string>, parse: Parser) {
    && 1 <= |addrs| <= 256 && Distinct(addrs)
    && forall k :: 0 <= k < |addrs| ==> parse(addrs[k]).V4Address?
  }

  ghost predicate GoodRule(r: Rule, parse: Parser) {
    && (r.proto == "tcp" || r.proto == "udp") && IsPort(r.port)
    && !(r.destAddr != "" && |r.destAddrs| > 0)
    && GoodAddrs(DestAddrs(r), parse)
    && 0 <= r.destPort <= 65535
  }

  ghost predicate DistinctKeys(rules: seq<Rule>) {
    forall i, j :: 0 <= i < j < |rules| ==> rules[i].proto != rules[j].proto || rules[i].port != rules[j].port
  }

  ghost predicate GoodVip(v: Vip, parse: Parser) {
    && parse(v.vip).V4Address? && |v.rules| > 0 && DistinctKeys(v.rules)
    && forall j :: 0 <= j < |v.rules| ==> GoodRule(v.rules[j], parse)
  }

  ghost predicate DistinctVips(forwards: seq<Vip>) {
    forall i, j :: 0 <= i < j < |forwards| ==> forwards[i].vip != forwards[j].vip
  }

  ghost predicate Accepted(forwards: seq<Vip>, parse: Parser) {
    DistinctVips(forwards) && forall i :: 0 <= i < |forwards| ==> GoodVip(forwards[i], parse)
  }

  /** What acceptance says without reading any address. */
  ghost predicate WellShaped(forwards: seq<Vip>) {
    && DistinctVips(forwards)
    && forall v, r :: Configured(forwards, v, r) ==> DistinctKeys(v.rules) && 1 <= |DestAddrs(r)|
  }

  predicate Configured(forwards: seq<Vip>, v: Vip, r: Rule) {
    v in forwards && r in v.rules
  }

  lemma AcceptedRule(forwards: seq<Vip>, parse: Parser, v: Vip, r: Rule)
    requires Accepted(forwards, parse) && Configured(forwards, v, r)
    ensures GoodVip(v, parse) && GoodRule(r, parse)
  {
    var i :| 0 <= i < |forwards| && forwards[i] == v;
    assert GoodVip(forwards[i], parse);
    var j :| 0 <= j < |v.rules| && v.rules[j] == r;
    assert GoodRule(v.rules[j], parse);
  }

  lemma AcceptedIsWellShaped(forwards: seq<Vip>, parse: Parser)
    requires Accepted(forwards, parse)
    ensures WellShaped(forwards)
  {
    forall v, r | Configured(forwards, v, r) ensures DistinctKeys(v.rules) && 1 <= |DestAddrs(r)| {
      AcceptedRule(forwards, parse, v, r);
    }
  }

  // ---------------------------------------------------------------------------
  // Validation
  // ---------------------------------------------------------------------------

  datatype RuleError =
    | InvalidProto | InvalidPort | DuplicateRule | BothDestinations | NoDestination | TooManyBackends
    | InvalidDest(k: nat) | Ipv6Dest(k: nat) | DuplicateDest(k: nat) | InvalidDestPort

  datatype ConfigError =
    | InvalidVip(i: nat) | Ipv6Vip(i: nat) | DuplicateVip(i: nat) | NoRules(i: nat)
    | BadRule(i: nat, j: nat, error: RuleError)

  /** The error is real: it names an offence against exactly the rule it points at. */
  ghost predicate RuleOffends(rules: seq<Rule>, j: nat, e: RuleError, parse: Parser)
    requires j < |rules|
  {
    var r := rules[j];
    var addrs := DestAddrs(r);
    match e
    case InvalidProto => r.proto != "tcp" && r.proto != "udp"
    case InvalidPort => !IsPort(r.port)
    case DuplicateRule => exists m :: 0 <= m < j && Key(rules[m]) == Key(r)
    case BothDestinations => r.destAddr != "" && |r.destAddrs| > 0
    case NoDestination => |addrs| == 0
    case TooManyBackends => |addrs| > MAX_BACKENDS
    case InvalidDest(k) => k < |addrs| && parse(addrs[k]).NotAnAddress?
    case Ipv6Dest(k) => k < |addrs| && parse(addrs[k]).V6Address?
    case DuplicateDest(k) => k < |addrs| && addrs[k] in addrs[..k]
    case InvalidDestPort => !(0 <= r.destPort <= 65535)
  }

  ghost predicate Offends(forwards: seq<Vip>, e: ConfigError, parse: Parser) {
    e.i < |forwards| &&
    match e
    case InvalidVip(i) => parse(forwards[i].vip).NotAnAddress?
    case Ipv6Vip(i) => parse(forwards[i].vip).V6Address?
    case DuplicateVip(i) => exists m :: 0 <= m < i && forwards[m].vip == forwards[i].vip
    case NoRules(i) => forwards[i].rules == []
    case BadRule(i, j, error) => j < |forwards[i].rules| && RuleOffends(forwards[i].rules, j, error, parse)
  }

  method ValidateAddrs(addrs: seq<string>, parse: Parser) returns (r: Result<(), RuleError>)
    requires 1 <= |addrs| <= MAX_BACKENDS
    ensures r.Ok? <==> GoodAddrs(addrs, parse)
    ensures r.Err? ==> match r.error
                       case InvalidDest(k) => k < |addrs| && parse(addrs[k]).NotAnAddress?
                       case Ipv6Dest(k) => k < |addrs| && parse(addrs[k]).V6Address?
                       case DuplicateDest(k) => k < |addrs| && addrs[k] in addrs[..k]
                       case _ => false
  {
    var seen: set<string> := {};
    for k := 0 to |addrs|
      invariant seen == set a | a in addrs[..k]
      invariant Distinct(addrs[..k])
      invariant forall m :: 0 <= m < k ==> parse(addrs[m]).V4Address?
    {
      assert addrs[..k + 1] == addrs[..k] + [addrs[k]];
      if parse(addrs[k]).NotAnAddress? {
        return Err(InvalidDest(k));
      }
      if parse(addrs[k]).V6Address? {
        return Err(Ipv6Dest(k));
      }
      if addrs[k] in seen {
        return Err(DuplicateDest(k));
      }
      seen := seen + {addrs[k]};
    }
    assert addrs[..|addrs|] == addrs;
    return Ok(());
  }

  method ValidateRules(rules: seq<Rule>, parse: Parser) returns (j: nat, r: Result<(), RuleError>)
    ensures r.Ok? <==> DistinctKeys(rules) && forall m :: 0 <= m < |rules| ==> GoodRule(rules[m], parse)
    ensures r.Err? ==> j < |rules| && RuleOffends(rules, j, r.error, parse)
  {
    var seen: set<(string, int)> := {};
    j := 0;
    while j < |rules|
      invariant j <= |rules|
      invariant forall key :: key in seen <==> exists m :: 0 <= m < j && Key(rules[m]) == key
      invariant DistinctKeys(rules[..j])
      invariant forall m :: 0 <= m < j ==> GoodRule(rules[m], parse)
    {
      var rule := rules[j];
      assert rules[..j + 1] == rules[..j] + [rule];
      if rule.proto != "tcp" && rule.proto != "udp" {
        return j, Err(InvalidProto);
      }
      if rule.port < 1 || rule.port > 65535 {
        return j, Err(InvalidPort);
      }
      if Key(rule) in seen {
        return j, Err(DuplicateRule);
      }
      seen := seen + {Key(rule)};
      if rule.destAddr != "" && |rule.destAddrs| > 0 {
        return j, Err(BothDestinations);
      }
      var addrs := DestAddrs(rule);
      if |addrs| == 0 {
        return j, Err(NoDestination);
      }
      if |addrs| > MAX_BACKENDS {
        return j, Err(TooManyBackends);
      }
      var checked := ValidateAddrs(addrs, parse);
      if checked.Err? {
        return j, checked;
      }
      if rule.destPort < 0 || rule.destPort > 65535 {
        return j, Err(InvalidDestPort);
      }
      j := j + 1;
    }
    assert rules[..|rules|] == rules;
    r := Ok(());
  }

  method ValidatePortForwards(forwards: seq<Vip>, parse: Parser) returns (r: Result<(), ConfigError>)
    ensures r.Ok? <==> Accepted(forwards, parse)
    ensures r.Err? ==> Offends(forwards, r.error, parse)
  {
    var seen: set<string> := {};
    for i := 0 to |forwards|
      invariant forall t :: t in seen <==> exists m :: 0 <= m < i && forwards[m].vip == t
      invariant DistinctVips(forwards[..i])
      invariant forall m :: 0 <= m < i ==> GoodVip(forwards[m], parse)
    {
      var v := forwards[i];
      assert forwards[..i + 1] == forwards[..i] + [v];
      if parse(v.vip).NotAnAddress? {
        return Err(InvalidVip(i));
      }
      if parse(v.vip).V6Address? {
        return Err(Ipv6Vip(i));
      }
      if v.vip in seen {
        return Err(DuplicateVip(i));
      }
      seen := seen + {v.vip};
      if |v.rules| == 0 {
        return Err(NoRules(i));
      }
      var j, checked := ValidateRules(v.rules, parse);
      if checked.Err? {
        return Err(BadRule(i, j, checked.error));
      }
    }
    assert forwards[..|forwards|] == forwards;
    return Ok(());
  }
}
