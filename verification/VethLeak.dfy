/**
 The per-network routes and policy rules of the veth leak. Routes and rules drift
 independently, so each is compared with the desired networks on its own.
 */
module VethLeak {
  import opened Wrappers
  import opened Networks

  /** Who installed the route of a destination, and whether it goes through the configured nexthop. */
  datatype LeakRoute = LeakRoute(ours: bool, viaNexthop: bool)

  datatype PolicyRule = PolicyRule(src: Option<Network>, table: int, priority: int)

  datatype Tables = Tables(routes: map<Network, LeakRoute>, rules: set<PolicyRule>)

  const OURS := LeakRoute(true, true)

  predicate AllFour(nets: set<Network>) {
    forall n :: n in nets ==> n.Network4?
  }

  /** The networks whose route the reconciliation takes for its own. */
  function Recognised(routes: map<Network, LeakRoute>): set<Network> {
    set n | n in routes && routes[n] == OURS
  }

  /** The networks with a policy rule of this table and priority. */
  function RuleNets(rules: set<PolicyRule>, table: int, priority: int): set<Network> {
    set r | r in rules && r.src.Some? && r.table == table && r.priority == priority :: r.src.value
  }

  function RuleFor(n: Network, table: int, priority: int): PolicyRule {
    PolicyRule(Some(n), table, priority)
  }

  function OurRoutes(nets: set<Network>): map<Network, LeakRoute> {
    map n | n in nets :: OURS
  }

  function OurRules(nets: set<Network>, table: int, priority: int): set<PolicyRule> {
    set n | n in nets :: RuleFor(n, table, priority)
  }

  /** Outside the desired networks only recognised routes go, none comes or changes; rules of other tables and priorities stay. */
  ghost predicate Contained(before: Tables, now: Tables, desired: set<Network>, table: int, priority: int) {
    && (forall n :: n !in desired && n in now.routes ==> n in before.routes && now.routes[n] == before.routes[n])
    && (forall n :: n !in desired && n in before.routes && before.routes[n] != OURS ==> n in now.routes)
    && (forall r: PolicyRule :: r.src.None? || r.table != table || r.priority != priority ==> (r in now.rules <==> r in before.rules))
  }

  /** No desired network loses its route or its rule, and nothing stale goes before every desired network has both. */
  ghost predicate NoGap(before: Tables, now: Tables, desired: set<Network>, table: int, priority: int) {
    && desired * Recognised(before.routes) <= Recognised(now.routes)
    && desired * RuleNets(before.rules, table, priority) <= RuleNets(now.rules, table, priority)
    && (|| desired <= Recognised(now.routes) * RuleNets(now.rules, table, priority)
        || (Recognised(before.routes) <= Recognised(now.routes)
            && RuleNets(before.rules, table, priority) <= RuleNets(now.rules, table, priority)))
  }

  ghost predicate Safe(before: Tables, now: Tables, desired: set<Network>, table: int, priority: int) {
    Contained(before, now, desired, table, priority) && NoGap(before, now, desired, table, priority)
  }

  class VethLeakManager {
    const table: int
    const priority: int
    var kernel: Tables
    /** The state after every netlink call so far. */
    ghost var log: seq<Tables>
    /** How many netlink calls failed so far. */
    ghost var failures: nat

    constructor (table: int, priority: int, kernel: Tables)
      ensures this.table == table && this.priority == priority && this.kernel == kernel && log == [] && failures == 0
    {
      this.table, this.priority, this.kernel, log, failures := table, priority, kernel, [], 0;
    }

    method Netlink(next: Tables) returns (ok: bool)
      modifies this
      ensures kernel == if ok then next else old(kernel)
      ensures log == old(log) + [kernel]
      ensures failures == old(failures) + if ok then 0 else 1
    {
      ok := *;
      if ok {
        kernel := next;
      }
      log, failures := log + [kernel], failures + if ok then 0 else 1;
    }

    ghost predicate Extends(log0: seq<Tables>, before: Tables, desired: set<Network>)
      reads this
    {
      log0 <= log && forall i :: |log0| <= i < |log| ==> Safe(before, log[i], desired, table, priority)
    }

    /** RouteReplace: whatever route the destination had is replaced. A destination of another family than the nexthop is refused. */
    method InstallRoute(n: Network, desired: set<Network>, ghost before: Tables, ghost added: set<Network>, ghost start: seq<Tables>)
      returns (ok: bool, ghost added': set<Network>)
      requires n in desired && added <= desired && kernel == before.(routes := before.routes + OurRoutes(added))
      requires Extends(start, before, desired)
      modifies this
      ensures ok ==> n.Network4?
      ensures added' == if ok then added + {n} else added
      ensures kernel == before.(routes := before.routes + OurRoutes(added'))
      ensures Extends(start, before, desired)
      ensures failures == old(failures) + if ok || n.Network6? then 0 else 1
    {
      if n.Network6? {
        return false, added;
      }
      ok := Netlink(kernel.(routes := kernel.routes[n := OURS]));
      added' := if ok then added + {n} else added;
      assert before.routes + OurRoutes(added + {n}) == (before.routes + OurRoutes(added))[n := OURS];
      AddingIsSafe(before, kernel, added', desired, table, priority);
    }

    method AddRoutes(desired: set<Network>, current: set<Network>) returns (ok: bool)
      requires current == Recognised(kernel.routes)
      modifies this
      ensures kernel.rules == old(kernel).rules
      ensures exists added :: added <= desired - current && kernel.routes == old(kernel).routes + OurRoutes(added)
                              && (ok ==> added == desired - current)
      ensures Contained(old(kernel), kernel, desired, table, priority) && current <= Recognised(kernel.routes)
      ensures ok ==> Recognised(kernel.routes) == current + desired && AllFour(desired - current)
      ensures AllFour(old(kernel).routes.Keys) ==> AllFour(kernel.routes.Keys)
      ensures Extends(old(log), old(kernel), desired)
      ensures desired <= current ==> ok && log == old(log) && kernel == old(kernel)
      ensures failures >= old(failures) && (failures == old(failures) && AllFour(desired - current) ==> ok)
    {
      ghost var before, start := kernel, log;
      ghost var added: set<Network> := {};
      var todo := desired;
      ok := true;
      while todo != {} && ok
        invariant todo <= desired && added <= desired - current - todo && (ok ==> added == desired - current - todo)
        invariant AllFour(added)
        invariant kernel == before.(routes := before.routes + OurRoutes(added))
        invariant Extends(start, before, desired)
        invariant desired <= current ==> ok && log == start
        invariant failures >= old(failures) && (failures == old(failures) && AllFour(desired - current) ==> ok)
        decreases todo
      {
        var n :| n in todo;
        todo := todo - {n};
        if n !in current {
          assert n in desired - current;
          ok, added := InstallRoute(n, desired, before, added, start);
        }
      }
      AddingIsSafe(before, kernel, added, desired, table, priority);
      assert added == {} ==> before.routes + OurRoutes(added) == before.routes;
    }

    /** RuleAdd: an existing rule is not an error. */
    method InstallRule(n: Network, desired: set<Network>, ghost before: Tables, ghost rules: set<PolicyRule>, ghost added: set<Network>, ghost start: seq<Tables>)
      returns (ok: bool, ghost added': set<Network>)
      requires n in desired && added <= desired && kernel.rules == rules + OurRules(added, table, priority) && before.rules == rules
      requires Recognised(before.routes) <= Recognised(kernel.routes) && Contained(before, kernel.(rules := rules), desired, table, priority)
      requires Extends(start, before, desired)
      modifies this
      ensures added' == if ok then added + {n} else added
      ensures kernel == old(kernel).(rules := rules + OurRules(added', table, priority))
      ensures Extends(start, before, desired)
      ensures failures >= old(failures) && (failures == old(failures) ==> ok)
    {
      var known := RuleFor(n, table, priority) in kernel.rules;
      ok := Netlink(kernel.(rules := kernel.rules + {RuleFor(n, table, priority)}));
      ok := ok || known;
      added' := if ok then added + {n} else added;
      assert OurRules(added + {n}, table, priority) == OurRules(added, table, priority) + {RuleFor(n, table, priority)};
      AddingRulesIsSafe(before, kernel, rules, added', desired, table, priority);
    }

    method AddRules(desired: set<Network>, known: set<Network>, ghost before: Tables) returns (ok: bool)
      requires known <= RuleNets(kernel.rules, table, priority)
      requires Recognised(before.routes) <= Recognised(kernel.routes) && before.rules == kernel.rules
      requires Contained(before, kernel, desired, table, priority)
      modifies this
      ensures kernel.routes == old(kernel).routes
      ensures exists added :: added <= desired && kernel.rules == old(kernel).rules + OurRules(added, table, priority)
                              && (ok ==> added + known >= desired)
      ensures Contained(before, kernel, desired, table, priority)
      ensures ok ==> RuleNets(kernel.rules, table, priority) == RuleNets(old(kernel).rules, table, priority) + desired
      ensures Extends(old(log), before, desired)
      ensures desired <= known ==> ok && log == old(log) && kernel == old(kernel)
      ensures failures >= old(failures) && (failures == old(failures) ==> ok)
    {
      ghost var start, rules, routes := log, kernel.rules, kernel.routes;
      ghost var added: set<Network> := {};
      var todo := desired;
      ok := true;
      while todo != {} && ok
        invariant todo <= desired && added <= desired - known - todo && (ok ==> added == desired - known - todo)
        invariant kernel.routes == routes && kernel.rules == rules + OurRules(added, table, priority)
        invariant Extends(start, before, desired)
        invariant desired <= known ==> ok && log == start
        invariant failures >= old(failures) && (failures == old(failures) ==> ok)
        decreases todo
      {
        var n :| n in todo;
        todo := todo - {n};
        if n !in known {
          ok, added := InstallRule(n, desired, before, rules, added, start);
        }
      }
      AddingRulesIsSafe(before, kernel, rules, added, desired, table, priority);
      ghost var had := RuleNets(rules, table, priority);
      assert ok ==> had + added == had + desired;
      assert added == {} ==> rules + OurRules(added, table, priority) == rules;
    }

    method RemoveRoute(n: Network, desired: set<Network>, ghost before: Tables, ghost start: seq<Tables>, ghost routes: map<Network, LeakRoute>, ghost gone: set<Network>)
      returns (ok: bool, ghost gone': set<Network>)
      requires n !in desired && n in before.routes && before.routes[n] == OURS && kernel.routes == routes - gone
      requires Contained(before, kernel, desired, table, priority) && Extends(start, before, desired)
      requires desired <= Recognised(kernel.routes) * RuleNets(kernel.rules, table, priority)
      modifies this
      ensures gone' == if ok then gone + {n} else gone
      ensures kernel == old(kernel).(routes := routes - gone')
      ensures Contained(before, kernel, desired, table, priority) && Extends(start, before, desired)
      ensures desired <= Recognised(kernel.routes)
      ensures failures == old(failures) + if ok then 0 else 1
    {
      ok := Netlink(kernel.(routes := kernel.routes - {n}));
      gone' := if ok then gone + {n} else gone;
      assert routes - gone - {n} == routes - (gone + {n});
      RemovingIsSafe(before, kernel, desired, table, priority);
    }

    method RemoveRoutes(desired: set<Network>, current: set<Network>, ghost before: Tables) returns (clean: bool, ghost gone: set<Network>)
      requires current <= Recognised(before.routes)
      requires Contained(before, kernel, desired, table, priority)
      requires desired <= Recognised(kernel.routes) * RuleNets(kernel.rules, table, priority)
      modifies this
      ensures kernel == old(kernel).(routes := old(kernel).routes - gone)
      ensures gone <= current - desired && (clean ==> gone == current - desired)
      ensures |current - desired - gone| <= failures - old(failures)
      ensures Extends(old(log), before, desired)
      ensures Contained(before, kernel, desired, table, priority) && desired <= Recognised(kernel.routes)
      ensures current <= desired ==> clean && log == old(log) && kernel == old(kernel)
      ensures failures == old(failures) ==> clean
    {
      ghost var start, routes, rules := log, kernel.routes, kernel.rules;
      gone := {};
      ghost var missed: set<Network> := {};
      clean := true;
      var todo := current;
      while todo != {}
        invariant todo <= current && gone <= current - desired
        invariant forall n :: n in current && n !in desired && n !in todo ==> n in gone || n in missed
        invariant |missed| <= failures - old(failures) && (clean <==> missed == {})
        invariant kernel.rules == rules && kernel.routes == routes - gone && desired <= Recognised(kernel.routes)
        invariant Contained(before, kernel, desired, table, priority) && Extends(start, before, desired)
        invariant current <= desired ==> clean && log == start
        decreases todo
      {
        var n :| n in todo;
        todo := todo - {n};
        if n in desired {
          continue;
        }
        var ok;
        ok, gone := RemoveRoute(n, desired, before, start, routes, gone);
        if !ok {
          clean, missed := false, missed + {n};
        }
      }
      AllButMissed(current - desired, gone, missed);
      assert gone == {} ==> routes - gone == routes;
    }

    method RemoveRules(desired: set<Network>, ghost before: Tables) returns (clean: bool)
      requires Contained(before, kernel, desired, table, priority)
      requires desired <= Recognised(kernel.routes) * RuleNets(kernel.rules, table, priority)
      modifies this
      ensures kernel.routes == old(kernel).routes
      ensures kernel.rules <= old(kernel).rules
      ensures forall r :: r in old(kernel).rules && !Orphaned(r, desired, table, priority) ==> r in kernel.rules
      ensures clean ==> forall r :: r in kernel.rules ==> !Orphaned(r, desired, table, priority)
      ensures Extends(old(log), before, desired)
      ensures RuleNets(old(kernel).rules, table, priority) <= desired ==> clean && log == old(log) && kernel == old(kernel)
      ensures failures == old(failures) ==> clean
      ensures |Orphans(kernel.rules, desired, table, priority)| <= failures - old(failures)
    {
      ghost var start, routes, rules := log, kernel.routes, kernel.rules;
      ghost var missed: set<PolicyRule> := {};
      clean := true;
      var todo := kernel.rules;
      while todo != {}
        invariant todo <= rules
        invariant kernel.routes == routes && kernel.rules <= rules
        invariant forall r :: r in rules && !Orphaned(r, desired, table, priority) ==> r in kernel.rules
        invariant forall r :: r in kernel.rules && r !in todo && Orphaned(r, desired, table, priority) ==> r in missed
        invariant |missed| <= failures - old(failures) && (clean <==> missed == {})
        invariant Extends(start, before, desired)
        invariant RuleNets(rules, table, priority) <= desired ==> clean && log == start && kernel.rules == rules
        decreases todo
      {
        var r :| r in todo;
        todo := todo - {r};
        if r.table != table || r.priority != priority || r.src.None? {
          continue;
        }
        if r.src.value !in desired {
          assert r.src.value in RuleNets(rules, table, priority);
          var ok := Netlink(kernel.(rules := kernel.rules - {r}));
          if !ok {
            clean, missed := false, missed + {r};
          }
          KeptRules(before, rules, kernel, desired, table, priority);
        }
      }
      SubsetSize(Orphans(kernel.rules, desired, table, priority), missed);
    }

    /** Every desired network gets its route and its rule, or the pass ends with an error. */
    method AddMissing(desired: set<Network>, current: set<Network>, known: set<Network>) returns (ok: bool)
      requires current == Recognised(kernel.routes) && known <= RuleNets(kernel.rules, table, priority)
      modifies this
      ensures Contained(old(kernel), kernel, desired, table, priority)
      ensures ok ==> Recognised(kernel.routes) == current + desired
      ensures ok ==> RuleNets(kernel.rules, table, priority) == RuleNets(old(kernel).rules, table, priority) + desired
      ensures Extends(old(log), old(kernel), desired)
      ensures desired <= current && desired <= known ==> ok && kernel == old(kernel) && log == old(log)
      ensures AllFour(old(kernel).routes.Keys) ==> AllFour(kernel.routes.Keys)
      ensures !AllFour(desired - current) ==> !ok && kernel.rules == old(kernel).rules && current <= Recognised(kernel.routes)
      ensures failures >= old(failures) && (failures == old(failures) && AllFour(desired - current) ==> ok)
    {
      ghost var before := kernel;
      ok := AddRoutes(desired, current);
      if ok {
        ok := AddRules(desired, known, before);
      }
    }

    /** Failures here are only logged. */
    method RemoveStale(desired: set<Network>, current: set<Network>, rulesRead: bool, ghost before: Tables) returns (clean: bool)
      requires Recognised(kernel.routes) == current + desired && current <= Recognised(before.routes)
      requires desired <= RuleNets(kernel.rules, table, priority)
      requires Contained(before, kernel, desired, table, priority)
      modifies this
      ensures Contained(before, kernel, desired, table, priority)
      ensures desired <= Recognised(kernel.routes) && desired <= RuleNets(kernel.rules, table, priority)
      ensures clean ==> Recognised(kernel.routes) == desired && RuleNets(kernel.rules, table, priority) == desired
      ensures Extends(old(log), before, desired)
      ensures rulesRead && current <= desired && RuleNets(old(kernel).rules, table, priority) <= desired ==> clean && kernel == old(kernel) && log == old(log)
      ensures failures >= old(failures) && (failures == old(failures) && rulesRead ==> clean)
      ensures Leftover(kernel, desired, table, priority, rulesRead) <= failures - old(failures)
    {
      ghost var full := kernel;
      var routesClean, gone := RemoveRoutes(desired, current, before);
      LeftRoutes(full.routes, current, desired, gone);
      if !rulesRead {
        return false;
      }
      var rulesClean := RemoveRules(desired, before);
      KeptNets(full.rules, kernel.rules, desired, table, priority);
      clean := routesClean && rulesClean;
    }

    /**
     `routesRead`, `rulesRead` and `rulesRead2` say which lists succeed. An unreadable first rule list makes
     every rule look missing, an unreadable second one leaves the orphaned rules for later. A desired IPv6 network
     ends every pass with an error before any rule is added and before anything stale is removed; any other
     error, and anything stale left, is owed to a call that failed.
     */
    method ReconcileVethLeakNetworks(desired: set<Network>, routesRead: bool, rulesRead: bool, rulesRead2: bool) returns (ok: bool, clean: bool)
      requires AllFour(kernel.routes.Keys)
      modifies this
      ensures AllFour(kernel.routes.Keys)
      ensures !AllFour(desired) ==> !ok && kernel.rules == old(kernel).rules && Recognised(old(kernel).routes) <= Recognised(kernel.routes)
      ensures Extends(old(log), old(kernel), desired)
      ensures !routesRead ==> !ok && kernel == old(kernel)
      ensures ok ==> desired <= Recognised(kernel.routes) && desired <= RuleNets(kernel.rules, table, priority)
      ensures ok && clean ==> Recognised(kernel.routes) == desired && RuleNets(kernel.rules, table, priority) == desired
      ensures Contained(old(kernel), kernel, desired, table, priority)
      ensures routesRead && rulesRead && rulesRead2 && Recognised(old(kernel).routes) == desired == RuleNets(old(kernel).rules, table, priority)
              ==> ok && clean && log == old(log) && kernel == old(kernel)
      ensures routesRead && AllFour(desired) && failures == old(failures) ==> ok && (rulesRead2 ==> clean)
      ensures ok ==> Leftover(kernel, desired, table, priority, rulesRead2) <= failures - old(failures)
    {
      clean := false;
      if !routesRead {
        return false, clean;
      }
      ghost var before := kernel;
      var current := Recognised(kernel.routes);
      var known := if rulesRead then RuleNets(kernel.rules, table, priority) else {};
      ok := AddMissing(desired, current, known);
      if !ok {
        return;
      }
      clean := RemoveStale(desired, current, rulesRead2, before);
    }
  }

  predicate Orphaned(r: PolicyRule, desired: set<Network>, table: int, priority: int) {
    r.table == table && r.priority == priority && r.src.Some? && r.src.value !in desired
  }

  /** How many recognised routes of undesired networks are left, and how many orphaned rules, if rules were looked at. */
  ghost function Leftover(t: Tables, desired: set<Network>, table: int, priority: int, rules: bool): nat {
    |Recognised(t.routes) - desired| + if rules then |Orphans(t.rules, desired, table, priority)| else 0
  }

  ghost function Orphans(rules: set<PolicyRule>, desired: set<Network>, table: int, priority: int): set<PolicyRule> {
    set r | r in rules && Orphaned(r, desired, table, priority)
  }

  lemma LeftRoutes(routes: map<Network, LeakRoute>, current: set<Network>, desired: set<Network>, gone: set<Network>)
    requires Recognised(routes) == current + desired && gone <= current - desired
    ensures Recognised(routes - gone) - desired == current - desired - gone && desired <= Recognised(routes - gone)
    ensures gone == current - desired ==> Recognised(routes - gone) == desired
  {
    RecognisedWithout(routes, gone);
  }

  lemma RecognisedWithout(routes: map<Network, LeakRoute>, gone: set<Network>)
    ensures Recognised(routes - gone) == Recognised(routes) - gone
  {
  }

  lemma AllButMissed(stale: set<Network>, gone: set<Network>, missed: set<Network>)
    requires gone <= stale && forall n :: n in stale ==> n in gone || n in missed
    ensures |stale - gone| <= |missed| && (missed == {} ==> gone == stale)
  {
    SubsetSize(stale - gone, missed);
  }

  lemma SubsetSize<T>(a: set<T>, b: set<T>)
    requires a <= b
    ensures |a| <= |b|
  {
    assert b == a + (b - a);
  }

  lemma AddedRoutes(before: Tables, now: Tables, added: set<Network>, desired: set<Network>)
    requires added <= desired && now.routes == before.routes + OurRoutes(added)
    ensures Recognised(now.routes) == Recognised(before.routes) + added
    ensures forall n :: n !in added ==> (n in now.routes <==> n in before.routes) && (n in before.routes ==> now.routes[n] == before.routes[n])
  {
  }

  lemma AddingIsSafe(before: Tables, now: Tables, added: set<Network>, desired: set<Network>, table: int, priority: int)
    requires added <= desired && now == before.(routes := before.routes + OurRoutes(added))
    ensures Safe(before, now, desired, table, priority) && Recognised(now.routes) == Recognised(before.routes) + added
  {
    AddedRoutes(before, now, added, desired);
  }

  lemma AddedRules(before: set<PolicyRule>, now: set<PolicyRule>, added: set<Network>, table: int, priority: int)
    requires now == before + OurRules(added, table, priority)
    ensures RuleNets(now, table, priority) == RuleNets(before, table, priority) + added
    ensures forall r: PolicyRule :: r.src.None? || r.table != table || r.priority != priority ==> (r in now <==> r in before)
  {
    forall n | n in added ensures n in RuleNets(now, table, priority) {
      assert RuleFor(n, table, priority) in now;
    }
    forall n | n in RuleNets(now, table, priority) ensures n in RuleNets(before, table, priority) + added {
      var r :| r in now && r.src == Some(n) && r.table == table && r.priority == priority;
    }
  }

  lemma AddingRulesIsSafe(before: Tables, now: Tables, rules: set<PolicyRule>, added: set<Network>, desired: set<Network>, table: int, priority: int)
    requires Recognised(before.routes) <= Recognised(now.routes) && before.rules == rules
    requires now.rules == rules + OurRules(added, table, priority)
    requires Contained(before, now.(rules := rules), desired, table, priority)
    ensures Safe(before, now, desired, table, priority)
    ensures RuleNets(now.rules, table, priority) == RuleNets(rules, table, priority) + added
  {
    AddedRules(rules, now.rules, added, table, priority);
  }

  /** With every desired network in place, removing anything else leaves no gap. */
  lemma RemovingIsSafe(before: Tables, now: Tables, desired: set<Network>, table: int, priority: int)
    requires Contained(before, now, desired, table, priority)
    requires desired <= Recognised(now.routes) * RuleNets(now.rules, table, priority)
    ensures Safe(before, now, desired, table, priority)
  {
  }

  lemma KeptNets(rules: set<PolicyRule>, now: set<PolicyRule>, desired: set<Network>, table: int, priority: int)
    requires now <= rules && forall r :: r in rules && !Orphaned(r, desired, table, priority) ==> r in now
    ensures desired * RuleNets(rules, table, priority) <= RuleNets(now, table, priority) <= RuleNets(rules, table, priority)
    ensures (forall r :: r in now ==> !Orphaned(r, desired, table, priority)) ==> RuleNets(now, table, priority) <= desired
  {
  }

  lemma KeptRules(before: Tables, rules: set<PolicyRule>, now: Tables, desired: set<Network>, table: int, priority: int)
    requires Contained(before, now.(rules := rules), desired, table, priority)
    requires desired <= Recognised(now.routes) * RuleNets(rules, table, priority)
    requires now.rules <= rules && forall r :: r in rules && !Orphaned(r, desired, table, priority) ==> r in now.rules
    ensures Safe(before, now, desired, table, priority)
  {
  }

  /**
   A route the agent installed through an earlier nexthop is not recognised: a clean pass leaves the agent's
   routes equal to the desired ones exactly when no such route of an undesired network was there.
   */
  lemma OldNexthopRoutesStay(before: Tables, now: Tables, desired: set<Network>, table: int, priority: int)
    requires Contained(before, now, desired, table, priority) && Recognised(now.routes) == desired
    ensures (set n | n in now.routes && now.routes[n].ours) == desired
            <==> forall n :: n in before.routes && n !in desired && before.routes[n].ours ==> before.routes[n].viaNexthop
  {
  }

  /** The failing input: one route through an earlier nexthop and nothing desired; whatever a clean pass leaves has that route. */
  lemma OneOldRouteStays(n: Network, rules: set<PolicyRule>, table: int, priority: int, now: Tables)
    requires Contained(Tables(map[n := LeakRoute(true, false)], rules), now, {}, table, priority) && Recognised(now.routes) == {}
    ensures now.routes == map[n := LeakRoute(true, false)]
  {
  }
}
