/**
 One reconciliation as far as the northbound database is concerned: gateway routing for
 the local routers first, then the cleanup of chassis that have been gone for long enough.
 */
module ReconcileCycle {
  import opened Wrappers
  import opened NorthboundEntries
  import opened StaleChassis
  import StateDerivation

  /** The chassis that managed routes name. */
  function ManagedRouteChassis(nb: Nb): set<string> {
    set u | u in nb.routes && Tags(nb, u) :: Owner(nb.routes[u])
  }

  predicate Tags(nb: Nb, u: string) {
    u in nb.routes && Managed(nb.routes[u]) && Owner(nb.routes[u]) != ""
  }

  /** Some route carries the agents' mark and the tag of this chassis. */
  ghost predicate NamedByRoute(nb: Nb, c: string) {
    c != "" && exists u :: u in nb.routes && StateDerivation.Lookup(nb.routes[u].externalIds, "ovn-network-agent") == "managed"
                           && StateDerivation.Lookup(nb.routes[u].externalIds, "ovn-network-agent-chassis") == c
  }

  lemma ManagedChassisAreNamed(nb: Nb, c: string)
    ensures c in ManagedRouteChassis(nb) <==> NamedByRoute(nb, c)
  {
    if NamedByRoute(nb, c) {
      var u :| u in nb.routes && StateDerivation.Lookup(nb.routes[u].externalIds, "ovn-network-agent") == "managed"
               && StateDerivation.Lookup(nb.routes[u].externalIds, "ovn-network-agent-chassis") == c;
      assert Tags(nb, u) && Owner(nb.routes[u]) == c;
    }
  }

  method ListManagedRouteChassis(north: OvnNorthbound, routesRead: bool) returns (referenced: Option<set<string>>)
    ensures referenced == if routesRead then Some(ManagedRouteChassis(north.nb)) else None
    ensures routesRead ==> forall c :: c in referenced.value <==> NamedByRoute(north.nb, c)
  {
    if !routesRead {
      return None;
    }
    var result: set<string> := {};
    var list := Listing(north.nb.routes.Keys);
    for i := 0 to |list|
      invariant forall c :: c in result ==> c in ManagedRouteChassis(north.nb)
      invariant forall j :: 0 <= j < i && Tags(north.nb, list[j]) ==> Owner(north.nb.routes[list[j]]) in result
    {
      assert list[i] in list;
      if Tags(north.nb, list[i]) {
        result := result + {Owner(north.nb.routes[list[i]])};
      }
    }
    forall u | Tags(north.nb, u) ensures Owner(north.nb.routes[u]) in result {
      assert u in list;
    }
    assert result == ManagedRouteChassis(north.nb);
    forall c {
      ManagedChassisAreNamed(north.nb, c);
    }
    return Some(result);
  }

  /** What a scan hands to the cleanup; without a grace period there is no cleanup. */
  ghost function HandedOver(missing: map<string, int>, s: Scan, period: int, jitter: nat): set<string> {
    if period <= 0 then {} else Handed(missing, s, period + jitter)
  }

  ghost function NextMissing(missing: map<string, int>, s: Scan, period: int, jitter: nat): map<string, int> {
    if period <= 0 then missing else Next(missing, s, period + jitter)
  }

  /**
   One cycle on the database: the ensures of this chassis up to mid, then the cleanup of what its scan hands over. A
   clean one, in which every list could be read and no transaction failed, leaves nothing of it.
   */
  ghost predicate CycleDone(before: Nb, mid: Nb, after: Nb, chassis: string, missing: map<string, int>, missing': map<string, int>,
                            s: Scan, period: int, jitter: nat, clean: bool)
  {
    && Spares(before, mid, chassis)
    && OnlyStaleGone(mid, after, HandedOver(missing, s, period, jitter))
    && (clean ==> s.cleanup && AllStaleGone(mid, after, HandedOver(missing, s, period, jitter)))
    && missing' == NextMissing(missing, s, period, jitter)
    && (s.referenced.Some? ==> s.referenced.value == ManagedRouteChassis(mid))
  }

  /** The scan of one cycle and its cleanup. `listed` says whether the scan can read the routes. */
  method CleanupStaleChassis(tracker: StaleTracker, north: OvnNorthbound, now: int, present: set<string>, listed: bool, routesRead: bool, bindingsRead: bool)
    returns (ghost scan: Scan, ghost handed: set<string>)
    modifies tracker, north
    ensures scan.now == now && scan.present == present && scan.referenced == if listed then Some(ManagedRouteChassis(old(north.nb))) else None
    ensures handed == HandedOver(old(tracker.missing), scan, tracker.gracePeriod, tracker.jitter)
    ensures OnlyStaleGone(old(north.nb), north.nb, handed) && (handed == {} ==> north.nb == old(north.nb))
    ensures scan.cleanup <==> handed == {} || CleanupReads(old(north.nb), handed, routesRead, bindingsRead)
    ensures scan.cleanup && north.failures == old(north.failures) ==> AllStaleGone(old(north.nb), north.nb, handed)
    ensures scan.cleanup && handed != {} ==> StaleLeft(old(north.nb), north.nb, handed) <= north.failures - old(north.failures)
    ensures north.failures >= old(north.failures)
    ensures tracker.missing == NextMissing(old(tracker.missing), scan, tracker.gracePeriod, tracker.jitter)
  {
    var referenced := ListManagedRouteChassis(north, listed);
    var s := Scan(now, referenced, present, true);
    var stale := tracker.FindStale(s);
    scan, handed := s, stale;
    NothingGone(north.nb, stale);
    assert forall m: map<string, int> :: m - {} == m;
    if stale != {} {
      var ok, failed := north.CleanupStaleChassisManagedEntries(stale, routesRead, bindingsRead);
      if ok {
        tracker.Forget(stale);
      } else {
        scan := s.(cleanup := false);
      }
    }
  }

  /**
   The local chassis is in the southbound database, so what its agent has just ensured is
   not cleaned up in the same cycle.
   */
  method Reconcile(tracker: StaleTracker, north: OvnNorthbound, gs: seq<Gateway>, mac: string, hidden: set<string>, now: int,
                   present: set<string>, listed: bool, routesRead: bool, bindingsRead: bool)
    returns (done: seq<bool>, ghost mid: Nb, ghost scan: Scan)
    requires Sound(north.nb) && Apart(gs) && OwnPorts(north.nb, gs)
    requires north.localChassis != "" && north.localChassis in present
    modifies tracker, north
    ensures |done| == |gs|
    ensures |Undone(old(north.nb), gs, done, north.render, hidden)| <= north.failures - old(north.failures)
    ensures north.failures == old(north.failures) ==> ReachableAreDone(old(north.nb), gs, done, north.render, hidden)
    ensures forall i :: 0 <= i < |gs| && done[i] ==> StillReady(north.nb, gs[i], north.render, north.localChassis, mac)
    ensures ForeignRoutesKept(old(north.nb), north.nb)
    ensures tracker.gracePeriod <= 0 ==> north.nb == mid
    ensures CycleDone(old(north.nb), mid, north.nb, north.localChassis, old(tracker.missing), tracker.missing, scan, tracker.gracePeriod, tracker.jitter,
                      routesRead && bindingsRead && north.failures == old(north.failures))
    ensures scan.now == now && scan.present == present && scan.referenced == if listed then Some(ManagedRouteChassis(mid)) else None
  {
    done := north.EnsureGatewayRouting(gs, mac, hidden);
    mid := north.nb;
    ghost var handed;
    scan, handed := CleanupStaleChassis(tracker, north, now, present, listed, routesRead, bindingsRead);
    forall i | 0 <= i < |gs| && done[i] ensures StillReady(north.nb, gs[i], north.render, north.localChassis, mac) {
      ReadySurvivesCleanup(mid, north.nb, gs, i, north.render, north.localChassis, mac, handed);
    }
    GoneWereStale(mid, north.nb, handed);
  }

  lemma GoneWereStale(mid: Nb, after: Nb, stale: set<string>)
    requires OnlyStaleGone(mid, after, stale)
    ensures forall u :: u in mid.routes && (!Managed(mid.routes[u]) || Owner(mid.routes[u]) !in stale) ==> u in after.routes && after.routes[u] == mid.routes[u]
  {
  }
}
