/**
 Runs of many agents on one northbound database: their cycles interleave with each other, with
 restarts and shutdowns, and with what Neutron writes.
 */
module NorthboundRuns {
  import opened NorthboundEntries
  import opened ReconcileCycle
  import opened StaleChassis

  /** The database, and the tracker of every running agent by its chassis. */
  datatype World = World(nb: Nb, missing: map<string, map<string, int>>)

  /** When each agent cleans up after other chassis. */
  datatype Grace = Grace(period: int, jitter: nat)

  datatype Action =
    | Start(chassis: string)
    | Cycle(chassis: string, mid: Nb, scan: Scan, clean: bool)
    | Stop(chassis: string, gs: seq<Gateway>)
    | Neutron

  /** Managed routes are left alone: what Neutron and its operators do. */
  ghost predicate KeepsManaged(before: Nb, after: Nb) {
    && (forall u :: u in before.routes && Managed(before.routes[u]) ==> u in after.routes && after.routes[u] == before.routes[u])
    && (forall u :: u in after.routes && Managed(after.routes[u]) ==> u in before.routes && after.routes[u] == before.routes[u])
  }

  ghost predicate Next(grace: string -> Grace, s: World, a: Action, t: World) {
    match a
    case Start(c) => c !in s.missing && t == s.(missing := s.missing[c := map[]])
    case Cycle(c, mid, scan, clean) =>
      && c != "" && c in scan.present && c in s.missing && c in t.missing && t.missing == s.missing[c := t.missing[c]]
      && CycleDone(s.nb, mid, t.nb, c, s.missing[c], t.missing[c], scan, grace(c).period, grace(c).jitter, clean)
    case Stop(c, gs) => c in s.missing && t.missing == s.missing - {c} && LeavesOthers(s.nb, t.nb, gs)
    case Neutron => t.missing == s.missing && KeepsManaged(s.nb, t.nb)
  }

  ghost predicate Run(grace: string -> Grace, states: seq<World>, actions: seq<Action>) {
    && |states| == |actions| + 1 && states[0].missing == map[]
    && forall i :: 0 <= i < |actions| ==> Moves(grace, states, actions, i)
  }

  ghost predicate Moves(grace: string -> Grace, states: seq<World>, actions: seq<Action>, i: nat)
    requires |states| == |actions| + 1 && i < |actions|
  {
    Next(grace, states[i], actions[i], states[i + 1])
  }

  // ---------------------------------------------------------------------------
  // Who can remove a managed route
  // ---------------------------------------------------------------------------

  ghost predicate OwnedBy(nb: Nb, u: string, c: string) {
    u in nb.routes && Managed(nb.routes[u]) && Owner(nb.routes[u]) == c
  }

  /** The shutdown of an agent to which the route's router is local. */
  ghost predicate StoppedWith(nb: Nb, a: Action, u: string) {
    a.Stop? && LocalManaged(nb, RoutersOf(a.gs), u)
  }

  /** A cycle that hands the chassis to the cleanup. */
  ghost predicate CleanedUp(grace: string -> Grace, s: World, a: Action, c: string) {
    && a.Cycle? && a.chassis in s.missing
    && c in HandedOver(s.missing[a.chassis], a.scan, grace(a.chassis).period, grace(a.chassis).jitter)
  }

  /** A managed route goes only with the shutdown of an agent of its router, or as a chassis handed to a cleanup. */
  lemma RouteLostOnly(grace: string -> Grace, s: World, a: Action, t: World, u: string, c: string)
    requires Next(grace, s, a, t) && OwnedBy(s.nb, u, c) && u !in t.nb.routes
    ensures StoppedWith(s.nb, a, u) || (CleanedUp(grace, s, a, c) && Absent(a.scan, c))
  {
    if a.Cycle? {
      CycleKeeps(s.nb, a.mid, t.nb, a.chassis, s.missing[a.chassis], t.missing[a.chassis], a.scan,
                 grace(a.chassis).period, grace(a.chassis).jitter, a.clean, u, c);
    }
  }

  lemma CycleKeeps(before: Nb, mid: Nb, after: Nb, chassis: string, missing: map<string, int>, missing': map<string, int>,
                   scan: Scan, period: int, jitter: nat, clean: bool, u: string, c: string)
    requires CycleDone(before, mid, after, chassis, missing, missing', scan, period, jitter, clean)
    requires chassis in scan.present && OwnedBy(before, u, c)
    ensures u in after.routes ==> OwnedBy(after, u, c) || OwnedBy(after, u, chassis)
    ensures u !in after.routes ==> c in HandedOver(missing, scan, period, jitter) && Absent(scan, c)
  {
    var handed := HandedOver(missing, scan, period, jitter);
    assert chassis !in handed;
    var routes, bindings :| Pruned(mid, after, routes, bindings) && StaleOnly(mid, handed, routes, bindings);
    if u in routes {
      assert StaleRoute(mid, handed, u);
    }
  }

  /** Every scan of the run sees these chassis, and they run all the agents. */
  ghost predicate AllSee(actions: seq<Action>, live: set<string>) {
    forall i :: 0 <= i < |actions| && actions[i].Cycle? ==> live <= actions[i].scan.present && actions[i].chassis in live
  }

  /**
   No managed route of a live chassis is lost, however cycles interleave: it stays, managed by a live chassis,
   until an agent of its router shuts down.
   */
  lemma {:induction false} LiveRoutesSurvive(grace: string -> Grace, states: seq<World>, actions: seq<Action>, live: set<string>, i: nat, j: nat, u: string)
    requires Run(grace, states, actions) && i <= j < |states| && AllSee(actions, live)
    requires u in states[i].nb.routes && Managed(states[i].nb.routes[u]) && Owner(states[i].nb.routes[u]) in live
    requires forall k :: i <= k < j ==> !StoppedWith(states[k].nb, actions[k], u)
    ensures u in states[j].nb.routes && Managed(states[j].nb.routes[u]) && Owner(states[j].nb.routes[u]) in live
    decreases j
  {
    if i < j {
      LiveRoutesSurvive(grace, states, actions, live, i, j - 1, u);
      assert Moves(grace, states, actions, j - 1);
      LiveRouteInStep(grace, states[j - 1], actions[j - 1], states[j], live, u);
    }
  }

  lemma LiveRouteInStep(grace: string -> Grace, s: World, a: Action, t: World, live: set<string>, u: string)
    requires Next(grace, s, a, t) && (a.Cycle? ==> live <= a.scan.present && a.chassis in live)
    requires u in s.nb.routes && Managed(s.nb.routes[u]) && Owner(s.nb.routes[u]) in live && !StoppedWith(s.nb, a, u)
    ensures u in t.nb.routes && Managed(t.nb.routes[u]) && Owner(t.nb.routes[u]) in live
  {
    if a.Cycle? {
      CycleKeeps(s.nb, a.mid, t.nb, a.chassis, s.missing[a.chassis], t.missing[a.chassis], a.scan,
                 grace(a.chassis).period, grace(a.chassis).jitter, a.clean, u, Owner(s.nb.routes[u]));
    }
  }

  // ---------------------------------------------------------------------------
  // The grace period of each agent
  // ---------------------------------------------------------------------------

  function ScansThen(scans: seq<Scan>, a: Action, c: string): seq<Scan> {
    if a == Start(c) then [] else if a.Cycle? && a.chassis == c then scans + [a.scan] else scans
  }

  /** What an agent has scanned since it started last. */
  function ScansOf(actions: seq<Action>, c: string): seq<Scan> {
    if actions == [] then []
    else
      ScansThen(ScansOf(actions[..|actions| - 1], c), actions[|actions| - 1], c)
  }

  lemma ScansStep(actions: seq<Action>, i: nat, c: string)
    requires i < |actions|
    ensures ScansOf(actions[..i + 1], c) == ScansThen(ScansOf(actions[..i], c), actions[i], c)
  {
    assert actions[..i + 1][..i] == actions[..i] && actions[..i + 1][i] == actions[i];
  }

  /** What one step does to the trackers. */
  ghost predicate TrackerStep(grace: string -> Grace, m: map<string, map<string, int>>, a: Action, m': map<string, map<string, int>>) {
    match a
    case Start(c) => m' == m[c := map[]]
    case Cycle(c, _, scan, _) => c in m && c in m' && m' == m[c := NextMissing(m[c], scan, grace(c).period, grace(c).jitter)]
    case Stop(c, _) => m' == m - {c}
    case Neutron => m' == m
  }

  ghost predicate TrackerRun(grace: string -> Grace, ms: seq<map<string, map<string, int>>>, actions: seq<Action>) {
    && |ms| == |actions| + 1 && ms[0] == map[]
    && forall i :: 0 <= i < |actions| ==> TrackerStep(grace, ms[i], actions[i], ms[i + 1])
  }

  ghost function Trackers(states: seq<World>): (ms: seq<map<string, map<string, int>>>)
    ensures |ms| == |states| && forall i :: 0 <= i < |ms| ==> ms[i] == states[i].missing
  {
    seq(|states|, i requires 0 <= i < |states| => states[i].missing)
  }

  lemma RunMovesTrackers(grace: string -> Grace, states: seq<World>, actions: seq<Action>)
    requires Run(grace, states, actions)
    ensures TrackerRun(grace, Trackers(states), actions)
  {
    forall i | 0 <= i < |actions| ensures TrackerStep(grace, states[i].missing, actions[i], states[i + 1].missing) {
      assert Moves(grace, states, actions, i);
    }
  }

  lemma AfterSnoc(scans: seq<Scan>, s: Scan, g: int)
    ensures After(scans + [s], g) == StaleChassis.Next(After(scans, g), s, g)
  {
    assert (scans + [s])[..|scans|] == scans;
  }

  lemma TrackerStays(grace: string -> Grace, m: map<string, map<string, int>>, a: Action, m': map<string, map<string, int>>, c: string)
    requires TrackerStep(grace, m, a, m') && c in m' && a != Start(c)
    ensures c in m
  {
  }

  lemma TrackerFollows(grace: string -> Grace, m: map<string, map<string, int>>, a: Action, m': map<string, map<string, int>>, c: string, scans: seq<Scan>)
    requires TrackerStep(grace, m, a, m') && c in m' && grace(c).period > 0
    requires a == Start(c) || (c in m && m[c] == After(scans, grace(c).period + grace(c).jitter))
    ensures m'[c] == After(ScansThen(scans, a, c), grace(c).period + grace(c).jitter)
  {
    if a.Cycle? && a.chassis == c {
      AfterSnoc(scans, a.scan, grace(c).period + grace(c).jitter);
    }
  }

  /** Each tracker holds exactly what its agent's own scans put there, whatever the others do. */
  lemma {:induction false} TrackerIsOwnScans(grace: string -> Grace, ms: seq<map<string, map<string, int>>>, actions: seq<Action>, i: nat, c: string)
    requires TrackerRun(grace, ms, actions) && i < |ms| && c in ms[i] && grace(c).period > 0
    ensures ms[i][c] == After(ScansOf(actions[..i], c), grace(c).period + grace(c).jitter)
  {
    if i > 0 {
      if actions[i - 1] != Start(c) {
        TrackerStays(grace, ms[i - 1], actions[i - 1], ms[i], c);
        TrackerIsOwnScans(grace, ms, actions, i - 1, c);
      }
      ScansStep(actions, i - 1, c);
      TrackerFollows(grace, ms[i - 1], actions[i - 1], ms[i], c, ScansOf(actions[..i - 1], c));
    }
  }

  lemma HandedAtLast(scans: seq<Scan>, s: Scan, g: int)
    ensures HandedAt(scans + [s], |scans|, g) == Handed(After(scans, g), s, g)
  {
    assert (scans + [s])[..|scans|] == scans;
  }

  /** The last scan comes at the end of a whole grace period in which every successful one saw c referenced and absent. */
  ghost predicate AbsentForGrace(scans: seq<Scan>, c: string, g: int) {
    var k := |scans| - 1;
    exists j :: 0 <= j < k && AbsentThroughout(scans, j, k, c) && scans[k].now - scans[j].now >= g
  }

  lemma HandedIsAbsentForGrace(scans: seq<Scan>, s: Scan, c: string, g: int)
    requires Monotone(scans + [s]) && g > 0 && c in Handed(After(scans, g), s, g)
    ensures AbsentForGrace(scans + [s], c, g)
  {
    HandedAtLast(scans, s, g);
    GraceIsHonoured(scans + [s], |scans|, c, g);
  }

  /**
   A managed route lost in a step other than such a shutdown belonged to a chassis that every successful scan of the
   deleting agent, since it started, had seen referenced and absent for at least the grace period.
   */
  lemma LostAfterGraceOnly(grace: string -> Grace, states: seq<World>, actions: seq<Action>, i: nat, u: string, c: string)
    requires Run(grace, states, actions) && i < |actions| && OwnedBy(states[i].nb, u, c) && u !in states[i + 1].nb.routes
    requires !StoppedWith(states[i].nb, actions[i], u)
    requires actions[i].Cycle? ==> Monotone(ScansOf(actions[..i + 1], actions[i].chassis))
    ensures var a := actions[i];
            && a.Cycle? && grace(a.chassis).period > 0
            && AbsentForGrace(ScansOf(actions[..i + 1], a.chassis), c, grace(a.chassis).period + grace(a.chassis).jitter)
  {
    var a := actions[i];
    assert Moves(grace, states, actions, i);
    RouteLostOnly(grace, states[i], a, states[i + 1], u, c);
    ScansStep(actions, i, a.chassis);
    LostRouteIsHanded(grace, states, actions, i, c);
    HandedIsAbsentForGrace(ScansOf(actions[..i], a.chassis), a.scan, c, grace(a.chassis).period + grace(a.chassis).jitter);
  }

  lemma LostRouteIsHanded(grace: string -> Grace, states: seq<World>, actions: seq<Action>, i: nat, c: string)
    requires Run(grace, states, actions) && i < |actions| && CleanedUp(grace, states[i], actions[i], c)
    ensures var (d, s) := (actions[i].chassis, actions[i].scan);
            && grace(d).period > 0
            && c in Handed(After(ScansOf(actions[..i], d), grace(d).period + grace(d).jitter), s, grace(d).period + grace(d).jitter)
  {
    RunMovesTrackers(grace, states, actions);
    TrackerIsOwnScans(grace, Trackers(states), actions, i, actions[i].chassis);
  }

  /** No router lists a managed route of this chassis. */
  ghost predicate NoRoutesOf(nb: Nb, c: string) {
    forall u :: OwnedBy(nb, u, c) ==> forall r :: !Owns(nb, r, u)
  }

  /**
   The counterpart: an agent that has missed a chassis without interruption for the grace period takes, in the
   first clean cycle then, every managed route of it away.
   */
  lemma DeadRoutesGo(grace: string -> Grace, states: seq<World>, actions: seq<Action>, i: nat, j: nat, c: string)
    requires Run(grace, states, actions) && i < |actions| && actions[i].Cycle? && actions[i].clean && c != ""
    requires var (d, g) := (actions[i].chassis, grace(actions[i].chassis).period + grace(actions[i].chassis).jitter);
             var scans := ScansOf(actions[..i], d);
             && grace(d).period > 0 && Monotone(scans + [actions[i].scan]) && Absent(actions[i].scan, c)
             && MissedSince(scans, j, c, g) && actions[i].scan.now - scans[j].now >= g
    ensures NoRoutesOf(states[i + 1].nb, c)
  {
    var d := actions[i].chassis;
    MissedIsHanded(ScansOf(actions[..i], d), actions[i].scan, j, c, grace(d).period + grace(d).jitter);
    TrackerIsReplay(grace, states, actions, i);
    CleanCycleTakesHanded(grace, states, actions, i, c);
  }

  lemma CleanCycleTakesHanded(grace: string -> Grace, states: seq<World>, actions: seq<Action>, i: nat, c: string)
    requires Run(grace, states, actions) && i < |actions| && actions[i].Cycle? && actions[i].clean && c != ""
    requires var d := actions[i].chassis;
             grace(d).period > 0 && d in states[i].missing && c in Handed(states[i].missing[d], actions[i].scan, grace(d).period + grace(d).jitter)
    ensures NoRoutesOf(states[i + 1].nb, c)
  {
    var d := actions[i].chassis;
    assert Moves(grace, states, actions, i);
    HandedRoutesGo(actions[i].mid, states[i + 1].nb,
                   HandedOver(states[i].missing[d], actions[i].scan, grace(d).period, grace(d).jitter), c);
  }

  lemma TrackerIsReplay(grace: string -> Grace, states: seq<World>, actions: seq<Action>, i: nat)
    requires Run(grace, states, actions) && i < |actions| && actions[i].Cycle? && grace(actions[i].chassis).period > 0
    ensures var d := actions[i].chassis;
            d in states[i].missing && states[i].missing[d] == After(ScansOf(actions[..i], d), grace(d).period + grace(d).jitter)
  {
    assert Moves(grace, states, actions, i);
    RunMovesTrackers(grace, states, actions);
    TrackerIsOwnScans(grace, Trackers(states), actions, i, actions[i].chassis);
  }

  lemma MissedIsHanded(scans: seq<Scan>, s: Scan, j: nat, c: string, g: int)
    requires Monotone(scans + [s]) && g > 0 && Absent(s, c) && MissedSince(scans, j, c, g) && s.now - scans[j].now >= g
    ensures c in Handed(After(scans, g), s, g)
  {
    var all := scans + [s];
    assert all[..|scans|] == scans && all[|scans|] == s && all[j] == scans[j];
    HandedExactlyAfterGrace(all, |scans|, c, g);
    HandedAtLast(scans, s, g);
  }

  lemma HandedRoutesGo(mid: Nb, after: Nb, handed: set<string>, c: string)
    requires OnlyStaleGone(mid, after, handed) && AllStaleGone(mid, after, handed) && c in handed && c != ""
    ensures NoRoutesOf(after, c)
  {
    forall u, r | Owns(mid, r, u) && OwnedBy(mid, u, c) ensures u !in after.routes {
      assert StaleRoute(mid, handed, u);
    }
  }

  // ---------------------------------------------------------------------------
  // Below the level of cycles
  // ---------------------------------------------------------------------------

  /**
   Cycles are atomic here, and they have to be: a route that a takeover chassis claims between the reading of a
   cleanup and its delete, which names the route by UUID alone, is deleted with the new owner's tag on it.
   */
  lemma ClaimedAfterReadIsLost(g: Gateway, vgw: string, dead: string, chassis: string)
    returns (read: Nb, claimed: Nb, after: Nb, u: string)
    requires dead != "" && dead != chassis
    ensures Sound(read) && StaleRoute(read, {dead}, u)
    ensures RouteEnsured(read, claimed, g, vgw, chassis, Visible(read, {}), u) && OwnedBy(claimed, u, chassis)
    ensures after == Unlinked(claimed, g.routerUuid, u) && u !in after.routes
  {
    u := "u";
    read := Nb(map[u := NewRoute(g.lrpName, vgw, dead)], map[g.routerUuid := RouterRow("", {u})], map[]);
    assert Owns(read, g.routerUuid, u);
    claimed := read.(routes := read.routes[u := Claimed(read.routes[u], g.lrpName, vgw, chassis)]);
    after := Unlinked(claimed, g.routerUuid, u);
  }
}
