/**
 Runs of the gateway high-availability protocol.

 Agents on every chassis change priorities through the operations of
 GatewayPriority, each acting on a cache that may miss rows; ovn-northd rebinds
 a chassisredirect port to some chassis of highest priority (Elect). Reading the
 southbound binding and writing the boost count as one step.
 */
module FailoverProtocol {
  import opened Wrappers
  import opened GatewayPriority

  /** The northbound Gateway_Chassis rows, and the chassis each bound chassisredirect port is on. */
  datatype Cluster = Cluster(rows: Table, bound: map<string, string>)

  datatype Action =
    | Restore(chassis: string, cache: set<GatewayChassis>)
    | Drain(chassis: string, cache: set<GatewayChassis>)
    | EnsureLead(chassis: string, cache: set<GatewayChassis>, snapshot: seq<LocalRouter>)
    | Elect(winner: string)

  function CrPort(lrp: string): string { "cr-" + lrp }

  /** Snapshots come from a state refresh, which records each LRP with its own chassisredirect port. */
  ghost predicate Faithful(snapshot: seq<LocalRouter>) {
    forall lr <- snapshot :: lr.crPort == CrPort(lr.lrpName)
  }

  ghost predicate IsArgmax(rows: Table, winner: string) {
    winner in rows && forall u <- rows :: LrpOf(rows[u]) == LrpOf(rows[winner]) ==> rows[u].priority <= rows[winner].priority
  }

  ghost predicate Next(s: Cluster, a: Action, t: Cluster) {
    match a
    case Restore(c, cache) =>
      CachedFrom(cache, s.rows) && t.bound == s.bound && RestoreRel(s.rows, t.rows, cache, c)
    case Drain(c, cache) =>
      CachedFrom(cache, s.rows) && t.bound == s.bound && DrainRel(s.rows, t.rows, cache, c)
    case EnsureLead(c, cache, snapshot) =>
      && CachedFrom(cache, s.rows) && Faithful(snapshot) && t.bound == s.bound
      && LeadRel(s.rows, t.rows, cache, snapshot, Some(s.bound), c)
    case Elect(winner) =>
      && IsArgmax(s.rows, winner) && t.rows == s.rows
      && t.bound == s.bound[CrPort(LrpOf(s.rows[winner])) := s.rows[winner].chassisName]
  }

  ghost predicate Run(states: seq<Cluster>, actions: seq<Action>) {
    && |states| == |actions| + 1
    && WellFormed(states[0].rows)
    && forall i :: 0 <= i < |actions| ==> Next(states[i], actions[i], states[i + 1])
  }

  /** Row u: its chassis holds the port of its LRP, at an active priority strictly above every other row. */
  ghost predicate Leads(s: Cluster, u: string) {
    && u in s.rows
    && s.rows[u].priority >= MIN_ACTIVE_PRIORITY
    && (forall v <- s.rows :: v != u && LrpOf(s.rows[v]) == LrpOf(s.rows[u]) ==> s.rows[v].priority < s.rows[u].priority)
    && CrPort(LrpOf(s.rows[u])) in s.bound
    && s.bound[CrPort(LrpOf(s.rows[u]))] == s.rows[u].chassisName
  }

  /** Rows are never added, removed, renamed or moved to another chassis. */
  ghost predicate SameRows(a: Table, b: Table) {
    a.Keys == b.Keys && forall u <- a :: b[u] == a[u].(priority := b[u].priority)
  }

  lemma NextKeepsRows(s: Cluster, a: Action, t: Cluster)
    requires Next(s, a, t) && WellFormed(s.rows)
    ensures SameRows(s.rows, t.rows) && WellFormed(t.rows)
  {
  }

  lemma {:induction false} RunKeepsRows(states: seq<Cluster>, actions: seq<Action>, i: nat)
    requires Run(states, actions) && i < |states|
    ensures WellFormed(states[i].rows) && SameRows(states[0].rows, states[i].rows)
  {
    if i > 0 {
      RunKeepsRows(states, actions, i - 1);
      NextKeepsRows(states[i - 1], actions[i - 1], states[i]);
    }
  }

  lemma CrPortOfSnapshot(snapshot: seq<LocalRouter>, lrp: string)
    requires Faithful(snapshot) && SnapshotHas(snapshot, lrp)
    ensures CrPortByLrp(snapshot)[lrp] == CrPort(lrp)
  {
  }

  lemma CrPortInjective(l: string, m: string)
    requires CrPort(l) == CrPort(m)
    ensures l == m
  {
    assert l == CrPort(l)[3..];
    assert m == CrPort(m)[3..];
  }

  /** A boost of a row needs its port to be bound to that row's chassis, or to nothing. */
  lemma BoostNeedsBinding(s: Cluster, cache: set<GatewayChassis>, snapshot: seq<LocalRouter>, c: string, u: string)
    requires Faithful(snapshot) && u in s.rows
    requires Boosts(Visible(cache, s.rows, c), snapshot, Some(s.bound), c, s.rows[u])
    ensures CrPort(LrpOf(s.rows[u])) in s.bound ==> s.bound[CrPort(LrpOf(s.rows[u]))] == c
  {
    CrPortOfSnapshot(snapshot, LrpOf(s.rows[u]));
  }

  // ---------------------------------------------------------------------------
  // No reverse failover
  // ---------------------------------------------------------------------------

  lemma LeadSurvivesEnsureLead(s: Cluster, cache: set<GatewayChassis>, snapshot: seq<LocalRouter>, c: string, t: Cluster, u: string)
    requires WellFormed(s.rows) && Next(s, EnsureLead(c, cache, snapshot), t) && Leads(s, u)
    ensures Leads(t, u)
  {
    var view := Visible(cache, s.rows, c);
    var lrp := LrpOf(s.rows[u]);
    forall v | v in s.rows && LrpOf(s.rows[v]) == lrp ensures t.rows[v] == s.rows[v] {
      if Boosts(view, snapshot, Some(s.bound), c, s.rows[v]) {
        BoostNeedsBinding(s, cache, snapshot, c, v);
        RowIsUnique(s.rows, u, v);
        forall r | r in view && IsPeer(r, lrp, c) ensures r.priority < s.rows[u].priority {
          assert r.uuid in s.rows && s.rows[r.uuid] == r;
        }
      }
    }
  }

  lemma LeadSurvivesStep(s: Cluster, a: Action, t: Cluster, u: string)
    requires WellFormed(s.rows) && Next(s, a, t) && Leads(s, u)
    requires !(a.Drain? && a.chassis == s.rows[u].chassisName)
    ensures Leads(t, u)
  {
    match a
    case Restore(c, cache) =>
    case Drain(c, cache) =>
    case EnsureLead(c, cache, snapshot) =>
      LeadSurvivesEnsureLead(s, cache, snapshot, c, t, u);
    case Elect(winner) =>
      if LrpOf(s.rows[winner]) == LrpOf(s.rows[u]) {
        assert winner == u;
      } else if CrPort(LrpOf(s.rows[winner])) == CrPort(LrpOf(s.rows[u])) {
        CrPortInjective(LrpOf(s.rows[winner]), LrpOf(s.rows[u]));
      }
  }

  /** Once row u leads it leads for the rest of the run, whatever the others do, until its own chassis drains. */
  lemma {:induction false} NoReverseFailover(states: seq<Cluster>, actions: seq<Action>, first: nat, last: nat, u: string)
    requires Run(states, actions) && first <= last < |states|
    requires Leads(states[first], u)
    requires forall i :: first <= i < last ==> !(actions[i].Drain? && actions[i].chassis == states[first].rows[u].chassisName)
    ensures Leads(states[last], u) && SameRows(states[first].rows, states[last].rows)
    ensures var port := CrPort(LrpOf(states[first].rows[u]));
            port in states[last].bound && states[last].bound[port] == states[first].rows[u].chassisName
    decreases last
  {
    RunKeepsRows(states, actions, first);
    if first < last {
      NoReverseFailover(states, actions, first, last - 1, u);
      RunKeepsRows(states, actions, last - 1);
      LeadSurvivesStep(states[last - 1], actions[last - 1], states[last], u);
      NextKeepsRows(states[last - 1], actions[last - 1], states[last]);
      RunKeepsRows(states, actions, last);
    }
  }

  /** If the port is no longer on the leading chassis, that chassis drained in between. */
  lemma BindingLeavesOnlyAfterDrain(states: seq<Cluster>, actions: seq<Action>, first: nat, last: nat, u: string)
    requires Run(states, actions) && first <= last < |states|
    requires Leads(states[first], u)
    requires var port := CrPort(LrpOf(states[first].rows[u]));
             port !in states[last].bound || states[last].bound[port] != states[first].rows[u].chassisName
    ensures exists i :: first <= i < last && actions[i].Drain? && actions[i].chassis == states[first].rows[u].chassisName
  {
    if forall i :: first <= i < last ==> !(actions[i].Drain? && actions[i].chassis == states[first].rows[u].chassisName) {
      NoReverseFailover(states, actions, first, last, u);
      RunKeepsRows(states, actions, first);
      RunKeepsRows(states, actions, last);
    }
  }

  ghost predicate StrictlyAbove(rows: Table, u: string) {
    u in rows && forall v <- rows :: v != u && LrpOf(rows[v]) == LrpOf(rows[u]) ==> rows[v].priority < rows[u].priority
  }

  ghost predicate StaysAboveOverRestore(rows: Table, u: string, c: string, cache: set<GatewayChassis>) {
    forall after: Table :: CachedFrom(cache, rows) && RestoreRel(rows, after, cache, c) ==> StrictlyAbove(after, u)
  }

  ghost predicate HasDrainedPeer(rows: Table, u: string) {
    u in rows && exists v :: v in rows && v != u && LrpOf(rows[v]) == LrpOf(rows[u]) && rows[v].priority == 0
  }

  /**
   Why the active priority is at least 2: a row strictly above its peers keeps
   that lead over every Restore exactly if it is at 2 or above, or none of its
   peers is drained.
   */
  lemma StrictLeadSurvivesRestore(rows: Table, u: string)
    requires StrictlyAbove(rows, u) && rows[u].priority > 0
    ensures (forall c: string, cache: set<GatewayChassis> :: StaysAboveOverRestore(rows, u, c, cache))
            <==> (rows[u].priority >= MIN_ACTIVE_PRIORITY || !HasDrainedPeer(rows, u))
  {
    if rows[u].priority >= MIN_ACTIVE_PRIORITY || !HasDrainedPeer(rows, u) {
      forall c: string, cache: set<GatewayChassis> ensures StaysAboveOverRestore(rows, u, c, cache) {
        RestoreKeepsLead(rows, u, c, cache);
      }
    } else {
      var v :| v in rows && v != u && LrpOf(rows[v]) == LrpOf(rows[u]) && rows[v].priority == 0;
      RestoreTies(rows, u, v);
    }
  }

  lemma RestoreKeepsLead(rows: Table, u: string, c: string, cache: set<GatewayChassis>)
    requires StrictlyAbove(rows, u) && rows[u].priority > 0
    requires rows[u].priority >= MIN_ACTIVE_PRIORITY || !HasDrainedPeer(rows, u)
    ensures StaysAboveOverRestore(rows, u, c, cache)
  {
  }

  lemma RestoreTies(rows: Table, u: string, v: string)
    requires u in rows && v in rows && u != v && LrpOf(rows[v]) == LrpOf(rows[u])
    requires rows[u].priority == 1 && rows[v].priority == 0
    ensures !StaysAboveOverRestore(rows, u, rows[v].chassisName, {})
  {
    var c := rows[v].chassisName;
    var after: Table := map w | w in rows :: if Restores({}, c, rows[w]) then rows[w].(priority := 1) else rows[w];
    assert CachedFrom({}, rows) && RestoreRel(rows, after, {}, c);
    assert after[v].priority == 1 && after[u].priority == 1;
    assert !StrictlyAbove(after, u);
  }

  // ---------------------------------------------------------------------------
  // Establishing the lead
  // ---------------------------------------------------------------------------

  /** Every row of the LRP that row u belongs to is in the agent's view. */
  ghost predicate SeesGroup(rows: Table, view: set<GatewayChassis>, u: string)
    requires u in rows
  {
    forall v <- rows :: LrpOf(rows[v]) == LrpOf(rows[u]) ==> rows[v] in view
  }

  lemma BoostRaises(before: Table, after: Table, cache: set<GatewayChassis>, snapshot: seq<LocalRouter>,
                    crChassis: Option<map<string, string>>, c: string, u: string)
    requires LeadRel(before, after, cache, snapshot, crChassis, c)
    requires u in before
    ensures after[u] != before[u] ==> before[u].chassisName == c && after[u].priority > before[u].priority
    ensures after[u] != before[u] <==> Boosts(Visible(cache, before, c), snapshot, crChassis, c, before[u])
  {
  }

  /**
   With the whole HA group in view and at least one peer, one pass by the bound
   chassis makes it lead, and a pass on the result writes nothing.
   */
  lemma OnePassEstablishesLead(s: Cluster, t: Cluster, cache: set<GatewayChassis>, snapshot: seq<LocalRouter>, u: string, peer: string)
    requires WellFormed(s.rows) && u in s.rows
    requires Next(s, EnsureLead(s.rows[u].chassisName, cache, snapshot), t)
    requires SnapshotHas(snapshot, LrpOf(s.rows[u]))
    requires CrPort(LrpOf(s.rows[u])) in s.bound && s.bound[CrPort(LrpOf(s.rows[u]))] == s.rows[u].chassisName
    requires SeesGroup(s.rows, Visible(cache, s.rows, s.rows[u].chassisName), u)
    requires peer in s.rows && peer != u && LrpOf(s.rows[peer]) == LrpOf(s.rows[u])
    ensures Leads(t, u)
  {
    var c, lrp := s.rows[u].chassisName, LrpOf(s.rows[u]);
    var view := Visible(cache, s.rows, c);
    CrPortOfSnapshot(snapshot, lrp);
    forall v | v in s.rows && v != u && LrpOf(s.rows[v]) == lrp
      ensures IsPeer(s.rows[v], lrp, c) && s.rows[v] in view && t.rows[v] == s.rows[v]
    {
      if s.rows[v].chassisName == c {
        RowIsUnique(s.rows, u, v);
      }
    }
    assert IsPeer(s.rows[peer], lrp, c);
    if !Boosts(view, snapshot, Some(s.bound), c, s.rows[u]) {
      assert LeadsView(view, c, s.rows[u]);
    }
  }

  /** A row this agent can see, of chassis d and named <lrp>_<d>. */
  ghost predicate SeenByName(rows: Table, cache: set<GatewayChassis>, c: string, u: string, lrp: string, d: string) {
    u in rows && rows[u] in Visible(cache, rows, c) && rows[u].chassisName == d && rows[u].name == lrp + "_" + d
  }

  /**
   The same by names, and also for a group of which the agent sees only a part, the port bound here or nowhere: after
   one pass its row is at least at 2 and above every peer it sees.
   */
  lemma OnePassLeadsByName(s: Cluster, t: Cluster, cache: set<GatewayChassis>, snapshot: seq<LocalRouter>, lrp: string, c: string, u: string, d: string, peer: string)
    requires WellFormed(s.rows) && Next(s, EnsureLead(c, cache, snapshot), t) && SnapshotHas(snapshot, lrp)
    requires SeenByName(s.rows, cache, c, u, lrp, c) && SeenByName(s.rows, cache, c, peer, lrp, d) && d != c
    requires CrPort(lrp) in s.bound ==> s.bound[CrPort(lrp)] == c
    ensures u in t.rows && t.rows[u].priority >= 2
    ensures forall v, e :: SeenByName(s.rows, cache, c, v, lrp, e) && e != c ==> v in t.rows && t.rows[v].priority < t.rows[u].priority
  {
    var view := Visible(cache, s.rows, c);
    LeadRelByName(s.rows, t.rows, cache, snapshot, Some(s.bound), c);
    assert NamedPeer(view, lrp, c, s.rows[peer]);
    CrPortOfSnapshot(snapshot, lrp);
    forall port | LastPort(snapshot, lrp, port) ensures !BoundElsewhere(Some(s.bound), port, c) {
      LastPortIsUnique(snapshot, lrp, port, CrPort(lrp));
    }
    assert LeadOutcome(s.rows, t.rows, view, snapshot, Some(s.bound), c, lrp, u);
    forall v, e | SeenByName(s.rows, cache, c, v, lrp, e) && e != c ensures v in t.rows && t.rows[v].priority < t.rows[u].priority {
      assert NamedPeer(view, lrp, c, s.rows[v]);
    }
  }

  /** A pass by a chassis that leads on every LRP of its snapshot writes nothing, whatever its cache has lost. */
  lemma SecondPassWritesNothing(s: Cluster, t: Cluster, cache: set<GatewayChassis>, snapshot: seq<LocalRouter>, c: string)
    requires WellFormed(s.rows) && Next(s, EnsureLead(c, cache, snapshot), t)
    requires forall u <- s.rows :: s.rows[u].chassisName == c && SnapshotHas(snapshot, LrpOf(s.rows[u])) ==> Leads(s, u)
    ensures t == s
  {
    var view := Visible(cache, s.rows, c);
    forall u | u in s.rows ensures t.rows[u] == s.rows[u] {
      if Boosts(view, snapshot, Some(s.bound), c, s.rows[u]) {
        forall r | r in view && IsPeer(r, LrpOf(s.rows[u]), c) ensures r.priority < s.rows[u].priority {
          assert r.uuid in s.rows && s.rows[r.uuid] == r;
        }
        assert LeadsView(view, c, s.rows[u]);
      }
    }
  }

  // ---------------------------------------------------------------------------
  // Draining
  // ---------------------------------------------------------------------------

  /** A drain takes every row of its chassis to 0 exactly if the cache shows none of them, or all that are above 0. */
  lemma DrainIsComplete(before: Table, after: Table, cache: set<GatewayChassis>, c: string)
    requires DrainRel(before, after, cache, c)
    ensures (forall u <- after :: after[u].chassisName == c ==> after[u].priority == 0)
            <==> (!HasRowFor(cache, c) || forall u <- before :: before[u].chassisName == c && before[u].priority > 0 ==> before[u] in cache)
  {
  }

  /** After a drain of row u, an election can keep its port on u exactly if no peer has a priority above 0. */
  lemma DrainedPortMigrates(rows: Table, u: string)
    requires u in rows && rows[u].priority == 0
    ensures IsArgmax(rows, u) <==> forall v <- rows :: LrpOf(rows[v]) == LrpOf(rows[u]) ==> rows[v].priority == 0
  {
  }

  // ---------------------------------------------------------------------------
  // Priorities do not ratchet
  // ---------------------------------------------------------------------------

  function Cap(m: nat): nat { if m < 1 then 2 else m + 1 }

  /** Two chassis compete for the port of this LRP. */
  ghost predicate Rivals(rows: Table, u: string, v: string) {
    u in rows && v in rows && u != v && LrpOf(rows[u]) == LrpOf(rows[v])
  }

  /** Every port with more than one candidate is bound. A port with a single one is never boosted. */
  ghost predicate ContestedPortsBound(s: Cluster) {
    forall u, v :: Rivals(s.rows, u, v) ==> CrPort(LrpOf(s.rows[u])) in s.bound
  }

  ghost predicate HoldsPort(s: Cluster, u: string)
    requires u in s.rows
  {
    CrPort(LrpOf(s.rows[u])) in s.bound && s.bound[CrPort(LrpOf(s.rows[u]))] == s.rows[u].chassisName
  }

  ghost predicate Capped(s: Cluster, cap: nat) {
    forall u <- s.rows ::
      s.rows[u].priority <= cap && (s.rows[u].priority == cap ==> HoldsPort(s, u))
  }

  lemma CappedSurvivesBoost(s: Cluster, cache: set<GatewayChassis>, snapshot: seq<LocalRouter>, c: string, t: Cluster, cap: nat, u: string)
    requires WellFormed(s.rows) && Next(s, EnsureLead(c, cache, snapshot), t)
    requires cap >= MIN_ACTIVE_PRIORITY && ContestedPortsBound(s) && Capped(s, cap)
    requires u in s.rows && Boosts(Visible(cache, s.rows, c), snapshot, Some(s.bound), c, s.rows[u])
    ensures t.rows[u].priority <= cap && HoldsPort(s, u)
  {
    var view := Visible(cache, s.rows, c);
    var peer :| peer in view && IsPeer(peer, LrpOf(s.rows[u]), c);
    assert Rivals(s.rows, u, peer.uuid);
    BoostNeedsBinding(s, cache, snapshot, c, u);
    if t.rows[u].priority != MIN_ACTIVE_PRIORITY {
      var r :| r in view && IsPeer(r, LrpOf(s.rows[u]), c) && r.priority + 1 == t.rows[u].priority;
      assert r.uuid in s.rows && s.rows[r.uuid] == r;
    }
  }

  lemma CappedSurvivesEnsureLead(s: Cluster, cache: set<GatewayChassis>, snapshot: seq<LocalRouter>, c: string, t: Cluster, cap: nat)
    requires WellFormed(s.rows) && Next(s, EnsureLead(c, cache, snapshot), t)
    requires cap >= MIN_ACTIVE_PRIORITY && ContestedPortsBound(s) && Capped(s, cap)
    ensures Capped(t, cap)
  {
    forall u | u in t.rows ensures t.rows[u].priority <= cap && (t.rows[u].priority == cap ==> HoldsPort(t, u)) {
      if Boosts(Visible(cache, s.rows, c), snapshot, Some(s.bound), c, s.rows[u]) {
        CappedSurvivesBoost(s, cache, snapshot, c, t, cap, u);
      }
    }
  }

  lemma CappedSurvivesElect(s: Cluster, winner: string, t: Cluster, cap: nat)
    requires WellFormed(s.rows) && Next(s, Elect(winner), t) && Capped(s, cap)
    ensures Capped(t, cap)
  {
    forall u | u in s.rows && s.rows[u].priority == cap ensures HoldsPort(t, u) {
      if CrPort(LrpOf(s.rows[winner])) == CrPort(LrpOf(s.rows[u])) {
        CrPortInjective(LrpOf(s.rows[winner]), LrpOf(s.rows[u]));
        assert s.rows[winner].priority == cap;
      }
    }
  }

  lemma CappedSurvivesStep(s: Cluster, a: Action, t: Cluster, cap: nat)
    requires WellFormed(s.rows) && Next(s, a, t)
    requires cap >= MIN_ACTIVE_PRIORITY && ContestedPortsBound(s) && Capped(s, cap)
    ensures ContestedPortsBound(t) && Capped(t, cap)
  {
    NextKeepsRows(s, a, t);
    forall u, v | Rivals(t.rows, u, v) ensures CrPort(LrpOf(t.rows[u])) in t.bound {
      assert Rivals(s.rows, u, v);
    }
    match a
    case Restore(c, cache) =>
    case Drain(c, cache) =>
    case EnsureLead(c, cache, snapshot) =>
      CappedSurvivesEnsureLead(s, cache, snapshot, c, t, cap);
    case Elect(winner) =>
      CappedSurvivesElect(s, winner, t, cap);
  }

  /**
   Over any run that starts with every contested port bound and priorities up to m, no
   priority exceeds max(m, 1) + 1, and only a chassis holding the port is ever there.
   */
  lemma {:induction false} PrioritiesDoNotRatchet(states: seq<Cluster>, actions: seq<Action>, m: nat, i: nat)
    requires Run(states, actions) && i < |states|
    requires ContestedPortsBound(states[0])
    requires forall u <- states[0].rows :: states[0].rows[u].priority <= m
    ensures ContestedPortsBound(states[i]) && Capped(states[i], Cap(m))
  {
    if i > 0 {
      PrioritiesDoNotRatchet(states, actions, m, i - 1);
      RunKeepsRows(states, actions, i - 1);
      CappedSurvivesStep(states[i - 1], actions[i - 1], states[i], Cap(m));
    }
  }

  // ---------------------------------------------------------------------------
  // An unbound port
  // ---------------------------------------------------------------------------

  function StaleSnapshot(lrp: string): seq<LocalRouter> { [LocalRouter(lrp, CrPort(lrp))] }

  function Overbid(p: nat): nat { if p < 1 then 2 else p + 1 }

  /** The step in which rival u, seeing just the two rows, overbids v. */
  ghost function OverbidStep(s: Cluster, u: string, v: string): Action
    requires Rivals(s.rows, u, v)
  {
    EnsureLead(s.rows[u].chassisName, {s.rows[u], s.rows[v]}, StaleSnapshot(LrpOf(s.rows[u])))
  }

  ghost function Overbidden(s: Cluster, u: string, v: string): Cluster
    requires Rivals(s.rows, u, v)
  {
    s.(rows := s.rows[u := s.rows[u].(priority := Overbid(s.rows[v].priority))])
  }

  lemma RivalSeesRival(s: Cluster, u: string, v: string)
    requires WellFormed(s.rows) && Rivals(s.rows, u, v) && CrPort(LrpOf(s.rows[u])) !in s.bound
    requires s.rows[u].priority <= s.rows[v].priority
    ensures var (c, lrp) := (s.rows[u].chassisName, LrpOf(s.rows[u]));
            && Visible({s.rows[u], s.rows[v]}, s.rows, c) == {s.rows[u], s.rows[v]}
            && Boosts({s.rows[u], s.rows[v]}, StaleSnapshot(lrp), Some(s.bound), c, s.rows[u])
            && s.rows[v].chassisName != c
            && IsLeadPriority({s.rows[u], s.rows[v]}, lrp, c, Overbid(s.rows[v].priority))
  {
    var c, lrp := s.rows[u].chassisName, LrpOf(s.rows[u]);
    if s.rows[v].chassisName == c {
      RowIsUnique(s.rows, u, v);
    }
    assert HasRowFor({s.rows[u], s.rows[v]}, c);
    assert IsPeer(s.rows[v], lrp, c);
    assert StaleSnapshot(lrp)[0].lrpName == lrp;
    CrPortOfSnapshot(StaleSnapshot(lrp), lrp);
  }

  lemma OverbidIsNext(s: Cluster, u: string, v: string)
    requires WellFormed(s.rows) && Rivals(s.rows, u, v) && CrPort(LrpOf(s.rows[u])) !in s.bound
    requires s.rows[u].priority <= s.rows[v].priority
    ensures Next(s, OverbidStep(s, u, v), Overbidden(s, u, v))
  {
    RivalSeesRival(s, u, v);
    OverbidIsLead(s.rows, u, v, StaleSnapshot(LrpOf(s.rows[u])), Some(s.bound));
  }

  lemma OverbidIsLead(rows: Table, u: string, v: string, snapshot: seq<LocalRouter>, crChassis: Option<map<string, string>>)
    requires WellFormed(rows) && Rivals(rows, u, v) && rows[v].chassisName != rows[u].chassisName
    requires var (c, cache) := (rows[u].chassisName, {rows[u], rows[v]});
             && Visible(cache, rows, c) == cache && Boosts(cache, snapshot, crChassis, c, rows[u])
             && IsLeadPriority(cache, LrpOf(rows[u]), c, Overbid(rows[v].priority))
    ensures LeadRel(rows, rows[u := rows[u].(priority := Overbid(rows[v].priority))], {rows[u], rows[v]}, snapshot, crChassis, rows[u].chassisName)
  {
    forall w | w in rows && w != u ensures !Boosts({rows[u], rows[v]}, snapshot, crChassis, rows[u].chassisName, rows[w]) {
      OthersAreNotBoosted(rows, u, v, w, snapshot, crChassis);
    }
  }

  lemma OthersAreNotBoosted(rows: Table, u: string, v: string, w: string, snapshot: seq<LocalRouter>, crChassis: Option<map<string, string>>)
    requires WellFormed(rows) && Rivals(rows, u, v) && w in rows && w != u
    requires rows[v].chassisName != rows[u].chassisName
    ensures !Boosts({rows[u], rows[v]}, snapshot, crChassis, rows[u].chassisName, rows[w])
  {
    assert rows[w] in {rows[u], rows[v]} ==> rows[w] == rows[u] || rows[w] == rows[v];
  }

  /** Of two rivals for an unbound port the lower one is boosted above the other, whatever else is in the table. */
  lemma LowerRivalOverbids(s: Cluster, u: string, v: string)
    requires WellFormed(s.rows) && Rivals(s.rows, u, v) && CrPort(LrpOf(s.rows[u])) !in s.bound
    requires s.rows[u].priority <= s.rows[v].priority
    ensures Next(s, OverbidStep(s, u, v), Overbidden(s, u, v))
    ensures WellFormed(Overbidden(s, u, v).rows) && Rivals(Overbidden(s, u, v).rows, u, v)
    ensures LrpOf(Overbidden(s, u, v).rows[u]) == LrpOf(s.rows[u])
  {
    OverbidIsNext(s, u, v);
    NextKeepsRows(s, OverbidStep(s, u, v), Overbidden(s, u, v));
  }

  lemma ExtendRun(states: seq<Cluster>, actions: seq<Action>, a: Action, t: Cluster)
    requires Run(states, actions) && Next(states[|actions|], a, t)
    ensures Run(states + [t], actions + [a])
  {
  }

  /** The rivals are still there, still for an unbound port, and one of them is at n or above. */
  ghost predicate RatchetedTo(s: Cluster, u: string, v: string, n: nat) {
    && WellFormed(s.rows) && Rivals(s.rows, u, v) && CrPort(LrpOf(s.rows[u])) !in s.bound
    && (s.rows[u].priority >= n || s.rows[v].priority >= n)
  }

  lemma OneMoreNotch(s: Cluster, u: string, v: string, n: nat) returns (a: Action, t: Cluster)
    requires RatchetedTo(s, u, v, n)
    ensures a.EnsureLead? && Next(s, a, t) && RatchetedTo(t, u, v, n + 1)
  {
    if s.rows[u].priority <= s.rows[v].priority {
      a, t := OverbidStep(s, u, v), Overbidden(s, u, v);
      LowerRivalOverbids(s, u, v);
    } else {
      a, t := OverbidStep(s, v, u), Overbidden(s, v, u);
      LowerRivalOverbids(s, v, u);
    }
  }

  /**
   While a contested port is bound nowhere, two agents with stale snapshots overbid each other without
   limit: for every n there is a run of EnsureLead steps that takes a priority to n or more.
   */
  lemma {:induction false} UnboundPortRatchets(s: Cluster, u: string, v: string, n: nat)
    returns (states: seq<Cluster>, actions: seq<Action>)
    requires WellFormed(s.rows) && Rivals(s.rows, u, v) && CrPort(LrpOf(s.rows[u])) !in s.bound
    ensures Run(states, actions) && states[0] == s && (forall i :: 0 <= i < |actions| ==> actions[i].EnsureLead?)
    ensures RatchetedTo(states[|actions|], u, v, n)
  {
    if n == 0 {
      states, actions := [s], [];
    } else {
      var states0, actions0 := UnboundPortRatchets(s, u, v, n - 1);
      var a, t := OneMoreNotch(states0[|actions0|], u, v, n - 1);
      ExtendRun(states0, actions0, a, t);
      states, actions := states0 + [t], actions0 + [a];
      assert states[|actions|] == t;
    }
  }

  ghost predicate PrioritiesUpTo(states: seq<Cluster>, b: nat) {
    forall i, u :: 0 <= i < |states| && u in states[i].rows ==> states[i].rows[u].priority <= b
  }

  /** No run from s takes any priority above b. */
  ghost predicate BoundedBy(s: Cluster, b: nat) {
    forall states, actions :: Run(states, actions) && states[0] == s ==> PrioritiesUpTo(states, b)
  }

  lemma {:induction false} HighestPriority(rows: Table, keys: set<string>) returns (m: nat)
    requires keys <= rows.Keys
    ensures forall u <- keys :: rows[u].priority <= m
    decreases keys
  {
    if keys == {} {
      m := 0;
    } else {
      var u :| u in keys;
      m := HighestPriority(rows, keys - {u});
      m := if rows[u].priority > m then rows[u].priority else m;
    }
  }

  lemma BoundPortsAreBounded(s: Cluster, m: nat)
    requires ContestedPortsBound(s) && forall u <- s.rows :: s.rows[u].priority <= m
    ensures BoundedBy(s, Cap(m))
  {
    forall states, actions | Run(states, actions) && states[0] == s ensures PrioritiesUpTo(states, Cap(m)) {
      forall i | 0 <= i < |states| ensures Capped(states[i], Cap(m)) {
        PrioritiesDoNotRatchet(states, actions, m, i);
      }
    }
  }

  /** The priorities of all runs from s stay below some bound if and only if every contested port of s is bound. */
  lemma BoundedExactlyWhenBound(s: Cluster)
    requires WellFormed(s.rows)
    ensures (exists b :: BoundedBy(s, b)) <==> ContestedPortsBound(s)
  {
    if ContestedPortsBound(s) {
      var m := HighestPriority(s.rows, s.rows.Keys);
      BoundPortsAreBounded(s, m);
    } else {
      var u, v :| Rivals(s.rows, u, v) && CrPort(LrpOf(s.rows[u])) !in s.bound;
      forall b: nat ensures !BoundedBy(s, b) {
        var states, actions := UnboundPortRatchets(s, u, v, b + 1);
        assert !PrioritiesUpTo(states, b);
      }
    }
  }

  lemma OverbidderWins(s: Cluster, u: string, v: string)
    requires Rivals(s.rows, u, v) && StrictlyAbove(s.rows, v)
    ensures forall w :: w in s.rows && LrpOf(s.rows[w]) == LrpOf(s.rows[v])
                        ==> (IsArgmax(Overbidden(s, u, v).rows, w) <==> w == u)
  {
    var t := Overbidden(s, u, v);
    assert t.rows[u].priority > s.rows[v].priority && LrpOf(t.rows[u]) == LrpOf(s.rows[u]);
    assert forall w :: w in s.rows && w != u ==> t.rows[w] == s.rows[w];
  }

  /**
   The source calls a boost of an unbound port harmless. It is not: when the
   port of a leading row v is bound nowhere for a moment, any rival with a stale
   snapshot overtakes it, and from then on an election can only move the port away.
   */
  lemma BoostOfUnboundPortMovesIt(s: Cluster, u: string, v: string) returns (a: Action, boosted: Cluster, moved: Cluster)
    requires WellFormed(s.rows) && Rivals(s.rows, u, v)
    requires var port := CrPort(LrpOf(s.rows[v])); port !in s.bound && Leads(s.(bound := s.bound[port := s.rows[v].chassisName]), v)
    ensures a.EnsureLead? && Next(s, a, boosted) && boosted.rows.Keys == s.rows.Keys
    ensures forall w :: w in s.rows && LrpOf(s.rows[w]) == LrpOf(s.rows[v]) ==> (IsArgmax(boosted.rows, w) <==> w == u)
    ensures Next(boosted, Elect(u), moved)
    ensures var port := CrPort(LrpOf(s.rows[v])); port in moved.bound && moved.bound[port] == s.rows[u].chassisName != s.rows[v].chassisName
  {
    a, boosted := OverbidStep(s, u, v), Overbidden(s, u, v);
    LowerRivalOverbids(s, u, v);
    OverbidderWins(s, u, v);
    moved := boosted.(bound := boosted.bound[CrPort(LrpOf(s.rows[u])) := s.rows[u].chassisName]);
    if s.rows[u].chassisName == s.rows[v].chassisName {
      RowIsUnique(s.rows, u, v);
    }
  }

  /** Whether or not the port is bound, a pass by another chassis takes the lead from row u exactly if it writes at or above it. */
  lemma LeadLostExactlyByOverbid(s: Cluster, t: Cluster, cache: set<GatewayChassis>, snapshot: seq<LocalRouter>, c: string, u: string, v: string)
    requires WellFormed(s.rows) && u in s.rows && v in s.rows && LrpOf(s.rows[u]) == LrpOf(s.rows[v])
    requires Leads(s.(bound := s.bound[CrPort(LrpOf(s.rows[u])) := s.rows[u].chassisName]), u)
    requires c == s.rows[v].chassisName && c != s.rows[u].chassisName
    requires Next(s, EnsureLead(c, cache, snapshot), t)
    ensures var view := Visible(cache, s.rows, c);
            t.rows[v].priority >= t.rows[u].priority
            <==> (Boosts(view, snapshot, Some(s.bound), c, s.rows[v])
                  && (s.rows[u] in view || s.rows[u].priority == MIN_ACTIVE_PRIORITY
                      || exists r :: r in view && IsPeer(r, LrpOf(s.rows[u]), c) && r.priority + 1 == s.rows[u].priority))
  {
    var view := Visible(cache, s.rows, c);
    assert t.rows[u] == s.rows[u];
    forall r | r in view && IsPeer(r, LrpOf(s.rows[u]), c) ensures r == s.rows[u] || r.priority < s.rows[u].priority {
      assert r.uuid in s.rows && s.rows[r.uuid] == r;
    }
    if Boosts(view, snapshot, Some(s.bound), c, s.rows[v]) && s.rows[u] in view {
      assert IsPeer(s.rows[u], LrpOf(s.rows[v]), c);
    }
  }
}
