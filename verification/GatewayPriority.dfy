/**
 The writes an agent makes to Gateway_Chassis.priority.

 `OvnNorthbound.rows` is the server's table. An agent never reads it directly:
 it reads its monitor cache, which may have lost rows (issue #115), and falls
 back to a server select only when the cache shows none of its own rows.
 */
module GatewayPriority {
  import opened Wrappers

  datatype GatewayChassis = GatewayChassis(uuid: string, name: string, chassisName: string, priority: nat)

  datatype LocalRouter = LocalRouter(lrpName: string, crPort: string)

  type Table = map<string, GatewayChassis>

  datatype DrainOutcome = NothingToDrain | Migrated | TimedOut | DrainFailed

  /** The priority an active chassis keeps at least; a restored chassis is at 1. */
  const MIN_ACTIVE_PRIORITY: nat := 2

  predicate HasSuffix(s: string, suffix: string) {
    |suffix| <= |s| && s[|s| - |suffix|..] == suffix
  }

  function TrimSuffix(s: string, suffix: string): string {
    if HasSuffix(s, suffix) then s[..|s| - |suffix|] else s
  }

  /** What ovn-northd and Neutron name the row of a chassis in the group of an LRP. */
  function RowName(lrp: string, chassis: string): string {
    lrp + "_" + chassis
  }

  /** The LRP is read off the row's name. */
  function LrpOf(row: GatewayChassis): string {
    TrimSuffix(row.name, "_" + row.chassisName)
  }

  /** For a row named by its LRP and chassis, that is this LRP, whatever underscores the two names have. */
  lemma LrpOfNamedRow(uuid: string, lrp: string, chassis: string, p: nat)
    ensures LrpOf(GatewayChassis(uuid, lrp + "_" + chassis, chassis, p)) == lrp
  {
    assert lrp + "_" + chassis == lrp + ("_" + chassis);
  }

  /** The LRP of a row is the one it is named by. */
  lemma LrpOfExactly(row: GatewayChassis, lrp: string)
    requires HasSuffix(row.name, "_" + row.chassisName)
    ensures LrpOf(row) == lrp <==> row.name == RowName(lrp, row.chassisName)
  {
    var suffix := "_" + row.chassisName;
    assert row.name == row.name[..|row.name| - |suffix|] + suffix;
    assert RowName(lrp, row.chassisName) == lrp + suffix;
  }

  /** The table's schema: rows are keyed by UUID, named <lrp>_<chassis>, and names are unique. */
  ghost predicate WellFormed(rows: Table) {
    && (forall u <- rows :: rows[u].uuid == u && HasSuffix(rows[u].name, "_" + rows[u].chassisName))
    && (forall u <- rows, v <- rows :: rows[u].name == rows[v].name ==> u == v)
  }

  lemma RowIsUnique(rows: Table, u: string, v: string)
    requires WellFormed(rows) && u in rows && v in rows
    requires rows[u].chassisName == rows[v].chassisName && LrpOf(rows[u]) == LrpOf(rows[v])
    ensures u == v
  {
  }

  /** What a cache may hold: any of the server's rows, with their current values. */
  ghost predicate CachedFrom(cache: set<GatewayChassis>, rows: Table) {
    forall r <- cache :: r.uuid in rows && rows[r.uuid] == r
  }

  ghost predicate HasRowFor(view: set<GatewayChassis>, chassis: string) {
    exists r :: r in view && r.chassisName == chassis
  }

  ghost function RowsOf(rows: Table, chassis: string): set<GatewayChassis> {
    set u | u in rows && rows[u].chassisName == chassis :: rows[u]
  }

  /** The rows an agent acts on: its cache, plus its own server rows when the cache has none of them. */
  ghost function Visible(cache: set<GatewayChassis>, rows: Table, chassis: string): set<GatewayChassis> {
    if HasRowFor(cache, chassis) then cache else cache + RowsOf(rows, chassis)
  }

  /** The table after some rows get new priorities, every other row and column staying as it is. */
  function WithPriorities(rows: Table, writes: map<string, nat>): Table {
    map u | u in rows :: if u in writes then rows[u].(priority := writes[u]) else rows[u]
  }

  // ---------------------------------------------------------------------------
  // What each operation writes, stated row by row
  // ---------------------------------------------------------------------------

  ghost predicate Drains(cache: set<GatewayChassis>, chassis: string, row: GatewayChassis) {
    row.chassisName == chassis && row.priority > 0 && (row in cache || !HasRowFor(cache, chassis))
  }

  ghost predicate Restores(cache: set<GatewayChassis>, chassis: string, row: GatewayChassis) {
    row.chassisName == chassis && row.priority == 0 && (row in cache || !HasRowFor(cache, chassis))
  }

  ghost predicate DrainRel(before: Table, after: Table, cache: set<GatewayChassis>, chassis: string) {
    && after.Keys == before.Keys
    && forall u <- before ::
      after[u] == if Drains(cache, chassis, before[u]) then before[u].(priority := 0) else before[u]
  }

  ghost predicate RestoreRel(before: Table, after: Table, cache: set<GatewayChassis>, chassis: string) {
    && after.Keys == before.Keys
    && forall u <- before ::
      after[u] == if Restores(cache, chassis, before[u]) then before[u].(priority := 1) else before[u]
  }

  ghost predicate IsPeer(r: GatewayChassis, lrp: string, chassis: string) {
    r.chassisName != chassis && LrpOf(r) == lrp
  }

  /** p is the least priority that is at least MIN_ACTIVE_PRIORITY and strictly above every visible peer. */
  ghost predicate IsLeadPriority(view: set<GatewayChassis>, lrp: string, chassis: string, p: nat) {
    && p >= MIN_ACTIVE_PRIORITY
    && (forall r :: r in view && IsPeer(r, lrp, chassis) ==> r.priority < p)
    && (p == MIN_ACTIVE_PRIORITY || exists r :: r in view && IsPeer(r, lrp, chassis) && r.priority + 1 == p)
  }

  ghost predicate SnapshotHas(snapshot: seq<LocalRouter>, lrp: string) {
    exists i :: 0 <= i < |snapshot| && snapshot[i].lrpName == lrp
  }

  /** The last entry of the snapshot for this LRP has this port. */
  ghost predicate LastPort(snapshot: seq<LocalRouter>, lrp: string, port: string) {
    exists i :: 0 <= i < |snapshot| && snapshot[i] == LocalRouter(lrp, port) && forall j :: i < j < |snapshot| ==> snapshot[j].lrpName != lrp
  }

  /** The chassisredirect port of an LRP. A later entry of the snapshot overrides an earlier one. */
  function CrPortByLrp(snapshot: seq<LocalRouter>): (m: map<string, string>)
    ensures forall lrp :: lrp in m <==> SnapshotHas(snapshot, lrp)
    ensures forall lrp <- m :: LastPort(snapshot, lrp, m[lrp])
  {
    if snapshot == [] then map[] else
      var last := |snapshot| - 1;
      var m := CrPortByLrp(snapshot[..last]);
      assert forall lrp :: SnapshotHas(snapshot, lrp) <==> SnapshotHas(snapshot[..last], lrp) || lrp == snapshot[last].lrpName by {
        assert forall i :: 0 <= i < last ==> snapshot[..last][i] == snapshot[i];
      }
      assert snapshot[last] == LocalRouter(snapshot[last].lrpName, snapshot[last].crPort);
      assert forall lrp, port :: LastPort(snapshot[..last], lrp, port) && lrp != snapshot[last].lrpName ==> LastPort(snapshot, lrp, port) by {
        forall lrp, port | LastPort(snapshot[..last], lrp, port) && lrp != snapshot[last].lrpName ensures LastPort(snapshot, lrp, port) {
          LaterPort(snapshot, lrp, port);
        }
      }
      m[snapshot[last].lrpName := snapshot[last].crPort]
  }

  lemma LaterPort(snapshot: seq<LocalRouter>, lrp: string, port: string)
    requires snapshot != [] && LastPort(snapshot[..|snapshot| - 1], lrp, port) && lrp != snapshot[|snapshot| - 1].lrpName
    ensures LastPort(snapshot, lrp, port)
  {
    var last := |snapshot| - 1;
    var i :| 0 <= i < last && snapshot[..last][i] == LocalRouter(lrp, port) && forall j :: i < j < last ==> snapshot[..last][j].lrpName != lrp;
    forall j | i < j < |snapshot| ensures snapshot[j].lrpName != lrp {
      if j < last {
        assert snapshot[..last][j] == snapshot[j];
      }
    }
    assert snapshot[i] == LocalRouter(lrp, port);
  }

  lemma LastPortIsUnique(snapshot: seq<LocalRouter>, lrp: string, p: string, q: string)
    requires LastPort(snapshot, lrp, p) && LastPort(snapshot, lrp, q)
    ensures p == q
  {
  }

  /** The southbound server positively shows the port bound to another chassis. */
  predicate BoundElsewhere(crChassis: Option<map<string, string>>, port: string, chassis: string) {
    crChassis.Some? && port in crChassis.value && crChassis.value[port] != chassis
  }

  /** The agent on `chassis`, seeing `view`, raises this row. */
  ghost predicate Boosts(view: set<GatewayChassis>, snapshot: seq<LocalRouter>,
                         crChassis: Option<map<string, string>>, chassis: string, row: GatewayChassis)
  {
    && row in view
    && row.chassisName == chassis
    && SnapshotHas(snapshot, LrpOf(row))
    && (exists r :: r in view && IsPeer(r, LrpOf(row), chassis))
    && !LeadsView(view, chassis, row)
    && !BoundElsewhere(crChassis, CrPortByLrp(snapshot)[LrpOf(row)], chassis)
  }

  ghost predicate LeadsView(view: set<GatewayChassis>, chassis: string, row: GatewayChassis) {
    && row.priority >= MIN_ACTIVE_PRIORITY
    && forall r :: r in view && IsPeer(r, LrpOf(row), chassis) ==> r.priority < row.priority
  }

  ghost predicate LeadRel(before: Table, after: Table, cache: set<GatewayChassis>, snapshot: seq<LocalRouter>,
                          crChassis: Option<map<string, string>>, chassis: string)
  {
    var view := Visible(cache, before, chassis);
    && after.Keys == before.Keys
    && forall u <- before ::
      if Boosts(view, snapshot, crChassis, chassis, before[u]) then
        && after[u] == before[u].(priority := after[u].priority)
        && IsLeadPriority(view, LrpOf(before[u]), chassis, after[u].priority)
      else
        after[u] == before[u]
  }

  // ---------------------------------------------------------------------------
  // The same by names
  // ---------------------------------------------------------------------------

  /** The row of another chassis in the group of this LRP, by its name. */
  ghost predicate NamedPeer(view: set<GatewayChassis>, lrp: string, chassis: string, r: GatewayChassis) {
    r in view && r.chassisName != chassis && r.name == RowName(lrp, r.chassisName)
  }

  /** The agent may and should lead here: its LRP is active, a peer is in view, the port is not bound elsewhere. */
  ghost predicate LeadIsDue(view: set<GatewayChassis>, snapshot: seq<LocalRouter>, crChassis: Option<map<string, string>>,
                            chassis: string, lrp: string, row: GatewayChassis)
  {
    && row in view && SnapshotHas(snapshot, lrp) && (exists r :: NamedPeer(view, lrp, chassis, r))
    && forall port :: LastPort(snapshot, lrp, port) ==> !BoundElsewhere(crChassis, port, chassis)
  }

  /** At p the row is active and above every named peer in view. */
  ghost predicate AboveNamedPeers(view: set<GatewayChassis>, lrp: string, chassis: string, p: nat) {
    p >= MIN_ACTIVE_PRIORITY && forall r :: NamedPeer(view, lrp, chassis, r) ==> r.priority < p
  }

  /**
   The outcome for the row named by this LRP and this chassis: where a lead is due it ends above every peer, no
   higher than needed, and stays as it is if it was there already; elsewhere it stays as it is.
   */
  ghost predicate LeadOutcome(before: Table, after: Table, view: set<GatewayChassis>, snapshot: seq<LocalRouter>,
                              crChassis: Option<map<string, string>>, chassis: string, lrp: string, u: string)
    requires u in before && u in after
  {
    var p, q := before[u].priority, after[u].priority;
    && after[u] == before[u].(priority := q)
    && if LeadIsDue(view, snapshot, crChassis, chassis, lrp, before[u]) && !AboveNamedPeers(view, lrp, chassis, p) then
         && AboveNamedPeers(view, lrp, chassis, q)
         && (q == MIN_ACTIVE_PRIORITY || exists r :: NamedPeer(view, lrp, chassis, r) && r.priority + 1 == q)
       else q == p
  }

  ghost predicate LeadOutcomes(before: Table, after: Table, view: set<GatewayChassis>, snapshot: seq<LocalRouter>,
                               crChassis: Option<map<string, string>>, chassis: string)
  {
    && after.Keys == before.Keys
    && (forall u, lrp :: u in before && before[u].chassisName == chassis && before[u].name == RowName(lrp, chassis)
                         ==> LeadOutcome(before, after, view, snapshot, crChassis, chassis, lrp, u))
    && (forall u :: u in before && before[u].chassisName != chassis ==> after[u] == before[u])
  }

  lemma PeersAreNamed(rows: Table, view: set<GatewayChassis>, lrp: string, chassis: string, r: GatewayChassis)
    requires WellFormed(rows) && CachedFrom(view, rows)
    ensures r in view && IsPeer(r, lrp, chassis) <==> NamedPeer(view, lrp, chassis, r)
  {
    if r in view {
      assert r.uuid in rows && rows[r.uuid] == r;
      LrpOfExactly(r, lrp);
    }
  }

  lemma BoostsByName(rows: Table, view: set<GatewayChassis>, snapshot: seq<LocalRouter>, crChassis: Option<map<string, string>>,
                     chassis: string, lrp: string, u: string)
    requires WellFormed(rows) && CachedFrom(view, rows) && u in rows
    requires rows[u].chassisName == chassis && rows[u].name == RowName(lrp, chassis)
    ensures LrpOf(rows[u]) == lrp
    ensures Boosts(view, snapshot, crChassis, chassis, rows[u])
            <==> LeadIsDue(view, snapshot, crChassis, chassis, lrp, rows[u]) && !AboveNamedPeers(view, lrp, chassis, rows[u].priority)
  {
    LrpOfExactly(rows[u], lrp);
    forall r {
      PeersAreNamed(rows, view, lrp, chassis, r);
    }
    if SnapshotHas(snapshot, lrp) {
      var port := CrPortByLrp(snapshot)[lrp];
      forall q | LastPort(snapshot, lrp, q) ensures q == port {
        LastPortIsUnique(snapshot, lrp, q, port);
      }
    }
  }

  lemma LeadRelByName(before: Table, after: Table, cache: set<GatewayChassis>, snapshot: seq<LocalRouter>,
                      crChassis: Option<map<string, string>>, chassis: string)
    requires WellFormed(before) && CachedFrom(cache, before)
    requires LeadRel(before, after, cache, snapshot, crChassis, chassis)
    ensures LeadOutcomes(before, after, Visible(cache, before, chassis), snapshot, crChassis, chassis)
  {
    var view := Visible(cache, before, chassis);
    forall u, lrp | u in before && before[u].chassisName == chassis && before[u].name == RowName(lrp, chassis)
      ensures LeadOutcome(before, after, view, snapshot, crChassis, chassis, lrp, u)
    {
      BoostsByName(before, view, snapshot, crChassis, chassis, lrp, u);
      forall r {
        PeersAreNamed(before, view, lrp, chassis, r);
      }
    }
  }

  // ---------------------------------------------------------------------------
  // Candidate filters
  // ---------------------------------------------------------------------------

  method FilterDrainCandidates(list: seq<GatewayChassis>, chassis: string)
    returns (toDrain: seq<GatewayChassis>, hasLocalRow: bool)
    ensures hasLocalRow <==> HasRowFor(ToSet(list), chassis)
    ensures forall r :: r in toDrain <==> r in list && r.chassisName == chassis && r.priority > 0
  {
    toDrain, hasLocalRow := [], false;
    for i := 0 to |list|
      invariant hasLocalRow <==> exists r :: r in list[..i] && r.chassisName == chassis
      invariant forall r :: r in toDrain <==> r in list[..i] && r.chassisName == chassis && r.priority > 0
    {
      assert list[..i + 1] == list[..i] + [list[i]];
      if list[i].chassisName != chassis {
        continue;
      }
      hasLocalRow := true;
      if list[i].priority > 0 {
        toDrain := toDrain + [list[i]];
      }
    }
    assert list[..|list|] == list;
    assert forall r :: r in list <==> r in ToSet(list);
  }

  method FilterRestoreCandidates(list: seq<GatewayChassis>, chassis: string)
    returns (toRestore: seq<GatewayChassis>, hasLocalRow: bool)
    ensures hasLocalRow <==> HasRowFor(ToSet(list), chassis)
    ensures forall r :: r in toRestore <==> r in list && r.chassisName == chassis && r.priority == 0
  {
    toRestore, hasLocalRow := [], false;
    for i := 0 to |list|
      invariant hasLocalRow <==> exists r :: r in list[..i] && r.chassisName == chassis
      invariant forall r :: r in toRestore <==> r in list[..i] && r.chassisName == chassis && r.priority == 0
    {
      assert list[..i + 1] == list[..i] + [list[i]];
      if list[i].chassisName != chassis {
        continue;
      }
      hasLocalRow := true;
      if list[i].priority == 0 {
        toRestore := toRestore + [list[i]];
      }
    }
    assert list[..|list|] == list;
    assert forall r :: r in list <==> r in ToSet(list);
  }

  // ---------------------------------------------------------------------------
  // Grouping the rows by LRP
  // ---------------------------------------------------------------------------

  datatype HaGroup = HaGroup(local: Option<GatewayChassis>, maxPeer: int)

  /** What one HA group records about the rows seen so far. */
  ghost predicate GroupSummarises(g: HaGroup, seen: seq<GatewayChassis>, lrp: string, chassis: string) {
    && g.maxPeer >= -1
    && (g.local.Some? ==> g.local.value in seen && g.local.value.chassisName == chassis && LrpOf(g.local.value) == lrp)
    && (g.local.None? ==> forall r :: r in seen && r.chassisName == chassis ==> LrpOf(r) != lrp)
    && (forall r :: r in seen && IsPeer(r, lrp, chassis) ==> r.priority <= g.maxPeer)
    && (g.maxPeer >= 0 ==> exists r :: r in seen && IsPeer(r, lrp, chassis) && r.priority == g.maxPeer)
  }

  ghost predicate GroupsSummarise(groups: map<string, HaGroup>, seen: seq<GatewayChassis>,
                                  active: set<string>, chassis: string)
  {
    && groups.Keys <= active
    && (forall r :: r in seen && LrpOf(r) in active ==> LrpOf(r) in groups)
    && forall lrp <- groups :: GroupSummarises(groups[lrp], seen, lrp, chassis)
  }

  function EmptyGroup(): HaGroup { HaGroup(None, -1) }

  function GroupAdd(g: HaGroup, row: GatewayChassis, chassis: string): HaGroup {
    if row.chassisName == chassis then g.(local := Some(row))
    else if row.priority > g.maxPeer then g.(maxPeer := row.priority)
    else g
  }

  method GroupRows(list: seq<GatewayChassis>, active: set<string>, chassis: string)
    returns (groups: map<string, HaGroup>)
    ensures GroupsSummarise(groups, list, active, chassis)
  {
    groups := map[];
    for i := 0 to |list|
      invariant GroupsSummarise(groups, list[..i], active, chassis)
    {
      var row := list[i];
      ghost var seen := list[..i];
      assert list[..i + 1] == seen + [row];
      var lrp := LrpOf(row);
      if lrp !in active {
        continue;
      }
      var g := if lrp in groups then groups[lrp] else EmptyGroup();
      assert GroupSummarises(g, seen, lrp, chassis);
      groups := groups[lrp := GroupAdd(g, row, chassis)];
      forall l | l in groups ensures GroupSummarises(groups[l], seen + [row], l, chassis) {
        if l != lrp {
          assert GroupSummarises(groups[l], seen, l, chassis);
        }
      }
    }
    assert list[..|list|] == list;
  }

  /** One HA group of the pass: left alone, or its local row lifted above the highest peer. */
  method BoostGroup(ghost rows: Table, ghost list: seq<GatewayChassis>, g: HaGroup, lrp: string, snapshot: seq<LocalRouter>,
                    chassis: string, crChassis: Option<map<string, string>>, ghost done: set<string>, writes: map<string, nat>)
    returns (writes': map<string, nat>)
    requires WellFormed(rows) && CachedFrom(ToSet(list), rows)
    requires GroupSummarises(g, list, lrp, chassis) && lrp in CrPortByLrp(snapshot) && lrp !in done
    requires writes.Keys <= rows.Keys && LeadWrites(rows, list, done, snapshot, crChassis, chassis, writes)
    ensures writes'.Keys <= rows.Keys && LeadWrites(rows, list, done + {lrp}, snapshot, crChassis, chassis, writes')
  {
    if || g.local.None? || g.maxPeer < 0
       || (g.local.value.priority > g.maxPeer && g.local.value.priority >= MIN_ACTIVE_PRIORITY)
       || BoundElsewhere(crChassis, CrPortByLrp(snapshot)[lrp], chassis)
    {
      SkippedGroup(rows, list, g, lrp, snapshot, crChassis, chassis, done, writes);
      return writes;
    }
    var newPriority := g.maxPeer + 1;
    if newPriority < MIN_ACTIVE_PRIORITY {
      newPriority := MIN_ACTIVE_PRIORITY;
    }
    BoostedRow(rows, list, g, lrp, snapshot, crChassis, chassis, newPriority);
    BoostedGroup(rows, list, g, lrp, snapshot, crChassis, chassis, newPriority, done, writes);
    return writes[g.local.value.uuid := newPriority];
  }

  /** The priority updates one pass of the active lead issues, given the rows it can see. */
  method BoostWrites(ghost rows: Table, list: seq<GatewayChassis>, ghost cache: set<GatewayChassis>,
                     snapshot: seq<LocalRouter>, chassis: string, crChassis: Option<map<string, string>>)
    returns (writes: map<string, nat>)
    requires WellFormed(rows) && CachedFrom(ToSet(list), rows)
    requires ToSet(list) == Visible(cache, rows, chassis)
    ensures LeadRel(rows, WithPriorities(rows, writes), cache, snapshot, crChassis, chassis)
    ensures writes == map[] ==> WithPriorities(rows, writes) == rows
  {
    var groups := GroupRows(list, CrPortByLrp(snapshot).Keys, chassis);
    var todo := groups.Keys;
    ghost var done: set<string> := {};
    writes := map[];
    while todo != {}
      invariant forall lrp :: lrp in groups.Keys <==> lrp in todo || lrp in done
      invariant forall lrp :: lrp in done ==> lrp !in todo
      invariant writes.Keys <= rows.Keys
      invariant LeadWrites(rows, list, done, snapshot, crChassis, chassis, writes)
      decreases todo
    {
      var lrp :| lrp in todo;
      assert lrp in groups.Keys;
      writes := BoostGroup(rows, list, groups[lrp], lrp, snapshot, chassis, crChassis, done, writes);
      todo, done := todo - {lrp}, done + {lrp};
    }
    assert done == groups.Keys;
    LeadWritesDone(rows, list, groups, snapshot, crChassis, chassis, writes, cache);
  }

  // ---------------------------------------------------------------------------
  // The operations
  // ---------------------------------------------------------------------------

  /** One priority for every listed row. */
  method SetPriority(list: seq<GatewayChassis>, p: nat) returns (writes: map<string, nat>)
    ensures writes.Keys == set r | r in list :: r.uuid
    ensures forall u <- writes :: writes[u] == p
  {
    writes := map[];
    for i := 0 to |list|
      invariant writes.Keys == set r | r in list[..i] :: r.uuid
      invariant forall u <- writes :: writes[u] == p
    {
      assert list[..i + 1] == list[..i] + [list[i]];
      writes := writes[list[i].uuid := p];
    }
    assert list[..|list|] == list;
  }

  class OvnNorthbound {
    var rows: Table
    /** Selects and transactions that failed. */
    ghost var failures: nat

    /** One OVSDB transaction: every update in it is applied, or none is. */
    method Transact(writes: map<string, nat>) returns (ok: bool)
      modifies this
      ensures rows == if ok then WithPriorities(old(rows), writes) else old(rows)
      ensures failures == old(failures) + if ok then 0 else 1
    {
      ok := *;
      if ok {
        rows := WithPriorities(rows, writes);
      } else {
        failures := failures + 1;
      }
    }

    /** A server select of this chassis' rows, bypassing the cache. */
    method SelectLocal(chassis: string) returns (r: Option<seq<GatewayChassis>>)
      requires WellFormed(rows)
      modifies this`failures
      ensures r.Some? ==> ToSet(r.value) == RowsOf(rows, chassis)
      ensures failures == old(failures) + if r.Some? then 0 else 1
    {
      var ok: bool := *;
      if !ok {
        failures := failures + 1;
        return None;
      }
      var todo := rows.Keys;
      var found: seq<GatewayChassis> := [];
      while todo != {}
        invariant todo <= rows.Keys
        invariant forall r :: r in found <==> r.uuid in rows.Keys - todo && r == rows[r.uuid] && r.chassisName == chassis
        decreases todo
      {
        var u :| u in todo;
        if rows[u].chassisName == chassis {
          found := found + [rows[u]];
        }
        todo := todo - {u};
      }
      return Some(found);
    }

    /** The rows to lift back to standby: from the cache, or from the server when the cache shows no row of the chassis. */
    method RowsToRestore(cached: seq<GatewayChassis>, chassis: string) returns (r: Option<seq<GatewayChassis>>)
      requires WellFormed(rows)
      modifies this`failures
      ensures r.Some? ==> forall x :: x in r.value <==> x in Visible(ToSet(cached), rows, chassis) && x.chassisName == chassis && x.priority == 0
      ensures failures == old(failures) + if r.Some? then 0 else 1
    {
      var toRestore, hasLocalRow := FilterRestoreCandidates(cached, chassis);
      if hasLocalRow {
        return Some(toRestore);
      }
      var server := SelectLocal(chassis);
      if server.None? {
        return None;
      }
      toRestore, hasLocalRow := FilterRestoreCandidates(server.value, chassis);
      assert forall x :: x in server.value <==> x in RowsOf(rows, chassis);
      return Some(toRestore);
    }

    method RestoreDrainedGateways(cached: seq<GatewayChassis>, chassis: string) returns (ok: bool)
      requires WellFormed(rows) && CachedFrom(ToSet(cached), rows)
      modifies this
      ensures ok ==> RestoreRel(old(rows), rows, ToSet(cached), chassis)
      ensures !ok ==> rows == old(rows)
      ensures failures == old(failures) + if ok then 0 else 1
    {
      var toRestore := RowsToRestore(cached, chassis);
      if toRestore.None? {
        return false;
      }
      var writes := SetPriority(toRestore.value, 1);
      RestoreWrites(rows, ToSet(cached), chassis, toRestore.value, writes);
      if |writes| == 0 {
        return true;
      }
      ok := Transact(writes);
    }

    /** Each poll counts the ports still bound here, or fails; the context's deadline ends the polls. */
    static method AwaitMigration(polls: seq<Option<nat>>) returns (outcome: DrainOutcome)
      ensures outcome != NothingToDrain
      ensures outcome == Migrated <==> exists i :: 0 <= i < |polls| && polls[i] == Some(0) && forall j :: 0 <= j < i ==> polls[j].Some?
      ensures outcome == TimedOut <==> forall i :: 0 <= i < |polls| ==> polls[i].Some? && polls[i].value > 0
    {
      for i := 0 to |polls|
        invariant forall j :: 0 <= j < i ==> polls[j].Some? && polls[j].value > 0
      {
        if polls[i].None? {
          return DrainFailed;
        }
        if polls[i].value == 0 {
          return Migrated;
        }
      }
      return TimedOut;
    }

    /** The rows to drain, read the same way. */
    method RowsToDrain(cached: seq<GatewayChassis>, chassis: string) returns (r: Option<seq<GatewayChassis>>)
      requires WellFormed(rows)
      modifies this`failures
      ensures r.Some? ==> forall x :: x in r.value <==> x in Visible(ToSet(cached), rows, chassis) && x.chassisName == chassis && x.priority > 0
      ensures failures == old(failures) + if r.Some? then 0 else 1
    {
      var toDrain, hasLocalRow := FilterDrainCandidates(cached, chassis);
      if hasLocalRow {
        return Some(toDrain);
      }
      var server := SelectLocal(chassis);
      if server.None? {
        return None;
      }
      toDrain, hasLocalRow := FilterDrainCandidates(server.value, chassis);
      assert forall x :: x in server.value <==> x in RowsOf(rows, chassis);
      return Some(toDrain);
    }

    method DrainGateways(cached: seq<GatewayChassis>, chassis: string, polls: seq<Option<nat>>)
      returns (outcome: DrainOutcome, wrote: bool)
      requires WellFormed(rows) && CachedFrom(ToSet(cached), rows)
      modifies this
      ensures wrote ==> DrainRel(old(rows), rows, ToSet(cached), chassis)
      ensures !wrote ==> rows == old(rows)
      ensures outcome == NothingToDrain ==>
                !wrote && forall u <- rows :: !Drains(ToSet(cached), chassis, rows[u])
      ensures failures == old(failures) ==>
                && (wrote <==> exists u <- old(rows) :: Drains(ToSet(cached), chassis, old(rows)[u]))
                && (!wrote ==> outcome == NothingToDrain)
      ensures failures >= old(failures)
      ensures outcome == Migrated <==>
              wrote && exists i :: 0 <= i < |polls| && polls[i] == Some(0) && forall j :: 0 <= j < i ==> polls[j].Some?
      ensures outcome == TimedOut <==> wrote && forall i :: 0 <= i < |polls| ==> polls[i].Some? && polls[i].value > 0
    {
      var toDrain := RowsToDrain(cached, chassis);
      if toDrain.None? {
        return DrainFailed, false;
      }
      var writes := SetPriority(toDrain.value, 0);
      DrainWrites(rows, ToSet(cached), chassis, toDrain.value, writes);
      if |toDrain.value| == 0 {
        return NothingToDrain, false;
      }
      ghost var first := toDrain.value[0];
      assert first in toDrain.value && first.uuid in rows && Drains(ToSet(cached), chassis, rows[first.uuid]);
      wrote := Transact(writes);
      if !wrote {
        return DrainFailed, false;
      }
      outcome := AwaitMigration(polls);
    }

    method EnsureActivePriorityLead(cached: seq<GatewayChassis>, snapshot: seq<LocalRouter>, chassis: string,
                                    crChassis: Option<map<string, string>>)
      returns (ok: bool)
      requires WellFormed(rows) && CachedFrom(ToSet(cached), rows)
      modifies this
      ensures ok ==> LeadRel(old(rows), rows, ToSet(cached), snapshot, crChassis, chassis)
      ensures ok ==> LeadOutcomes(old(rows), rows, Visible(ToSet(cached), old(rows), chassis), snapshot, crChassis, chassis)
      ensures !ok ==> rows == old(rows)
      ensures failures == old(failures) + if ok then 0 else 1
    {
      if |snapshot| == 0 {
        LeadRelByName(rows, rows, ToSet(cached), snapshot, crChassis, chassis);
        return true;
      }
      var list := cached;
      if !(exists i :: 0 <= i < |cached| && cached[i].chassisName == chassis) {
        var server := SelectLocal(chassis);
        if server.None? {
          return false;
        }
        list := cached + server.value;
        assert forall r :: r in ToSet(list) <==> r in ToSet(cached) || r in ToSet(server.value);
      }
      assert ToSet(list) == Visible(ToSet(cached), rows, chassis);
      var writes := BoostWrites(rows, list, ToSet(cached), snapshot, chassis, crChassis);
      LeadRelByName(rows, WithPriorities(rows, writes), ToSet(cached), snapshot, crChassis, chassis);
      if |writes| == 0 {
        return true;
      }
      ok := Transact(writes);
    }
  }

  // ---------------------------------------------------------------------------
  // Proof support for the operations
  // ---------------------------------------------------------------------------

  lemma RestoreWrites(rows: Table, cache: set<GatewayChassis>, chassis: string,
                      toRestore: seq<GatewayChassis>, writes: map<string, nat>)
    requires WellFormed(rows) && CachedFrom(cache, rows)
    requires forall r :: r in toRestore <==>
      r in Visible(cache, rows, chassis) && r.chassisName == chassis && r.priority == 0
    requires writes.Keys == set r | r in toRestore :: r.uuid
    requires forall u <- writes :: writes[u] == 1
    ensures RestoreRel(rows, WithPriorities(rows, writes), cache, chassis)
    ensures writes == map[] ==> WithPriorities(rows, writes) == rows
  {
  }

  lemma DrainWrites(rows: Table, cache: set<GatewayChassis>, chassis: string,
                    toDrain: seq<GatewayChassis>, writes: map<string, nat>)
    requires WellFormed(rows) && CachedFrom(cache, rows)
    requires forall r :: r in toDrain <==>
      r in Visible(cache, rows, chassis) && r.chassisName == chassis && r.priority > 0
    requires writes.Keys == set r | r in toDrain :: r.uuid
    requires forall u <- writes :: writes[u] == 0
    ensures DrainRel(rows, WithPriorities(rows, writes), cache, chassis)
    ensures toDrain == [] ==> forall u <- rows :: !Drains(cache, chassis, rows[u])
  {
  }

  ghost predicate LeadWrites(rows: Table, list: seq<GatewayChassis>, done: set<string>,
                             snapshot: seq<LocalRouter>, crChassis: Option<map<string, string>>, chassis: string,
                             writes: map<string, nat>)
  {
    forall u <- rows ::
      if LrpOf(rows[u]) in done && Boosts(ToSet(list), snapshot, crChassis, chassis, rows[u]) then
        u in writes && IsLeadPriority(ToSet(list), LrpOf(rows[u]), chassis, writes[u])
      else
        u !in writes
  }

  lemma SkippedGroup(rows: Table, list: seq<GatewayChassis>, g: HaGroup, lrp: string, snapshot: seq<LocalRouter>,
                     crChassis: Option<map<string, string>>, chassis: string,
                     done: set<string>, writes: map<string, nat>)
    requires WellFormed(rows) && CachedFrom(ToSet(list), rows)
    requires GroupSummarises(g, list, lrp, chassis)
    requires lrp in CrPortByLrp(snapshot)
    requires LeadWrites(rows, list, done, snapshot, crChassis, chassis, writes)
    requires
      || g.local.None? || g.maxPeer < 0
      || (g.local.value.priority > g.maxPeer && g.local.value.priority >= MIN_ACTIVE_PRIORITY)
      || BoundElsewhere(crChassis, CrPortByLrp(snapshot)[lrp], chassis)
    ensures LeadWrites(rows, list, done + {lrp}, snapshot, crChassis, chassis, writes)
  {
    forall u | u in rows && LrpOf(rows[u]) == lrp && Boosts(ToSet(list), snapshot, crChassis, chassis, rows[u])
      ensures false
    {
      var peer :| peer in ToSet(list) && IsPeer(peer, lrp, chassis);
      assert peer in list;
      if g.local.Some? {
        assert g.local.value in ToSet(list);
        RowIsUnique(rows, u, g.local.value.uuid);
      }
    }
  }

  lemma BoostedRow(rows: Table, list: seq<GatewayChassis>, g: HaGroup, lrp: string, snapshot: seq<LocalRouter>,
                   crChassis: Option<map<string, string>>, chassis: string, p: nat)
    requires WellFormed(rows) && CachedFrom(ToSet(list), rows)
    requires GroupSummarises(g, list, lrp, chassis)
    requires lrp in CrPortByLrp(snapshot)
    requires g.local.Some? && g.maxPeer >= 0
    requires !(g.local.value.priority > g.maxPeer && g.local.value.priority >= MIN_ACTIVE_PRIORITY)
    requires !BoundElsewhere(crChassis, CrPortByLrp(snapshot)[lrp], chassis)
    requires p == if g.maxPeer + 1 < MIN_ACTIVE_PRIORITY then MIN_ACTIVE_PRIORITY else g.maxPeer + 1
    ensures g.local.value.uuid in rows && rows[g.local.value.uuid] == g.local.value && LrpOf(g.local.value) == lrp
    ensures IsLeadPriority(ToSet(list), lrp, chassis, p)
    ensures Boosts(ToSet(list), snapshot, crChassis, chassis, g.local.value)
    ensures forall u <- rows :: rows[u].chassisName == chassis && LrpOf(rows[u]) == lrp ==> u == g.local.value.uuid
  {
    var local := g.local.value;
    var peer :| peer in list && IsPeer(peer, lrp, chassis) && peer.priority == g.maxPeer;
    assert local in ToSet(list) && peer in ToSet(list);
    forall u | u in rows && LrpOf(rows[u]) == lrp && rows[u].chassisName == chassis ensures u == local.uuid {
      RowIsUnique(rows, u, local.uuid);
    }
  }

  lemma BoostedGroup(rows: Table, list: seq<GatewayChassis>, g: HaGroup, lrp: string, snapshot: seq<LocalRouter>,
                     crChassis: Option<map<string, string>>, chassis: string, p: nat,
                     done: set<string>, writes: map<string, nat>)
    requires lrp !in done && LeadWrites(rows, list, done, snapshot, crChassis, chassis, writes)
    requires g.local.Some? && g.local.value.uuid in rows && rows[g.local.value.uuid] == g.local.value
    requires LrpOf(g.local.value) == lrp
    requires IsLeadPriority(ToSet(list), lrp, chassis, p)
    requires Boosts(ToSet(list), snapshot, crChassis, chassis, g.local.value)
    requires forall u <- rows :: rows[u].chassisName == chassis && LrpOf(rows[u]) == lrp ==> u == g.local.value.uuid
    ensures LeadWrites(rows, list, done + {lrp}, snapshot, crChassis, chassis, writes[g.local.value.uuid := p])
  {
  }

  lemma LeadWritesDone(rows: Table, list: seq<GatewayChassis>, groups: map<string, HaGroup>, snapshot: seq<LocalRouter>,
                       crChassis: Option<map<string, string>>, chassis: string, writes: map<string, nat>,
                       cache: set<GatewayChassis>)
    requires writes.Keys <= rows.Keys
    requires ToSet(list) == Visible(cache, rows, chassis)
    requires GroupsSummarise(groups, list, CrPortByLrp(snapshot).Keys, chassis)
    requires LeadWrites(rows, list, groups.Keys, snapshot, crChassis, chassis, writes)
    ensures LeadRel(rows, WithPriorities(rows, writes), cache, snapshot, crChassis, chassis)
    ensures writes == map[] ==> WithPriorities(rows, writes) == rows
  {
  }
}
