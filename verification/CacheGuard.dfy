/**
 The monitor cache is trusted only while a server select of the columns that
 matter shows the same rows; otherwise the table is read from the server.
 */
module CacheGuard {
  import opened Wrappers
  import opened ContentKeys
  import opened OvnTables

  // ---------------------------------------------------------------------------
  // Keys per table
  // ---------------------------------------------------------------------------

  function PortBindingKey(p: PortBinding): string {
    ContentKey([p.uuid, p.kind, ChassisText(p), SortedJoin(p.natAddresses)])
  }

  function ChassisKey(c: Chassis): string {
    ContentKey([c.uuid, c.hostname])
  }

  function RouterKey(r: Router): string {
    ContentKey([r.uuid, SortedJoin(r.ports), SortedJoin(r.nats), SortedJoin(r.staticRoutes)])
  }

  function RouterPortKey(p: RouterPort): string {
    ContentKey([p.uuid, p.mac, SortedJoin(p.networks)])
  }

  function NatKey(n: Nat): string {
    ContentKey([n.uuid, n.kind, n.externalIp])
  }

  ghost predicate CleanPortBinding(p: PortBinding) {
    CleanParts([p.uuid, p.kind, ChassisText(p)]) && CleanSet(p.natAddresses)
  }

  ghost predicate CleanChassis(c: Chassis) {
    CleanParts([c.uuid, c.hostname])
  }

  ghost predicate CleanRouter(r: Router) {
    CleanParts([r.uuid]) && CleanSet(r.ports) && CleanSet(r.nats) && CleanSet(r.staticRoutes)
  }

  ghost predicate CleanRouterPort(p: RouterPort) {
    CleanParts([p.uuid, p.mac]) && CleanSet(p.networks)
  }

  ghost predicate CleanNat(n: Nat) {
    CleanParts([n.uuid, n.kind, n.externalIp])
  }

  /** Keys of two to four fields. */
  lemma FourFieldsDecide(a: seq<string>, b: seq<string>)
    requires 2 <= |a| == |b| <= 4 && CleanParts(a) && CleanParts(b)
    ensures ContentKey(a) == ContentKey(b)
            <==> (a[0] == b[0] && a[1] == b[1] && (|a| > 2 ==> a[2] == b[2]) && (|a| > 3 ==> a[3] == b[3]))
  {
    ContentKeyDecides(a, b);
  }

  lemma PortBindingKeyDecides(p: PortBinding, q: PortBinding)
    requires CleanPortBinding(p) && CleanPortBinding(q)
    ensures PortBindingKey(p) == PortBindingKey(q)
            <==> (p.uuid == q.uuid && p.kind == q.kind && ChassisText(p) == ChassisText(q)
                  && multiset(p.natAddresses) == multiset(q.natAddresses))
  {
    SortedJoinDecides(p.natAddresses, q.natAddresses);
    SortedJoinDecides(q.natAddresses, p.natAddresses);
    FieldsAreClean([p.uuid, p.kind, ChassisText(p)], [SortedJoin(p.natAddresses)]);
    FieldsAreClean([q.uuid, q.kind, ChassisText(q)], [SortedJoin(q.natAddresses)]);
    FourFieldsDecide([p.uuid, p.kind, ChassisText(p), SortedJoin(p.natAddresses)],
                     [q.uuid, q.kind, ChassisText(q), SortedJoin(q.natAddresses)]);
  }

  lemma FieldsAreClean(scalars: seq<string>, sets: seq<string>)
    requires CleanParts(scalars) && forall i :: 0 <= i < |sets| ==> Free(sets[i], UNIT_SEPARATOR)
    ensures CleanParts(scalars + sets)
    ensures |scalars| == 3 && |sets| == 1 ==> scalars + sets == [scalars[0], scalars[1], scalars[2], sets[0]]
    ensures |scalars| == 2 && |sets| == 1 ==> scalars + sets == [scalars[0], scalars[1], sets[0]]
  {
  }

  lemma ChassisKeyDecides(c: Chassis, d: Chassis)
    requires CleanChassis(c) && CleanChassis(d)
    ensures ChassisKey(c) == ChassisKey(d) <==> c.uuid == d.uuid && c.hostname == d.hostname
  {
    FourFieldsDecide([c.uuid, c.hostname], [d.uuid, d.hostname]);
  }

  lemma FourTextsDecide(u: string, x: string, y: string, z: string, u': string, x': string, y': string, z': string)
    requires Free(x, UNIT_SEPARATOR) && Free(y, UNIT_SEPARATOR) && Free(z, UNIT_SEPARATOR)
    requires Free(x', UNIT_SEPARATOR) && Free(y', UNIT_SEPARATOR) && Free(z', UNIT_SEPARATOR)
    requires CleanParts([u]) && CleanParts([u'])
    ensures ContentKey([u, x, y, z]) == ContentKey([u', x', y', z']) <==> u == u' && x == x' && y == y' && z == z'
  {
    assert u in [u] && u' in [u'];
    FourFieldsDecide([u, x, y, z], [u', x', y', z']);
  }

  lemma RouterKeyDecides(p: Router, q: Router)
    requires CleanRouter(p) && CleanRouter(q)
    ensures RouterKey(p) == RouterKey(q)
            <==> (p.uuid == q.uuid && multiset(p.ports) == multiset(q.ports) && multiset(p.nats) == multiset(q.nats)
                  && multiset(p.staticRoutes) == multiset(q.staticRoutes))
  {
    SortedJoinDecides(p.ports, q.ports);
    SortedJoinDecides(q.ports, p.ports);
    SortedJoinDecides(p.nats, q.nats);
    SortedJoinDecides(q.nats, p.nats);
    SortedJoinDecides(p.staticRoutes, q.staticRoutes);
    SortedJoinDecides(q.staticRoutes, p.staticRoutes);
    FourTextsDecide(p.uuid, SortedJoin(p.ports), SortedJoin(p.nats), SortedJoin(p.staticRoutes),
                    q.uuid, SortedJoin(q.ports), SortedJoin(q.nats), SortedJoin(q.staticRoutes));
  }

  lemma RouterPortKeyDecides(p: RouterPort, q: RouterPort)
    requires CleanRouterPort(p) && CleanRouterPort(q)
    ensures RouterPortKey(p) == RouterPortKey(q)
            <==> (p.uuid == q.uuid && p.mac == q.mac && multiset(p.networks) == multiset(q.networks))
  {
    SortedJoinDecides(p.networks, q.networks);
    SortedJoinDecides(q.networks, p.networks);
    FieldsAreClean([p.uuid, p.mac], [SortedJoin(p.networks)]);
    FieldsAreClean([q.uuid, q.mac], [SortedJoin(q.networks)]);
    FourFieldsDecide([p.uuid, p.mac, SortedJoin(p.networks)], [q.uuid, q.mac, SortedJoin(q.networks)]);
  }

  lemma NatKeyDecides(m: Nat, n: Nat)
    requires CleanNat(m) && CleanNat(n)
    ensures NatKey(m) == NatKey(n) <==> m == n
  {
    FourFieldsDecide([m.uuid, m.kind, m.externalIp], [n.uuid, n.kind, n.externalIp]);
  }

  // ---------------------------------------------------------------------------
  // The guard
  // ---------------------------------------------------------------------------

  function Keys<T(==)>(rows: seq<T>, keyOf: T -> string): set<string> {
    set r | r in rows :: keyOf(r)
  }

  method KeySet<T(==)>(rows: seq<T>, keyOf: T -> string) returns (keys: set<string>)
    ensures keys == Keys(rows, keyOf)
  {
    keys := {};
    for i := 0 to |rows|
      invariant keys == Keys(rows[..i], keyOf)
    {
      assert rows[..i + 1] == rows[..i] + [rows[i]];
      keys := keys + {keyOf(rows[i])};
    }
    assert rows[..|rows|] == rows;
  }

  /** Equal sizes and one inclusion are enough. */
  method KeySetsEqual(a: set<string>, b: set<string>) returns (equal: bool)
    ensures equal <==> a == b
  {
    if |a| != |b| {
      return false;
    }
    var todo := a;
    while todo != {}
      invariant todo <= a && a - todo <= b
      decreases todo
    {
      var k :| k in todo;
      if k !in b {
        return false;
      }
      todo := todo - {k};
    }
    SubsetOfSameSize(a, b);
    return true;
  }

  lemma SubsetOfSameSize(a: set<string>, b: set<string>)
    requires a <= b && |a| == |b|
    ensures a == b
  {
    assert |b - a| == |b| - |a|;
    assert b - a == {};
  }

  /** The rows to act on, given the cache and what the two server selects returned. */
  function Authoritative<T(==)>(cached: seq<T>, checked: Option<seq<T>>, full: Option<seq<T>>, keyOf: T -> string): seq<T> {
    if checked.None? then cached
    else if Keys(cached, keyOf) == Keys(checked.value, keyOf) then cached
    else if full.None? then cached
    else full.value
  }

  method AuthoritativeList<T(==)>(cached: seq<T>, checked: Option<seq<T>>, full: Option<seq<T>>, keyOf: T -> string)
    returns (rows: seq<T>)
    ensures rows == Authoritative(cached, checked, full, keyOf)
    ensures checked.None? || full.None? ==> rows == cached
    ensures checked.Some? && Keys(checked.value, keyOf) == Keys(cached, keyOf) ==> rows == cached
    ensures checked.Some? && Keys(checked.value, keyOf) != Keys(cached, keyOf) && full.Some? ==> rows == full.value
  {
    if checked.None? {
      return cached;
    }
    var serverKeys := KeySet(checked.value, keyOf);
    var cacheKeys := KeySet(cached, keyOf);
    var equal := KeySetsEqual(cacheKeys, serverKeys);
    if equal {
      return cached;
    }
    if full.None? {
      return cached;
    }
    return full.value;
  }

  // ---------------------------------------------------------------------------
  // What the guard guarantees
  // ---------------------------------------------------------------------------

  /** Keys of rows from either list determine the abstract row. */
  ghost predicate KeyDetermines<T(!new), A(!new)>(a: seq<T>, b: seq<T>, keyOf: T -> string, abs: T -> A) {
    forall r, s :: r in a && s in b && keyOf(r) == keyOf(s) ==> abs(r) == abs(s)
  }

  lemma CoveredKeysCoveredRows<T(!new), A(!new)>(a: seq<T>, b: seq<T>, keyOf: T -> string, abs: T -> A)
    requires Keys(a, keyOf) <= Keys(b, keyOf) && KeyDetermines(a, b, keyOf, abs)
    ensures Abs(a, abs) <= Abs(b, abs)
  {
    forall x | x in Abs(a, abs) ensures x in Abs(b, abs) {
      var r :| r in a && abs(r) == x;
      assert keyOf(r) in Keys(a, keyOf);
      var s :| s in b && keyOf(s) == keyOf(r);
      assert abs(s) in Abs(b, abs);
    }
  }

  /** When both selects succeed on an unchanging server, the guarded list has the server's abstract rows. */
  lemma GuardIsTransparent<T(!new), A(!new)>(cached: seq<T>, checked: seq<T>, server: seq<T>, keyOf: T -> string, abs: T -> A)
    requires Keys(checked, keyOf) == Keys(server, keyOf)
    requires KeyDetermines(cached, server, keyOf, abs)
    ensures Abs(Authoritative(cached, Some(checked), Some(server), keyOf), abs) == Abs(server, abs)
  {
    if Keys(cached, keyOf) == Keys(server, keyOf) {
      CoveredKeysCoveredRows(cached, server, keyOf, abs);
      CoveredKeysCoveredRows(server, cached, keyOf, abs);
    }
  }

  ghost predicate UniqueKeys<T>(rows: seq<T>, keyOf: T -> string) {
    forall i, j :: 0 <= i < j < |rows| ==> keyOf(rows[i]) != keyOf(rows[j])
  }

  ghost predicate IsOnlyMatch<T>(rows: seq<T>, keyOf: T -> string, key: string, j: int) {
    0 <= j < |rows| && keyOf(rows[j]) == key && forall k :: 0 <= k < |rows| && keyOf(rows[k]) == key ==> k == j
  }

  ghost predicate HasOnlyMatch<T(!new)>(rows: seq<T>, keyOf: T -> string, key: string) {
    exists j :: IsOnlyMatch(rows, keyOf, key, j)
  }

  lemma UniqueKeyHasOnlyMatch<T(!new)>(rows: seq<T>, keyOf: T -> string, key: string)
    requires UniqueKeys(rows, keyOf) && key in Keys(rows, keyOf)
    ensures HasOnlyMatch(rows, keyOf, key)
  {
    var r :| r in rows && keyOf(r) == key;
    var j :| 0 <= j < |rows| && rows[j] == r;
    assert IsOnlyMatch(rows, keyOf, key, j);
  }

  /** With unique keys, equal key sets pair the rows off one to one. */
  lemma EqualKeysPairRows<T(!new)>(a: seq<T>, b: seq<T>, keyOf: T -> string)
    requires UniqueKeys(a, keyOf) && UniqueKeys(b, keyOf)
    requires Keys(a, keyOf) == Keys(b, keyOf)
    ensures |a| == |b|
    ensures forall r <- a :: HasOnlyMatch(b, keyOf, keyOf(r))
  {
    UniqueKeysCount(a, keyOf);
    UniqueKeysCount(b, keyOf);
    forall r | r in a ensures HasOnlyMatch(b, keyOf, keyOf(r)) {
      assert keyOf(r) in Keys(a, keyOf);
      UniqueKeyHasOnlyMatch(b, keyOf, keyOf(r));
    }
  }

  lemma {:induction false} UniqueKeysCount<T(!new)>(rows: seq<T>, keyOf: T -> string)
    requires UniqueKeys(rows, keyOf)
    ensures |Keys(rows, keyOf)| == |rows|
  {
    if rows != [] {
      var last := |rows| - 1;
      UniqueKeysCount(rows[..last], keyOf);
      assert rows == rows[..last] + [rows[last]];
      assert Keys(rows, keyOf) == Keys(rows[..last], keyOf) + {keyOf(rows[last])};
      assert keyOf(rows[last]) !in Keys(rows[..last], keyOf);
    }
  }

  ghost predicate KeyFixesId<T(!new)>(rows: seq<T>, keyOf: T -> string, idOf: T -> string) {
    forall r, s :: r in rows && s in rows && keyOf(r) == keyOf(s) ==> idOf(r) == idOf(s)
  }

  /** With unique row UUIDs equal key sets pair the rows off one to one: a key fixes the UUID. */
  lemma UniqueIdsPairRows<T(!new)>(a: seq<T>, b: seq<T>, keyOf: T -> string, idOf: T -> string)
    requires UniqueKeys(a, idOf) && UniqueKeys(b, idOf) && KeyFixesId(a, keyOf, idOf) && KeyFixesId(b, keyOf, idOf)
    requires Keys(a, keyOf) == Keys(b, keyOf)
    ensures |a| == |b|
    ensures forall r <- a :: HasOnlyMatch(b, keyOf, keyOf(r))
  {
    EqualKeysPairRows(a, b, keyOf);
  }

  function PortBindingId(p: PortBinding): string { p.uuid }

  function RouterId(r: Router): string { r.uuid }

  function RouterPortId(p: RouterPort): string { p.uuid }

  lemma PortBindingRowsPair(a: seq<PortBinding>, b: seq<PortBinding>)
    requires forall p :: p in a || p in b ==> CleanPortBinding(p)
    requires UniqueKeys(a, PortBindingId) && UniqueKeys(b, PortBindingId) && Keys(a, PortBindingKey) == Keys(b, PortBindingKey)
    ensures |a| == |b| && forall p <- a :: HasOnlyMatch(b, PortBindingKey, PortBindingKey(p))
  {
    forall p, q | CleanPortBinding(p) && CleanPortBinding(q) && PortBindingKey(p) == PortBindingKey(q) ensures p.uuid == q.uuid {
      PortBindingKeyDecides(p, q);
    }
    UniqueIdsPairRows(a, b, PortBindingKey, PortBindingId);
  }

  lemma RouterRowsPair(a: seq<Router>, b: seq<Router>)
    requires forall r :: r in a || r in b ==> CleanRouter(r)
    requires UniqueKeys(a, RouterId) && UniqueKeys(b, RouterId) && Keys(a, RouterKey) == Keys(b, RouterKey)
    ensures |a| == |b| && forall r <- a :: HasOnlyMatch(b, RouterKey, RouterKey(r))
  {
    forall p, q | CleanRouter(p) && CleanRouter(q) && RouterKey(p) == RouterKey(q) ensures p.uuid == q.uuid {
      RouterKeyDecides(p, q);
    }
    UniqueIdsPairRows(a, b, RouterKey, RouterId);
  }

  lemma RouterPortRowsPair(a: seq<RouterPort>, b: seq<RouterPort>)
    requires forall p :: p in a || p in b ==> CleanRouterPort(p)
    requires UniqueKeys(a, RouterPortId) && UniqueKeys(b, RouterPortId) && Keys(a, RouterPortKey) == Keys(b, RouterPortKey)
    ensures |a| == |b| && forall p <- a :: HasOnlyMatch(b, RouterPortKey, RouterPortKey(p))
  {
    forall p, q | CleanRouterPort(p) && CleanRouterPort(q) && RouterPortKey(p) == RouterPortKey(q) ensures p.uuid == q.uuid {
      RouterPortKeyDecides(p, q);
    }
    UniqueIdsPairRows(a, b, RouterPortKey, RouterPortId);
  }
}
