/**
 The OVN rows a state refresh reads. OVSDB columns that hold sets arrive as lists
 in no particular order; the abstract form of a row keeps them as sets.
 */
module OvnTables {
  import opened Wrappers

  datatype PortBinding = PortBinding(
    uuid: string, kind: string, logicalPort: string, chassis: Option<string>,
    options: map<string, string>, externalIds: map<string, string>, natAddresses: seq<string>)

  datatype Chassis = Chassis(uuid: string, name: string, hostname: string)

  datatype RouterPort = RouterPort(uuid: string, name: string, mac: string, networks: seq<string>)

  datatype Router = Router(uuid: string, name: string, ports: seq<string>, nats: seq<string>, staticRoutes: seq<string>)

  datatype Nat = Nat(uuid: string, kind: string, externalIp: string)

  datatype PortBindingA = PortBindingA(
    uuid: string, kind: string, logicalPort: string, chassis: string,
    options: map<string, string>, externalIds: map<string, string>, natAddresses: set<string>)

  datatype RouterPortA = RouterPortA(uuid: string, name: string, mac: string, networks: set<string>)

  datatype RouterA = RouterA(uuid: string, name: string, ports: set<string>, nats: set<string>, staticRoutes: set<string>)

  /** An absent chassis and an empty one both mean "not bound". */
  function ChassisText(p: PortBinding): string {
    if p.chassis.Some? then p.chassis.value else ""
  }

  function AbsPortBinding(p: PortBinding): PortBindingA {
    PortBindingA(p.uuid, p.kind, p.logicalPort, ChassisText(p), p.options, p.externalIds, ToSet(p.natAddresses))
  }

  function AbsRouterPort(p: RouterPort): RouterPortA {
    RouterPortA(p.uuid, p.name, p.mac, ToSet(p.networks))
  }

  function AbsRouter(r: Router): RouterA {
    RouterA(r.uuid, r.name, ToSet(r.ports), ToSet(r.nats), ToSet(r.staticRoutes))
  }

  function Abs<T(==), A(==)>(rows: seq<T>, abs: T -> A): set<A> {
    set row | row in rows :: abs(row)
  }

  function Same<T>(t: T): T { t }

  // ---------------------------------------------------------------------------
  // Raw OVSDB values
  // ---------------------------------------------------------------------------

  datatype Atom = Text(text: string) | Uuid(uuid: string) | OtherAtom

  /** Section 5.1 of RFC 7047: a set of exactly one element may be sent as the bare element. */
  datatype Value = Bare(atom: Atom) | OvsSet(atoms: seq<Atom>) | Absent

  function AtomText(a: Atom): string
    requires !a.OtherAtom?
  {
    if a.Text? then a.text else a.uuid
  }

  method OvsSetToStrings(v: Value) returns (r: seq<string>)
    ensures r == Flatten(v)
  {
    match v
    case Bare(Text(s)) => r := [s];
    case Bare(Uuid(s)) => r := [s];
    case Bare(OtherAtom) => r := [];
    case Absent => r := [];
    case OvsSet(atoms) =>
      r := [];
      for i := 0 to |atoms|
        invariant r == FlattenAtoms(atoms[..i])
      {
        assert atoms[..i + 1][..i] == atoms[..i];
        if !atoms[i].OtherAtom? {
          r := r + [AtomText(atoms[i])];
        }
      }
      assert atoms[..|atoms|] == atoms;
  }

  function FlattenAtoms(atoms: seq<Atom>): seq<string> {
    if atoms == [] then []
    else
      var last := |atoms| - 1;
      FlattenAtoms(atoms[..last]) + if atoms[last].OtherAtom? then [] else [AtomText(atoms[last])]
  }

  function Flatten(v: Value): seq<string> {
    match v
    case Bare(a) => if a.OtherAtom? then [] else [AtomText(a)]
    case OvsSet(atoms) => FlattenAtoms(atoms)
    case Absent => []
  }

  function RowOptString(v: Value): Option<string> {
    match v
    case Bare(OtherAtom) => None
    case Bare(a) => Some(AtomText(a))
    case OvsSet(atoms) => if |Flatten(v)| > 0 then Some(Flatten(v)[0]) else None
    case Absent => None
  }

  /** v is one of the ways the server may send this set of texts or UUID references. */
  ghost predicate Encodes(v: Value, members: seq<Atom>) {
    v == OvsSet(members) || (|members| == 1 && v == Bare(members[0]))
  }

  /** Decoding inverts both encodings of a set, and of an optional column. */
  lemma DecodeInvertsEncode(v: Value, members: seq<Atom>)
    requires Encodes(v, members) && forall a <- members :: !a.OtherAtom?
    ensures Flatten(v) == seq(|members|, i requires 0 <= i < |members| => AtomText(members[i]))
    ensures |members| <= 1 ==> RowOptString(v) == if members == [] then None else Some(AtomText(members[0]))
  {
    FlattenIsPointwise(members);
  }

  lemma {:induction false} FlattenIsPointwise(members: seq<Atom>)
    requires forall a <- members :: !a.OtherAtom?
    ensures FlattenAtoms(members) == seq(|members|, i requires 0 <= i < |members| => AtomText(members[i]))
  {
    if members != [] {
      assert members[|members| - 1] in members;
      assert forall a <- members[..|members| - 1] :: a in members;
      FlattenIsPointwise(members[..|members| - 1]);
    }
  }
}
