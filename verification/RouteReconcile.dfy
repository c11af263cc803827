/**
 The two route planes an agent keeps: kernel routes on the provider bridge and
 FRR static routes that BGP announces. Commands reach them one at a time, any of
 them can fail, and a failed FRR batch may have been applied in part.
 */
module RouteReconcile {
  import opened Wrappers
  import opened Ipv4
  import opened Networks

  datatype Planes = Planes(kernel: set<Ip>, frr: set<Ip>)

  /** Commands; a batch is one vtysh call, and its step records the exit status after the route commands it carried. */
  datatype Op = KernelAdd(ip: Ip) | KernelDel(ip: Ip) | FrrAdd(ip: Ip) | FrrDel(ip: Ip) | AddBatch | DelBatch | BgpRefresh

  /** One command, whether it took effect, and the planes right after it. */
  datatype Step = Step(op: Op, ok: bool, after: Planes)

  /**
   The call being judged: how long the log was, how many failures there had been, which planes and
   routes it was given, and whether it could list FRR where the withdrawals depend on that list.
   */
  datatype Call = Call(start: nat, failures: nat, before: Planes, desired: set<Ip>, filters: seq<Network>, manageKernel: bool, frrListed: bool)

  const FRR_BATCH_SIZE: nat := 500

  /** What one vtysh call takes from `start` on: 500 routes, or what is left of them. */
  ghost predicate IsChunk(ips: seq<Ip>, start: nat, chunk: seq<Ip>) {
    && start % 500 == 0 && start < |ips|
    && chunk == ips[start..if start + 500 < |ips| then start + 500 else |ips|]
  }

  /** With no filters every address is managed. */
  predicate IsManaged(filters: seq<Network>, ip: Ip) {
    |filters| == 0 || CoveredByAny(ip, filters)
  }

  /** An address is managed when there are no filters, or when it lies in the block of some IPv4 one. */
  lemma ManagedExactly(filters: seq<Network>, ip: Ip)
    ensures IsManaged(filters, ip) <==> filters == [] || exists n :: n in filters && InBlock(n, ip)
  {
    CoveredExactly(ip, filters);
  }

  ghost function Unmanaged(filters: seq<Network>, ips: set<Ip>): set<Ip> {
    set ip | ip in ips && !IsManaged(filters, ip)
  }

  lemma ToSetAppend(ips: seq<Ip>, i: nat)
    requires i < |ips|
    ensures ToSet(ips[..i + 1]) == ToSet(ips[..i]) + {ips[i]} && ips[i] in ToSet(ips)
    ensures ToSet(ips[..|ips|]) == ToSet(ips)
  {
  }

  ghost function ManagedOf(filters: seq<Network>, ips: set<Ip>): set<Ip> {
    set ip | ip in ips && IsManaged(filters, ip)
  }

  lemma ManagedAppend(filters: seq<Network>, ips: seq<Ip>, i: nat)
    requires i < |ips|
    ensures ips[i] in ToSet(ips)
    ensures ManagedOf(filters, ToSet(ips[..i + 1])) == ManagedOf(filters, ToSet(ips[..i])) + if IsManaged(filters, ips[i]) then {ips[i]} else {}
  {
    ToSetAppend(ips, i);
  }

  lemma MissingSnoc(done: set<Ip>, ip: Ip, plane: set<Ip>)
    ensures done + {ip} - plane == done - plane + if ip in plane then {} else {ip}
    ensures done + {ip} <= plane <==> done <= plane && ip in plane
  {
  }

  lemma ToSetSnoc(ips: seq<Ip>, ip: Ip)
    ensures ToSet(ips + [ip]) == ToSet(ips) + {ip}
  {
  }

  /** Announced by BGP, but with no kernel route to deliver it. */
  ghost function Blackhole(p: Planes): set<Ip> {
    p.frr - p.kernel
  }

  function Effect(op: Op, ok: bool, p: Planes): Planes {
    if !ok then p else
    match op
    case KernelAdd(ip) => p.(kernel := p.kernel + {ip})
    case KernelDel(ip) => p.(kernel := p.kernel - {ip})
    case FrrAdd(ip) => p.(frr := p.frr + {ip})
    case FrrDel(ip) => p.(frr := p.frr - {ip})
    case AddBatch => p
    case DelBatch => p
    case BgpRefresh => p
  }

  /** The planes after the first steps of a log. */
  ghost function PlanesOf(c: Call, log: seq<Step>): Planes
    requires c.start <= |log|
  {
    if |log| == c.start then c.before else log[|log| - 1].after
  }

  /** The call issued this command and it took effect. */
  ghost predicate Done(log: seq<Step>, start: nat, op: Op) {
    exists i :: start <= i < |log| && log[i].op == op && log[i].ok
  }

  ghost predicate Failed(log: seq<Step>, start: nat, op: Op) {
    exists i :: start <= i < |log| && log[i].op == op && !log[i].ok
  }

  ghost predicate Tried(log: seq<Step>, start: nat, op: Op) {
    exists i :: start <= i < |log| && log[i].op == op
  }

  /** No step of the call failed. */
  ghost predicate AllOk(log: seq<Step>, start: nat) {
    forall i :: start <= i < |log| ==> log[i].ok
  }

  /** From this point on only kernel routes were touched. */
  ghost predicate KernelOnly(log: seq<Step>, from': nat) {
    forall i :: from' <= i < |log| ==> log[i].op.KernelAdd? || log[i].op.KernelDel?
  }

  /** From this point on only kernel routes were added. */
  ghost predicate KernelAdds(log: seq<Step>, from': nat) {
    forall i :: from' <= i < |log| ==> log[i].op.KernelAdd?
  }

  predicate IsBatch(op: Op) {
    op.AddBatch? || op.DelBatch?
  }

  /** From this point on some vtysh batch was issued. */
  ghost predicate Batched(log: seq<Step>, from': nat) {
    exists i :: from' <= i < |log| && IsBatch(log[i].op)
  }

  ghost predicate RefreshFree(log: seq<Step>, from': nat) {
    forall i :: from' <= i < |log| ==> log[i].op != BgpRefresh
  }

  /** After its changes the call refreshes BGP exactly if it has issued a batch, and verification only adds. */
  ghost predicate RefreshedAfter(log: seq<Step>, from': nat, applied: nat) {
    && from' <= applied <= |log| && RefreshFree(log[..applied], from')
    && if Batched(log[..applied], from')
       then applied < |log| && log[applied].op == BgpRefresh && RefreshFree(log, applied + 1) && OnlyAdds(log, applied + 1)
       else applied == |log|
  }

  ghost predicate OnlyAdds(log: seq<Step>, from': nat) {
    forall i :: from' <= i < |log| ==> log[i].op.KernelAdd? || log[i].op.FrrAdd? || log[i].op.AddBatch?
  }

  lemma NoRefreshNeeded(start: seq<Step>, log: seq<Step>)
    requires start <= log && RefreshFree(log, |start|) && !Batched(log, |start|)
    ensures RefreshedAfter(log, |start|, |log|)
  {
    assert log[..|log|] == log;
  }

  lemma RefreshTaken(start: seq<Step>, changes: seq<Step>, s: Step, log: seq<Step>)
    requires start <= changes && changes + [s] <= log && s.op == BgpRefresh
    requires RefreshFree(changes, |start|) && Batched(changes, |start|) && OnlyAdds(log, |changes| + 1)
    ensures RefreshedAfter(log, |start|, |changes|) && log[..|changes|] == changes
  {
    assert log[..|changes|] == changes && log[|changes|] == s;
  }

  lemma BatchedLater(a: seq<Step>, b: seq<Step>, c: seq<Step>)
    requires a <= b <= c
    ensures Batched(c, |a|) <==> Batched(b, |a|) || Batched(c, |b|)
    ensures RefreshFree(c, |a|) <==> RefreshFree(b, |a|) && RefreshFree(c, |b|)
    ensures OnlyAdds(c, |a|) <==> OnlyAdds(b, |a|) && OnlyAdds(c, |b|)
    ensures KernelOnly(c, |a|) <==> KernelOnly(b, |a|) && KernelOnly(c, |b|)
  {
    assert forall i :: 0 <= i < |b| ==> c[i] == b[i];
  }

  /** The call has tried to add the kernel route of each of these addresses. */
  ghost predicate AddsTried(log: seq<Step>, start: nat, ips: set<Ip>) {
    forall ip <- ips :: Tried(log, start, KernelAdd(ip))
  }

  /** All these addresses are in every plane the agent manages. */
  ghost predicate AllPresent(p: Planes, ips: set<Ip>, manageKernel: bool) {
    ips <= p.frr && (manageKernel ==> ips <= p.kernel)
  }

  /** From this point on everything wanted that was missing was tried again. */
  ghost predicate Rechecked(log: seq<Step>, from': nat, before: Planes, wanted: set<Ip>, manageKernel: bool) {
    && (Batched(log, from') <==> !(wanted <= before.frr))
    && (manageKernel ==> AddsTried(log, from', wanted - before.kernel))
  }

  ghost predicate DeletesTried(log: seq<Step>, start: nat, ips: set<Ip>) {
    forall ip <- ips :: Tried(log, start, KernelDel(ip))
  }

  lemma AddsTriedLater(log: seq<Step>, log': seq<Step>, start: nat, ips: set<Ip>)
    requires log <= log' && AddsTried(log, start, ips)
    ensures AddsTried(log', start, ips)
  {
    forall ip | ip in ips ensures Tried(log', start, KernelAdd(ip)) {
      Later(log, log', start, KernelAdd(ip));
    }
  }

  /** A withdrawal of this call failed, or FRR could not be listed for it. */
  ghost predicate WithdrawalFailed(c: Call, log: seq<Step>) {
    Failed(log, c.start, DelBatch) || !c.frrListed
  }

  /**
   What a call may do next. Only desired routes are added, to FRR once their kernel route is there or
   its add has failed; only managed undesired ones are removed, from the kernel once they are not
   announced or a withdrawal has failed.
   */
  ghost predicate Permitted(c: Call, log: seq<Step>, op: Op)
    requires c.start <= |log|
  {
    match op
    case KernelAdd(ip) => c.manageKernel && ip in c.desired
    case FrrAdd(ip) => ip in c.desired && (c.manageKernel ==> ip in PlanesOf(c, log).kernel || Failed(log, c.start, KernelAdd(ip)))
    case FrrDel(ip) => ip !in c.desired && IsManaged(c.filters, ip)
    case KernelDel(ip) =>
      c.manageKernel && ip !in c.desired && IsManaged(c.filters, ip) && (ip !in PlanesOf(c, log).frr || WithdrawalFailed(c, log))
    case _ => true
  }

  ghost predicate LawfulStep(c: Call, log: seq<Step>, s: Step)
    requires c.start <= |log|
  {
    s.after == Effect(s.op, s.ok, PlanesOf(c, log)) && Permitted(c, log, s.op)
  }

  /** Every step of the call was permitted when it was taken and had exactly its own effect. */
  ghost predicate Lawful(c: Call, log: seq<Step>) {
    c.start <= |log|
    && (c.start < |log| ==> Lawful(c, log[..|log| - 1]) && LawfulStep(c, log[..|log| - 1], log[|log| - 1]))
  }

  lemma LawfulSnoc(c: Call, log: seq<Step>, s: Step)
    requires Lawful(c, log) && LawfulStep(c, log, s)
    ensures Lawful(c, log + [s]) && PlanesOf(c, log + [s]) == s.after
    ensures AllOk(log + [s], c.start) <==> AllOk(log, c.start) && s.ok
  {
    assert (log + [s])[..|log|] == log && (log + [s])[|log|] == s;
    assert forall i :: 0 <= i < |log| ==> (log + [s])[i] == log[i];
  }

  lemma {:induction false} LawfulPrefix(c: Call, log: seq<Step>, j: nat)
    requires Lawful(c, log) && c.start <= j <= |log|
    ensures Lawful(c, log[..j])
    decreases |log|
  {
    if j == |log| {
      assert log[..j] == log;
    } else {
      LawfulPrefix(c, log[..|log| - 1], j);
      assert log[..|log| - 1][..j] == log[..j];
    }
  }

  lemma Later(log: seq<Step>, log': seq<Step>, start: nat, op: Op)
    requires log <= log'
    ensures Failed(log, start, op) ==> Failed(log', start, op)
    ensures Done(log, start, op) ==> Done(log', start, op)
    ensures Tried(log, start, op) ==> Tried(log', start, op)
  {
  }

  lemma DoneSnoc(log: seq<Step>, s: Step, start: nat, op: Op)
    requires start <= |log|
    ensures Done(log + [s], start, op) <==> Done(log, start, op) || (s.op == op && s.ok)
    ensures Failed(log + [s], start, op) <==> Failed(log, start, op) || (s.op == op && !s.ok)
  {
    var log' := log + [s];
    if Done(log, start, op) {
      var i :| start <= i < |log| && log[i].op == op && log[i].ok;
      assert log'[i] == log[i];
    }
    if Failed(log, start, op) {
      var i :| start <= i < |log| && log[i].op == op && !log[i].ok;
      assert log'[i] == log[i];
    }
    assert log'[|log|] == s;
  }

  // ---------------------------------------------------------------------------
  // What a lawful call amounts to
  // ---------------------------------------------------------------------------

  /** An address is in a plane exactly as the call's own effective commands for it say. */
  lemma {:induction false} PlanesExactly(c: Call, log: seq<Step>, ip: Ip)
    requires Lawful(c, log)
    ensures ip in PlanesOf(c, log).kernel
            <==> if ip in c.desired then ip in c.before.kernel || Done(log, c.start, KernelAdd(ip))
                 else ip in c.before.kernel && !Done(log, c.start, KernelDel(ip))
    ensures ip in PlanesOf(c, log).frr
            <==> if ip in c.desired then ip in c.before.frr || Done(log, c.start, FrrAdd(ip))
                 else ip in c.before.frr && !Done(log, c.start, FrrDel(ip))
    decreases |log|
  {
    if c.start < |log| {
      var init, s := log[..|log| - 1], log[|log| - 1];
      PlanesExactly(c, init, ip);
      assert log == init + [s];
      DoneSnoc(init, s, c.start, KernelAdd(ip));
      DoneSnoc(init, s, c.start, KernelDel(ip));
      DoneSnoc(init, s, c.start, FrrAdd(ip));
      DoneSnoc(init, s, c.start, FrrDel(ip));
    }
  }

  /** A kernel route deleted by the call was not announced then, or a withdrawal of the call had failed. */
  lemma {:induction false} DeletedOnlyIfWithdrawn(c: Call, log: seq<Step>, ip: Ip)
    requires Lawful(c, log) && Done(log, c.start, KernelDel(ip))
    ensures c.manageKernel && ip !in c.desired && IsManaged(c.filters, ip)
    ensures ip !in PlanesOf(c, log).frr || WithdrawalFailed(c, log)
    decreases |log|
  {
    var init, s := log[..|log| - 1], log[|log| - 1];
    assert log == init + [s];
    DoneSnoc(init, s, c.start, KernelDel(ip));
    DoneSnoc(init, s, c.start, DelBatch);
    if Done(init, c.start, KernelDel(ip)) {
      DeletedOnlyIfWithdrawn(c, init, ip);
    }
  }

  /** A route announced by the call has its kernel route, or the add of that route had failed. */
  lemma {:induction false} AnnouncedOnlyIfRouted(c: Call, log: seq<Step>, ip: Ip)
    requires Lawful(c, log) && Done(log, c.start, FrrAdd(ip)) && c.manageKernel
    ensures ip in c.desired && (ip in PlanesOf(c, log).kernel || Failed(log, c.start, KernelAdd(ip)))
    decreases |log|
  {
    var init, s := log[..|log| - 1], log[|log| - 1];
    assert log == init + [s];
    DoneSnoc(init, s, c.start, FrrAdd(ip));
    DoneSnoc(init, s, c.start, KernelAdd(ip));
    if Done(init, c.start, FrrAdd(ip)) {
      AnnouncedOnlyIfRouted(c, init, ip);
    }
  }

  /** Desired: announced by this call although its kernel add has failed. */
  ghost predicate AnnouncedUnrouted(c: Call, log: seq<Step>, ip: Ip) {
    && ip in c.desired && ip !in c.before.kernel && ip !in c.before.frr
    && Done(log, c.start, FrrAdd(ip)) && Failed(log, c.start, KernelAdd(ip)) && !Done(log, c.start, KernelAdd(ip))
  }

  /** Stale: its kernel route is deleted although it is still announced, because a withdrawal has failed. */
  ghost predicate DeletedUnwithdrawn(c: Call, log: seq<Step>, ip: Ip) {
    && ip !in c.desired && IsManaged(c.filters, ip) && ip in c.before.kernel && ip in c.before.frr
    && Done(log, c.start, KernelDel(ip)) && !Done(log, c.start, FrrDel(ip)) && WithdrawalFailed(c, log)
  }

  /** At any moment of a call the new blackholes are exactly these two kinds of address. */
  lemma BlackholeExactly(c: Call, log: seq<Step>, ip: Ip)
    requires Lawful(c, log) && c.manageKernel
    ensures ip in Blackhole(PlanesOf(c, log)) - Blackhole(c.before) <==> AnnouncedUnrouted(c, log, ip) || DeletedUnwithdrawn(c, log, ip)
  {
    PlanesExactly(c, log, ip);
    if Done(log, c.start, FrrAdd(ip)) {
      AnnouncedOnlyIfRouted(c, log, ip);
    }
    if Done(log, c.start, KernelDel(ip)) {
      DeletedOnlyIfWithdrawn(c, log, ip);
    }
  }

  /** A stale address of both planes ends up announced without a kernel route exactly when its delete took effect and its withdrawal did not. */
  lemma StaleBlackholedExactly(c: Call, log: seq<Step>, ip: Ip)
    requires Lawful(c, log) && ip !in c.desired && ip in c.before.kernel && ip in c.before.frr
    ensures ip in Blackhole(PlanesOf(c, log)) <==> Done(log, c.start, KernelDel(ip)) && !Done(log, c.start, FrrDel(ip))
  {
    PlanesExactly(c, log, ip);
  }

  /** Between any two moments of a call only these addresses become announced without a kernel route. */
  lemma NoTransientBlackhole(c: Call, log: seq<Step>, i: nat, j: nat, ip: Ip)
    requires Lawful(c, log) && c.manageKernel && c.start <= i <= j <= |log|
    requires ip in Blackhole(PlanesOf(c, log[..j])) - Blackhole(PlanesOf(c, log[..i]))
    ensures if ip in c.desired then Failed(log[..j], c.start, KernelAdd(ip))
            else IsManaged(c.filters, ip) && Done(log[..j], c.start, KernelDel(ip)) && !Done(log[..j], c.start, FrrDel(ip))
                 && WithdrawalFailed(c, log[..j])
  {
    LawfulPrefix(c, log, i);
    LawfulPrefix(c, log, j);
    PlanesExactly(c, log[..i], ip);
    PlanesExactly(c, log[..j], ip);
    forall op {
      Later(log[..i], log[..j], c.start, op);
    }
    if Done(log[..j], c.start, FrrAdd(ip)) {
      AnnouncedOnlyIfRouted(c, log[..j], ip);
    }
    if Done(log[..j], c.start, KernelDel(ip)) {
      DeletedOnlyIfWithdrawn(c, log[..j], ip);
    }
  }

  /** Without failures no address ever becomes announced without a kernel route. */
  lemma FaultFreeCallNeverBlackholes(c: Call, log: seq<Step>, i: nat, j: nat)
    requires Lawful(c, log) && AllOk(log, c.start) && c.manageKernel && c.frrListed && c.start <= i <= j <= |log|
    ensures Blackhole(PlanesOf(c, log[..j])) <= Blackhole(PlanesOf(c, log[..i]))
  {
    forall ip | ip in Blackhole(PlanesOf(c, log[..j])) ensures ip in Blackhole(PlanesOf(c, log[..i])) {
      if ip !in Blackhole(PlanesOf(c, log[..i])) {
        NoTransientBlackhole(c, log, i, j, ip);
      }
    }
  }

  /** Under every pattern of failures, from one moment to a later one no desired and no unmanaged route is lost, and only desired ones are added. */
  lemma NothingWantedIsLost(c: Call, log: seq<Step>, i: nat, j: nat)
    requires Lawful(c, log) && c.start <= i <= j <= |log|
    ensures var (p, q) := (PlanesOf(c, log[..i]), PlanesOf(c, log[..j]));
            && c.desired * p.kernel <= q.kernel && c.desired * p.frr <= q.frr
            && Unmanaged(c.filters, p.kernel) <= q.kernel && Unmanaged(c.filters, p.frr) <= q.frr
            && q.kernel <= p.kernel + c.desired && q.frr <= p.frr + c.desired
  {
    var p, q := PlanesOf(c, log[..i]), PlanesOf(c, log[..j]);
    forall ip: Ip
      ensures ip in c.desired || !IsManaged(c.filters, ip) ==> (ip in p.kernel ==> ip in q.kernel) && (ip in p.frr ==> ip in q.frr)
      ensures ip !in c.desired ==> (ip in q.kernel ==> ip in p.kernel) && (ip in q.frr ==> ip in p.frr)
    {
      OneAddressOverTime(c, log, i, j, ip);
    }
  }

  lemma OneAddressOverTime(c: Call, log: seq<Step>, i: nat, j: nat, ip: Ip)
    requires Lawful(c, log) && c.start <= i <= j <= |log|
    ensures var (p, q) := (PlanesOf(c, log[..i]), PlanesOf(c, log[..j]));
            && (ip in c.desired || !IsManaged(c.filters, ip) ==> (ip in p.kernel ==> ip in q.kernel) && (ip in p.frr ==> ip in q.frr))
            && (ip !in c.desired ==> (ip in q.kernel ==> ip in p.kernel) && (ip in q.frr ==> ip in p.frr))
  {
    LawfulPrefix(c, log, i);
    LawfulPrefix(c, log, j);
    PlanesExactly(c, log[..i], ip);
    PlanesExactly(c, log[..j], ip);
    RemovesOnlyManaged(c, log[..j], ip);
    Later(log[..i], log[..j], c.start, KernelAdd(ip));
    Later(log[..i], log[..j], c.start, KernelDel(ip));
    Later(log[..i], log[..j], c.start, FrrAdd(ip));
    Later(log[..i], log[..j], c.start, FrrDel(ip));
  }

  lemma {:induction false} RemovesOnlyManaged(c: Call, log: seq<Step>, ip: Ip)
    requires Lawful(c, log)
    ensures Done(log, c.start, KernelDel(ip)) || Done(log, c.start, FrrDel(ip)) ==> IsManaged(c.filters, ip)
    decreases |log|
  {
    if c.start < |log| {
      var init, s := log[..|log| - 1], log[|log| - 1];
      RemovesOnlyManaged(c, init, ip);
      assert log == init + [s];
      DoneSnoc(init, s, c.start, KernelDel(ip));
      DoneSnoc(init, s, c.start, FrrDel(ip));
    }
  }

  /**
   The failing run: one stale address in both planes, its withdrawal fails and its delete does not. The
   call is lawful, and it creates a blackhole that was not there.
   */
  lemma FailedWithdrawalBlackholes(ip: Ip, filters: seq<Network>) returns (c: Call, log: seq<Step>)
    requires IsManaged(filters, ip)
    ensures Lawful(c, log) && c.filters == filters && c.frrListed && c.desired == {} && Blackhole(c.before) == {}
    ensures Blackhole(PlanesOf(c, log)) == {ip}
  {
    var both := Planes({ip}, {ip});
    c := Call(0, 0, both, {}, filters, true, true);
    log := [];
    log := AddStep(c, log, FrrDel(ip), false);
    log := AddStep(c, log, DelBatch, false);
    assert log[1].op == DelBatch && !log[1].ok;
    log := AddStep(c, log, KernelDel(ip), true);
  }

  lemma AddStep(c: Call, log: seq<Step>, op: Op, ok: bool) returns (log': seq<Step>)
    requires Lawful(c, log) && Permitted(c, log, op)
    ensures log' == log + [Step(op, ok, Effect(op, ok, PlanesOf(c, log)))]
    ensures Lawful(c, log') && PlanesOf(c, log') == Effect(op, ok, PlanesOf(c, log))
  {
    log' := log + [Step(op, ok, Effect(op, ok, PlanesOf(c, log)))];
    LawfulSnoc(c, log, log'[|log|]);
  }

  /** What one clean pass makes of a plane. */
  ghost function Target(filters: seq<Network>, desired: set<Ip>, plane: set<Ip>): set<Ip> {
    desired + Unmanaged(filters, plane)
  }

  ghost function Stale(filters: seq<Network>, desired: set<Ip>, plane: set<Ip>): set<Ip> {
    set ip | ip in plane && ip !in desired && IsManaged(filters, ip)
  }

  /** Nothing to add to a plane and nothing to remove from it. */
  ghost predicate Settled(filters: seq<Network>, desired: set<Ip>, plane: set<Ip>) {
    desired <= plane && forall ip <- plane :: IsManaged(filters, ip) ==> ip in desired
  }

  lemma TargetIsSettled(filters: seq<Network>, desired: set<Ip>, plane: set<Ip>)
    ensures Settled(filters, desired, Target(filters, desired, plane))
    ensures Settled(filters, desired, plane) ==> Target(filters, desired, plane) == plane
  {
  }

  lemma TargetReached(filters: seq<Network>, desired: set<Ip>, plane: set<Ip>, also: set<Ip>)
    requires forall ip <- also :: ip !in desired && IsManaged(filters, ip)
    ensures plane + desired - (also + Stale(filters, desired, plane)) == Target(filters, desired, plane)
  {
  }

  lemma SettledExactly(filters: seq<Network>, desired: set<Ip>, plane: set<Ip>)
    ensures Settled(filters, desired, plane) <==> desired - plane == {} && Stale(filters, desired, plane) == {}
  {
    if desired - plane == {} {
      forall ip | ip in desired ensures ip in plane {
        assert ip !in desired - plane;
      }
    }
  }

  /** What a pass adds to FRR and withdraws from it takes the plane to its target; nothing to do means it was settled. */
  lemma FrrReached(filters: seq<Network>, desired: set<Ip>, frr: set<Ip>, staleKernel: set<Ip>)
    requires forall ip <- staleKernel :: ip !in desired && IsManaged(filters, ip)
    ensures frr + (desired - frr) - (staleKernel + Stale(filters, desired, frr)) == Target(filters, desired, frr)
    ensures (desired - frr != {} || staleKernel + Stale(filters, desired, frr) != {}) <==> !Settled(filters, desired, frr) || staleKernel != {}
  {
    TargetReached(filters, desired, frr, staleKernel);
    SettledExactly(filters, desired, frr);
    assert frr + (desired - frr) == frr + desired;
  }

  lemma KernelReached(filters: seq<Network>, desired: set<Ip>, kernel: set<Ip>)
    ensures kernel + desired - Stale(filters, desired, kernel) == Target(filters, desired, kernel)
  {
    TargetReached(filters, desired, kernel, {});
    assert {} + Stale(filters, desired, kernel) == Stale(filters, desired, kernel);
  }

  /** After a clean pass only unmanaged routes can be announced without a kernel route. */
  lemma CleanPassLeavesUnmanagedOnly(filters: seq<Network>, desired: set<Ip>, before: Planes, after: Planes)
    requires after == Planes(Target(filters, desired, before.kernel), Target(filters, desired, before.frr))
    ensures Blackhole(after) == Unmanaged(filters, Blackhole(before)) - desired
  {
  }

  class RouteAgent {
    const portForwardOnly: bool
    var effectiveFilters: seq<Network>
    var consecutiveReAdds: nat
    var kernel: set<Ip>
    var frr: set<Ip>
    ghost var log: seq<Step>
    ghost var failures: nat

    ghost function Current(): Planes
      reads this
    {
      Planes(kernel, frr)
    }

    ghost function ThisCall(desired: set<Ip>): Call
      reads this
    {
      Call(|log|, failures, Current(), desired, effectiveFilters, !portForwardOnly, true)
    }

    /** The log so far is a lawful run of the call, the planes are where it ended, and a failed step was counted. */
    ghost predicate Tracks(c: Call)
      reads this
    {
      && Lawful(c, log) && PlanesOf(c, log) == Current()
      && failures >= c.failures && (failures == c.failures ==> AllOk(log, c.start))
    }

    // -------------------------------------------------------------------------
    // Commands
    // -------------------------------------------------------------------------

    method List(plane: set<Ip>) returns (r: Option<seq<Ip>>)
      modifies this`failures
      ensures r.Some? ==> ToSet(r.value) == plane && failures == old(failures)
      ensures r.None? ==> failures == old(failures) + 1
    {
      var ok: bool := *;
      if !ok {
        failures := failures + 1;
        return None;
      }
      var todo := plane;
      var ips: seq<Ip> := [];
      while todo != {}
        invariant todo <= plane && forall ip :: ip in ips <==> ip in plane - todo
        decreases todo
      {
        var ip :| ip in todo;
        ips := ips + [ip];
        todo := todo - {ip};
      }
      return Some(ips);
    }

    /** Install the route, or on failure change nothing (no dedicated routing table, so no rollback). */
    method AddKernelRoute(ip: Ip) returns (ok: bool)
      modifies this`kernel, this`log, this`failures
      ensures kernel == if ok then old(kernel) + {ip} else old(kernel)
      ensures log == old(log) + [Step(KernelAdd(ip), ok, Current())]
      ensures failures == old(failures) + if ok then 0 else 1
    {
      ok := *;
      if ok {
        kernel := kernel + {ip};
      } else {
        failures := failures + 1;
      }
      log := log + [Step(KernelAdd(ip), ok, Current())];
    }

    method DelKernelRoute(ip: Ip) returns (ok: bool)
      modifies this`kernel, this`log, this`failures
      ensures kernel == if ok then old(kernel) - {ip} else old(kernel)
      ensures log == old(log) + [Step(KernelDel(ip), ok, Current())]
      ensures failures == old(failures) + if ok then 0 else 1
    {
      ok := *;
      if ok {
        kernel := kernel - {ip};
      } else {
        failures := failures + 1;
      }
      log := log + [Step(KernelDel(ip), ok, Current())];
    }

    method RefreshBgp() returns (ok: bool)
      modifies this`log, this`failures
      ensures log == old(log) + [Step(BgpRefresh, ok, Current())]
      ensures failures == old(failures) + if ok then 0 else 1
    {
      ok := *;
      if !ok {
        failures := failures + 1;
      }
      log := log + [Step(BgpRefresh, ok, Current())];
    }

    method FrrCommand(op: Op, ghost c: Call) returns (applied: bool)
      requires op.FrrAdd? || op.FrrDel?
      requires Tracks(c) && Permitted(c, log, op)
      modifies this`frr, this`log, this`failures
      ensures Tracks(c) && log == old(log) + [Step(op, applied, Current())]
      ensures frr == Effect(op, applied, old(Current())).frr
      ensures failures == old(failures) + if applied then 0 else 1
    {
      applied := *;
      ghost var logBefore := log;
      if !applied {
        failures := failures + 1;
      } else if op.FrrAdd? {
        frr := frr + {op.ip};
      } else {
        frr := frr - {op.ip};
      }
      log := log + [Step(op, applied, Current())];
      LawfulSnoc(c, logBefore, log[|logBefore|]);
    }

    /** The exit status of a vtysh call. */
    method EndBatch(op: Op, ok: bool, ghost c: Call)
      requires op.AddBatch? || op.DelBatch?
      requires Tracks(c)
      modifies this`log, this`failures
      ensures Tracks(c) && log == old(log) + [Step(op, ok, Current())]
      ensures failures == old(failures) + if ok then 0 else 1
    {
      if !ok {
        failures := failures + 1;
      }
      ghost var logBefore := log;
      log := log + [Step(op, ok, Current())];
      LawfulSnoc(c, logBefore, log[|logBefore|]);
    }

    /** One vtysh call: its route commands run in order, each may fail on its own, and so may the call. */
    method VtyshAdd(chunk: seq<Ip>, ghost ips: seq<Ip>, ghost start: nat, ghost c: Call) returns (ok: bool)
      requires Tracks(c) && IsChunk(ips, start, chunk)
      requires forall ip <- chunk :: Permitted(c, log, FrrAdd(ip))
      modifies this`frr, this`log, this`failures
      ensures Tracks(c) && old(log) < log && log[|log| - 1] == Step(AddBatch, ok, Current())
      ensures RefreshFree(log, |old(log)|) && OnlyAdds(log, |old(log)|)
      ensures old(frr) <= frr <= old(frr) + ToSet(chunk) && (ok ==> frr == old(frr) + ToSet(chunk))
      ensures failures >= old(failures) && (!ok ==> failures > old(failures))
    {
      ok := *;
      for i := 0 to |chunk|
        invariant Tracks(c) && old(log) <= log && RefreshFree(log, |old(log)|) && OnlyAdds(log, |old(log)|)
        invariant old(frr) <= frr <= old(frr) + ToSet(chunk[..i]) && (ok ==> frr == old(frr) + ToSet(chunk[..i]))
        invariant failures >= old(failures)
      {
        ToSetAppend(chunk, i);
        Later(old(log), log, c.start, KernelAdd(chunk[i]));
        var applied := FrrCommand(FrrAdd(chunk[i]), c);
        ok := ok && applied;
      }
      assert chunk[..|chunk|] == chunk;
      EndBatch(AddBatch, ok, c);
    }

    method VtyshDel(chunk: seq<Ip>, ghost ips: seq<Ip>, ghost start: nat, ghost c: Call) returns (ok: bool)
      requires Tracks(c) && IsChunk(ips, start, chunk)
      requires forall ip <- chunk :: Permitted(c, log, FrrDel(ip))
      modifies this`frr, this`log, this`failures
      ensures Tracks(c) && old(log) < log && log[|log| - 1] == Step(DelBatch, ok, Current())
      ensures RefreshFree(log, |old(log)|)
      ensures old(frr) - ToSet(chunk) <= frr <= old(frr) && (ok ==> frr == old(frr) - ToSet(chunk))
      ensures failures >= old(failures) && (!ok ==> failures > old(failures))
    {
      ok := *;
      for i := 0 to |chunk|
        invariant Tracks(c) && old(log) <= log && RefreshFree(log, |old(log)|)
        invariant old(frr) - ToSet(chunk) <= frr <= old(frr) && (ok ==> frr == old(frr) - ToSet(chunk[..i]))
        invariant failures >= old(failures)
      {
        ToSetAppend(chunk, i);
        var applied := FrrCommand(FrrDel(chunk[i]), c);
        ok := ok && applied;
      }
      assert chunk[..|chunk|] == chunk;
      EndBatch(DelBatch, ok, c);
    }

    /** Batches of 500; the first failing one ends the call. */
    method AddFrrRoutes(ips: seq<Ip>, ghost c: Call) returns (ok: bool)
      requires Tracks(c)
      requires forall ip <- ips :: Permitted(c, log, FrrAdd(ip))
      modifies this`frr, this`log, this`failures
      ensures Tracks(c) && old(log) <= log
      ensures old(frr) <= frr <= old(frr) + ToSet(ips) && (ok ==> frr == old(frr) + ToSet(ips))
      ensures (Batched(log, |old(log)|) <==> ips != []) && RefreshFree(log, |old(log)|) && OnlyAdds(log, |old(log)|)
      ensures failures >= old(failures) && (!ok ==> failures > old(failures))
    {
      var start := 0;
      while start < |ips|
        invariant 0 <= start <= |ips| && (start % 500 == 0 || start == |ips|)
        invariant Tracks(c) && old(log) <= log
        invariant frr == old(frr) + ToSet(ips[..start])
        invariant (Batched(log, |old(log)|) <==> start > 0) && RefreshFree(log, |old(log)|) && OnlyAdds(log, |old(log)|)
        invariant failures >= old(failures)
      {
        var end := start + FRR_BATCH_SIZE;
        if end > |ips| {
          end := |ips|;
        }
        var chunk := ips[start..end];
        assert ips[..end] == ips[..start] + chunk;
        assert ToSet(ips[..end]) == ToSet(ips[..start]) + ToSet(chunk);
        assert ToSet(ips[..end]) <= ToSet(ips);
        forall ip | ip in chunk ensures Permitted(c, log, FrrAdd(ip)) {
          assert ip in ips;
          Later(old(log), log, c.start, KernelAdd(ip));
        }
        ghost var before := log;
        ok := VtyshAdd(chunk, ips, start, c);
        BatchedLater(old(log), before, log);
        if !ok {
          return false;
        }
        start := end;
      }
      assert ips[..start] == ips;
      return true;
    }

    method DelFrrRoutes(ips: seq<Ip>, ghost c: Call) returns (ok: bool)
      requires Tracks(c)
      requires forall ip <- ips :: Permitted(c, log, FrrDel(ip))
      modifies this`frr, this`log, this`failures
      ensures Tracks(c) && old(log) <= log
      ensures old(frr) - ToSet(ips) <= frr <= old(frr) && (ok ==> frr == old(frr) - ToSet(ips))
      ensures !ok ==> Failed(log, c.start, DelBatch)
      ensures (Batched(log, |old(log)|) <==> ips != []) && RefreshFree(log, |old(log)|)
      ensures failures >= old(failures) && (!ok ==> failures > old(failures))
    {
      var start := 0;
      while start < |ips|
        invariant 0 <= start <= |ips| && (start % 500 == 0 || start == |ips|)
        invariant Tracks(c) && old(log) <= log
        invariant frr == old(frr) - ToSet(ips[..start])
        invariant (Batched(log, |old(log)|) <==> start > 0) && RefreshFree(log, |old(log)|)
        invariant failures >= old(failures)
      {
        var end := start + FRR_BATCH_SIZE;
        if end > |ips| {
          end := |ips|;
        }
        var chunk := ips[start..end];
        assert ips[..end] == ips[..start] + chunk;
        assert ToSet(ips[..end]) == ToSet(ips[..start]) + ToSet(chunk);
        assert ToSet(ips[..end]) <= ToSet(ips);
        assert forall ip :: ip in chunk ==> ip in ips;
        ghost var before := log;
        ok := VtyshDel(chunk, ips, start, c);
        BatchedLater(old(log), before, log);
        if !ok {
          return false;
        }
        start := end;
      }
      assert ips[..start] == ips;
      return true;
    }

    // -------------------------------------------------------------------------
    // Reconciliation
    // -------------------------------------------------------------------------

    ghost predicate Deletable(c: Call, ips: set<Ip>)
      reads this
    {
      c.start <= |log| && forall ip <- ips :: Permitted(c, log, KernelDel(ip))
    }

    /** Every one of these routes may be announced: its kernel route is there, or its add has failed. */
    ghost predicate Announceable(c: Call, ips: set<Ip>)
      reads this
    {
      c.start <= |log| && forall ip <- ips :: Permitted(c, log, FrrAdd(ip))
    }

    /** How far the kernel half has come: the addresses done may be announced, and those not listed were tried. */
    ghost predicate KernelProgress(c: Call, done: set<Ip>, listed: set<Ip>, start: seq<Step>)
      reads this
    {
      && Tracks(c) && start <= log && KernelAdds(log, |start|) && Announceable(c, done)
      && (c.manageKernel ==> AddsTried(log, |start|, done - listed))
    }

    /** Whether or not the add succeeds, the route may be announced afterwards. */
    method TryKernelRoute(ip: Ip, ghost c: Call, ghost from': nat, ghost tried: set<Ip>)
      requires Tracks(c) && c.manageKernel && ip in c.desired
      requires from' <= |log| && AddsTried(log, from', tried)
      modifies this`kernel, this`log, this`failures
      ensures Tracks(c) && old(log) < log && Permitted(c, log, FrrAdd(ip))
      ensures |log| == |old(log)| + 1 && log[|old(log)|].op == KernelAdd(ip)
      ensures AddsTried(log, from', tried + {ip})
      ensures forall ips :: old(Announceable(c, ips)) ==> Announceable(c, ips)
      ensures old(kernel) <= kernel <= old(kernel) + {ip}
      ensures failures >= old(failures) && (failures == old(failures) ==> ip in kernel)
    {
      ghost var logBefore := log;
      var _ := AddKernelRoute(ip);
      LawfulSnoc(c, logBefore, log[|logBefore|]);
      forall a {
        Later(logBefore, log, c.start, KernelAdd(a));
      }
      assert log[|logBefore|].op == KernelAdd(ip);
      AddsTriedLater(logBefore, log, from', tried);
    }

    /** The kernel half of one address. */
    method EnsureKernelRoute(ip: Ip, listed: set<Ip>, ghost c: Call, ghost done: set<Ip>, ghost start: seq<Step>)
      requires KernelProgress(c, done, listed, start) && c.manageKernel == !portForwardOnly && ip in c.desired
      requires c.manageKernel ==> listed <= kernel
      modifies this`kernel, this`log, this`failures
      ensures KernelProgress(c, done + {ip}, listed, start)
      ensures old(kernel) <= kernel <= old(kernel) + {ip} && (!c.manageKernel ==> kernel == old(kernel))
      ensures failures >= old(failures) && (failures == old(failures) && c.manageKernel ==> ip in kernel)
      ensures !c.manageKernel || ip in listed ==> log == old(log) && failures == old(failures)
    {
      if !portForwardOnly && ip !in listed {
        TryKernelRoute(ip, c, |start|, done - listed);
        assert done + {ip} - listed == done - listed + {ip};
      } else {
        assert done + {ip} - listed == done - listed || portForwardOnly;
      }
    }

    /** Add the missing kernel routes one by one, and collect the missing FRR routes for the batch. */
    method AddMissingKernel(desired: seq<Ip>, currentKernel: set<Ip>, currentFrr: set<Ip>, ghost c: Call)
      returns (addFrr: seq<Ip>)
      requires Tracks(c)
      requires c.desired == ToSet(desired) && c.filters == effectiveFilters && c.manageKernel == !portForwardOnly
      requires c.manageKernel ==> currentKernel <= kernel
      modifies this`kernel, this`log, this`failures
      ensures ToSet(addFrr) == ToSet(desired) - currentFrr && (addFrr == [] <==> ToSet(addFrr) == {})
      ensures KernelProgress(c, ToSet(desired), currentKernel, old(log))
      ensures failures >= old(failures)
      ensures failures == old(failures) && c.manageKernel ==> kernel == old(kernel) + ToSet(desired)
      ensures old(kernel) <= kernel && (!c.manageKernel ==> kernel == old(kernel))
      ensures (!c.manageKernel || ToSet(desired) <= currentKernel) ==> log == old(log) && failures == old(failures)
    {
      addFrr := [];
      for i := 0 to |desired|
        invariant ToSet(addFrr) == ToSet(desired[..i]) - currentFrr && (addFrr == [] <==> ToSet(addFrr) == {})
        invariant KernelProgress(c, ToSet(desired[..i]), currentKernel, old(log))
        invariant old(kernel) <= kernel <= old(kernel) + ToSet(desired)
        invariant failures >= old(failures)
        invariant failures == old(failures) && c.manageKernel ==> ToSet(desired[..i]) <= kernel
        invariant !c.manageKernel ==> kernel == old(kernel)
        invariant (!c.manageKernel || ToSet(desired) <= currentKernel) ==> log == old(log) && failures == old(failures)
      {
        var ip := desired[i];
        ToSetAppend(desired, i);
        EnsureKernelRoute(ip, currentKernel, c, ToSet(desired[..i]), old(log));
        if ip !in currentFrr {
          ToSetSnoc(addFrr, ip);
          addFrr := addFrr + [ip];
        }
      }
      assert desired[..|desired|] == desired;
    }

    /** Kernel routes first, then the FRR routes in batches. */
    method AddMissing(desired: seq<Ip>, currentKernel: set<Ip>, currentFrr: set<Ip>, ghost c: Call) returns (added: bool)
      requires Tracks(c)
      requires c.desired == ToSet(desired) && c.filters == effectiveFilters && c.manageKernel == !portForwardOnly
      requires c.manageKernel ==> currentKernel <= kernel
      modifies this`kernel, this`frr, this`log, this`failures
      ensures Tracks(c) && old(log) <= log
      ensures added <==> ToSet(desired) - currentFrr != {}
      ensures (Batched(log, |old(log)|) <==> added) && RefreshFree(log, |old(log)|)
      ensures c.manageKernel ==> AddsTried(log, |old(log)|, ToSet(desired) - currentKernel)
      ensures failures >= old(failures)
      ensures old(kernel) <= kernel && old(frr) <= frr <= old(frr) + (ToSet(desired) - currentFrr)
      ensures failures == old(failures) ==>
                && frr == old(frr) + (ToSet(desired) - currentFrr)
                && (c.manageKernel ==> kernel == old(kernel) + ToSet(desired))
      ensures !c.manageKernel ==> kernel == old(kernel)
      ensures !added && (!c.manageKernel || ToSet(desired) <= currentKernel) ==> log == old(log) && failures == old(failures)
    {
      var addFrr := AddMissingKernel(desired, currentKernel, currentFrr, c);
      added := |addFrr| > 0;
      if added {
        forall ip | ip in addFrr ensures Permitted(c, log, FrrAdd(ip)) {
          assert ip in ToSet(addFrr);
        }
        ghost var before := log;
        var _ := AddFrrRoutes(addFrr, c);
        BatchedLater(old(log), before, log);
        if c.manageKernel {
          AddsTriedLater(before, log, |old(log)|, ToSet(desired) - currentKernel);
        }
      }
    }

    /** Stale kernel routes come first, then FRR routes that no stale kernel route accounts for. */
    method CollectStale(currentKernel: seq<Ip>, currentFrr: seq<Ip>, desired: set<Ip>)
      returns (delFrr: seq<Ip>, removed: set<Ip>)
      ensures removed == Stale(effectiveFilters, desired, ToSet(currentKernel))
      ensures ToSet(delFrr) == removed + Stale(effectiveFilters, desired, ToSet(currentFrr))
    {
      delFrr, removed := [], {};
      for i := 0 to |currentKernel|
        invariant forall ip :: ip in removed <==> ip in currentKernel[..i] && ip !in desired && IsManaged(effectiveFilters, ip)
        invariant ToSet(delFrr) == removed
      {
        var ip := currentKernel[i];
        assert currentKernel[..i + 1] == currentKernel[..i] + [ip];
        if ip !in desired && IsManaged(effectiveFilters, ip) {
          ToSetSnoc(delFrr, ip);
          delFrr := delFrr + [ip];
          removed := removed + {ip};
        }
      }
      assert currentKernel[..|currentKernel|] == currentKernel;
      for i := 0 to |currentFrr|
        invariant ToSet(delFrr) ==
                  removed + set ip | ip in currentFrr[..i] && ip !in desired && IsManaged(effectiveFilters, ip)
      {
        var ip := currentFrr[i];
        assert currentFrr[..i + 1] == currentFrr[..i] + [ip];
        if ip !in desired && IsManaged(effectiveFilters, ip) && ip !in removed {
          ToSetSnoc(delFrr, ip);
          delFrr := delFrr + [ip];
        }
      }
      assert currentFrr[..|currentFrr|] == currentFrr;
    }

    method TryKernelDelete(ip: Ip, ghost c: Call, ghost removed: set<Ip>, ghost tried: set<Ip>)
      requires Tracks(c) && Deletable(c, removed) && ip in removed && DeletesTried(log, c.start, tried)
      modifies this`kernel, this`log, this`failures
      ensures Tracks(c) && Deletable(c, removed) && DeletesTried(log, c.start, tried + {ip})
      ensures old(log) <= log && KernelOnly(log, |old(log)|)
      ensures old(kernel) - {ip} <= kernel <= old(kernel)
      ensures failures >= old(failures) && (failures == old(failures) ==> kernel == old(kernel) - {ip})
    {
      ghost var logBefore := log;
      var _ := DelKernelRoute(ip);
      LawfulSnoc(c, logBefore, log[|logBefore|]);
      forall a {
        Later(logBefore, log, c.start, KernelDel(a));
      }
      Later(logBefore, log, c.start, DelBatch);
      assert log[|logBefore|].op == KernelDel(ip);
    }

    /** Tear down kernel routes that are not announced any more, or all of them after a failed withdrawal. */
    method DelKernelRoutes(list: seq<Ip>, removed: set<Ip>, ghost c: Call)
      requires c.manageKernel && Tracks(c)
      requires Deletable(c, removed)
      modifies this`kernel, this`log, this`failures
      ensures Tracks(c) && old(log) <= log
      ensures old(kernel) - removed <= kernel <= old(kernel) && KernelOnly(log, |old(log)|)
      ensures DeletesTried(log, c.start, removed * ToSet(list))
      ensures failures >= old(failures)
      ensures failures == old(failures) ==> kernel == old(kernel) - (removed * ToSet(list))
      ensures removed == {} ==> log == old(log) && failures == old(failures)
    {
      for i := 0 to |list|
        invariant Tracks(c) && old(log) <= log
        invariant old(kernel) - removed <= kernel <= old(kernel) && KernelOnly(log, |old(log)|)
        invariant Deletable(c, removed) && DeletesTried(log, c.start, removed * ToSet(list[..i]))
        invariant failures >= old(failures)
        invariant failures == old(failures) ==> kernel == old(kernel) - (removed * ToSet(list[..i]))
        invariant removed == {} ==> log == old(log) && failures == old(failures)
      {
        var ip := list[i];
        ToSetAppend(list, i);
        if ip in removed {
          ghost var before := log;
          TryKernelDelete(ip, c, removed, removed * ToSet(list[..i]));
          BatchedLater(old(log), before, log);
          assert removed * ToSet(list[..i + 1]) == removed * ToSet(list[..i]) + {ip};
        }
      }
      assert list[..|list|] == list;
    }

    /** Withdraw stale routes from FRR first, then tear down their kernel routes. */
    method RemoveStale(currentKernel: seq<Ip>, currentFrr: seq<Ip>, desired: set<Ip>, ghost c: Call) returns (deleted: bool)
      requires Tracks(c)
      requires c.desired == desired && c.filters == effectiveFilters && c.manageKernel == !portForwardOnly
      requires portForwardOnly ==> currentKernel == []
      modifies this`kernel, this`frr, this`log, this`failures
      ensures Tracks(c) && old(log) <= log
      ensures failures >= old(failures)
      ensures forall ip <- Stale(effectiveFilters, desired, ToSet(currentKernel)) :: Tried(log, c.start, KernelDel(ip))
      ensures var staleKernel := Stale(effectiveFilters, desired, ToSet(currentKernel));
              var staleFrr := staleKernel + Stale(effectiveFilters, desired, ToSet(currentFrr));
              && (deleted <==> staleFrr != {}) && (Batched(log, |old(log)|) <==> deleted) && RefreshFree(log, |old(log)|)
              && (failures == old(failures) ==> frr == old(frr) - staleFrr && kernel == old(kernel) - staleKernel)
              && (staleFrr == {} ==> log == old(log) && failures == old(failures))
    {
      var delFrr, removed := CollectStale(currentKernel, currentFrr, desired);
      deleted := |delFrr| > 0;
      if deleted {
        assert delFrr[0] in ToSet(delFrr);
        forall ip | ip in delFrr ensures Permitted(c, log, FrrDel(ip)) {
          assert ip in ToSet(delFrr);
        }
        var _ := DelFrrRoutes(delFrr, c);
      }
      ghost var withdrawn := log;
      if !portForwardOnly {
        DelKernelRoutes(currentKernel, removed, c);
      }
      BatchedLater(old(log), withdrawn, log);
      assert removed * ToSet(currentKernel) == removed;
    }

    /** Both listings. A plane that cannot be listed counts as empty. */
    method ListPlanes() returns (currentKernel: seq<Ip>, currentFrr: seq<Ip>)
      modifies this`failures
      ensures failures >= old(failures)
      ensures portForwardOnly ==> currentKernel == []
      ensures ToSet(currentKernel) <= kernel && ToSet(currentFrr) <= frr
      ensures failures == old(failures) ==> ToSet(currentFrr) == frr && (!portForwardOnly ==> ToSet(currentKernel) == kernel)
    {
      currentKernel, currentFrr := [], [];
      if !portForwardOnly {
        var listed := List(kernel);
        if listed.Some? {
          currentKernel := listed.value;
        }
      }
      var listed := List(frr);
      if listed.Some? {
        currentFrr := listed.value;
      }
    }

    /** FRR has to be told something: a route is missing there, or a stale one is in either plane. */
    ghost predicate NeedsFrr(p: Planes, desired: set<Ip>)
      reads this
    {
      !Settled(effectiveFilters, desired, p.frr) || (!portForwardOnly && Stale(effectiveFilters, desired, p.kernel) != {})
    }

    /** Adds, then withdrawals, then kernel deletions: everything EnsureRoutes does before it verifies. */
    method ApplyChanges(desired: seq<Ip>) returns (changed: bool, ghost kernelListed: bool)
      modifies this`kernel, this`frr, this`log, this`failures
      ensures Tracks(old(ThisCall(ToSet(desired)))) && old(log) <= log
      ensures kernelListed && !portForwardOnly ==>
                forall ip <- Stale(effectiveFilters, ToSet(desired), old(kernel)) :: Tried(log, |old(log)|, KernelDel(ip))
      ensures failures >= old(failures) && (frr != old(frr) ==> changed)
      ensures (Batched(log, |old(log)|) <==> changed) && RefreshFree(log, |old(log)|)
      ensures kernelListed && !portForwardOnly ==> AddsTried(log, |old(log)|, ToSet(desired) - old(kernel))
      ensures failures == old(failures) ==>
                && kernelListed
                && (changed <==> NeedsFrr(old(Current()), ToSet(desired)))
                && frr == Target(effectiveFilters, ToSet(desired), old(frr))
                && (!portForwardOnly ==> kernel == Target(effectiveFilters, ToSet(desired), old(kernel)))
                && (Settled(effectiveFilters, ToSet(desired), old(frr))
                    && (!portForwardOnly ==> Settled(effectiveFilters, ToSet(desired), old(kernel)))
                    ==> !changed && log == old(log))
    {
      ghost var c := ThisCall(ToSet(desired));
      var currentKernel, currentFrr := ListPlanes();
      kernelListed := ToSet(currentKernel) == kernel || portForwardOnly;
      var added := AddMissing(desired, ToSet(currentKernel), ToSet(currentFrr), c);
      ghost var mid := log;
      var deleted := RemoveStale(currentKernel, currentFrr, ToSet(desired), c);
      changed := added || deleted;
      BatchedLater(old(log), mid, log);
      if c.manageKernel {
        AddsTriedLater(mid, log, c.start, ToSet(desired) - ToSet(currentKernel));
      }
      if failures == old(failures) {
        FrrReached(effectiveFilters, ToSet(desired), old(frr), Stale(effectiveFilters, ToSet(desired), ToSet(currentKernel)));
        KernelReached(effectiveFilters, ToSet(desired), old(kernel));
        SettledExactly(effectiveFilters, ToSet(desired), old(kernel));
      }
    }

    /** What the verification after the refresh did, given how often in a row it had found something missing before. */
    ghost predicate Verified(applied: nat, verified: bool, wanted: set<Ip>, reAdds: nat)
      reads this
    {
      applied <= |log| &&
      if applied == |log| || !verified then
        consecutiveReAdds == reAdds && |log| <= applied + 1
      else
        && Rechecked(log, applied + 1, log[applied].after, wanted, !portForwardOnly)
        && consecutiveReAdds == if AllPresent(log[applied].after, wanted, !portForwardOnly) then 0 else reAdds + 1
    }

    /**
     Bring both planes to the desired routes. Under every pattern of failures the log is a lawful run of the
     call. Once the kernel routes are listed, every missing one is tried, and every stale one is deleted, whatever
     became of its withdrawal. `applied` is where the log stood when the changes were made; after the refresh the
     planes are listed again, and everything managed that is missing then is tried once more.
     */
    method EnsureRoutes(desired: seq<Ip>) returns (ghost kernelListed: bool, ghost applied: nat, ghost verified: bool)
      modifies this`kernel, this`frr, this`log, this`failures, this`consecutiveReAdds
      ensures Tracks(old(ThisCall(ToSet(desired)))) && old(log) <= log
      ensures kernelListed && !portForwardOnly ==>
                forall ip <- Stale(effectiveFilters, ToSet(desired), old(kernel)) :: Tried(log, |old(log)|, KernelDel(ip))
      ensures kernelListed && !portForwardOnly ==> AddsTried(log, |old(log)|, ToSet(desired) - old(kernel))
      ensures !kernelListed ==> failures > old(failures)
      ensures RefreshedAfter(log, |old(log)|, applied)
      ensures Verified(applied, verified, ManagedOf(effectiveFilters, ToSet(desired)), old(consecutiveReAdds))
      ensures !verified ==> failures > old(failures)
      ensures failures == old(failures) ==>
                && (Batched(log[..applied], |old(log)|) <==> old(NeedsFrr(Current(), ToSet(desired)))) && |log| <= applied + 1
                && AllOk(log, |old(log)|)
                && frr == Target(effectiveFilters, ToSet(desired), old(frr))
                && (!portForwardOnly ==> kernel == Target(effectiveFilters, ToSet(desired), old(kernel)))
                && consecutiveReAdds in {0, old(consecutiveReAdds)} && (frr != old(frr) ==> consecutiveReAdds == 0)
                && (Settled(effectiveFilters, ToSet(desired), old(frr))
                    && (!portForwardOnly ==> Settled(effectiveFilters, ToSet(desired), old(kernel)))
                    ==> log == old(log) && consecutiveReAdds == old(consecutiveReAdds))
    {
      ghost var c := ThisCall(ToSet(desired));
      var changed;
      changed, kernelListed := ApplyChanges(desired);
      ghost var changes := log;
      applied, verified := |log|, true;
      if changed {
        var _ := RefreshBgp();
        ghost var refresh := log[|changes|];
        LawfulSnoc(c, changes, refresh);
        var _, listed' := VerifyRoutes(desired, c);
        verified := listed';
        RefreshTaken(old(log), changes, refresh, log);
      } else {
        NoRefreshNeeded(old(log), log);
      }
      assert log[..applied] == changes;
      forall op {
        Later(changes, log, c.start, op);
      }
      if kernelListed && !portForwardOnly {
        AddsTriedLater(changes, log, c.start, ToSet(desired) - old(kernel));
      }
    }

    /** How far a verification has come with the addresses done: what it has to re-add, and what it has re-added. */
    ghost predicate ReAdding(c: Call, done: set<Ip>, kernelSet: set<Ip>, reAddFrr: seq<Ip>, reAddKernel: nat, start: Planes, log0: seq<Step>, failures0: nat)
      reads this
    {
      && KernelProgress(c, done, kernelSet, log0) && frr == start.frr
      && start.kernel <= kernel <= start.kernel + done && failures >= failures0
      && (failures == failures0 && !portForwardOnly ==> done <= kernel)
      && ToSet(reAddFrr) == done - frr && (reAddFrr == [] <==> done <= frr)
      && (reAddKernel == 0 <==> portForwardOnly || done <= kernelSet)
      && (reAddKernel == 0 ==> log == log0 && kernel == start.kernel && failures == failures0)
    }

    method ReAddOne(ip: Ip, kernelSet: set<Ip>, frrSet: set<Ip>, reAddFrr: seq<Ip>, reAddKernel: nat,
                    ghost c: Call, ghost done: set<Ip>, ghost start: Planes, ghost log0: seq<Step>, ghost failures0: nat)
      returns (reAddFrr': seq<Ip>, reAddKernel': nat)
      requires ReAdding(c, done, kernelSet, reAddFrr, reAddKernel, start, log0, failures0)
      requires c.manageKernel == !portForwardOnly && ip in c.desired && frrSet == frr
      requires !portForwardOnly ==> kernelSet <= kernel
      modifies this`kernel, this`log, this`failures
      ensures ReAdding(c, done + {ip}, kernelSet, reAddFrr', reAddKernel', start, log0, failures0)
      ensures !portForwardOnly ==> kernelSet <= kernel
    {
      reAddFrr', reAddKernel' := reAddFrr, reAddKernel;
      MissingSnoc(done, ip, frr);
      MissingSnoc(done, ip, kernelSet);
      if ip !in frrSet {
        ToSetSnoc(reAddFrr, ip);
        reAddFrr' := reAddFrr + [ip];
      }
      if !portForwardOnly && ip !in kernelSet {
        reAddKernel' := reAddKernel + 1;
      }
      EnsureKernelRoute(ip, kernelSet, c, done, log0);
    }

    /** Re-add the managed kernel routes that are gone, and collect the FRR routes that are. */
    method ReAddKernelRoutes(desired: seq<Ip>, kernelSet: set<Ip>, frrSet: set<Ip>, ghost c: Call)
      returns (reAddFrr: seq<Ip>, reAddKernel: nat)
      requires Tracks(c)
      requires c.desired == ToSet(desired) && c.filters == effectiveFilters && c.manageKernel == !portForwardOnly
      requires frrSet == frr && (!portForwardOnly ==> kernelSet == kernel)
      modifies this`kernel, this`log, this`failures
      ensures ReAdding(c, ManagedOf(effectiveFilters, ToSet(desired)), kernelSet, reAddFrr, reAddKernel, old(Current()), old(log), old(failures))
    {
      reAddFrr, reAddKernel := [], 0;
      ghost var done: set<Ip> := {};
      for i := 0 to |desired|
        invariant done == ManagedOf(effectiveFilters, ToSet(desired[..i])) && (!portForwardOnly ==> kernelSet <= kernel)
        invariant ReAdding(c, done, kernelSet, reAddFrr, reAddKernel, old(Current()), old(log), old(failures))
      {
        var ip := desired[i];
        ManagedAppend(effectiveFilters, desired, i);
        if !IsManaged(effectiveFilters, ip) {
          continue;
        }
        reAddFrr, reAddKernel := ReAddOne(ip, kernelSet, frrSet, reAddFrr, reAddKernel, c, done, old(Current()), old(log), old(failures));
        done := done + {ip};
      }
      assert desired[..|desired|] == desired;
    }

    /** Both planes get back what they miss. */
    method ReAddMissing(desired: seq<Ip>, kernelSet: set<Ip>, frrSet: set<Ip>, ghost c: Call) returns (reAdds: nat)
      requires Tracks(c)
      requires c.desired == ToSet(desired) && c.filters == effectiveFilters && c.manageKernel == !portForwardOnly
      requires frrSet == frr && (!portForwardOnly ==> kernelSet == kernel)
      modifies this`kernel, this`frr, this`log, this`failures
      ensures Tracks(c) && old(log) <= log && OnlyAdds(log, |old(log)|) && failures >= old(failures)
      ensures failures == old(failures) ==>
                && frr == old(frr) + ManagedOf(effectiveFilters, ToSet(desired))
                && (!portForwardOnly ==> kernel == old(kernel) + ManagedOf(effectiveFilters, ToSet(desired)))
      ensures reAdds == 0 <==> AllPresent(old(Current()), ManagedOf(effectiveFilters, ToSet(desired)), !portForwardOnly)
      ensures reAdds == 0 ==> log == old(log) && Current() == old(Current()) && failures == old(failures)
      ensures Rechecked(log, |old(log)|, old(Current()), ManagedOf(effectiveFilters, ToSet(desired)), !portForwardOnly)
    {
      ghost var wanted := ManagedOf(effectiveFilters, ToSet(desired));
      var reAddFrr, reAddKernel := ReAddKernelRoutes(desired, kernelSet, frrSet, c);
      ghost var before := log;
      if |reAddFrr| > 0 {
        forall ip | ip in reAddFrr ensures Permitted(c, log, FrrAdd(ip)) {
          assert ip in ToSet(reAddFrr);
        }
        var _ := AddFrrRoutes(reAddFrr, c);
      }
      BatchedLater(old(log), before, log);
      if !portForwardOnly {
        AddsTriedLater(before, log, |old(log)|, wanted - kernelSet);
      }
      assert old(frr) + ToSet(reAddFrr) == old(frr) + wanted;
      reAdds := |reAddFrr| + reAddKernel;
    }

    /** Re-add desired managed routes that are gone after a change; the result counts them. `listed` says whether both planes could be read. */
    method VerifyRoutes(desired: seq<Ip>, ghost c: Call) returns (reAdds: nat, ghost listed: bool)
      requires Tracks(c)
      requires c.desired == ToSet(desired) && c.filters == effectiveFilters && c.manageKernel == !portForwardOnly
      modifies this`kernel, this`frr, this`log, this`failures, this`consecutiveReAdds
      ensures Tracks(c) && old(log) <= log && OnlyAdds(log, |old(log)|)
      ensures failures >= old(failures)
      ensures failures == old(failures) ==>
                && frr == old(frr) + ManagedOf(effectiveFilters, ToSet(desired))
                && (!portForwardOnly ==> kernel == old(kernel) + ManagedOf(effectiveFilters, ToSet(desired)))
                && listed && (reAdds == 0 ==> log == old(log) && Current() == old(Current()))
      ensures !listed ==> failures > old(failures) && log == old(log) && consecutiveReAdds == old(consecutiveReAdds)
      ensures listed ==>
                && Rechecked(log, |old(log)|, old(Current()), ManagedOf(effectiveFilters, ToSet(desired)), !portForwardOnly)
                && (reAdds == 0 <==> AllPresent(old(Current()), ManagedOf(effectiveFilters, ToSet(desired)), !portForwardOnly))
                && consecutiveReAdds == if reAdds == 0 then 0 else old(consecutiveReAdds) + 1
    {
      listed := false;
      var currentFrr := List(frr);
      if currentFrr.None? {
        return 0, false;
      }
      var kernelSet: set<Ip> := {};
      if !portForwardOnly {
        var currentKernel := List(kernel);
        if currentKernel.None? {
          return 0, false;
        }
        kernelSet := ToSet(currentKernel.value);
      }
      var frrSet := ToSet(currentFrr.value);
      reAdds := ReAddMissing(desired, kernelSet, frrSet, c);
      listed := true;
      if reAdds > 0 {
        consecutiveReAdds := consecutiveReAdds + 1;
      } else {
        consecutiveReAdds := 0;
      }
    }

    method FilterManaged(list: seq<Ip>) returns (managed: seq<Ip>)
      ensures ToSet(managed) == Stale(effectiveFilters, {}, ToSet(list)) && (managed == [] <==> ToSet(managed) == {})
    {
      managed := [];
      for i := 0 to |list|
        invariant ToSet(managed) == Stale(effectiveFilters, {}, ToSet(list[..i])) && (managed == [] <==> ToSet(managed) == {})
      {
        ToSetAppend(list, i);
        if IsManaged(effectiveFilters, list[i]) {
          ToSetSnoc(managed, list[i]);
          managed := managed + [list[i]];
        }
      }
      assert list[..|list|] == list;
    }

    /** Withdraw every managed route; the call records whether FRR could be listed. */
    method WithdrawAll() returns (withdrew: bool, ghost c: Call)
      modifies this`frr, this`log, this`failures
      ensures c == old(ThisCall({})).(frrListed := c.frrListed) && (!c.frrListed ==> failures > old(failures))
      ensures Tracks(c) && old(log) <= log && failures >= old(failures)
      ensures (Batched(log, |old(log)|) <==> withdrew) && RefreshFree(log, |old(log)|)
      ensures failures == old(failures) ==> (withdrew <==> ManagedOf(effectiveFilters, old(frr)) != {})
      ensures WithdrawalFailed(c, log) || forall ip <- frr :: !IsManaged(effectiveFilters, ip)
      ensures failures == old(failures) ==> frr == Unmanaged(effectiveFilters, old(frr))
    {
      c := ThisCall({});
      withdrew := false;
      var listed := List(frr);
      if listed.None? {
        c := c.(frrListed := false);
        return;
      }
      var delFrr := FilterManaged(listed.value);
      withdrew := |delFrr| > 0;
      if withdrew {
        forall ip | ip in delFrr ensures Permitted(c, log, FrrDel(ip)) {
          assert ip in ToSet(delFrr);
        }
        var _ := DelFrrRoutes(delFrr, c);
      }
    }

    method DeleteAll(ghost c: Call)
      requires Tracks(c) && c.manageKernel && c.desired == {} && c.filters == effectiveFilters
      requires WithdrawalFailed(c, log) || forall ip <- frr :: !IsManaged(effectiveFilters, ip)
      modifies this`kernel, this`log, this`failures
      ensures Tracks(c) && old(log) <= log && failures >= old(failures) && KernelOnly(log, |old(log)|)
      ensures failures == old(failures) ==> kernel == Unmanaged(effectiveFilters, old(kernel))
    {
      var listed := List(kernel);
      if listed.Some? {
        var delKernel := FilterManaged(listed.value);
        forall ip | ip in delKernel ensures Permitted(c, log, KernelDel(ip)) {
          assert ip in ToSet(delKernel);
        }
        DelKernelRoutes(delKernel, ToSet(delKernel), c);
      }
    }

    method RefreshIfBatched(changed: bool, ghost c: Call)
      requires Tracks(c) && RefreshFree(log, c.start) && (Batched(log, c.start) <==> changed)
      modifies this`log, this`failures
      ensures Tracks(c) && old(log) <= log && failures >= old(failures)
      ensures RefreshedAfter(log, c.start, |old(log)|) && |log| <= |old(log)| + 1 && log[..|old(log)|] == old(log)
    {
      ghost var changes, start := log, log[..c.start];
      if changed {
        var _ := RefreshBgp();
        LawfulSnoc(c, changes, log[|changes|]);
        RefreshTaken(start, changes, log[|changes|], log);
      } else {
        NoRefreshNeeded(start, log);
      }
    }

    /** Withdrawals, then kernel deletions. */
    method RemovePlanes() returns (withdrew: bool, ghost c: Call)
      modifies this`kernel, this`frr, this`log, this`failures
      ensures c == old(ThisCall({})).(frrListed := c.frrListed) && (!c.frrListed ==> failures > old(failures))
      ensures Tracks(c) && old(log) <= log && failures >= old(failures)
      ensures (Batched(log, |old(log)|) <==> withdrew) && RefreshFree(log, |old(log)|)
      ensures failures == old(failures) ==>
                && (withdrew <==> ManagedOf(effectiveFilters, old(frr)) != {})
                && frr == Unmanaged(effectiveFilters, old(frr))
                && (!portForwardOnly ==> kernel == Unmanaged(effectiveFilters, old(kernel)))
    {
      withdrew, c := WithdrawAll();
      ghost var withdrawn := log;
      if !portForwardOnly {
        DeleteAll(c);
      }
      BatchedLater(old(log), withdrawn, log);
    }

    /**
     Remove every managed route, announcements first. A kernel route goes while it is still announced
     only after a failed withdrawal, or when FRR could not be listed at all.
     */
    method RemoveAllRoutes() returns (ghost c: Call, ghost applied: nat)
      modifies this`kernel, this`frr, this`log, this`failures
      ensures c == old(ThisCall({})).(frrListed := c.frrListed) && (!c.frrListed ==> failures > old(failures))
      ensures Tracks(c) && old(log) <= log
      ensures RefreshedAfter(log, |old(log)|, applied) && |log| <= applied + 1
      ensures failures == old(failures) ==>
                && (Batched(log[..applied], |old(log)|) <==> ManagedOf(effectiveFilters, old(frr)) != {})
                && AllOk(log, |old(log)|)
                && frr == Unmanaged(effectiveFilters, old(frr))
                && (!portForwardOnly ==> kernel == Unmanaged(effectiveFilters, old(kernel)))
    {
      var withdrew;
      withdrew, c := RemovePlanes();
      applied := |log|;
      RefreshIfBatched(withdrew, c);
    }
  }
}
