/**
 The event loop that turns database events into state refreshes and
 reconciliations: two signal channels of capacity 1 and two timers, with events
 arriving at any moment, also while a refresh is running.
 */
module RefreshLoop {
  import opened Wrappers

  datatype Phase = Waiting | Refreshing(immediate: bool)

  /**
   The loop's channels and timers, with the bookkeeping the theorems are about:
   `events` counts database events, `seen` and `published` how many of them the
   last started and the last successful refresh read, `reconciled` how many the
   state read by the last reconciliation covered; `started`, `finished` and
   `notified` count refreshes.
   */
  datatype Loop = Loop(
    debounceFull: bool, immediateFull: bool, debounceArmed: bool,
    reconcileArmed: bool, reconcileFull: bool, phase: Phase,
    events: nat, seen: nat, published: nat, reconciled: nat,
    started: nat, finished: nat, notified: nat)

  datatype Arm =
    | Event(immediate: bool)   // a cache event handler signals one of the channels
    | Tick                     // the agent's periodic reconciliation
    | TakeDebounce             // the loop receives from debounceCh
    | FireDebounce             // the debounce timer fires
    | TakeImmediate            // the loop receives from immediateCh
    | FinishRefresh(ok: bool)  // refreshState returns; without ok it left the state unchanged
    | FireReconcile            // the reconcile timer fires
    | Reconcile                // the agent receives from reconcileCh

  const START := Loop(false, false, false, false, false, Waiting, 0, 0, 0, 0, 0, 0, 0)

  predicate Enabled(s: Loop, a: Arm) {
    match a
    case Event(_) => true
    case Tick => true
    case TakeDebounce => s.phase.Waiting? && s.debounceFull
    case FireDebounce => s.phase.Waiting? && s.debounceArmed
    case TakeImmediate => s.phase.Waiting? && s.immediateFull
    case FinishRefresh(_) => s.phase.Refreshing?
    case FireReconcile => s.phase.Waiting? && s.reconcileArmed
    case Reconcile => s.reconcileFull
  }

  function Next(s: Loop, a: Arm): Loop
    requires Enabled(s, a)
  {
    match a
    case Event(true) => s.(events := s.events + 1, immediateFull := true)
    case Event(false) => s.(events := s.events + 1, debounceFull := true)
    case Tick => s.(reconciled := s.published)
    case TakeDebounce => s.(debounceFull := false, debounceArmed := true)
    case FireDebounce =>
      s.(debounceArmed := false, phase := Refreshing(false), seen := s.events, started := s.started + 1)
    case TakeImmediate =>
      s.(immediateFull := false, debounceArmed := false, phase := Refreshing(true), seen := s.events, started := s.started + 1)
    case FinishRefresh(ok) =>
      var t := s.(phase := Waiting, finished := s.finished + 1, published := if ok then s.seen else s.published);
      if s.phase.immediate then t.(reconcileFull := true) else t.(reconcileArmed := true)
    case FireReconcile => s.(reconcileArmed := false, reconcileFull := true)
    case Reconcile => s.(reconcileFull := false, reconciled := s.published, notified := s.finished)
  }

  /** A schedule offers arms in turn; one that is not enabled is passed over. */
  function Play(s: Loop, schedule: seq<Arm>): Loop {
    if schedule == [] then s
    else
      var t := Play(s, schedule[..|schedule| - 1]);
      var a := schedule[|schedule| - 1];
      if Enabled(t, a) then Next(t, a) else t
  }

  // ---------------------------------------------------------------------------
  // The loop itself
  // ---------------------------------------------------------------------------

  class RefreshLoop {
    var debounceFull: bool
    var immediateFull: bool
    var debounceArmed: bool
    var reconcileArmed: bool
    var reconcileFull: bool
    var phase: Phase
    ghost var events: nat
    ghost var seen: nat
    ghost var published: nat
    ghost var reconciled: nat
    ghost var started: nat
    ghost var finished: nat
    ghost var notified: nat

    ghost function State(): Loop
      reads this
    {
      Loop(debounceFull, immediateFull, debounceArmed, reconcileArmed, reconcileFull, phase,
           events, seen, published, reconciled, started, finished, notified)
    }

    constructor ()
      ensures State() == START
    {
      debounceFull, immediateFull, debounceArmed, reconcileArmed, reconcileFull := false, false, false, false, false;
      phase := Waiting;
      events, seen, published, reconciled := 0, 0, 0, 0;
      started, finished, notified := 0, 0, 0;
    }

    method DebounceStateRefresh()
      modifies this
      ensures State() == Next(old(State()), Event(false))
    {
      events := events + 1;
      if !debounceFull {
        debounceFull := true;
      }
    }

    method ImmediateStateRefresh()
      modifies this
      ensures State() == Next(old(State()), Event(true))
    {
      events := events + 1;
      if !immediateFull {
        immediateFull := true;
      }
    }

    method StartRefresh(immediate: bool)
      modifies this
      ensures State() == old(State()).(phase := Refreshing(immediate), seen := events, started := old(started) + 1)
    {
      phase := Refreshing(immediate);
      seen := events;
      started := started + 1;
    }

    method TriggerReconcile()
      modifies this
      ensures State() == old(State()).(reconcileFull := true)
    {
      if !reconcileFull {
        reconcileFull := true;
      }
    }

    method FinishRefresh(ok: bool)
      requires phase.Refreshing?
      modifies this
      ensures State() == Next(old(State()), Arm.FinishRefresh(ok))
    {
      var immediate := phase.immediate;
      phase := Waiting;
      finished := finished + 1;
      if ok {
        published := seen;
      }
      if immediate {
        TriggerReconcile();
      } else if !reconcileArmed {
        reconcileArmed := true;
      }
    }

    /** One turn of the select statement, or one step of its surroundings. */
    method Turn(a: Arm)
      requires Enabled(State(), a)
      modifies this
      ensures State() == Next(old(State()), a)
    {
      match a {
        case Event(immediate) =>
          if immediate {
            ImmediateStateRefresh();
          } else {
            DebounceStateRefresh();
          }
        case Tick =>
          reconciled := published;
        case TakeDebounce =>
          debounceFull := false;
          if !debounceArmed {
            debounceArmed := true;
          }
        case FireDebounce =>
          debounceArmed := false;
          StartRefresh(false);
        case TakeImmediate =>
          immediateFull := false;
          if debounceArmed {
            debounceArmed := false;
          }
          StartRefresh(true);
        case FinishRefresh(ok) =>
          FinishRefresh(ok);
        case FireReconcile =>
          reconcileArmed := false;
          TriggerReconcile();
        case Reconcile =>
          reconcileFull := false;
          reconciled := published;
          notified := finished;
      }
    }

    method Run(schedule: seq<Arm>)
      modifies this
      ensures State() == Play(old(State()), schedule)
    {
      for i := 0 to |schedule|
        invariant State() == Play(old(State()), schedule[..i])
      {
        var a := schedule[i];
        assert schedule[..i + 1][..i] == schedule[..i];
        var enabled := CanTake(a);
        if enabled {
          Turn(a);
        }
      }
      assert schedule[..|schedule|] == schedule;
    }

    method CanTake(a: Arm) returns (enabled: bool)
      ensures enabled == Enabled(State(), a)
    {
      match a {
        case Event(_) => enabled := true;
        case Tick => enabled := true;
        case TakeDebounce => enabled := phase.Waiting? && debounceFull;
        case FireDebounce => enabled := phase.Waiting? && debounceArmed;
        case TakeImmediate => enabled := phase.Waiting? && immediateFull;
        case FinishRefresh(_) => enabled := phase.Refreshing?;
        case FireReconcile => enabled := phase.Waiting? && reconcileArmed;
        case Reconcile => enabled := reconcileFull;
      }
    }
  }

  // ---------------------------------------------------------------------------
  // Nothing is lost
  // ---------------------------------------------------------------------------

  ghost predicate SignalPending(s: Loop) {
    s.debounceFull || s.immediateFull || s.debounceArmed
  }

  ghost predicate NotificationPending(s: Loop) {
    s.reconcileArmed || s.reconcileFull
  }

  ghost predicate EventsSignalled(s: Loop) {
    (s.events > s.seen ==> SignalPending(s)) && s.published <= s.seen <= s.events
  }

  ghost predicate RefreshesNotified(s: Loop) {
    && (s.finished > s.notified || s.published != s.reconciled ==> NotificationPending(s))
    && s.notified <= s.finished && s.started == s.finished + One(s.phase.Refreshing?)
  }

  ghost predicate NothingLost(s: Loop) {
    EventsSignalled(s) && RefreshesNotified(s)
  }

  lemma EventsSignalledInStep(s: Loop, a: Arm)
    requires EventsSignalled(s) && Enabled(s, a)
    ensures EventsSignalled(Next(s, a))
  {
  }

  /** The arms from the end of a refresh to the reconciliation. */
  predicate Notifies(a: Arm) { a.FinishRefresh? || a.FireReconcile? || a.Reconcile? }

  lemma NotifyingArm(s: Loop, a: Arm)
    requires RefreshesNotified(s) && Enabled(s, a) && Notifies(a)
    ensures RefreshesNotified(Next(s, a))
  {
  }

  lemma OtherArm(s: Loop, a: Arm)
    requires RefreshesNotified(s) && Enabled(s, a) && !Notifies(a)
    ensures RefreshesNotified(Next(s, a))
  {
  }

  lemma RefreshesNotifiedInStep(s: Loop, a: Arm)
    requires RefreshesNotified(s) && Enabled(s, a)
    ensures RefreshesNotified(Next(s, a))
  {
    if Notifies(a) {
      NotifyingArm(s, a);
    } else {
      OtherArm(s, a);
    }
  }

  /**
   Whatever the schedule: an event newer than the last refresh start still has
   its signal, and a finished refresh the agent has not reconciled still has its
   notification.
   */
  lemma {:induction false} NoEventLost(s: Loop, schedule: seq<Arm>)
    requires NothingLost(s)
    ensures NothingLost(Play(s, schedule))
  {
    if schedule != [] {
      var init, a := schedule[..|schedule| - 1], schedule[|schedule| - 1];
      NoEventLost(s, init);
      if Enabled(Play(s, init), a) {
        EventsSignalledInStep(Play(s, init), a);
        RefreshesNotifiedInStep(Play(s, init), a);
      }
    }
  }

  function One(b: bool): nat { if b then 1 else 0 }

  /** Refreshes that can still start without another event. */
  function OpenRefreshes(s: Loop): nat {
    One(s.immediateFull) + One(s.debounceFull) + One(s.debounceArmed)
  }

  lemma OpenRefreshesInStep(s: Loop, a: Arm)
    requires Enabled(s, a)
    ensures Next(s, a).started + OpenRefreshes(Next(s, a)) <= s.started + OpenRefreshes(s) + One(a.Event?)
  {
  }

  lemma EventsInStep(s: Loop, a: Arm)
    requires Enabled(s, a)
    ensures Next(s, a).events == s.events + One(a.Event?)
  {
  }

  /** A burst coalesces: refreshes started plus those still open never exceed the events. */
  lemma {:induction false} EventsCoalesce(schedule: seq<Arm>)
    ensures var s := Play(START, schedule); s.started + OpenRefreshes(s) <= s.events
  {
    if schedule != [] {
      var init, a := schedule[..|schedule| - 1], schedule[|schedule| - 1];
      EventsCoalesce(init);
      if Enabled(Play(START, init), a) {
        OpenRefreshesInStep(Play(START, init), a);
        EventsInStep(Play(START, init), a);
      }
    }
  }

  // ---------------------------------------------------------------------------
  // Quiescence
  // ---------------------------------------------------------------------------

  predicate FromOutside(a: Arm) { a.Event? || a.Tick? }

  ghost predicate Quiet(s: Loop) {
    s.phase.Waiting? && !SignalPending(s) && !NotificationPending(s)
  }

  /** A loop that is not quiet can take a step of its own. */
  lemma LoopProgresses(s: Loop) returns (a: Arm)
    requires !Quiet(s)
    ensures !FromOutside(a) && Enabled(s, a)
  {
    a := if s.phase.Refreshing? then FinishRefresh(true)
         else if s.immediateFull then TakeImmediate
         else if s.debounceFull then TakeDebounce
         else if s.debounceArmed then FireDebounce
         else if s.reconcileArmed then FireReconcile
         else Reconcile;
  }

  /** An upper bound on the steps the loop can take on its own. */
  function Work(s: Loop): nat {
    5 * One(s.debounceFull) + 4 * One(s.debounceArmed) + 4 * One(s.immediateFull)
    + 3 * One(s.phase.Refreshing?) + 2 * One(s.reconcileArmed) + One(s.reconcileFull)
  }

  function Steps(s: Loop, schedule: seq<Arm>): nat {
    if schedule == [] then 0
    else
      var init := schedule[..|schedule| - 1];
      Steps(s, init) + One(Enabled(Play(s, init), schedule[|schedule| - 1]))
  }

  lemma NotifyingWork(s: Loop, a: Arm)
    requires Enabled(s, a) && Notifies(a)
    ensures Work(Next(s, a)) < Work(s)
  {
  }

  lemma SignalWork(s: Loop, a: Arm)
    requires Enabled(s, a) && !Notifies(a) && !FromOutside(a)
    ensures Work(Next(s, a)) < Work(s)
  {
  }

  lemma WorkInStep(s: Loop, a: Arm)
    requires Enabled(s, a) && !FromOutside(a)
    ensures Work(Next(s, a)) < Work(s)
  {
    if Notifies(a) {
      NotifyingWork(s, a);
    } else {
      SignalWork(s, a);
    }
  }

  /**
   Once events stop, however the loop's own arms are scheduled, at most 19 steps
   and 3 more refreshes are left, and fewer when fewer channels and timers are set.
   */
  lemma {:induction false} LoopQuiesces(s: Loop, schedule: seq<Arm>)
    requires forall i :: 0 <= i < |schedule| ==> !FromOutside(schedule[i])
    ensures Work(Play(s, schedule)) + Steps(s, schedule) <= Work(s) <= 19
    ensures Play(s, schedule).started + OpenRefreshes(Play(s, schedule)) <= s.started + OpenRefreshes(s) <= s.started + 3
    ensures Play(s, schedule).events == s.events
  {
    if schedule != [] {
      var init, a := schedule[..|schedule| - 1], schedule[|schedule| - 1];
      LoopQuiesces(s, init);
      if Enabled(Play(s, init), a) {
        WorkInStep(Play(s, init), a);
        OpenRefreshesInStep(Play(s, init), a);
        EventsInStep(Play(s, init), a);
      }
    }
  }

  lemma {:induction false} PlayAppends(s: Loop, first: seq<Arm>, rest: seq<Arm>)
    ensures Play(s, first + rest) == Play(Play(s, first), rest)
  {
    if rest == [] {
      assert first + rest == first;
    } else {
      var last := |rest| - 1;
      assert (first + rest)[..|first + rest| - 1] == first + rest[..last];
      PlayAppends(s, first, rest[..last]);
    }
  }

  /** The loop's own arm that leads to one more refresh while some can still start. */
  function TowardsRefresh(s: Loop): (a: Arm)
    requires OpenRefreshes(s) > 0
    ensures !FromOutside(a) && Enabled(s, a)
  {
    if s.phase.Refreshing? then FinishRefresh(true)
    else if s.debounceArmed then FireDebounce
    else if s.debounceFull then TakeDebounce
    else TakeImmediate
  }

  /** That arm spends no refresh that could still have started. */
  lemma NothingWasted(s: Loop)
    requires OpenRefreshes(s) > 0
    ensures var t := Next(s, TowardsRefresh(s)); t.started + OpenRefreshes(t) == s.started + OpenRefreshes(s) && t.started <= s.started + 1
  {
  }

  /** Any number up to OpenRefreshes of refreshes can still start without another event. */
  lemma {:induction false} RefreshesAttained(s: Loop, n: nat) returns (schedule: seq<Arm>)
    requires n <= OpenRefreshes(s)
    ensures forall i :: 0 <= i < |schedule| ==> !FromOutside(schedule[i])
    ensures Play(s, schedule).started == s.started + n
    decreases Work(s)
  {
    schedule := [];
    if n > 0 {
      var a := TowardsRefresh(s);
      var t := Next(s, a);
      NothingWasted(s);
      WorkInStep(s, a);
      var rest := RefreshesAttained(t, n - (t.started - s.started));
      PlayOne(s, a);
      PlayAppends(s, [a], rest);
      schedule := [a] + rest;
    }
  }

  lemma PlayOne(s: Loop, a: Arm)
    requires Enabled(s, a)
    ensures Play(s, [a]) == Next(s, a)
  {
    assert [a][..0] == [];
  }

  /** A schedule without events and ticks in which n more refreshes start. */
  ghost predicate StartsAnother(s: Loop, schedule: seq<Arm>, n: nat) {
    && (forall i :: 0 <= i < |schedule| ==> !FromOutside(schedule[i]))
    && Play(s, schedule).started == s.started + n
  }

  /** The number of refreshes that can start without another event is exactly bounded by the set channels and the armed timer. */
  lemma RefreshesLeftExactly(s: Loop, n: nat)
    ensures (exists schedule :: StartsAnother(s, schedule, n)) <==> n <= OpenRefreshes(s)
  {
    forall schedule | StartsAnother(s, schedule, n) ensures n <= OpenRefreshes(s) {
      LoopQuiesces(s, schedule);
    }
    if n <= OpenRefreshes(s) {
      var schedule := RefreshesAttained(s, n);
      assert StartsAnother(s, schedule, n);
    }
  }

  lemma {:induction false} InFlightIsDisarmed(schedule: seq<Arm>)
    ensures Play(START, schedule).phase.Refreshing? ==> !Play(START, schedule).debounceArmed
  {
    if schedule != [] {
      InFlightIsDisarmed(schedule[..|schedule| - 1]);
    }
  }

  /**
   The source promises one pass in flight and one queued follow-up. Behind a pass in flight exactly as many follow-ups
   can start without another event as channels are full, so the promise holds exactly while they are not both.
   */
  lemma FollowUpsExactly(schedule: seq<Arm>, n: nat)
    requires Play(START, schedule).phase.Refreshing?
    ensures var s := Play(START, schedule);
            && ((exists more :: StartsAnother(s, more, n)) <==> n <= One(s.immediateFull) + One(s.debounceFull))
            && (!(exists more :: StartsAnother(s, more, 2)) <==> !(s.immediateFull && s.debounceFull))
  {
    InFlightIsDisarmed(schedule);
    RefreshesLeftExactly(Play(START, schedule), n);
    RefreshesLeftExactly(Play(START, schedule), 2);
  }

  /** The failing input: a pass in flight, an event of each kind, and two follow-ups start although no event comes any more. */
  lemma TwoFollowUpsStart() returns (schedule: seq<Arm>, more: seq<Arm>)
    ensures var s := Play(START, schedule); s.phase.Refreshing? && s.events == 3 && StartsAnother(s, more, 2)
  {
    var s := START;
    schedule := [];
    schedule, s := Extend(schedule, s, Event(false));
    schedule, s := Extend(schedule, s, TakeDebounce);
    schedule, s := Extend(schedule, s, FireDebounce);
    schedule, s := Extend(schedule, s, Event(false));
    schedule, s := Extend(schedule, s, Event(true));
    more := RefreshesAttained(s, 2);
  }

  /** With the timer armed and both channels full, all three refreshes start. */
  lemma ThreeRefreshesStart() returns (schedule: seq<Arm>, more: seq<Arm>)
    ensures var s := Play(START, schedule); s.started == 0 && s.events == 3 && StartsAnother(s, more, 3)
  {
    var s := START;
    schedule := [];
    schedule, s := Extend(schedule, s, Event(false));
    schedule, s := Extend(schedule, s, TakeDebounce);
    schedule, s := Extend(schedule, s, Event(false));
    schedule, s := Extend(schedule, s, Event(true));
    more := RefreshesAttained(s, 3);
  }

  // ---------------------------------------------------------------------------
  // The two paths
  // ---------------------------------------------------------------------------

  /** Step i of the schedule is this arm, and it was enabled. */
  ghost predicate Taken(schedule: seq<Arm>, i: int, a: Arm) {
    0 <= i < |schedule| && schedule[i] == a && Enabled(Play(START, schedule[..i]), a)
  }

  ghost predicate Finished(schedule: seq<Arm>, i: int) {
    Taken(schedule, i, FinishRefresh(true)) || Taken(schedule, i, FinishRefresh(false))
  }

  /** From i up to j this arm is not taken. */
  ghost predicate NotTaken(schedule: seq<Arm>, i: int, j: int, a: Arm) {
    forall k :: i <= k < j ==> !Taken(schedule, k, a)
  }

  /** The refresh in flight after this schedule, or the one that finished last, was started by this arm. */
  function StartedBy(schedule: seq<Arm>): Option<Arm> {
    if schedule == [] then None
    else
      var init, a := schedule[..|schedule| - 1], schedule[|schedule| - 1];
      if (a.TakeImmediate? || a.FireDebounce?) && Enabled(Play(START, init), a) then Some(a) else StartedBy(init)
  }

  lemma StepAt(schedule: seq<Arm>, i: nat)
    requires i < |schedule|
    ensures Play(START, schedule[..i + 1])
            == if Enabled(Play(START, schedule[..i]), schedule[i]) then Next(Play(START, schedule[..i]), schedule[i]) else Play(START, schedule[..i])
    ensures StartedBy(schedule[..i + 1])
            == if (schedule[i].TakeImmediate? || schedule[i].FireDebounce?) && Enabled(Play(START, schedule[..i]), schedule[i])
               then Some(schedule[i]) else StartedBy(schedule[..i])
  {
    assert schedule[..i + 1][..i] == schedule[..i] && schedule[..i + 1][i] == schedule[i];
  }

  /** The phase remembers which arm started the refresh in flight. */
  lemma {:induction false} PhaseIsStart(schedule: seq<Arm>, i: nat)
    requires i <= |schedule| && Play(START, schedule[..i]).phase.Refreshing?
    ensures StartedBy(schedule[..i]) == Some(if Play(START, schedule[..i]).phase.immediate then TakeImmediate else FireDebounce)
  {
    if i > 0 {
      StepAt(schedule, i - 1);
      if Play(START, schedule[..i - 1]).phase.Refreshing? {
        PhaseIsStart(schedule, i - 1);
      }
    }
  }

  /** A full reconcile channel stays full until the agent takes from it. */
  lemma {:induction false} QueuedStays(schedule: seq<Arm>, i: nat, j: nat)
    requires i <= j <= |schedule| && Play(START, schedule[..i]).reconcileFull && NotTaken(schedule, i, j, Reconcile)
    ensures Play(START, schedule[..j]).reconcileFull
  {
    if i < j {
      QueuedStays(schedule, i, j - 1);
      StepAt(schedule, j - 1);
      assert !Taken(schedule, j - 1, Reconcile);
    }
  }

  /**
   The immediate path: once a refresh started by TakeImmediate has finished, failed or not, the agent can reconcile
   at every moment until it does. No timer has to fire.
   */
  lemma ImmediateRefreshReconcilesAtOnce(schedule: seq<Arm>, i: nat, j: nat)
    requires Finished(schedule, i) && StartedBy(schedule[..i]) == Some(TakeImmediate)
    requires i < j <= |schedule| && NotTaken(schedule, i + 1, j, Reconcile)
    ensures Enabled(Play(START, schedule[..j]), Reconcile)
  {
    PhaseIsStart(schedule, i);
    StepAt(schedule, i);
    QueuedStays(schedule, i + 1, j);
  }

  /** Step i queues a reconciliation: the reconcile timer fires, or an immediate refresh finishes. */
  ghost predicate Queues(schedule: seq<Arm>, i: int) {
    Taken(schedule, i, FireReconcile) || (Finished(schedule, i) && StartedBy(schedule[..i]) == Some(TakeImmediate))
  }

  /** In every schedule, a reconciliation becomes possible in exactly these steps. */
  lemma QueuedExactly(schedule: seq<Arm>, i: nat)
    requires i < |schedule| && !Enabled(Play(START, schedule[..i]), Reconcile)
    ensures Enabled(Play(START, schedule[..i + 1]), Reconcile) <==> Queues(schedule, i)
  {
    StepAt(schedule, i);
    if Play(START, schedule[..i]).phase.Refreshing? {
      PhaseIsStart(schedule, i);
    }
  }

  lemma {:induction false} NothingQueued(schedule: seq<Arm>, i: nat, j: nat)
    requires i <= j <= |schedule| && !Enabled(Play(START, schedule[..i]), Reconcile) && forall k :: i <= k < j ==> !Queues(schedule, k)
    ensures !Enabled(Play(START, schedule[..j]), Reconcile)
  {
    if i < j {
      NothingQueued(schedule, i, j - 1);
      QueuedExactly(schedule, j - 1);
    }
  }

  /**
   The debounced path: a refresh started by FireDebounce that finishes with no reconciliation queued leaves none
   queued until the reconcile timer fires or an immediate refresh finishes, and the timer is armed until it fires.
   */
  lemma DebouncedRefreshWaitsForTimer(schedule: seq<Arm>, i: nat, j: nat)
    requires Finished(schedule, i) && StartedBy(schedule[..i]) == Some(FireDebounce) && i < j <= |schedule|
    ensures !Enabled(Play(START, schedule[..i]), Reconcile) && (forall k :: i < k < j ==> !Queues(schedule, k))
            ==> !Enabled(Play(START, schedule[..j]), Reconcile)
    ensures NotTaken(schedule, i + 1, j, FireReconcile) ==> Play(START, schedule[..j]).reconcileArmed
  {
    if !Enabled(Play(START, schedule[..i]), Reconcile) && forall k :: i < k < j ==> !Queues(schedule, k) {
      assert !Queues(schedule, i);
      NothingQueued(schedule, i, j);
    }
    if NotTaken(schedule, i + 1, j, FireReconcile) {
      PhaseIsStart(schedule, i);
      StepAt(schedule, i);
      ArmedStays(schedule, i + 1, j);
    }
  }

  lemma {:induction false} ArmedStays(schedule: seq<Arm>, i: nat, j: nat)
    requires i <= j <= |schedule| && Play(START, schedule[..i]).reconcileArmed && NotTaken(schedule, i, j, FireReconcile)
    ensures Play(START, schedule[..j]).reconcileArmed
  {
    if i < j {
      ArmedStays(schedule, i, j - 1);
      StepAt(schedule, j - 1);
      assert !Taken(schedule, j - 1, FireReconcile);
    }
  }

  /** An immediate event needs no debounce timer: until TakeImmediate is taken it can be, whenever the loop waits. */
  lemma {:induction false} ImmediateEventIsTakenAtOnce(schedule: seq<Arm>, i: nat, j: nat)
    requires Taken(schedule, i, Event(true)) && i < j <= |schedule| && NotTaken(schedule, i + 1, j, TakeImmediate)
    ensures Play(START, schedule[..j]).phase.Waiting? ==> Enabled(Play(START, schedule[..j]), TakeImmediate)
    ensures Play(START, schedule[..j]).immediateFull
    decreases j
  {
    StepAt(schedule, j - 1);
    if i + 1 < j {
      ImmediateEventIsTakenAtOnce(schedule, i, j - 1);
      assert !Taken(schedule, j - 1, TakeImmediate);
    }
  }

  /** A debounced event starts no refresh but through the debounce timer: without immediate events every start is a FireDebounce. */
  lemma {:induction false} DebouncedEventsWaitForTimer(schedule: seq<Arm>, i: nat)
    requires i <= |schedule| && forall k :: 0 <= k < i ==> schedule[k] != Event(true)
    ensures StartedBy(schedule[..i]) != Some(TakeImmediate) && !Play(START, schedule[..i]).immediateFull
  {
    if i > 0 {
      DebouncedEventsWaitForTimer(schedule, i - 1);
      StepAt(schedule, i - 1);
    }
  }

  /** After a periodic or a queued reconciliation the agent has acted on the published state. */
  lemma ReconciledIsPublished(schedule: seq<Arm>, i: nat)
    requires Taken(schedule, i, Tick) || Taken(schedule, i, Reconcile)
    ensures Play(START, schedule[..i + 1]).reconciled == Play(START, schedule[..i + 1]).published
  {
    StepAt(schedule, i);
  }

  /** In a quiet loop every event was read by a refresh started after it, and every refresh has been reconciled. */
  lemma QuietMeansCaughtUp(s: Loop)
    requires NothingLost(s) && Quiet(s)
    ensures s.seen == s.events && s.notified == s.finished == s.started && s.reconciled == s.published
  {
  }

  /** Step i of the schedule ends a refresh that has not failed. */
  ghost predicate GoodFinish(schedule: seq<Arm>, i: int) {
    0 <= i < |schedule| && schedule[i] == FinishRefresh(true) && Play(START, schedule[..i]).phase.Refreshing?
  }

  /** A good refresh that had read the first n events. */
  ghost predicate GoodRefreshRead(schedule: seq<Arm>, n: nat) {
    exists i :: GoodFinish(schedule, i) && Play(START, schedule[..i]).seen >= n
  }

  lemma GoodRefreshSnoc(schedule: seq<Arm>, n: nat)
    requires schedule != []
    ensures var last := |schedule| - 1;
            GoodRefreshRead(schedule, n)
            <==> GoodRefreshRead(schedule[..last], n) || (GoodFinish(schedule, last) && Play(START, schedule[..last]).seen >= n)
  {
    var last := |schedule| - 1;
    forall i | 0 <= i < last ensures GoodFinish(schedule[..last], i) <==> GoodFinish(schedule, i) {
      assert schedule[..last][..i] == schedule[..i];
    }
    if i :| GoodFinish(schedule[..last], i) && Play(START, schedule[..last][..i]).seen >= n {
      assert schedule[..last][..i] == schedule[..i];
    }
    if i :| GoodFinish(schedule, i) && i < last && Play(START, schedule[..i]).seen >= n {
      assert schedule[..last][..i] == schedule[..i];
    }
  }

  lemma PublishedInStep(s: Loop, a: Arm, n: nat)
    requires Enabled(s, a) && s.published <= s.seen
    ensures Next(s, a).published >= n <==> s.published >= n || (a == FinishRefresh(true) && s.seen >= n)
  {
  }

  /** The published state covers the first n events exactly when some good refresh had read them. */
  lemma {:induction false} PublishedExactly(schedule: seq<Arm>, n: nat)
    requires n > 0
    ensures Play(START, schedule).published >= n <==> GoodRefreshRead(schedule, n)
  {
    if schedule != [] {
      var last := |schedule| - 1;
      var init, a := schedule[..last], schedule[last];
      PublishedExactly(init, n);
      GoodRefreshSnoc(schedule, n);
      NoEventLost(START, init);
      if Enabled(Play(START, init), a) {
        PublishedInStep(Play(START, init), a, n);
      }
    }
  }

  lemma {:induction false} EventsNeverDrop(schedule: seq<Arm>, i: nat)
    requires i <= |schedule|
    ensures Play(START, schedule[..i]).events <= Play(START, schedule).events
  {
    if i == |schedule| {
      assert schedule[..i] == schedule;
    } else {
      var init, a := schedule[..|schedule| - 1], schedule[|schedule| - 1];
      EventsNeverDrop(init, i);
      assert init[..i] == schedule[..i];
      if Enabled(Play(START, init), a) {
        EventsInStep(Play(START, init), a);
      }
    }
  }

  /**
   A loop that has come to rest has reconciled a state that covers every event if and only if, after the
   last event, some refresh started that did not fail: failures before or after it do no harm.
   */
  lemma QuietLoopCurrentExactly(schedule: seq<Arm>)
    requires Quiet(Play(START, schedule))
    ensures var s := Play(START, schedule);
            s.reconciled == s.events
            <==> s.events == 0 || exists i :: GoodFinish(schedule, i) && Play(START, schedule[..i]).seen == s.events
  {
    var s := Play(START, schedule);
    NoEventLost(START, schedule);
    QuietMeansCaughtUp(s);
    if s.events > 0 {
      PublishedExactly(schedule, s.events);
      forall i | GoodFinish(schedule, i) ensures Play(START, schedule[..i]).seen <= s.events {
        NoEventLost(START, schedule[..i]);
        EventsNeverDrop(schedule, i);
      }
    }
  }

  /** At rest only an event changes what is published: neither the loop nor the periodic reconciliation refreshes again. */
  lemma {:induction false} RestUntilNextEvent(s: Loop, schedule: seq<Arm>)
    requires Quiet(s) && forall i :: 0 <= i < |schedule| ==> !schedule[i].Event?
    ensures Quiet(Play(s, schedule)) && Play(s, schedule).published == s.published && Play(s, schedule).events == s.events
  {
    if schedule != [] {
      RestUntilNextEvent(s, schedule[..|schedule| - 1]);
    }
  }

  /** The failing input: one failed refresh, and the loop rests on a state that misses the event. */
  lemma FailedRefreshIsNotRetried() returns (schedule: seq<Arm>)
    ensures var s := Play(START, schedule);
            Quiet(s) && s.seen == s.events == 1 && s.published == s.reconciled == 0
  {
    var s := START;
    schedule := [];
    schedule, s := Extend(schedule, s, Event(false));
    schedule, s := Extend(schedule, s, TakeDebounce);
    schedule, s := Extend(schedule, s, FireDebounce);
    schedule, s := Extend(schedule, s, FinishRefresh(false));
    schedule, s := Extend(schedule, s, FireReconcile);
    schedule, s := Extend(schedule, s, Reconcile);
  }

  lemma Extend(schedule: seq<Arm>, s: Loop, a: Arm) returns (longer: seq<Arm>, t: Loop)
    requires Play(START, schedule) == s && Enabled(s, a)
    ensures t == Next(s, a) && Play(START, longer) == t
  {
    longer, t := schedule + [a], Next(s, a);
    assert longer[..|longer| - 1] == schedule;
  }
}
