/**
 The grace period before another chassis's rows are cleaned up: a chassis that managed
 routes still name but the southbound database no longer lists must stay that way,
 scan after scan, for the whole grace period.
 */
module StaleChassis {
  import opened Wrappers

  /**
   One scan: the chassis named by managed routes (None when that read failed), the chassis
   the southbound database lists, and whether a cleanup of the stale ones would succeed.
   */
  datatype Scan = Scan(now: int, referenced: Option<set<string>>, present: set<string>, cleanup: bool)

  predicate Absent(s: Scan, c: string) {
    s.referenced.Some? && c in s.referenced.value && c !in s.present
  }

  // ---------------------------------------------------------------------------
  // Specification: the tracker after a run of scans
  // ---------------------------------------------------------------------------

  /** When each absent chassis was first missed. */
  function Tracked(missing: map<string, int>, s: Scan): map<string, int>
    requires s.referenced.Some?
  {
    map c | c in s.referenced.value && c !in s.present :: if c in missing then missing[c] else s.now
  }

  function Overdue(tracked: map<string, int>, now: int, grace: int): set<string> {
    set c | c in tracked && now - tracked[c] >= grace
  }

  function Handed(missing: map<string, int>, s: Scan, grace: int): set<string> {
    if s.referenced.None? then {} else Overdue(Tracked(missing, s), s.now, grace)
  }

  function Next(missing: map<string, int>, s: Scan, grace: int): map<string, int> {
    if s.referenced.None? then missing
    else if s.cleanup then Tracked(missing, s) - Handed(missing, s, grace)
    else Tracked(missing, s)
  }

  function After(scans: seq<Scan>, grace: int): map<string, int> {
    if scans == [] then map[] else Next(After(scans[..|scans| - 1], grace), scans[|scans| - 1], grace)
  }

  /** What scan k of the run hands to the cleanup. */
  function HandedAt(scans: seq<Scan>, k: nat, grace: int): set<string>
    requires k < |scans|
  {
    Handed(After(scans[..k], grace), scans[k], grace)
  }

  // ---------------------------------------------------------------------------
  // The tracker
  // ---------------------------------------------------------------------------

  class StaleTracker {
    const gracePeriod: int
    const jitter: nat
    var missing: map<string, int>

    constructor (gracePeriod: int, jitter: nat)
      ensures this.gracePeriod == gracePeriod && this.jitter == jitter && missing == map[]
    {
      this.gracePeriod, this.jitter, missing := gracePeriod, jitter, map[];
    }

    /** One scan up to the cleanup: what it asks the cleanup to remove. */
    method FindStale(s: Scan) returns (handed: set<string>)
      modifies this
      ensures gracePeriod <= 0 || s.referenced.None? ==> handed == {} && missing == old(missing)
      ensures gracePeriod > 0 ==> handed == Handed(old(missing), s, gracePeriod + jitter)
      ensures gracePeriod > 0 && s.referenced.Some? ==> missing == Tracked(old(missing), s)
    {
      handed := {};
      if gracePeriod <= 0 {
        return;
      }
      if s.referenced.None? {
        return;
      }
      UpdateMissing(s);
      Prune(s.referenced.value);
      assert missing == Tracked(old(missing), s);
      handed := FindOverdue(s.now, gracePeriod + jitter);
    }

    method CleanupStaleChassis(s: Scan) returns (handed: set<string>)
      modifies this
      ensures gracePeriod <= 0 ==> handed == {} && missing == old(missing)
      ensures gracePeriod > 0 ==> handed == Handed(old(missing), s, gracePeriod + jitter)
      ensures gracePeriod > 0 ==> missing == Next(old(missing), s, gracePeriod + jitter)
    {
      handed := FindStale(s);
      if handed == {} {
        assert missing - {} == missing;
        return;
      }
      if s.cleanup {
        Forget(handed);
      }
    }

    method UpdateMissing(s: Scan)
      requires s.referenced.Some?
      modifies this
      ensures missing == (old(missing) - set c | c in s.referenced.value && c in s.present) + Tracked(old(missing), s)
    {
      var todo := s.referenced.value;
      while todo != {}
        invariant todo <= s.referenced.value
        invariant forall c :: c !in s.referenced.value || c in todo ==> (c in missing <==> c in old(missing))
        invariant forall c :: c in s.referenced.value - todo ==> (c in missing <==> c !in s.present)
        invariant forall c :: c in missing ==> missing[c] == if c in old(missing) then old(missing)[c] else s.now
        decreases todo
      {
        var c :| c in todo;
        if c in s.present {
          if c in missing {
            missing := missing - {c};
          }
        } else {
          if c !in missing {
            missing := missing[c := s.now];
          }
        }
        todo := todo - {c};
      }
    }

    method Prune(referenced: set<string>)
      modifies this
      ensures missing == map c | c in old(missing) && c in referenced :: old(missing)[c]
    {
      var todo := missing.Keys;
      while todo != {}
        invariant todo <= old(missing).Keys
        invariant missing == map c | c in old(missing) && (c in todo || c in referenced) :: old(missing)[c]
        decreases todo
      {
        var c :| c in todo;
        if c !in referenced {
          missing := missing - {c};
        }
        todo := todo - {c};
      }
    }

    method FindOverdue(now: int, grace: int) returns (stale: set<string>)
      ensures stale == Overdue(missing, now, grace)
    {
      stale := {};
      var todo := missing.Keys;
      while todo != {}
        invariant todo <= missing.Keys
        invariant stale == set c | c in missing && c !in todo && now - missing[c] >= grace
        decreases todo
      {
        var c :| c in todo;
        if now - missing[c] >= grace {
          stale := stale + {c};
        }
        todo := todo - {c};
      }
    }

    method Forget(stale: set<string>)
      modifies this
      ensures missing == old(missing) - stale
    {
      var todo := stale;
      while todo != {}
        invariant todo <= stale
        invariant missing == old(missing) - (stale - todo)
        decreases todo
      {
        var c :| c in todo;
        missing := missing - {c};
        todo := todo - {c};
      }
    }

    /** A run of scans from a fresh tracker. */
    method Run(scans: seq<Scan>) returns (handed: seq<set<string>>)
      requires gracePeriod > 0 && missing == map[]
      modifies this
      ensures missing == After(scans, gracePeriod + jitter)
      ensures |handed| == |scans| && forall k :: 0 <= k < |scans| ==> handed[k] == HandedAt(scans, k, gracePeriod + jitter)
    {
      handed := [];
      for i := 0 to |scans|
        invariant missing == After(scans[..i], gracePeriod + jitter)
        invariant |handed| == i && forall k :: 0 <= k < i ==> handed[k] == HandedAt(scans, k, gracePeriod + jitter)
      {
        assert scans[..i + 1][..i] == scans[..i];
        var stale := CleanupStaleChassis(scans[i]);
        handed := handed + [stale];
      }
      assert scans[..|scans|] == scans;
    }
  }

  // ---------------------------------------------------------------------------
  // Runs
  // ---------------------------------------------------------------------------

  ghost predicate Monotone(scans: seq<Scan>) {
    forall i, j :: 0 <= i <= j < |scans| ==> scans[i].now <= scans[j].now
  }

  /** Scan i missed c, and did not get it cleaned up. */
  ghost predicate StillMissed(scans: seq<Scan>, i: nat, c: string, grace: int)
    requires i < |scans|
  {
    Absent(scans[i], c) && !(scans[i].cleanup && c in HandedAt(scans, i, grace))
  }

  /** c is missed without interruption by every successful scan from j on. */
  ghost predicate MissedSince(scans: seq<Scan>, j: int, c: string, grace: int) {
    && 0 <= j < |scans| && scans[j].referenced.Some?
    && forall i :: j <= i < |scans| && scans[i].referenced.Some? ==> StillMissed(scans, i, c, grace)
  }

  lemma MissedSinceStep(scans: seq<Scan>, j: nat, c: string, grace: int)
    requires j < |scans| - 1
    ensures MissedSince(scans, j, c, grace)
            <==> MissedSince(scans[..|scans| - 1], j, c, grace)
                 && (scans[|scans| - 1].referenced.Some? ==> StillMissed(scans, |scans| - 1, c, grace))
  {
    var before := scans[..|scans| - 1];
    forall i | 0 <= i < |before| ensures StillMissed(before, i, c, grace) <==> StillMissed(scans, i, c, grace) {
      assert before[..i] == scans[..i];
    }
  }

  /** The tracker remembers exactly the chassis missed without interruption, since the earliest such scan. */
  lemma {:induction false} TrackedExactly(scans: seq<Scan>, c: string, grace: int)
    requires Monotone(scans)
    ensures c in After(scans, grace) <==> exists j :: MissedSince(scans, j, c, grace)
    ensures c in After(scans, grace) ==> exists j :: MissedSince(scans, j, c, grace) && scans[j].now == After(scans, grace)[c]
    ensures c in After(scans, grace) ==> forall j :: MissedSince(scans, j, c, grace) ==> After(scans, grace)[c] <= scans[j].now
  {
    if scans != [] {
      var k := |scans| - 1;
      var before := scans[..k];
      TrackedExactly(before, c, grace);
      forall j | 0 <= j < k {
        MissedSinceStep(scans, j, c, grace);
      }
      if c in After(scans, grace) {
        if c in After(before, grace) {
          var j :| MissedSince(before, j, c, grace) && before[j].now == After(before, grace)[c];
          assert MissedSince(scans, j, c, grace);
        } else {
          assert MissedSince(scans, k, c, grace);
        }
      }
    }
  }

  /** No scan hands over a chassis unless it was missed for the whole grace period, and then it does. */
  lemma HandedExactlyAfterGrace(scans: seq<Scan>, k: nat, c: string, grace: int)
    requires Monotone(scans) && k < |scans| && grace > 0
    ensures c in HandedAt(scans, k, grace)
            <==> Absent(scans[k], c) && exists j :: MissedSince(scans[..k], j, c, grace) && scans[k].now - scans[j].now >= grace
  {
    TrackedExactly(scans[..k], c, grace);
    if c in HandedAt(scans, k, grace) {
      var j :| MissedSince(scans[..k], j, c, grace) && scans[j].now == After(scans[..k], grace)[c];
      assert scans[k].now - scans[j].now >= grace;
    }
  }

  /** The promise to the other agents: every successful scan over at least the grace period saw the chassis referenced and absent. */
  lemma GraceIsHonoured(scans: seq<Scan>, k: nat, c: string, grace: int)
    requires Monotone(scans) && k < |scans| && grace > 0 && c in HandedAt(scans, k, grace)
    ensures exists j :: 0 <= j < k && AbsentThroughout(scans, j, k, c) && scans[k].now - scans[j].now >= grace
  {
    HandedExactlyAfterGrace(scans, k, c, grace);
    var j :| MissedSince(scans[..k], j, c, grace) && scans[k].now - scans[j].now >= grace;
    assert AbsentThroughout(scans, j, k, c) by {
      forall i | j <= i <= k && scans[i].referenced.Some? ensures Absent(scans[i], c) {
        if i < k {
          assert StillMissed(scans[..k], i, c, grace);
        }
      }
    }
  }

  ghost predicate AbsentThroughout(scans: seq<Scan>, j: nat, k: nat, c: string)
    requires j <= k < |scans|
  {
    Absent(scans[j], c) && forall i :: j <= i <= k && scans[i].referenced.Some? ==> Absent(scans[i], c)
  }

  ghost predicate LastSuccessful(scans: seq<Scan>, k: int) {
    0 <= k < |scans| && scans[k].referenced.Some? && forall i :: k < i < |scans| ==> scans[i].referenced.None?
  }

  /** The tracker's domain: what the last successful scan missed, less what it got cleaned up. */
  lemma {:induction false} DomainIsLastScan(scans: seq<Scan>, k: nat, grace: int)
    requires LastSuccessful(scans, k)
    ensures forall c :: c in After(scans, grace)
                        <==> Absent(scans[k], c) && !(scans[k].cleanup && c in HandedAt(scans, k, grace))
  {
    if k < |scans| - 1 {
      DomainIsLastScan(scans[..|scans| - 1], k, grace);
      assert scans[..|scans| - 1][..k] == scans[..k];
    }
  }

  /** A chassis the southbound database lists, such as the agent's own, is never handed over. */
  lemma PresentIsNeverHanded(missing: map<string, int>, s: Scan, grace: int, c: string)
    requires c in s.present
    ensures c !in Handed(missing, s, grace)
  {
  }

  /** One sighting restarts the clock: nothing is handed over for another whole grace period. */
  lemma ReturnResetsGrace(scans: seq<Scan>, i: nat, k: nat, c: string, grace: int)
    requires Monotone(scans) && i < k < |scans| && grace > 0
    requires scans[i].referenced.Some? && !Absent(scans[i], c)
    requires scans[k].now - scans[i].now < grace
    ensures c !in HandedAt(scans, k, grace)
  {
    HandedExactlyAfterGrace(scans, k, c, grace);
    forall j | MissedSince(scans[..k], j, c, grace) ensures j > i {
      assert scans[..k][i] == scans[i];
    }
  }
}
