/**
 The FRR prefix-list that lets host routes of the provider networks out: one entry per
 network, kept up to date one vtysh command at a time in a list others also edit.
 */
module PrefixList {
  /** `Managed` is a line of the agent's own shape, `Other` any other line. */
  datatype Entry = Managed(network: string) | Other(line: string)

  /** Sequence numbers are unique; adding at a used one replaces the line there. */
  type Lines = map<nat, Entry>

  predicate Lists(lines: Lines, network: string) {
    exists k :: k in lines && lines[k] == Managed(network)
  }

  ghost predicate OnlyAt(lines: Lines, network: string, k: nat) {
    k in lines && lines[k] == Managed(network) && forall j :: j in lines && lines[j] == Managed(network) ==> j == k
  }

  /** No network of which `which` holds has two entries. */
  ghost predicate SingleEntries(lines: Lines, which: string -> bool) {
    forall j, k :: j in lines && k in lines && lines[j].Managed? && lines[j] == lines[k] && which(lines[j].network) ==> j == k
  }

  ghost predicate AboveManaged(lines: Lines, seq': int) {
    forall k :: k in lines && lines[k].Managed? ==> k <= seq'
  }

  /** The lines with new entries at the allocated sequence numbers. */
  ghost predicate Extended(base: Lines, now: Lines, alloc: map<string, nat>) {
    && (forall k :: k in now <==> k in base || k in alloc.Values)
    && (forall n :: n in alloc ==> alloc[n] in now && now[alloc[n]] == Managed(n))
    && (forall k :: k in base && k !in alloc.Values ==> now[k] == base[k])
  }

  /** Allocation starts above every managed entry and never repeats. */
  ghost predicate FreshSeqs(base: Lines, alloc: map<string, nat>) {
    && (forall n, k :: n in alloc && k in base && base[k].Managed? ==> k < alloc[n])
    && (forall m, n :: m in alloc && n in alloc && alloc[m] == alloc[n] ==> m == n)
  }

  ghost predicate Growing(base: Lines, now: Lines, alloc: map<string, nat>, top: nat) {
    && Extended(base, now, alloc) && FreshSeqs(base, alloc) && AboveManaged(base, top)
    && forall n :: n in alloc ==> alloc[n] <= top
  }

  /** The allocated numbers are exactly the next ones in steps of five. */
  ghost predicate FiveApart(alloc: map<string, nat>, from': nat) {
    forall n :: n in alloc ==> IsStep(alloc[n], from', |alloc|)
  }

  /** One of the next so many numbers in steps of five. */
  predicate IsStep(k: nat, from': nat, steps: nat) {
    steps > 0 && (k == from' + 5 * steps || IsStep(k, from', steps - 1))
  }

  /** What every intermediate state satisfies: entries go only once every wanted network is listed. */
  ghost predicate NoGap(base: Lines, desired: set<string>, now: Lines) {
    && (forall n :: n in desired && Lists(base, n) ==> Lists(now, n))
    && ((forall n :: n in desired ==> Lists(now, n)) || (forall n :: Lists(base, n) ==> Lists(now, n)))
  }

  class FrrPrefixList {
    var lines: Lines
    /** The state after every command so far. */
    ghost var log: seq<Lines>
    /** How many commands failed so far. */
    ghost var failures: nat

    constructor (lines: Lines)
      ensures this.lines == lines && log == [] && failures == 0
    {
      this.lines, log, failures := lines, [], 0;
    }

    /** One vtysh call; a failing one may still have taken effect. */
    method RunVtysh(next: Lines) returns (ok: bool)
      modifies this
      ensures lines == next || (!ok && lines == old(lines))
      ensures log == old(log) + [lines]
      ensures failures == old(failures) + if ok then 0 else 1
    {
      ok := *;
      var applied: bool := *;
      if ok || applied {
        lines := next;
      }
      log, failures := log + [lines], failures + if ok then 0 else 1;
    }

    /** Which networks are listed, each with one of its sequence numbers, and the greatest such number. */
    method ListEntries() returns (current: map<string, nat>, maxSeq: nat)
      ensures forall n :: n in current <==> Lists(lines, n)
      ensures forall n :: n in current ==> current[n] in lines && lines[current[n]] == Managed(n)
      ensures AboveManaged(lines, maxSeq)
      ensures maxSeq == 0 || (maxSeq in lines && lines[maxSeq].Managed?)
    {
      current, maxSeq := map[], 0;
      var todo := lines.Keys;
      while todo != {}
        invariant todo <= lines.Keys
        invariant forall k :: k in lines && k !in todo && lines[k].Managed? ==> lines[k].network in current && k <= maxSeq
        invariant forall n :: n in current ==> current[n] in lines && lines[current[n]] == Managed(n)
        invariant maxSeq == 0 || (maxSeq in lines && lines[maxSeq].Managed?)
        decreases todo
      {
        var k :| k in todo;
        if lines[k].Managed? {
          current := current[lines[k].network := k];
          maxSeq := if k > maxSeq then k else maxSeq;
        }
        todo := todo - {k};
      }
    }

    method AddEntry(n: string, k: nat, ghost base: Lines, ghost desired: set<string>, ghost alloc: map<string, nat>, ghost from': nat)
      returns (ok: bool, ghost alloc': map<string, nat>)
      requires k >= 5 && Growing(base, lines, alloc, k - 5) && n !in alloc
      requires k == from' + 5 * (|alloc| + 1) && FiveApart(alloc, from')
      modifies this
      ensures Growing(base, lines, alloc', k)
      ensures alloc' == alloc[n := k] || (!ok && alloc' == alloc)
      ensures FiveApart(alloc', from') && (ok ==> |alloc'| == |alloc| + 1)
      ensures |log| == |old(log)| + 1 && Continues(base, desired, old(log), log)
      ensures failures == old(failures) + if ok then 0 else 1
    {
      GrowStep(base, lines, alloc, n, k, from');
      ghost var next := lines[k := Managed(n)];
      ok := RunVtysh(lines[k := Managed(n)]);
      alloc' := if lines == next then alloc[n := k] else alloc;
      ExtendedHasNoGap(base, desired, lines, alloc');
    }

    method AddMissing(desired: set<string>, current: map<string, nat>, maxSeq0: nat) returns (ok: bool, ghost alloc: map<string, nat>)
      requires forall n :: n in current <==> Lists(lines, n)
      requires AboveManaged(lines, maxSeq0)
      modifies this
      ensures Extended(old(lines), lines, alloc) && FreshSeqs(old(lines), alloc)
      ensures ok ==> forall n :: n in alloc <==> n in desired && n !in current
      ensures FiveApart(alloc, maxSeq0)
      ensures Continues(old(lines), desired, old(log), log)
      ensures desired <= current.Keys ==> ok && lines == old(lines) && log == old(log)
      ensures failures == old(failures) + if ok then 0 else 1
    {
      alloc := map[];
      var maxSeq := maxSeq0;
      var todo := desired;
      ghost var base, start := lines, log;
      while todo != {}
        invariant todo <= desired
        invariant forall n :: n in alloc <==> n in desired && n !in current && n !in todo
        invariant Growing(base, lines, alloc, maxSeq) && maxSeq == maxSeq0 + 5 * |alloc| && FiveApart(alloc, maxSeq0)
        invariant Continues(base, desired, start, log)
        invariant desired <= current.Keys ==> lines == base && log == start
        invariant failures == old(failures)
        decreases todo
      {
        var n :| n in todo;
        todo := todo - {n};
        if n in current {
          continue;
        }
        maxSeq := maxSeq + 5;
        ghost var alloc', log0 := alloc, log;
        ok, alloc' := AddEntry(n, maxSeq, base, desired, alloc, maxSeq0);
        ContinuesFurther(base, desired, start, log0, log);
        if !ok {
          return false, alloc';
        }
        alloc := alloc';
      }
      return true, alloc;
    }

    /** `base` are the lines before anything was added. */
    method RemoveStale(desired: set<string>, current: map<string, nat>, ghost base: Lines) returns (ok: bool)
      requires forall n :: n in current ==> current[n] in lines && lines[current[n]] == Managed(n)
      requires forall n :: n in desired ==> Lists(lines, n)
      modifies this
      ensures exists gone :: gone <= StaleSeqs(current, desired) && lines == old(lines) - gone && (ok ==> gone == StaleSeqs(current, desired))
      ensures Continues(base, desired, old(log), log)
      ensures current.Keys <= desired ==> ok && lines == old(lines) && log == old(log)
      ensures failures == old(failures) + if ok then 0 else 1
    {
      ghost var gone: set<nat> := {};
      var todo := current.Keys;
      while todo != {}
        invariant todo <= current.Keys
        invariant gone == set n | n in current && n !in desired && n !in todo :: current[n]
        invariant lines == old(lines) - gone
        invariant Continues(base, desired, old(log), log)
        invariant current.Keys <= desired ==> lines == old(lines) && log == old(log)
        invariant failures == old(failures)
        decreases todo
      {
        var n :| n in todo;
        todo := todo - {n};
        if n in desired {
          continue;
        }
        var k := current[n];
        ghost var before := lines;
        var done := RunVtysh(lines - {k});
        ghost var gone' := if lines == before then gone else gone + {k};
        assert k !in gone ==> k in before;
        assert lines == old(lines) - gone';
        RemovedHasNoGap(base, old(lines), desired, current, gone', lines);
        if !done {
          assert gone' <= StaleSeqs(current, desired);
          return false;
        }
        gone := gone + {k};
        assert lines == old(lines) - gone;
      }
      return true;
    }

    /** `listed` says whether reading the list succeeds. The pass gives up at the first failure and only there. */
    method Reconcile(desired: set<string>, listed: bool) returns (ok: bool, ghost alloc: map<string, nat>)
      modifies this
      ensures Continues(old(lines), desired, old(log), log)
      ensures !listed ==> !ok && log == old(log) && lines == old(lines)
      ensures failures == old(failures) + if !listed || ok then 0 else 1
      ensures FreshSeqs(old(lines), alloc)
      ensures OthersKept(old(lines), lines, alloc)
      ensures ok ==> Converged(old(lines), lines, desired, alloc)
      ensures listed && (forall n :: n in desired <==> Lists(old(lines), n)) ==> ok && log == old(log) && lines == old(lines)
    {
      alloc := map[];
      if !listed {
        return false, alloc;
      }
      ghost var base := lines;
      var current, maxSeq := ListEntries();
      ok, alloc := AddMissing(desired, current, maxSeq);
      if !ok {
        return;
      }
      forall n | n in desired ensures Lists(lines, n) {
        ListedAfterAdding(base, lines, desired, alloc, n);
      }
      ghost var mid, log0 := lines, log;
      ok := RemoveStale(desired, current, base);
      ContinuesFurther(base, desired, old(log), log0, log);
      ghost var gone :| gone <= StaleSeqs(current, desired) && lines == mid - gone && (ok ==> gone == StaleSeqs(current, desired));
      OthersSurvive(base, mid, lines, alloc, gone);
      if ok {
        FinishedIsConverged(base, mid, lines, desired, current, alloc);
      }
    }
  }

  /** Foreign lines survive unless a new entry took their number. */
  ghost predicate OthersKept(base: Lines, now: Lines, alloc: map<string, nat>) {
    forall k :: k in base && base[k].Other? && k !in alloc.Values ==> k in now && now[k] == base[k]
  }

  lemma OthersSurvive(base: Lines, mid: Lines, now: Lines, alloc: map<string, nat>, gone: set<nat>)
    requires Extended(base, mid, alloc) && now == mid - gone && forall k :: k in gone ==> k in base && base[k].Managed?
    ensures OthersKept(base, now, alloc)
  {
  }

  /** The entries picked for removal. */
  function StaleSeqs(current: map<string, nat>, desired: set<string>): set<nat> {
    set n | n in current && n !in desired :: current[n]
  }

  /** The log grew, and no state in the new part has a gap. */
  ghost predicate Continues(base: Lines, desired: set<string>, log: seq<Lines>, log': seq<Lines>) {
    log <= log' && forall i :: |log| <= i < |log'| ==> NoGap(base, desired, log'[i])
  }

  /**
   Every desired network is listed, each exactly once unless it was listed twice before; of the
   others only second entries are left; foreign lines survive unless a new entry took their number.
   */
  ghost predicate Converged(base: Lines, now: Lines, desired: set<string>, alloc: map<string, nat>) {
    && (forall n :: n in desired ==> Lists(now, n))
    && ((forall n :: Lists(now, n) ==> n in desired) <==> SingleEntries(base, (n: string) => n !in desired))
    && (SingleEntries(now, (n: string) => n in desired) <==> SingleEntries(base, (n: string) => n in desired))
    && (forall k :: k in base && base[k].Other? ==> (k in now && now[k] == base[k] <==> k !in alloc.Values))
    && (forall n :: n in desired && !Lists(base, n) ==> n in alloc && OnlyAt(now, n, alloc[n]))
  }

  lemma ContinuesFurther(base: Lines, desired: set<string>, a: seq<Lines>, b: seq<Lines>, c: seq<Lines>)
    requires Continues(base, desired, a, b) && Continues(base, desired, b, c)
    ensures Continues(base, desired, a, c)
  {
  }

  lemma ExtendStep(base: Lines, now: Lines, alloc: map<string, nat>, n: string, k: nat)
    requires Extended(base, now, alloc) && n !in alloc && forall m :: m in alloc ==> alloc[m] != k
    ensures Extended(base, now[k := Managed(n)], alloc[n := k])
  {
    var alloc' := alloc[n := k];
    assert forall v :: v in alloc'.Values <==> v == k || v in alloc.Values by {
      forall v | v in alloc.Values ensures v in alloc'.Values {
        var m :| m in alloc && alloc[m] == v;
        assert alloc'[m] == v;
      }
      assert alloc'[n] == k;
    }
  }

  lemma GrowStep(base: Lines, now: Lines, alloc: map<string, nat>, n: string, k: nat, from': nat)
    requires k >= 5 && Growing(base, now, alloc, k - 5) && n !in alloc
    requires k == from' + 5 * (|alloc| + 1) && FiveApart(alloc, from')
    ensures Growing(base, now[k := Managed(n)], alloc[n := k], k) && Growing(base, now, alloc, k)
    ensures |alloc[n := k]| == |alloc| + 1 && FiveApart(alloc[n := k], from')
  {
    ExtendStep(base, now, alloc, n, k);
    FreshStep(base, alloc, n, k);
    StepsGrow(alloc, n, k, from');
  }

  lemma FreshStep(base: Lines, alloc: map<string, nat>, n: string, k: nat)
    requires FreshSeqs(base, alloc) && k >= 5 && AboveManaged(base, k - 5) && forall m :: m in alloc ==> alloc[m] < k
    ensures FreshSeqs(base, alloc[n := k])
  {
  }

  lemma StepsGrow(alloc: map<string, nat>, n: string, k: nat, from': nat)
    requires n !in alloc && k == from' + 5 * (|alloc| + 1) && FiveApart(alloc, from')
    ensures |alloc[n := k]| == |alloc| + 1 && FiveApart(alloc[n := k], from')
  {
    var alloc' := alloc[n := k];
    assert alloc'.Keys == alloc.Keys + {n};
    assert IsStep(k, from', |alloc| + 1);
    forall m | m in alloc ensures IsStep(alloc[m], from', |alloc| + 1) {
      assert IsStep(alloc[m], from', |alloc|);
    }
  }

  lemma ExtendedHasNoGap(base: Lines, desired: set<string>, now: Lines, alloc: map<string, nat>)
    requires Extended(base, now, alloc) && FreshSeqs(base, alloc)
    ensures NoGap(base, desired, now)
  {
  }

  lemma RemovedHasNoGap(base: Lines, mid: Lines, desired: set<string>, current: map<string, nat>, gone: set<nat>, now: Lines)
    requires forall n :: n in current ==> current[n] in mid && mid[current[n]] == Managed(n)
    requires forall n :: n in desired ==> Lists(mid, n)
    requires gone <= StaleSeqs(current, desired) && now == mid - gone
    ensures NoGap(base, desired, now)
  {
    forall n | n in desired ensures Lists(now, n) {
      var k :| k in mid && mid[k] == Managed(n);
      assert k in now && now[k] == Managed(n);
    }
  }

  lemma ListedAfterAdding(base: Lines, mid: Lines, desired: set<string>, alloc: map<string, nat>, n: string)
    requires Extended(base, mid, alloc) && FreshSeqs(base, alloc) && n in desired
    requires forall m :: m in alloc <==> m in desired && !Lists(base, m)
    ensures Lists(mid, n)
  {
  }

  /** What a finished pass did, line by line. */
  ghost predicate Finished(base: Lines, mid: Lines, now: Lines, desired: set<string>, current: map<string, nat>, alloc: map<string, nat>) {
    && Extended(base, mid, alloc) && FreshSeqs(base, alloc)
    && (forall m :: m in alloc <==> m in desired && !Lists(base, m))
    && (forall n :: n in current <==> Lists(base, n))
    && (forall n :: n in current ==> current[n] in base && base[current[n]] == Managed(n))
    && now == mid - StaleSeqs(current, desired)
  }

  lemma FinishedLines(base: Lines, mid: Lines, now: Lines, desired: set<string>, current: map<string, nat>, alloc: map<string, nat>, k: nat)
    requires Finished(base, mid, now, desired, current, alloc)
    ensures k in now && now[k].Managed?
            <==> || (exists n :: n in alloc && alloc[n] == k)
                 || (k in base && base[k].Managed? && (base[k].network in desired || current[base[k].network] != k))
    ensures k in now && now[k].Managed? && k in base && base[k].Managed? ==> now[k] == base[k]
    ensures forall n :: n in alloc ==> alloc[n] in now && now[alloc[n]] == Managed(n)
    ensures k in base && base[k].Other? ==> (k in now && now[k] == base[k] <==> k !in alloc.Values)
  {
  }

  lemma FinishedIsConverged(base: Lines, mid: Lines, now: Lines, desired: set<string>, current: map<string, nat>, alloc: map<string, nat>)
    requires Finished(base, mid, now, desired, current, alloc)
    ensures Converged(base, now, desired, alloc)
  {
    forall k {
      FinishedLines(base, mid, now, desired, current, alloc, k);
    }
    forall n | n in desired ensures Lists(now, n) {
      if n in alloc {
        assert now[alloc[n]] == Managed(n);
      } else {
        var k := current[n];
        assert k in now && now[k] == Managed(n);
      }
    }
    SecondEntriesRemain(base, mid, now, desired, current, alloc);
    WantedEntriesStay(base, mid, now, desired, current, alloc);
  }

  /** The failing input: an undesired network with two entries, of which the pass knows one. The other one stays. */
  lemma SecondEntryStays(network: string, j: nat, k: nat)
    requires j != k
    ensures var base: Lines := map[j := Managed(network), k := Managed(network)];
            && Finished(base, base, base - {k}, {}, map[network := k], map[])
            && Lists(base - {k}, network)
  {
    var base: Lines := map[j := Managed(network), k := Managed(network)];
    var current := map[network := k];
    assert network in current && current[network] in StaleSeqs(current, {});
    assert StaleSeqs(current, {}) == {k};
    assert j in base - {k} && (base - {k})[j] == Managed(network);
    assert Lists(base, network);
  }

  lemma SecondEntriesRemain(base: Lines, mid: Lines, now: Lines, desired: set<string>, current: map<string, nat>, alloc: map<string, nat>)
    requires Finished(base, mid, now, desired, current, alloc)
    ensures (forall n :: Lists(now, n) ==> n in desired) <==> SingleEntries(base, (n: string) => n !in desired)
  {
    forall k {
      FinishedLines(base, mid, now, desired, current, alloc, k);
    }
    if forall n :: Lists(now, n) ==> n in desired {
      forall k | k in base && base[k].Managed? && base[k].network !in desired ensures current[base[k].network] == k {
        assert Lists(base, base[k].network);
        if current[base[k].network] != k {
          assert Lists(now, base[k].network);
        }
      }
    }
    if SingleEntries(base, (n: string) => n !in desired) {
      forall n | Lists(now, n) ensures n in desired {
        var k :| k in now && now[k] == Managed(n);
        assert n in current || n in alloc;
      }
    }
  }

  /** A wanted network keeps the entries it had, or has the allocated one. */
  lemma WantedLines(base: Lines, mid: Lines, now: Lines, desired: set<string>, current: map<string, nat>, alloc: map<string, nat>, n: string, k: nat)
    requires Finished(base, mid, now, desired, current, alloc) && n in desired
    ensures k in now && now[k] == Managed(n) <==> if Lists(base, n) then k in base && base[k] == Managed(n) else k == alloc[n]
  {
  }

  ghost predicate WantedKept(base: Lines, now: Lines, desired: set<string>, alloc: map<string, nat>) {
    && (forall n :: n in desired && !Lists(base, n) ==> n in alloc)
    && (forall n, k :: n in desired ==>
          (k in now && now[k] == Managed(n) <==> if Lists(base, n) then k in base && base[k] == Managed(n) else k == alloc[n]))
  }

  lemma WantedEntriesStay(base: Lines, mid: Lines, now: Lines, desired: set<string>, current: map<string, nat>, alloc: map<string, nat>)
    requires Finished(base, mid, now, desired, current, alloc)
    ensures SingleEntries(now, (n: string) => n in desired) <==> SingleEntries(base, (n: string) => n in desired)
    ensures forall n :: n in desired && !Lists(base, n) ==> n in alloc && OnlyAt(now, n, alloc[n])
  {
    forall n, k | n in desired {
      WantedLines(base, mid, now, desired, current, alloc, n, k);
    }
    WantedIsSingle(base, now, desired, alloc);
  }

  lemma WantedIsSingle(base: Lines, now: Lines, desired: set<string>, alloc: map<string, nat>)
    requires WantedKept(base, now, desired, alloc)
    ensures SingleEntries(now, (n: string) => n in desired) <==> SingleEntries(base, (n: string) => n in desired)
    ensures forall n :: n in desired && !Lists(base, n) ==> n in alloc && OnlyAt(now, n, alloc[n])
  {
  }
}
