/** Runs of flagged frames, and the smoothing of a speaker's activity. */
module SpeakerRuns {

  datatype Run = Run(start: nat, end: nat)

  predicate Covers(runs: seq<Run>, k: int) {
    exists i | 0 <= i < |runs| :: runs[i].start <= k < runs[i].end
  }

  /** A stretch of set flags that neither end can extend. */
  predicate IsMaximal(flags: seq<bool>, run: Run) {
    && run.start < run.end <= |flags|
    && (forall k | run.start <= k < run.end :: flags[k])
    && (run.start > 0 ==> !flags[run.start - 1])
    && (run.end < |flags| ==> !flags[run.end])
  }

  predicate Ordered(runs: seq<Run>) {
    && (forall i | 0 <= i < |runs| :: runs[i].start < runs[i].end)
    && (forall i, j | 0 <= i < j < |runs| :: runs[i].end < runs[j].start)
  }

  /** The flags' runs: all of the maximal stretches, in order, and nothing else. */
  predicate AreRunsOf(runs: seq<Run>, flags: seq<bool>) {
    && Ordered(runs)
    && (forall i | 0 <= i < |runs| :: IsMaximal(flags, runs[i]))
    && (forall k | 0 <= k < |flags| && flags[k] :: Covers(runs, k))
  }

  /** Painting the runs gives back the flags. */
  lemma RunsRepaint(runs: seq<Run>, flags: seq<bool>, k: nat)
    requires AreRunsOf(runs, flags) && k < |flags|
    ensures flags[k] <==> Covers(runs, k)
  {
    if Covers(runs, k) {
      var i :| 0 <= i < |runs| && runs[i].start <= k < runs[i].end;
      assert IsMaximal(flags, runs[i]);
    }
  }

  lemma NotAfter(a: seq<Run>, b: seq<Run>, flags: seq<bool>, i: nat)
    requires AreRunsOf(a, flags) && AreRunsOf(b, flags) && i < |a| && i <= |b| && a[..i] == b[..i]
    ensures i < |b| && b[i].start <= a[i].start
  {
    var k := a[i].start;
    assert IsMaximal(flags, a[i]) && flags[k];
    var j :| 0 <= j < |b| && b[j].start <= k < b[j].end;
    assert forall m | 0 <= m < i :: a[..i][m] == b[..i][m];
    assert j >= i;
  }

  lemma SameEnd(a: Run, b: Run, flags: seq<bool>)
    requires IsMaximal(flags, a) && IsMaximal(flags, b) && a.start == b.start
    ensures a == b
  {
    assert a.end >= b.end;
    assert b.end >= a.end;
  }

  lemma {:induction false} SameBeginning(a: seq<Run>, b: seq<Run>, flags: seq<bool>, i: nat)
    requires AreRunsOf(a, flags) && AreRunsOf(b, flags) && i <= |a|
    ensures i <= |b| && a[..i] == b[..i]
  {
    if i > 0 {
      SameBeginning(a, b, flags, i - 1);
      NotAfter(a, b, flags, i - 1);
      NotAfter(b, a, flags, i - 1);
      SameEnd(a[i - 1], b[i - 1], flags);
      assert a[..i] == a[..i - 1] + [a[i - 1]] && b[..i] == b[..i - 1] + [b[i - 1]];
    }
  }

  /** There is only one way to cut flags into runs. */
  lemma RunsAreUnique(a: seq<Run>, b: seq<Run>, flags: seq<bool>)
    requires AreRunsOf(a, flags) && AreRunsOf(b, flags)
    ensures a == b
  {
    SameBeginning(a, b, flags, |a|);
    SameBeginning(b, a, flags, |b|);
  }

  method FlagRuns(flags: seq<bool>) returns (runs: seq<Run>)
    ensures AreRunsOf(runs, flags)
  {
    runs := [];
    var open, start := false, 0;
    for index := 0 to |flags|
      invariant open ==> start < index && (forall k | start <= k < index :: flags[k])
      invariant open && start > 0 ==> !flags[start - 1]
      invariant !open && index > 0 ==> !flags[index - 1]
      invariant Ordered(runs)
      invariant forall i | 0 <= i < |runs| :: IsMaximal(flags, runs[i]) && runs[i].end < if open then start else index
      invariant forall k | 0 <= k < index && flags[k] :: Covers(runs, k) || (open && start <= k)
    {
      if flags[index] && !open {
        open, start := true, index;
      } else if !flags[index] && open {
        MaximalRunJoins(flags, runs, Run(start, index));
        runs := runs + [Run(start, index)];
        open := false;
      }
    }
    if open {
      MaximalRunJoins(flags, runs, Run(start, |flags|));
      runs := runs + [Run(start, |flags|)];
    }
  }

  lemma MaximalRunJoins(flags: seq<bool>, runs: seq<Run>, run: Run)
    requires Ordered(runs) && IsMaximal(flags, run)
    requires forall i | 0 <= i < |runs| :: IsMaximal(flags, runs[i]) && runs[i].end < run.start
    ensures Ordered(runs + [run])
    ensures forall i | 0 <= i < |runs + [run]| :: IsMaximal(flags, (runs + [run])[i])
    ensures forall k :: Covers(runs + [run], k) <==> Covers(runs, k) || run.start <= k < run.end
  {
    CoversMore(runs, run);
  }

  lemma CoversMore(runs: seq<Run>, run: Run)
    ensures forall k :: Covers(runs + [run], k) <==> Covers(runs, k) || run.start <= k < run.end
  {
    forall k ensures Covers(runs + [run], k) <==> Covers(runs, k) || run.start <= k < run.end {
      var more := runs + [run];
      if Covers(runs, k) {
        var i :| 0 <= i < |runs| && runs[i].start <= k < runs[i].end;
        assert more[i] == runs[i];
      }
      if run.start <= k < run.end {
        assert more[|runs|] == run;
      }
    }
  }

  // ----- Smoothing -----

  const BRIDGE := 15
  const PAD := 5

  /** Active, or in a pause between two active frames that is short enough. */
  predicate Bridged(active: seq<bool>, k: int) {
    || (0 <= k < |active| && active[k])
    || exists p, q | 0 <= p < k < q < |active| :: active[p] && active[q] && q - p - 1 <= BRIDGE
  }

  /** Within reach of a frame that is active or bridged. */
  predicate Speaking(active: seq<bool>, k: int) {
    exists m | k - PAD <= m <= k + PAD :: Bridged(active, m)
  }

  function EndBefore(runs: seq<Run>, i: nat): nat
    requires i <= |runs|
  {
    if i == 0 then 0 else runs[i - 1].end
  }

  lemma NothingBetween(active: seq<bool>, runs: seq<Run>, i: nat)
    requires AreRunsOf(runs, active) && i <= |runs|
    ensures var next := if i < |runs| then runs[i].start else |active|;
            EndBefore(runs, i) <= next <= |active| && forall k | EndBefore(runs, i) <= k < next :: !active[k]
  {
    var next := if i < |runs| then runs[i].start else |active|;
    if i > 0 {
      assert IsMaximal(active, runs[i - 1]);
    }
    if i < |runs| {
      assert IsMaximal(active, runs[i]);
    }
    forall k | EndBefore(runs, i) <= k < next ensures !active[k] {
      assert !Covers(runs, k);
      RunsRepaint(runs, active, k);
    }
  }

  /** What one more run adds: itself, and the pause in front of it if that is short. */
  lemma OneMoreRun(active: seq<bool>, before: nat, run: Run)
    requires before <= run.start < run.end <= |active| && (before > 0 ==> active[before - 1])
    requires forall k | before <= k < run.start :: !active[k]
    requires forall k | run.start <= k < run.end :: active[k]
    ensures forall k :: Bridged(active[..run.end], k) <==>
              || Bridged(active[..before], k) || run.start <= k < run.end
              || (before > 0 && before <= k < run.start && run.start - before <= BRIDGE)
  {
    var less, more := active[..before], active[..run.end];
    forall k ensures Bridged(more, k) <==>
        || Bridged(less, k) || run.start <= k < run.end
        || (before > 0 && before <= k < run.start && run.start - before <= BRIDGE) {
      if Bridged(less, k) {
        BridgedStays(active, before, run.end, k);
      }
      if before > 0 && before <= k < run.start && run.start - before <= BRIDGE {
        assert more[before - 1] && more[run.start];
      }
      if Bridged(more, k) && !(0 <= k < |more| && more[k]) {
        var p, q :| 0 <= p < k < q < |more| && more[p] && more[q] && q - p - 1 <= BRIDGE;
        assert p < before || p >= run.start;
        if q < before {
          assert less[p] && less[q];
        }
      }
    }
  }

  lemma BridgedStays(active: seq<bool>, before: nat, end: nat, k: int)
    requires before <= end <= |active| && Bridged(active[..before], k)
    ensures Bridged(active[..end], k)
  {
    var less, more := active[..before], active[..end];
    if !(0 <= k < |less| && less[k]) {
      var p, q :| 0 <= p < k < q < |less| && less[p] && less[q] && q - p - 1 <= BRIDGE;
      assert more[p] && more[q];
    }
  }

  lemma NothingAfter(active: seq<bool>, seen: nat)
    requires seen <= |active| && forall k | seen <= k < |active| :: !active[k]
    ensures forall k :: Bridged(active, k) <==> Bridged(active[..seen], k)
  {
    forall k ensures Bridged(active, k) <==> Bridged(active[..seen], k) {
      assert active[..|active|] == active;
      if Bridged(active[..seen], k) {
        BridgedStays(active, seen, |active|, k);
      }
      if Bridged(active, k) && !(0 <= k < |active| && active[k]) {
        var p, q :| 0 <= p < k < q < |active| && active[p] && active[q] && q - p - 1 <= BRIDGE;
        assert active[..seen][p] && active[..seen][q];
      }
    }
  }

  lemma CoversLonger(runs: seq<Run>, end: nat)
    requires runs != [] && runs[|runs| - 1].start < runs[|runs| - 1].end <= end
    ensures var n := |runs| - 1;
            forall k :: Covers(runs[..n] + [Run(runs[n].start, end)], k) <==> Covers(runs, k) || runs[n].end <= k < end
  {
    var n := |runs| - 1;
    assert runs == runs[..n] + [runs[n]];
    CoversMore(runs[..n], runs[n]);
    CoversMore(runs[..n], Run(runs[n].start, end));
  }

  method MergeRuns(active: seq<bool>, runs: seq<Run>) returns (merged: seq<Run>)
    requires AreRunsOf(runs, active)
    ensures forall k :: Covers(merged, k) <==> Bridged(active, k)
    ensures forall i | 0 <= i < |merged| :: merged[i].start < merged[i].end <= |active|
  {
    merged := [];
    for i := 0 to |runs|
      invariant i == 0 <==> merged == []
      invariant i > 0 ==> EndsLike(merged[|merged| - 1], runs[i - 1], active)
      invariant forall j | 0 <= j < |merged| :: merged[j].start < merged[j].end <= |active|
      invariant forall k :: Covers(merged, k) <==> Bridged(active[..EndBefore(runs, i)], k)
    {
      var run := runs[i];
      var before := EndBefore(runs, i);
      assert IsMaximal(active, run);
      NothingBetween(active, runs, i);
      OneMoreRun(active, before, run);
      if merged != [] && run.start - merged[|merged| - 1].end <= BRIDGE {
        CoversLonger(merged, run.end);
        merged := merged[..|merged| - 1] + [Run(merged[|merged| - 1].start, run.end)];
      } else {
        CoversMore(merged, run);
        merged := merged + [run];
      }
    }
    NothingBetween(active, runs, |runs|);
    NothingAfter(active, EndBefore(runs, |runs|));
  }

  predicate EndsLike(merged: Run, run: Run, active: seq<bool>) {
    merged.end == run.end <= |active| && merged.start < merged.end && active[run.end - 1]
  }

  /** Frames in which a speaker speaks: pauses bridged, edges padded. */
  method Smooth(active: seq<bool>) returns (padded: seq<bool>)
    ensures |padded| == |active|
    ensures forall k | 0 <= k < |padded| :: padded[k] <==> Speaking(active, k)
  {
    var runs := FlagRuns(active);
    var merged := MergeRuns(active, runs);
    padded := seq(|active|, _ => false);
    for i := 0 to |merged|
      invariant |padded| == |active|
      invariant forall k | 0 <= k < |padded| :: padded[k] <==> InReach(merged[..i], k)
    {
      var start := if merged[i].start > PAD then merged[i].start - PAD else 0;
      var end := if merged[i].end + PAD < |active| then merged[i].end + PAD else |active|;
      var before := padded;
      for index := start to end
        invariant |padded| == |active|
        invariant forall k | 0 <= k < |padded| :: padded[k] <==> before[k] || start <= k < index
      {
        padded := padded[index := true];
      }
      assert merged[..i + 1] == merged[..i] + [merged[i]];
      ReachOneMore(merged[..i], merged[i]);
    }
    assert merged[..|merged|] == merged;
    forall k | 0 <= k < |padded| ensures padded[k] <==> Speaking(active, k) {
      ReachIsSpeaking(active, merged, k);
    }
  }

  predicate InReach(runs: seq<Run>, k: int) {
    exists i | 0 <= i < |runs| :: runs[i].start - PAD <= k < runs[i].end + PAD
  }

  lemma ReachOneMore(runs: seq<Run>, run: Run)
    ensures forall k :: InReach(runs + [run], k) <==> InReach(runs, k) || run.start - PAD <= k < run.end + PAD
  {
    var more := runs + [run];
    forall k ensures InReach(more, k) <==> InReach(runs, k) || run.start - PAD <= k < run.end + PAD {
      if InReach(runs, k) {
        var i :| 0 <= i < |runs| && runs[i].start - PAD <= k < runs[i].end + PAD;
        assert more[i] == runs[i];
      }
      assert more[|runs|] == run;
    }
  }

  lemma ReachIsSpeaking(active: seq<bool>, merged: seq<Run>, k: int)
    requires forall m :: Covers(merged, m) <==> Bridged(active, m)
    requires forall i | 0 <= i < |merged| :: merged[i].start < merged[i].end
    ensures InReach(merged, k) <==> Speaking(active, k)
  {
    if InReach(merged, k) {
      var i :| 0 <= i < |merged| && merged[i].start - PAD <= k < merged[i].end + PAD;
      var m := if k < merged[i].start then merged[i].start else if k < merged[i].end then k else merged[i].end - 1;
      assert Covers(merged, m);
    }
    if Speaking(active, k) {
      var m :| k - PAD <= m <= k + PAD && Bridged(active, m);
      var i :| 0 <= i < |merged| && merged[i].start <= m < merged[i].end;
    }
  }
}
