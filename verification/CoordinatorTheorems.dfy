/** What the coordinator guarantees over every interleaving. */
module CoordinatorTheorems {
  import opened Wrappers
  import opened PlaybackCoordination
  import opened CoordinatorRuns

  // ----- Where a job is -----

  predicate HeldBy(m: Machine, a: Actor, j: nat) {
    a in m.pcs && Holds(m.pcs[a]) == Some(j)
  }

  ghost predicate Held(m: Machine, j: nat) {
    exists a :: HeldBy(m, a, j)
  }

  ghost predicate IsOver(m: Machine, j: nat)
    requires j < |m.shared.jobs|
  {
    m.shared.jobs[j].status.Ended?
  }

  /** An accepted job is in exactly one place: the slot, the hands of one actor, or finished. */
  lemma EveryJobIsInOnePlace(acts: seq<Act>, j: nat)
    requires Possible(START, acts) && j < |End(START, acts).shared.jobs|
    ensures var m := End(START, acts);
            && (m.shared.pending == Some(j) || Held(m, j) || IsOver(m, j))
            && !(m.shared.pending == Some(j) && Held(m, j))
            && !(m.shared.pending == Some(j) && IsOver(m, j))
            && !(Held(m, j) && IsOver(m, j))
    ensures forall a, b | HeldBy(End(START, acts), a, j) && HeldBy(End(START, acts), b, j) :: a == b
  {
    RunKeepsInv(START, acts);
    var m := End(START, acts);
    assert JobInvariant(m, j);
    forall a | HeldBy(m, a, j) ensures m.trails[j].place == With(a) {
      assert ActorInvariant(m, a);
    }
    if m.trails[j].place.With? {
      assert HeldBy(m, m.trails[j].place.actor, j);
    }
  }

  /** Among an actor's actions, only publishing an outcome changes a status. */
  lemma StatusAfterStep(m: Machine, a: Actor, j: nat)
    requires Can(m, Advance(a)) && j < |m.shared.jobs|
    ensures j < |SharedAfter(m, a).jobs|
    ensures SharedAfter(m, a).jobs[j].status == m.shared.jobs[j].status
            || m.pcs[a] == Publish(j, SharedAfter(m, a).jobs[j].status.outcome)
  {
  }

  /** A status changes when the worker takes the job and when the actor that holds it publishes its outcome. */
  lemma WhoChangesStatus(m: Machine, act: Act, j: nat)
    requires Can(m, act) && j < |m.shared.jobs|
    ensures j < |Next(m, act).shared.jobs|
    ensures || Next(m, act).shared.jobs[j].status == m.shared.jobs[j].status
            || (act.WorkerTakes? && m.shared.pending == Some(j))
            || (act.Advance? && m.pcs[act.actor].Publish? && m.pcs[act.actor].job == j)
  {
    if act.Advance? {
      StatusAfterStep(m, act.actor, j);
    }
  }

  lemma OverStaysOver(m: Machine, act: Act, j: nat)
    requires Inv(m) && Can(m, act) && j < |m.shared.jobs| && IsOver(m, j)
    ensures j < |Next(m, act).shared.jobs|
    ensures Next(m, act).shared.jobs[j].status == m.shared.jobs[j].status
  {
    WhoChangesStatus(m, act, j);
    assert JobInvariant(m, j);
    if act.Advance? {
      assert ActorInvariant(m, act.actor);
    }
  }

  /** A finished job keeps its outcome for ever. */
  lemma {:induction false} FinishedIsForEver(m: Machine, acts: seq<Act>, j: nat)
    requires Inv(m) && Possible(m, acts) && j < |m.shared.jobs| && IsOver(m, j)
    ensures j < |End(m, acts).shared.jobs|
    ensures End(m, acts).shared.jobs[j].status == m.shared.jobs[j].status
    decreases |acts|
  {
    if acts != [] {
      OverStaysOver(m, acts[0], j);
      NextKeepsInv(m, acts[0]);
      FinishedIsForEver(Next(m, acts[0]), acts[1..], j);
    }
  }

  // ----- Last request wins -----

  /** Jobs start in the order in which they were accepted, each at most once. */
  lemma JobsStartInOrder(acts: seq<Act>, i: nat, k: nat)
    requires Possible(START, acts) && i < k < |End(START, acts).started|
    ensures End(START, acts).started[i] < End(START, acts).started[k]
  {
    RunKeepsInv(START, acts);
  }

  /** The job in the slot is the newest one, and a job that plays while another waits has been told to stop. */
  lemma NewestWaitsAndActiveIsStopped(acts: seq<Act>)
    requires Possible(START, acts)
    ensures var s := End(START, acts).shared;
            && (s.pending.Some? ==> s.pending.value == |s.jobs| - 1)
            && (s.pending.Some? && s.active.Some? ==>
                  s.active.value < |s.jobs| && s.jobs[s.active.value].reason != NotStopped)
  {
    RunKeepsInv(START, acts);
  }

  /** A replaced job ends replaced, failed or timed out, one stopped by shutdown likewise; neither ends completed. */
  lemma StoppedJobsNeverComplete(acts: seq<Act>, j: nat)
    requires Possible(START, acts) && j < |End(START, acts).shared.jobs| && IsOver(End(START, acts), j)
    ensures Fits(End(START, acts).shared.jobs[j].reason, End(START, acts).shared.jobs[j].status.outcome)
  {
    RunKeepsInv(START, acts);
    assert JobInvariant(End(START, acts), j);
  }

  // ----- Shutdown -----

  /** The shutdown caller has left its critical section. */
  predicate ShutDown(m: Machine) {
    m.shared.shuttingDown && m.lock.None?
  }

  /** How many jobs the worker finishes in a run. */
  function WorkerFinishes(m: Machine, acts: seq<Act>): nat
    requires Possible(m, acts)
    decreases |acts|
  {
    if acts == [] then 0
    else (if acts[0] == Advance(Worker) && m.pcs[Worker].Publish? then 1 else 0)
         + WorkerFinishes(Next(m, acts[0]), acts[1..])
  }

  lemma ShutDownStep(m: Machine, act: Act)
    requires Inv(m) && Can(m, act) && ShutDown(m)
    ensures ShutDown(Next(m, act))
    ensures Next(m, act).started == m.started && |Next(m, act).shared.jobs| == |m.shared.jobs|
    ensures Worker in Next(m, act).pcs ==> Worker in m.pcs
    ensures act == Advance(Worker) && m.pcs[Worker].Publish? ==> Worker !in Next(m, act).pcs
  {
  }

  /** From then on nothing is accepted, nothing starts, and the worker finishes the job it has, if any, and no other. */
  lemma {:induction false} NothingStartsAfterShutdown(m: Machine, acts: seq<Act>)
    requires Inv(m) && Possible(m, acts) && ShutDown(m)
    ensures End(m, acts).started == m.started
    ensures |End(m, acts).shared.jobs| == |m.shared.jobs|
    ensures WorkerFinishes(m, acts) <= if Worker in m.pcs then 1 else 0
    decreases |acts|
  {
    if acts != [] {
      ShutDownStep(m, acts[0]);
      NextKeepsInv(m, acts[0]);
      NothingStartsAfterShutdown(Next(m, acts[0]), acts[1..]);
    }
  }

  // ----- The counters -----

  function Tallies(m: Machine): seq<Option<Outcome>> {
    seq(|m.trails|, i requires 0 <= i < |m.trails| => m.trails[i].tallied)
  }

  function Reasons(m: Machine): seq<StopReason> {
    seq(|m.shared.jobs|, i requires 0 <= i < |m.shared.jobs| => m.shared.jobs[i].reason)
  }

  /** A replacement that has won its compare-and-swap and not been counted yet. */
  predicate CountOwed(m: Machine) {
    m.lock.Some? && m.lock.value.Submitter? && m.lock.value in m.pcs && (
      var pc := m.pcs[m.lock.value];
      pc.StoreActive? || pc.CountActive? || pc.StorePending? || pc.CountPending?
    )
  }

  ghost predicate CountersAgree(c: Counters, tallies: seq<Option<Outcome>>) {
    && c.completed == multiset(tallies)[Some(Completed)]
    && c.stopped == multiset(tallies)[Some(Stopped)] + multiset(tallies)[Some(Shutdown)]
    && c.failed == multiset(tallies)[Some(Failed)]
    && c.timedOut == multiset(tallies)[Some(TimedOut)]
  }

  ghost predicate Accounts(m: Machine) {
    && m.shared.counters.accepted == |m.shared.jobs|
    && CountersAgree(m.shared.counters, Tallies(m))
    && m.shared.counters.replaced + (if CountOwed(m) then 1 else 0) == multiset(Reasons(m))[ByReplacement]
  }

  /** What an action does to the tallies, and to the counters that go with them. */
  lemma TalliesAfter(m: Machine, act: Act)
    requires Can(m, act)
    ensures var before, after := m.shared.counters, Next(m, act).shared.counters;
            if act.Advance? && m.pcs[act.actor].Tally? then
              && Tallies(Next(m, act)) == Tallies(m)[m.pcs[act.actor].job := Some(m.pcs[act.actor].result)]
              && after == Tallied(before, m.pcs[act.actor].result)
            else
              && (Tallies(Next(m, act)) == Tallies(m) || Tallies(Next(m, act)) == Tallies(m) + [None])
              && after.completed == before.completed && after.stopped == before.stopped
              && after.failed == before.failed && after.timedOut == before.timedOut
  {
    var next := Next(m, act);
    if act.Advance? && m.pcs[act.actor].Tally? {
      assert Tallies(next) == Tallies(m)[m.pcs[act.actor].job := Some(m.pcs[act.actor].result)];
    } else if |next.trails| == |m.trails| {
      assert Tallies(next) == Tallies(m);
    } else {
      assert Tallies(next) == Tallies(m) + [None];
    }
  }

  lemma OneMoreAgrees(c: Counters, tallies: seq<Option<Outcome>>, j: nat, result: Outcome)
    requires CountersAgree(c, tallies) && j < |tallies| && tallies[j] == None
    ensures CountersAgree(Tallied(c, result), tallies[j := Some(result)])
  {
  }

  lemma UncountedAgrees(c: Counters, tallies: seq<Option<Outcome>>)
    requires CountersAgree(c, tallies)
    ensures CountersAgree(c, tallies + [None])
  {
  }

  lemma TalliesStep(m: Machine, act: Act)
    requires Inv(m) && Can(m, act) && CountersAgree(m.shared.counters, Tallies(m))
    ensures CountersAgree(Next(m, act).shared.counters, Tallies(Next(m, act)))
  {
    TalliesAfter(m, act);
    if act.Advance? && m.pcs[act.actor].Tally? {
      assert ActorInvariant(m, act.actor) && JobInvariant(m, m.pcs[act.actor].job);
      OneMoreAgrees(m.shared.counters, Tallies(m), m.pcs[act.actor].job, m.pcs[act.actor].result);
    } else {
      UncountedAgrees(m.shared.counters, Tallies(m));
    }
  }

  predicate IsCas(m: Machine, act: Act)
    requires Can(m, act)
  {
    act.Advance? && (m.pcs[act.actor].CasActive? || m.pcs[act.actor].CasPending?)
  }

  predicate IsCount(m: Machine, act: Act)
    requires Can(m, act)
  {
    act.Advance? && (m.pcs[act.actor].CountActive? || m.pcs[act.actor].CountPending?)
  }

  /** Apart from the compare-and-swaps, reasons stay as they are, new jobs having none. */
  lemma ReasonsAfter(m: Machine, act: Act)
    requires Can(m, act) && !IsCas(m, act)
    ensures Next(m, act).shared.counters.replaced
            == m.shared.counters.replaced + (if IsCount(m, act) then 1 else 0)
    ensures multiset(Reasons(Next(m, act)))[ByReplacement] == multiset(Reasons(m))[ByReplacement]
  {
    ReplacedAfter(m, act);
    if act.HandleStops? {
      HandleReasons(m, act.job);
    } else if act.Advance? {
      AdvanceReasons(m, act.actor);
    } else {
      assert Reasons(Next(m, act)) == Reasons(m);
    }
  }

  lemma ReplacedAfter(m: Machine, act: Act)
    requires Can(m, act)
    ensures Next(m, act).shared.counters.replaced
            == m.shared.counters.replaced + (if IsCount(m, act) then 1 else 0)
  {
    if act.Advance? {
      SharedReplaced(m, act.actor);
    }
  }

  lemma SharedReplaced(m: Machine, a: Actor)
    requires Can(m, Advance(a))
    ensures SharedAfter(m, a).counters.replaced
            == m.shared.counters.replaced + (if IsCount(m, Advance(a)) then 1 else 0)
  {
  }

  lemma HandleReasons(m: Machine, j: nat)
    requires Can(m, HandleStops(j))
    ensures multiset(Reasons(Next(m, HandleStops(j))))[ByReplacement] == multiset(Reasons(m))[ByReplacement]
  {
    assert Reasons(m)[j] == NotStopped;
    assert Reasons(Next(m, HandleStops(j))) == Reasons(m)[j := ByRequest];
  }

  lemma AdvanceReasons(m: Machine, a: Actor)
    requires Can(m, Advance(a)) && !m.pcs[a].CasActive? && !m.pcs[a].CasPending?
    ensures multiset(Reasons(Step(m, a)))[ByReplacement] == multiset(Reasons(m))[ByReplacement]
  {
    SharedReasons(m, a, SharedAfter(m, a).jobs);
    if m.pcs[a].Swap? && a != Closer {
      assert Reasons(Step(m, a)) == Reasons(m) + [NotStopped];
    } else {
      assert Reasons(Step(m, a)) == Reasons(m);
    }
  }

  lemma SharedReasons(m: Machine, a: Actor, jobs: seq<Job>)
    requires Can(m, Advance(a)) && !m.pcs[a].CasActive? && !m.pcs[a].CasPending?
    requires jobs == SharedAfter(m, a).jobs
    ensures |jobs| == |m.shared.jobs| + if m.pcs[a].Swap? && a != Closer then 1 else 0
    ensures forall j | 0 <= j < |m.shared.jobs| :: jobs[j].reason == m.shared.jobs[j].reason
    ensures |jobs| > |m.shared.jobs| ==> jobs[|m.shared.jobs|].reason == NotStopped
  {
  }

  /** The debt of a won swap is paid by the count that follows, and by nothing else. */
  lemma DebtAfter(m: Machine, act: Act)
    requires Inv(m) && Can(m, act) && !IsCas(m, act)
    ensures CountOwed(Next(m, act)) <==> CountOwed(m) && !IsCount(m, act)
    ensures IsCount(m, act) ==> CountOwed(m)
  {
    if act.Advance? {
      assert ActorInvariant(m, act.actor);
    }
  }

  lemma StepAccounts(m: Machine, act: Act)
    requires Inv(m) && Accounts(m) && Can(m, act)
    ensures Accounts(Next(m, act))
  {
    TalliesStep(m, act);
    AcceptedAfter(m, act);
    if IsCas(m, act) {
      CasReasons(m, act.actor);
    } else {
      ReasonsAfter(m, act);
      DebtAfter(m, act);
    }
  }

  lemma AcceptedAfterStep(m: Machine, a: Actor)
    requires Can(m, Advance(a))
    ensures SharedAfter(m, a).counters.accepted - m.shared.counters.accepted
            == |SharedAfter(m, a).jobs| - |m.shared.jobs|
  {
  }

  lemma AcceptedAfter(m: Machine, act: Act)
    requires Can(m, act)
    ensures Next(m, act).shared.counters.accepted - m.shared.counters.accepted
            == |Next(m, act).shared.jobs| - |m.shared.jobs|
  {
    if act.Advance? {
      AcceptedAfterStep(m, act.actor);
    }
  }

  lemma CasReasons(m: Machine, a: Actor)
    requires Inv(m) && Can(m, Advance(a)) && (m.pcs[a].CasActive? || m.pcs[a].CasPending?)
    ensures var next := Step(m, a);
            && next.shared.counters == m.shared.counters
            && !CountOwed(m)
            && multiset(Reasons(next))[ByReplacement]
               == multiset(Reasons(m))[ByReplacement] + (if CountOwed(next) then 1 else 0)
  {
    var next := Step(m, a);
    var target := if m.pcs[a].CasActive? then m.shared.active else m.shared.pending;
    if target.Some? && m.shared.jobs[target.value].reason == NotStopped {
      assert Reasons(next) == Reasons(m)[target.value := ReasonOf(a)];
      assert Reasons(m)[target.value] == NotStopped;
    } else {
      assert Reasons(next) == Reasons(m);
    }
  }

  lemma {:induction false} RunAccounts(m: Machine, acts: seq<Act>)
    requires Inv(m) && Accounts(m) && Possible(m, acts)
    ensures Accounts(End(m, acts))
    decreases |acts|
  {
    if acts != [] {
      StepAccounts(m, acts[0]);
      NextKeepsInv(m, acts[0]);
      RunAccounts(Next(m, acts[0]), acts[1..]);
    }
  }

  lemma {:induction false} OutcomesPartition(tallies: seq<Option<Outcome>>)
    requires None !in tallies
    ensures |tallies| == multiset(tallies)[Some(Completed)] + multiset(tallies)[Some(Replaced)]
                         + multiset(tallies)[Some(Stopped)] + multiset(tallies)[Some(Shutdown)]
                         + multiset(tallies)[Some(Failed)] + multiset(tallies)[Some(TimedOut)]
    decreases |tallies|
  {
    if tallies != [] {
      var front, last := tallies[..|tallies| - 1], tallies[|tallies| - 1];
      assert tallies == front + [last];
      assert last in tallies;
      OutcomesPartition(front);
      assert multiset(tallies) == multiset(front) + multiset{last};
      match last.value {
        case Completed => assert last == Some(Completed);
        case Replaced => assert last == Some(Replaced);
        case Stopped => assert last == Some(Stopped);
        case Shutdown => assert last == Some(Shutdown);
        case Failed => assert last == Some(Failed);
        case TimedOut => assert last == Some(TimedOut);
      }
    }
  }

  function EndedAs(m: Machine): seq<Status> {
    seq(|m.shared.jobs|, i requires 0 <= i < |m.shared.jobs| => m.shared.jobs[i].status)
  }

  /** Nobody is doing anything and nothing waits. */
  predicate AtRest(m: Machine) {
    m.pcs == map[] && m.shared.pending.None?
  }

  /**
   At rest the books balance: every accepted job is counted under its outcome, those that ended replaced under none,
   and the replacement counter is the number of jobs stopped by a replacement.
   */
  lemma BooksBalanceAtRest(acts: seq<Act>)
    requires Possible(START, acts) && AtRest(End(START, acts))
    ensures var m := End(START, acts);
            var c := m.shared.counters;
            && c.accepted == |m.shared.jobs|
            && c.accepted == c.completed + c.stopped + c.failed + c.timedOut
                             + multiset(EndedAs(m))[Ended(Replaced)]
            && c.completed == multiset(EndedAs(m))[Ended(Completed)]
            && c.failed == multiset(EndedAs(m))[Ended(Failed)]
            && c.timedOut == multiset(EndedAs(m))[Ended(TimedOut)]
            && c.replaced == multiset(Reasons(m))[ByReplacement]
  {
    var m := End(START, acts);
    RunKeepsInv(START, acts);
    assert Tallies(START) == [] && Reasons(START) == [];
    RunAccounts(START, acts);
    forall j | 0 <= j < |m.shared.jobs|
      ensures m.trails[j].tallied.Some? && EndedAs(m)[j] == Ended(m.trails[j].tallied.value) {
      assert JobInvariant(m, j);
    }
    OutcomesPartition(Tallies(m));
    TalliesAreStatuses(Tallies(m), EndedAs(m));
  }

  lemma {:induction false} TalliesAreStatuses(tallies: seq<Option<Outcome>>, statuses: seq<Status>)
    requires |tallies| == |statuses|
    requires forall j | 0 <= j < |tallies| :: tallies[j].Some? && statuses[j] == Ended(tallies[j].value)
    ensures forall o :: multiset(statuses)[Ended(o)] == multiset(tallies)[Some(o)]
    decreases |tallies|
  {
    if tallies != [] {
      var n := |tallies| - 1;
      assert tallies == tallies[..n] + [tallies[n]];
      assert statuses == statuses[..n] + [statuses[n]];
      TalliesAreStatuses(tallies[..n], statuses[..n]);
    }
  }
}
