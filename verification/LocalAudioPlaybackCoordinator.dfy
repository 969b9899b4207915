/**
 The coordinator as an object: its methods run without interruption have the effect computed by the functions below,
 and that effect is one of the runs of the interleaved machine.
 */
module LocalAudioPlaybackCoordinators {
  import opened Wrappers
  import opened PlaybackCoordination
  import opened CoordinatorRuns

  datatype SubmitResult = SubmissionAccepted | ShuttingDown | InvalidJob

  function StopDone(s: Shared, j: nat, reason: StopReason): Shared
    requires j < |s.jobs|
  {
    if s.jobs[j].reason == NotStopped then Requested(Reasoned(s, j, reason), j) else s
  }

  /** A submitter's stop of another job, with its entry in the replacement counter. */
  function ReplaceDone(s: Shared, target: Option<nat>): Shared
    requires target.Some? ==> target.value < |s.jobs|
  {
    if Wins(s, target) then ReplacementCounted(StopDone(s, target.value, ByReplacement)) else s
  }

  function FinishDone(s: Shared, j: nat, outcome: Outcome): Shared
    requires j < |s.jobs|
  {
    if s.jobs[j].completionNotified then s
    else Published(Counted(CompletionClaimed(s, j), outcome), j, outcome)
  }

  /** The reason of each job after those among the two that nobody had stopped yet have been. */
  ghost predicate StoppedFor(before: Shared, after: Shared, reason: StopReason) {
    && |before.jobs| <= |after.jobs|
    && forall j | 0 <= j < |before.jobs| ::
         after.jobs[j].reason ==
           if before.jobs[j].reason == NotStopped && (before.active == Some(j) || before.pending == Some(j))
           then reason else before.jobs[j].reason
  }

  lemma FinishKeepsReasons(s: Shared, j: nat, outcome: Outcome)
    requires j < |s.jobs|
    ensures var after := FinishDone(s, j, outcome);
            && |after.jobs| == |s.jobs| && after.pending == s.pending && after.shuttingDown == s.shuttingDown
            && (forall k | 0 <= k < |s.jobs| :: after.jobs[k].reason == s.jobs[k].reason)
            && (!s.jobs[j].completionNotified ==> after.jobs[j].status == Ended(outcome))
  {
  }

  lemma SubmitStops(s: Shared)
    requires InRange(s) && !s.shuttingDown
    ensures var after := SubmitDone(s);
            && StoppedFor(s, after, ByReplacement)
            && |after.jobs| == |s.jobs| + 1 && after.pending == Some(|s.jobs|)
            && (s.pending.Some? && !s.jobs[s.pending.value].completionNotified ==>
                  && after.jobs[s.pending.value].status.Ended?
                  && var reason := s.jobs[s.pending.value].reason;
                     Says(if reason == NotStopped then ByReplacement else reason,
                          after.jobs[s.pending.value].status.outcome))
  {
    var accepted := Accepted(ReplaceDone(ReplaceDone(s, s.active), s.pending));
    assert StoppedFor(s, accepted, ByReplacement);
    if s.pending.Some? {
      FinishKeepsReasons(accepted, s.pending.value, OutcomeFor(accepted.jobs[s.pending.value].reason));
    }
  }

  predicate InRange(s: Shared) {
    (s.pending.Some? ==> s.pending.value < |s.jobs|) && (s.active.Some? ==> s.active.value < |s.jobs|)
  }

  function SubmitDone(s: Shared): Shared
    requires InRange(s)
  {
    if s.shuttingDown then Rejected(s)
    else
      var stopped := ReplaceDone(ReplaceDone(s, s.active), s.pending);
      var accepted := Accepted(stopped);
      if s.pending.None? then accepted
      else FinishDone(accepted, s.pending.value, OutcomeFor(accepted.jobs[s.pending.value].reason))
  }

  function StopIfAny(s: Shared, target: Option<nat>): Shared
    requires target.Some? ==> target.value < |s.jobs|
  {
    if target.Some? then StopDone(s, target.value, ByShutdown) else s
  }

  function ShutdownDone(s: Shared): Shared
    requires InRange(s)
  {
    var emptied := SlotEmptied(StopIfAny(StopIfAny(s.(shuttingDown := true), s.active), s.pending));
    if s.pending.None? then emptied else FinishDone(emptied, s.pending.value, Shutdown)
  }

  lemma ShutdownStops(s: Shared)
    requires InRange(s)
    ensures var after := ShutdownDone(s);
            StoppedFor(s, after, ByShutdown) && |after.jobs| == |s.jobs| && after.shuttingDown && after.pending == None
  {
    var emptied := SlotEmptied(StopIfAny(StopIfAny(s.(shuttingDown := true), s.active), s.pending));
    assert StoppedFor(s, emptied, ByShutdown);
    if s.pending.Some? {
      FinishKeepsReasons(emptied, s.pending.value, Shutdown);
    }
  }

  /** One turn of the worker; played is what the player would return if it gets to play. */
  function WorkerTurnDone(s: Shared, played: Outcome): Shared
    requires InRange(s) && s.pending.Some?
  {
    var j := s.pending.value;
    var reason := s.jobs[j].reason;
    var result := if reason == NotStopped then played else OutcomeFor(reason);
    FinishDone(Detached(Started(s), j), j, Merged(result, reason))
  }

  class LocalAudioPlaybackCoordinator {
    var states: seq<Job>
    var pending: Option<nat>
    var active: Option<nat>
    var shuttingDown: bool
    var counters: Counters

    function View(): Shared
      reads this
    {
      Shared(states, pending, active, shuttingDown, counters)
    }

    predicate Valid()
      reads this
    {
      InRange(View())
    }

    constructor ()
      ensures Valid() && View() == IDLE
    {
      states, pending, active, shuttingDown := [], None, None, false;
      counters := Counters(0, 0, 0, 0, 0, 0, 0);
    }

    /** Compare-and-swap, then store. */
    method RequestStop(j: nat, reason: StopReason) returns (won: bool)
      requires j < |states|
      modifies this`states
      ensures View() == StopDone(old(View()), j, reason)
      ensures won <==> old(states)[j].reason == NotStopped
    {
      won := states[j].reason == NotStopped;
      if won {
        states := states[j := states[j].(reason := reason)];
        states := states[j := states[j].(stopRequested := true)];
      }
    }

    /** A handle's stop asks once; whatever was asked first stands. */
    method HandleStop(j: nat)
      requires Valid() && j < |states|
      modifies this`states
      ensures Valid() && View() == StopDone(old(View()), j, ByRequest)
      ensures states[j].reason == if old(states[j].reason) == NotStopped then ByRequest else old(states[j].reason)
    {
      var won := RequestStop(j, ByRequest);
    }

    method Finish(j: nat, outcome: Outcome)
      requires Valid() && j < |states|
      modifies this`states, this`counters
      ensures Valid() && View() == FinishDone(old(View()), j, outcome)
    {
      if states[j].completionNotified {
        return;
      }
      states := states[j := states[j].(completionNotified := true)];
      match outcome {
        case Completed => counters := counters.(completed := counters.completed + 1);
        case Replaced =>
        case Stopped => counters := counters.(stopped := counters.stopped + 1);
        case Shutdown => counters := counters.(stopped := counters.stopped + 1);
        case Failed => counters := counters.(failed := counters.failed + 1);
        case TimedOut => counters := counters.(timedOut := counters.timedOut + 1);
      }
      states := states[j := states[j].(status := Ended(outcome))];
    }

    method Replace(target: Option<nat>)
      requires target.Some? ==> target.value < |states|
      modifies this`states, this`counters
      ensures View() == ReplaceDone(old(View()), target)
    {
      if target.Some? {
        var won := RequestStop(target.value, ByReplacement);
        if won {
          counters := counters.(replaced := counters.replaced + 1);
        }
      }
    }

    method Submit(hasPlayer: bool) returns (result: SubmitResult, handle: Option<nat>)
      requires Valid()
      modifies this
      ensures Valid()
      ensures !hasPlayer ==> result == InvalidJob && View() == Rejected(old(View()))
      ensures hasPlayer ==> View() == SubmitDone(old(View()))
      ensures hasPlayer ==> (result == ShuttingDown <==> old(shuttingDown))
      ensures handle == if result == SubmissionAccepted then Some(|old(states)|) else None
      ensures result == SubmissionAccepted ==>
                |states| == |old(states)| + 1 && pending == handle && StoppedFor(old(View()), View(), ByReplacement)
      ensures result == SubmissionAccepted && old(pending).Some? && !old(states[pending.value].completionNotified) ==>
                && old(pending).value < |states| && states[old(pending).value].status.Ended?
                && var reason := old(states[pending.value].reason);
                   Says(if reason == NotStopped then ByReplacement else reason,
                        states[old(pending).value].status.outcome)
    {
      if !hasPlayer {
        counters := counters.(rejected := counters.rejected + 1);
        return InvalidJob, None;
      }
      if shuttingDown {
        counters := counters.(rejected := counters.rejected + 1);
        return ShuttingDown, None;
      }
      ghost var before := View();
      SubmitStops(before);
      Replace(active);
      Replace(pending);
      var displaced := pending;
      handle := Some(|states|);
      pending := handle;
      states := states + [NEW_JOB];
      counters := counters.(accepted := counters.accepted + 1);
      assert View() == Accepted(ReplaceDone(ReplaceDone(before, before.active), before.pending));
      if displaced.Some? {
        Finish(displaced.value, OutcomeFor(states[displaced.value].reason));
      }
      result := SubmissionAccepted;
    }

    method ShutDown()
      requires Valid()
      modifies this
      ensures Valid() && View() == ShutdownDone(old(View()))
      ensures shuttingDown && pending == None && |states| == |old(states)|
      ensures StoppedFor(old(View()), View(), ByShutdown)
    {
      ShutdownStops(View());
      shuttingDown := true;
      if active.Some? {
        var won := RequestStop(active.value, ByShutdown);
      }
      var discarded := pending;
      if pending.Some? {
        var won := RequestStop(pending.value, ByShutdown);
        pending := None;
      }
      if discarded.Some? {
        Finish(discarded.value, Shutdown);
      }
    }

    /** One pass of the worker's loop over the job in the slot. */
    method WorkerTurn(played: Outcome)
      requires Valid() && pending.Some?
      modifies this
      ensures Valid() && View() == WorkerTurnDone(old(View()), played)
      ensures !old(states[pending.value].completionNotified) ==>
                && old(pending).value < |states| && states[old(pending).value].status.Ended?
                && var reason, outcome := old(states[pending.value].reason), states[old(pending).value].status.outcome;
                   if reason == NotStopped then outcome == played else Says(reason, outcome)
    {
      var j := pending.value;
      pending, active := None, Some(j);
      states := states[j := states[j].(status := Playing)];
      var before := states[j].reason;
      var result := if before != NotStopped then OutcomeFor(before) else played;
      var reason := states[j].reason;
      if reason != NotStopped && result != Failed && result != TimedOut {
        result := OutcomeFor(reason);
      }
      if active == Some(j) {
        active := None;
      }
      Finish(j, result);
    }
  }

  // ----- The methods are runs of the machine -----

  ghost predicate Reaches(m: Machine, n: Machine) {
    exists acts :: Possible(m, acts) && End(m, acts) == n
  }

  lemma ReachesItself(m: Machine)
    ensures Reaches(m, m)
  {
    assert Possible(m, []) && End(m, []) == m;
  }

  lemma {:induction false} RunOn(m: Machine, acts: seq<Act>, act: Act)
    requires Possible(m, acts) && Can(End(m, acts), act)
    ensures Possible(m, acts + [act]) && End(m, acts + [act]) == Next(End(m, acts), act)
    decreases |acts|
  {
    if acts == [] {
      assert [] + [act] == [act] && [act][1..] == [];
    } else {
      assert (acts + [act])[0] == acts[0] && (acts + [act])[1..] == acts[1..] + [act];
      RunOn(Next(m, acts[0]), acts[1..], act);
    }
  }

  lemma ReachesOn(m: Machine, n: Machine, act: Act)
    requires Reaches(m, n) && Can(n, act)
    ensures Reaches(m, Next(n, act))
  {
    var acts :| Possible(m, acts) && End(m, acts) == n;
    RunOn(m, acts, act);
  }

  /** The next action of an actor that may move. */
  lemma Moves(m: Machine, n: Machine, a: Actor) returns (next: Machine)
    requires Reaches(m, n) && Can(n, Advance(a))
    ensures Reaches(m, next) && Numbered(next)
    ensures next.shared == SharedAfter(n, a) && next.pcs == PcsAfter(n, a) && next.lock == LockAfter(n, a)
  {
    next := Step(n, a);
    ReachesOn(m, n, Advance(a));
    StepIsNumbered(n, a);
  }

  lemma SharedIsNumbered(n: Machine, a: Actor)
    requires Can(n, Advance(a))
    ensures var s := SharedAfter(n, a);
            && |s.jobs| >= |n.shared.jobs| && |TrailsAfter(n, a)| == |s.jobs|
            && (s.pending.Some? ==> s.pending.value < |s.jobs|) && (s.active.Some? ==> s.active.value < |s.jobs|)
  {
  }

  lemma PcIsNumbered(n: Machine, a: Actor)
    requires Can(n, Advance(a)) && PcAfter(n, a).Some?
    ensures match PcAfter(n, a).value
            case StoreActive(j) => j < |n.shared.jobs|
            case StorePending(j) => j < |n.shared.jobs|
            case pc => Holds(pc).Some? ==> Holds(pc).value < |n.shared.jobs|
  {
  }

  lemma StepIsNumbered(n: Machine, a: Actor)
    requires Can(n, Advance(a))
    ensures Numbered(Step(n, a))
  {
    SharedIsNumbered(n, a);
    if PcAfter(n, a).Some? {
      PcIsNumbered(n, a);
    }
  }

  /** Left alone inside its section, a submitter gets past a stop with the effect of the method's lines. */
  lemma SubmitterStops(m: Machine, n: Machine, a: Actor) returns (next: Machine)
    requires Numbered(n) && Reaches(m, n)
    requires a.Submitter? && a in n.pcs && (n.pcs[a].CasActive? || n.pcs[a].CasPending?)
    ensures Reaches(m, next) && Numbered(next)
    ensures var target := if n.pcs[a].CasActive? then n.shared.active else n.shared.pending;
            next.shared == ReplaceDone(n.shared, target)
    ensures next.pcs == n.pcs[a := if n.pcs[a].CasActive? then CasPending else Swap]
  {
    var target := if n.pcs[a].CasActive? then n.shared.active else n.shared.pending;
    next := Moves(m, n, a);
    if Wins(n.shared, target) {
      next := Moves(m, next, a);
      next := Moves(m, next, a);
    }
  }

  lemma CloserStops(m: Machine, n: Machine) returns (next: Machine)
    requires Numbered(n) && Reaches(m, n)
    requires Closer in n.pcs && (n.pcs[Closer].CasActive? || n.pcs[Closer].CasPending?)
    ensures Reaches(m, next) && Numbered(next)
    ensures var target := if n.pcs[Closer].CasActive? then n.shared.active else n.shared.pending;
            next.shared == StopIfAny(n.shared, target)
    ensures next.pcs == n.pcs[Closer := if n.pcs[Closer].CasActive? then CasPending else Swap]
  {
    var target := if n.pcs[Closer].CasActive? then n.shared.active else n.shared.pending;
    next := Moves(m, n, Closer);
    if Wins(n.shared, target) {
      next := Moves(m, next, Closer);
    }
  }

  /** Left alone, an actor finishes its job with the effect of Finish. */
  lemma Finishes(m: Machine, n: Machine, a: Actor, j: nat, result: Outcome) returns (next: Machine)
    requires Numbered(n) && Reaches(m, n) && a in n.pcs && n.pcs[a] == Claim(j, result)
    ensures j < |n.shared.jobs|
    ensures Reaches(m, next) && next.shared == FinishDone(n.shared, j, result)
    ensures next.pcs == n.pcs - {a}
  {
    next := Moves(m, n, a);
    if !n.shared.jobs[j].completionNotified {
      next := Moves(m, next, a);
      next := Moves(m, next, a);
    }
  }

  /** So whatever holds of every run of the machine holds of programs that call the methods. */
  lemma SubmitIsARun(m: Machine, pid: nat) returns (next: Machine)
    requires Numbered(m) && m.lock.None? && Submitter(pid) !in m.pcs
    ensures Reaches(m, next) && next.shared == SubmitDone(m.shared) && next.pcs == m.pcs
  {
    ReachesItself(m);
    ReachesOn(m, m, SubmitEnter(pid));
    next := Next(m, SubmitEnter(pid));
    if !m.shared.shuttingDown {
      next := SectionIsARun(m, next, Submitter(pid));
      assert next.pcs == m.pcs;
    }
  }

  lemma SectionIsARun(m: Machine, n: Machine, a: Actor) returns (next: Machine)
    requires Numbered(n) && Reaches(m, n) && a.Submitter? && a in n.pcs && n.pcs[a] == CasActive
    requires !n.shared.shuttingDown
    ensures Reaches(m, next) && next.shared == SubmitDone(n.shared) && next.pcs == n.pcs - {a}
  {
    var stopped := BothStops(m, n, a);
    next := SwapIsARun(m, stopped, a);
    assert stopped.shared.pending == n.shared.pending;
    assert next.pcs == n.pcs - {a};
  }

  lemma BothStops(m: Machine, n: Machine, a: Actor) returns (next: Machine)
    requires Numbered(n) && Reaches(m, n) && a.Submitter? && a in n.pcs && n.pcs[a] == CasActive
    ensures Reaches(m, next) && Numbered(next)
    ensures next.shared == ReplaceDone(ReplaceDone(n.shared, n.shared.active), n.shared.pending)
    ensures next.pcs == n.pcs[a := Swap]
  {
    next := SubmitterStops(m, n, a);
    next := SubmitterStops(m, next, a);
  }

  lemma SwapIsARun(m: Machine, n: Machine, a: Actor) returns (next: Machine)
    requires Numbered(n) && Reaches(m, n) && a.Submitter? && a in n.pcs && n.pcs[a] == Swap
    ensures Reaches(m, next) && next.pcs == n.pcs - {a}
    ensures n.shared.pending.None? ==> next.shared == Accepted(n.shared)
    ensures var accepted := Accepted(n.shared);
            var displaced := n.shared.pending;
            displaced.Some? ==>
              next.shared == FinishDone(accepted, displaced.value, OutcomeFor(accepted.jobs[displaced.value].reason))
  {
    next := Moves(m, n, a);
    if n.shared.pending.Some? {
      next := JudgeIsARun(m, next, a, n.shared.pending.value);
      assert next.pcs == n.pcs - {a};
    }
  }

  lemma JudgeIsARun(m: Machine, n: Machine, a: Actor, j: nat) returns (next: Machine)
    requires Numbered(n) && Reaches(m, n) && a in n.pcs && n.pcs[a] == Judge(j)
    ensures j < |n.shared.jobs|
    ensures Reaches(m, next) && next.pcs == n.pcs - {a}
    ensures next.shared == FinishDone(n.shared, j, OutcomeFor(n.shared.jobs[j].reason))
  {
    var judged := Moves(m, n, a);
    next := Finishes(m, judged, a, j, OutcomeFor(n.shared.jobs[j].reason));
    assert next.pcs == n.pcs - {a};
  }

  lemma WorkerTurnIsARun(m: Machine, played: Outcome) returns (next: Machine)
    requires Numbered(m) && m.lock.None? && Worker !in m.pcs && !m.workerDone && m.shared.pending.Some?
    ensures Reaches(m, next) && next.shared == WorkerTurnDone(m.shared, played) && next.pcs == m.pcs
  {
    ReachesItself(m);
    ReachesOn(m, m, WorkerTakes);
    next := Next(m, WorkerTakes);
    next := PlayIsARun(m, next, m.shared.pending.value, played);
    assert next.pcs == m.pcs;
  }

  lemma PlayIsARun(m: Machine, n: Machine, j: nat, played: Outcome) returns (next: Machine)
    requires Numbered(n) && Reaches(m, n) && n.lock.None? && Worker in n.pcs && n.pcs[Worker] == Before(j)
    ensures j < |n.shared.jobs|
    ensures var reason := n.shared.jobs[j].reason;
            var result := if reason == NotStopped then played else OutcomeFor(reason);
            next.shared == FinishDone(Detached(n.shared, j), j, Merged(result, reason))
    ensures Reaches(m, next) && next.pcs == n.pcs - {Worker}
  {
    var over, result := PlayerReturns(m, n, j, played);
    next := MergeIsARun(m, over, j, result);
    assert next.pcs == n.pcs - {Worker};
  }

  lemma PlayerReturns(m: Machine, n: Machine, j: nat, played: Outcome) returns (next: Machine, result: Outcome)
    requires Numbered(n) && Reaches(m, n) && n.lock.None? && Worker in n.pcs && n.pcs[Worker] == Before(j)
    ensures j < |n.shared.jobs|
    ensures result == if n.shared.jobs[j].reason == NotStopped then played else OutcomeFor(n.shared.jobs[j].reason)
    ensures Numbered(next) && Reaches(m, next) && next.lock.None?
    ensures next.shared == n.shared && next.pcs == n.pcs[Worker := Merge(j, result)]
  {
    var reason := n.shared.jobs[j].reason;
    result := if reason == NotStopped then played else OutcomeFor(reason);
    next := Moves(m, n, Worker);
    if reason == NotStopped {
      ReachesOn(m, next, PlayEnds(played));
      PlayEndsIsNumbered(next, played);
      next := Next(next, PlayEnds(played));
    }
  }

  lemma PlayEndsIsNumbered(n: Machine, played: Outcome)
    requires Can(n, PlayEnds(played))
    ensures Numbered(Next(n, PlayEnds(played)))
  {
  }

  lemma MergeIsARun(m: Machine, n: Machine, j: nat, result: Outcome) returns (next: Machine)
    requires Numbered(n) && Reaches(m, n) && n.lock.None? && Worker in n.pcs && n.pcs[Worker] == Merge(j, result)
    ensures j < |n.shared.jobs|
    ensures next.shared == FinishDone(Detached(n.shared, j), j, Merged(result, n.shared.jobs[j].reason))
    ensures Reaches(m, next) && next.pcs == n.pcs - {Worker}
  {
    var merged := Merged(result, n.shared.jobs[j].reason);
    var detached := Moves(m, n, Worker);
    next := Finishes(m, detached, Worker, j, merged);
    assert next.pcs == n.pcs - {Worker};
  }

  lemma ShutDownIsARun(m: Machine) returns (next: Machine)
    requires Numbered(m) && m.lock.None? && !m.closing && Closer !in m.pcs
    ensures Reaches(m, next) && next.shared == ShutdownDone(m.shared) && next.pcs == m.pcs
  {
    ReachesItself(m);
    ReachesOn(m, m, CloseEnter);
    next := Next(m, CloseEnter);
    next := CloseSectionIsARun(m, next);
    assert next.pcs == m.pcs;
  }

  lemma CloserStopsBoth(m: Machine, n: Machine) returns (next: Machine)
    requires Numbered(n) && Reaches(m, n) && Closer in n.pcs && n.pcs[Closer] == CasActive
    ensures Reaches(m, next) && Numbered(next) && next.pcs == n.pcs[Closer := Swap]
    ensures next.shared == StopIfAny(StopIfAny(n.shared, n.shared.active), n.shared.pending)
  {
    next := CloserStops(m, n);
    next := CloserStops(m, next);
  }

  lemma CloseSectionIsARun(m: Machine, n: Machine) returns (next: Machine)
    requires Numbered(n) && Reaches(m, n) && Closer in n.pcs && n.pcs[Closer] == CasActive
    ensures Reaches(m, next) && next.pcs == n.pcs - {Closer}
    ensures n.shared.shuttingDown ==> next.shared == ShutdownDone(n.shared)
  {
    next := CloserStopsBoth(m, n);
    next := Moves(m, next, Closer);
    if n.shared.pending.Some? {
      next := Finishes(m, next, Closer, n.shared.pending.value, Shutdown);
    }
  }
}
