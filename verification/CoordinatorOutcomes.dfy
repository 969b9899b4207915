/** Why a finished job ended as it did: who decided its outcome, for what reason, and what the player had returned. */
module CoordinatorOutcomes {
  import opened Wrappers
  import opened PlaybackCoordination
  import opened CoordinatorRuns
  import opened CoordinatorTheorems

  // The act that settles a job's outcome: the worker's, a displacing submitter's, or the closing caller's.
  datatype Decision =
    | ByWorker(reason: StopReason, returned: Option<Outcome>)
    | ByDisplacer(reason: StopReason)
    | ByCloser

  function DecisionAt(m: Machine, act: Act, j: nat, returned: Option<Outcome>): Option<Decision>
    requires Can(m, act) && j < |m.shared.jobs|
  {
    if !act.Advance? then None
    else
      var pc, reason := m.pcs[act.actor], m.shared.jobs[j].reason;
      if pc.Merge? && pc.job == j then Some(ByWorker(reason, returned))
      else if pc.Judge? && pc.job == j then Some(ByDisplacer(reason))
      else if pc.Swap? && act.actor == Closer && m.shared.pending == Some(j) then Some(ByCloser)
      else None
  }

  function ReturnedAt(m: Machine, act: Act, j: nat, returned: Option<Outcome>): Option<Outcome>
    requires Can(m, act)
  {
    if act.PlayEnds? && m.pcs[Worker] == Play(j) then Some(act.result) else returned
  }

  /** The first decision about the job in the run, with what the player has returned for it by then. */
  function DecisionIn(m: Machine, acts: seq<Act>, j: nat, returned: Option<Outcome>): Option<Decision>
    requires Possible(m, acts)
    decreases |acts|
  {
    if acts == [] then None
    else
      var now := if j < |m.shared.jobs| then DecisionAt(m, acts[0], j, returned) else None;
      if now.Some? then now
      else DecisionIn(Next(m, acts[0]), acts[1..], j, ReturnedAt(m, acts[0], j, returned))
  }

  /**
   What the decision makes of the job. A failure or a time-out comes from the player and stands. Otherwise the stop
   reason decides, and a job that nobody had stopped ends as the player said.
   */
  predicate Explains(d: Decision, outcome: Outcome) {
    match d
    case ByCloser => outcome == Shutdown
    case ByDisplacer(reason) => reason != ByShutdown && Says(reason, outcome)
    case ByWorker(reason, returned) =>
      if returned == Some(Failed) || returned == Some(TimedOut) then Some(outcome) == returned
      else if reason == NotStopped then Some(outcome) == returned
      else Says(reason, outcome)
  }

  // ----- A job before and after its decision -----

  /** The outcome is open. The worker has what the player returned or, if it did not play, what the stop reason says. */
  predicate Open(m: Machine, j: nat, returned: Option<Outcome>)
    requires j < |m.trails| && j < |m.shared.jobs|
  {
    match HolderPc(m, j)
    case None => m.trails[j].place == InSlot && returned == None
    case Some(pc) =>
      || ((pc.Judge? || pc.Before? || pc.Play?) && returned == None)
      || (pc.Merge?
          && if returned.Some? then pc.result == returned.value else Says(m.shared.jobs[j].reason, pc.result))
  }

  predicate Decided(m: Machine, j: nat, outcome: Outcome)
    requires j < |m.trails| && j < |m.shared.jobs|
  {
    match HolderPc(m, j)
    case None => m.trails[j].place == Over && m.shared.jobs[j].status == Ended(outcome)
    case Some(pc) => Finishing(pc) && pc.result == outcome
  }

  /** The act is by the party that holds the job, or takes it out of the slot. */
  predicate Handles(m: Machine, act: Act, j: nat)
    requires Can(m, act)
  {
    || (act.Advance? && Holds(m.pcs[act.actor]) == Some(j))
    || (act.Advance? && m.pcs[act.actor].Swap? && m.shared.pending == Some(j))
    || (act.PlayEnds? && m.pcs[Worker] == Play(j))
    || (act.WorkerTakes? && m.shared.pending == Some(j))
  }

  /** A stop reason, once there, stands. */
  lemma ReasonStands(m: Machine, act: Act, j: nat)
    requires Can(m, act) && j < |m.shared.jobs|
    ensures j < |Next(m, act).shared.jobs|
    ensures m.shared.jobs[j].reason != NotStopped ==>
              Next(m, act).shared.jobs[j].reason == m.shared.jobs[j].reason
  {
    if act.Advance? {
      SharedReasonStands(m, act.actor, j);
    }
  }

  lemma SharedReasonStands(m: Machine, a: Actor, j: nat)
    requires Can(m, Advance(a)) && j < |m.shared.jobs|
    ensures j < |SharedAfter(m, a).jobs|
    ensures m.shared.jobs[j].reason != NotStopped ==> SharedAfter(m, a).jobs[j].reason == m.shared.jobs[j].reason
  {
  }

  /** A stop reason tells who stopped the job first: its handle, a later submission, or the shutdown. */
  lemma ReasonTellsWhoStopped(m: Machine, act: Act, j: nat)
    requires Can(m, act) && j < |m.shared.jobs| && m.shared.jobs[j].reason == NotStopped
    ensures j < |Next(m, act).shared.jobs|
    ensures match Next(m, act).shared.jobs[j].reason
            case NotStopped => true
            case ByRequest => act == HandleStops(j)
            case ByReplacement => act.Advance? && act.actor != Closer && WinsAgainst(m, act.actor, j)
            case ByShutdown => act == Advance(Closer) && WinsAgainst(m, Closer, j)
  {
    if act.Advance? {
      SharedReasonTells(m, act.actor, j);
    }
  }

  /** The actor is about to stop the active or the pending job, and it is this one. */
  predicate WinsAgainst(m: Machine, a: Actor, j: nat) {
    a in m.pcs
    && (|| (m.pcs[a].CasActive? && m.shared.active == Some(j))
        || (m.pcs[a].CasPending? && m.shared.pending == Some(j)))
  }

  lemma SharedReasonTells(m: Machine, a: Actor, j: nat)
    requires Can(m, Advance(a)) && j < |m.shared.jobs| && m.shared.jobs[j].reason == NotStopped
    ensures j < |SharedAfter(m, a).jobs|
    ensures var reason := SharedAfter(m, a).jobs[j].reason;
            reason == if !WinsAgainst(m, a, j) then NotStopped else if a == Closer then ByShutdown else ByReplacement
  {
  }

  lemma PlaceAfterStep(m: Machine, a: Actor, j: nat)
    requires Can(m, Advance(a)) && j < |m.trails| && !Handles(m, Advance(a), j)
    requires m.trails[j].place != With(a)
    ensures j < |TrailsAfter(m, a)| && TrailsAfter(m, a)[j].place == m.trails[j].place
  {
  }

  lemma OtherActKeepsHolder(m: Machine, act: Act, j: nat)
    requires Inv(m) && Can(m, act) && j < |m.shared.jobs| && !Handles(m, act, j)
    ensures j < |Next(m, act).trails| && Next(m, act).trails[j].place == m.trails[j].place
    ensures HolderPc(Next(m, act), j) == HolderPc(m, j)
  {
    assert JobInvariant(m, j);
    if act.Advance? {
      PlaceAfterStep(m, act.actor, j);
    }
  }

  lemma OtherActKeepsOpen(m: Machine, act: Act, j: nat, returned: Option<Outcome>)
    requires Inv(m) && Can(m, act) && j < |m.shared.jobs| && !Handles(m, act, j) && Open(m, j, returned)
    ensures j < |Next(m, act).shared.jobs| && j < |Next(m, act).trails| && Open(Next(m, act), j, returned)
  {
    OtherActKeepsHolder(m, act, j);
    ReasonStands(m, act, j);
  }

  /** Taking the job out of the slot. */
  lemma TakingKeepsOpen(m: Machine, act: Act, j: nat)
    requires Inv(m) && Can(m, act) && j < |m.shared.jobs| && Open(m, j, None)
    requires m.shared.pending == Some(j)
    requires act.WorkerTakes? || (act.Advance? && act.actor.Submitter? && m.pcs[act.actor].Swap?)
    ensures j < |Next(m, act).shared.jobs| && j < |Next(m, act).trails| && Open(Next(m, act), j, None)
  {
  }

  lemma ClosingDecides(m: Machine, j: nat)
    requires Inv(m) && Can(m, Advance(Closer)) && m.pcs[Closer].Swap? && m.shared.pending == Some(j)
    requires j < |m.shared.jobs|
    ensures j < |Step(m, Closer).shared.jobs| && j < |Step(m, Closer).trails|
    ensures Decided(Step(m, Closer), j, Shutdown)
  {
  }

  lemma JudgingDecides(m: Machine, a: Actor, j: nat) returns (outcome: Outcome)
    requires Inv(m) && Can(m, Advance(a)) && m.pcs[a] == Judge(j) && j < |m.shared.jobs|
    ensures j < |Step(m, a).shared.jobs| && j < |Step(m, a).trails|
    ensures Decided(Step(m, a), j, outcome) && Explains(ByDisplacer(m.shared.jobs[j].reason), outcome)
  {
    assert ActorInvariant(m, a) && JobInvariant(m, j);
    outcome := OutcomeFor(m.shared.jobs[j].reason);
  }

  lemma MergingDecides(m: Machine, a: Actor, j: nat, returned: Option<Outcome>) returns (outcome: Outcome)
    requires Inv(m) && Can(m, Advance(a)) && m.pcs[a].Merge? && m.pcs[a].job == j && j < |m.shared.jobs|
    requires Open(m, j, returned)
    ensures j < |Step(m, a).shared.jobs| && j < |Step(m, a).trails|
    ensures Decided(Step(m, a), j, outcome) && Explains(ByWorker(m.shared.jobs[j].reason, returned), outcome)
  {
    assert ActorInvariant(m, a) && JobInvariant(m, j);
    outcome := Merged(m.pcs[a].result, m.shared.jobs[j].reason);
  }

  /** The worker goes on to play, or puts the stop reason's outcome in place of playing. */
  lemma PlayingKeepsOpen(m: Machine, a: Actor, j: nat)
    requires Inv(m) && Can(m, Advance(a)) && m.pcs[a] == Before(j) && j < |m.shared.jobs| && Open(m, j, None)
    ensures j < |Step(m, a).shared.jobs| && j < |Step(m, a).trails| && Open(Step(m, a), j, None)
  {
    assert ActorInvariant(m, a) && JobInvariant(m, j);
  }

  lemma ReturnKeepsOpen(m: Machine, result: Outcome, j: nat)
    requires Inv(m) && Can(m, PlayEnds(result)) && m.pcs[Worker] == Play(j) && j < |m.shared.jobs|
    ensures j < |Next(m, PlayEnds(result)).shared.jobs| && j < |Next(m, PlayEnds(result)).trails|
    ensures Open(Next(m, PlayEnds(result)), j, Some(result))
  {
    assert ActorInvariant(m, Worker) && JobInvariant(m, j);
  }

  lemma OpenHolder(m: Machine, a: Actor, j: nat, returned: Option<Outcome>)
    requires Inv(m) && a in m.pcs && Holds(m.pcs[a]) == Some(j) && j < |m.shared.jobs| && Open(m, j, returned)
    ensures m.pcs[a].Judge? || m.pcs[a].Before? || m.pcs[a].Play? || m.pcs[a].Merge?
    ensures !m.pcs[a].Merge? ==> returned == None
  {
    assert ActorInvariant(m, a) && JobInvariant(m, j);
  }

  lemma OpenStep(m: Machine, act: Act, j: nat, returned: Option<Outcome>) returns (outcome: Outcome)
    requires Inv(m) && Can(m, act) && j < |m.shared.jobs| && Open(m, j, returned)
    ensures j < |Next(m, act).shared.jobs| && j < |Next(m, act).trails|
    ensures var d := DecisionAt(m, act, j, returned);
            if d.Some? then Decided(Next(m, act), j, outcome) && Explains(d.value, outcome)
            else Open(Next(m, act), j, ReturnedAt(m, act, j, returned))
  {
    outcome := Shutdown;
    if !Handles(m, act, j) {
      OtherActKeepsOpen(m, act, j, returned);
    } else if m.shared.pending == Some(j) && (act.WorkerTakes? || m.pcs[act.actor].Swap?) {
      assert JobInvariant(m, j);
      if act.Advance? && act.actor == Closer {
        ClosingDecides(m, j);
      } else {
        if act.Advance? {
          SwapperIsSubmitter(m, act.actor);
        }
        TakingKeepsOpen(m, act, j);
      }
    } else if act.PlayEnds? {
      OpenHolder(m, Worker, j, returned);
      ReturnKeepsOpen(m, act.result, j);
    } else {
      outcome := HolderStep(m, act.actor, j, returned);
    }
  }

  lemma SwapperIsSubmitter(m: Machine, a: Actor)
    requires Inv(m) && a in m.pcs && m.pcs[a].Swap?
    ensures a == Closer || a.Submitter?
  {
  }

  lemma HolderStep(m: Machine, a: Actor, j: nat, returned: Option<Outcome>) returns (outcome: Outcome)
    requires Inv(m) && Can(m, Advance(a)) && j < |m.shared.jobs| && Open(m, j, returned)
    requires Holds(m.pcs[a]) == Some(j)
    ensures j < |Step(m, a).shared.jobs| && j < |Step(m, a).trails|
    ensures var d := DecisionAt(m, Advance(a), j, returned);
            if d.Some? then Decided(Step(m, a), j, outcome) && Explains(d.value, outcome)
            else Open(Step(m, a), j, returned)
  {
    outcome := Shutdown;
    OpenHolder(m, a, j, returned);
    if m.pcs[a].Merge? {
      outcome := MergingDecides(m, a, j, returned);
    } else if m.pcs[a].Judge? {
      outcome := JudgingDecides(m, a, j);
    } else {
      PlayingKeepsOpen(m, a, j);
    }
  }

  lemma FinishingStep(m: Machine, a: Actor, j: nat, outcome: Outcome)
    requires Inv(m) && Can(m, Advance(a)) && j < |m.shared.jobs| && Decided(m, j, outcome)
    requires Holds(m.pcs[a]) == Some(j)
    ensures j < |Step(m, a).shared.jobs| && j < |Step(m, a).trails| && Decided(Step(m, a), j, outcome)
  {
    assert ActorInvariant(m, a) && JobInvariant(m, j);
  }

  lemma DecidedStep(m: Machine, act: Act, j: nat, outcome: Outcome)
    requires Inv(m) && Can(m, act) && j < |m.shared.jobs| && Decided(m, j, outcome)
    ensures j < |Next(m, act).shared.jobs| && j < |Next(m, act).trails| && Decided(Next(m, act), j, outcome)
  {
    assert JobInvariant(m, j);
    if Handles(m, act, j) {
      if act.Advance? && Holds(m.pcs[act.actor]) == Some(j) {
        FinishingStep(m, act.actor, j, outcome);
      } else if act.PlayEnds? {
        assert ActorInvariant(m, Worker);
      }
    } else {
      OtherActKeepsHolder(m, act, j);
      WhoChangesStatus(m, act, j);
    }
  }

  lemma {:induction false} DecidedRun(m: Machine, acts: seq<Act>, j: nat, outcome: Outcome)
    requires Inv(m) && Possible(m, acts) && j < |m.shared.jobs| && Decided(m, j, outcome)
    ensures j < |End(m, acts).shared.jobs| && j < |End(m, acts).trails| && Decided(End(m, acts), j, outcome)
    decreases |acts|
  {
    if acts != [] {
      DecidedStep(m, acts[0], j, outcome);
      NextKeepsInv(m, acts[0]);
      DecidedRun(Next(m, acts[0]), acts[1..], j, outcome);
    }
  }

  /** Only an accepting submitter adds a job. */
  lemma WhoAddsJobs(m: Machine, act: Act)
    requires Can(m, act) && |Next(m, act).shared.jobs| > |m.shared.jobs|
    ensures act.Advance? && m.pcs[act.actor].Swap? && act.actor != Closer
    ensures |Next(m, act).shared.jobs| == |m.shared.jobs| + 1
  {
  }

  /** A job that comes into being is in the slot. */
  lemma NewJobIsOpen(m: Machine, act: Act, j: nat)
    requires Inv(m) && Can(m, act) && |m.shared.jobs| <= j < |Next(m, act).shared.jobs|
    ensures j < |Next(m, act).trails| && Open(Next(m, act), j, None)
  {
    WhoAddsJobs(m, act);
    assert TrailsAfter(m, act.actor)[j] == Trail(InSlot, None);
  }

  lemma OpenIsNotOver(m: Machine, j: nat, returned: Option<Outcome>)
    requires Inv(m) && j < |m.shared.jobs| && Open(m, j, returned)
    ensures !IsOver(m, j)
  {
    assert JobInvariant(m, j);
  }

  lemma {:induction false} OpenRun(m: Machine, acts: seq<Act>, j: nat, returned: Option<Outcome>)
    requires Inv(m) && Possible(m, acts) && j < |End(m, acts).shared.jobs| && IsOver(End(m, acts), j)
    requires if j < |m.shared.jobs| then Open(m, j, returned) else returned == None
    ensures var d := DecisionIn(m, acts, j, returned);
            d.Some? && Explains(d.value, End(m, acts).shared.jobs[j].status.outcome)
    decreases |acts|
  {
    if j < |m.shared.jobs| {
      OpenIsNotOver(m, j, returned);
    }
    if acts != [] {
      var next := Next(m, acts[0]);
      NextKeepsInv(m, acts[0]);
      if j < |m.shared.jobs| {
        var outcome := OpenStep(m, acts[0], j, returned);
        if DecisionAt(m, acts[0], j, returned).Some? {
          DecidedRunEnds(next, acts[1..], j, outcome);
        } else {
          OpenRun(next, acts[1..], j, ReturnedAt(m, acts[0], j, returned));
        }
      } else {
        assert ReturnedAt(m, acts[0], j, returned) == None;
        if j < |next.shared.jobs| {
          NewJobIsOpen(m, acts[0], j);
        }
        OpenRun(next, acts[1..], j, None);
      }
    }
  }

  lemma DecidedRunEnds(m: Machine, acts: seq<Act>, j: nat, outcome: Outcome)
    requires Inv(m) && Possible(m, acts) && j < |m.shared.jobs| && Decided(m, j, outcome)
    requires j < |End(m, acts).shared.jobs| && IsOver(End(m, acts), j)
    ensures End(m, acts).shared.jobs[j].status == Ended(outcome)
  {
    DecidedRun(m, acts, j, outcome);
    RunKeepsInv(m, acts);
    assert JobInvariant(End(m, acts), j);
  }

  /**
   Over every interleaving, a finished job's outcome is explained by one decision about it: by the stop reason it had at
   that time, and what the player had returned for it.
   */
  lemma EveryOutcomeIsExplained(acts: seq<Act>, j: nat)
    requires Possible(START, acts) && j < |End(START, acts).shared.jobs| && IsOver(End(START, acts), j)
    ensures var d := DecisionIn(START, acts, j, None);
            d.Some? && Explains(d.value, End(START, acts).shared.jobs[j].status.outcome)
  {
    OpenRun(START, acts, j, None);
  }

  // ----- A stop that comes in time -----

  function ReturnedIn(m: Machine, acts: seq<Act>, j: nat, returned: Option<Outcome>): Option<Outcome>
    requires Possible(m, acts)
    decreases |acts|
  {
    if acts == [] then returned
    else ReturnedIn(Next(m, acts[0]), acts[1..], j, ReturnedAt(m, acts[0], j, returned))
  }

  lemma {:induction false} OpenUntilDecided(m: Machine, acts: seq<Act>, j: nat, returned: Option<Outcome>)
    requires Inv(m) && Possible(m, acts) && j < |End(m, acts).shared.jobs| && DecisionIn(m, acts, j, returned).None?
    requires if j < |m.shared.jobs| then Open(m, j, returned) else returned == None
    ensures j < |End(m, acts).trails| && Open(End(m, acts), j, ReturnedIn(m, acts, j, returned))
    decreases |acts|
  {
    if acts != [] {
      NextKeepsInv(m, acts[0]);
      if j < |m.shared.jobs| {
        var outcome := OpenStep(m, acts[0], j, returned);
      } else {
        assert ReturnedAt(m, acts[0], j, returned) == None;
        if j < |Next(m, acts[0]).shared.jobs| {
          NewJobIsOpen(m, acts[0], j);
        }
      }
      OpenUntilDecided(Next(m, acts[0]), acts[1..], j, ReturnedAt(m, acts[0], j, returned));
    }
  }

  lemma {:induction false} DecidedByItsReason(m: Machine, acts: seq<Act>, j: nat, returned: Option<Outcome>)
    requires Possible(m, acts) && j < |m.shared.jobs| && m.shared.jobs[j].reason != NotStopped
    requires DecisionIn(m, acts, j, returned).Some?
    ensures var d := DecisionIn(m, acts, j, returned).value;
            d == ByCloser || d.reason == m.shared.jobs[j].reason
    decreases |acts|
  {
    if DecisionAt(m, acts[0], j, returned).None? {
      ReasonStands(m, acts[0], j);
      DecidedByItsReason(Next(m, acts[0]), acts[1..], j, ReturnedAt(m, acts[0], j, returned));
    }
  }

  /**
   A job that its handle has stopped while its outcome was open ends as stopped, or as failed or timed out if the player
   said so, unless the closing caller takes it out of the slot, when it ends as shut down.
   */
  lemma HandleStopIsHonoured(before: seq<Act>, after: seq<Act>, j: nat)
    requires Possible(START, before) && Possible(End(START, before), after)
    requires j < |End(START, before).shared.jobs| && DecisionIn(START, before, j, None).None?
    requires End(START, before).shared.jobs[j].reason == ByRequest
    requires j < |End(End(START, before), after).shared.jobs| && IsOver(End(End(START, before), after), j)
    ensures var d := DecisionIn(End(START, before), after, j, ReturnedIn(START, before, j, None));
            var outcome := End(End(START, before), after).shared.jobs[j].status.outcome;
            && d.Some?
            && (d.value == ByCloser ==> outcome == Shutdown)
            && (d.value != ByCloser ==> outcome == Stopped || outcome == Failed || outcome == TimedOut)
            && (outcome == Failed || outcome == TimedOut ==> d.value == ByWorker(ByRequest, Some(outcome)))
  {
    var m, returned := End(START, before), ReturnedIn(START, before, j, None);
    OpenUntilDecided(START, before, j, None);
    RunKeepsInv(START, before);
    OpenRun(m, after, j, returned);
    DecidedByItsReason(m, after, j, returned);
  }

  // ----- What handles and statistics show -----

  /** A job that is not over shows as playing exactly if it has started. */
  ghost predicate StatusesShow(m: Machine) {
    forall j: nat | j < |m.shared.jobs| && !m.shared.jobs[j].status.Ended? ::
      m.shared.jobs[j].status == if j in m.started then Playing else Queued
  }

  lemma TakingShows(m: Machine)
    requires Inv(m) && Can(m, WorkerTakes) && StatusesShow(m)
    ensures StatusesShow(Next(m, WorkerTakes))
  {
  }

  lemma JobAppears(m: Machine, act: Act, j: nat)
    requires Inv(m) && Can(m, act) && |m.shared.jobs| <= j < |Next(m, act).shared.jobs|
    ensures Next(m, act).shared.jobs[j].status == Queued && j !in Next(m, act).started
  {
    WhoAddsJobs(m, act);
    assert SharedAfter(m, act.actor).jobs[j] == NEW_JOB;
  }

  lemma StatusesStep(m: Machine, act: Act)
    requires Inv(m) && Can(m, act) && StatusesShow(m)
    ensures StatusesShow(Next(m, act))
  {
    if act.WorkerTakes? {
      TakingShows(m);
    } else {
      var next := Next(m, act);
      forall j: nat | j < |next.shared.jobs| && !next.shared.jobs[j].status.Ended?
        ensures next.shared.jobs[j].status == if j in next.started then Playing else Queued {
        if j < |m.shared.jobs| {
          StatusStands(m, act, j);
        } else {
          JobAppears(m, act, j);
        }
      }
    }
  }

  lemma StatusStands(m: Machine, act: Act, j: nat)
    requires Inv(m) && Can(m, act) && !act.WorkerTakes? && j < |m.shared.jobs|
    ensures j < |Next(m, act).shared.jobs| && Next(m, act).started == m.started
    ensures Next(m, act).shared.jobs[j].status == m.shared.jobs[j].status
            || Next(m, act).shared.jobs[j].status.Ended?
  {
    WhoChangesStatus(m, act, j);
  }

  lemma {:induction false} RunShows(m: Machine, acts: seq<Act>)
    requires Inv(m) && Possible(m, acts) && StatusesShow(m)
    ensures StatusesShow(End(m, acts))
    decreases |acts|
  {
    if acts != [] {
      StatusesStep(m, acts[0]);
      NextKeepsInv(m, acts[0]);
      RunShows(Next(m, acts[0]), acts[1..]);
    }
  }

  /** In every reachable state a job shows as queued until the worker takes it, and as playing from then to its end. */
  lemma StatusTellsProgress(acts: seq<Act>, j: nat)
    requires Possible(START, acts) && j < |End(START, acts).shared.jobs| && !IsOver(End(START, acts), j)
    ensures End(START, acts).shared.jobs[j].status == if j in End(START, acts).started then Playing else Queued
  {
    RunShows(START, acts);
  }

  /** The submissions of a run that were turned away: without a player, or after the shutdown began. */
  function Refusals(m: Machine, acts: seq<Act>): nat
    requires Possible(m, acts)
    decreases |acts|
  {
    if acts == [] then 0
    else (if acts[0].SubmitInvalid? || (acts[0].SubmitEnter? && m.shared.shuttingDown) then 1 else 0)
         + Refusals(Next(m, acts[0]), acts[1..])
  }

  lemma RefusalStep(m: Machine, act: Act)
    requires Can(m, act)
    ensures Next(m, act).shared.counters.rejected
            == m.shared.counters.rejected + (if act.SubmitInvalid? || (act.SubmitEnter? && m.shared.shuttingDown)
                                             then 1 else 0)
  {
    if act.Advance? {
      SharedKeepsRejected(m, act.actor);
    }
  }

  lemma SharedKeepsRejected(m: Machine, a: Actor)
    requires Can(m, Advance(a))
    ensures SharedAfter(m, a).counters.rejected == m.shared.counters.rejected
  {
  }

  /** The rejection counter counts exactly the submissions turned away. */
  lemma {:induction false} RefusalsAreCounted(m: Machine, acts: seq<Act>)
    requires Possible(m, acts)
    ensures End(m, acts).shared.counters.rejected == m.shared.counters.rejected + Refusals(m, acts)
    decreases |acts|
  {
    if acts != [] {
      RefusalStep(m, acts[0]);
      RefusalsAreCounted(Next(m, acts[0]), acts[1..]);
    }
  }
}
