/**
 Interrupts over every interleaving. An interrupt marks an active playlist as interrupted before it is scheduled, and if
 it then fails it takes the mark back, having let go of the mutex in between.
 */
module InterruptRuns {
  import opened PlaybackSessions
  import opened SessionRegistry
  import opened SessionRuns

  predicate Marks(step: Step, u: Universe) {
    step.MarkInterrupt? && step.u == u
  }

  predicate SomeStepMarks(steps: seq<Step>, u: Universe) {
    exists k | 0 <= k < |steps| :: Marks(steps[k], u)
  }

  predicate PausedThroughout(g: Registry, steps: seq<Step>, u: Universe)
    requires Runs(g, steps)
    decreases |steps|
  {
    StateOf(g, u).playlist == Interrupted && (steps == [] || PausedThroughout(Apply(g, steps[0]), steps[1..], u))
  }

  lemma OnlyInterruptsPause(g: Registry, step: Step, u: Universe)
    requires Enabled(g, step) && StateOf(g, u).playlist != Interrupted && !Pauses(g, step, u)
    ensures StateOf(Apply(g, step), u).playlist != Interrupted
  {
  }

  lemma {:induction false} PausedByTheEnd(g: Registry, steps: seq<Step>, u: Universe)
    requires Runs(g, steps) && StateOf(After(g, steps), u).playlist == Interrupted
    ensures PausedThroughout(g, steps, u) <==> StateOf(g, u).playlist == Interrupted && !SomeStepPauses(g, steps, u)
    ensures StateOf(g, u).playlist != Interrupted ==> SomeStepPauses(g, steps, u)
    decreases |steps|
  {
    if steps != [] {
      PausedByTheEnd(Apply(g, steps[0]), steps[1..], u);
      if StateOf(g, u).playlist != Interrupted && !Pauses(g, steps[0], u) {
        OnlyInterruptsPause(g, steps[0], u);
      }
    }
  }

  lemma MarksSplit(steps: seq<Step>, u: Universe)
    requires steps != []
    ensures SomeStepMarks(steps, u) <==> Marks(steps[0], u) || SomeStepMarks(steps[1..], u)
  {
    if SomeStepMarks(steps[1..], u) {
      var k :| 0 <= k < |steps[1..]| && Marks(steps[1..][k], u);
      assert Marks(steps[k + 1], u);
    }
    if SomeStepMarks(steps, u) && !Marks(steps[0], u) {
      var k :| 0 <= k < |steps| && Marks(steps[k], u);
      assert Marks(steps[1..][k - 1], u);
    }
  }

  // ----- With no other interrupt in between, a roll-back leaves no trace -----

  /** The playlist is interrupted by the mark, and still after the step, which is no other interrupt. */
  ghost predicate StaysMarked(g: Registry, step: Step, u: Universe, resume: bool) {
    && Enabled(g, step) && StateOf(g, u).playlist == Active && !Marks(step, u)
    && StateOf(Apply(InterruptMarked(g, u, resume), step), u).playlist == Interrupted
  }

  /** Apart from the mark itself, the step does what it would have done without it. */
  ghost predicate Commutes(g: Registry, step: Step, u: Universe, resume: bool)
    requires Enabled(g, step)
  {
    && StateOf(Apply(g, step), u).playlist == Active
    && Apply(InterruptMarked(g, u, resume), step) == InterruptMarked(Apply(g, step), u, resume)
  }

  lemma SweepCommutes(g: Registry, v: Universe, f: Filter, u: Universe, resume: bool)
    requires StateOf(g, u).playlist == Active
    ensures Targets(InterruptMarked(g, u, resume), v, f) == Targets(g, v, f)
    ensures StateOf(Swept(g, v, f), u).playlist == Active
    ensures Swept(InterruptMarked(g, u, resume), v, f) == InterruptMarked(Swept(g, v, f), u, resume)
  {
    assert Targets(InterruptMarked(g, u, resume), v, f) == Targets(g, v, f);
    assert Swept(InterruptMarked(g, u, resume), v, f).universes == InterruptMarked(Swept(g, v, f), u, resume).universes;
  }

  lemma AdoptionCommutes(g: Registry, step: Step, u: Universe, resume: bool)
    requires StaysMarked(g, step, u, resume) && step.Adopt?
    ensures Commutes(g, step, u, resume)
  {
    SweepCommutes(g, step.u, AdoptFilter(step.session, step.whole), u, resume);
    assert Apply(InterruptMarked(g, u, resume), step).universes
        == InterruptMarked(Apply(g, step), u, resume).universes;
  }

  /** Putting something in place of one universe's state commutes with the mark of another. */
  lemma PutCommutes(g: Registry, v: Universe, state: UniverseState<SessionId>, u: Universe, resume: bool)
    requires StateOf(g, u).playlist == Active && u != v
    ensures Put(InterruptMarked(g, u, resume), v, state) == InterruptMarked(Put(g, v, state), u, resume)
    ensures Without(InterruptMarked(g, u, resume), v) == InterruptMarked(Without(g, v), u, resume)
  {
    assert Put(InterruptMarked(g, u, resume), v, state).universes
        == InterruptMarked(Put(g, v, state), u, resume).universes;
    assert Without(InterruptMarked(g, u, resume), v).universes
        == InterruptMarked(Without(g, v), u, resume).universes;
  }

  lemma StopCommutes(g: Registry, step: Step, u: Universe, resume: bool)
    requires StaysMarked(g, step, u, resume) && step.StopPlaylist?
    ensures Commutes(g, step, u, resume)
  {
    assert step.u != u;
    var halted := StateOf(g, step.u).WithPlaylist(Stopped, false).WithHalted();
    PutCommutes(g, step.u, halted, u, resume);
    SweepCommutes(Put(g, step.u, halted), step.u, OfPlaylist, u, resume);
  }

  predicate OnPlaylist(step: Step) {
    || step.MarkInterrupt? || step.RollBackInterrupt? || step.ResumePlaylist? || step.ConsumeResume?
    || step.StartPlaylist? || step.ClearPlaylist?
  }

  lemma PlaylistStepCommutes(g: Registry, step: Step, u: Universe, resume: bool)
    requires StaysMarked(g, step, u, resume) && OnPlaylist(step)
    ensures Commutes(g, step, u, resume)
  {
    PlaylistStepHere(g, step, u, resume);
    PutCommutes(g, step.u, StateOf(Apply(g, step), step.u), u, resume);
  }

  /** The only such step on the interrupted playlist that leaves it interrupted would be another mark. */
  lemma PlaylistStepHere(g: Registry, step: Step, u: Universe, resume: bool)
    requires StaysMarked(g, step, u, resume) && OnPlaylist(step)
    ensures step.u != u
  {
  }

  /** So does putting something else for the same universe, as long as its playlist stays. */
  lemma PutHereCommutes(g: Registry, state: UniverseState<SessionId>, u: Universe, resume: bool)
    requires StateOf(g, u).playlist == Active && state.playlist == Active
    ensures Put(InterruptMarked(g, u, resume), u, state.WithPlaylist(Interrupted, resume))
            == InterruptMarked(Put(g, u, state), u, resume)
  {
    assert Put(InterruptMarked(g, u, resume), u, state.WithPlaylist(Interrupted, resume)).universes
        == InterruptMarked(Put(g, u, state), u, resume).universes;
  }

  predicate OnList(step: Step) {
    step.ClearSession? || step.AbortLoading?
  }

  predicate OnQueue(step: Step) {
    step.Enqueue? || step.Dequeue? || step.ClearQueue? || step.SetStatus?
  }

  lemma ListStepCommutes(g: Registry, step: Step, u: Universe, resume: bool)
    requires StaysMarked(g, step, u, resume) && OnList(step)
    ensures Commutes(g, step, u, resume)
  {
    if step.u in g.universes {
      var left := g.universes[step.u].WithActive(Keep(g.universes[step.u].active, {step.id}));
      if step.u != u {
        PutCommutes(g, step.u, StateOf(Apply(g, step), step.u), u, resume);
      } else if step.ClearSession? {
        PutHereCommutes(g, left, u, resume);
      } else {
        PutHereCommutes(g, left.(queue := []), u, resume);
      }
    }
  }

  lemma QueueStepCommutesHere(g: Registry, step: Step, u: Universe, resume: bool)
    requires StaysMarked(g, step, u, resume) && OnQueue(step) && step.u == u
    ensures Commutes(g, step, u, resume)
  {
    PutHereCommutes(g, StateOf(Apply(g, step), u), u, resume);
  }

  lemma QueueStepCommutes(g: Registry, step: Step, u: Universe, resume: bool)
    requires StaysMarked(g, step, u, resume) && OnQueue(step)
    ensures Commutes(g, step, u, resume)
  {
    if step.u == u {
      QueueStepCommutesHere(g, step, u, resume);
    } else {
      PutCommutes(g, step.u, StateOf(Apply(g, step), step.u), u, resume);
    }
  }

  lemma FlagStepCommutes(g: Registry, step: Step, u: Universe, resume: bool)
    requires StaysMarked(g, step, u, resume) && (step.SetCancelled? || step.SetNotified?)
    ensures Commutes(g, step, u, resume)
  {
  }

  lemma MarkCommutes(g: Registry, step: Step, u: Universe, resume: bool)
    requires StaysMarked(g, step, u, resume)
    ensures Commutes(g, step, u, resume)
  {
    if step.Adopt? {
      AdoptionCommutes(g, step, u, resume);
    } else if step.CancelMatching? {
      SweepCommutes(g, step.u, step.filter, u, resume);
    } else if step.StopPlaylist? {
      StopCommutes(g, step, u, resume);
    } else if OnPlaylist(step) {
      PlaylistStepCommutes(g, step, u, resume);
    } else if OnList(step) {
      ListStepCommutes(g, step, u, resume);
    } else if OnQueue(step) {
      QueueStepCommutes(g, step, u, resume);
    } else {
      FlagStepCommutes(g, step, u, resume);
    }
  }

  lemma {:induction false} UnmarkedRunCommutes(g: Registry, steps: seq<Step>, u: Universe, resume: bool)
    requires StateOf(g, u).playlist == Active && Runs(InterruptMarked(g, u, resume), steps) && !SomeStepMarks(steps, u)
    requires StateOf(After(InterruptMarked(g, u, resume), steps), u).playlist == Interrupted
    ensures Runs(g, steps) && StateOf(After(g, steps), u).playlist == Active
    ensures After(InterruptMarked(g, u, resume), steps) == InterruptMarked(After(g, steps), u, resume)
    decreases |steps|
  {
    if steps != [] {
      var marked := InterruptMarked(g, u, resume);
      UnmarkedRunStaysPaused(marked, steps, u);
      MarksSplit(steps, u);
      MarkCommutes(g, steps[0], u, resume);
      UnmarkedRunCommutes(Apply(g, steps[0]), steps[1..], u, resume);
    }
  }

  lemma {:induction false} UnmarkedRunStaysPaused(g: Registry, steps: seq<Step>, u: Universe)
    requires Runs(g, steps) && !SomeStepMarks(steps, u) && StateOf(After(g, steps), u).playlist == Interrupted
    ensures PausedThroughout(g, steps, u)
    ensures steps != [] ==> !SomeStepMarks(steps[1..], u)
    decreases |steps|
  {
    if steps != [] {
      MarksSplit(steps, u);
      UnmarkedRunStaysPaused(Apply(g, steps[0]), steps[1..], u);
      if StateOf(g, u).playlist != Interrupted {
        OnlyInterruptsPause(g, steps[0], u);
      }
    }
  }

  // ----- Otherwise somebody else needs the pause -----

  /** Some interrupt of the run has marked the playlist, or found it marked, and it has been interrupted ever since. */
  predicate SomeoneHoldsPause(g: Registry, steps: seq<Step>, u: Universe)
    requires Runs(g, steps)
    decreases |steps|
  {
    steps != [] &&
    (|| (Marks(steps[0], u) && PausedThroughout(Apply(g, steps[0]), steps[1..], u))
     || SomeoneHoldsPause(Apply(g, steps[0]), steps[1..], u))
  }

  lemma {:induction false} HolderIsPaused(g: Registry, steps: seq<Step>, u: Universe)
    requires Runs(g, steps)
    ensures PausedThroughout(g, steps, u) ==> StateOf(After(g, steps), u).playlist == Interrupted
    ensures SomeoneHoldsPause(g, steps, u) ==>
              StateOf(After(g, steps), u).playlist == Interrupted && SomeStepMarks(steps, u)
    decreases |steps|
  {
    if steps != [] {
      HolderIsPaused(Apply(g, steps[0]), steps[1..], u);
      MarksSplit(steps, u);
    }
  }

  lemma {:induction false} PausedRunHasHolder(g: Registry, steps: seq<Step>, u: Universe)
    requires Runs(g, steps) && StateOf(After(g, steps), u).playlist == Interrupted
    ensures SomeStepMarks(steps, u) || StateOf(g, u).playlist != Interrupted ==> SomeoneHoldsPause(g, steps, u)
    decreases |steps|
  {
    if steps != [] {
      var next := Apply(g, steps[0]);
      MarksSplit(steps, u);
      PausedRunHasHolder(next, steps[1..], u);
      if !SomeStepMarks(steps[1..], u) {
        UnmarkedRunStaysPaused(next, steps[1..], u);
        if !Marks(steps[0], u) && StateOf(g, u).playlist != Interrupted {
          OnlyInterruptsPause(g, steps[0], u);
        }
      }
    }
  }

  /** The roll-back makes a playlist active that another interrupt has paused, or found paused, and needs paused. */
  predicate TakesPauseAway(g: Registry, steps: seq<Step>, u: Universe)
    requires Runs(g, steps)
  {
    SomeoneHoldsPause(g, steps, u) && StateOf(InterruptRolledBack(After(g, steps), u), u).playlist == Active
  }

  /**
   An interrupt pauses a playlist, other threads take any steps, and then the interrupt fails and rolls its mark back.
   That takes the pause away from another interrupt if and only if the playlist is found interrupted and another
   interrupt has marked it since, no matter whether that one paused it or found it paused (one of the latter kind that
   fails itself leaves no trace; LiveInterruptLosesPauseExactly is about those that play). If the playlist is found
   interrupted and nobody has, everything is as if the failed interrupt had never been asked for. The pause that is
   found is the failed interrupt's own if and only if nobody paused the playlist since.
   */
  lemma LateRollBackTakesPauseAwayExactly(g: Registry, u: Universe, resume: bool, steps: seq<Step>)
    requires Sound(g) && StateOf(g, u).playlist == Active && Runs(InterruptMarked(g, u, resume), steps)
    ensures var found := After(InterruptMarked(g, u, resume), steps);
            && (TakesPauseAway(InterruptMarked(g, u, resume), steps, u)
                <==> StateOf(found, u).playlist == Interrupted && SomeStepMarks(steps, u))
            && (StateOf(found, u).playlist == Interrupted && !SomeStepMarks(steps, u) ==>
                  Runs(g, steps) && InterruptRolledBack(found, u) == After(g, steps))
            && (StateOf(found, u).playlist != Interrupted ==> InterruptRolledBack(found, u) == found)
    ensures StateOf(After(InterruptMarked(g, u, resume), steps), u).playlist == Interrupted ==>
              (PausedThroughout(InterruptMarked(g, u, resume), steps, u)
               <==> !SomeStepPauses(InterruptMarked(g, u, resume), steps, u))
  {
    var marked := InterruptMarked(g, u, resume);
    var found := After(marked, steps);
    HolderIsPaused(marked, steps, u);
    if StateOf(found, u).playlist == Interrupted {
      PausedByTheEnd(marked, steps, u);
      if SomeStepMarks(steps, u) {
        PausedRunHasHolder(marked, steps, u);
      } else {
        UnmarkedRunCommutes(g, steps, u, resume);
        RunKeepsSound(g, steps);
        RefusedInterruptLeavesNoTrace(After(g, steps), u, resume);
      }
    }
  }

  // ----- The interrupt that plays under the pause -----

  /** Nothing in the run cancels the session or takes it off its list. */
  predicate Undisturbed(g: Registry, steps: seq<Step>, u: Universe, id: SessionId)
    requires Runs(g, steps)
    decreases |steps|
  {
    steps == [] ||
    (&& id !in RemovedBy(g, steps[0], u) && id !in CancelledBy(g, steps[0])
     && Undisturbed(Apply(g, steps[0]), steps[1..], u, id))
  }

  predicate AdoptsInterrupt(step: Step, u: Universe, id: SessionId) {
    step.Adopt? && step.u == u && step.id == id && step.whole
  }

  /** An interrupt's session is adopted in the run, over its whole universe, and left to play from then on. */
  predicate InterruptPlaysOn(g: Registry, steps: seq<Step>, u: Universe, id: SessionId)
    requires Runs(g, steps)
    decreases |steps|
  {
    steps != [] &&
    (|| (AdoptsInterrupt(steps[0], u, id) && Undisturbed(Apply(g, steps[0]), steps[1..], u, id))
     || InterruptPlaysOn(Apply(g, steps[0]), steps[1..], u, id))
  }

  predicate InterruptAdopted(steps: seq<Step>, u: Universe, id: SessionId) {
    steps != [] && (AdoptsInterrupt(steps[0], u, id) || InterruptAdopted(steps[1..], u, id))
  }

  lemma {:induction false} LivesUndisturbed(g: Registry, steps: seq<Step>, u: Universe, id: SessionId)
    requires Runs(g, steps) && id in g.sessions
    ensures Live(After(g, steps), u, id) <==> Live(g, u, id) && Undisturbed(g, steps, u, id)
    decreases |steps|
  {
    if steps != [] {
      var next := Apply(g, steps[0]);
      StepOnMember(g, steps[0], next, u, id);
      LivesUndisturbed(next, steps[1..], u, id);
    }
  }

  lemma {:induction false} KnownIsNotAdopted(g: Registry, steps: seq<Step>, u: Universe, id: SessionId)
    requires Runs(g, steps) && id in g.sessions
    ensures !InterruptAdopted(steps, u, id) && !InterruptPlaysOn(g, steps, u, id)
    decreases |steps|
  {
    if steps != [] {
      StepKeepsIdentity(g, steps[0], id);
      KnownIsNotAdopted(Apply(g, steps[0]), steps[1..], u, id);
    }
  }

  lemma {:induction false} InterruptPlaysExactly(g: Registry, steps: seq<Step>, u: Universe, id: SessionId)
    requires Sound(g) && Runs(g, steps) && id !in g.sessions
    ensures InterruptAdopted(steps, u, id) && Live(After(g, steps), u, id) <==> InterruptPlaysOn(g, steps, u, id)
    decreases |steps|
  {
    if steps != [] {
      var next := Apply(g, steps[0]);
      StepKeepsSound(g, steps[0]);
      StepOnStranger(g, steps[0], u, id);
      if id in next.sessions {
        KnownIsNotAdopted(next, steps[1..], u, id);
        LivesUndisturbed(next, steps[1..], u, id);
        NewcomerIsLive(g, steps[0]);
      } else {
        InterruptPlaysExactly(next, steps[1..], u, id);
      }
    }
  }

  lemma NewcomerIsLive(g: Registry, step: Step)
    requires Enabled(g, step) && step.Adopt?
    ensures Live(Apply(g, step), step.u, step.id)
  {
  }

  lemma RolledBackKeepsLive(g: Registry, u: Universe, id: SessionId)
    ensures Live(InterruptRolledBack(g, u), u, id) <==> Live(g, u, id)
  {
  }

  /**
   Another interrupt, adopted since the mark, is playing when the roll-back makes the playlist active under it, if and
   only if the playlist is found interrupted and nothing has cancelled or removed that interrupt's session since its
   adoption.
   */
  lemma LiveInterruptLosesPauseExactly(g: Registry, u: Universe, resume: bool, steps: seq<Step>, id: SessionId)
    requires Sound(g) && StateOf(g, u).playlist == Active && id !in g.sessions
    requires Runs(InterruptMarked(g, u, resume), steps)
    ensures var marked := InterruptMarked(g, u, resume);
            var found := After(marked, steps);
            var after := InterruptRolledBack(found, u);
            (&& InterruptAdopted(steps, u, id) && Live(after, u, id)
             && StateOf(found, u).playlist != Active && StateOf(after, u).playlist == Active)
            <==> StateOf(found, u).playlist == Interrupted && InterruptPlaysOn(marked, steps, u, id)
  {
    var marked := InterruptMarked(g, u, resume);
    StepKeepsSound(g, MarkInterrupt(u, resume));
    InterruptPlaysExactly(marked, steps, u, id);
    RolledBackKeepsLive(After(marked, steps), u, id);
  }

  // ----- Two such runs -----

  /**
   The first interrupt's playlist is stopped and a new one started and paused by a second interrupt before the first is
   refused. The late roll-back puts the new playlist back to Active, and the second interrupt's resume decision is lost.
   */
  lemma StaleRollBackUndoesAnotherInterrupt(g: Registry, u: Universe)
    requires StateOf(g, u).playlist == Active
    ensures var raced := [MarkInterrupt(u, false), StopPlaylist(u), StartPlaylist(u, "next"), MarkInterrupt(u, true)];
            && Runs(g, raced)
            && ResumeGranted(After(g, raced), u)
            && StateOf(InterruptRolledBack(After(g, raced), u), u).playlist == Active
            && !ResumeGranted(InterruptRolledBack(After(g, raced), u), u)
  {
    var raced := [MarkInterrupt(u, false), StopPlaylist(u), StartPlaylist(u, "next"), MarkInterrupt(u, true)];
    var g1 := Apply(g, raced[0]);
    var g2 := Apply(g1, raced[1]);
    var g3 := Apply(g2, raced[2]);
    var g4 := Apply(g3, raced[3]);
    assert raced[1..] == [raced[1], raced[2], raced[3]];
    assert raced[1..][1..] == [raced[2], raced[3]];
    assert raced[1..][1..][1..] == [raced[3]];
    assert raced[1..][1..][1..][1..] == [];
    assert After(g3, [raced[3]]) == g4;
    assert After(g2, [raced[2], raced[3]]) == g4;
    assert After(g1, [raced[1], raced[2], raced[3]]) == g4;
    assert After(g, raced) == g4;
  }

  /**
   The second interrupt finds the playlist paused, and its session is adopted and plays. Then the first interrupt is
   refused, because the second took the last loader slot, and rolls back: the playlist is active while the second
   interrupt plays, and whether to resume it is no longer anybody's decision.
   */
  lemma ChainedInterruptLosesItsPause(g: Registry, u: Universe, id: SessionId, t: Session, first: bool, second: bool)
    requires StateOf(g, u).playlist == Active && id !in g.sessions && !t.cancelled
    ensures var marked, chained := InterruptMarked(g, u, first), [MarkInterrupt(u, second), Adopt(u, id, t, true)];
            && Runs(marked, chained) && !SomeStepPauses(marked, chained, u)
            && TakesPauseAway(marked, chained, u)
            && var found := After(marked, chained);
               && StateOf(found, u).playlist == Interrupted && Live(found, u, id)
               && var after := InterruptRolledBack(found, u);
                  && StateOf(after, u).playlist == Active && !ResumeGranted(after, u) && Live(after, u, id)
  {
    var marked, chained := InterruptMarked(g, u, first), [MarkInterrupt(u, second), Adopt(u, id, t, true)];
    assert chained[1..] == [chained[1]] && [chained[1]][1..] == [];
    var found := Adopted(marked, u, id, t, false, true);
    assert Apply(marked, chained[0]) == marked && Apply(marked, chained[1]) == found;
    AdoptedByInterrupt(marked, u, id, t);
    assert PausedThroughout(found, [], u) && Runs(found, []);
    assert Runs(marked, [chained[1]]) && After(marked, [chained[1]]) == found;
    assert PausedThroughout(marked, [chained[1]], u);
    assert !SomeStepPauses(found, [], u) && !SomeStepPauses(marked, [chained[1]], u);
    assert Runs(marked, chained) && After(marked, chained) == found;
  }

  lemma AdoptedByInterrupt(g: Registry, u: Universe, id: SessionId, t: Session)
    requires StateOf(g, u).playlist == Interrupted && !t.cancelled
    ensures var found := Adopted(g, u, id, t, false, true);
            StateOf(found, u).playlist == Interrupted && Live(found, u, id)
  {
  }
}
