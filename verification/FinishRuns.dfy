/**
 A session's finish, over every interleaving. It reads the cancelled flag once, and then takes up to four critical
 sections one by one, with any other thread in between.
 */
module FinishRuns {
  import opened PlaybackSessions
  import opened SessionRegistry
  import opened SessionRuns
  import opened SessionProtocol

  predicate FinishIs(w: World, id: SessionId, pcs: set<FinishPc>) {
    id in w.finishers && w.finishers[id] in pcs
  }

  const AFTER_READ: set<FinishPc> :=
    {Clearing(false), Clearing(true), Skipped, Popping, Continued, Checking, Deciding, Finished}

  /** Read the session as not cancelled, so that it pops, and may decide. */
  const GOING_ON: set<FinishPc> := {Clearing(false), Popping, Continued, Checking, Deciding, Finished}

  const POPPED_NOTHING: set<FinishPc> := {Checking, Deciding, Finished}

  // ----- One pop, one decision -----

  function Pops(acts: seq<Act>, id: SessionId): nat {
    if acts == [] then 0 else (if acts[0] == Pop(id) then 1 else 0) + Pops(acts[1..], id)
  }

  function Decisions(acts: seq<Act>, id: SessionId): nat {
    if acts == [] then 0 else (if acts[0] == Decide(id) then 1 else 0) + Decisions(acts[1..], id)
  }

  const NO_POP: set<FinishPc> := {Clearing(true), Skipped, Continued, Checking, Deciding, Finished}

  const NO_DECISION: set<FinishPc> := {Clearing(true), Skipped, Continued, Finished}

  lemma PopIsLast(w: World, act: Act, id: SessionId)
    requires Can(w, act)
    ensures FinishIs(w, id, NO_POP) ==> FinishIs(Next(w, act), id, NO_POP) && act != Pop(id)
    ensures act == Pop(id) ==> FinishIs(Next(w, act), id, NO_POP)
  {
    assert Next(w, act).finishers == NextFinishers(w, act);
  }

  lemma DecisionIsLast(w: World, act: Act, id: SessionId)
    requires Can(w, act)
    ensures FinishIs(w, id, NO_DECISION) ==> FinishIs(Next(w, act), id, NO_DECISION) && act != Decide(id)
    ensures act == Decide(id) ==> FinishIs(Next(w, act), id, NO_DECISION)
  {
    assert Next(w, act).finishers == NextFinishers(w, act);
  }

  /** However many runners see a session finish, it pops and decides at most once, and not at all once it is skipped. */
  lemma {:induction false} FinishActsAtMostOnce(w: World, acts: seq<Act>, id: SessionId)
    requires Possible(w, acts)
    ensures Pops(acts, id) <= if FinishIs(w, id, NO_POP) then 0 else 1
    ensures Decisions(acts, id) <= if FinishIs(w, id, NO_DECISION) then 0 else 1
    decreases |acts|
  {
    if acts != [] {
      PopIsLast(w, acts[0], id);
      DecisionIsLast(w, acts[0], id);
      FinishActsAtMostOnce(Next(w, acts[0]), acts[1..], id);
    }
  }

  // ----- A decision needs an empty pop -----

  /** The act is the finish's pop, and finds the queue as told. */
  predicate PopsQueue(w: World, act: Act, id: SessionId, empty: bool) {
    act == Pop(id) && id in w.home && (StateOf(w.reg, w.home[id]).queue == [] <==> empty)
  }

  predicate PoppedIn(w: World, acts: seq<Act>, id: SessionId, empty: bool)
    requires Possible(w, acts)
    decreases |acts|
  {
    acts != [] && (PopsQueue(w, acts[0], id, empty) || PoppedIn(Next(w, acts[0]), acts[1..], id, empty))
  }

  lemma PopStep(w: World, act: Act, id: SessionId)
    requires Can(w, act)
    ensures FinishIs(Next(w, act), id, POPPED_NOTHING) <==>
              FinishIs(w, id, POPPED_NOTHING) || PopsQueue(w, act, id, true)
    ensures FinishIs(Next(w, act), id, {Continued}) <==> FinishIs(w, id, {Continued}) || PopsQueue(w, act, id, false)
  {
    assert Next(w, act).finishers == NextFinishers(w, act);
  }

  lemma {:induction false} PopDecidesPc(w: World, acts: seq<Act>, id: SessionId)
    requires Possible(w, acts)
    ensures FinishIs(End(w, acts), id, POPPED_NOTHING) <==>
              FinishIs(w, id, POPPED_NOTHING) || PoppedIn(w, acts, id, true)
    ensures FinishIs(End(w, acts), id, {Continued}) <==> FinishIs(w, id, {Continued}) || PoppedIn(w, acts, id, false)
    decreases |acts|
  {
    if acts != [] {
      PopStep(w, acts[0], id);
      PopDecidesPc(Next(w, acts[0]), acts[1..], id);
    }
  }

  /** Over every run: a finish that decides has popped an empty queue, taken no animation, and seen its session live. */
  lemma DecidesOnlyAfterEmptyPop(acts: seq<Act>, id: SessionId)
    requires Possible(START, acts) && Can(End(START, acts), Decide(id))
    ensures PoppedIn(START, acts, id, true) && !PoppedIn(START, acts, id, false)
    ensures ReadIn(START, acts, id, false) && !ReadIn(START, acts, id, true)
  {
    PopDecidesPc(START, acts, id);
    ReadDecidesPc(START, acts, id, false);
    ReadDecidesPc(START, acts, id, true);
  }

  // ----- A finish goes on exactly if it read the session as live -----

  predicate ReadsFlag(w: World, act: Act, id: SessionId, cancelled: bool) {
    act == ReadCancelled(id) && (CancelledIn(w, id) <==> cancelled)
  }

  predicate ReadIn(w: World, acts: seq<Act>, id: SessionId, cancelled: bool)
    requires Possible(w, acts)
    decreases |acts|
  {
    acts != [] && (ReadsFlag(w, acts[0], id, cancelled) || ReadIn(Next(w, acts[0]), acts[1..], id, cancelled))
  }

  /** Only the read decides which way a finish goes. */
  lemma ReadStep(w: World, act: Act, id: SessionId, cancelled: bool)
    requires Can(w, act)
    ensures var pcs := if cancelled then AFTER_READ - GOING_ON else GOING_ON;
            FinishIs(Next(w, act), id, pcs) <==> FinishIs(w, id, pcs) || ReadsFlag(w, act, id, cancelled)
  {
    assert Next(w, act).finishers == NextFinishers(w, act);
  }

  lemma {:induction false} ReadDecidesPc(w: World, acts: seq<Act>, id: SessionId, cancelled: bool)
    requires Possible(w, acts)
    ensures var pcs := if cancelled then AFTER_READ - GOING_ON else GOING_ON;
            FinishIs(End(w, acts), id, pcs) <==> FinishIs(w, id, pcs) || ReadIn(w, acts, id, cancelled)
    decreases |acts|
  {
    if acts != [] {
      ReadStep(w, acts[0], id, cancelled);
      ReadDecidesPc(Next(w, acts[0]), acts[1..], id, cancelled);
    }
  }

  // ----- A session that is cancelled after its finish has read the flag -----

  /** Some act of the run sets the session's flag. */
  predicate FlaggedIn(w: World, acts: seq<Act>, id: SessionId)
    requires Possible(w, acts)
    decreases |acts|
  {
    acts != [] &&
    ((!CancelledIn(w, id) && CancelledIn(Next(w, acts[0]), id)) || FlaggedIn(Next(w, acts[0]), acts[1..], id))
  }

  /** A canceller takes the session off its list before its own finish gets to clear it. */
  predicate TakenBeforeClear(w: World, acts: seq<Act>, id: SessionId)
    requires Possible(w, acts)
    decreases |acts|
  {
    && acts != [] && acts[0] != Clear(id)
    && (id in TakenBy(w, acts[0]) || TakenBeforeClear(Next(w, acts[0]), acts[1..], id))
  }

  lemma FlagStays(w: World, act: Act, id: SessionId)
    requires Can(w, act) && id in w.reg.sessions
    ensures id in Next(w, act).reg.sessions && (CancelledIn(w, id) ==> CancelledIn(Next(w, act), id))
  {
    ActAges(w, act, id);
  }

  lemma {:induction false} FlaggedExactly(w: World, acts: seq<Act>, id: SessionId)
    requires Possible(w, acts) && id in w.reg.sessions
    ensures FlaggedIn(w, acts, id) <==> !CancelledIn(w, id) && CancelledIn(End(w, acts), id)
    decreases |acts|
  {
    if acts != [] {
      FlagStays(w, acts[0], id);
      FlaggedExactly(Next(w, acts[0]), acts[1..], id);
      if CancelledIn(Next(w, acts[0]), id) {
        CancelledIsForEver(Next(w, acts[0]), acts[1..], id);
      }
    }
  }

  /** While a session's finish is at work, only a canceller sets its flag, with the lock or without. */
  lemma WhoFlags(w: World, act: Act, id: SessionId)
    requires Inv(w) && Can(w, act) && id in w.finishers && !CancelledIn(w, id) && CancelledIn(Next(w, act), id)
    ensures id in TakenBy(w, act) || act == CancelUnlocked(id)
  {
    var reg := NextReg(w, act);
    NextHasEffects(w, act, reg);
    assert OneOwner(w, id) && EffectOn(w, act, reg, w.home[id], id);
  }

  lemma StepOffHome(w: World, act: Act, id: SessionId)
    requires Inv(w) && Can(w, act) && id in w.home && !AtHome(w, id)
    ensures id !in TakenBy(w, act) && id in Next(w, act).home && !AtHome(Next(w, act), id)
  {
    NeverRegisteredAgain(w, [act], id);
    HomeIsForEver(w, [act], id);
    assert [act][1..] == [] && Possible(Next(w, act), []) && End(w, [act]) == Next(w, act);
    if id in TakenBy(w, act) {
      TakenAtHome(w, act, id);
    }
  }

  lemma ClearTakesOffHome(w: World, id: SessionId)
    requires Inv(w) && Can(w, Clear(id))
    ensures id !in TakenBy(w, Clear(id)) && id in Next(w, Clear(id)).home && !AtHome(Next(w, Clear(id)), id)
  {
    var reg := NextReg(w, Clear(id));
    NextHasEffects(w, Clear(id), reg);
    assert EffectOn(w, Clear(id), reg, w.home[id], id);
  }

  /** Off its list, a session whose finish is at work is flagged only without the lock, and nobody takes it. */
  lemma {:induction false} OffHomeRun(w: World, acts: seq<Act>, id: SessionId)
    requires Inv(w) && Possible(w, acts) && id in w.finishers && !AtHome(w, id)
    ensures FlaggedIn(w, acts, id) ==> CancelUnlocked(id) in acts
    ensures Taken(End(w, acts), id) ==> Taken(w, id)
    decreases |acts|
  {
    if acts != [] {
      NextKeepsInv(w, acts[0]);
      StepOffHome(w, acts[0], id);
      if !CancelledIn(w, id) && CancelledIn(Next(w, acts[0]), id) {
        WhoFlags(w, acts[0], id);
      }
      OffHomeRun(Next(w, acts[0]), acts[1..], id);
      assert CancelUnlocked(id) in acts[1..] ==> CancelUnlocked(id) in acts;
    }
  }

  lemma WhoTakes(w: World, act: Act, id: SessionId)
    requires Inv(w) && Can(w, act) && Taken(Next(w, act), id) && !Taken(w, id)
    ensures id in TakenBy(w, act)
  {
  }

  /** What flags a session, or takes it, while its finish is at work, is a canceller before the finish clears it. */
  lemma {:induction false} FinishingRun(w: World, acts: seq<Act>, id: SessionId)
    requires Inv(w) && Possible(w, acts) && id in w.finishers
    ensures FlaggedIn(w, acts, id) ==> TakenBeforeClear(w, acts, id) || CancelUnlocked(id) in acts
    ensures Taken(End(w, acts), id) && !Taken(w, id) ==> TakenBeforeClear(w, acts, id)
    decreases |acts|
  {
    if acts != [] {
      NextKeepsInv(w, acts[0]);
      if acts[0] == Clear(id) {
        ClearTakesOffHome(w, id);
        ClearedRun(w, acts, id);
      } else {
        if !CancelledIn(w, id) && CancelledIn(Next(w, acts[0]), id) {
          WhoFlags(w, acts[0], id);
        }
        if !Taken(w, id) && Taken(Next(w, acts[0]), id) {
          WhoTakes(w, acts[0], id);
        }
        FinishingRun(Next(w, acts[0]), acts[1..], id);
        assert CancelUnlocked(id) in acts[1..] ==> CancelUnlocked(id) in acts;
      }
    }
  }

  lemma ClearedRun(w: World, acts: seq<Act>, id: SessionId)
    requires Inv(w) && Possible(w, acts) && id in w.finishers && acts != [] && acts[0] == Clear(id)
    ensures FlaggedIn(w, acts, id) ==> CancelUnlocked(id) in acts
    ensures Taken(End(w, acts), id) ==> Taken(w, id)
  {
    NextKeepsInv(w, acts[0]);
    ClearTakesOffHome(w, id);
    if !CancelledIn(w, id) && CancelledIn(Next(w, acts[0]), id) {
      WhoFlags(w, acts[0], id);
    }
    OffHomeRun(Next(w, acts[0]), acts[1..], id);
    assert CancelUnlocked(id) in acts[1..] ==> CancelUnlocked(id) in acts;
  }

  lemma {:induction false} TakenWasLive(w: World, acts: seq<Act>, id: SessionId)
    requires Inv(w) && Possible(w, acts) && TakenBeforeClear(w, acts, id)
    ensures id in w.reg.sessions ==> !CancelledIn(w, id)
    decreases |acts|
  {
    if id in TakenBy(w, acts[0]) {
      TakenAtHome(w, acts[0], id);
    } else {
      NextKeepsInv(w, acts[0]);
      TakenWasLive(Next(w, acts[0]), acts[1..], id);
      if id in w.reg.sessions {
        FlagStays(w, acts[0], id);
      }
    }
  }

  /** The finish of a session has just read its flag, and the run goes on. */
  ghost predicate ReadThen(before: seq<Act>, id: SessionId, after: seq<Act>) {
    && Possible(START, before) && Can(End(START, before), ReadCancelled(id))
    && Possible(Next(End(START, before), ReadCancelled(id)), after)
  }

  function JustRead(before: seq<Act>, id: SessionId): World
    requires Possible(START, before) && Can(End(START, before), ReadCancelled(id))
  {
    Next(End(START, before), ReadCancelled(id))
  }

  lemma ReadThenKeeps(before: seq<Act>, id: SessionId, after: seq<Act>)
    requires ReadThen(before, id, after)
    ensures var w := JustRead(before, id);
            && Inv(w) && id in w.finishers && id in w.reg.sessions
            && (FinishIs(End(w, after), id, GOING_ON) <==> !CancelledIn(w, id))
  {
    var w := JustRead(before, id);
    RunKeepsInv(START, before);
    NextKeepsInv(End(START, before), ReadCancelled(id));
    ReadTells(End(START, before), id);
    ReadDecidesPc(w, after, id, false);
    NoSecondRead(w, after, id);
  }

  lemma ReadTells(w: World, id: SessionId)
    requires Can(w, ReadCancelled(id))
    ensures var next := Next(w, ReadCancelled(id));
            && next.reg == w.reg && FinishIs(next, id, AFTER_READ)
            && (FinishIs(next, id, GOING_ON) <==> !CancelledIn(next, id))
  {
  }

  lemma {:induction false} NoSecondRead(w: World, acts: seq<Act>, id: SessionId)
    requires Possible(w, acts) && FinishIs(w, id, AFTER_READ)
    ensures forall cancelled :: !ReadIn(w, acts, id, cancelled)
    decreases |acts|
  {
    if acts != [] {
      NoSecondRead(Next(w, acts[0]), acts[1..], id);
    }
  }

  /**
   The finish of a session that has been cancelled goes on to pop, and perhaps decide, if and only if the flag was set
   after the finish had read it: by a canceller that got in before the finish cleared the session, or by one that does
   not take the lock.
   */
  lemma CancelledFinishGoesOnExactly(before: seq<Act>, id: SessionId, after: seq<Act>)
    requires ReadThen(before, id, after) && CancelledIn(End(JustRead(before, id), after), id)
    ensures FinishIs(End(JustRead(before, id), after), id, GOING_ON) <==> FlaggedIn(JustRead(before, id), after, id)
    ensures FlaggedIn(JustRead(before, id), after, id) ==>
              TakenBeforeClear(JustRead(before, id), after, id) || CancelUnlocked(id) in after
  {
    ReadThenKeeps(before, id, after);
    FlaggedExactly(JustRead(before, id), after, id);
    FinishingRun(JustRead(before, id), after, id);
  }

  /**
   The finish of a session that a canceller took goes on exactly if that happened between the finish's reading the flag
   and its clearing the session.
   */
  lemma DisplacedFinishGoesOnExactly(before: seq<Act>, id: SessionId, after: seq<Act>)
    requires ReadThen(before, id, after) && Taken(End(JustRead(before, id), after), id)
    ensures FinishIs(End(JustRead(before, id), after), id, GOING_ON)
       <==> TakenBeforeClear(JustRead(before, id), after, id)
  {
    var w := JustRead(before, id);
    ReadThenKeeps(before, id, after);
    FinishingRun(w, after, id);
    assert OneOwner(w, id);
    if TakenBeforeClear(w, after, id) {
      TakenWasLive(w, after, id);
    }
  }

  lemma ActingGoesOn(w: World, id: SessionId)
    requires Can(w, Pop(id)) || Can(w, Decide(id))
    ensures FinishIs(w, id, GOING_ON)
  {
  }

  /** So a finish pops, or decides, for a cancelled session exactly if the flag was set since the finish read it. */
  lemma ActsForCancelledExactly(before: seq<Act>, id: SessionId, after: seq<Act>)
    requires ReadThen(before, id, after)
    requires Can(End(JustRead(before, id), after), Pop(id)) || Can(End(JustRead(before, id), after), Decide(id))
    ensures CancelledIn(End(JustRead(before, id), after), id) <==> FlaggedIn(JustRead(before, id), after, id)
  {
    var w := JustRead(before, id);
    ActingGoesOn(End(w, after), id);
    ReadThenKeeps(before, id, after);
    FlaggedExactly(w, after, id);
  }

  lemma ClearTouchesOnlyItsList(w: World, id: SessionId, u: Universe)
    requires Can(w, Clear(id))
    ensures var before, after := StateOf(w.reg, u), StateOf(Next(w, Clear(id)).reg, u);
            && after.queue == before.queue && after.playlist == before.playlist
            && after.shouldResume == before.shouldResume && after.status == before.status
            && (u != w.home[id] ==> after.active == before.active)
  {
    assert StepsOf(w, Clear(id)) == [ClearSession(w.home[id], id)];
  }

  lemma SkippedFinishNeverActs(before: seq<Act>, id: SessionId, after: seq<Act>)
    requires ReadThen(before, id, after) && CancelledIn(End(START, before), id)
    ensures Pops(after, id) == 0 && Decisions(after, id) == 0
  {
    ReadsCancelled(End(START, before), id);
    FinishActsAtMostOnce(JustRead(before, id), after, id);
  }

  lemma ReadsCancelled(w: World, id: SessionId)
    requires Can(w, ReadCancelled(id)) && CancelledIn(w, id)
    ensures FinishIs(Next(w, ReadCancelled(id)), id, NO_POP) && FinishIs(Next(w, ReadCancelled(id)), id, NO_DECISION)
  {
  }

  /**
   A finish that reads its session as cancelled pops nothing and decides nothing, whatever runs in between; its one
   section, which clears the session, leaves every queue and playlist alone.
   */
  lemma SkippedFinishLeavesAllAlone(before: seq<Act>, id: SessionId, after: seq<Act>, k: nat, u: Universe)
    requires ReadThen(before, id, after) && CancelledIn(End(START, before), id)
    ensures Pops(after, id) == 0 && Decisions(after, id) == 0
    ensures k < |after| && after[k] == Clear(id) ==>
              && Possible(JustRead(before, id), after[..k]) && Can(End(JustRead(before, id), after[..k]), Clear(id))
              && var w := End(JustRead(before, id), after[..k]);
                 && StateOf(Next(w, Clear(id)).reg, u).queue == StateOf(w.reg, u).queue
                 && StateOf(Next(w, Clear(id)).reg, u).playlist == StateOf(w.reg, u).playlist
  {
    var w := JustRead(before, id);
    SkippedFinishNeverActs(before, id, after);
    if k < |after| && after[k] == Clear(id) {
      assert after == after[..k] + after[k..];
      PrefixIsPossible(w, after, k);
      RunJoins(w, after[..k], after[k..]);
      assert after[k..][0] == Clear(id);
      ClearTouchesOnlyItsList(End(w, after[..k]), id, u);
    }
  }

  lemma {:induction false} PrefixIsPossible(w: World, acts: seq<Act>, k: nat)
    requires Possible(w, acts) && k <= |acts|
    ensures Possible(w, acts[..k])
    decreases k
  {
    if k > 0 {
      PrefixIsPossible(Next(w, acts[0]), acts[1..], k - 1);
      assert acts[..k][0] == acts[0] && acts[..k][1..] == acts[1..][..k - 1];
    }
  }
}
