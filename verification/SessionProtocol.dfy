/**
 Loaders, cancellers and playback runners interleaved over the registry. A session's life ends in one of three ways:
 a canceller takes it off the list and owes it a teardown runner, its failing loader takes it off and stops the
 transport itself, or its own runner clears it when playback is over. One party cancels without the manager's lock: the
 start of a playlist sets the flag of the session it found current, and takes nothing off the list.
 */
module SessionProtocol {
  import opened PlaybackSessions
  import opened SessionRegistry
  import opened SessionRuns

  // The thread that starts a session: with sound over RTP it loads first, otherwise it goes straight to Starting.
  datatype LoaderPc =
    | Starting            // about to schedule the first runner, without a load
    | Loading             // the load job is queued or running
    | Publishing          // saw the session uncancelled; about to schedule the first runner
    | Published           // the first runner is scheduled; the event loop owns the session
    | Dropped             // saw the session cancelled and gave up
    | FailFlagged         // failing: the cancelled flag is set
    | FailMarked          // failing: the notified flag is set too
    | Won                 // failing: removed the session itself
    | TransportStopped    // failing: and stopped its transport
    | Lost                // failing: someone else had removed the session

  // The runner that claimed a session's completion.
  datatype FinishPc =
    | TearingDown
    | Reading                         // about to read the cancelled flag, once
    | Clearing(wasCancelled: bool)    // about to take the session off its list
    | Skipped                         // the session was read as cancelled: nothing more to do
    | Popping                         // about to pop the queue
    | Continued                       // the pop found an animation, which is scheduled next
    | Checking                        // the pop found nothing; about to look for an interrupted playlist
    | Deciding                        // saw one; about to consume the resume decision
    | Finished

  datatype World = World(
    reg: Registry,
    home: map<SessionId, Universe>,
    owed: set<SessionId>,
    torn: set<SessionId>,
    loaders: map<SessionId, LoaderPc>,
    finishers: map<SessionId, FinishPc>)

  const START := World(EMPTY, map[], {}, {}, map[], map[])

  datatype Act =
    | Register(u: Universe, id: SessionId, session: Session, whole: bool, loads: bool)
    | Cancel(u: Universe, filter: Filter)
    | StopList(u: Universe)
    | CancelUnlocked(id: SessionId)
    | Notify(id: SessionId)
    | Start(id: SessionId)
    | CheckLoaded(id: SessionId)
    | Publish(id: SessionId)
    | GiveUp(id: SessionId)
    | Fail(id: SessionId)
    | MarkFailed(id: SessionId)
    | Abort(id: SessionId)
    | StopTransport(id: SessionId)
    | RunnerFails(id: SessionId)
    | Claim(id: SessionId)
    | TearDown(id: SessionId)
    | ReadCancelled(id: SessionId)
    | Clear(id: SessionId)
    | Pop(id: SessionId)
    | Check(id: SessionId)
    | Decide(id: SessionId)
    | Other(step: Step)

  /** The sections other threads may run at any time. Only a session's finish pops the queue or consumes a decision. */
  predicate IsOther(step: Step) {
    || step.MarkInterrupt? || step.RollBackInterrupt? || step.ResumePlaylist?
    || step.StartPlaylist? || step.SetStatus? || step.ClearPlaylist?
    || step.Enqueue? || step.ClearQueue?
  }

  predicate LoaderAt(w: World, id: SessionId, pc: LoaderPc) {
    id in w.loaders && w.loaders[id] == pc && id in w.reg.sessions && id in w.home
  }

  predicate FinisherAt(w: World, id: SessionId, pc: FinishPc) {
    id in w.finishers && w.finishers[id] == pc && id in w.reg.sessions && id in w.home
  }

  predicate CancelledIn(w: World, id: SessionId) {
    id in w.reg.sessions && w.reg.sessions[id].cancelled
  }

  /** A finish that has not run to its end. The event loop is one thread: it runs nothing else meanwhile. */
  predicate UnderWay(pc: FinishPc) {
    !pc.Skipped? && !pc.Continued? && !pc.Finished?
  }

  predicate LoopIdle(w: World) {
    forall id | id in w.finishers :: !UnderWay(w.finishers[id])
  }

  /**
   Every session is the current one of its universe when it is adopted, so a thread that is about to cancel without the
   lock may have found any session, at any time since.
   */
  predicate Can(w: World, act: Act) {
    match act
    case Register(u, id, session, whole, _) => Enabled(w.reg, Adopt(u, id, session, whole))
    case Cancel(_, _) => true
    case StopList(_) => true
    case CancelUnlocked(id) => id in w.reg.sessions
    case Notify(id) => id in w.owed
    case Start(id) => LoaderAt(w, id, Starting)
    case CheckLoaded(id) => LoaderAt(w, id, Loading)
    case Publish(id) => LoaderAt(w, id, Publishing)
    case GiveUp(id) => (LoaderAt(w, id, Loading) || LoaderAt(w, id, Publishing)) && CancelledIn(w, id)
    case Fail(id) => LoaderAt(w, id, Loading) || LoaderAt(w, id, Publishing)
    case MarkFailed(id) => LoaderAt(w, id, FailFlagged)
    case Abort(id) => LoaderAt(w, id, FailMarked)
    case StopTransport(id) => LoaderAt(w, id, Won)
    case RunnerFails(id) => LoaderAt(w, id, Published) && id !in w.finishers && LoopIdle(w)
    case Claim(id) => (LoaderAt(w, id, Published) || id in w.torn) && id !in w.finishers && LoopIdle(w)
    case TearDown(id) => FinisherAt(w, id, TearingDown)
    case ReadCancelled(id) => FinisherAt(w, id, Reading)
    case Clear(id) => id in w.finishers && w.finishers[id].Clearing? && id in w.home
    case Pop(id) => FinisherAt(w, id, Popping)
    case Check(id) => FinisherAt(w, id, Checking)
    case Decide(id) => FinisherAt(w, id, Deciding)
    case Other(step) => IsOther(step)
  }

  /** The registry step an act performs; most acts of loaders and runners perform none. */
  function StepsOf(w: World, act: Act): (steps: seq<Step>)
    requires Can(w, act)
  {
    match act
    case Register(u, id, session, whole, _) => [Adopt(u, id, session, whole)]
    case Cancel(u, filter) => [CancelMatching(u, filter)]
    case StopList(u) => [StopPlaylist(u)]
    case CancelUnlocked(id) => [SetCancelled(id)]
    case Fail(id) => [SetCancelled(id)]
    case MarkFailed(id) => [SetNotified(id)]
    case Abort(id) => [AbortLoading(w.home[id], id)]
    case RunnerFails(id) => [SetCancelled(id)]
    case Clear(id) => [ClearSession(w.home[id], id)]
    case Pop(id) => [Dequeue(w.home[id])]
    case Decide(id) => [ConsumeResume(w.home[id])]
    case Other(step) => [step]
    case _ => []
  }

  /** The sessions an act takes off a list as a canceller, and therefore owes a teardown. */
  function TakenBy(w: World, act: Act): set<SessionId> {
    match act
    case Register(u, _, session, whole, _) => Targets(w.reg, u, AdoptFilter(session, whole))
    case Cancel(u, filter) => Targets(w.reg, u, filter)
    case StopList(u) =>
      if StateOf(w.reg, u).playlist == Active || StateOf(w.reg, u).playlist == Interrupted
      then Targets(w.reg, u, OfPlaylist) else {}
    case _ => {}
  }

  function NextLoaders(w: World, act: Act): map<SessionId, LoaderPc>
    requires Can(w, act)
  {
    match act
    case Register(_, id, _, _, loads) => w.loaders[id := if loads then Loading else Starting]
    case Start(id) => w.loaders[id := Published]
    case CheckLoaded(id) => w.loaders[id := if CancelledIn(w, id) then Dropped else Publishing]
    case Publish(id) => w.loaders[id := Published]
    case GiveUp(id) => w.loaders[id := Dropped]
    case Fail(id) => w.loaders[id := FailFlagged]
    case MarkFailed(id) => w.loaders[id := FailMarked]
    case Abort(id) => w.loaders[id := if Registered(w.reg, w.home[id], id) then Won else Lost]
    case StopTransport(id) => w.loaders[id := TransportStopped]
    case _ => w.loaders
  }

  function NextFinishers(w: World, act: Act): map<SessionId, FinishPc>
    requires Can(w, act)
  {
    match act
    case RunnerFails(id) => w.finishers[id := TearingDown]
    case Claim(id) => w.finishers[id := TearingDown]
    case TearDown(id) => w.finishers[id := Reading]
    case ReadCancelled(id) => w.finishers[id := Clearing(CancelledIn(w, id))]
    case Clear(id) => w.finishers[id := if w.finishers[id].wasCancelled then Skipped else Popping]
    case Pop(id) => w.finishers[id := if StateOf(w.reg, w.home[id]).queue == [] then Checking else Continued]
    case Check(id) =>
      w.finishers[id := if StateOf(w.reg, w.home[id]).playlist == Interrupted then Deciding else Finished]
    case Decide(id) => w.finishers[id := Finished]
    case _ => w.finishers
  }

  function NextHome(w: World, act: Act): map<SessionId, Universe> {
    if act.Register? then w.home[act.id := act.u] else w.home
  }

  function NextReg(w: World, act: Act): Registry
    requires Can(w, act)
  {
    var steps := StepsOf(w, act);
    if steps == [] then w.reg else Apply(w.reg, steps[0])
  }

  /** The state after an act that left the registry as given. */
  function Advance(w: World, act: Act, reg: Registry): World
    requires Can(w, act)
  {
    World(
      reg,
      NextHome(w, act),
      (w.owed + TakenBy(w, act)) - (if act.Notify? then {act.id} else {}),
      w.torn + (if act.Notify? then {act.id} else {}),
      NextLoaders(w, act),
      NextFinishers(w, act))
  }

  function Next(w: World, act: Act): World
    requires Can(w, act)
  {
    Advance(w, act, NextReg(w, act))
  }

  predicate Possible(w: World, acts: seq<Act>)
    decreases |acts|
  {
    acts == [] || (Can(w, acts[0]) && Possible(Next(w, acts[0]), acts[1..]))
  }

  function End(w: World, acts: seq<Act>): World
    requires Possible(w, acts)
    decreases |acts|
  {
    if acts == [] then w else End(Next(w, acts[0]), acts[1..])
  }

  // ----- Every run of the protocol is a run of the registry -----

  function TraceOf(w: World, acts: seq<Act>): seq<Step>
    requires Possible(w, acts)
    decreases |acts|
  {
    if acts == [] then [] else StepsOf(w, acts[0]) + TraceOf(Next(w, acts[0]), acts[1..])
  }

  /** So the theorems about registry runs hold of everything the processes can do together. */
  lemma {:induction false} ProtocolRunsAreRegistryRuns(w: World, acts: seq<Act>)
    requires Possible(w, acts)
    ensures Runs(w.reg, TraceOf(w, acts)) && After(w.reg, TraceOf(w, acts)) == End(w, acts).reg
    decreases |acts|
  {
    if acts != [] {
      var steps, rest := StepsOf(w, acts[0]), TraceOf(Next(w, acts[0]), acts[1..]);
      ProtocolRunsAreRegistryRuns(Next(w, acts[0]), acts[1..]);
      if steps == [] {
        assert steps + rest == rest;
      } else {
        assert (steps + rest)[0] == steps[0] && (steps + rest)[1..] == rest;
      }
    }
  }

  // ----- The invariant -----

  predicate AtHome(w: World, id: SessionId) {
    id in w.home && Registered(w.reg, w.home[id], id)
  }

  /** A canceller took the session: its teardown runner is scheduled or about to be. */
  predicate Taken(w: World, id: SessionId) {
    id in w.owed || id in w.torn
  }

  predicate RemovedByLoader(pc: LoaderPc) {
    pc == Won || pc == TransportStopped
  }

  predicate BeforeClear(pc: FinishPc) {
    pc.TearingDown? || pc.Reading? || pc.Clearing?
  }

  ghost predicate Consistent(w: World) {
    && Sound(w.reg)
    && w.home.Keys == w.reg.sessions.Keys
    && w.loaders.Keys == w.reg.sessions.Keys
    && (forall u, id | Registered(w.reg, u, id) :: id in w.home && w.home[id] == u)
  }

  ghost predicate OneOwner(w: World, id: SessionId) {
    id in w.loaders && (
      var pc := w.loaders[id];
      && (AtHome(w, id) ==> !Taken(w, id) && !RemovedByLoader(pc) && pc != Lost)
      && (Taken(w, id) ==> CancelledIn(w, id) && !RemovedByLoader(pc))
      && (!AtHome(w, id) ==> Taken(w, id) || RemovedByLoader(pc) || (pc == Published && id in w.finishers))
      && (pc == Lost ==> Taken(w, id))
      && (pc == Dropped ==> CancelledIn(w, id))
      && (id in w.finishers ==> pc == Published || id in w.torn)
      && (AtHome(w, id) && id in w.finishers ==> BeforeClear(w.finishers[id]))
    )
  }

  ghost predicate Inv(w: World) {
    && Consistent(w)
    && (forall id | id in w.home :: OneOwner(w, id))
    && (forall id | Taken(w, id) :: id in w.home)
    && w.owed !! w.torn
    && (forall id | id in w.finishers :: id in w.home)
  }

  /** The sessions whose flag an act sets while they stay on their list. */
  function FlaggedBy(act: Act): set<SessionId> {
    if act.Fail? || act.RunnerFails? || act.CancelUnlocked? then {act.id} else {}
  }

  /** What an act does to the registration and the cancelled flag of one known session. */
  ghost predicate EffectOn(w: World, act: Act, reg: Registry, u: Universe, id: SessionId)
    requires id in w.reg.sessions
  {
    && id in reg.sessions
    && (Registered(reg, u, id) <==>
        Registered(w.reg, u, id) && id !in TakenBy(w, act) && act != Abort(id) && act != Clear(id))
    && (reg.sessions[id].cancelled <==>
        w.reg.sessions[id].cancelled || id in TakenBy(w, act) || id in FlaggedBy(act))
  }

  /** What an act does to a session not known before: nothing, unless it registers it. */
  predicate EffectOnStranger(act: Act, reg: Registry, u: Universe, id: SessionId) {
    && (Registered(reg, u, id) <==> act.Register? && act.u == u && act.id == id)
    && (id in reg.sessions <==> act.Register? && act.id == id)
  }

  ghost predicate Effects(w: World, act: Act, reg: Registry) {
    && (forall u, id | id in w.reg.sessions :: EffectOn(w, act, reg, u, id))
    && (forall u, id | id !in w.reg.sessions :: EffectOnStranger(act, reg, u, id))
  }

  /** A canceller works on one universe, and what it takes has its home there. */
  lemma TakenAtHome(w: World, act: Act, id: SessionId)
    requires Consistent(w) && Can(w, act) && id in TakenBy(w, act)
    ensures act.Register? || act.Cancel? || act.StopList?
    ensures id in w.home && w.home[id] == act.u
    ensures AtHome(w, id) && !CancelledIn(w, id)
  {
    assert Registered(w.reg, act.u, id);
  }

  lemma StepCancelsTaken(w: World, act: Act, step: Step)
    requires Can(w, act) && StepsOf(w, act) == [step]
    ensures CancelledBy(w.reg, step) == TakenBy(w, act) + FlaggedBy(act)
  {
  }

  lemma StepRemovesTaken(w: World, act: Act, step: Step, id: SessionId)
    requires Consistent(w) && Can(w, act) && StepsOf(w, act) == [step] && id in w.home
    ensures id in RemovedBy(w.reg, step, w.home[id]) <==>
            id in TakenBy(w, act) || act == Abort(id) || act == Clear(id)
  {
    StepCancelsTaken(w, act, step);
    if id in TakenBy(w, act) {
      TakenAtHome(w, act, id);
    }
  }

  lemma OutcomeIsEffect(w: World, act: Act, step: Step, reg: Registry, u: Universe, id: SessionId)
    requires Consistent(w) && Can(w, act) && StepsOf(w, act) == [step]
    requires id in w.reg.sessions && OnMember(w.reg, step, reg, u, id)
    ensures EffectOn(w, act, reg, u, id)
  {
    StepCancelsTaken(w, act, step);
    StepRemovesTaken(w, act, step, id);
    assert Registered(w.reg, u, id) ==> w.home[id] == u;
  }

  lemma StepIsEffect(w: World, act: Act, step: Step, reg: Registry)
    requires Consistent(w) && Can(w, act) && StepsOf(w, act) == [step]
    requires Outcome(w.reg, step, reg)
    ensures Effects(w, act, reg)
  {
    forall u, id | id in w.reg.sessions ensures EffectOn(w, act, reg, u, id) {
      OutcomeIsEffect(w, act, step, reg, u, id);
    }
    forall u, id | id !in w.reg.sessions ensures EffectOnStranger(act, reg, u, id) {
      assert OnStranger(step, reg, u, id);
    }
  }

  lemma NoStepTakesNobody(w: World, act: Act)
    requires Can(w, act) && StepsOf(w, act) == []
    ensures TakenBy(w, act) == {} && FlaggedBy(act) == {} && !act.Register? && !act.Abort? && !act.Clear?
  {
  }

  lemma RegisteredIsKnown(g: Registry, u: Universe, id: SessionId)
    requires Sound(g) && Registered(g, u, id)
    ensures id in g.sessions
  {
    assert u in g.universes && InOrder(g.sessions, g.universes[u].active);
  }

  lemma NoStepIsEffect(w: World, act: Act)
    requires Consistent(w) && Can(w, act) && StepsOf(w, act) == []
    ensures Effects(w, act, w.reg)
  {
    NoStepTakesNobody(w, act);
    forall u, id | id !in w.reg.sessions ensures EffectOnStranger(act, w.reg, u, id) {
      if Registered(w.reg, u, id) {
        RegisteredIsKnown(w.reg, u, id);
      }
    }
  }

  lemma NextHasEffects(w: World, act: Act, reg: Registry)
    requires Consistent(w) && Can(w, act) && reg == NextReg(w, act)
    ensures Sound(reg) && Effects(w, act, reg)
  {
    if StepsOf(w, act) == [] {
      NoStepIsEffect(w, act);
    } else {
      var step := StepsOf(w, act)[0];
      StepKeepsSound(w.reg, step);
      StepOutcome(w.reg, step, reg);
      StepIsEffect(w, act, step, reg);
    }
  }

  /** The session an act is about, unless it is a section of the whole universe. */
  function Subject(act: Act): set<SessionId> {
    if act.Register? || act.Cancel? || act.StopList? || act.Other? then {} else {act.id}
  }

  lemma BystanderKeepsOneOwner(w: World, act: Act, reg: Registry, id: SessionId)
    requires Can(w, act) && id !in Subject(act) && (act.Register? ==> act.id != id)
    requires id in w.home && id in w.reg.sessions && OneOwner(w, id)
    requires EffectOn(w, act, reg, w.home[id], id)
    requires id in TakenBy(w, act) ==> AtHome(w, id)
    ensures OneOwner(Advance(w, act, reg), id)
  {
    assert NextLoaders(w, act)[id] == w.loaders[id];
    assert id in NextFinishers(w, act) <==> id in w.finishers;
  }

  lemma SubjectKeepsOneOwner(w: World, act: Act, reg: Registry, id: SessionId)
    requires Can(w, act) && id in Subject(act)
    requires id in w.home && id in w.reg.sessions && OneOwner(w, id)
    requires EffectOn(w, act, reg, w.home[id], id)
    ensures OneOwner(Advance(w, act, reg), id)
  {
    assert TakenBy(w, act) == {};
  }

  lemma NewcomerHasOneOwner(w: World, act: Act, reg: Registry)
    requires Inv(w) && Can(w, act) && act.Register?
    requires EffectOnStranger(act, reg, act.u, act.id)
    ensures OneOwner(Advance(w, act, reg), act.id)
  {
    assert !Taken(w, act.id) && act.id !in w.finishers;
    assert act.id !in TakenBy(w, act);
  }

  lemma AdvanceKeepsHomes(w: World, act: Act, reg: Registry, u: Universe, id: SessionId)
    requires Consistent(w) && Can(w, act) && Effects(w, act, reg) && Registered(reg, u, id)
    ensures id in NextHome(w, act) && NextHome(w, act)[id] == u
  {
    if id in w.reg.sessions {
      assert EffectOn(w, act, reg, u, id);
    } else {
      assert EffectOnStranger(act, reg, u, id);
    }
  }

  lemma AdvanceKnows(w: World, act: Act, reg: Registry, id: SessionId)
    requires Consistent(w) && Can(w, act) && Effects(w, act, reg)
    ensures id in reg.sessions <==> id in w.reg.sessions || (act.Register? && act.id == id)
  {
    if id in w.reg.sessions {
      assert EffectOn(w, act, reg, 0, id);
    } else {
      assert EffectOnStranger(act, reg, 0, id);
    }
  }

  lemma LoadersKnown(w: World, act: Act, id: SessionId)
    requires Can(w, act) && w.loaders.Keys == w.reg.sessions.Keys
    ensures id in NextLoaders(w, act) <==> id in w.loaders || (act.Register? && act.id == id)
  {
  }

  lemma AdvanceKeepsKnown(w: World, act: Act, reg: Registry, id: SessionId)
    requires Consistent(w) && Can(w, act) && Effects(w, act, reg)
    ensures id in reg.sessions <==> id in NextHome(w, act)
    ensures id in reg.sessions <==> id in NextLoaders(w, act)
  {
    AdvanceKnows(w, act, reg, id);
    LoadersKnown(w, act, id);
  }

  lemma AdvanceIsConsistent(w: World, act: Act, reg: Registry)
    requires Consistent(w) && Can(w, act) && Sound(reg) && Effects(w, act, reg)
    ensures Consistent(Advance(w, act, reg))
  {
    var next := Advance(w, act, reg);
    forall u, id | Registered(reg, u, id) ensures id in next.home && next.home[id] == u {
      AdvanceKeepsHomes(w, act, reg, u, id);
    }
    forall id
      ensures id in reg.sessions <==> id in next.home
      ensures id in reg.sessions <==> id in next.loaders
    {
      AdvanceKeepsKnown(w, act, reg, id);
    }
  }

  lemma AdvanceKeepsOneOwner(w: World, act: Act, reg: Registry, id: SessionId)
    requires Inv(w) && Can(w, act) && Effects(w, act, reg) && id in NextHome(w, act)
    ensures OneOwner(Advance(w, act, reg), id)
  {
    if act.Register? && act.id == id {
      assert EffectOnStranger(act, reg, act.u, id);
      NewcomerHasOneOwner(w, act, reg);
    } else {
      assert EffectOn(w, act, reg, w.home[id], id);
      if id in Subject(act) {
        SubjectKeepsOneOwner(w, act, reg, id);
      } else {
        if id in TakenBy(w, act) {
          TakenAtHome(w, act, id);
        }
        BystanderKeepsOneOwner(w, act, reg, id);
      }
    }
  }

  lemma AdvanceKeepsInv(w: World, act: Act, reg: Registry)
    requires Inv(w) && Can(w, act) && Sound(reg) && Effects(w, act, reg)
    ensures Inv(Advance(w, act, reg))
  {
    var next := Advance(w, act, reg);
    AdvanceIsConsistent(w, act, reg);
    forall id | id in TakenBy(w, act) ensures AtHome(w, id) && id !in w.torn {
      TakenAtHome(w, act, id);
      assert OneOwner(w, id);
    }
    forall id | id in next.home ensures OneOwner(next, id) {
      AdvanceKeepsOneOwner(w, act, reg, id);
    }
  }

  lemma NextKeepsInv(w: World, act: Act)
    requires Inv(w) && Can(w, act)
    ensures Inv(Next(w, act))
  {
    NextHasEffects(w, act, NextReg(w, act));
    AdvanceKeepsInv(w, act, NextReg(w, act));
  }

  lemma {:induction false} RunKeepsInv(w: World, acts: seq<Act>)
    requires Inv(w) && Possible(w, acts)
    ensures Inv(End(w, acts))
    decreases |acts|
  {
    if acts != [] {
      NextKeepsInv(w, acts[0]);
      RunKeepsInv(Next(w, acts[0]), acts[1..]);
    }
  }

  // ----- Who stops the transport of a session that failed to load -----

  predicate FailureOver(pc: LoaderPc) {
    pc == Won || pc == TransportStopped || pc == Lost
  }

  /**
   Once a failing loader's abort is over, exactly one party has taken over the session's transport: the loader, if it
   removed the session, or the teardown runner of the canceller that removed it first. When it is the loader, no runner
   of the event loop ever works for the session.
   */
  lemma ExactlyOnePartyStopsTheTransport(acts: seq<Act>, id: SessionId)
    requires Possible(START, acts) && id in End(START, acts).loaders
    requires FailureOver(End(START, acts).loaders[id])
    ensures RemovedByLoader(End(START, acts).loaders[id]) <==> !Taken(End(START, acts), id)
    ensures RemovedByLoader(End(START, acts).loaders[id]) ==> id !in End(START, acts).finishers
  {
    RunKeepsInv(START, acts);
    assert OneOwner(End(START, acts), id);
  }

  lemma AbortOf(w: World, id: SessionId)
    requires Can(w, Abort(id))
    ensures Next(w, Abort(id)).loaders[id] == if AtHome(w, id) then Won else Lost
    ensures !AtHome(w, id) ==> Next(w, Abort(id)).reg == w.reg
    ensures StateOf(Next(w, Abort(id)).reg, w.home[id]).queue
            == if AtHome(w, id) then [] else StateOf(w.reg, w.home[id]).queue
    ensures StateOf(Next(w, Abort(id)).reg, w.home[id]).playlist
            == if AtHome(w, id) && w.reg.sessions[id].reason == Playlist then NoPlaylist
               else StateOf(w.reg, w.home[id]).playlist
  {
    assert StepsOf(w, Abort(id)) == [AbortLoading(w.home[id], id)];
  }

  /** A loader that lost changes nothing: no registration, no queue, no playlist. */
  lemma LosingAbortChangesNothing(acts: seq<Act>, id: SessionId)
    requires Possible(START, acts) && Can(End(START, acts), Abort(id))
    ensures Taken(End(START, acts), id) <==> Next(End(START, acts), Abort(id)).loaders[id] == Lost
    ensures Taken(End(START, acts), id) ==> Next(End(START, acts), Abort(id)).reg == End(START, acts).reg
  {
    RunKeepsInv(START, acts);
    LosingAbort(End(START, acts), id);
  }

  lemma LosingAbort(w: World, id: SessionId)
    requires Inv(w) && Can(w, Abort(id))
    ensures Taken(w, id) <==> Next(w, Abort(id)).loaders[id] == Lost
    ensures Taken(w, id) ==> Next(w, Abort(id)).reg == w.reg
  {
    assert OneOwner(w, id);
    AbortOf(w, id);
  }

  // ----- What never changes back -----

  lemma {:induction false} NeverRegisteredAgain(w: World, acts: seq<Act>, id: SessionId)
    requires Inv(w) && Possible(w, acts) && id in w.home && !AtHome(w, id)
    ensures !AtHome(End(w, acts), id)
  {
    ProtocolRunsAreRegistryRuns(w, acts);
    RunAges(w.reg, TraceOf(w, acts), id);
    RunKeepsInv(w, acts);
    HomeIsForEver(w, acts, id);
  }

  lemma {:induction false} HomeIsForEver(w: World, acts: seq<Act>, id: SessionId)
    requires Inv(w) && Possible(w, acts) && id in w.home
    ensures id in End(w, acts).home && End(w, acts).home[id] == w.home[id]
    decreases |acts|
  {
    if acts != [] {
      NextKeepsInv(w, acts[0]);
      HomeIsForEver(Next(w, acts[0]), acts[1..], id);
    }
  }

  lemma ActAges(w: World, act: Act, id: SessionId)
    requires Can(w, act) && id in w.reg.sessions
    ensures Ages(w.reg, Next(w, act).reg, id)
  {
    if StepsOf(w, act) != [] {
      StepAges(w.reg, StepsOf(w, act)[0], id);
    }
  }

  lemma {:induction false} CancelledIsForEver(w: World, acts: seq<Act>, id: SessionId)
    requires Possible(w, acts) && CancelledIn(w, id)
    ensures CancelledIn(End(w, acts), id)
    decreases |acts|
  {
    if acts != [] {
      ActAges(w, acts[0], id);
      CancelledIsForEver(Next(w, acts[0]), acts[1..], id);
    }
  }

  lemma {:induction false} ReasonIsForEver(w: World, acts: seq<Act>, id: SessionId)
    requires Possible(w, acts) && id in w.reg.sessions
    ensures id in End(w, acts).reg.sessions && End(w, acts).reg.sessions[id].reason == w.reg.sessions[id].reason
    decreases |acts|
  {
    if acts != [] {
      ActAges(w, acts[0], id);
      ReasonIsForEver(Next(w, acts[0]), acts[1..], id);
    }
  }

  // ----- Putting runs together -----

  lemma {:induction false} RunJoins(w: World, acts: seq<Act>, more: seq<Act>)
    requires Possible(w, acts)
    ensures Possible(w, acts + more) <==> Possible(End(w, acts), more)
    ensures Possible(w, acts + more) ==> End(w, acts + more) == End(End(w, acts), more)
    decreases |acts|
  {
    if acts == [] {
      assert acts + more == more;
    } else {
      assert (acts + more)[0] == acts[0] && (acts + more)[1..] == acts[1..] + more;
      RunJoins(Next(w, acts[0]), acts[1..], more);
    }
  }

  lemma OneMore(w: World, acts: seq<Act>, mid: World, act: Act, next: World)
    requires Possible(w, acts) && End(w, acts) == mid && Can(mid, act) && Next(mid, act) == next
    ensures Possible(w, acts + [act]) && End(w, acts + [act]) == next
  {
    assert [act][1..] == [] && Possible(next, []);
    assert Possible(mid, [act]) && End(mid, [act]) == next;
    RunJoins(w, acts, [act]);
  }
}
