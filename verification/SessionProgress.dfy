/**
 What becomes of every session in the end: who tears it down, how many acts its parties have left for that, and the one
 way in which nobody does.
 */
module SessionProgress {
  import opened Wrappers
  import opened PlaybackSessions
  import opened SessionRegistry
  import opened SessionRuns
  import opened SessionProtocol
  import opened LateFailures

  // ----- Loads that were given up -----

  /** Its load was given up, and it is still on its list. */
  predicate Stranded(w: World, id: SessionId) {
    AtHome(w, id) && id in w.loaders && w.loaders[id] == Dropped
  }

  /** At some point of the run the flag is set without the lock, when nobody had set it before. */
  predicate FlaggedUnlocked(w: World, acts: seq<Act>, id: SessionId)
    requires Possible(w, acts)
    decreases |acts|
  {
    acts != [] && (IsFirstFlag(w, acts[0], id) || FlaggedUnlocked(Next(w, acts[0]), acts[1..], id))
  }

  predicate IsFirstFlag(w: World, act: Act, id: SessionId) {
    act == CancelUnlocked(id) && !CancelledIn(w, id)
  }

  /** Cancelled, and not by a canceller that takes it off: none will take it any more. */
  predicate PassedOver(w: World, id: SessionId) {
    CancelledIn(w, id) && !Taken(w, id)
  }

  /** Unless its load failed or its runner started, the session is cancelled only by cancellers that take it off. */
  predicate OnlyTaken(w: World, id: SessionId) {
    id in w.loaders && BeforeStart(w.loaders[id]) ==> !PassedOver(w, id)
  }

  predicate BeforeStart(pc: LoaderPc) {
    pc.Starting? || pc.Loading? || pc.Publishing? || pc.Dropped?
  }

  lemma NewcomerIsLive(w: World, act: Act)
    requires Inv(w) && Can(w, act) && act.Register?
    ensures !CancelledIn(Next(w, act), act.id)
  {
  }

  lemma OnlyTakenStep(w: World, act: Act, id: SessionId)
    requires Inv(w) && Can(w, act) && OnlyTaken(w, id) && !IsFirstFlag(w, act, id)
    ensures OnlyTaken(Next(w, act), id)
  {
    if id in w.reg.sessions {
      var reg := NextReg(w, act);
      NextHasEffects(w, act, reg);
      assert OneOwner(w, id) && EffectOn(w, act, reg, w.home[id], id);
      OnlyTakenEffect(w, act, reg, id);
    } else if act.Register? && act.id == id {
      NewcomerIsLive(w, act);
    } else {
      StrangerStaysStranger(w, act, id);
    }
  }

  lemma OnlyTakenEffect(w: World, act: Act, reg: Registry, id: SessionId)
    requires Can(w, act) && id in w.home && id in w.reg.sessions && id in w.loaders
    requires EffectOn(w, act, reg, w.home[id], id) && OneOwner(w, id) && (act.Register? ==> act.id != id)
    requires OnlyTaken(w, id) && !IsFirstFlag(w, act, id)
    ensures OnlyTaken(Advance(w, act, reg), id)
  {
    LoaderBefore(w, act, id);
    assert Taken(w, id) ==> Taken(Advance(w, act, reg), id);
    assert id in TakenBy(w, act) ==> act.Register? || act.Cancel? || act.StopList?;
  }

  lemma LoaderBefore(w: World, act: Act, id: SessionId)
    requires Can(w, act) && id in w.loaders && (act.Register? ==> act.id != id)
    ensures BeforeStart(NextLoaders(w, act)[id]) ==> BeforeStart(w.loaders[id])
    ensures BeforeStart(NextLoaders(w, act)[id]) ==> act != Fail(id)
    ensures act == RunnerFails(id) ==> !BeforeStart(NextLoaders(w, act)[id])
  {
  }

  lemma StrangerStaysStranger(w: World, act: Act, id: SessionId)
    requires Inv(w) && Can(w, act) && id !in w.loaders && (act.Register? ==> act.id != id)
    ensures id !in NextLoaders(w, act)
  {
  }

  lemma PassedOverStep(w: World, act: Act, id: SessionId)
    requires Inv(w) && Can(w, act)
    requires PassedOver(w, id) || IsFirstFlag(w, act, id)
    ensures PassedOver(Next(w, act), id)
  {
    var reg := NextReg(w, act);
    NextHasEffects(w, act, reg);
    assert OneOwner(w, id) && EffectOn(w, act, reg, w.home[id], id);
    if id in TakenBy(w, act) {
      TakenAtHome(w, act, id);
    }
    PassedOverEffect(w, act, reg, id);
  }

  lemma PassedOverEffect(w: World, act: Act, reg: Registry, id: SessionId)
    requires Can(w, act) && id in w.home && id in w.reg.sessions && EffectOn(w, act, reg, w.home[id], id)
    requires PassedOver(w, id) || (IsFirstFlag(w, act, id) && !Taken(w, id))
    requires id in TakenBy(w, act) ==> !CancelledIn(w, id)
    ensures PassedOver(Advance(w, act, reg), id)
  {
    assert IsFirstFlag(w, act, id) ==> TakenBy(w, act) == {};
  }

  lemma {:induction false} PassedOverRun(w: World, acts: seq<Act>, id: SessionId)
    requires Inv(w) && Possible(w, acts) && PassedOver(w, id)
    ensures PassedOver(End(w, acts), id) && !FlaggedUnlocked(w, acts, id)
    decreases |acts|
  {
    if acts != [] {
      PassedOverStep(w, acts[0], id);
      NextKeepsInv(w, acts[0]);
      PassedOverRun(Next(w, acts[0]), acts[1..], id);
    }
  }

  lemma {:induction false} FlagTells(w: World, acts: seq<Act>, id: SessionId)
    requires Inv(w) && Possible(w, acts) && OnlyTaken(w, id)
    ensures if FlaggedUnlocked(w, acts, id) then PassedOver(End(w, acts), id) else OnlyTaken(End(w, acts), id)
    decreases |acts|
  {
    if acts != [] {
      NextKeepsInv(w, acts[0]);
      if IsFirstFlag(w, acts[0], id) {
        PassedOverStep(w, acts[0], id);
        PassedOverRun(Next(w, acts[0]), acts[1..], id);
      } else {
        OnlyTakenStep(w, acts[0], id);
        FlagTells(Next(w, acts[0]), acts[1..], id);
      }
    }
  }

  /**
   A loader that sees its session cancelled gives up and trusts the canceller to have scheduled a teardown. That is so
   if and only if the flag had not been set without the lock while the session was loading; if it had, the session is
   left on its list.
   */
  lemma DroppedIsOwnedExactly(acts: seq<Act>, id: SessionId)
    requires Possible(START, acts)
    requires id in End(START, acts).loaders && End(START, acts).loaders[id] == Dropped
    ensures Taken(End(START, acts), id) <==> !FlaggedUnlocked(START, acts, id)
    ensures Stranded(End(START, acts), id) <==> FlaggedUnlocked(START, acts, id)
  {
    RunKeepsInv(START, acts);
    FlagTells(START, acts, id);
    assert OneOwner(End(START, acts), id);
  }

  lemma StrandedStep(w: World, act: Act, id: SessionId)
    requires Inv(w) && Can(w, act) && Stranded(w, id)
    ensures Stranded(Next(w, act), id)
  {
    var reg := NextReg(w, act);
    NextHasEffects(w, act, reg);
    assert OneOwner(w, id) && EffectOn(w, act, reg, w.home[id], id);
    if id in TakenBy(w, act) {
      TakenAtHome(w, act, id);
    }
    StrandedEffect(w, act, reg, id);
  }

  lemma StrandedEffect(w: World, act: Act, reg: Registry, id: SessionId)
    requires Can(w, act) && id in w.home && id in w.reg.sessions && OneOwner(w, id) && Stranded(w, id)
    requires EffectOn(w, act, reg, w.home[id], id) && (act.Register? ==> act.id != id)
    requires id !in TakenBy(w, act)
    ensures Stranded(Advance(w, act, reg), id)
  {
    assert NextLoaders(w, act)[id] == Dropped;
  }

  /** Whatever all threads do, a stranded session stays on its list, and nobody ever tears it down. */
  lemma {:induction false} StrandedForEver(w: World, acts: seq<Act>, id: SessionId)
    requires Inv(w) && Possible(w, acts) && Stranded(w, id)
    ensures Stranded(End(w, acts), id) && !Taken(End(w, acts), id) && id !in End(w, acts).finishers
    decreases |acts|
  {
    if acts == [] {
      assert OneOwner(w, id);
    } else {
      StrandedStep(w, acts[0], id);
      NextKeepsInv(w, acts[0]);
      StrandedForEver(Next(w, acts[0]), acts[1..], id);
    }
  }

  // ----- Such a run -----

  /** A session is the current one as soon as it is adopted; whoever looks then may cancel it at any time later. */
  lemma AdoptedIsCurrent(g: Registry, u: Universe, id: SessionId, session: Session, whole: bool)
    requires !session.cancelled
    ensures CurrentSession(Adopted(g, u, id, session, false, whole), u) == Some(id)
  {
    var adopted := Adopted(g, u, id, session, false, whole);
    var active := StateOf(Swept(g, u, AdoptFilter(session, whole)), u).active;
    assert StateOf(adopted, u).active == active + [id];
  }

  function Stranding(s: Session): seq<Act> {
    [Register(0, 1, s, true, true)] + [CancelUnlocked(1)] + [CheckLoaded(1)]
  }

  lemma FlagWhileLoading(s: Session)
    ensures var w := First(s, false, Loading);
            Can(w, CancelUnlocked(1)) && Next(w, CancelUnlocked(1)) == First(s, true, Loading)
  {
  }

  lemma LoaderGivesUp(s: Session)
    ensures var w := First(s, true, Loading);
            Can(w, CheckLoaded(1)) && Next(w, CheckLoaded(1)) == First(s, true, Dropped)
  {
  }

  /**
   The first session of an empty server is loading when a playlist is started on its universe: it is the current one and
   is cancelled without the lock, its loader gives up, and from then on it is stranded, whatever follows.
   */
  lemma PlaylistStartStrandsLoadingSession(s: Session, later: seq<Act>)
    requires !s.cancelled && Possible(START, Stranding(s) + later)
    ensures Possible(START, Stranding(s)) && CurrentSession(End(START, Stranding(s)[..1]).reg, 0) == Some(1)
    ensures Stranded(End(START, Stranding(s) + later), 1) && !Taken(End(START, Stranding(s) + later), 1)
  {
    var acts := [Register(0, 1, s, true, true)];
    assert Possible(START, []) && [] + acts == acts == Stranding(s)[..1];
    FirstRegisters(s);
    OneMore(START, [], START, acts[0], First(s, false, Loading));
    AdoptedIsCurrent(EMPTY, 0, 1, s, true);
    FlagWhileLoading(s);
    OneMore(START, acts, First(s, false, Loading), CancelUnlocked(1), First(s, true, Loading));
    LoaderGivesUp(s);
    OneMore(START, acts + [CancelUnlocked(1)], First(s, true, Loading), CheckLoaded(1), First(s, true, Dropped));
    assert First(s, true, Dropped).reg.universes[0].active[0] == 1;
    RunKeepsInv(START, Stranding(s));
    RunJoins(START, Stranding(s), later);
    StrandedForEver(First(s, true, Dropped), later, 1);
  }

  // ----- The acts a session's parties have left -----

  /** What loaders, runners, finishes and notifying cancellers do for one session each; nothing starts anew. */
  predicate IsParty(act: Act) {
    !act.Register? && !act.Cancel? && !act.StopList? && !act.CancelUnlocked? && !act.Other?
  }

  function LoaderLeft(pc: LoaderPc): (left: nat) {
    match pc
    case Loading => 5
    case Publishing => 4
    case FailFlagged => 3
    case FailMarked => 2
    case Starting => 1
    case Won => 1
    case _ => 0
  }

  function FinishLeft(pc: FinishPc): (left: nat) {
    match pc
    case TearingDown => 6
    case Reading => 5
    case Clearing(_) => 4
    case Popping => 3
    case Checking => 2
    case Deciding => 1
    case _ => 0
  }

  function FinisherLeft(finishers: map<SessionId, FinishPc>, id: SessionId): nat {
    if id in finishers then FinishLeft(finishers[id]) else 7
  }

  function CancellerLeft(owed: set<SessionId>, torn: set<SessionId>, id: SessionId): nat {
    if id in owed then 1 else if id in torn then 0 else 2
  }

  function Left(w: World, id: SessionId): nat
    requires id in w.loaders
  {
    LoaderLeft(w.loaders[id]) + FinisherLeft(w.finishers, id) + CancellerLeft(w.owed, w.torn, id)
  }

  predicate OfLoader(act: Act) {
    act.Start? || act.CheckLoaded? || act.Publish? || act.GiveUp? || act.Fail? || act.MarkFailed? || act.Abort?
    || act.StopTransport?
  }

  lemma PartyOfLoader(w: World, act: Act)
    requires Can(w, act) && IsParty(act) && act.id in w.loaders
    ensures act.id in NextLoaders(w, act)
    ensures LoaderLeft(NextLoaders(w, act)[act.id]) + (if OfLoader(act) then 1 else 0) <= LoaderLeft(w.loaders[act.id])
  {
  }

  lemma PartyOfFinish(w: World, act: Act)
    requires Can(w, act) && IsParty(act)
    ensures FinisherLeft(NextFinishers(w, act), act.id) + (if OfLoader(act) || act.Notify? then 0 else 1)
            <= FinisherLeft(w.finishers, act.id)
  {
  }

  lemma PartyWorks(w: World, act: Act)
    requires Inv(w) && Can(w, act) && IsParty(act)
    ensures act.id in w.loaders && act.id in Next(w, act).loaders
    ensures Left(Next(w, act), act.id) < Left(w, act.id)
  {
    PartyIsKnown(w, act);
    PartyOfLoader(w, act);
    PartyOfFinish(w, act);
    PartyOfCanceller(w, act, NextReg(w, act));
  }

  lemma PartyIsKnown(w: World, act: Act)
    requires Inv(w) && Can(w, act) && IsParty(act)
    ensures act.id in w.home && act.id in w.loaders
  {
    if act.Notify? || act.Claim? {
      assert Taken(w, act.id) || act.id in w.loaders;
    }
  }

  lemma PartyOfCanceller(w: World, act: Act, reg: Registry)
    requires Can(w, act) && IsParty(act) && w.owed !! w.torn
    ensures var next := Advance(w, act, reg);
            CancellerLeft(next.owed, next.torn, act.id) + (if act.Notify? then 1 else 0)
            <= CancellerLeft(w.owed, w.torn, act.id)
  {
    assert TakenBy(w, act) == {};
  }

  lemma OthersLeaveWork(w: World, act: Act, id: SessionId)
    requires Inv(w) && Can(w, act) && id in w.loaders && !(IsParty(act) && act.id == id)
    ensures id in Next(w, act).loaders && Left(Next(w, act), id) <= Left(w, id)
  {
    OthersLeaveLoader(w, act, id);
    OthersLeaveFinish(w, act, id);
    NobodyIsTakenTwice(w, act, id);
    OthersLeaveCanceller(w, act, NextReg(w, act), id);
  }

  lemma NobodyIsTakenTwice(w: World, act: Act, id: SessionId)
    requires Inv(w) && Can(w, act)
    ensures id in TakenBy(w, act) ==> !Taken(w, id)
  {
    if id in TakenBy(w, act) {
      TakenAtHome(w, act, id);
      assert OneOwner(w, id);
    }
  }

  lemma OthersLeaveCanceller(w: World, act: Act, reg: Registry, id: SessionId)
    requires Can(w, act) && !(IsParty(act) && act.id == id) && (id in TakenBy(w, act) ==> !Taken(w, id))
    ensures var next := Advance(w, act, reg);
            CancellerLeft(next.owed, next.torn, id) <= CancellerLeft(w.owed, w.torn, id)
  {
  }

  lemma OthersLeaveLoader(w: World, act: Act, id: SessionId)
    requires Can(w, act) && id in w.loaders && !(IsParty(act) && act.id == id) && (act.Register? ==> act.id != id)
    ensures id in NextLoaders(w, act) && NextLoaders(w, act)[id] == w.loaders[id]
  {
  }

  lemma OthersLeaveFinish(w: World, act: Act, id: SessionId)
    requires Can(w, act) && !(IsParty(act) && act.id == id)
    ensures FinisherLeft(NextFinishers(w, act), id) == FinisherLeft(w.finishers, id)
  {
  }

  function ActsFor(acts: seq<Act>, id: SessionId): nat {
    if acts == [] then 0 else (if IsParty(acts[0]) && acts[0].id == id then 1 else 0) + ActsFor(acts[1..], id)
  }

  lemma {:induction false} WorkRunsOut(w: World, acts: seq<Act>, id: SessionId)
    requires Inv(w) && Possible(w, acts) && id in w.loaders
    ensures id in End(w, acts).loaders && ActsFor(acts, id) + Left(End(w, acts), id) <= Left(w, id)
    decreases |acts|
  {
    if acts != [] {
      if IsParty(acts[0]) && acts[0].id == id {
        PartyWorks(w, acts[0]);
      } else {
        OthersLeaveWork(w, acts[0], id);
      }
      NextKeepsInv(w, acts[0]);
      WorkRunsOut(Next(w, acts[0]), acts[1..], id);
    }
  }

  // ----- When none of them is left -----

  ghost predicate AtRest(w: World) {
    forall act :: IsParty(act) ==> !Can(w, act)
  }

  function FinishAct(id: SessionId, pc: FinishPc): Act {
    match pc
    case TearingDown => TearDown(id)
    case Reading => ReadCancelled(id)
    case Clearing(_) => Clear(id)
    case Popping => Pop(id)
    case Checking => Check(id)
    case _ => Decide(id)
  }

  lemma RestingLoopIsIdle(w: World)
    requires Inv(w) && AtRest(w)
    ensures LoopIdle(w)
  {
    forall id | id in w.finishers ensures !UnderWay(w.finishers[id]) {
      assert id in w.home;
      var act := FinishAct(id, w.finishers[id]);
      assert IsParty(act) ==> !Can(w, act);
    }
  }

  function LoaderAct(id: SessionId, pc: LoaderPc): Act {
    match pc
    case Starting => Start(id)
    case Loading => CheckLoaded(id)
    case Publishing => Publish(id)
    case FailFlagged => MarkFailed(id)
    case FailMarked => Abort(id)
    case Won => StopTransport(id)
    case _ => Claim(id)
  }

  lemma RestingLoader(w: World, id: SessionId)
    requires Inv(w) && AtRest(w) && id in w.loaders
    ensures w.loaders[id] in {Published, Dropped, Lost, TransportStopped}
  {
    assert id in w.home;
    var act := LoaderAct(id, w.loaders[id]);
    assert IsParty(act) ==> !Can(w, act);
  }

  lemma RestingFinish(w: World, id: SessionId)
    requires Inv(w) && AtRest(w) && id in w.loaders
    ensures w.loaders[id] == Published || Taken(w, id) ==> id in w.finishers
  {
    RestingLoopIsIdle(w);
    assert id in w.home;
    assert !Can(w, Notify(id)) && !Can(w, Claim(id));
  }

  /** The finish of the session has run to its end; it tore the session down as its first act. */
  predicate FinishedOff(w: World, id: SessionId) {
    id in w.finishers && !UnderWay(w.finishers[id])
  }

  lemma RestingSession(w: World, id: SessionId)
    requires Inv(w) && AtRest(w) && id in w.loaders
    ensures AtHome(w, id) <==> Stranded(w, id)
    ensures FinishedOff(w, id) <==> w.loaders[id] != TransportStopped && !Stranded(w, id)
  {
    RestingLoader(w, id);
    RestingFinish(w, id);
    RestingLoopIsIdle(w);
    assert OneOwner(w, id);
  }

  /** In any run, the parties at work for a session have at most fourteen acts for it before them. */
  lemma FewActsAreLeft(before: seq<Act>, acts: seq<Act>, id: SessionId)
    requires Possible(START, before) && Possible(End(START, before), acts) && id in End(START, before).loaders
    ensures ActsFor(acts, id) <= 14
  {
    RunKeepsInv(START, before);
    WorkRunsOut(End(START, before), acts, id);
    LeftIsBounded(End(START, before), id);
  }

  lemma LeftIsBounded(w: World, id: SessionId)
    requires id in w.loaders
    ensures Left(w, id) <= 14
  {
  }

  lemma StrandedIsIdle(w: World, id: SessionId, act: Act)
    requires Stranded(w, id) && OneOwner(w, id) && IsParty(act) && act.id == id
    ensures !Can(w, act)
  {
    assert !Taken(w, id) && id !in w.finishers;
  }

  lemma AttendedCanAct(w: World, id: SessionId) returns (act: Act)
    requires Inv(w) && LoopIdle(w) && AtHome(w, id) && !Stranded(w, id)
    ensures IsParty(act) && act.id == id && Can(w, act)
  {
    assert OneOwner(w, id);
    act := LoaderAct(id, w.loaders[id]);
  }

  /**
   In every reachable state a session on its list has a party with an act to do for it, while the event loop is not at
   work on another session's finish, if and only if it is not stranded.
   */
  lemma RegisteredIsAttendedExactly(acts: seq<Act>, id: SessionId)
    requires Possible(START, acts) && AtHome(End(START, acts), id) && LoopIdle(End(START, acts))
    ensures (exists act :: IsParty(act) && act.id == id && Can(End(START, acts), act))
       <==> !Stranded(End(START, acts), id)
    ensures Stranded(End(START, acts), id) ==> FlaggedUnlocked(START, acts, id)
  {
    var w := End(START, acts);
    RunKeepsInv(START, acts);
    assert OneOwner(w, id);
    if w.loaders[id] == Dropped {
      DroppedIsOwnedExactly(acts, id);
      forall act | IsParty(act) && act.id == id ensures !Can(w, act) {
        StrandedIsIdle(w, id, act);
      }
    } else {
      var act := AttendedCanAct(w, id);
    }
  }

  /**
   Every session gets an owner that sees it off, and only one. When no party has an act left, either the session's
   finish has run, or its failing loader has stopped the transport, unless the session is stranded: exactly if the flag
   was set without the lock, before anybody else set it, and the load was given up for that. Only then is it still on
   its list.
   */
  lemma EverySessionIsSeenOffExactly(acts: seq<Act>, id: SessionId)
    requires Possible(START, acts) && AtRest(End(START, acts)) && id in End(START, acts).loaders
    ensures var w := End(START, acts);
            var stranded := FlaggedUnlocked(START, acts, id) && w.loaders[id] == Dropped;
            && (AtHome(w, id) <==> stranded)
            && (FinishedOff(w, id) <==> w.loaders[id] != TransportStopped && !stranded)
  {
    RunKeepsInv(START, acts);
    RestingSession(End(START, acts), id);
    if End(START, acts).loaders[id] == Dropped {
      DroppedIsOwnedExactly(acts, id);
    }
  }
}
