/** Loads that fail after a replacement was adopted. */
module LateFailures {
  import opened Wrappers
  import opened PlaybackSessions
  import opened SessionRegistry
  import opened SessionRuns
  import opened SessionProtocol

  /** The load has not been decided yet: the loader can still abort. */
  predicate Undecided(pc: LoaderPc) {
    pc == Loading || pc == Publishing || pc == FailFlagged || pc == FailMarked
  }

  /** Flagged as cancelled while still on its list: no canceller will take it any more. */
  predicate Doomed(w: World, id: SessionId) {
    AtHome(w, id) && CancelledIn(w, id) && id in w.loaders && Undecided(w.loaders[id])
  }

  predicate Decided(w: World, id: SessionId) {
    id in w.loaders && !Undecided(w.loaders[id]) && w.loaders[id] != Starting
  }

  lemma DoomedEffect(w: World, act: Act, reg: Registry, id: SessionId)
    requires Can(w, act) && id in w.home && id in w.reg.sessions && EffectOn(w, act, reg, w.home[id], id)
    requires id in TakenBy(w, act) ==> !CancelledIn(w, id)
    requires act.Register? ==> act.id != id
    requires Doomed(w, id) && act != Clear(id)
    ensures Doomed(Advance(w, act, reg), id) || Decided(Advance(w, act, reg), id)
  {
  }

  lemma DecidedStays(w: World, act: Act, reg: Registry, id: SessionId)
    requires Can(w, act) && Decided(w, id) && (act.Register? ==> act.id != id)
    ensures Decided(Advance(w, act, reg), id)
  {
  }

  lemma DoomedStep(w: World, act: Act, reg: Registry, id: SessionId)
    requires Inv(w) && Can(w, act) && Effects(w, act, reg)
    ensures Doomed(w, id) ==> Doomed(Advance(w, act, reg), id) || Decided(Advance(w, act, reg), id)
    ensures Decided(w, id) ==> Decided(Advance(w, act, reg), id)
  {
    if Decided(w, id) {
      DecidedStays(w, act, reg, id);
    } else if Doomed(w, id) {
      assert OneOwner(w, id) && EffectOn(w, act, reg, w.home[id], id);
      if id in TakenBy(w, act) {
        TakenAtHome(w, act, id);
      }
      DoomedEffect(w, act, reg, id);
    }
  }

  lemma {:induction false} DoomedRun(w: World, acts: seq<Act>, id: SessionId)
    requires Inv(w) && Possible(w, acts)
    ensures Doomed(w, id) ==> Doomed(End(w, acts), id) || Decided(End(w, acts), id)
    ensures Decided(w, id) ==> Decided(End(w, acts), id)
    decreases |acts|
  {
    if acts != [] {
      var reg := NextReg(w, acts[0]);
      NextHasEffects(w, acts[0], reg);
      DoomedStep(w, acts[0], reg, id);
      NextKeepsInv(w, acts[0]);
      DoomedRun(Next(w, acts[0]), acts[1..], id);
    }
  }

  lemma AdoptionPassesOverCancelled(w: World, id: SessionId, adoption: Act)
    requires Inv(w) && Can(w, adoption) && AtHome(w, id) && Undecided(w.loaders[id])
    requires adoption.Register? && adoption.u == w.home[id]
    requires adoption.whole || Conflict(adoption.session, w.reg.sessions[id])
    ensures if CancelledIn(w, id) then Doomed(Next(w, adoption), id)
            else id in Next(w, adoption).home && !AtHome(Next(w, adoption), id)
  {
    var reg := NextReg(w, adoption);
    NextHasEffects(w, adoption, reg);
    assert EffectOn(w, adoption, reg, w.home[id], id);
    AdoptionTargets(w, id, adoption);
    AdoptionOn(w, id, adoption, reg);
  }

  lemma AdoptionTargets(w: World, id: SessionId, adoption: Act)
    requires AtHome(w, id) && id in w.reg.sessions && adoption.Register? && adoption.u == w.home[id]
    requires adoption.whole || Conflict(adoption.session, w.reg.sessions[id])
    ensures id in TakenBy(w, adoption) <==> !CancelledIn(w, id)
  {
  }

  lemma AdoptionOn(w: World, id: SessionId, adoption: Act, reg: Registry)
    requires Can(w, adoption) && adoption.Register? && adoption.id != id
    requires AtHome(w, id) && id in w.reg.sessions && id in w.loaders && Undecided(w.loaders[id])
    requires EffectOn(w, adoption, reg, w.home[id], id)
    requires id in TakenBy(w, adoption) <==> !CancelledIn(w, id)
    ensures if CancelledIn(w, id) then Doomed(Advance(w, adoption, reg), id)
            else id in Advance(w, adoption, reg).home && !AtHome(Advance(w, adoption, reg), id)
  {
  }

  /**
   A session whose load is undecided is adopted over, and its loader reaches the abort later. The abort still removes
   it, and with it the queue that by then belongs to the replacement and, for a playlist session, the playlist that was
   started since, exactly when the cancelled flag had been set before the adoption, by the failing loader or without the
   lock: adoption passes over sessions that are cancelled already.
   */
  lemma LateAbortHitsReplacement(w: World, id: SessionId, adoption: Act, later: seq<Act>)
    requires Inv(w) && AtHome(w, id) && Undecided(w.loaders[id])
    requires adoption.Register? && adoption.u == w.home[id]
    requires adoption.whole || Conflict(adoption.session, w.reg.sessions[id])
    requires Possible(w, [adoption] + later) && Can(End(w, [adoption] + later), Abort(id))
    ensures AtHome(End(w, [adoption] + later), id) <==> CancelledIn(w, id)
    ensures var end := End(w, [adoption] + later);
            var next, u := Next(end, Abort(id)).reg, w.home[id];
            && end.home[id] == u
            && StateOf(next, u).queue == (if CancelledIn(w, id) then [] else StateOf(end.reg, u).queue)
            && StateOf(next, u).playlist
               == if CancelledIn(w, id) && w.reg.sessions[id].reason == Playlist then NoPlaylist
                  else StateOf(end.reg, u).playlist
  {
    LateAbortRegistered(w, id, adoption, later);
    ReasonIsForEver(w, [adoption] + later, id);
    HomeIsForEver(w, [adoption] + later, id);
    AbortOf(End(w, [adoption] + later), id);
  }

  lemma LateAbortRegistered(w: World, id: SessionId, adoption: Act, later: seq<Act>)
    requires Inv(w) && AtHome(w, id) && Undecided(w.loaders[id])
    requires adoption.Register? && adoption.u == w.home[id]
    requires adoption.whole || Conflict(adoption.session, w.reg.sessions[id])
    requires Possible(w, [adoption] + later) && Can(End(w, [adoption] + later), Abort(id))
    ensures AtHome(End(w, [adoption] + later), id) <==> CancelledIn(w, id)
  {
    assert ([adoption] + later)[0] == adoption && ([adoption] + later)[1..] == later;
    var adopted := Next(w, adoption);
    NextKeepsInv(w, adoption);
    AdoptionPassesOverCancelled(w, id, adoption);
    if CancelledIn(w, id) {
      DoomedRun(adopted, later, id);
    } else {
      NeverRegisteredAgain(adopted, later, id);
    }
  }

  // ----- One such run from an empty server -----

  const LIST := "next"

  function Listed(active: seq<SessionId>, queue: seq<Animation>): UniverseState<SessionId> {
    UniverseState(active, NoPlaylist, false, "", None, queue)
  }

  function Numbered(s: Session, generation: nat): Session {
    s.(generation := generation)
  }

  /** The first session is loading, or failing: its flag is set, its abort is still to come. */
  function First(s: Session, cancelled: bool, pc: LoaderPc): World {
    World(Registry(map[0 := Listed([1], [])], map[1 := Numbered(s, 1).(cancelled := cancelled)], 2),
          map[1 := 0], {}, {}, map[1 := pc], map[])
  }

  /** The replacement adopted on top. */
  function Second(s: Session, state: UniverseState<SessionId>, notified: bool, pc: LoaderPc): World {
    World(Registry(map[0 := state],
                   map[1 := Numbered(s, 1).(cancelled := true, notified := notified), 2 := Numbered(s, 2)], 3),
          map[1 := 0, 2 := 0], {}, {}, map[1 := pc, 2 := Starting], map[])
  }

  function WithList(queue: seq<Animation>): UniverseState<SessionId> {
    UniverseState([1, 2], Active, false, LIST, Some(PlaylistStatus(0, LIST, true, "")), queue)
  }

  function LateReplacement(s: Session, a: Animation): seq<Act> {
    [Register(0, 1, s, true, true)] + [Fail(1)] + [Register(0, 2, s, true, false)] + [Other(Enqueue(0, a))]
    + [Other(StartPlaylist(0, LIST))] + [MarkFailed(1)]
  }

  lemma FirstRegisters(s: Session)
    requires !s.cancelled
    ensures Can(START, Register(0, 1, s, true, true))
    ensures Next(START, Register(0, 1, s, true, true)) == First(s, false, Loading)
  {
    var w := Next(START, Register(0, 1, s, true, true));
    assert Targets(EMPTY, 0, Everyone) == {};
    assert BLANK.active + [1] == [1];
    assert w.reg.universes == map[0 := Listed([1], [])];
    assert w.reg.sessions == map[1 := Numbered(s, 1)];
    assert s.(cancelled := false) == s;
  }

  lemma SecondReplaces(s: Session)
    requires !s.cancelled
    ensures Can(First(s, true, FailFlagged), Register(0, 2, s, true, false))
    ensures Next(First(s, true, FailFlagged), Register(0, 2, s, true, false))
            == Second(s, Listed([1, 2], []), s.notified, FailFlagged)
  {
    var w := First(s, true, FailFlagged);
    var next := Second(s, Listed([1, 2], []), s.notified, FailFlagged);
    SecondSweepsNobody(s, w.reg);
    SecondJoins(s, w.reg);
    assert Numbered(s, 1).(cancelled := true, notified := s.notified) == Numbered(s, 1).(cancelled := true);
    assert Apply(w.reg, Adopt(0, 2, s, true)) == next.reg;
  }

  lemma SecondJoins(s: Session, g: Registry)
    requires g == First(s, true, FailFlagged).reg && Swept(g, 0, Everyone) == g
    ensures Adopted(g, 0, 2, s, false, true).universes == map[0 := Listed([1, 2], [])]
    ensures Adopted(g, 0, 2, s, false, true).sessions
            == map[1 := Numbered(s, 1).(cancelled := true), 2 := Numbered(s, 2)]
  {
    var adopted := Adopted(g, 0, 2, s, false, true);
    assert [1] + [2] == [1, 2];
    assert adopted.universes == g.universes[0 := Listed([1, 2], [])];
    assert adopted.sessions == g.sessions[2 := Numbered(s, 2)];
  }

  lemma SecondSweepsNobody(s: Session, g: Registry)
    requires g == First(s, true, FailFlagged).reg
    ensures Targets(g, 0, Everyone) == {} && Swept(g, 0, Everyone) == g
  {
    assert g.universes == map[0 := Listed([1], [])] && g.sessions[1].cancelled;
    assert Targets(g, 0, Everyone) == {};
    NobodySwept(g, 0, Everyone);
  }

  lemma NobodySwept(g: Registry, u: Universe, f: Filter)
    requires Targets(g, u, f) == {}
    ensures Swept(g, u, f) == g
  {
    if u in g.universes {
      KeepNothingDropped(g.universes[u].active);
      CancelNobody(g.sessions);
      assert g.universes[u := g.universes[u]] == g.universes;
    }
  }

  lemma AnimationIsQueued(s: Session, a: Animation)
    ensures var w := Second(s, Listed([1, 2], []), s.notified, FailFlagged);
            && Can(w, Other(Enqueue(0, a)))
            && Next(w, Other(Enqueue(0, a))) == Second(s, Listed([1, 2], [a]), s.notified, FailFlagged)
  {
    assert [] + [a] == [a];
  }

  lemma ListIsStarted(s: Session, a: Animation)
    ensures var w := Second(s, Listed([1, 2], [a]), s.notified, FailFlagged);
            && Can(w, Other(StartPlaylist(0, LIST)))
            && Next(w, Other(StartPlaylist(0, LIST))) == Second(s, WithList([a]), s.notified, FailFlagged)
  {
  }

  lemma MarkIsSet(s: Session, a: Animation)
    ensures var g := Second(s, WithList([a]), s.notified, FailFlagged).reg;
            FlagNotified(g, 1) == Second(s, WithList([a]), true, FailMarked).reg
  {
    var g := Second(s, WithList([a]), s.notified, FailFlagged).reg;
    assert FlagNotified(g, 1).sessions == Second(s, WithList([a]), true, FailMarked).reg.sessions;
  }

  lemma FailureMarks(s: Session, a: Animation)
    ensures var w := Second(s, WithList([a]), s.notified, FailFlagged);
            Can(w, MarkFailed(1)) && Next(w, MarkFailed(1)) == Second(s, WithList([a]), true, FailMarked)
  {
    MarkIsSet(s, a);
  }

  lemma FailureFlags(s: Session)
    ensures Can(First(s, false, Loading), Fail(1))
    ensures Next(First(s, false, Loading), Fail(1)) == First(s, true, FailFlagged)
  {
  }

  lemma LateReplacementRun(s: Session, a: Animation)
    requires !s.cancelled
    ensures Possible(START, LateReplacement(s, a))
    ensures End(START, LateReplacement(s, a)) == Second(s, WithList([a]), true, FailMarked)
  {
    var flagged := First(s, true, FailFlagged);
    var joined := Second(s, Listed([1, 2], []), s.notified, FailFlagged);
    var queued := Second(s, Listed([1, 2], [a]), s.notified, FailFlagged);
    var started := Second(s, WithList([a]), s.notified, FailFlagged);
    var acts := [Register(0, 1, s, true, true)];
    assert Possible(START, []) && [] + acts == acts;
    FirstRegisters(s);
    OneMore(START, [], START, acts[0], First(s, false, Loading));
    FailureFlags(s);
    OneMore(START, acts, First(s, false, Loading), Fail(1), flagged);
    SecondReplaces(s);
    OneMore(START, acts + [Fail(1)], flagged, Register(0, 2, s, true, false), joined);
    AnimationIsQueued(s, a);
    ListIsStarted(s, a);
    acts := acts + [Fail(1)] + [Register(0, 2, s, true, false)];
    OneMore(START, acts, joined, Other(Enqueue(0, a)), queued);
    acts := acts + [Other(Enqueue(0, a))];
    OneMore(START, acts, queued, Other(StartPlaylist(0, LIST)), started);
    FailureMarks(s, a);
    OneMore(START, acts + [Other(StartPlaylist(0, LIST))], started, MarkFailed(1),
            Second(s, WithList([a]), true, FailMarked));
  }

  /**
   The replacement plays on, but the animation queued behind it is gone and, if the failing session was a playlist's, so
   is the playlist started after it was replaced.
   */
  lemma LateAbortErasesReplacement(s: Session, a: Animation)
    requires !s.cancelled
    ensures var acts := LateReplacement(s, a);
            && Possible(START, acts) && Can(End(START, acts), Abort(1))
            && var before, after := End(START, acts).reg, Next(End(START, acts), Abort(1)).reg;
               && Live(before, 0, 2) && StateOf(before, 0).queue == [a] && StateOf(before, 0).playlist == Active
               && Live(after, 0, 2) && StateOf(after, 0).queue == []
               && StateOf(after, 0).playlist == if s.reason == Playlist then NoPlaylist else Active
  {
    LateReplacementRun(s, a);
    var w := End(START, LateReplacement(s, a));
    assert StateOf(w.reg, 0).active[0] == 1 && StateOf(w.reg, 0).active[1] == 2;
    AbortOf(w, 1);
    AbortLeavesTheOther(w);
  }

  lemma AbortLeavesTheOther(w: World)
    requires Can(w, Abort(1)) && w.home[1] == 0 && Live(w.reg, 0, 2)
    ensures Live(Next(w, Abort(1)).reg, 0, 2)
  {
    StepOnMember(w.reg, AbortLoading(0, 1), Apply(w.reg, AbortLoading(0, 1)), 0, 2);
  }
}
