/** Two runs from an empty server in which the finish of a cancelled session acts all the same. */
module FinishRaces {
  import opened Wrappers
  import opened PlaybackSessions
  import opened SessionRegistry
  import opened SessionRuns
  import opened SessionProtocol
  import opened FinishRuns

  const LIST := "list"

  function Listing(active: seq<SessionId>, playlist: PlaylistState, resume: bool, queue: seq<Animation>)
    : UniverseState<SessionId>
  {
    UniverseState(active, playlist, resume, LIST, Some(PlaylistStatus(0, LIST, true, "")), queue)
  }

  /** One session, of generation 1, with its loader and its finish wherever they are. */
  function Alone(s: Session, state: UniverseState<SessionId>, pc: LoaderPc, finishers: map<SessionId, FinishPc>): World
  {
    World(Registry(map[0 := state], map[1 := s.(generation := 1)], 2), map[1 := 0], {}, {}, map[1 := pc], finishers)
  }

  function Reads(s: Session): seq<Act> {
    [Register(0, 1, s, true, false)] + [Other(StartPlaylist(0, LIST))] + [Start(1)] + [Claim(1)] + [TearDown(1)]
    + [ReadCancelled(1)]
  }

  /** The finish has read its session as live, and the session's playlist is active. */
  function Read(s: Session): World {
    Alone(s, Listing([1], Active, false, []), Published, map[1 := Clearing(false)])
  }

  lemma Registers(s: Session)
    requires !s.cancelled
    ensures Can(START, Register(0, 1, s, true, false))
    ensures Next(START, Register(0, 1, s, true, false))
            == Alone(s, UniverseState([1], NoPlaylist, false, "", None, []), Starting, map[])
  {
    var next := Next(START, Register(0, 1, s, true, false));
    assert Targets(EMPTY, 0, Everyone) == {};
    assert BLANK.active + [1] == [1];
    assert next.reg.universes == map[0 := UniverseState([1], NoPlaylist, false, "", None, [])];
    assert next.reg.sessions == map[1 := s.(generation := 1)];
  }

  lemma PlaylistStarts(s: Session)
    ensures var w := Alone(s, UniverseState([1], NoPlaylist, false, "", None, []), Starting, map[]);
            && Can(w, Other(StartPlaylist(0, LIST)))
            && Next(w, Other(StartPlaylist(0, LIST))) == Alone(s, Listing([1], Active, false, []), Starting, map[])
  {
  }

  /** From the first runner to the flag, the finish changes nothing but its own place. */
  lemma RunnerClaims(s: Session, state: UniverseState<SessionId>)
    ensures var w := Alone(s, state, Starting, map[]);
            Can(w, Start(1)) && Next(w, Start(1)) == Alone(s, state, Published, map[])
    ensures var w := Alone(s, state, Published, map[]);
            Can(w, Claim(1)) && Next(w, Claim(1)) == Alone(s, state, Published, map[1 := TearingDown])
  {
  }

  lemma RunnerTearsDown(s: Session, state: UniverseState<SessionId>)
    ensures var w := Alone(s, state, Published, map[1 := TearingDown]);
            Can(w, TearDown(1)) && Next(w, TearDown(1)) == Alone(s, state, Published, map[1 := Reading])
  {
  }

  lemma RunnerReads(s: Session, state: UniverseState<SessionId>)
    requires !s.cancelled
    ensures var w := Alone(s, state, Published, map[1 := Reading]);
            && Can(w, ReadCancelled(1))
            && Next(w, ReadCancelled(1)) == Alone(s, state, Published, map[1 := Clearing(false)])
  {
  }

  lemma ReadsRun(s: Session)
    requires !s.cancelled
    ensures Possible(START, Reads(s)) && End(START, Reads(s)) == Read(s)
  {
    var state := Listing([1], Active, false, []);
    var listed := Alone(s, UniverseState([1], NoPlaylist, false, "", None, []), Starting, map[]);
    var acts := [Register(0, 1, s, true, false)];
    Registers(s);
    assert Possible(START, []) && [] + acts == acts;
    OneMore(START, [], START, acts[0], listed);
    PlaylistStarts(s);
    OneMore(START, acts, listed, Other(StartPlaylist(0, LIST)), Alone(s, state, Starting, map[]));
    acts := acts + [Other(StartPlaylist(0, LIST))];
    RunnerClaims(s, state);
    RunnerTearsDown(s, state);
    RunnerReads(s, state);
    OneMore(START, acts, Alone(s, state, Starting, map[]), Start(1), Alone(s, state, Published, map[]));
    acts := acts + [Start(1)];
    OneMore(START, acts, Alone(s, state, Published, map[]), Claim(1),
            Alone(s, state, Published, map[1 := TearingDown]));
    acts := acts + [Claim(1)];
    OneMore(START, acts, Alone(s, state, Published, map[1 := TearingDown]), TearDown(1),
            Alone(s, state, Published, map[1 := Reading]));
    OneMore(START, acts + [TearDown(1)], Alone(s, state, Published, map[1 := Reading]), ReadCancelled(1), Read(s));
  }

  function Doomed(s: Session): Session {
    CancelLocked(s.(generation := 1))
  }

  // ----- The finish of a cancelled session takes an animation -----

  function Cancelled(s: Session, active: seq<SessionId>, queue: seq<Animation>, pc: FinishPc): World {
    World(Registry(map[0 := Listing(active, Active, false, queue)], map[1 := Doomed(s)], 2),
          map[1 := 0], {1}, {}, map[1 := Published], map[1 := pc])
  }

  function LateCancel(s: Session, a: Animation): seq<Act> {
    Reads(s) + [Cancel(0, Everyone)] + [Clear(1)] + [Other(Enqueue(0, a))]
  }

  lemma CancelTakes(s: Session)
    requires !s.cancelled
    ensures Can(Read(s), Cancel(0, Everyone))
    ensures Next(Read(s), Cancel(0, Everyone)) == Cancelled(s, [], [], Clearing(false))
  {
    var g := Read(s).reg;
    assert g.universes[0].active[0] == 1;
    assert Targets(g, 0, Everyone) == {1};
    assert Keep([1], {1}) == [] by {
      assert [1][..0] == [];
    }
    assert CancelAll(g.sessions, {1}) == map[1 := Doomed(s)];
  }

  lemma CancelledClears(s: Session)
    ensures var w := Cancelled(s, [], [], Clearing(false));
            Can(w, Clear(1)) && Next(w, Clear(1)) == Cancelled(s, [], [], Popping)
  {
    var w := Cancelled(s, [], [], Clearing(false));
    assert SessionCleared(w.reg, 0, 1).universes == w.reg.universes;
    assert NextFinishers(w, Clear(1)) == map[1 := Popping];
  }

  lemma AnimationComes(s: Session, a: Animation)
    ensures var w := Cancelled(s, [], [], Popping);
            Can(w, Other(Enqueue(0, a))) && Next(w, Other(Enqueue(0, a))) == Cancelled(s, [], [a], Popping)
  {
    assert [] + [a] == [a];
  }

  lemma CancelledPops(s: Session, a: Animation)
    ensures var w := Cancelled(s, [], [a], Popping);
            Can(w, Pop(1)) && StateOf(w.reg, 0).queue == [a] && StateOf(Next(w, Pop(1)).reg, 0).queue == []
  {
    var w := Cancelled(s, [], [a], Popping);
    assert StepsOf(w, Pop(1)) == [Dequeue(0)];
  }

  /** The session was cancelled between the reading of its flag and its clearing; its finish takes what is queued. */
  lemma CancelledFinishTakesAnimation(s: Session, a: Animation)
    requires !s.cancelled
    ensures var acts := LateCancel(s, a);
            && Possible(START, acts) && Can(End(START, acts), Pop(1))
            && CancelledIn(End(START, acts), 1) && Taken(End(START, acts), 1)
            && StateOf(End(START, acts).reg, 0).queue == [a]
            && StateOf(Next(End(START, acts), Pop(1)).reg, 0).queue == []
  {
    ReadsRun(s);
    CancelTakes(s);
    CancelledClears(s);
    AnimationComes(s, a);
    CancelledPops(s, a);
    var acts := Reads(s);
    OneMore(START, acts, Read(s), Cancel(0, Everyone), Cancelled(s, [], [], Clearing(false)));
    acts := acts + [Cancel(0, Everyone)];
    OneMore(START, acts, Cancelled(s, [], [], Clearing(false)), Clear(1), Cancelled(s, [], [], Popping));
    OneMore(START, acts + [Clear(1)], Cancelled(s, [], [], Popping), Other(Enqueue(0, a)),
            Cancelled(s, [], [a], Popping));
  }

  // ----- The finish of a displaced session consumes the decision of the interrupt that displaced it -----

  function Displaced(s: Session, t: Session, playlist: PlaylistState, resume: bool, pc: FinishPc): World {
    World(Registry(map[0 := Listing([2], playlist, resume, [])],
                   map[1 := Doomed(s), 2 := t.(generation := 2)], 3),
          map[1 := 0, 2 := 0], {1}, {}, map[1 := Published, 2 := Starting], map[1 := pc])
  }

  function Interrupting(s: Session): World {
    Alone(s, Listing([1], Interrupted, true, []), Published, map[1 := Clearing(false)])
  }

  function LateInterrupt(s: Session, t: Session): seq<Act> {
    Reads(s) + [Other(MarkInterrupt(0, true))] + [Register(0, 2, t, true, false)] + [Clear(1)] + [Pop(1)] + [Check(1)]
  }

  lemma InterruptDisplaces(s: Session, t: Session)
    requires !s.cancelled && !t.cancelled
    ensures Can(Interrupting(s), Register(0, 2, t, true, false))
    ensures Next(Interrupting(s), Register(0, 2, t, true, false))
            == Displaced(s, t, Interrupted, true, Clearing(false))
  {
    var w := Interrupting(s);
    var g := w.reg;
    assert g.universes[0].active[0] == 1;
    assert Targets(g, 0, Everyone) == {1};
    SweptOfOne(s, g);
    assert [] + [2] == [2];
    var next := Next(w, Register(0, 2, t, true, false));
    assert next.reg.universes == Displaced(s, t, Interrupted, true, Clearing(false)).reg.universes;
    assert next.reg.sessions == Displaced(s, t, Interrupted, true, Clearing(false)).reg.sessions;
  }

  lemma SweptOfOne(s: Session, g: Registry)
    requires g == Interrupting(s).reg && Targets(g, 0, Everyone) == {1}
    ensures Swept(g, 0, Everyone) == Registry(map[0 := Listing([], Interrupted, true, [])], map[1 := Doomed(s)], 2)
  {
    assert Keep([1], {1}) == [] by {
      assert [1][..0] == [];
    }
    assert CancelAll(g.sessions, {1}) == map[1 := Doomed(s)];
  }

  lemma OtherIsKept()
    ensures Keep([2], {1}) == [2]
  {
    assert [2][..0] == [];
    assert Keep([2][..0], {1}) + [2] == [2];
  }

  lemma DisplacedClears(s: Session, t: Session)
    ensures var w := Displaced(s, t, Interrupted, true, Clearing(false));
            Can(w, Clear(1)) && Next(w, Clear(1)) == Displaced(s, t, Interrupted, true, Popping)
  {
    var w := Displaced(s, t, Interrupted, true, Clearing(false));
    OtherIsKept();
    assert SessionCleared(w.reg, 0, 1).universes == w.reg.universes;
    assert StepsOf(w, Clear(1)) == [ClearSession(0, 1)];
    assert Next(w, Clear(1)).reg == w.reg;
    assert Next(w, Clear(1)).finishers == map[1 := Popping];
  }

  lemma DisplacedPops(s: Session, t: Session)
    ensures var w := Displaced(s, t, Interrupted, true, Popping);
            Can(w, Pop(1)) && Next(w, Pop(1)) == Displaced(s, t, Interrupted, true, Checking)
  {
    var w := Displaced(s, t, Interrupted, true, Popping);
    assert StepsOf(w, Pop(1)) == [Dequeue(0)] && Popped(w.reg, 0) == w.reg;
    assert NextFinishers(w, Pop(1)) == map[1 := Checking];
  }

  lemma DisplacedChecks(s: Session, t: Session)
    ensures var w := Displaced(s, t, Interrupted, true, Checking);
            Can(w, Check(1)) && Next(w, Check(1)) == Displaced(s, t, Interrupted, true, Deciding)
  {
    var w := Displaced(s, t, Interrupted, true, Checking);
    assert NextFinishers(w, Check(1)) == map[1 := Deciding];
  }

  lemma DisplacedDecides(s: Session, t: Session)
    ensures var w := Displaced(s, t, Interrupted, true, Deciding);
            Can(w, Decide(1)) && Next(w, Decide(1)).reg == Displaced(s, t, Active, false, Finished).reg
  {
    var w := Displaced(s, t, Interrupted, true, Deciding);
    assert StepsOf(w, Decide(1)) == [ConsumeResume(0)];
    assert ResumeConsumed(w.reg, 0).universes == map[0 := Listing([2], Active, false, [])];
  }

  lemma SecondIsLive(s: Session, t: Session, playlist: PlaylistState, resume: bool, pc: FinishPc)
    requires !t.cancelled
    ensures var g := Displaced(s, t, playlist, resume, pc).reg;
            Live(g, 0, 2) && StateOf(g, 0).playlist == playlist && StateOf(g, 0).shouldResume == resume
  {
    assert Listing([2], playlist, resume, []).active[0] == 2;
  }

  /**
   An interrupt pauses the playlist and displaces a session whose finish has just read its flag. That finish grants the
   resume decision while the interrupt has only begun: the playlist is active again under it.
   */
  lemma DisplacedFinishConsumesDecision(s: Session, t: Session)
    requires !s.cancelled && !t.cancelled
    ensures var acts := LateInterrupt(s, t);
            && Possible(START, acts) && Can(End(START, acts), Decide(1))
            && var before, after := End(START, acts), Next(End(START, acts), Decide(1));
               && CancelledIn(before, 1) && Taken(before, 1) && Live(before.reg, 0, 2) && ResumeGranted(before.reg, 0)
               && Live(after.reg, 0, 2) && StateOf(after.reg, 0).playlist == Active && !ResumeGranted(after.reg, 0)
  {
    DisplacedDecides(s, t);
    SecondIsLive(s, t, Interrupted, true, Deciding);
    SecondIsLive(s, t, Active, false, Finished);
    LateInterruptRun(s, t);
  }

  lemma LateInterruptRun(s: Session, t: Session)
    requires !s.cancelled && !t.cancelled
    ensures Possible(START, LateInterrupt(s, t))
    ensures End(START, LateInterrupt(s, t)) == Displaced(s, t, Interrupted, true, Deciding)
  {
    ReadsRun(s);
    var acts := Reads(s);
    OneMore(START, acts, Read(s), Other(MarkInterrupt(0, true)), Interrupting(s));
    acts := acts + [Other(MarkInterrupt(0, true))];
    InterruptDisplaces(s, t);
    OneMore(START, acts, Interrupting(s), Register(0, 2, t, true, false),
            Displaced(s, t, Interrupted, true, Clearing(false)));
    acts := acts + [Register(0, 2, t, true, false)];
    DisplacedClears(s, t);
    OneMore(START, acts, Displaced(s, t, Interrupted, true, Clearing(false)), Clear(1),
            Displaced(s, t, Interrupted, true, Popping));
    acts := acts + [Clear(1)];
    DisplacedPops(s, t);
    OneMore(START, acts, Displaced(s, t, Interrupted, true, Popping), Pop(1),
            Displaced(s, t, Interrupted, true, Checking));
    DisplacedChecks(s, t);
    OneMore(START, acts + [Pop(1)], Displaced(s, t, Interrupted, true, Checking), Check(1),
            Displaced(s, t, Interrupted, true, Deciding));
  }
}
