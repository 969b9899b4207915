/**
 The registry of playback sessions as a value, with one function for each critical section of the session manager
 and one for each flag written outside its mutex. Every interleaving of threads is a sequence of these steps.
 */
module SessionRegistry {
  import opened Wrappers
  import opened PlaybackSessions

  type Universe = nat
  type Animation = nat

  datatype PlaylistState = NoPlaylist | Active | Interrupted | Stopped

  datatype PlaylistStatus = PlaylistStatus(
    universe: Universe,
    playlist: string,
    playing: bool,
    currentAnimation: string)

  datatype UniverseState<+S> = UniverseState(
    active: seq<S>,
    playlist: PlaylistState,
    shouldResume: bool,
    playlistId: string,
    status: Option<PlaylistStatus>,
    queue: seq<Animation>)
  {
    function WithActive(sessions: seq<S>): UniverseState<S> {
      this.(active := sessions)
    }

    function WithPlaylist(state: PlaylistState, resume: bool): UniverseState<S> {
      this.(playlist := state, shouldResume := resume)
    }

    function WithPlaying(playing: bool): UniverseState<S> {
      match status
      case None => this
      case Some(s) => this.(status := Some(s.(playing := playing)))
    }

    function WithHalted(): UniverseState<S> {
      match status
      case None => this
      case Some(s) => this.(status := Some(s.(playing := false, currentAnimation := "")))
    }

    function WithoutPlaylist(): UniverseState<S> {
      this.(playlist := NoPlaylist, shouldResume := false, playlistId := "", status := None)
    }
  }

  datatype Registry = Registry(
    universes: map<Universe, UniverseState<SessionId>>,
    sessions: map<SessionId, Session>,
    nextGeneration: nat)

  const EMPTY := Registry(map[], map[], 1)

  const BLANK: UniverseState<SessionId> := UniverseState([], NoPlaylist, false, "", None, [])

  function StateOf(g: Registry, u: Universe): UniverseState<SessionId> {
    if u in g.universes then g.universes[u] else BLANK
  }

  function Put(g: Registry, u: Universe, state: UniverseState<SessionId>): Registry {
    g.(universes := g.universes[u := state])
  }

  function Without(g: Registry, u: Universe): Registry {
    g.(universes := g.universes - {u})
  }

  predicate Registered(g: Registry, u: Universe, id: SessionId) {
    id in StateOf(g, u).active
  }

  // ----- Cancelling the sessions that match a request -----

  datatype Filter =
    | ConflictingWith(session: Session)
    | Everyone
    | Involving(creatures: set<string>)
    | IdleOf(creature: string)
    | OfPlaylist

  predicate Matches(f: Filter, s: Session) {
    match f
    case ConflictingWith(t) => Conflict(t, s)
    case Everyone => true
    case Involving(creatures) => exists c :: c in s.creatures && c in creatures
    case IdleOf(c) => s.reason == Idle && c != "" && c in s.creatures
    case OfPlaylist => s.reason == Playlist
  }

  predicate Targeted(sessions: map<SessionId, Session>, f: Filter, id: SessionId) {
    id in sessions && !sessions[id].cancelled && Matches(f, sessions[id])
  }

  /** The registered sessions a sweep cancels; those already cancelled are left where they are. */
  function Targets(g: Registry, u: Universe, f: Filter): set<SessionId> {
    set id | id in StateOf(g, u).active && Targeted(g.sessions, f, id)
  }

  /** The members of xs outside drop, in order. */
  function Keep(xs: seq<SessionId>, drop: set<SessionId>): (kept: seq<SessionId>)
    ensures forall x :: x in kept <==> x in xs && x !in drop
  {
    if xs == [] then []
    else
      var rest := Keep(xs[..|xs| - 1], drop);
      var last := xs[|xs| - 1];
      assert xs == xs[..|xs| - 1] + [last];
      if last in drop then rest else rest + [last]
  }

  /** The members of xs inside wanted, in order. */
  function Pick(xs: seq<SessionId>, wanted: set<SessionId>): (picked: seq<SessionId>)
    ensures forall x :: x in picked <==> x in xs && x in wanted
  {
    if xs == [] then []
    else
      var rest := Pick(xs[..|xs| - 1], wanted);
      var last := xs[|xs| - 1];
      assert xs == xs[..|xs| - 1] + [last];
      if last in wanted then rest + [last] else rest
  }

  function CancelLocked(s: Session): Session {
    s.(cancelled := true, notified := true)
  }

  function CancelAll(sessions: map<SessionId, Session>, ids: set<SessionId>): map<SessionId, Session> {
    map id | id in sessions :: if id in ids then CancelLocked(sessions[id]) else sessions[id]
  }

  /** Cancels the targets and takes them off the universe's list in one step. */
  function Swept(g: Registry, u: Universe, f: Filter): Registry {
    if u !in g.universes then g
    else
      var targets := Targets(g, u, f);
      var state := g.universes[u];
      Registry(g.universes[u := state.WithActive(Keep(state.active, targets))], CancelAll(g.sessions, targets),
               g.nextGeneration)
  }

  lemma SweptIgnoresGeneration(g: Registry, u: Universe, f: Filter, next: nat)
    ensures Targets(g.(nextGeneration := next), u, f) == Targets(g, u, f)
    ensures Swept(g.(nextGeneration := next), u, f) == Swept(g, u, f).(nextGeneration := next)
  {
    assert Targets(g.(nextGeneration := next), u, f) == Targets(g, u, f);
  }

  // ----- The critical sections -----

  function AdoptFilter(session: Session, whole: bool): Filter {
    if whole then Everyone else ConflictingWith(session)
  }

  function Adopted(g: Registry, u: Universe, id: SessionId, session: Session, isPlaylist: bool, whole: bool): Registry {
    var swept := Swept(g, u, AdoptFilter(session, whole));
    var state := StateOf(swept, u);
    var joined := state.WithActive(state.active + [id]);
    var minted := session.(generation := g.nextGeneration);
    Put(Registry(swept.universes, swept.sessions[id := minted], g.nextGeneration + 1), u,
        if isPlaylist then joined.(playlist := Active) else joined)
  }

  function InterruptMarked(g: Registry, u: Universe, resume: bool): Registry {
    if StateOf(g, u).playlist == Active then Put(g, u, StateOf(g, u).WithPlaylist(Interrupted, resume)) else g
  }

  function InterruptRolledBack(g: Registry, u: Universe): Registry {
    if StateOf(g, u).playlist == Interrupted then Put(g, u, StateOf(g, u).WithPlaylist(Active, false)) else g
  }

  function PlaylistResumed(g: Registry, u: Universe): Registry {
    if StateOf(g, u).playlist == Interrupted then Put(g, u, StateOf(g, u).WithPlaylist(Active, false).WithPlaying(true))
    else g
  }

  /** The finishing interrupt is told to restart the playlist. */
  predicate ResumeGranted(g: Registry, u: Universe) {
    StateOf(g, u).playlist == Interrupted && StateOf(g, u).shouldResume
  }

  function ResumeConsumed(g: Registry, u: Universe): Registry {
    var state := StateOf(g, u);
    if state.playlist != Interrupted then g
    else if state.shouldResume then Put(g, u, state.WithPlaylist(Active, false).WithPlaying(true))
    else Put(g, u, state.(playlist := Stopped).WithHalted())
  }

  function PlaylistStopped(g: Registry, u: Universe): Registry {
    var state := StateOf(g, u);
    if state.playlist != Active && state.playlist != Interrupted then g
    else Swept(Put(g, u, state.WithPlaylist(Stopped, false).WithHalted()), u, OfPlaylist)
  }

  function PlaylistStarted(g: Registry, u: Universe, playlistId: string): Registry {
    var state := StateOf(g, u);
    var status := match state.status
      case None => PlaylistStatus(u, playlistId, true, "")
      case Some(s) => s.(playlist := playlistId, playing := true);
    Put(g, u, state.WithPlaylist(Active, false).(playlistId := playlistId, status := Some(status)))
  }

  function SessionCleared(g: Registry, u: Universe, id: SessionId): Registry {
    if u in g.universes then Put(g, u, g.universes[u].WithActive(Keep(g.universes[u].active, {id}))) else g
  }

  /** A failed load takes its session, the queue and, for a playlist session, the playlist with it. */
  function LoadingAborted(g: Registry, u: Universe, id: SessionId): Registry {
    if !Registered(g, u, id) || id !in g.sessions then g
    else
      var state := g.universes[u];
      var emptied := state.WithActive(Keep(state.active, {id})).(queue := []);
      var next := if g.sessions[id].reason == Playlist then emptied.WithoutPlaylist() else emptied;
      if next.active == [] && next.playlist == NoPlaylist then Without(g, u) else Put(g, u, next)
  }

  function StatusSet(g: Registry, u: Universe, status: PlaylistStatus): Registry {
    var state := StateOf(g, u).(status := Some(status.(universe := u)), playlistId := status.playlist);
    var promoted := state.playlist == NoPlaylist && status.playlist != "" && status.playing;
    Put(g, u, if promoted then state.(playlist := Active) else state)
  }

  function PlaylistCleared(g: Registry, u: Universe): Registry {
    if u !in g.universes then g
    else if g.universes[u].active == [] then Without(g, u)
    else Put(g, u, g.universes[u].WithoutPlaylist())
  }

  function Queued(g: Registry, u: Universe, a: Animation): Registry {
    Put(g, u, StateOf(g, u).(queue := StateOf(g, u).queue + [a]))
  }

  function QueueHead(g: Registry, u: Universe): Option<Animation> {
    if StateOf(g, u).queue == [] then None else Some(StateOf(g, u).queue[0])
  }

  function Popped(g: Registry, u: Universe): Registry {
    if StateOf(g, u).queue == [] then g else Put(g, u, StateOf(g, u).(queue := StateOf(g, u).queue[1..]))
  }

  function QueueCleared(g: Registry, u: Universe): Registry {
    if StateOf(g, u).queue == [] then g else Put(g, u, StateOf(g, u).(queue := []))
  }

  // ----- Flags written outside the mutex -----

  function FlagCancelled(g: Registry, id: SessionId): Registry
    requires id in g.sessions
  {
    g.(sessions := g.sessions[id := g.sessions[id].(cancelled := true)])
  }

  function FlagNotified(g: Registry, id: SessionId): Registry
    requires id in g.sessions
  {
    g.(sessions := g.sessions[id := g.sessions[id].(notified := true)])
  }

  // ----- Queries -----

  /** The last uncancelled member of a list, which is what the reverse search finds. */
  function LastLive(sessions: map<SessionId, Session>, active: seq<SessionId>): Option<SessionId> {
    if active == [] then None
    else
      var last := active[|active| - 1];
      if last in sessions && !sessions[last].cancelled then Some(last) else LastLive(sessions, active[..|active| - 1])
  }

  function CurrentSession(g: Registry, u: Universe): Option<SessionId> {
    LastLive(g.sessions, StateOf(g, u).active)
  }

  predicate Live(g: Registry, u: Universe, id: SessionId) {
    Registered(g, u, id) && id in g.sessions && !g.sessions[id].cancelled
  }

  predicate Busy(g: Registry, u: Universe, creature: string) {
    creature != "" && exists id :: id in StateOf(g, u).active && Live(g, u, id) && creature in g.sessions[id].creatures
  }

  // ----- Steps and runs -----

  datatype Step =
    | Adopt(u: Universe, id: SessionId, session: Session, whole: bool)
    | MarkInterrupt(u: Universe, resume: bool)
    | RollBackInterrupt(u: Universe)
    | ResumePlaylist(u: Universe)
    | ConsumeResume(u: Universe)
    | CancelMatching(u: Universe, filter: Filter)
    | StopPlaylist(u: Universe)
    | StartPlaylist(u: Universe, playlistId: string)
    | ClearSession(u: Universe, id: SessionId)
    | AbortLoading(u: Universe, id: SessionId)
    | SetStatus(u: Universe, status: PlaylistStatus)
    | ClearPlaylist(u: Universe)
    | Enqueue(u: Universe, animation: Animation)
    | Dequeue(u: Universe)
    | ClearQueue(u: Universe)
    | SetCancelled(id: SessionId)
    | SetNotified(id: SessionId)

  /** Sessions are adopted once, and never when their frames failed to decode; only published sessions have flags. */
  predicate Enabled(g: Registry, step: Step) {
    match step
    case Adopt(_, id, session, _) => id !in g.sessions && !session.cancelled
    case SetCancelled(id) => id in g.sessions
    case SetNotified(id) => id in g.sessions
    case _ => true
  }

  function Apply(g: Registry, step: Step): Registry
    requires Enabled(g, step)
  {
    match step
    case Adopt(u, id, session, whole) => Adopted(g, u, id, session, false, whole)
    case MarkInterrupt(u, resume) => InterruptMarked(g, u, resume)
    case RollBackInterrupt(u) => InterruptRolledBack(g, u)
    case ResumePlaylist(u) => PlaylistResumed(g, u)
    case ConsumeResume(u) => ResumeConsumed(g, u)
    case CancelMatching(u, filter) => Swept(g, u, filter)
    case StopPlaylist(u) => PlaylistStopped(g, u)
    case StartPlaylist(u, playlistId) => PlaylistStarted(g, u, playlistId)
    case ClearSession(u, id) => SessionCleared(g, u, id)
    case AbortLoading(u, id) => LoadingAborted(g, u, id)
    case SetStatus(u, status) => StatusSet(g, u, status)
    case ClearPlaylist(u) => PlaylistCleared(g, u)
    case Enqueue(u, animation) => Queued(g, u, animation)
    case Dequeue(u) => Popped(g, u)
    case ClearQueue(u) => QueueCleared(g, u)
    case SetCancelled(id) => FlagCancelled(g, id)
    case SetNotified(id) => FlagNotified(g, id)
  }

  predicate Runs(g: Registry, steps: seq<Step>)
    decreases |steps|
  {
    steps == [] || (Enabled(g, steps[0]) && Runs(Apply(g, steps[0]), steps[1..]))
  }

  function After(g: Registry, steps: seq<Step>): Registry
    requires Runs(g, steps)
    decreases |steps|
  {
    if steps == [] then g else After(Apply(g, steps[0]), steps[1..])
  }

  // ----- The invariant of every reachable registry -----

  /** a was adopted before b: its generation is lower, and if the two conflict, a has been cancelled. */
  predicate Precedes(a: Session, b: Session) {
    a.generation < b.generation && (Conflict(b, a) ==> a.cancelled)
  }

  ghost predicate InOrder(sessions: map<SessionId, Session>, active: seq<SessionId>) {
    && (forall id | id in active :: id in sessions)
    && (forall i, j | 0 <= i < j < |active| :: Precedes(sessions[active[i]], sessions[active[j]]))
  }

  ghost predicate GenerationsMinted(g: Registry) {
    forall id | id in g.sessions :: g.sessions[id].generation < g.nextGeneration
  }

  ghost predicate ListsInOrder(g: Registry) {
    forall u | u in g.universes :: InOrder(g.sessions, g.universes[u].active)
  }

  ghost predicate OneHome(g: Registry) {
    forall u, v, id | Registered(g, u, id) && Registered(g, v, id) :: u == v
  }

  /** The resume flag means something only while a playlist is interrupted, and is set at no other time. */
  ghost predicate FlagOnlyWhileInterrupted(g: Registry) {
    forall u | u in g.universes :: g.universes[u].shouldResume ==> g.universes[u].playlist == Interrupted
  }

  ghost predicate Sound(g: Registry) {
    GenerationsMinted(g) && ListsInOrder(g) && OneHome(g) && FlagOnlyWhileInterrupted(g)
  }

  lemma InOrderHasNoRepeats(sessions: map<SessionId, Session>, active: seq<SessionId>)
    requires InOrder(sessions, active)
    ensures NoDuplicates(active)
  {
    forall i, j | 0 <= i < j < |active| ensures active[i] != active[j] {
      assert Precedes(sessions[active[i]], sessions[active[j]]);
    }
  }

  /** Dropping members and cancelling sessions keep the order of what remains. */
  lemma {:induction false} KeepInOrder(sessions: map<SessionId, Session>, active: seq<SessionId>, drop: set<SessionId>,
                                       cancelled: set<SessionId>)
    requires InOrder(sessions, active)
    ensures InOrder(CancelAll(sessions, cancelled), Keep(active, drop))
    decreases |active|
  {
    if active != [] {
      var front, last := active[..|active| - 1], active[|active| - 1];
      KeepInOrder(sessions, front, drop, cancelled);
      var rest := Keep(front, drop);
      forall i | 0 <= i < |rest| && last !in drop
        ensures Precedes(CancelAll(sessions, cancelled)[rest[i]], CancelAll(sessions, cancelled)[last])
      {
        assert rest[i] in front;
        var k :| 0 <= k < |front| && front[k] == rest[i];
        assert Precedes(sessions[active[k]], sessions[active[|active| - 1]]);
      }
    }
  }

  lemma CancelNobody(sessions: map<SessionId, Session>)
    ensures CancelAll(sessions, {}) == sessions
  {
  }

  lemma FewerRegistrationsKeepOneHome(g: Registry, next: Registry)
    requires OneHome(g)
    requires forall u, id | Registered(next, u, id) :: Registered(g, u, id)
    ensures OneHome(next)
  {
  }

  lemma SweptKeepsSound(g: Registry, u: Universe, f: Filter)
    requires Sound(g)
    ensures Sound(Swept(g, u, f))
  {
    if u in g.universes {
      var targets := Targets(g, u, f);
      forall v | v in g.universes ensures InOrder(Swept(g, u, f).sessions, Swept(g, u, f).universes[v].active) {
        KeepInOrder(g.sessions, g.universes[v].active, if v == u then targets else {}, targets);
        KeepNothingDropped(g.universes[v].active);
      }
      FewerRegistrationsKeepOneHome(g, Swept(g, u, f));
    }
  }

  lemma KeepNothingDropped(xs: seq<SessionId>)
    ensures Keep(xs, {}) == xs
  {
    if xs != [] {
      KeepNothingDropped(xs[..|xs| - 1]);
    }
  }

  /** The adopted session follows every survivor: a survivor it conflicts with was cancelled already. */
  lemma AdoptedKeepsOrder(g: Registry, u: Universe, id: SessionId, session: Session, whole: bool)
    requires Sound(g) && id !in g.sessions
    ensures ListsInOrder(Adopted(g, u, id, session, false, whole))
  {
    var f := AdoptFilter(session, whole);
    SweptKeepsSound(g, u, f);
    var swept, next := Swept(g, u, f), Adopted(g, u, id, session, false, whole);
    var survivors := StateOf(swept, u).active;
    assert InOrder(swept.sessions, survivors);
    forall i | 0 <= i < |survivors| ensures Precedes(next.sessions[survivors[i]], next.sessions[id]) {
      assert survivors[i] in StateOf(g, u).active;
      assert survivors[i] !in Targets(g, u, f);
    }
    forall v | v in next.universes ensures InOrder(next.sessions, next.universes[v].active) {
      if v != u {
        assert InOrder(swept.sessions, swept.universes[v].active);
      }
    }
  }

  lemma AdoptedKeepsOneHome(g: Registry, u: Universe, id: SessionId, session: Session, whole: bool)
    requires Sound(g) && id !in g.sessions
    ensures OneHome(Adopted(g, u, id, session, false, whole))
  {
    var next := Adopted(g, u, id, session, false, whole);
    forall v, x | Registered(next, v, x) ensures (x == id && v == u) || (x != id && Registered(g, v, x)) {
      if v in g.universes {
        assert InOrder(g.sessions, g.universes[v].active);
      }
    }
  }

  lemma AdoptedKeepsSound(g: Registry, u: Universe, id: SessionId, session: Session, whole: bool)
    requires Sound(g) && id !in g.sessions
    ensures Sound(Adopted(g, u, id, session, false, whole))
  {
    AdoptedKeepsOrder(g, u, id, session, whole);
    AdoptedKeepsOneHome(g, u, id, session, whole);
  }

  /** Taking sessions off one list, and changing anything but the lists, keep the registry sound. */
  lemma PutKeepsSound(g: Registry, u: Universe, state: UniverseState<SessionId>, drop: set<SessionId>)
    requires Sound(g)
    requires state.active == Keep(StateOf(g, u).active, drop)
    requires state.shouldResume ==> state.playlist == Interrupted
    ensures Sound(Put(g, u, state))
  {
    CancelNobody(g.sessions);
    if u in g.universes {
      KeepInOrder(g.sessions, g.universes[u].active, drop, {});
    }
    FewerRegistrationsKeepOneHome(g, Put(g, u, state));
  }

  lemma SameListKeepsSound(g: Registry, u: Universe, state: UniverseState<SessionId>)
    requires Sound(g)
    requires state.active == StateOf(g, u).active
    requires state.shouldResume ==> state.playlist == Interrupted
    ensures Sound(Put(g, u, state))
  {
    KeepNothingDropped(state.active);
    PutKeepsSound(g, u, state, {});
  }

  lemma FlagKeepsSound(g: Registry, id: SessionId, session: Session)
    requires Sound(g) && id in g.sessions
    requires session == g.sessions[id].(cancelled := session.cancelled, notified := session.notified)
    requires g.sessions[id].cancelled ==> session.cancelled
    ensures Sound(g.(sessions := g.sessions[id := session]))
  {
    var next := g.(sessions := g.sessions[id := session]);
    forall u | u in next.universes ensures InOrder(next.sessions, next.universes[u].active) {
      var active := g.universes[u].active;
      assert InOrder(g.sessions, active);
      forall i, j | 0 <= i < j < |active| ensures Precedes(next.sessions[active[i]], next.sessions[active[j]]) {
        assert Precedes(g.sessions[active[i]], g.sessions[active[j]]);
      }
    }
    FewerRegistrationsKeepOneHome(g, next);
  }

  lemma StepKeepsSound(g: Registry, step: Step)
    requires Sound(g) && Enabled(g, step)
    ensures Sound(Apply(g, step))
  {
    match step
    case Adopt(u, id, session, whole) => AdoptedKeepsSound(g, u, id, session, whole);
    case MarkInterrupt(u, resume) => SameListKeepsSound(g, u, StateOf(g, u).WithPlaylist(Interrupted, resume));
    case RollBackInterrupt(u) => SameListKeepsSound(g, u, StateOf(g, u).WithPlaylist(Active, false));
    case ResumePlaylist(u) => SameListKeepsSound(g, u, StateOf(g, u).WithPlaylist(Active, false).WithPlaying(true));
    case ConsumeResume(u) =>
      if ResumeGranted(g, u) {
        SameListKeepsSound(g, u, StateOf(g, u).WithPlaylist(Active, false).WithPlaying(true));
      } else if StateOf(g, u).playlist == Interrupted {
        SameListKeepsSound(g, u, StateOf(g, u).(playlist := Stopped).WithHalted());
      }
    case CancelMatching(u, filter) => SweptKeepsSound(g, u, filter);
    case StopPlaylist(u) =>
      var state := StateOf(g, u).WithPlaylist(Stopped, false).WithHalted();
      SameListKeepsSound(g, u, state);
      SweptKeepsSound(Put(g, u, state), u, OfPlaylist);
    case StartPlaylist(u, playlistId) => SameListKeepsSound(g, u, PlaylistStarted(g, u, playlistId).universes[u]);
    case ClearSession(u, id) => PutKeepsSound(g, u, StateOf(g, u).WithActive(Keep(StateOf(g, u).active, {id})), {id});
    case AbortLoading(u, id) =>
      if Registered(g, u, id) && id in g.sessions && u in Apply(g, step).universes {
        PutKeepsSound(g, u, Apply(g, step).universes[u], {id});
      }
      FewerRegistrationsKeepOneHome(g, Apply(g, step));
    case SetStatus(u, status) => SameListKeepsSound(g, u, StatusSet(g, u, status).universes[u]);
    case ClearPlaylist(u) =>
      SameListKeepsSound(g, u, StateOf(g, u).WithoutPlaylist());
      FewerRegistrationsKeepOneHome(g, Apply(g, step));
    case Enqueue(u, animation) => SameListKeepsSound(g, u, Queued(g, u, animation).universes[u]);
    case Dequeue(u) => SameListKeepsSound(g, u, StateOf(Popped(g, u), u));
    case ClearQueue(u) => SameListKeepsSound(g, u, StateOf(QueueCleared(g, u), u));
    case SetCancelled(id) => FlagKeepsSound(g, id, g.sessions[id].(cancelled := true));
    case SetNotified(id) => FlagKeepsSound(g, id, g.sessions[id].(notified := true));
  }

  lemma {:induction false} RunKeepsSound(g: Registry, steps: seq<Step>)
    requires Sound(g) && Runs(g, steps)
    ensures Sound(After(g, steps))
    decreases |steps|
  {
    if steps != [] {
      StepKeepsSound(g, steps[0]);
      RunKeepsSound(Apply(g, steps[0]), steps[1..]);
    }
  }
}
