/**
 The cooperative scheduler: every refusal comes before adoption, a load rejected after adoption is unwound, and the
 finish callback decides between the queue, an interrupted playlist and the next playlist entry.
 */
module AnimationScheduling {
  import opened Wrappers
  import opened PlaybackSessions
  import opened SessionRegistry
  import opened SessionManagers
  import opened SessionRuns

  datatype Admission = Accepted | QueueFull | ShuttingDown

  /** What the rest of the server answers while one animation is being scheduled. */
  datatype Services = Services(
    eventLoop: bool,
    config: bool,
    sessionManager: bool,
    rtpMode: bool,
    executor: bool,
    reservation: Admission,
    submission: Admission,
    streaming: set<string>,
    decodes: string -> bool)

  datatype AnimationData = AnimationData(tracks: seq<Track>, msPerFrame: nat, frameCount: nat, hasSound: bool)

  datatype ScheduleError =
    | EventLoopUnavailable
    | ConfigUnavailable
    | SessionManagerUnavailable
    | InvalidTiming
    | CreatureStreaming(creature: string)
    | LoaderUnavailable
    | LoaderRefused(admission: Admission)
    | FramesUndecodable
    | LoadRejected(admission: Admission)

  /** Refused: nothing was adopted. Unwound: the session was adopted, then removed because its load was rejected. */
  datatype ScheduleResult =
    | Refused(error: ScheduleError)
    | Unwound(error: ScheduleError)
    | Scheduled(session: PlaybackSession, loading: bool)

  /** Everything that must hold before a request may displace what is playing. */
  ghost predicate Admissible(services: Services, animation: AnimationData) {
    && services.eventLoop && services.config && services.sessionManager
    && animation.msPerFrame > 0 && animation.frameCount > 0
    && (forall track | track in animation.tracks :: track.creatureId !in services.streaming)
    && (animation.hasSound && services.rtpMode ==> services.executor && services.reservation == Accepted)
    && (forall track | track in animation.tracks :: Decodable(services.decodes, track.frames))
  }

  /** The load job is rejected after the session was adopted, although a slot had been reserved. */
  predicate LoadTurnedAway(services: Services, animation: AnimationData) {
    animation.hasSound && services.rtpMode && services.submission != Accepted
  }

  /** A session as it is at the moment it is adopted. */
  ghost predicate Fresh(session: Session, animation: AnimationData, reason: ActivityReason) {
    && IsIdSnapshot(session.creatures, CreatureColumn(animation.tracks))
    && IsIdSnapshot(session.fixtures, FixtureColumn(animation.tracks))
    && session.reason == reason
    && !session.cancelled && !session.notified && !session.started && !session.finished && session.generation == 0
  }

  function Unwinding(g: Registry, u: Universe, id: SessionId): Registry
    requires id in g.sessions
  {
    LoadingAborted(FlagNotified(FlagCancelled(g, id), id), u, id)
  }

  /** Takes a session whose load failed out of the registry; stops its transport only if it was still there. */
  method UnwindAdoptedAudioSession(manager: SessionManager, session: PlaybackSession, u: Universe)
    returns (stoppedTransport: bool)
    requires manager.Valid() && manager.Known(session)
    modifies manager`universes, session`cancelled, session`cancellationNotified
    ensures manager.Valid()
    ensures manager.View() == Unwinding(old(manager.View()), u, session.id)
    ensures session.cancelled && session.cancellationNotified && !Registered(manager.View(), u, session.id)
    ensures stoppedTransport <==> Registered(old(manager.View()), u, session.id)
  {
    manager.FlagSessionCancelled(session);
    manager.FlagSessionNotified(session);
    var result := manager.AbortLoadingSession(u, session.id);
    stoppedTransport := result.sessionRemoved;
  }

  /** The creature of the first track whose creature is streamed live. */
  ghost predicate IsFirstStreaming(tracks: seq<Track>, streaming: set<string>, creature: string) {
    exists i :: 0 <= i < |tracks| && StreamsFirst(tracks, streaming, i) && tracks[i].creatureId == creature
  }

  ghost predicate StreamsFirst(tracks: seq<Track>, streaming: set<string>, i: nat)
    requires i < |tracks|
  {
    && tracks[i].creatureId in streaming
    && forall k | 0 <= k < i :: tracks[k].creatureId !in streaming
  }

  /** The refusals, in the order in which they are checked. */
  method FirstRefusal(services: Services, animation: AnimationData) returns (refusal: Option<ScheduleError>)
    ensures refusal.None? <==>
            && services.eventLoop && services.config && services.sessionManager
            && animation.msPerFrame > 0 && animation.frameCount > 0
            && (forall track | track in animation.tracks :: track.creatureId !in services.streaming)
            && (animation.hasSound && services.rtpMode ==> services.executor && services.reservation == Accepted)
    ensures refusal == Some(EventLoopUnavailable) <==> !services.eventLoop
    ensures refusal == Some(ConfigUnavailable) <==> services.eventLoop && !services.config
    ensures refusal == Some(SessionManagerUnavailable) <==>
              services.eventLoop && services.config && !services.sessionManager
    ensures refusal == Some(InvalidTiming) <==>
              && services.eventLoop && services.config && services.sessionManager
              && (animation.msPerFrame == 0 || animation.frameCount == 0)
    ensures forall creature :: refusal == Some(CreatureStreaming(creature)) <==>
              && services.eventLoop && services.config && services.sessionManager
              && animation.msPerFrame > 0 && animation.frameCount > 0
              && IsFirstStreaming(animation.tracks, services.streaming, creature)
    ensures refusal == Some(LoaderUnavailable) <==>
              && services.eventLoop && services.config && services.sessionManager
              && animation.msPerFrame > 0 && animation.frameCount > 0
              && (forall track | track in animation.tracks :: track.creatureId !in services.streaming)
              && animation.hasSound && services.rtpMode && !services.executor
    ensures forall admission :: refusal == Some(LoaderRefused(admission)) <==>
              && services.eventLoop && services.config && services.sessionManager
              && animation.msPerFrame > 0 && animation.frameCount > 0
              && (forall track | track in animation.tracks :: track.creatureId !in services.streaming)
              && animation.hasSound && services.rtpMode && services.executor
              && admission == services.reservation && admission != Accepted
    ensures refusal.Some? ==> !refusal.value.FramesUndecodable? && !refusal.value.LoadRejected?
  {
    if !services.eventLoop {
      return Some(EventLoopUnavailable);
    }
    if !services.config {
      return Some(ConfigUnavailable);
    }
    if !services.sessionManager {
      return Some(SessionManagerUnavailable);
    }
    if animation.msPerFrame == 0 || animation.frameCount == 0 {
      return Some(InvalidTiming);
    }
    for i := 0 to |animation.tracks|
      invariant forall k | 0 <= k < i :: animation.tracks[k].creatureId !in services.streaming
    {
      if animation.tracks[i].creatureId in services.streaming {
        return Some(CreatureStreaming(animation.tracks[i].creatureId));
      }
    }
    if animation.hasSound && services.rtpMode {
      if !services.executor {
        return Some(LoaderUnavailable);
      }
      if services.reservation != Accepted {
        return Some(LoaderRefused(services.reservation));
      }
    }
    return None;
  }

  /** A refused request leaves the registry exactly as it was; any other one has adopted its session. */
  method ScheduleAnimation(manager: SessionManager, services: Services, id: SessionId, animation: AnimationData,
                           u: Universe, reason: ActivityReason, whole: bool)
    returns (result: ScheduleResult, ghost adopted: Session)
    requires manager.Valid() && id !in manager.published
    modifies manager, manager.published.Values
    ensures manager.Valid()
    ensures result.Refused? <==> !Admissible(services, animation)
    ensures result.Refused? ==> manager.View() == old(manager.View())
    ensures !result.Refused? ==> Fresh(adopted, animation, reason)
    ensures result.Scheduled? ==>
              && result.session.id == id && manager.Known(result.session)
              && manager.View() == Adopted(old(manager.View()), u, id, adopted, false, whole)
    ensures result.Unwound? <==> Admissible(services, animation) && LoadTurnedAway(services, animation)
    ensures result.Unwound? ==>
              manager.View() == Unwinding(Adopted(old(manager.View()), u, id, adopted, false, whole), u, id)
  {
    adopted := Session([], [], reason, false, false, false, false, 0);
    var refusal := FirstRefusal(services, animation);
    if refusal.Some? {
      return Refused(refusal.value), adopted;
    }
    ghost var before := manager.View();
    var session := NewSession(id, animation, reason, services.decodes);
    assert manager.View() == before;
    if session.cancelled {
      return Refused(FramesUndecodable), adopted;
    }
    adopted := session.Snapshot();
    result := AdoptAndLoad(manager, services, session, animation.hasSound, u, whole, before, adopted);
  }

  /** A session from the animation's tracks, cancelled from birth exactly if some frame cannot be decoded. */
  method NewSession(id: SessionId, animation: AnimationData, reason: ActivityReason, decodes: string -> bool)
    returns (session: PlaybackSession)
    ensures fresh(session) && session.id == id
    ensures session.cancelled <==>
              exists track :: track in animation.tracks && !Decodable(decodes, track.frames)
    ensures !session.cancelled ==> Fresh(session.Snapshot(), animation, reason)
  {
    session := new PlaybackSession(id, animation.tracks, reason, decodes);
    assert (exists i :: 0 <= i < |animation.tracks| && !Decodable(decodes, animation.tracks[i].frames)) <==>
           exists track :: track in animation.tracks && !Decodable(decodes, track.frames);
  }

  /** Adopts a session that is ready, and unwinds it if its load is turned away. */
  method AdoptAndLoad(manager: SessionManager, services: Services, session: PlaybackSession, hasSound: bool,
                      u: Universe, whole: bool, ghost before: Registry, ghost ready: Session)
    returns (result: ScheduleResult)
    requires manager.Valid() && session.id !in manager.published
    requires manager.View() == before && session.Snapshot() == ready
    modifies manager, manager.published.Values, session
    ensures manager.Valid() && !result.Refused?
    ensures result.Unwound? <==> hasSound && services.rtpMode && services.submission != Accepted
    ensures result.Scheduled? ==>
              && result.session == session && manager.Known(session)
              && manager.View() == Adopted(before, u, session.id, ready, false, whole)
    ensures result.Unwound? ==>
              manager.View() == Unwinding(Adopted(before, u, session.id, ready, false, whole), u, session.id)
  {
    var cancelled := manager.RegisterSession(u, session, false, whole);
    if hasSound && services.rtpMode {
      if services.submission == Accepted {
        return Scheduled(session, true);
      }
      var stopped := UnwindAdoptedAudioSession(manager, session, u);
      return Unwound(LoadRejected(services.submission));
    }
    return Scheduled(session, false);
  }

  /**
   An interrupt pauses the playlist, adopts over the whole universe, and un-pauses if scheduling failed. When it is
   refused before adoption nothing has changed. When its load is rejected after adoption the playlist is put back too,
   although every session that was playing has been cancelled: a failed interrupt cancels nobody exactly when it was
   refused or nobody was playing.
   */
  method Interrupt(manager: SessionManager, services: Services, id: SessionId, animation: AnimationData, u: Universe,
                   resume: bool)
    returns (result: ScheduleResult, ghost adopted: Session)
    requires manager.Valid() && Sound(manager.View()) && id !in manager.published
    modifies manager, manager.published.Values
    ensures manager.Valid() && Sound(manager.View())
    ensures result.Refused? <==> !Admissible(services, animation)
    ensures result.Refused? ==> manager.View() == old(manager.View())
    ensures result.Scheduled? ==>
              manager.View() == Adopted(InterruptMarked(old(manager.View()), u, resume), u, id, adopted, false, true)
    ensures !result.Refused? ==>
              forall older | older in old(manager.View()).sessions :: !Live(manager.View(), u, older)
    ensures result.Unwound? && StateOf(old(manager.View()), u).playlist == Active ==>
              StateOf(manager.View(), u).playlist == Active && forall x :: !Live(manager.View(), u, x)
    ensures result.Unwound? <==> Admissible(services, animation) && LoadTurnedAway(services, animation)
    ensures result.Unwound? ==> manager.View() == InterruptOutcome(old(manager.View()), u, resume, id, adopted, true)
    ensures !result.Scheduled? ==>
              (CancelsNobody(old(manager.View()), manager.View(), u) <==>
               result.Refused? || forall x :: !Live(old(manager.View()), u, x))
  {
    adopted := Session([], [], AdHoc, false, false, false, false, 0);
    if !services.eventLoop {
      return Refused(EventLoopUnavailable), adopted;
    }
    ghost var before := manager.View();
    var interrupted := manager.MarkInterrupted(u, resume);
    ghost var marked := manager.View();
    result, adopted := ScheduleAnimation(manager, services, id, animation, u, AdHoc, true);
    ghost var scheduled := manager.View();
    if !result.Scheduled? && interrupted {
      manager.RollBackInterrupt(u);
    }
    if result.Refused? {
      RefusedInterruptLeavesNoTrace(before, u, resume);
    } else {
      InterruptedRegistry(before, u, resume, id, adopted, result.Unwound?);
      forall x | Live(before, u, x) ensures x in before.sessions {
      }
    }
  }

  predicate CancelsNobody(before: Registry, after: Registry, u: Universe) {
    forall x | x in StateOf(before, u).active && Live(before, u, x) :: Live(after, u, x)
  }

  function InterruptOutcome(g: Registry, u: Universe, resume: bool, id: SessionId, session: Session, unwound: bool)
    : Registry
  {
    var next := Adopted(InterruptMarked(g, u, resume), u, id, session, false, true);
    if !unwound then next
    else if StateOf(g, u).playlist == Active then InterruptRolledBack(Unwinding(next, u, id), u)
    else Unwinding(next, u, id)
  }

  /** Adoption over the whole universe leaves none of the earlier sessions live there. */
  lemma InterruptClearsUniverse(g: Registry, u: Universe, id: SessionId, session: Session, older: SessionId)
    requires older in g.sessions && id !in g.sessions
    ensures !Live(Adopted(g, u, id, session, false, true), u, older)
  {
    var next := Adopted(g, u, id, session, false, true);
    assert Targeted(g.sessions, Everyone, older) <==> !g.sessions[older].cancelled;
    assert older in StateOf(g, u).active ==> next.sessions[older].cancelled;
  }

  /** Unwinding a session that no playlist owns takes it off the registry and leaves the playlist alone. */
  lemma UnwindingRemovesOnlyItsSession(g: Registry, u: Universe, id: SessionId)
    requires Sound(g) && id in g.sessions && g.sessions[id].reason != Playlist
    ensures Sound(Unwinding(g, u, id))
    ensures StateOf(Unwinding(g, u, id), u).playlist == StateOf(g, u).playlist
    ensures forall x :: Registered(Unwinding(g, u, id), u, x) <==> Registered(g, u, x) && x != id
    ensures forall x | Live(Unwinding(g, u, id), u, x) :: Live(g, u, x) && x != id
  {
    var flagged := FlagNotified(FlagCancelled(g, id), id);
    StepKeepsSound(g, SetCancelled(id));
    StepKeepsSound(FlagCancelled(g, id), SetNotified(id));
    StepKeepsSound(flagged, AbortLoading(u, id));
  }

  lemma AdoptedJoins(g: Registry, u: Universe, id: SessionId, session: Session)
    ensures var next := Adopted(g, u, id, session, false, true);
            && next.sessions.Keys == g.sessions.Keys + {id}
            && next.sessions[id].reason == session.reason
            && StateOf(next, u).playlist == StateOf(g, u).playlist
  {
  }

  lemma InterruptAdopts(g: Registry, u: Universe, resume: bool, id: SessionId, session: Session)
    requires Sound(g) && id !in g.sessions && !session.cancelled
    ensures var next := Adopted(InterruptMarked(g, u, resume), u, id, session, false, true);
            && Sound(next)
            && next.sessions.Keys == g.sessions.Keys + {id}
            && next.sessions[id].reason == session.reason
            && StateOf(next, u).playlist == StateOf(InterruptMarked(g, u, resume), u).playlist
            && (forall older | older in g.sessions :: !Live(next, u, older))
  {
    var marked := InterruptMarked(g, u, resume);
    StepKeepsSound(g, MarkInterrupt(u, resume));
    AdoptedJoins(marked, u, id, session);
    AdoptedKeepsSound(marked, u, id, session, true);
    forall older | older in g.sessions ensures !Live(Adopted(marked, u, id, session, false, true), u, older) {
      InterruptClearsUniverse(marked, u, id, session, older);
    }
  }

  lemma UnwoundInterruptLeavesSilence(g: Registry, u: Universe, resume: bool, id: SessionId, session: Session)
    requires Sound(g) && id !in g.sessions && !session.cancelled && session.reason == AdHoc
    ensures var gone := Unwinding(Adopted(InterruptMarked(g, u, resume), u, id, session, false, true), u, id);
            && Sound(gone)
            && StateOf(gone, u).playlist == StateOf(InterruptMarked(g, u, resume), u).playlist
            && (forall x :: !Live(gone, u, x))
  {
    var next := Adopted(InterruptMarked(g, u, resume), u, id, session, false, true);
    InterruptAdopts(g, u, resume, id, session);
    UnwindingRemovesOnlyItsSession(next, u, id);
    forall x ensures !Live(Unwinding(next, u, id), u, x) {
      assert x in next.sessions ==> x == id || x in g.sessions;
    }
  }

  lemma RollBackTouchesNoSession(g: Registry, u: Universe)
    ensures forall x :: Live(InterruptRolledBack(g, u), u, x) <==> Live(g, u, x)
  {
  }

  lemma InterruptedRegistry(g: Registry, u: Universe, resume: bool, id: SessionId, session: Session, unwound: bool)
    requires Sound(g) && id !in g.sessions && !session.cancelled && session.reason == AdHoc
    ensures Sound(InterruptOutcome(g, u, resume, id, session, unwound))
    ensures forall older | older in g.sessions :: !Live(InterruptOutcome(g, u, resume, id, session, unwound), u, older)
    ensures unwound && StateOf(g, u).playlist == Active ==>
              var next := InterruptOutcome(g, u, resume, id, session, unwound);
              StateOf(next, u).playlist == Active && forall x :: !Live(next, u, x)
  {
    InterruptAdopts(g, u, resume, id, session);
    if unwound {
      var gone := Unwinding(Adopted(InterruptMarked(g, u, resume), u, id, session, false, true), u, id);
      UnwoundInterruptLeavesSilence(g, u, resume, id, session);
      StepKeepsSound(gone, RollBackInterrupt(u));
      RollBackTouchesNoSession(gone, u);
    }
  }

  /** A playlist's session plays; an interrupt is turned away after adoption, and has cancelled the session. */
  lemma FailedInterruptSilencesPlaylist(s: Session, t: Session, resume: bool)
    requires !s.cancelled && !t.cancelled && t.reason == AdHoc
    ensures var steps := [Adopt(0, 1, s, true), StartPlaylist(0, "list")];
            && Runs(EMPTY, steps)
            && var before, after := After(EMPTY, steps), InterruptOutcome(After(EMPTY, steps), 0, resume, 2, t, true);
               && Live(before, 0, 1) && StateOf(before, 0).playlist == Active
               && after.sessions[1].cancelled && StateOf(after, 0).playlist == Active
               && (forall x :: !Live(after, 0, x))
  {
    var steps := [Adopt(0, 1, s, true), StartPlaylist(0, "list")];
    var first := Apply(EMPTY, steps[0]);
    var before := Apply(first, steps[1]);
    assert steps[1..] == [steps[1]] && [steps[1]][1..] == [];
    assert Runs(before, []) && After(before, []) == before;
    assert Runs(first, steps[1..]) && After(first, steps[1..]) == before;
    assert Runs(EMPTY, steps) && After(EMPTY, steps) == After(first, steps[1..]);
    assert StateOf(before, 0).active == [1] && [1][0] == 1;
    RunKeepsSound(EMPTY, steps);
    InterruptedRegistry(before, 0, resume, 2, t, true);
    FirstIsCancelled(before, resume, t);
  }

  lemma FirstIsCancelled(g: Registry, resume: bool, t: Session)
    requires Sound(g) && Live(g, 0, 1) && 2 !in g.sessions && !t.cancelled && t.reason == AdHoc
    ensures var after := InterruptOutcome(g, 0, resume, 2, t, true);
            1 in after.sessions && after.sessions[1].cancelled
  {
    var marked := InterruptMarked(g, 0, resume);
    var adopted := Adopted(marked, 0, 2, t, false, true);
    EveryoneIsCancelled(marked, t);
    UnwindingKeepsFlags(adopted, 0, 2);
  }

  lemma EveryoneIsCancelled(g: Registry, t: Session)
    requires Live(g, 0, 1)
    ensures var adopted := Adopted(g, 0, 2, t, false, true);
            1 in adopted.sessions && adopted.sessions[1].cancelled && 2 in adopted.sessions
  {
    assert 1 in Targets(g, 0, Everyone);
  }

  lemma UnwindingKeepsFlags(g: Registry, u: Universe, id: SessionId)
    requires id in g.sessions
    ensures forall x | x in g.sessions && g.sessions[x].cancelled ::
              x in Unwinding(g, u, id).sessions && Unwinding(g, u, id).sessions[x].cancelled
    ensures InterruptRolledBack(Unwinding(g, u, id), u).sessions == Unwinding(g, u, id).sessions
  {
  }

  // ----- The finish callback -----

  datatype FinishEffect =
    | Skipped                                  // the session was cancelled
    | NextQueued(animation: Animation, scheduled: bool) // the queue continues, or its next animation is lost
    | ResumeDecided(granted: bool)             // an interrupted playlist was resumed or stopped
    | PlaylistContinues                        // the playlist's next event was scheduled
    | NothingToDo

  /**
   The queue's next animation takes over. Whatever comes of it, the playlist is left as it was; and if the animation
   cannot be scheduled, no other session starts in its place.
   */
  method ScheduleQueued(manager: SessionManager, services: Services, id: SessionId, animation: AnimationData,
                        u: Universe, finished: SessionId)
    returns (scheduled: bool)
    requires manager.Valid() && id !in manager.published && finished in manager.published
    requires Sound(manager.View()) && !Registered(manager.View(), u, finished)
    modifies manager, manager.published.Values
    ensures manager.Valid()
    ensures StateOf(manager.View(), u).playlist == StateOf(old(manager.View()), u).playlist
    ensures !Registered(manager.View(), u, finished)
    ensures scheduled <==> Admissible(services, animation) && !LoadTurnedAway(services, animation)
    ensures scheduled ==> Live(manager.View(), u, id)
    ensures !scheduled ==> NobodyStarts(old(manager.View()), manager.View(), u)
    ensures !Admissible(services, animation) ==> manager.View() == old(manager.View())
    ensures StateOf(manager.View(), u).queue
            == if scheduled || !Admissible(services, animation) then StateOf(old(manager.View()), u).queue else []
  {
    ghost var before := manager.View();
    var result, adopted := ScheduleAnimation(manager, services, id, animation, u, AdHoc, false);
    scheduled := result.Scheduled?;
    if !result.Refused? {
      AdoptedKeepsSound(before, u, id, adopted, false);
      if result.Unwound? {
        UnwindingRemovesOnlyItsSession(Adopted(before, u, id, adopted, false, false), u, id);
      }
      AdoptedIsLive(before, u, id, adopted);
      QueueAfterAdoption(before, u, id, adopted);
    }
  }

  lemma QueueAfterAdoption(g: Registry, u: Universe, id: SessionId, session: Session)
    ensures StateOf(Adopted(g, u, id, session, false, false), u).queue == StateOf(g, u).queue
    ensures StateOf(Unwinding(Adopted(g, u, id, session, false, false), u, id), u).queue == []
  {
    var adopted := Adopted(g, u, id, session, false, false);
    var active := StateOf(adopted, u).active;
    assert active[|active| - 1] == id;
  }

  predicate NobodyStarts(before: Registry, after: Registry, u: Universe) {
    forall x | x in StateOf(after, u).active && Live(after, u, x) :: Live(before, u, x)
  }

  lemma AdoptedIsLive(g: Registry, u: Universe, id: SessionId, session: Session)
    requires id !in g.sessions && !session.cancelled
    ensures Live(Adopted(g, u, id, session, false, false), u, id)
    ensures forall x | Live(Adopted(g, u, id, session, false, false), u, x) :: x == id || Live(g, u, x)
  {
    var next := Adopted(g, u, id, session, false, false);
    var active := StateOf(next, u).active;
    assert active[|active| - 1] == id;
  }

  lemma NobodyJoins(g: Registry, u: Universe, id: SessionId)
    ensures forall x :: Live(Popped(SessionCleared(g, u, id), u), u, x) ==> Live(g, u, x)
  {
  }

  lemma ClearedKeepsTheRest(g: Registry, u: Universe, id: SessionId)
    requires Sound(g)
    ensures Sound(SessionCleared(g, u, id)) && Sound(Popped(SessionCleared(g, u, id), u))
    ensures !Registered(SessionCleared(g, u, id), u, id) && !Registered(Popped(SessionCleared(g, u, id), u), u, id)
    ensures forall v :: StateOf(SessionCleared(g, u, id), v).queue == StateOf(g, v).queue
    ensures forall v :: StateOf(SessionCleared(g, u, id), v).playlist == StateOf(g, v).playlist
    ensures forall v :: StateOf(SessionCleared(g, u, id), v).shouldResume == StateOf(g, v).shouldResume
  {
    StepKeepsSound(g, ClearSession(u, id));
    StepKeepsSound(SessionCleared(g, u, id), Dequeue(u));
  }

  /**
   The finish with no other thread between its sections. A cancelled session's pops nothing and leaves every playlist
   alone. A natural one decides an interrupted playlist exactly when its pop found the queue empty: so an animation that
   is popped and cannot be scheduled is lost, and leaves an interrupted playlist undecided with nobody to decide it.
   */
  method OnFinish(manager: SessionManager, session: PlaybackSession, u: Universe, services: Services,
                  library: Animation -> AnimationData, nextId: SessionId)
    returns (effect: FinishEffect)
    requires manager.Valid() && manager.Known(session) && nextId !in manager.published
    requires Sound(manager.View())
    modifies manager, manager.published.Values
    ensures manager.Valid() && !Registered(manager.View(), u, session.id)
    ensures effect.Skipped? <==> old(session.cancelled)
    ensures effect.Skipped? ==>
              forall v :: StateOf(manager.View(), v).queue == StateOf(old(manager.View()), v).queue
                          && StateOf(manager.View(), v).playlist == StateOf(old(manager.View()), v).playlist
    ensures effect.NextQueued? <==> !old(session.cancelled) && StateOf(old(manager.View()), u).queue != []
    ensures effect.NextQueued? ==>
              && effect.animation == StateOf(old(manager.View()), u).queue[0]
              && StateOf(manager.View(), u).queue
                 == (if effect.scheduled || !Admissible(services, library(effect.animation))
                     then StateOf(old(manager.View()), u).queue[1..] else [])
              && StateOf(manager.View(), u).playlist == StateOf(old(manager.View()), u).playlist
              && (effect.scheduled <==> Admissible(services, library(effect.animation))
                                        && !LoadTurnedAway(services, library(effect.animation)))
              && (effect.scheduled ==> Live(manager.View(), u, nextId))
              && (!effect.scheduled ==> NobodyStarts(old(manager.View()), manager.View(), u))
              && (!Admissible(services, library(effect.animation)) ==>
                    manager.View() == Popped(SessionCleared(old(manager.View()), u, session.id), u))
    ensures effect.ResumeDecided? <==>
              && !old(session.cancelled) && StateOf(old(manager.View()), u).queue == []
              && StateOf(old(manager.View()), u).playlist == Interrupted
    ensures effect.ResumeDecided? ==>
              && effect.granted == StateOf(old(manager.View()), u).shouldResume
              && StateOf(manager.View(), u).playlist == if effect.granted then Active else Stopped
    ensures effect.PlaylistContinues? <==>
              && !old(session.cancelled) && StateOf(old(manager.View()), u).queue == [] && services.eventLoop
              && session.reason == Playlist && StateOf(old(manager.View()), u).playlist == Active
  {
    ghost var before := manager.View();
    ClearedKeepsTheRest(before, u, session.id);
    PopTakesFront(SessionCleared(before, u, session.id), u);
    var wasCancelled := session.cancelled;
    manager.ClearSession(u, session.id);
    if wasCancelled {
      return Skipped;
    }
    var next := manager.PopQueuedAnimation(u);
    if next.Some? {
      ghost var popped := manager.View();
      var scheduled := ScheduleQueued(manager, services, nextId, library(next.value), u, session.id);
      NobodyJoins(before, u, session.id);
      return NextQueued(next.value, scheduled);
    }
    effect := FinishWithoutQueue(manager, session, u, services);
  }

  /** With nothing queued: an interrupted playlist gets its decision, an active one its next entry. */
  method FinishWithoutQueue(manager: SessionManager, session: PlaybackSession, u: Universe, services: Services)
    returns (effect: FinishEffect)
    requires manager.Valid()
    modifies manager`universes
    ensures manager.Valid()
    ensures !effect.Skipped? && !effect.NextQueued?
    ensures effect.ResumeDecided? <==> StateOf(old(manager.View()), u).playlist == Interrupted
    ensures effect.ResumeDecided? ==>
              && effect.granted == StateOf(old(manager.View()), u).shouldResume
              && StateOf(manager.View(), u).playlist == if effect.granted then Active else Stopped
    ensures effect.PlaylistContinues? <==>
              services.eventLoop && session.reason == Playlist && StateOf(old(manager.View()), u).playlist == Active
    ensures forall x :: Registered(manager.View(), u, x) <==> Registered(old(manager.View()), u, x)
  {
    var paused := manager.HasInterruptedPlaylist(u);
    if paused {
      var granted := manager.ConsumeInterruptResumeDecision(u);
      return ResumeDecided(granted);
    }
    if session.reason == Playlist && manager.Find(u).playlist == Active && services.eventLoop {
      return PlaylistContinues;
    }
    return NothingToDo;
  }
}
