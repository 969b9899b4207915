/** The session manager, with sessions shared by reference and its state updated in place under the mutex. */
module SessionManagers {
  import opened Wrappers
  import opened PlaybackSessions
  import opened SessionRegistry
  import opened Cancellations

  datatype AbortResult = AbortResult(sessionRemoved: bool, playlistCleared: bool, dropped: nat)

  function Ids(sessions: seq<PlaybackSession>): (ids: seq<SessionId>) {
    seq(|sessions|, i requires 0 <= i < |sessions| => sessions[i].id)
  }

  /** The same state with every session named by its id. */
  function Named(state: UniverseState<PlaybackSession>): UniverseState<SessionId> {
    UniverseState(Ids(state.active), state.playlist, state.shouldResume, state.playlistId, state.status, state.queue)
  }

  lemma IdsGrow(all: seq<PlaybackSession>, i: nat)
    requires i < |all| && NoDuplicates(Ids(all))
    ensures all[i].id in Ids(all) && all[i].id !in Ids(all)[..i]
    ensures Ids(all)[..i + 1] == Ids(all)[..i] + [all[i].id]
    ensures Ids(all)[..i + 1][..i] == Ids(all)[..i]
    ensures all[..i + 1] == all[..i] + [all[i]]
  {
    assert Ids(all)[i] == all[i].id;
  }

  ghost predicate AllIn(known: map<SessionId, PlaybackSession>, sessions: seq<PlaybackSession>) {
    forall s | s in sessions :: s.id in known && known[s.id] == s
  }

  lemma Append(known: map<SessionId, PlaybackSession>, sessions: seq<PlaybackSession>, s: PlaybackSession)
    requires AllIn(known, sessions) && s.id in known && known[s.id] == s
    ensures AllIn(known, sessions + [s])
    ensures Ids(sessions + [s]) == Ids(sessions) + [s.id]
  {
  }

  class SessionManager {
    var universes: map<Universe, UniverseState<PlaybackSession>>
    var nextActivityGeneration: nat

    // Every session ever published, by id.
    ghost var published: map<SessionId, PlaybackSession>

    ghost predicate Known(s: PlaybackSession)
      reads this
    {
      s.id in published && published[s.id] == s
    }

    ghost predicate Distinct(sessions: seq<PlaybackSession>)
      reads this
    {
      AllKnown(sessions) && NoDuplicates(Ids(sessions))
    }

    ghost predicate AllKnown(sessions: seq<PlaybackSession>)
      reads this
    {
      AllIn(published, sessions)
    }

    ghost predicate Valid()
      reads this
    {
      && (forall id | id in published :: published[id].id == id)
      && (forall u | u in universes :: Distinct(universes[u].active))
    }

    ghost function View(): Registry
      reads this, published.Values
    {
      Registry(
        map u | u in universes :: Named(universes[u]),
        map id | id in published :: published[id].Snapshot(),
        nextActivityGeneration)
    }

    lemma ViewIsListed()
      requires Valid()
      ensures Listed(View())
    {
      forall u: Universe
        ensures NoDuplicates(StateOf(View(), u).active)
        ensures forall x | x in StateOf(View(), u).active :: x in View().sessions {
        if u in universes {
          assert StateOf(View(), u).active == Ids(universes[u].active);
        }
      }
    }

    constructor ()
      ensures Valid() && View() == EMPTY && published == map[]
    {
      universes := map[];
      nextActivityGeneration := 1;
      published := map[];
    }

    function Find(u: Universe): UniverseState<PlaybackSession>
      reads this
    {
      if u in universes then universes[u] else UniverseState([], NoPlaylist, false, "", None, [])
    }

    method Store(u: Universe, state: UniverseState<PlaybackSession>)
      requires Valid()
      requires Distinct(state.active)
      modifies this`universes
      ensures Valid() && universes == old(universes)[u := state]
      ensures View() == Put(old(View()), u, Named(state))
    {
      universes := universes[u := state];
    }

    method Forget(u: Universe)
      requires Valid()
      modifies this`universes
      ensures Valid() && universes == old(universes) - {u}
      ensures View() == Without(old(View()), u)
    {
      universes := universes - {u};
      assert View().universes == old(View()).universes - {u};
    }

    /** The test a cancelling loop applies to each registered session. */
    predicate Selects(f: Filter, s: PlaybackSession)
      reads s
      ensures Selects(f, s) <==> !s.Snapshot().cancelled && Matches(f, s.Snapshot())
    {
      !s.cancelled &&
      match f
      case ConflictingWith(t) =>
        || (exists id :: id in s.creatureIds && id in t.creatures)
        || (exists id :: id in s.fixtureIds && id in t.fixtures)
      case Everyone => true
      case Involving(creatures) => exists c :: c in s.creatureIds && c in creatures
      case IdleOf(c) => s.reason == Idle && c != "" && c in s.creatureIds
      case OfPlaylist => s.reason == Playlist
    }

    /** The flags as they stand once the targets among done have been cancelled. */
    ghost predicate Flagged(before: map<SessionId, Session>, done: seq<SessionId>, targets: set<SessionId>)
      reads this, published.Values
    {
      && published.Keys == before.Keys
      && (forall id | id in published && (id !in targets || id !in done) :: published[id].Snapshot() == before[id])
      && (forall id | id in published && id in targets && id in done ::
            published[id].Snapshot() == CancelLocked(before[id]))
    }

    method CancelSessionLocked(s: PlaybackSession, ghost before: map<SessionId, Session>, ghost done: seq<SessionId>,
                               ghost targets: set<SessionId>)
      requires Valid() && s.id in published && published[s.id] == s
      requires s.id in targets && s.id !in done
      requires Flagged(before, done, targets)
      modifies s`cancelled, s`cancellationNotified
      ensures Flagged(before, done + [s.id], targets)
    {
      s.Cancel();
      s.MarkCancellationNotified();
      assert forall id | id in published && id != s.id :: published[id] != s;
    }

    method CancelIfSelected(s: PlaybackSession, f: Filter, ghost before: map<SessionId, Session>,
                            ghost done: seq<SessionId>, ghost targets: set<SessionId>)
      returns (selected: bool)
      requires Valid() && Known(s) && s.id !in done && s.id in before
      requires s.id in targets <==> !before[s.id].cancelled && Matches(f, before[s.id])
      requires Flagged(before, done, targets)
      modifies s`cancelled, s`cancellationNotified
      ensures selected <==> s.id in targets
      ensures Flagged(before, done + [s.id], targets)
    {
      assert s.Snapshot() == before[s.id];
      selected := Selects(f, s);
      if selected {
        CancelSessionLocked(s, before, done, targets);
      }
    }

    /** One pass over a universe's list: the selected sessions are cancelled, the others collected in order. */
    method Partition(u: Universe, f: Filter) returns (survivors: seq<PlaybackSession>, cancelled: seq<PlaybackSession>)
      requires Valid() && u in universes
      modifies published.Values
      ensures Flagged(old(View()).sessions, Ids(universes[u].active), Targets(old(View()), u, f))
      ensures Ids(survivors) == Keep(Ids(universes[u].active), Targets(old(View()), u, f))
      ensures Ids(cancelled) == Pick(Ids(universes[u].active), Targets(old(View()), u, f))
      ensures AllKnown(survivors) && AllKnown(cancelled)
    {
      var all := universes[u].active;
      ghost var before := View();
      ghost var targets := Targets(before, u, f);
      ghost var known := published;
      assert StateOf(before, u).active == Ids(all);
      assert AllIn(known, all);
      survivors, cancelled := [], [];
      for i := 0 to |all|
        invariant Ids(survivors) == Keep(Ids(all)[..i], targets)
        invariant Ids(cancelled) == Pick(Ids(all)[..i], targets)
        invariant AllIn(known, survivors) && AllIn(known, cancelled)
        invariant Flagged(before.sessions, Ids(all)[..i], targets)
      {
        var s := all[i];
        IdsGrow(all, i);
        assert Known(s) && s.id in published;
        var selected := CancelIfSelected(s, f, before.sessions, Ids(all)[..i], targets);
        if selected {
          Append(known, cancelled, s);
          cancelled := cancelled + [s];
        } else {
          Append(known, survivors, s);
          survivors := survivors + [s];
        }
      }
      assert Ids(all)[..|all|] == Ids(all);
    }

    /** Cancels what the filter selects and keeps the rest, in order; the caller holds the mutex. */
    method CancelSelected(u: Universe, f: Filter) returns (cancelled: seq<PlaybackSession>)
      requires Valid() && u in universes
      modifies this`universes, published.Values
      ensures Valid() && published == old(published)
      ensures View() == Swept(old(View()), u, f)
      ensures Ids(cancelled) == Pick(Ids(old(universes[u].active)), Targets(old(View()), u, f))
      ensures ReportsTaken(Ids(cancelled), old(View()), View(), u) && KeepsOrder(old(View()), View(), u, [])
    {
      ghost var before := View();
      ViewIsListed();
      var survivors;
      survivors, cancelled := Partition(u, f);
      KeepHasNoDuplicates(Ids(universes[u].active), Targets(before, u, f));
      KeepSurvivors(u, f, survivors, before);
      SweepTakesTargets(before, u, f);
      PickReportsTaken(before, View(), u, Targets(before, u, f));
    }

    /** Ends a sweep whose targets have been flagged: the survivors become the universe's list. */
    method KeepSurvivors(u: Universe, f: Filter, survivors: seq<PlaybackSession>, ghost before: Registry)
      requires Valid() && u in universes && Distinct(survivors)
      requires View().universes == before.universes && nextActivityGeneration == before.nextGeneration
      requires Ids(survivors) == Keep(before.universes[u].active, Targets(before, u, f))
      requires Flagged(before.sessions, before.universes[u].active, Targets(before, u, f))
      modifies this`universes
      ensures Valid() && View() == Swept(before, u, f)
    {
      Store(u, universes[u].WithActive(survivors));
      ViewIsSwept(before, u, f, Targets(before, u, f));
    }

    lemma ViewIsSwept(before: Registry, u: Universe, f: Filter, targets: set<SessionId>)
      requires u in universes && universes.Keys == before.universes.Keys
      requires targets == Targets(before, u, f)
      requires forall v | v in universes && v != u :: Named(universes[v]) == before.universes[v]
      requires Named(universes[u]) == before.universes[u].WithActive(Keep(before.universes[u].active, targets))
      requires Flagged(before.sessions, before.universes[u].active, targets)
      requires nextActivityGeneration == before.nextGeneration
      ensures View() == Swept(before, u, f)
    {
      assert View().sessions == CancelAll(before.sessions, targets);
      assert View().universes == Swept(before, u, f).universes;
    }

    /** Registering nothing does nothing; registering a session adopts it. */
    method RegisterSession(u: Universe, session: PlaybackSession?, isPlaylist: bool, whole: bool)
      returns (cancelled: seq<PlaybackSession>)
      requires Valid() && (session != null ==> session.id !in published)
      modifies this, published.Values, {session}
      ensures Valid()
      ensures session == null ==> View() == old(View()) && cancelled == []
      ensures session != null ==>
                && published == old(published)[session.id := session]
                && View() == Adopted(old(View()), u, session.id, old(session.Snapshot()), isPlaylist, whole)
                && Ids(cancelled) == Pick(StateOf(old(View()), u).active,
                                          Targets(old(View()), u, AdoptFilter(old(session.Snapshot()), whole)))
                && DisplacesExactly(old(View()), View(), u, old(session.Snapshot()), whole)
                && ReportsTaken(Ids(cancelled), old(View()), View(), u)
                && KeepsOrder(old(View()), View(), u, [session.id])
                && StateOf(View(), u).queue == StateOf(old(View()), u).queue
                && StateOf(View(), u).playlist == if isPlaylist then Active else StateOf(old(View()), u).playlist
    {
      cancelled := [];
      if session != null {
        ghost var before, ready := View(), session.Snapshot();
        ViewIsListed();
        cancelled := AdoptSession(u, session, isPlaylist, whole);
        AdoptionDisplacesExactly(before, u, session.id, ready, isPlaylist, whole);
        AdoptionTakesTargets(before, u, session.id, ready, isPlaylist, whole);
        PickReportsTaken(before, View(), u, Targets(before, u, AdoptFilter(ready, whole)));
      }
    }

    /** Adoption: mints the generation, cancels what the new session displaces and registers it, in one section. */
    method AdoptSession(u: Universe, session: PlaybackSession, isPlaylist: bool, whole: bool)
      returns (cancelled: seq<PlaybackSession>)
      requires Valid() && session.id !in published
      modifies this, published.Values, session
      ensures Valid() && published == old(published)[session.id := session]
      ensures View() == Adopted(old(View()), u, session.id, old(session.Snapshot()), isPlaylist, whole)
      ensures Ids(cancelled) == Pick(StateOf(old(View()), u).active,
                                     Targets(old(View()), u, AdoptFilter(old(session.Snapshot()), whole)))
    {
      cancelled := Displace(u, session, AdoptFilter(session.Snapshot(), whole));
      Publish(u, session);
      Join(u, session, isPlaylist);
    }

    /** The first half of adoption: the generation, then the cancellations. */
    method Displace(u: Universe, session: PlaybackSession, f: Filter) returns (cancelled: seq<PlaybackSession>)
      requires Valid() && session.id !in published
      modifies this`universes, this`nextActivityGeneration, published.Values, session`activityGeneration
      ensures Valid() && published == old(published)
      ensures View() == Swept(old(View()), u, f).(nextGeneration := old(View()).nextGeneration + 1)
      ensures session.Snapshot() == old(session.Snapshot()).(generation := old(View()).nextGeneration)
      ensures Ids(cancelled) == Pick(StateOf(old(View()), u).active, Targets(old(View()), u, f))
    {
      ghost var before := View();
      Mint(session);
      SweptIgnoresGeneration(before, u, f, before.nextGeneration + 1);
      cancelled := [];
      if u in universes {
        cancelled := CancelSelected(u, f);
      }
    }

    method Mint(session: PlaybackSession)
      requires Valid() && session.id !in published
      modifies this`nextActivityGeneration, session`activityGeneration
      ensures Valid() && session !in published.Values
      ensures View() == old(View()).(nextGeneration := old(View()).nextGeneration + 1)
      ensures session.Snapshot() == old(session.Snapshot()).(generation := old(View()).nextGeneration)
    {
      assert session !in published.Values;
      session.activityGeneration := nextActivityGeneration;
      nextActivityGeneration := nextActivityGeneration + 1;
    }

    method Join(u: Universe, session: PlaybackSession, isPlaylist: bool)
      requires Valid() && Known(session) && session.id !in Ids(Find(u).active)
      modifies this`universes
      ensures Valid()
      ensures var state := StateOf(old(View()), u);
              var joined := state.WithActive(state.active + [session.id]);
              View() == Put(old(View()), u, if isPlaylist then joined.(playlist := Active) else joined)
    {
      var state := Find(u).WithActive(Find(u).active + [session]);
      Append(published, Find(u).active, session);
      Store(u, if isPlaylist then state.(playlist := Active) else state);
    }

    /** Makes a session known; it is on no list yet. */
    ghost method Publish(u: Universe, session: PlaybackSession)
      requires Valid() && session.id !in published
      modifies this`published
      ensures Valid() && published == old(published)[session.id := session]
      ensures View() == old(View()).(sessions := old(View()).sessions[session.id := session.Snapshot()])
      ensures session.id !in Ids(Find(u).active)
    {
      var active := Find(u).active;
      forall i | 0 <= i < |active| ensures Ids(active)[i] != session.id {
        assert active[i] in universes[u].active && Known(active[i]);
      }
      published := published[session.id := session];
    }

    /** Pauses an active playlist ahead of an interrupt, and says whether it did. */
    method MarkInterrupted(u: Universe, resume: bool) returns (interrupted: bool)
      requires Valid()
      modifies this`universes
      ensures Valid() && View() == InterruptMarked(old(View()), u, resume)
      ensures interrupted <==> StateOf(old(View()), u).playlist == Active
    {
      interrupted := Find(u).playlist == Active;
      if interrupted {
        Store(u, Find(u).WithPlaylist(Interrupted, resume));
      }
    }

    /** Undoes the pause of an interrupt that could not be scheduled. */
    method RollBackInterrupt(u: Universe)
      requires Valid()
      modifies this`universes
      ensures Valid() && View() == InterruptRolledBack(old(View()), u)
    {
      if Find(u).playlist == Interrupted {
        Store(u, Find(u).WithPlaylist(Active, false));
      }
    }

    method ResumePlaylist(u: Universe) returns (resumed: bool)
      requires Valid()
      modifies this`universes
      ensures Valid() && View() == PlaylistResumed(old(View()), u)
      ensures resumed <==> StateOf(old(View()), u).playlist == Interrupted
    {
      resumed := Find(u).playlist == Interrupted;
      if resumed {
        Store(u, Find(u).WithPlaylist(Active, false).WithPlaying(true));
      }
    }

    method ConsumeInterruptResumeDecision(u: Universe) returns (granted: bool)
      requires Valid()
      modifies this`universes
      ensures Valid() && View() == ResumeConsumed(old(View()), u)
      ensures granted <==> ResumeGranted(old(View()), u)
    {
      granted := false;
      if Find(u).playlist != Interrupted {
        return;
      }
      if Find(u).shouldResume {
        Store(u, Find(u).WithPlaylist(Active, false).WithPlaying(true));
        return true;
      }
      Store(u, Find(u).(playlist := Stopped).WithHalted());
    }

    method CancelSessionsForCreatures(u: Universe, creatures: set<string>) returns (cancelled: seq<PlaybackSession>)
      requires Valid()
      modifies this`universes, published.Values
      ensures Valid() && published == old(published)
      ensures View() == Swept(old(View()), u, Involving(creatures))
      ensures Ids(cancelled) == Pick(StateOf(old(View()), u).active, Targets(old(View()), u, Involving(creatures)))
      ensures CancelsDrivingExactly(old(View()), View(), u, creatures)
      ensures ReportsTaken(Ids(cancelled), old(View()), View(), u) && KeepsOrder(old(View()), View(), u, [])
    {
      ghost var before := View();
      ViewIsListed();
      cancelled := [];
      if u in universes {
        cancelled := CancelSelected(u, Involving(creatures));
      }
      SweepCancelsDrivingExactly(before, u, creatures);
      SweepTakesTargets(before, u, Involving(creatures));
      PickReportsTaken(before, View(), u, Targets(before, u, Involving(creatures)));
    }

    method CancelIdleSessionForCreature(u: Universe, creature: string) returns (any: bool)
      requires Valid()
      modifies this`universes, published.Values
      ensures Valid() && published == old(published)
      ensures View() == Swept(old(View()), u, IdleOf(creature))
      ensures any <==> exists x :: IdlesWith(old(View()), u, creature, x)
      ensures CancelsIdleExactly(old(View()), View(), u, creature) && KeepsOrder(old(View()), View(), u, [])
      ensures forall x :: !IdlesWith(View(), u, creature, x)
    {
      ghost var before := View();
      ViewIsListed();
      SweepCancelsIdleExactly(before, u, creature);
      SweepTakesTargets(before, u, IdleOf(creature));
      any := false;
      ghost var targets := Targets(View(), u, IdleOf(creature));
      if u in universes {
        var cancelled := CancelSelected(u, IdleOf(creature));
        any := cancelled != [];
        assert cancelled != [] ==> Ids(cancelled)[0] in targets;
        assert forall id | id in targets :: id in Ids(cancelled);
      }
    }

    method StopPlaylist(u: Universe) returns (cancelled: seq<PlaybackSession>)
      requires Valid()
      modifies this`universes, published.Values
      ensures Valid() && published == old(published)
      ensures View() == PlaylistStopped(old(View()), u)
      ensures var state := StateOf(old(View()), u);
              Ids(cancelled) == if state.playlist != Active && state.playlist != Interrupted then []
                                else Pick(state.active, Targets(old(View()), u, OfPlaylist))
      ensures StopsExactly(old(View()), View(), u)
      ensures ReportsTaken(Ids(cancelled), old(View()), View(), u) && KeepsOrder(old(View()), View(), u, [])
    {
      ghost var before := View();
      ViewIsListed();
      StopTakesExactly(before, u);
      cancelled := [];
      if Find(u).playlist != Active && Find(u).playlist != Interrupted {
        NothingTaken(before, u);
        return;
      }
      Store(u, Find(u).WithPlaylist(Stopped, false).WithHalted());
      assert Targets(View(), u, OfPlaylist) == Targets(old(View()), u, OfPlaylist);
      assert StateOf(View(), u).active == StateOf(old(View()), u).active;
      cancelled := CancelSelected(u, OfPlaylist);
      StopTakesTargets(before, u);
      PickReportsTaken(before, View(), u, Targets(before, u, OfPlaylist));
    }

    method StartPlaylist(u: Universe, playlistId: string)
      requires Valid()
      modifies this`universes
      ensures Valid() && View() == PlaylistStarted(old(View()), u, playlistId)
    {
      var state := Find(u).WithPlaylist(Active, false).(playlistId := playlistId);
      var status := PlaylistStatus(u, "", false, "");
      if state.status.Some? {
        status := state.status.value;
      }
      Store(u, state.(status := Some(status.(playlist := playlistId, playing := true))));
    }

    /** The unlocked flag writes, seen from the registry. */
    method FlagSessionCancelled(s: PlaybackSession)
      requires Valid() && Known(s)
      modifies s`cancelled
      ensures Valid() && View() == FlagCancelled(old(View()), s.id)
    {
      s.Cancel();
      assert View().sessions == FlagCancelled(old(View()), s.id).sessions;
    }

    method FlagSessionNotified(s: PlaybackSession)
      requires Valid() && Known(s)
      modifies s`cancellationNotified
      ensures Valid() && View() == FlagNotified(old(View()), s.id)
    {
      s.MarkCancellationNotified();
      assert View().sessions == FlagNotified(old(View()), s.id).sessions;
    }

    /** The sessions of a list other than the one with this id, in order. */
    method Others(all: seq<PlaybackSession>, id: SessionId) returns (kept: seq<PlaybackSession>)
      requires AllKnown(all)
      ensures AllKnown(kept) && Ids(kept) == Keep(Ids(all), {id})
    {
      kept := [];
      for i := 0 to |all|
        invariant AllKnown(kept) && Ids(kept) == Keep(Ids(all)[..i], {id})
      {
        assert Ids(all)[..i + 1] == Ids(all)[..i] + [all[i].id];
        assert Ids(all)[..i + 1][..i] == Ids(all)[..i];
        if all[i].id != id {
          Append(published, kept, all[i]);
          kept := kept + [all[i]];
        }
      }
      assert Ids(all)[..|all|] == Ids(all);
    }

    method ClearSession(u: Universe, id: SessionId)
      requires Valid()
      modifies this`universes
      ensures Valid() && View() == SessionCleared(old(View()), u, id)
    {
      if u in universes {
        KeepHasNoDuplicates(Ids(universes[u].active), {id});
        var kept := Others(universes[u].active, id);
        Store(u, universes[u].WithActive(kept));
      }
    }

    method IndexOf(all: seq<PlaybackSession>, id: SessionId) returns (found: nat)
      ensures found <= |all|
      ensures found == |all| <==> id !in Ids(all)
      ensures found < |all| ==> all[found].id == id
    {
      found := 0;
      while found < |all| && all[found].id != id
        invariant found <= |all|
        invariant id !in Ids(all)[..found]
      {
        assert Ids(all)[..found + 1] == Ids(all)[..found] + [all[found].id];
        found := found + 1;
      }
      assert Ids(all)[..|all|] == Ids(all);
      assert found < |all| ==> Ids(all)[found] == id;
    }

    /** Removes a session whose load failed, with the queue and playlist that only its finish could have served. */
    method AbortLoadingSession(u: Universe, id: SessionId) returns (result: AbortResult)
      requires Valid()
      modifies this`universes
      ensures Valid() && View() == LoadingAborted(old(View()), u, id)
      ensures result.sessionRemoved <==> Registered(old(View()), u, id)
      ensures result.playlistCleared <==>
                result.sessionRemoved && id in old(View()).sessions && old(View()).sessions[id].reason == Playlist
      ensures StateOf(View(), u).queue == if result.sessionRemoved then [] else StateOf(old(View()), u).queue
      ensures result.dropped == if result.sessionRemoved then |StateOf(old(View()), u).queue| else 0
    {
      result := AbortResult(false, false, 0);
      if u !in universes {
        return;
      }
      var all := universes[u].active;
      assert StateOf(View(), u).active == Ids(all);
      var found := IndexOf(all, id);
      if found == |all| {
        return;
      }
      assert Known(all[found]);
      var wasPlaylist := all[found].reason == Playlist;
      KeepHasNoDuplicates(Ids(all), {id});
      var kept := Others(all, id);
      result := AbortResult(true, wasPlaylist, |universes[u].queue|);
      var state := universes[u].WithActive(kept).(queue := []);
      if wasPlaylist {
        state := state.WithoutPlaylist();
      }
      StoreOrForget(u, state);
    }

    /** Keeps the state of a universe unless there is nothing to keep. */
    method StoreOrForget(u: Universe, state: UniverseState<PlaybackSession>)
      requires Valid() && Distinct(state.active)
      modifies this`universes
      ensures Valid()
      ensures View() == if state.active == [] && state.playlist == NoPlaylist then Without(old(View()), u)
                        else Put(old(View()), u, Named(state))
    {
      if state.active == [] && state.playlist == NoPlaylist {
        Forget(u);
      } else {
        Store(u, state);
      }
    }

    method SetPlaylistStatus(u: Universe, status: PlaylistStatus)
      requires Valid()
      modifies this`universes
      ensures Valid() && View() == StatusSet(old(View()), u, status)
    {
      var state := Find(u).(status := Some(status.(universe := u)), playlistId := status.playlist);
      if state.playlist == NoPlaylist && status.playlist != "" && status.playing {
        state := state.(playlist := Active);
      }
      Store(u, state);
    }

    method ClearPlaylist(u: Universe)
      requires Valid()
      modifies this`universes
      ensures Valid() && View() == PlaylistCleared(old(View()), u)
      ensures StateOf(View(), u).active == StateOf(old(View()), u).active
      ensures StateOf(View(), u).queue
              == if StateOf(old(View()), u).active == [] then [] else StateOf(old(View()), u).queue
    {
      if u !in universes {
        return;
      }
      if universes[u].active == [] {
        Forget(u);
      } else {
        Store(u, universes[u].WithoutPlaylist());
      }
    }

    method QueueAnimation(u: Universe, animation: Animation)
      requires Valid()
      modifies this`universes
      ensures Valid() && View() == Queued(old(View()), u, animation)
      ensures StateOf(View(), u).queue == StateOf(old(View()), u).queue + [animation]
    {
      Store(u, Find(u).(queue := Find(u).queue + [animation]));
    }

    method PopQueuedAnimation(u: Universe) returns (next: Option<Animation>)
      requires Valid()
      modifies this`universes
      ensures Valid() && View() == Popped(old(View()), u)
      ensures next == QueueHead(old(View()), u)
      ensures match next
              case Some(a) => StateOf(old(View()), u).queue == [a] + StateOf(View(), u).queue
              case None => StateOf(old(View()), u).queue == [] && View() == old(View())
    {
      if Find(u).queue == [] {
        return None;
      }
      next := Some(Find(u).queue[0]);
      Store(u, Find(u).(queue := Find(u).queue[1..]));
    }

    method ClearAnimationQueue(u: Universe)
      requires Valid()
      modifies this`universes
      ensures Valid() && View() == QueueCleared(old(View()), u)
      ensures StateOf(View(), u).queue == []
    {
      if Find(u).queue != [] {
        Store(u, Find(u).(queue := []));
      }
    }

    /** The reverse search for a session that is not cancelled. */
    method GetCurrentSession(u: Universe) returns (current: PlaybackSession?)
      requires Valid()
      ensures current == null <==> CurrentSession(View(), u).None?
      ensures current != null ==> Known(current) && CurrentSession(View(), u) == Some(current.id)
    {
      var all := Find(u).active;
      assert StateOf(View(), u).active == Ids(all);
      var n := |all|;
      assert Ids(all)[..n] == Ids(all);
      while n > 0
        invariant n <= |all|
        invariant LastLive(View().sessions, Ids(all)) == LastLive(View().sessions, Ids(all)[..n])
      {
        var s := all[n - 1];
        assert Known(s) && s.Snapshot() == View().sessions[s.id];
        assert Ids(all)[..n][n - 1] == s.id && Ids(all)[..n][..n - 1] == Ids(all)[..n - 1];
        if !s.cancelled {
          return s;
        }
        n := n - 1;
      }
      return null;
    }

    method HasInterruptedPlaylist(u: Universe) returns (paused: bool)
      requires Valid()
      ensures paused <==> StateOf(View(), u).playlist == Interrupted
    {
      paused := Find(u).playlist == Interrupted;
    }

    static lemma {:induction false} KeepHasNoDuplicates(xs: seq<SessionId>, drop: set<SessionId>)
      requires NoDuplicates(xs)
      ensures NoDuplicates(Keep(xs, drop))
      decreases |xs|
    {
      if xs != [] {
        KeepHasNoDuplicates(xs[..|xs| - 1], drop);
      }
    }
  }
}
