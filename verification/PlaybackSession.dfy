/** One animation playback: its identity, what it drives, and its atomic flags. */
module PlaybackSessions {

  // Session UUIDs, numbered.
  type SessionId = nat

  datatype ActivityReason = Play | Playlist | AdHoc | Idle | Disabled | Cancelled | Streaming

  // Exactly one of the two ids is set on a well-formed track; the other one is empty.
  datatype Track = Track(creatureId: string, fixtureId: string, frames: seq<string>)

  /** The value of a session at one instant. */
  datatype Session = Session(
    creatures: seq<string>,
    fixtures: seq<string>,
    reason: ActivityReason,
    cancelled: bool,
    notified: bool,
    started: bool,
    finished: bool,
    generation: nat)

  /** The sessions drive the same creature or the same fixture. */
  predicate Conflict(a: Session, b: Session) {
    || (exists id :: id in a.creatures && id in b.creatures)
    || (exists id :: id in a.fixtures && id in b.fixtures)
  }

  function CreatureColumn(tracks: seq<Track>): (ids: seq<string>) {
    seq(|tracks|, i requires 0 <= i < |tracks| => tracks[i].creatureId)
  }

  function FixtureColumn(tracks: seq<Track>): (ids: seq<string>) {
    seq(|tracks|, i requires 0 <= i < |tracks| => tracks[i].fixtureId)
  }

  predicate NoDuplicates<T(==)>(xs: seq<T>) {
    forall i, j | 0 <= i < j < |xs| :: xs[i] != xs[j]
  }

  /** A snapshot of a column of track ids: no empties, no repeats, nothing lost or added. */
  ghost predicate IsIdSnapshot(ids: seq<string>, column: seq<string>) {
    && NoDuplicates(ids)
    && (forall id :: id in ids <==> id in column && id != "")
  }

  ghost predicate Decodable(decodes: string -> bool, frames: seq<string>) {
    forall frame | frame in frames :: decodes(frame)
  }

  lemma ColumnsHold(tracks: seq<Track>)
    ensures forall c :: c in CreatureColumn(tracks) <==> exists track :: track in tracks && track.creatureId == c
    ensures forall f :: f in FixtureColumn(tracks) <==> exists track :: track in tracks && track.fixtureId == f
  {
    forall c ensures c in CreatureColumn(tracks) <==> exists track :: track in tracks && track.creatureId == c {
      if track :| track in tracks && track.creatureId == c {
        var i :| 0 <= i < |tracks| && tracks[i] == track;
        assert CreatureColumn(tracks)[i] == c;
      }
    }
    forall f ensures f in FixtureColumn(tracks) <==> exists track :: track in tracks && track.fixtureId == f {
      if track :| track in tracks && track.fixtureId == f {
        var i :| 0 <= i < |tracks| && tracks[i] == track;
        assert FixtureColumn(tracks)[i] == f;
      }
    }
  }

  class PlaybackSession {
    const id: SessionId
    const reason: ActivityReason
    var creatureIds: seq<string>
    var fixtureIds: seq<string>
    var cancelled: bool
    var cancellationNotified: bool
    var hasStarted: bool
    var hasFinished: bool
    var activityGeneration: nat

    function Snapshot(): Session
      reads this
    {
      Session(creatureIds, fixtureIds, reason, cancelled, cancellationNotified, hasStarted, hasFinished,
              activityGeneration)
    }

    /** A frame that does not decode leaves the session cancelled from birth. */
    constructor (id: SessionId, tracks: seq<Track>, reason: ActivityReason, decodes: string -> bool)
      ensures this.id == id && this.reason == reason
      ensures IsIdSnapshot(creatureIds, CreatureColumn(tracks))
      ensures IsIdSnapshot(fixtureIds, FixtureColumn(tracks))
      ensures cancelled <==> exists i :: 0 <= i < |tracks| && !Decodable(decodes, tracks[i].frames)
      ensures !cancellationNotified && !hasStarted && !hasFinished && activityGeneration == 0
      ensures forall c :: c in creatureIds <==> c != "" && exists track :: track in tracks && track.creatureId == c
      ensures forall f :: f in fixtureIds <==> f != "" && exists track :: track in tracks && track.fixtureId == f
    {
      var creatures, fixtures: seq<string> := [], [];
      for i := 0 to |tracks|
        invariant IsIdSnapshot(creatures, CreatureColumn(tracks)[..i])
        invariant IsIdSnapshot(fixtures, FixtureColumn(tracks)[..i])
      {
        var track := tracks[i];
        if track.creatureId != "" && track.creatureId !in creatures {
          creatures := creatures + [track.creatureId];
        }
        if track.fixtureId != "" && track.fixtureId !in fixtures {
          fixtures := fixtures + [track.fixtureId];
        }
        assert CreatureColumn(tracks)[..i + 1] == CreatureColumn(tracks)[..i] + [track.creatureId];
        assert FixtureColumn(tracks)[..i + 1] == FixtureColumn(tracks)[..i] + [track.fixtureId];
      }
      ColumnsHold(tracks);
      assert CreatureColumn(tracks)[..|tracks|] == CreatureColumn(tracks);
      assert FixtureColumn(tracks)[..|tracks|] == FixtureColumn(tracks);

      var failed := false;
      var t := 0;
      while t < |tracks| && !failed
        invariant 0 <= t <= |tracks|
        invariant !failed ==> forall i :: 0 <= i < t ==> Decodable(decodes, tracks[i].frames)
        invariant failed ==> exists i :: 0 <= i < |tracks| && !Decodable(decodes, tracks[i].frames)
        decreases |tracks| - t, !failed
      {
        var frames := tracks[t].frames;
        for f := 0 to |frames|
          invariant !failed
          invariant forall k :: 0 <= k < f ==> decodes(frames[k])
        {
          if !decodes(frames[f]) {
            failed := true;
            break;
          }
        }
        t := t + 1;
      }

      this.id := id;
      this.reason := reason;
      creatureIds := creatures;
      fixtureIds := fixtures;
      cancelled := failed;
      cancellationNotified := false;
      hasStarted := false;
      hasFinished := false;
      activityGeneration := 0;
    }

    method Cancel()
      modifies this`cancelled
      ensures Snapshot() == old(Snapshot()).(cancelled := true)
    {
      cancelled := true;
    }

    method MarkCancellationNotified()
      modifies this`cancellationNotified
      ensures Snapshot() == old(Snapshot()).(notified := true)
    {
      cancellationNotified := true;
    }

    /** Claims completion; true for exactly one caller. */
    method MarkFinished() returns (claimed: bool)
      modifies this`hasFinished
      ensures Snapshot() == old(Snapshot()).(finished := true)
      ensures claimed <==> !old(Snapshot()).finished
    {
      claimed := !hasFinished;
      hasFinished := true;
    }

    /** True when the start callback ran, which is on the first call only. */
    method InvokeOnStart() returns (invoked: bool)
      modifies this`hasStarted
      ensures Snapshot() == old(Snapshot()).(started := true)
      ensures invoked <==> !old(Snapshot()).started
    {
      invoked := !hasStarted;
      hasStarted := true;
    }
  }

  /** Two tracks drive the same output. The empty id names nothing. */
  predicate TracksContend(a: Track, b: Track) {
    || (a.creatureId == b.creatureId && a.creatureId != "")
    || (a.fixtureId == b.fixtureId && a.fixtureId != "")
  }

  /** Sessions conflict exactly when some of their tracks contend; empty ids never make a conflict. */
  lemma SnapshotsDecideConflict(a: Session, b: Session, aTracks: seq<Track>, bTracks: seq<Track>)
    requires IsIdSnapshot(a.creatures, CreatureColumn(aTracks)) && IsIdSnapshot(a.fixtures, FixtureColumn(aTracks))
    requires IsIdSnapshot(b.creatures, CreatureColumn(bTracks)) && IsIdSnapshot(b.fixtures, FixtureColumn(bTracks))
    ensures Conflict(a, b) <==>
            exists i, j :: 0 <= i < |aTracks| && 0 <= j < |bTracks| && TracksContend(aTracks[i], bTracks[j])
  {
    if Conflict(a, b) {
      if id :| id in a.creatures && id in b.creatures {
        var i :| 0 <= i < |aTracks| && CreatureColumn(aTracks)[i] == id;
        var j :| 0 <= j < |bTracks| && CreatureColumn(bTracks)[j] == id;
        assert TracksContend(aTracks[i], bTracks[j]);
      } else {
        var id :| id in a.fixtures && id in b.fixtures;
        var i :| 0 <= i < |aTracks| && FixtureColumn(aTracks)[i] == id;
        var j :| 0 <= j < |bTracks| && FixtureColumn(bTracks)[j] == id;
        assert TracksContend(aTracks[i], bTracks[j]);
      }
    }
    forall i, j | 0 <= i < |aTracks| && 0 <= j < |bTracks| && TracksContend(aTracks[i], bTracks[j])
      ensures Conflict(a, b)
    {
      if aTracks[i].creatureId == bTracks[j].creatureId && aTracks[i].creatureId != "" {
        var id := aTracks[i].creatureId;
        assert id == CreatureColumn(aTracks)[i] && id == CreatureColumn(bTracks)[j];
        assert id in a.creatures && id in b.creatures;
      } else {
        var id := aTracks[i].fixtureId;
        assert id == FixtureColumn(aTracks)[i] && id == FixtureColumn(bTracks)[j];
        assert id in a.fixtures && id in b.fixtures;
      }
    }
  }
}
