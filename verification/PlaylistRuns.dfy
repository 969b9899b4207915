/** The playlist of a universe as a state machine, and the status snapshot that goes with it. */
module PlaylistRuns {
  import opened Wrappers
  import opened PlaybackSessions
  import opened SessionRegistry
  import opened SessionRuns

  // ----- The four states -----

  /** The step makes a failing playlist session lose its playlist too. */
  predicate AbortsList(g: Registry, step: Step, u: Universe) {
    step.AbortLoading? && step.u == u && Registered(g, u, step.id) && step.id in g.sessions
    && g.sessions[step.id].reason == Playlist
  }

  /** The step is about the playlist of this universe, or about the sessions that may take it along. */
  predicate Concerns(step: Step, u: Universe) {
    && !step.SetCancelled? && !step.SetNotified? && !step.Adopt? && !step.CancelMatching? && !step.ClearSession?
    && !step.Enqueue? && !step.Dequeue? && !step.ClearQueue?
    && step.u == u
  }

  lemma SessionsKeepPlaylist(g: Registry, step: Step, u: Universe)
    requires Enabled(g, step) && (step.Adopt? || step.CancelMatching? || step.ClearSession? || step.StopPlaylist?)
    requires !Concerns(step, u)
    ensures var before, after := StateOf(g, u), StateOf(Apply(g, step), u);
            after.playlist == before.playlist && after.shouldResume == before.shouldResume
            && after.playlistId == before.playlistId && after.status == before.status
  {
  }

  lemma OthersKeepPlaylist(g: Registry, step: Step, u: Universe)
    requires Enabled(g, step) && !Concerns(step, u)
    ensures var before, after := StateOf(g, u), StateOf(Apply(g, step), u);
            after.playlist == before.playlist && after.shouldResume == before.shouldResume
            && after.playlistId == before.playlistId && after.status == before.status
  {
    if step.Adopt? || step.CancelMatching? || step.ClearSession? || step.StopPlaylist? {
      SessionsKeepPlaylist(g, step, u);
    }
  }

  /** Which steps move a playlist, from which of its states, and where to. No other step does. */
  lemma PlaylistMovesExactly(g: Registry, step: Step, u: Universe)
    requires Enabled(g, step)
    ensures var before, after := StateOf(g, u), StateOf(Apply(g, step), u);
            if !Concerns(step, u) then after.playlist == before.playlist
            else match step
                 case MarkInterrupt(_, _) =>
                   after.playlist == if before.playlist == Active then Interrupted else before.playlist
                 case RollBackInterrupt(_) =>
                   after.playlist == if before.playlist == Interrupted then Active else before.playlist
                 case ResumePlaylist(_) =>
                   after.playlist == if before.playlist == Interrupted then Active else before.playlist
                 case ConsumeResume(_) =>
                   after.playlist == if before.playlist != Interrupted then before.playlist
                                     else if before.shouldResume then Active else Stopped
                 case StopPlaylist(_) =>
                   after.playlist == if before.playlist == NoPlaylist then NoPlaylist else Stopped
                 case StartPlaylist(_, _) => after.playlist == Active
                 case AbortLoading(_, _) =>
                   after.playlist == if AbortsList(g, step, u) then NoPlaylist else before.playlist
                 case SetStatus(_, s) =>
                   after.playlist == if before.playlist == NoPlaylist && s.playlist != "" && s.playing then Active
                                     else before.playlist
                 case ClearPlaylist(_) => after.playlist == NoPlaylist
                 case _ => false
  {
    if !Concerns(step, u) {
      OthersKeepPlaylist(g, step, u);
    }
  }

  // ----- The snapshot -----

  /** Halted: not playing, and no animation. */
  function Halted(status: Option<PlaylistStatus>): Option<PlaylistStatus> {
    match status
    case None => None
    case Some(s) => Some(PlaylistStatus(s.universe, s.playlist, false, ""))
  }

  function Resumed(status: Option<PlaylistStatus>): Option<PlaylistStatus> {
    match status
    case None => None
    case Some(s) => Some(PlaylistStatus(s.universe, s.playlist, true, s.currentAnimation))
  }

  /** What each of those steps makes of the snapshot and the name of the playlist. */
  lemma SnapshotMovesExactly(g: Registry, step: Step, u: Universe)
    requires Enabled(g, step)
    ensures var before, after := StateOf(g, u), StateOf(Apply(g, step), u);
            if !Concerns(step, u) then after.status == before.status && after.playlistId == before.playlistId
            else match step
                 case ResumePlaylist(_) =>
                   && after.playlistId == before.playlistId
                   && after.status == if before.playlist == Interrupted then Resumed(before.status) else before.status
                 case ConsumeResume(_) =>
                   && after.playlistId == before.playlistId
                   && after.status == if before.playlist != Interrupted then before.status
                                      else if before.shouldResume then Resumed(before.status)
                                      else Halted(before.status)
                 case StopPlaylist(_) =>
                   && after.playlistId == before.playlistId
                   && after.status == if before.playlist == Active || before.playlist == Interrupted
                                      then Halted(before.status) else before.status
                 case StartPlaylist(_, id) =>
                   && after.playlistId == id && after.status.Some?
                   && after.status.value.playlist == id && after.status.value.playing
                   && after.status.value.universe == (if before.status.None? then u else before.status.value.universe)
                   && after.status.value.currentAnimation
                      == if before.status.None? then "" else before.status.value.currentAnimation
                 case SetStatus(_, s) =>
                   && after.playlistId == s.playlist
                   && after.status == Some(PlaylistStatus(u, s.playlist, s.playing, s.currentAnimation))
                 case ClearPlaylist(_) => after.status == None && after.playlistId == ""
                 case AbortLoading(_, _) =>
                   && (AbortsList(g, step, u) ==> after.status == None && after.playlistId == "")
                   && (|| (after.status == None && after.playlistId == "" && after.playlist == NoPlaylist)
                       || (after.status == before.status && after.playlistId == before.playlistId))
                 case _ => after.status == before.status && after.playlistId == before.playlistId
  {
    if !Concerns(step, u) {
      OthersKeepPlaylist(g, step, u);
    }
  }

  predicate SnapshotNames(g: Registry, u: Universe) {
    var state := StateOf(g, u);
    state.status.Some? ==> state.status.value.universe == u && state.status.value.playlist == state.playlistId
  }

  lemma {:induction false} SnapshotNamesRun(g: Registry, steps: seq<Step>, u: Universe)
    requires Runs(g, steps) && SnapshotNames(g, u)
    ensures SnapshotNames(After(g, steps), u)
    decreases |steps|
  {
    if steps != [] {
      SnapshotMovesExactly(g, steps[0], u);
      SnapshotNamesRun(Apply(g, steps[0]), steps[1..], u);
    }
  }

  /** In every reachable registry a universe's snapshot names that universe and the playlist it has. */
  lemma SnapshotIsItsOwn(steps: seq<Step>, u: Universe)
    requires Runs(EMPTY, steps)
    ensures SnapshotNames(After(EMPTY, steps), u)
  {
    SnapshotNamesRun(EMPTY, steps, u);
  }

  predicate SetsStatus(step: Step, u: Universe) {
    step.SetStatus? && step.u == u
  }

  /** The snapshot says what the state does: there is one unless there is no playlist, and it plays unless stopped. */
  predicate SnapshotTells(g: Registry, u: Universe) {
    var state := StateOf(g, u);
    && (state.status.Some? <==> state.playlist != NoPlaylist)
    && (state.status.Some? ==>
          && (state.status.value.playing <==> state.playlist != Stopped)
          && state.status.value.currentAnimation == "")
  }

  lemma SnapshotTellsStep(g: Registry, step: Step, u: Universe)
    requires Enabled(g, step) && SnapshotTells(g, u) && !SetsStatus(step, u)
    ensures SnapshotTells(Apply(g, step), u)
  {
    PlaylistMovesExactly(g, step, u);
    SnapshotMovesExactly(g, step, u);
  }

  lemma {:induction false} SnapshotTellsRun(g: Registry, steps: seq<Step>, u: Universe)
    requires Runs(g, steps) && SnapshotTells(g, u) && forall k | 0 <= k < |steps| :: !SetsStatus(steps[k], u)
    ensures SnapshotTells(After(g, steps), u)
    decreases |steps|
  {
    if steps != [] {
      SnapshotTellsStep(g, steps[0], u);
      SnapshotTellsRun(Apply(g, steps[0]), steps[1..], u);
    }
  }

  /** As long as nobody sets it, the snapshot tells whether there is a playlist and whether it is stopped. */
  lemma UnsetSnapshotTellsTheState(steps: seq<Step>, u: Universe)
    requires Runs(EMPTY, steps) && forall k | 0 <= k < |steps| :: !SetsStatus(steps[k], u)
    ensures SnapshotTells(After(EMPTY, steps), u)
  {
    SnapshotTellsRun(EMPTY, steps, u);
  }
}
