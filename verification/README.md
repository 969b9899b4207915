# Creature server: a verified model

This project models the parts of the creature server in which several threads, crashes or binary formats meet, and
proves what they are built to guarantee. `dafny verify dfyconfig.toml` checks all of it.

**Sessions** (`PlaybackSession`, `SessionRegistry`, `SessionRuns`, `PlaylistRuns`, `InterruptRuns`, `Cancellations`,
`SessionManager`, `AnimationScheduler`, `SessionProtocol`, `SessionProgress`, `FinishRuns`, `FinishRaces`,
`LateFailures`). A universe has a list of playback sessions, a playlist that is absent, active, interrupted or stopped,
and a queue of animations. `SessionRegistry` gives the effect of each critical section of the session manager as a
function and the invariant that all of them keep; `Cancellations` says, of each session, whom every cancelling section
takes and what it reports; `SessionRuns`, `PlaylistRuns` and `InterruptRuns` have the theorems about every sequence of
sections, whichever threads they belong to. `SessionManager` is the object with its fields, each method proved to have
the effect of its section. `SessionProtocol` interleaves the sections with what happens outside them: flag stores, with
the lock and without, loads that fail late, notifications, teardown runners, and the finish callback, which reads a flag
and then takes up to four sections one by one. `SessionProgress` says who tears every session down in the end;
`FinishRuns`, `FinishRaces` and `LateFailures` have the theorems about finishes and late failures, and runs from an
empty server that show where those go wrong.

**Local audio** (`PlaybackCoordinator`, `CoordinatorRuns`, `CoordinatorTheorems`, `CoordinatorProgress`,
`CoordinatorOutcomes`, `LocalAudioPlaybackCoordinator`). One worker, one slot, last request wins. Submitters, handle
owners, the shutdown caller and the worker are interleaved action by action, with a stop split into its compare-and-swap
and its store. What the player returns is arbitrary. The methods, taken alone, are runs of that machine.

**Audio cache** (`Bytes`, `PacketFile`, `CacheDirectory`, `AudioCache`, `AudioCacheRuns`, `KeyMutexes`). The packet
format, the publishing protocol of one directory as single file operations any of which may fail, tear or be the last
before a crash, the cache's operations as runs of those, histories over many directories and changing sources, and the
map of per-directory locks that keeps weak references only.

**Sample ring** (`SampleRing`, `SampleRingRuns`). The ring over an array with its two-part copies, and the interleaving
of one writer, one renderer and a stopping thread, one load, copied sample or store at a time.

**Sequence algorithms** (`Sequences`, `SpeakerRuns`, `LaneRuns`, `GatedConversion`, `RiffChunks`, `LineSplitter`,
`TitleExcerpt`). Speaker gating and iXML editing in the sound script, the line callback of child processes, and the
display-title excerpt.

Assumptions stand in the contracts: a JSON library that parses what it wrote (`Json.Lawful`), and, for one theorem, a
collision-free checksum and a deterministic encoder.

## Where the code does not do what its comments say

- A comment in `CooperativeAnimationScheduler.cpp:113-118` says that a late load failure cannot erase the replacement's
  queue or playlist. It can, exactly when the failing session was flagged cancelled, by its own loader or by the start
  of a playlist, before the replacement was adopted: adoption passes over sessions that are cancelled already, so the
  late abort still finds its session registered (`LateFailures.LateAbortHitsReplacement`;
  `LateFailures.LateAbortErasesReplacement` is such a run).
- A comment in `CooperativeAnimationScheduler.cpp:574-576` says that whoever cancelled a loading session has scheduled
  its teardown. The start of a playlist (`PlaylistService.cpp:382-386`) cancels the current session without the
  manager's lock and schedules nothing. A loader that sees such a flag gives up, and the session stays on its list for
  ever: later adoptions pass over it, and nobody tears it down (`SessionProgress.StrandedForEver`; a run from an empty
  server is in `SessionProgress.PlaylistStartStrandsLoadingSession`). A dropped session has an owner if and only if its
  flag was not first set that way (`SessionProgress.DroppedIsOwnedExactly`), and every other session is seen off by
  exactly one party (`SessionProgress.EverySessionIsSeenOffExactly`).
- A comment in `CooperativeAnimationScheduler.cpp:899-900` leaves the resume decision to the interrupt that replaced a
  cancelled session. But a finish reads the flag once and acts on it later. The finish of a session that was cancelled
  since goes on to take the next queued animation, or to decide the interrupted playlist while the interrupt has only
  begun, exactly when its flag was set after the reading, by a canceller that came before the finish cleared the session
  or by one that does not take the lock, the start of a playlist (`FinishRuns.CancelledFinishGoesOnExactly`,
  `FinishRuns.DisplacedFinishGoesOnExactly`; runs in `FinishRaces`). With nobody in between it behaves as the comment
  says (`AnimationScheduling.OnFinish`).
- A finish that popped an animation does not look at the playlist. If that animation is refused or turned away, it is
  lost, nothing starts, and an interrupted playlist stays undecided (`AnimationScheduling.OnFinish` says exactly when).
- A comment in `SessionManager.cpp:268` says that nothing was cancelled when an interrupt fails. That is so exactly when
  it was refused before adoption or nothing was playing (`AnimationScheduling.Interrupt`). When the load is turned away
  after adoption, every session of the universe has been cancelled, and the playlist is active with nothing playing
  (`AnimationScheduling.FailedInterruptSilencesPlaylist`). And a rollback that comes late takes the pause away from
  another interrupt exactly when it finds the playlist interrupted and another interrupt has marked it since, whether
  that one paused it (`InterruptRuns.StaleRollBackUndoesAnotherInterrupt`) or found it paused and plays now
  (`InterruptRuns.ChainedInterruptLosesItsPause`); if none has, the rollback leaves no trace
  (`InterruptRuns.LateRollBackTakesPauseAwayExactly`, `InterruptRuns.LiveInterruptLosesPauseExactly`).
- A comment in `AudioCache.cpp:246-247` says that a crash is always treated as a miss. Removing the old marker may fail
  unnoticed, and then a stopped save can leave a hit that mixes two saves (`AudioCaches.StuckMarkerMixesSaves`). With a
  deterministic encoder and a collision-free checksum that does no harm: every hit still equals a fresh encoding
  (`AudioCacheRuns.HitIsAFreshEncoding`). Nor does a write cut short unnoticed (`AudioCaches.SavedIsAHit`).
- The header comment of `SessionManager.h` places the cancelled broadcasts in the adopting critical section; the code,
  and the model, have them after it.
- In the sound script two tracks may share a lane, but what the second says beyond the end of the first is lost to the
  lane (`LaneRuns.SpeechIsHeardWithinTheFirstTrack`); and an iXML chunk is assumed to be last, so other chunks behind it
  are dropped (`RiffChunks.NothingElseIsLost`).

## Model

| member | source | states |
|---|---|---|
| `PlaybackSessions.PlaybackSession.constructor` | `src/server/animation/PlaybackSession.cpp:20-117` | a session starts with duplicate-free snapshots of exactly the nonempty creature ids and fixture ids of its tracks, and is born cancelled exactly when some frame cannot be decoded |
| `PlaybackSessions.PlaybackSession.MarkFinished` | `src/server/animation/PlaybackSession.h:211` | completion is claimed once: only the first caller is told to finish the session |
| `PlaybackSessions.PlaybackSession.InvokeOnStart` | `src/server/animation/PlaybackSession.h:182-190` | the start callback is due once |
| `PlaybackSessions.SnapshotsDecideConflict` | `src/server/animation/SessionManager.cpp:54-71` | comparing id snapshots decides exactly whether two sessions have tracks for the same creature or fixture; tracks without an id never contend |
| `SessionRegistry.StepKeepsSound` | `src/server/animation/SessionManager.cpp:119-204` | every critical section of the session manager keeps: active lists in order of activity generation, no session on two lists, live sessions of a universe pairwise disjoint, and the resume flag set only while a playlist is interrupted |
| `SessionRuns.EverySessionIsListedOnce` | `src/server/animation/SessionManager.cpp:138-191` | in every reachable state a session is on the list of one universe at most, and only once |
| `SessionRuns.LiveSessionsNeverConflict` | `src/server/animation/SessionManager.cpp:138-191` | after every interleaving of critical sections and unlocked flag stores, two live sessions of a universe share no creature and no fixture |
| `SessionRuns.LastLiveIsNewest` | `src/server/animation/SessionManager.cpp:452-465` | scanning the active list backwards finds the live session with the greatest activity generation |
| `SessionRuns.CurrentSessionIsNewest` | `src/server/animation/SessionManager.cpp:452-465` | in every reachable state the current session is live and newer than every other live session of its universe |
| `SessionRuns.SupersededIsNeverLive` | `src/server/animation/SessionManager.cpp:138-191` | a session that conflicts with a later adoption on its universe is not live after it, whatever happens next |
| `SessionRuns.AdoptionLeavesNoGap` | `src/server/animation/SessionManager.cpp:138-191` | the creatures of an adopted session are busy as soon as the adopting section ends |
| `SessionRuns.StoppedPlaylistIsNeverRevived` | `src/server/animation/SessionManager.cpp:628-682` | a playlist that is stopped or absent stays so throughout a run if and only if the run has no start, and no playing status when there is no playlist at all |
| `SessionRuns.ResumeGrantedAtMostOnce` | `src/server/animation/SessionManager.cpp:425-450` | between two pauses of an active playlist the resume decision is granted at most once, and only if the first interrupt asked for it, even when interrupts are chained |
| `SessionRuns.RefusedInterruptLeavesNoTrace` | `src/server/animation/SessionManager.cpp:236-276` | marking a playlist interrupted and rolling the mark back restores the registry exactly |
| `InterruptRuns.LateRollBackTakesPauseAwayExactly` | `src/server/animation/SessionManager.cpp:236-276` | whatever other threads did between the mark and the rollback, the rollback takes the pause away from another interrupt if and only if the playlist is found interrupted and another interrupt has marked it since, pausing it or finding it paused; if found interrupted and none has, everything is as if the failed interrupt had never been; and the pause found is its own if and only if nobody paused the playlist since |
| `InterruptRuns.LiveInterruptLosesPauseExactly` | `src/server/animation/SessionManager.cpp:236-276` | another interrupt adopted since is live when the rollback makes the playlist active under it if and only if the playlist is found interrupted and nothing has cancelled or removed that session since its adoption |
| `InterruptRuns.StaleRollBackUndoesAnotherInterrupt` | `src/server/animation/SessionManager.cpp:236-276` | a concrete run in which a rollback that comes late, after the playlist was stopped, started anew and interrupted again, undoes the other interrupt |
| `InterruptRuns.ChainedInterruptLosesItsPause` | `src/server/animation/SessionManager.cpp:236-276` | a concrete run in which the second interrupt finds the playlist paused and plays, and the rollback of the first makes the playlist active under it and takes its resume decision |
| `SessionRuns.QueueIsConserved` | `src/server/animation/SessionManager.cpp:807-843` | over every run: what was queued followed by what was pushed is, in order, what left by pop, failed load or clearing, followed by what is still queued |
| `SessionRuns.PopTakesFront` | `src/server/animation/SessionManager.cpp:815-826` | a pop takes the animation at the front of the queue, hands out that one, and leaves the others in order |
| `SessionRuns.PopsHandOutInPushOrder` | `src/server/animation/SessionManager.cpp:807-843` | over every run the pops hand out exactly the animations that left by a pop, in push order |
| `PlaylistRuns.PlaylistMovesExactly` | `src/server/animation/SessionManager.cpp:236-805` | which sections move the playlist of a universe, from which of its four states, and where to; no other section does |
| `PlaylistRuns.SnapshotMovesExactly` | `src/server/animation/SessionManager.cpp:405-805` | what each section makes of the status snapshot and the name of the playlist |
| `PlaylistRuns.SnapshotIsItsOwn` | `src/server/animation/SessionManager.cpp:667-762` | in every reachable state a universe's snapshot names that universe and the playlist it has |
| `PlaylistRuns.UnsetSnapshotTellsTheState` | `src/server/animation/SessionManager.cpp:405-682` | as long as nobody sets it, there is a snapshot exactly if there is a playlist, and it plays exactly unless the playlist is stopped |
| `Cancellations.AdoptionDisplacesExactly` | `src/server/animation/SessionManager.cpp:150-185` | an adoption takes off, flagged and marked, exactly the live sessions of its universe that share a creature or a fixture with it, or all of them for an interrupt; every other session keeps its flags and its place |
| `Cancellations.AdoptStepDisplacesExactly` | `src/server/animation/SessionManager.cpp:138-191` | so does every adoption in any run of critical sections, and the others stay in order with the new session behind them |
| `Cancellations.SweepCancelsDrivingExactly` | `src/server/animation/SessionManager.cpp:467-498` | cancelling by creatures takes exactly the live sessions of the universe that drive one of them |
| `Cancellations.SweepCancelsIdleExactly` | `src/server/animation/SessionManager.cpp:524-554` | cancelling an idle session takes exactly the live sessions of reason idle that have the creature, and afterwards there is none |
| `Cancellations.StopTakesExactly` | `src/server/animation/SessionManager.cpp:628-665` | stopping takes exactly the live playlist sessions, and only of a playlist that is active or interrupted; the others stay in order |
| `Cancellations.SelectionIsUnique` | `src/server/animation/SessionManager.cpp:150-195` | a report without repeats, in the order of the list, is determined by whom it names |
| `SessionManagers.SessionManager.RegisterSession` | `src/server/animation/SessionManager.cpp:119-204` | registering is one adoption: exactly the live sessions that share a creature or fixture (or all of the universe) are cancelled and taken off, the others stay in order, the new one comes last with the next generation; the report names exactly the cancelled ones, once each, in the order of the list |
| `SessionManagers.SessionManager.CancelSelected` | `src/server/animation/SessionManager.cpp:150-180` | a cancelling loop flags exactly the selected sessions, keeps the others in order, and reports those it took, once each, in the order of the list |
| `SessionManagers.SessionManager.GetCurrentSession` | `src/server/animation/SessionManager.cpp:452-465` | returns the last session of the active list that is not cancelled |
| `SessionManagers.SessionManager.CancelSessionsForCreatures` | `src/server/animation/SessionManager.cpp:467-498` | cancels exactly the live sessions that drive one of the creatures, spares every other, and reports them, once each, in order |
| `SessionManagers.SessionManager.CancelIdleSessionForCreature` | `src/server/animation/SessionManager.cpp:524-554` | cancels exactly the live sessions of reason idle that have the creature, spares every other, leaves none, and says whether there was one |
| `SessionManagers.SessionManager.StopPlaylist` | `src/server/animation/SessionManager.cpp:628-665` | stops an active or interrupted playlist and cancels exactly its live playlist sessions, spares every other, in one section, and reports them, once each, in order |
| `SessionManagers.SessionManager.ClearSession` | `src/server/animation/SessionManager.cpp:684-697` | takes a session off the list of its universe and nothing else |
| `SessionManagers.SessionManager.AbortLoadingSession` | `src/server/animation/SessionManager.cpp:699-741` | only a session still registered is removed, with the queue and, for a playlist session, the playlist; the result reports what was dropped |
| `SessionManagers.SessionManager.PopQueuedAnimation` | `src/server/animation/SessionManager.cpp:815-826` | returns an animation exactly if it was at the front of the queue, with what was behind it left |
| `AnimationScheduling.FirstRefusal` | `src/server/animation/CooperativeAnimationScheduler.cpp:231-335` | each refusal that precedes adoption is given exactly when it is the first that applies: missing services, invalid timing, the first creature streamed live, no loader, no slot; none exactly when none applies |
| `AnimationScheduling.ScheduleAnimation` | `src/server/animation/CooperativeAnimationScheduler.cpp:214-450` | a request is refused exactly when it is inadmissible, and then the registry is unchanged; otherwise its session was adopted, and unwound exactly when its load is turned away after that |
| `AnimationScheduling.UnwindAdoptedAudioSession` | `src/server/animation/CooperativeAnimationScheduler.cpp:78-145` | flags the session, takes it off with its queue, and stops the transport exactly if this caller removed it |
| `AnimationScheduling.Interrupt` | `src/server/animation/SessionManager.cpp:206-295` | a refused interrupt leaves the registry as it was; any other leaves no earlier session of the universe live; one is unwound exactly when it is admissible and its load is turned away, and then the playlist is as if the interrupt had not been, with nothing playing; a failed one cancels nobody if and only if it was refused or nobody was live |
| `AnimationScheduling.FailedInterruptSilencesPlaylist` | `src/server/animation/SessionManager.cpp:206-295` | a concrete interrupt that fails after adoption: the playlist's session is cancelled and the playlist active with nothing playing |
| `AnimationScheduling.OnFinish` | `src/server/animation/CooperativeAnimationScheduler.cpp:882-988` | with no other thread between its sections: a cancelled session's finish pops nothing and leaves every playlist alone; a natural one takes the front of the queue if there is one, and decides an interrupted playlist exactly if there was none; a popped animation is lost, with nothing started in its place, exactly if it is inadmissible or its load is turned away |
| `SessionProtocol.ProtocolRunsAreRegistryRuns` | `src/server/animation/CooperativeAnimationScheduler.cpp:78-145` | every interleaving of loaders, cancellers and runners is a run of the registry's critical sections |
| `SessionProtocol.NextKeepsInv` | `src/server/animation/CooperativeAnimationScheduler.cpp:78-145` | every act of a loader, runner or canceller, with the lock or without, keeps: a session on its list was taken by no canceller and removed by no loader; one off its list was taken by a canceller, removed by its failing loader or is being finished by its own runner, and never by canceller and loader both; a session whose load was given up is cancelled |
| `SessionProgress.DroppedIsOwnedExactly` | `src/server/animation/CooperativeAnimationScheduler.cpp:573-588` | a session whose load was given up has a canceller that owes or scheduled its teardown if and only if its flag was not first set without the lock; if it was, the session is stranded on its list |
| `SessionProgress.StrandedForEver` | `src/server/animation/SessionManager.cpp:150-180` | a stranded session stays on its list whatever all threads do, and nobody ever takes it or finishes it |
| `SessionProgress.PlaylistStartStrandsLoadingSession` | `src/server/ws/service/PlaylistService.cpp:382-386` | a run from an empty server: the loading session is the current one, is cancelled without the lock, and is stranded whatever follows |
| `SessionProgress.RegisteredIsAttendedExactly` | `src/server/animation/CooperativeAnimationScheduler.cpp:573-640` | in every reachable state, while the event loop is not at work on a finish, a session on its list has an act of its loader, runner or finish to be done if and only if it is not stranded, and stranded ones were first flagged without the lock |
| `SessionProgress.FewActsAreLeft` | `src/server/eventloop/events/playback-runner.cpp:232-268` | the loader, canceller, runner and finish of a session have at most fourteen acts for it before them, from every reachable state |
| `SessionProgress.EverySessionIsSeenOffExactly` | `src/server/eventloop/events/playback-runner.cpp:232-268` | when no act of any of them is left, a session is on its list if and only if it was first flagged without the lock and its load given up; of all others either the finish has run or the failing loader has stopped the transport, never both |
| `SessionProtocol.ExactlyOnePartyStopsTheTransport` | `src/server/animation/CooperativeAnimationScheduler.cpp:107-133` | once a failing loader's abort is over, the loader has the session's transport to stop exactly if no canceller took the session and owes its teardown, and then no runner ever works for the session |
| `SessionProtocol.LosingAbortChangesNothing` | `src/server/animation/CooperativeAnimationScheduler.cpp:107-118` | a loader whose session was taken by a canceller leaves the registry as it was, in particular the replacement's queue and playlist |
| `LateFailures.LateAbortHitsReplacement` | `src/server/animation/CooperativeAnimationScheduler.cpp:86-118` | the loader's late abort drops the queue that belongs to a replacement, and for a playlist session the playlist started since, if and only if the session was already flagged cancelled, by its failing loader or without the lock, when the replacement was adopted; otherwise both are untouched |
| `LateFailures.LateAbortErasesReplacement` | `src/server/animation/CooperativeAnimationScheduler.cpp:86-118` | a concrete run from an empty server in which the replacement loses its queued animation and, if the failing session is a playlist's, its playlist |
| `FinishRuns.FinishActsAtMostOnce` | `src/server/animation/CooperativeAnimationScheduler.cpp:882-940` | over every run a session's finish pops at most once and decides at most once, and neither once it is skipped |
| `FinishRuns.DecidesOnlyAfterEmptyPop` | `src/server/animation/CooperativeAnimationScheduler.cpp:911-963` | over every run, with any thread between its sections, a finish that comes to decide has popped an empty queue, has taken no animation, and read its session as live |
| `FinishRuns.CancelledFinishGoesOnExactly` | `src/server/animation/CooperativeAnimationScheduler.cpp:882-963` | a cancelled session's finish goes on to pop or decide if and only if the flag was set after the finish read it, by a canceller that came before the finish cleared the session or by one that does not take the lock |
| `FinishRuns.DisplacedFinishGoesOnExactly` | `src/server/animation/CooperativeAnimationScheduler.cpp:882-963` | the finish of a session that a canceller took goes on if and only if the session was taken between the finish's reading and its clearing |
| `FinishRuns.ActsForCancelledExactly` | `src/server/animation/CooperativeAnimationScheduler.cpp:882-963` | when a finish is about to pop or decide, its session is cancelled if and only if the flag was set since the reading |
| `FinishRuns.SkippedFinishLeavesAllAlone` | `src/server/animation/CooperativeAnimationScheduler.cpp:897-907` | a finish that read its session as cancelled never pops or decides, whatever runs in between, and its clearing leaves every queue and playlist alone |
| `FinishRaces.CancelledFinishTakesAnimation` | `src/server/animation/CooperativeAnimationScheduler.cpp:884-940` | a concrete run from an empty server in which a cancelled session's finish takes the next queued animation |
| `FinishRaces.DisplacedFinishConsumesDecision` | `src/server/animation/CooperativeAnimationScheduler.cpp:897-963` | a concrete run in which the finish of a displaced session resumes the playlist while the interrupt that displaced it is live, and consumes its decision |
| `CoordinatorRuns.NextKeepsInv` | `src/server/audio/LocalAudioPlaybackCoordinator.cpp:208-458` | every atomic action of submitters, handle owners, the shutdown caller and the worker keeps the coordinator's invariant |
| `CoordinatorRuns.RunKeepsInv` | `src/server/audio/LocalAudioPlaybackCoordinator.cpp:208-458` | so does every interleaving of them |
| `CoordinatorTheorems.EveryJobIsInOnePlace` | `src/server/audio/LocalAudioPlaybackCoordinator.cpp:208-458` | after every interleaving each accepted job is in the slot, with the one actor that will finish it, or finished |
| `CoordinatorTheorems.FinishedIsForEver` | `src/server/audio/LocalAudioPlaybackCoordinator.cpp:414-447` | a finished job stays finished with the outcome it had |
| `CoordinatorProgress.StopReachesThePlayer` | `src/server/audio/LocalAudioPlaybackCoordinator.cpp:157-164` | over every interleaving a job has a stop reason exactly if the flag the player polls is set or some party still owes the store |
| `CoordinatorProgress.EveryJobGetsFinished` | `src/server/audio/LocalAudioPlaybackCoordinator.cpp:329-447` | from every reachable state the parties already at work have a bounded number of acts, and when none of those is left every accepted job is finished |
| `CoordinatorTheorems.JobsStartInOrder` | `src/server/audio/LocalAudioPlaybackCoordinator.cpp:329-349` | jobs start in strictly increasing order of generation |
| `CoordinatorTheorems.NewestWaitsAndActiveIsStopped` | `src/server/audio/LocalAudioPlaybackCoordinator.cpp:223-240` | the pending job is the newest accepted one, and while one is pending the active job has a stop reason |
| `CoordinatorTheorems.StoppedJobsNeverComplete` | `src/server/audio/LocalAudioPlaybackCoordinator.cpp:157-164` | a job stopped by a replacement ends as replaced, failed or timed out, one stopped by the shutdown as shut down, failed or timed out; neither ever completes |
| `CoordinatorOutcomes.EveryOutcomeIsExplained` | `src/server/audio/LocalAudioPlaybackCoordinator.cpp:226-407` | over every interleaving a finished job ended by one decision: failed or timed out exactly if the player returned that; else by the stop reason it had then; with none, as the player returned; and taken out of the slot, as its reason says or, by the shutdown, as shut down |
| `CoordinatorOutcomes.HandleStopIsHonoured` | `src/server/audio/LocalAudioPlaybackCoordinator.cpp:370-407` | a job its handle stopped while its outcome was open ends stopped, or failed or timed out as the player said, or shut down if the shutdown takes it out of the slot; never completed |
| `CoordinatorOutcomes.ReasonTellsWhoStopped` | `src/server/audio/LocalAudioPlaybackCoordinator.cpp:223-282` | a stop reason is set by the first to stop the job, and tells which it was: its handle, a later submission, or the shutdown |
| `CoordinatorOutcomes.StatusTellsProgress` | `src/server/audio/LocalAudioPlaybackCoordinator.cpp:336-350` | in every reachable state a job that is not over shows as playing exactly if it has started, else as queued |
| `CoordinatorOutcomes.RefusalsAreCounted` | `src/server/audio/LocalAudioPlaybackCoordinator.cpp:208-222` | the rejection counter counts exactly the submissions turned away |
| `CoordinatorTheorems.NothingStartsAfterShutdown` | `src/server/audio/LocalAudioPlaybackCoordinator.cpp:263-295` | once the shutting-down section has ended no job starts, so the worker leaves after at most the job it has |
| `CoordinatorTheorems.RunAccounts` | `src/server/audio/LocalAudioPlaybackCoordinator.cpp:208-261` | over every interleaving the replacement counter is the number of jobs stopped by replacement, less the one whose count is still owed, and the outcome counters are the tallies |
| `CoordinatorTheorems.BooksBalanceAtRest` | `src/server/audio/LocalAudioPlaybackCoordinator.cpp:414-435` | at rest, accepted = completed + stopped + failed + timed out + jobs finished as replaced |
| `LocalAudioPlaybackCoordinators.LocalAudioPlaybackCoordinator.RequestStop` | `src/server/audio/LocalAudioPlaybackCoordinator.cpp:157-164` | only the first stop of a job sets its reason and its flag, and only that one is told so |
| `LocalAudioPlaybackCoordinators.LocalAudioPlaybackCoordinator.Submit` | `src/server/audio/LocalAudioPlaybackCoordinator.cpp:208-261` | the whole effect of a submission, including the three answers; the active and the pending job are stopped as replaced unless stopped before, and the displaced one ends as its reason says |
| `LocalAudioPlaybackCoordinators.LocalAudioPlaybackCoordinator.ShutDown` | `src/server/audio/LocalAudioPlaybackCoordinator.cpp:263-295` | the whole effect of a shutdown up to the join: the active and the pending job are stopped as shut down unless stopped before, and the slot is emptied |
| `LocalAudioPlaybackCoordinators.LocalAudioPlaybackCoordinator.WorkerTurn` | `src/server/audio/LocalAudioPlaybackCoordinator.cpp:336-407` | the whole effect of one pass of the worker loop; a job that nobody stopped ends as the player returned, another as its reason says |
| `LocalAudioPlaybackCoordinators.LocalAudioPlaybackCoordinator.Finish` | `src/server/audio/LocalAudioPlaybackCoordinator.cpp:414-447` | a job is counted and published once |
| `LocalAudioPlaybackCoordinators.SubmitIsARun` | `src/server/audio/LocalAudioPlaybackCoordinator.cpp:208-261` | the effect of Submit is that of a run of the interleaved machine |
| `LocalAudioPlaybackCoordinators.WorkerTurnIsARun` | `src/server/audio/LocalAudioPlaybackCoordinator.cpp:336-407` | so is the effect of a worker turn |
| `LocalAudioPlaybackCoordinators.ShutDownIsARun` | `src/server/audio/LocalAudioPlaybackCoordinator.cpp:263-295` | and that of a shutdown |
| `PacketFiles.AcceptedExactly` | `src/util/AudioCache.cpp:547-735` | a file is read as given metadata and frames if and only if it begins with their layout and they are within the limits (64 KiB of metadata, 2,000,000 frames, 8 KiB a frame, 512 MiB in all) |
| `PacketFiles.StrictPrefixIsRefused` | `src/util/AudioCache.cpp:563-735` | no strict prefix of a written file is read as anything |
| `PacketFiles.SameLayout` | `src/util/AudioCache.cpp:771-788` | the layout is injective and prefix-free: a file begins with at most one |
| `PacketFiles.SavedIsLoaded` | `src/util/AudioCache.cpp:563-788` | of the beginnings of a saved file exactly the whole one is loaded, and as what was saved, exactly if it is within the limits, of the same build, and its source still exists |
| `PacketFiles.OnlyOpusTellsBuildsApart` | `src/util/AudioCache.cpp:609-622` | with the constants of this version, a whole saved file within the limits is loaded by exactly the builds with the same Opus library |
| `PacketFiles.LayoutForExample` | `src/util/AudioCache.cpp:743-800` | the bytes of a small file, one by one |
| `Bytes.WordIsLittleEndian` | `src/util/AudioCache.cpp:743-800` | the four bytes of a size, lowest first |
| `PacketFiles.LoadPackets` | `src/util/AudioCache.cpp:547-735` | the reading loops compute the reader the lemmas are about |
| `PacketFiles.SavePackets` | `src/util/AudioCache.cpp:743-800` | the writing loops compute the layout |
| `CacheDirectories.NextKeepsInv` | `src/util/AudioCache.cpp:239-296` | every file operation of a save, a clear or a load, failing or not, torn or not, and a crash after any of them, keeps: with a marker, every channel file there is belongs to one completed save; removing the marker must succeed |
| `CacheDirectories.CrashSafety` | `src/util/AudioCache.cpp:239-296` | so it holds after every run from an empty directory |
| `CacheDirectories.HitIsTheLatestSave` | `src/util/AudioCache.cpp:91-186` | a hit is the latest completed save, whole, by this build, of seventeen channels of one length, with the current path, size and checksum |
| `CacheDirectories.MissClearsExactly` | `src/util/AudioCache.cpp:86-94` | a miss clears the directory exactly if neither the marker nor a channel was missing |
| `CacheDirectories.MixedIsLoadedExactly` | `src/util/AudioCache.cpp:91-186` | what a directory with k channels of one save and the rest of another is taken for, and exactly when it is a hit |
| `AudioCaches.AudioCache.SaveToCache` | `src/util/AudioCache.cpp:199-310` | succeeds exactly when every channel and the marker go through; then all channel files and the marker are in place; it is a run of the file operations |
| `AudioCaches.AudioCache.TryLoadFromCache` | `src/util/AudioCache.cpp:76-186` | returns what the directory holds for the source, counts one hit or one miss, and clears the directory exactly on a miss with all files present |
| `AudioCaches.AudioCache.ClearCache` | `src/util/AudioCache.cpp:312-328` | deletes files only, all of them if nothing fails; without a source there is nothing to clear |
| `AudioCaches.SavedIsAHit` | `src/util/AudioCache.cpp:199-310` | after a save that reported success a load is a hit exactly if source and build are the same and no write was cut short unnoticed |
| `AudioCaches.StuckMarkerMixesSaves` | `src/util/AudioCache.cpp:241-280` | when the marker cannot be removed and the save stops after k channels, a load returns channels of both saves if and only if both are of the current source, by this build, with the same number of frames |
| `AudioCacheRuns.HitAgreesWithItsSource` | `src/util/AudioCache.cpp:91-186` | over every history of edits, removals, upgrades, saves, clears, loads and crashes in which no removal of a marker fails, also when two sources share a directory, a hit is the latest completed save and was made of this path and this checksum |
| `AudioCacheRuns.HitIsAFreshEncoding` | `src/util/AudioCache.cpp:91-186` | over every such history, even one in which markers cannot be removed, with a collision-free checksum and a deterministic encoder a hit equals a fresh encoding of the source |
| `KeyMutexes.NextKeepsInv` | `src/util/AudioCache.cpp:384-398` | every step of the lock map, of locking, unlocking and letting go keeps: a shared mutex is the one its directory is registered with |
| `KeyMutexes.HoldersShareOneMutex` | `src/util/AudioCache.cpp:384-398` | threads holding a mutex at the same time have the same one if and only if it is for the same directory, although entries expire and are made anew |
| `KeyMutexes.OneThreadPerDirectory` | `src/util/AudioCache.cpp:384-398` | so one thread at a time works on a directory |
| `KeyMutexes.KeyMutexMap.GetKeyMutex` | `src/util/AudioCache.cpp:384-398` | returns the registered mutex if it is alive, else registers a new one |
| `KeyMutexes.SectionIsARun` | `src/util/AudioCache.cpp:384-398` | the method's effect is that of a run of the section |
| `SampleRings.OverlayExtendsWindow` | `src/server/audio/CoreAudioOutput.cpp:234-238` | samples copied in behind the queued ones extend the queue and disturb none of it, wherever the ring wraps |
| `SampleRings.SampleRing.Write` | `src/server/audio/CoreAudioOutput.cpp:222-240` | enqueues all of the samples or, exactly if they do not fit or are no whole frames, none, and then changes nothing |
| `SampleRings.SampleRing.Render` | `src/server/audio/CoreAudioOutput.cpp:259-287` | fills the buffer with the oldest samples and then zeros, dequeues exactly those, and counts an underrun if the buffer was not full |
| `SampleRings.SampleRing.StopAndClear` | `src/server/audio/CoreAudioOutput.cpp:199-208` | empties the queue |
| `SampleRingRuns.NextKeepsInv` | `src/server/audio/CoreAudioOutput.cpp:222-287` | every load, single sample copied and store of writer, renderer and stopping thread keeps the positions and cells right, though each side works with an old position of the other |
| `SampleRingRuns.EachActIsAQueueOperation` | `src/server/audio/CoreAudioOutput.cpp:222-287` | only the two stores and the clearing change the queue the ring stands for, each by a whole operation at once |
| `SampleRingRuns.RefusalsAreJustified` | `src/server/audio/CoreAudioOutput.cpp:226-233` | a write is refused exactly if it did not fit when the writer looked, whatever the renderer does meanwhile |
| `SampleRingRuns.HeardIsAPrefixOfAccepted` | `src/server/audio/CoreAudioOutput.cpp:222-287` | under every interleaving what is rendered, without padding, is a prefix of what was accepted, each buffer is zero after it, and 0 <= write - read <= capacity |
| `SampleRingRuns.NothingIsHeardTwice` | `src/server/audio/CoreAudioOutput.cpp:199-208` | with clearings in between, buffers hold what was accepted at their positions, and no position is heard twice |
| `SampleRingRuns.OverlappingClearIsUndone` | `src/server/audio/CoreAudioOutput.cpp:199-208` | a clearing that overlaps a render is undone by the render's store: what the render did not take is queued again |
| `SampleRingRuns.ClearedRingOverrunsExactly` | `src/server/audio/CoreAudioOutput.cpp:199-287` | whatever the writer does between such a clearing and the render's store, the positions stay within the capacity if and only if what it added and what the render did not take fit the ring together |
| `SampleRingRuns.FullWriteOverruns` | `src/server/audio/CoreAudioOutput.cpp:222-287` | so a single write of a ring's worth of samples overruns it unless the render took all that was queued |
| `SampleRingRuns.OverrunRingAcceptsExactly` | `src/server/audio/CoreAudioOutput.cpp:226-233` | the room test in unsigned arithmetic is the test for room within the capacity, and beyond it lets through every write but absurdly long ones |
| `SpeakerRuns.FlagRuns` | `scripts/modernize-sounds.py:668-680` | returns all maximal runs of set flags, in order, and nothing else |
| `SpeakerRuns.RunsRepaint` | `scripts/modernize-sounds.py:668-680` | painting the runs gives the flags back |
| `SpeakerRuns.RunsAreUnique` | `scripts/modernize-sounds.py:668-680` | flags have only one such list of runs |
| `SpeakerRuns.MergeRuns` | `scripts/modernize-sounds.py:700-708` | merging covers exactly the active frames and the pauses of at most 15 frames between two active ones |
| `SpeakerRuns.Smooth` | `scripts/modernize-sounds.py:700-715` | a frame counts as speech exactly if an active or bridged frame is at most five frames away |
| `LaneRuns.LaneFlags` | `scripts/modernize-sounds.py:725-742` | a lane's flags are as long as its first track and set where one of its tracks speaks |
| `LaneRuns.FirstLengthIsFirst` | `scripts/modernize-sounds.py:735-738` | the length that counts is that of the lane's first track |
| `LaneRuns.FrameCountIsLongest` | `scripts/modernize-sounds.py:725-732` | the animation is as long as the longest track of a creature with a lane |
| `LaneRuns.InFrameIsBetweenEdges` | `scripts/modernize-sounds.py:748-749` | the samples between the computed edges of a frame are exactly those below the total that end after the frame begins and no later than it does, in real numbers |
| `LaneRuns.LaneRunsFromTracks` | `scripts/modernize-sounds.py:718-764` | a lane's runs cover exactly the samples of the frames it claims, the unowned runs those of the frames nobody claims, where a sample x below the total belongs to frame k if k * s < x + 1 <= (k + 1) * s at s samples per frame; both are disjoint |
| `LaneRuns.EverySampleIsSettled` | `scripts/modernize-sounds.py:745-764` | the samples somebody or nobody owns are exactly those x below the total with x + 1 <= frames * samples per frame, and unowned is disjoint from every lane, for every positive real number of samples per frame |
| `LaneRuns.SpeechIsHeardWithinTheFirstTrack` | `scripts/modernize-sounds.py:735-742` | a lane gets the samples of a frame in which one of its creatures speaks if and only if the frame is within the lane's first track |
| `LaneRuns.LongerSecondTrackIsCut` | `scripts/modernize-sounds.py:735-742` | a concrete animation, with a second track longer than the first, in which speech is lost to its lane |
| `GatedConversion.FadeExactly` | `scripts/modernize-sounds.py:804-810` | a fade is the product with offset / ramp cut off towards zero, within one and with its sign |
| `GatedConversion.ShapedExactly` | `scripts/modernize-sounds.py:804-810` | what the overlapping fades of a run make of a sample, by its distance from both edges |
| `GatedConversion.ShapedIsSmaller` | `scripts/modernize-sounds.py:804-810` | never louder, never of the other sign, zero at the edges, unchanged a ramp from both |
| `GatedConversion.LaneBuffer.PlaceRun` | `scripts/modernize-sounds.py:797-810` | the strided copy and the fading loop change exactly the run's cells of the one lane |
| `GatedConversion.ConvertGated` | `scripts/modernize-sounds.py:789-810` | every cell of the buffer, at index 17 x + lane - 1, is what the placements, in order, make of it |
| `GatedConversion.CellsAreGated` | `scripts/modernize-sounds.py:789-810` | a lane has the mono sample, shaped by the one run that has it, exactly where the lane owns it or, on a fallback lane, where nobody does; elsewhere it is silent |
| `RiffChunks.ReplaceExactly` | `scripts/modernize-sounds.py:451-475` | on every container, replacing keeps the chunks in front of the first iXML chunk byte for byte, drops what follows, and appends the document; the size field is right unless it would not fit |
| `RiffChunks.NothingElseIsLost` | `scripts/modernize-sounds.py:454-456` | every other chunk is kept if and only if none follows the first iXML chunk |
| `RiffChunks.ReplacedReadsBack` | `scripts/modernize-sounds.py:431-448` | after an edit RIFF size = length - 8, the length is even, and reading returns the document |
| `RiffChunks.ReadExactly` | `scripts/modernize-sounds.py:431-448` | reading returns the data of the first iXML chunk behind any other chunks, as much as its size field says or as there is |
| `RiffChunks.NothingToRead` | `scripts/modernize-sounds.py:431-448` | it returns nothing of a file of another kind or without such a chunk |
| `RiffChunks.TooLongLosesTheRest` | `scripts/modernize-sounds.py:472-475` | a document too long for its size field is not written, but what it was to replace is gone |
| `RiffChunks.SecondReplaceWins` | `scripts/modernize-sounds.py:451-475` | replacing twice is replacing once with the second document |
| `RiffChunks.RiffFile.Find` | `scripts/modernize-sounds.py:458-470` | the chunk walk finds the first iXML chunk it can reach |
| `RiffChunks.RiffFile.Read` | `scripts/modernize-sounds.py:431-448` | reads nothing unless the file begins with RIFF and the walk gets to an iXML chunk, else its data |
| `RiffChunks.RiffFile.Append` | `scripts/modernize-sounds.py:280-299` | appends the padded chunk and patches the size, or fails with what is then in the file |
| `RiffChunks.RiffFile.Replace` | `scripts/modernize-sounds.py:451-475` | truncates at the chunk and appends |
| `LineSplitter.SplitIsUnique` | `src/util/ChildProcess.cpp:112-128` | an output has only one split into lines that end with their only newline, but perhaps the last |
| `LineSplitter.ReportLines` | `src/util/ChildProcess.cpp:107-135` | for every division of the output into reads the reported lines are that split, and they make up the output |
| `TitleExcerpts.WordsKeepInk` | `src/util/Slugify.cpp:36-50` | the words hold all bytes of the text that are not white space, in order, and no others |
| `TitleExcerpts.WordsStandInText` | `src/util/Slugify.cpp:36-50` | the words are those that stand in the text between white space, all of them, in order |
| `TitleExcerpts.WordsAreUnique` | `src/util/Slugify.cpp:36-50` | no text has two lists of words |
| `TitleExcerpts.SqueezedIsCollapsed` | `src/util/Slugify.cpp:36-50` | the collapsing loop leaves the words of the text with one space between them |
| `TitleExcerpts.TidyIsCollapsed` | `src/util/Slugify.cpp:36-50` | a text without leading, trailing, doubled or other white space is its own collapse |
| `TitleExcerpts.ShortTitlesAreFixed` | `src/util/Slugify.cpp:35-56` | so a title that was not cut is a fixed point |
| `TitleExcerpts.ExcerptIsUnique` | `src/util/Slugify.cpp:57-71` | the cut, and with it the excerpt, is determined by the text and the limit |
| `TitleExcerpts.ExcerptIsTidy` | `src/util/Slugify.cpp:57-71` | the text before the ellipsis is a prefix of the collapsed text, at most the limit long, with no separator at its end |
| `TitleExcerpts.ExcerptIsValidUtf8` | `src/util/Slugify.cpp:57-71` | it is valid UTF-8 if the text was |
| `TitleExcerpts.TitleExcerpt` | `src/util/Slugify.cpp:35-72` | the fallback exactly for a text without words, else the collapsed text or its excerpt; valid UTF-8 for valid inputs |
## Left out

- Spans, metrics, logging, websocket broadcasts and the activity service: only that a cancelled session's teardown is owed, and done, is kept as history.
- MongoDB, DTOs and JSON mapping; the JSON text of cache metadata is a pair of functions.
- The bodies of the audio-load executor, the RTP and native transports, the playback runner and the event loop: their answers are arbitrary, their steps interleaved.
- The executor dropping accepted load jobs at its shutdown: such a load is one that never decides.
- `StreamingPlaybackSession`, `interruptIdleOnly`, the plain queries of the session manager, and the checks for null pointers.
- A null session manager while a load is unwound: the scheduler has refused the request by then.
- Session ids: they are UUIDs in the code and taken to be unique, and a session is registered once.
- Devices, codecs, ffmpeg, sockets and process creation; of the CoreAudio output only the ring, of a child process only the reading loop with a callback.
- Wall-clock time, the order in which a power loss keeps file operations, several processes on one cache directory, symbolic links, and wrap-around of 64-bit positions and counters.
- The directory name computed from a path: it is an arbitrary function, and collisions are covered.
- The texts of errors: where the code tells them apart only in the log, the model has one refusal.
- `queuedFrames` of the ring. Clearing is modelled with no render under way; the code only logs a device that fails to stop, and `SampleRingRuns.OverlappingClearIsUndone` and `SampleRingRuns.ClearedRingOverrunsExactly` say what a render still under way does then.
- The mouth-activity threshold: raw activity flags are the input. Sample counts per frame and gains are exact reals and fractions, without the rounding of binary floating point.
- `slugify`, the export names, and text decoding and encoding of iXML documents, which are taken as bytes.
- CacheDirectories.Can: a save's sizes fit the 32-bit fields they are written to (`Fits`); a frame or metadata text of 4 GiB is not modelled.
- CacheDirectories.CrashSafety: assumes that removing the marker never fails; AudioCaches.StuckMarkerMixesSaves says what happens otherwise.
- AudioCacheRuns.HitAgreesWithItsSource: assumes that removing a marker never fails, as `CacheDirectories.CrashSafety` does; AudioCacheRuns.HitIsAFreshEncoding does not.
- AnimationScheduling.OnFinish: one method, with no other thread between its sections; SessionProtocol interleaves them, and the theorems of FinishRuns are about that. What a popped animation's scheduling does then is an adoption by any thread there.
- GatedConversion.ConvertGated: lanes are 1 to 17, as the script checks for the lanes it is given on the command line.
- RiffChunks.ReplaceExactly: is about containers whose chunks are padded to even length; a file that ends in an unpadded odd chunk is not covered.
- SampleRingRuns.HeardIsAPrefixOfAccepted: is for runs without clearing; SampleRingRuns.NothingIsHeardTwice covers clearing.
