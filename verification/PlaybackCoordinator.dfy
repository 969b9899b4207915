/** The state the local audio coordinator's threads share, and what each atomic action does to it. */
module PlaybackCoordination {
  import opened Wrappers

  datatype StopReason = NotStopped | ByReplacement | ByRequest | ByShutdown

  datatype Outcome = Completed | Replaced | Stopped | Failed | TimedOut | Shutdown

  datatype Status = Queued | Playing | Ended(outcome: Outcome)

  datatype Job = Job(reason: StopReason, stopRequested: bool, status: Status, completionNotified: bool)

  const NEW_JOB := Job(NotStopped, false, Queued, false)

  datatype Counters = Counters(accepted: nat, completed: nat, replaced: nat, rejected: nat, stopped: nat, failed: nat,
                               timedOut: nat)

  /** Jobs are numbered in the order of acceptance, so a job's number is its generation less one. */
  datatype Shared = Shared(jobs: seq<Job>, pending: Option<nat>, active: Option<nat>, shuttingDown: bool,
                           counters: Counters)
  {
    function WithJob(j: nat, job: Job): Shared
      requires j < |jobs|
    {
      this.(jobs := jobs[j := job])
    }
  }

  const IDLE := Shared([], None, None, false, Counters(0, 0, 0, 0, 0, 0, 0))

  /** The outcome that goes with a stop reason. */
  predicate Says(reason: StopReason, outcome: Outcome) {
    || (reason == ByRequest && outcome == Stopped)
    || (reason == ByReplacement && outcome == Replaced)
    || (reason == ByShutdown && outcome == Shutdown)
  }

  function OutcomeFor(reason: StopReason): Outcome {
    match reason
    case NotStopped => Completed
    case ByReplacement => Replaced
    case ByRequest => Stopped
    case ByShutdown => Shutdown
  }

  /** A failure or a time-out stands; any other outcome gives way to the stop reason, if there is one. */
  function Merged(result: Outcome, reason: StopReason): Outcome {
    if reason != NotStopped && result != Failed && result != TimedOut then OutcomeFor(reason) else result
  }

  function Reasoned(s: Shared, j: nat, reason: StopReason): Shared
    requires j < |s.jobs|
  {
    s.WithJob(j, s.jobs[j].(reason := reason))
  }

  function Requested(s: Shared, j: nat): Shared
    requires j < |s.jobs|
  {
    s.WithJob(j, s.jobs[j].(stopRequested := true))
  }

  function Rejected(s: Shared): Shared {
    s.(counters := s.counters.(rejected := s.counters.rejected + 1))
  }

  function ReplacementCounted(s: Shared): Shared {
    s.(counters := s.counters.(replaced := s.counters.replaced + 1))
  }

  /** The new job takes the slot. */
  function Accepted(s: Shared): Shared {
    s.(jobs := s.jobs + [NEW_JOB], pending := Some(|s.jobs|),
       counters := s.counters.(accepted := s.counters.accepted + 1))
  }

  function SlotEmptied(s: Shared): Shared {
    s.(pending := None)
  }

  function Started(s: Shared): Shared
    requires s.pending.Some? && s.pending.value < |s.jobs|
  {
    var j := s.pending.value;
    s.WithJob(j, s.jobs[j].(status := Playing)).(pending := None, active := Some(j))
  }

  function Detached(s: Shared, j: nat): Shared {
    if s.active == Some(j) then s.(active := None) else s
  }

  function CompletionClaimed(s: Shared, j: nat): Shared
    requires j < |s.jobs|
  {
    s.WithJob(j, s.jobs[j].(completionNotified := true))
  }

  function Tallied(c: Counters, outcome: Outcome): Counters {
    match outcome
    case Completed => c.(completed := c.completed + 1)
    case Replaced => c
    case Stopped => c.(stopped := c.stopped + 1)
    case Shutdown => c.(stopped := c.stopped + 1)
    case Failed => c.(failed := c.failed + 1)
    case TimedOut => c.(timedOut := c.timedOut + 1)
  }

  function Counted(s: Shared, outcome: Outcome): Shared {
    s.(counters := Tallied(s.counters, outcome))
  }

  function Published(s: Shared, j: nat, outcome: Outcome): Shared
    requires j < |s.jobs|
  {
    s.WithJob(j, s.jobs[j].(status := Ended(outcome)))
  }
}
