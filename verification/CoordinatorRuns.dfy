/**
 Submitters, handle owners, the shutdown caller and the worker, interleaved one atomic action at a time. Everything
 between taking and releasing the mutex is still several actions, because stopping a job through its handle takes no
 lock: a compare-and-swap of the stop reason, then a store of the flag the player polls.
 */
module CoordinatorRuns {
  import opened Wrappers
  import opened PlaybackCoordination

  datatype Actor = Submitter(pid: nat) | Closer | Worker

  datatype Pc =
    | CasActive                                // holding the mutex: about to stop the active job
    | StoreActive(job: nat)
    | CountActive
    | CasPending                               // about to stop the pending job
    | StorePending(job: nat)
    | CountPending
    | Swap                                     // about to take the slot and release the mutex
    | Judge(job: nat)                          // a submitter reads why the job it displaced was stopped
    | Before(job: nat)                         // the worker has a job and has not looked at its stop reason
    | Play(job: nat)
    | Merge(job: nat, result: Outcome)         // the worker is about to merge the result with the stop reason
    | Claim(job: nat, result: Outcome)         // finishing a job, in three actions
    | Tally(job: nat, result: Outcome)
    | Publish(job: nat, result: Outcome)

  // Where a job is, and the outcome it has been counted under: history, read by no action.
  datatype Place = InSlot | With(actor: Actor) | Over
  datatype Trail = Trail(place: Place, tallied: Option<Outcome>)

  datatype Machine = Machine(
    shared: Shared,
    lock: Option<Actor>,
    pcs: map<Actor, Pc>,
    storing: set<nat>,
    closing: bool,
    workerDone: bool,
    trails: seq<Trail>,
    started: seq<nat>)

  const START := Machine(IDLE, None, map[], {}, false, false, [], [])

  datatype Act =
    | SubmitInvalid
    | SubmitEnter(pid: nat)
    | CloseEnter
    | Advance(actor: Actor)                    // the actor's next action
    | PlayEnds(result: Outcome)                // the player returns, whatever it returns
    | WorkerTakes
    | WorkerExits
    | HandleStops(job: nat)
    | HandleStores(job: nat)

  predicate InSection(pc: Pc) {
    || pc.CasActive? || pc.StoreActive? || pc.CountActive? || pc.CasPending? || pc.StorePending? || pc.CountPending?
    || pc.Swap?
  }

  /** The job an actor is responsible for finishing. */
  function Holds(pc: Pc): Option<nat> {
    match pc
    case Judge(j) => Some(j)
    case Before(j) => Some(j)
    case Play(j) => Some(j)
    case Merge(j, _) => Some(j)
    case Claim(j, _) => Some(j)
    case Tally(j, _) => Some(j)
    case Publish(j, _) => Some(j)
    case _ => None
  }

  /** Every job number an action mentions exists. */
  predicate Numbered(m: Machine) {
    && |m.trails| == |m.shared.jobs|
    && (m.shared.pending.Some? ==> m.shared.pending.value < |m.shared.jobs|)
    && (m.shared.active.Some? ==> m.shared.active.value < |m.shared.jobs|)
    && (forall a | a in m.pcs :: match m.pcs[a]
          case StoreActive(j) => j < |m.shared.jobs|
          case StorePending(j) => j < |m.shared.jobs|
          case pc => Holds(pc).Some? ==> Holds(pc).value < |m.shared.jobs|)
    && (forall j | j in m.storing :: j < |m.shared.jobs|)
  }

  predicate Can(m: Machine, act: Act) {
    && Numbered(m)
    && match act
       case SubmitInvalid => true
       case SubmitEnter(pid) => Submitter(pid) !in m.pcs && m.lock.None?
       case CloseEnter => !m.closing && m.lock.None?
       case Advance(a) => a in m.pcs && !m.pcs[a].Play? && (m.pcs[a].Merge? ==> m.lock.None?)
       case PlayEnds(_) => Worker in m.pcs && m.pcs[Worker].Play?
       case WorkerTakes => !m.workerDone && Worker !in m.pcs && m.lock.None? && m.shared.pending.Some?
       case WorkerExits =>
         !m.workerDone && Worker !in m.pcs && m.lock.None? && m.shared.pending.None? && m.shared.shuttingDown
       case HandleStops(j) => j < |m.shared.jobs| && m.shared.jobs[j].reason == NotStopped
       case HandleStores(j) => j in m.storing
  }

  function ReasonOf(a: Actor): StopReason {
    if a == Closer then ByShutdown else ByReplacement
  }

  /** The reason swapped into a target that has none yet. */
  function Cas(s: Shared, a: Actor, target: Option<nat>): Shared
    requires target.Some? ==> target.value < |s.jobs|
  {
    if Wins(s, target) then Reasoned(s, target.value, ReasonOf(a)) else s
  }

  predicate Wins(s: Shared, target: Option<nat>)
    requires target.Some? ==> target.value < |s.jobs|
  {
    target.Some? && s.jobs[target.value].reason == NotStopped
  }

  /** What the actor's next action does to the shared state. */
  function SharedAfter(m: Machine, a: Actor): Shared
    requires Can(m, Advance(a))
  {
    match m.pcs[a]
    case CasActive => Cas(m.shared, a, m.shared.active)
    case StoreActive(j) => Requested(m.shared, j)
    case CountActive => ReplacementCounted(m.shared)
    case CasPending => Cas(m.shared, a, m.shared.pending)
    case StorePending(j) => Requested(m.shared, j)
    case CountPending => ReplacementCounted(m.shared)
    case Swap => if a == Closer then SlotEmptied(m.shared) else Accepted(m.shared)
    case Merge(j, _) => Detached(m.shared, j)
    case Claim(j, _) => CompletionClaimed(m.shared, j)
    case Tally(_, result) => Counted(m.shared, result)
    case Publish(j, result) => Published(m.shared, j, result)
    case _ => m.shared
  }

  /** Where the actor is after it, if it is still at work. */
  function PcAfter(m: Machine, a: Actor): Option<Pc>
    requires Can(m, Advance(a))
  {
    match m.pcs[a]
    case CasActive => Some(if Wins(m.shared, m.shared.active) then StoreActive(m.shared.active.value) else CasPending)
    case StoreActive(_) => Some(if a == Closer then CasPending else CountActive)
    case CountActive => Some(CasPending)
    case CasPending => Some(if Wins(m.shared, m.shared.pending) then StorePending(m.shared.pending.value) else Swap)
    case StorePending(_) => Some(if a == Closer then Swap else CountPending)
    case CountPending => Some(Swap)
    case Swap =>
      if m.shared.pending.None? then None
      else Some(if a == Closer then Claim(m.shared.pending.value, Shutdown) else Judge(m.shared.pending.value))
    case Judge(j) => Some(Claim(j, OutcomeFor(m.shared.jobs[j].reason)))
    case Before(j) =>
      var reason := m.shared.jobs[j].reason;
      Some(if reason == NotStopped then Play(j) else Merge(j, OutcomeFor(reason)))
    case Play(j) => Some(Play(j))
    case Merge(j, result) => Some(Claim(j, Merged(result, m.shared.jobs[j].reason)))
    case Claim(j, result) => if m.shared.jobs[j].completionNotified then None else Some(Tally(j, result))
    case Tally(j, result) => Some(Publish(j, result))
    case Publish(_, _) => None
  }

  function PcsAfter(m: Machine, a: Actor): map<Actor, Pc>
    requires Can(m, Advance(a))
  {
    var pc := PcAfter(m, a);
    if pc.Some? then m.pcs[a := pc.value] else m.pcs - {a}
  }

  function Placed(trails: seq<Trail>, j: nat, place: Place): seq<Trail>
    requires j < |trails|
  {
    trails[j := trails[j].(place := place)]
  }

  function TrailsAfter(m: Machine, a: Actor): seq<Trail>
    requires Can(m, Advance(a))
  {
    match m.pcs[a]
    case Swap =>
      var displaced :=
        if m.shared.pending.Some? then Placed(m.trails, m.shared.pending.value, With(a)) else m.trails;
      if a == Closer then displaced else displaced + [Trail(InSlot, None)]
    case Tally(j, result) => m.trails[j := m.trails[j].(tallied := Some(result))]
    case Publish(j, _) => Placed(m.trails, j, Over)
    case _ => m.trails
  }

  function LockAfter(m: Machine, a: Actor): Option<Actor>
    requires Can(m, Advance(a))
  {
    if m.pcs[a].Swap? then None else m.lock
  }

  function Step(m: Machine, a: Actor): Machine
    requires Can(m, Advance(a))
  {
    Machine(SharedAfter(m, a), LockAfter(m, a), PcsAfter(m, a), m.storing, m.closing, m.workerDone,
            TrailsAfter(m, a), m.started)
  }

  function Next(m: Machine, act: Act): Machine
    requires Can(m, act)
  {
    match act
    case SubmitInvalid => m.(shared := Rejected(m.shared))
    case SubmitEnter(pid) =>
      if m.shared.shuttingDown then m.(shared := Rejected(m.shared))
      else m.(lock := Some(Submitter(pid)), pcs := m.pcs[Submitter(pid) := CasActive])
    case CloseEnter =>
      m.(lock := Some(Closer), closing := true, shared := m.shared.(shuttingDown := true),
         pcs := m.pcs[Closer := CasActive])
    case Advance(a) => Step(m, a)
    case PlayEnds(result) => m.(pcs := m.pcs[Worker := Merge(m.pcs[Worker].job, result)])
    case WorkerTakes =>
      var j := m.shared.pending.value;
      m.(shared := Started(m.shared), started := m.started + [j], trails := Placed(m.trails, j, With(Worker)),
         pcs := m.pcs[Worker := Before(j)])
    case WorkerExits => m.(workerDone := true)
    case HandleStops(j) => m.(shared := Reasoned(m.shared, j, ByRequest), storing := m.storing + {j})
    case HandleStores(j) => m.(shared := Requested(m.shared, j), storing := m.storing - {j})
  }

  predicate Possible(m: Machine, acts: seq<Act>)
    decreases |acts|
  {
    acts == [] || (Can(m, acts[0]) && Possible(Next(m, acts[0]), acts[1..]))
  }

  function End(m: Machine, acts: seq<Act>): Machine
    requires Possible(m, acts)
    decreases |acts|
  {
    if acts == [] then m else End(Next(m, acts[0]), acts[1..])
  }

  // ----- The invariant -----

  /** The mutex is held by the one actor inside a critical section, which is never the worker. */
  ghost predicate Locked(m: Machine) {
    && (m.lock.Some? ==> m.lock.value in m.pcs && InSection(m.pcs[m.lock.value]) && m.lock.value != Worker)
    && (forall a | a in m.pcs && InSection(m.pcs[a]) :: m.lock == Some(a))
    && (m.shared.shuttingDown ==> m.closing && (m.lock.Some? ==> m.lock == Some(Closer)))
    && (Closer in m.pcs ==> m.closing)
    && (m.closing ==> m.shared.shuttingDown)
    && (m.shared.shuttingDown && m.lock.None? ==> m.shared.pending.None?)
    && (m.workerDone ==> m.shared.shuttingDown && m.lock.None? && Worker !in m.pcs)
  }

  /** Each kind of actor stays in its own part of the program. */
  predicate InRole(a: Actor, pc: Pc) {
    && (pc.Before? || pc.Play? || pc.Merge? ==> a == Worker)
    && (pc.Judge? || pc.CountActive? || pc.CountPending? ==> a.Submitter?)
    && (a == Closer && (pc.Claim? || pc.Tally? || pc.Publish?) ==> pc.result == Shutdown)
  }

  predicate Finishing(pc: Pc) {
    pc.Claim? || pc.Tally? || pc.Publish?
  }

  /** The stop-reason test of the section on the pending job is over. */
  predicate PendingTested(m: Machine) {
    m.lock.Some? && m.lock.value in m.pcs &&
    (m.pcs[m.lock.value].StorePending? || m.pcs[m.lock.value].CountPending? || m.pcs[m.lock.value].Swap?)
  }

  predicate ActiveTested(m: Machine) {
    m.lock.Some? && m.lock.value in m.pcs && !m.pcs[m.lock.value].CasActive?
  }

  /** What a job that is being finished, or is finished, may end as, given why it was stopped. */
  predicate Fits(reason: StopReason, outcome: Outcome) {
    && (reason == ByReplacement ==> outcome == Replaced || outcome == Failed || outcome == TimedOut)
    && (reason == ByShutdown ==> outcome == Shutdown || outcome == Failed || outcome == TimedOut)
  }

  function HolderPc(m: Machine, j: nat): Option<Pc>
    requires j < |m.trails|
  {
    match m.trails[j].place
    case With(a) => if a in m.pcs then Some(m.pcs[a]) else None
    case _ => None
  }

  predicate JobOk(j: nat, job: Job, trail: Trail, isPending: bool, isActive: bool, holder: Option<Pc>) {
    match trail.place
    case InSlot =>
      && isPending && !isActive
      && job.status == Queued && !job.completionNotified && trail.tallied.None?
    case With(_) =>
      && !isPending
      && holder.Some? && Holds(holder.value) == Some(j)
      && !job.status.Ended?
      && (job.completionNotified <==> holder.value.Tally? || holder.value.Publish?)
      && (if holder.value.Publish? then trail.tallied == Some(holder.value.result) else trail.tallied.None?)
      && (Finishing(holder.value) ==> Fits(job.reason, holder.value.result))
      && (holder.value.Judge? ==> job.reason == ByRequest || job.reason == ByReplacement)
      && (isActive <==> holder.value.Before? || holder.value.Play? || holder.value.Merge?)
    case Over =>
      && !isPending && !isActive
      && job.status.Ended? && job.completionNotified
      && trail.tallied == Some(job.status.outcome)
      && Fits(job.reason, job.status.outcome)
  }

  predicate JobInvariant(m: Machine, j: nat)
    requires j < |m.trails| && j < |m.shared.jobs|
  {
    JobOk(j, m.shared.jobs[j], m.trails[j], m.shared.pending == Some(j), m.shared.active == Some(j), HolderPc(m, j))
  }

  predicate ActorInvariant(m: Machine, a: Actor)
    requires Numbered(m) && a in m.pcs
  {
    && InRole(a, m.pcs[a])
    && (Holds(m.pcs[a]).Some? ==> m.trails[Holds(m.pcs[a]).value].place == With(a))
  }

  predicate SlotInvariant(m: Machine)
    requires Numbered(m)
  {
    && (m.shared.pending.Some? ==>
          && m.shared.pending.value == |m.shared.jobs| - 1
          && m.trails[m.shared.pending.value].place == InSlot
          && var reason := m.shared.jobs[m.shared.pending.value].reason;
             if PendingTested(m) then reason == ByRequest || reason == ReasonOf(m.lock.value)
             else reason == NotStopped || reason == ByRequest)
    && (m.shared.active.Some? ==> m.trails[m.shared.active.value].place == With(Worker))
    && (m.shared.active.Some? && (m.shared.pending.Some? || ActiveTested(m)) ==>
          m.shared.jobs[m.shared.active.value].reason != NotStopped)
  }

  ghost predicate StartedInvariant(m: Machine) {
    && (forall i, k | 0 <= i < k < |m.started| :: m.started[i] < m.started[k])
    && (forall i | 0 <= i < |m.started| ::
          m.started[i] < if m.shared.pending.Some? then m.shared.pending.value else |m.shared.jobs|)
  }

  ghost predicate Actors(m: Machine) {
    && Numbered(m)
    && Locked(m)
    && SlotInvariant(m)
    && StartedInvariant(m)
    && (forall a | a in m.pcs :: ActorInvariant(m, a))
  }

  ghost predicate Jobs(m: Machine)
    requires Numbered(m)
  {
    forall j | 0 <= j < |m.shared.jobs| :: JobInvariant(m, j)
  }

  ghost predicate Inv(m: Machine) {
    Actors(m) && Jobs(m)
  }

  // ----- The invariant, action by action -----

  ghost predicate SameElsewhere(m: Machine, next: Machine, a: Actor) {
    forall b | b != a :: (b in next.pcs <==> b in m.pcs) && (b in m.pcs ==> next.pcs[b] == m.pcs[b])
  }

  predicate SameJob(m: Machine, next: Machine, j: nat)
    requires Numbered(m) && j < |m.shared.jobs|
  {
    && j < |next.shared.jobs| && j < |next.trails|
    && next.shared.jobs[j] == m.shared.jobs[j] && next.trails[j] == m.trails[j]
    && (next.shared.pending == Some(j) <==> m.shared.pending == Some(j))
    && (next.shared.active == Some(j) <==> m.shared.active == Some(j))
  }

  /** A job the actor does not hold, and whose record it does not touch, is as it was. */
  lemma BystanderJob(m: Machine, next: Machine, a: Actor, j: nat)
    requires Numbered(m) && j < |m.shared.jobs| && JobInvariant(m, j)
    requires SameElsewhere(m, next, a) && SameJob(m, next, j)
    requires a in m.pcs ==> Holds(m.pcs[a]) != Some(j)
    ensures JobInvariant(next, j)
  {
  }

  /** An action of an actor on one job leaves every other job as it was. */
  lemma OnlyJob(m: Machine, next: Machine, a: Actor, subject: nat)
    requires Inv(m) && Numbered(next) && |next.shared.jobs| == |m.shared.jobs|
    requires SameElsewhere(m, next, a)
    requires forall j | 0 <= j < |m.shared.jobs| && j != subject :: SameJob(m, next, j)
    requires a in m.pcs && Holds(m.pcs[a]).Some? ==> Holds(m.pcs[a]).value == subject
    requires subject < |m.shared.jobs| ==> JobInvariant(next, subject)
    ensures Jobs(next)
  {
    forall j | 0 <= j < |next.shared.jobs| ensures JobInvariant(next, j) {
      assert JobInvariant(m, j);
      if j != subject {
        BystanderJob(m, next, a, j);
      }
    }
  }

  /** A step inside a section before its end, seen from outside: at most stop fields of jobs and counters change. */
  ghost predicate SectionMove(m: Machine, next: Machine, a: Actor)
    requires Numbered(m) && a in m.pcs
  {
    && Numbered(next) && |next.shared.jobs| == |m.shared.jobs| && SameElsewhere(m, next, a) && next.trails == m.trails
    && next.shared.pending == m.shared.pending && next.shared.active == m.shared.active
    && next.shared.shuttingDown == m.shared.shuttingDown
    && next.lock == m.lock && next.closing == m.closing && next.workerDone == m.workerDone && next.started == m.started
    && a in next.pcs && InSection(next.pcs[a]) && InRole(a, next.pcs[a])
  }

  lemma SectionMoveKeepsActors(m: Machine, next: Machine, a: Actor)
    requires Actors(m) && a in m.pcs && InSection(m.pcs[a]) && SectionMove(m, next, a) && SlotInvariant(next)
    ensures Actors(next)
  {
    forall b | b in next.pcs ensures ActorInvariant(next, b) {
      assert ActorInvariant(m, b);
    }
  }

  lemma CasActiveKeepsSlot(m: Machine, a: Actor)
    requires Inv(m) && Can(m, Advance(a)) && m.pcs[a].CasActive?
    ensures Numbered(Step(m, a)) && SlotInvariant(Step(m, a))
  {
    assert ActorInvariant(m, a);
  }

  lemma CasActiveKeepsActors(m: Machine, a: Actor)
    requires Inv(m) && Can(m, Advance(a)) && m.pcs[a].CasActive?
    ensures Actors(Step(m, a))
  {
    CasActiveKeepsSlot(m, a);
    assert ActorInvariant(m, a);
    SectionMoveKeepsActors(m, Step(m, a), a);
  }

  lemma CasPendingKeepsSlot(m: Machine, a: Actor)
    requires Inv(m) && Can(m, Advance(a)) && m.pcs[a].CasPending?
    ensures Numbered(Step(m, a)) && SlotInvariant(Step(m, a))
  {
    assert ActorInvariant(m, a);
  }

  lemma CasPendingKeepsActors(m: Machine, a: Actor)
    requires Inv(m) && Can(m, Advance(a)) && m.pcs[a].CasPending?
    ensures Actors(Step(m, a))
  {
    CasPendingKeepsSlot(m, a);
    assert ActorInvariant(m, a);
    SectionMoveKeepsActors(m, Step(m, a), a);
  }

  lemma CasActiveKeepsJobs(m: Machine, a: Actor)
    requires Inv(m) && Can(m, Advance(a)) && m.pcs[a].CasActive? && Actors(Step(m, a))
    ensures Jobs(Step(m, a))
  {
    var target := m.shared.active;
    var j := if target.Some? then target.value else |m.shared.jobs|;
    if target.Some? {
      assert JobInvariant(m, j);
    }
    OnlyJob(m, Step(m, a), a, j);
  }

  lemma CasPendingKeepsJobs(m: Machine, a: Actor)
    requires Inv(m) && Can(m, Advance(a)) && m.pcs[a].CasPending? && Actors(Step(m, a))
    ensures Jobs(Step(m, a))
  {
    var target := m.shared.pending;
    var j := if target.Some? then target.value else |m.shared.jobs|;
    if target.Some? {
      assert JobInvariant(m, j);
    }
    OnlyJob(m, Step(m, a), a, j);
  }

  lemma StoreActiveKeepsSlot(m: Machine, a: Actor)
    requires Inv(m) && Can(m, Advance(a)) && m.pcs[a].StoreActive?
    ensures Numbered(Step(m, a)) && SlotInvariant(Step(m, a))
  {
    assert ActorInvariant(m, a);
  }

  lemma StoreActiveKeepsActors(m: Machine, a: Actor)
    requires Inv(m) && Can(m, Advance(a)) && m.pcs[a].StoreActive?
    ensures Actors(Step(m, a))
  {
    StoreActiveKeepsSlot(m, a);
    assert ActorInvariant(m, a);
    SectionMoveKeepsActors(m, Step(m, a), a);
  }

  lemma StoreActiveKeepsJobs(m: Machine, a: Actor)
    requires Inv(m) && Can(m, Advance(a)) && m.pcs[a].StoreActive? && Actors(Step(m, a))
    ensures Jobs(Step(m, a))
  {
    var j := m.pcs[a].job;
    if j < |m.shared.jobs| {
      assert JobInvariant(m, j);
    }
    OnlyJob(m, Step(m, a), a, j);
  }

  lemma CountKeepsSlot(m: Machine, a: Actor)
    requires Inv(m) && Can(m, Advance(a)) && (m.pcs[a].CountActive? || m.pcs[a].CountPending?)
    ensures Numbered(Step(m, a)) && SlotInvariant(Step(m, a))
  {
    assert ActorInvariant(m, a);
  }

  lemma CountKeepsActors(m: Machine, a: Actor)
    requires Inv(m) && Can(m, Advance(a)) && (m.pcs[a].CountActive? || m.pcs[a].CountPending?)
    ensures Actors(Step(m, a))
  {
    CountKeepsSlot(m, a);
    assert ActorInvariant(m, a);
    SectionMoveKeepsActors(m, Step(m, a), a);
  }

  lemma CountKeepsJobs(m: Machine, a: Actor)
    requires Inv(m) && Can(m, Advance(a)) && (m.pcs[a].CountActive? || m.pcs[a].CountPending?) && Actors(Step(m, a))
    ensures Jobs(Step(m, a))
  {
    var j := 0;
    if j < |m.shared.jobs| {
      assert JobInvariant(m, j);
    }
    OnlyJob(m, Step(m, a), a, j);
  }

  lemma StorePendingKeepsSlot(m: Machine, a: Actor)
    requires Inv(m) && Can(m, Advance(a)) && m.pcs[a].StorePending?
    ensures Numbered(Step(m, a)) && SlotInvariant(Step(m, a))
  {
    assert ActorInvariant(m, a);
  }

  lemma StorePendingKeepsActors(m: Machine, a: Actor)
    requires Inv(m) && Can(m, Advance(a)) && m.pcs[a].StorePending?
    ensures Actors(Step(m, a))
  {
    StorePendingKeepsSlot(m, a);
    assert ActorInvariant(m, a);
    SectionMoveKeepsActors(m, Step(m, a), a);
  }

  lemma StorePendingKeepsJobs(m: Machine, a: Actor)
    requires Inv(m) && Can(m, Advance(a)) && m.pcs[a].StorePending? && Actors(Step(m, a))
    ensures Jobs(Step(m, a))
  {
    var j := m.pcs[a].job;
    if j < |m.shared.jobs| {
      assert JobInvariant(m, j);
    }
    OnlyJob(m, Step(m, a), a, j);
  }

  lemma JudgeKeepsActors(m: Machine, a: Actor)
    requires Inv(m) && Can(m, Advance(a)) && m.pcs[a].Judge?
    ensures Actors(Step(m, a))
  {
  }

  lemma JudgeKeepsJobs(m: Machine, a: Actor)
    requires Inv(m) && Can(m, Advance(a)) && m.pcs[a].Judge? && Actors(Step(m, a))
    ensures Jobs(Step(m, a))
  {
    var j := m.pcs[a].job;
    if j < |m.shared.jobs| {
      assert JobInvariant(m, j);
    }
    OnlyJob(m, Step(m, a), a, j);
  }

  lemma BeforeKeepsActors(m: Machine, a: Actor)
    requires Inv(m) && Can(m, Advance(a)) && m.pcs[a].Before?
    ensures Actors(Step(m, a))
  {
  }

  lemma BeforeKeepsJobs(m: Machine, a: Actor)
    requires Inv(m) && Can(m, Advance(a)) && m.pcs[a].Before? && Actors(Step(m, a))
    ensures Jobs(Step(m, a))
  {
    var j := m.pcs[a].job;
    if j < |m.shared.jobs| {
      assert JobInvariant(m, j);
    }
    OnlyJob(m, Step(m, a), a, j);
  }

  lemma MergeKeepsActors(m: Machine, a: Actor)
    requires Inv(m) && Can(m, Advance(a)) && m.pcs[a].Merge?
    ensures Actors(Step(m, a))
  {
  }

  lemma MergeKeepsJobs(m: Machine, a: Actor)
    requires Inv(m) && Can(m, Advance(a)) && m.pcs[a].Merge? && Actors(Step(m, a))
    ensures Jobs(Step(m, a))
  {
    var j := m.pcs[a].job;
    if j < |m.shared.jobs| {
      assert JobInvariant(m, j);
    }
    OnlyJob(m, Step(m, a), a, j);
  }

  /** A step of a finishing actor, seen from outside: only its own place and its own job's trail change. */
  ghost predicate FinishingMove(m: Machine, next: Machine, a: Actor)
    requires Numbered(m) && a in m.pcs && Finishing(m.pcs[a])
  {
    && Numbered(next) && |next.shared.jobs| == |m.shared.jobs| && SameElsewhere(m, next, a)
    && next.shared.pending == m.shared.pending && next.shared.active == m.shared.active
    && next.shared.shuttingDown == m.shared.shuttingDown
    && next.lock == m.lock && next.closing == m.closing && next.workerDone == m.workerDone && next.started == m.started
    && (forall j | 0 <= j < |m.shared.jobs| ::
          && next.shared.jobs[j].reason == m.shared.jobs[j].reason
          && (j != m.pcs[a].job ==> next.trails[j].place == m.trails[j].place))
    && (a in next.pcs ==>
          && Finishing(next.pcs[a]) && next.pcs[a].job == m.pcs[a].job && next.pcs[a].result == m.pcs[a].result
          && next.trails[m.pcs[a].job].place == m.trails[m.pcs[a].job].place)
  }

  lemma FinishingMoveKeepsSlot(m: Machine, next: Machine, a: Actor)
    requires Actors(m) && a in m.pcs && Finishing(m.pcs[a]) && FinishingMove(m, next, a)
    requires m.shared.pending != Some(m.pcs[a].job) && m.shared.active != Some(m.pcs[a].job)
    ensures SlotInvariant(next) && StartedInvariant(next)
  {
    assert m.lock.Some? ==> m.lock.value != a;
  }

  lemma FinishingMoveKeepsActor(m: Machine, next: Machine, a: Actor, b: Actor)
    requires Actors(m) && a in m.pcs && Finishing(m.pcs[a]) && FinishingMove(m, next, a) && b in next.pcs
    ensures ActorInvariant(next, b)
  {
    assert ActorInvariant(m, a);
    assert ActorInvariant(m, b);
  }

  lemma FinishingMoveKeepsLock(m: Machine, next: Machine, a: Actor)
    requires Actors(m) && a in m.pcs && Finishing(m.pcs[a]) && FinishingMove(m, next, a)
    ensures Locked(next)
  {
    assert m.lock.Some? ==> m.lock.value != a;
  }

  lemma FinishingMoveKeepsActors(m: Machine, next: Machine, a: Actor)
    requires Actors(m) && a in m.pcs && Finishing(m.pcs[a]) && FinishingMove(m, next, a)
    requires m.shared.pending != Some(m.pcs[a].job) && m.shared.active != Some(m.pcs[a].job)
    ensures Actors(next)
  {
    FinishingMoveKeepsLock(m, next, a);
    FinishingMoveKeepsSlot(m, next, a);
    forall b | b in next.pcs ensures ActorInvariant(next, b) {
      FinishingMoveKeepsActor(m, next, a, b);
    }
  }

  /** A job that is being finished is neither pending nor active. */
  lemma FinishingJobIsApart(m: Machine, a: Actor)
    requires Inv(m) && a in m.pcs && Finishing(m.pcs[a])
    ensures m.shared.pending != Some(m.pcs[a].job) && m.shared.active != Some(m.pcs[a].job)
    ensures m.pcs[a].job < |m.shared.jobs| && m.trails[m.pcs[a].job].place == With(a)
    ensures m.shared.jobs[m.pcs[a].job].completionNotified <==> !m.pcs[a].Claim?
  {
    assert ActorInvariant(m, a) && JobInvariant(m, m.pcs[a].job);
  }

  lemma ClaimKeepsActors(m: Machine, a: Actor)
    requires Inv(m) && Can(m, Advance(a)) && m.pcs[a].Claim?
    ensures Actors(Step(m, a))
  {
    FinishingJobIsApart(m, a);
    assert FinishingMove(m, Step(m, a), a);
    FinishingMoveKeepsActors(m, Step(m, a), a);
  }

  lemma ClaimKeepsItsJob(m: Machine, a: Actor)
    requires Inv(m) && Can(m, Advance(a)) && m.pcs[a].Claim?
    requires m.pcs[a].job < |m.shared.jobs| && JobInvariant(m, m.pcs[a].job)
    ensures JobInvariant(Step(m, a), m.pcs[a].job)
  {
  }

  lemma ClaimKeepsJobs(m: Machine, a: Actor)
    requires Inv(m) && Can(m, Advance(a)) && m.pcs[a].Claim? && Actors(Step(m, a))
    ensures Jobs(Step(m, a))
  {
    var j := m.pcs[a].job;
    FinishingJobIsApart(m, a);
    ClaimKeepsItsJob(m, a);
    OnlyJob(m, Step(m, a), a, j);
  }

  lemma TallyKeepsActors(m: Machine, a: Actor)
    requires Inv(m) && Can(m, Advance(a)) && m.pcs[a].Tally?
    ensures Actors(Step(m, a))
  {
    FinishingJobIsApart(m, a);
    assert FinishingMove(m, Step(m, a), a);
    FinishingMoveKeepsActors(m, Step(m, a), a);
  }

  lemma TallyKeepsItsJob(m: Machine, a: Actor)
    requires Inv(m) && Can(m, Advance(a)) && m.pcs[a].Tally?
    requires m.pcs[a].job < |m.shared.jobs| && JobInvariant(m, m.pcs[a].job)
    ensures JobInvariant(Step(m, a), m.pcs[a].job)
  {
  }

  lemma TallyKeepsJobs(m: Machine, a: Actor)
    requires Inv(m) && Can(m, Advance(a)) && m.pcs[a].Tally? && Actors(Step(m, a))
    ensures Jobs(Step(m, a))
  {
    var j := m.pcs[a].job;
    FinishingJobIsApart(m, a);
    TallyKeepsItsJob(m, a);
    OnlyJob(m, Step(m, a), a, j);
  }

  lemma PublishKeepsActors(m: Machine, a: Actor)
    requires Inv(m) && Can(m, Advance(a)) && m.pcs[a].Publish?
    ensures Actors(Step(m, a))
  {
    FinishingJobIsApart(m, a);
    assert FinishingMove(m, Step(m, a), a);
    FinishingMoveKeepsActors(m, Step(m, a), a);
  }

  lemma PublishKeepsJobs(m: Machine, a: Actor)
    requires Inv(m) && Can(m, Advance(a)) && m.pcs[a].Publish? && Actors(Step(m, a))
    ensures Jobs(Step(m, a))
  {
    var j := m.pcs[a].job;
    if j < |m.shared.jobs| {
      assert JobInvariant(m, j);
    }
    OnlyJob(m, Step(m, a), a, j);
  }

  /** The slot's job, if any, moves to the actor that displaced it; a submitter's own job takes the slot. */
  lemma SwapToCloser(m: Machine, next: Machine)
    requires Inv(m) && Can(m, Advance(Closer)) && m.pcs[Closer].Swap? && next == Step(m, Closer)
    ensures Actors(next)
  {
    if m.shared.pending.Some? {
      assert JobInvariant(m, m.shared.pending.value);
    }
  }

  lemma SwapToSubmitterFillsSlot(m: Machine, a: Actor, next: Machine)
    requires Inv(m) && Can(m, Advance(a)) && m.pcs[a].Swap? && a.Submitter? && next == Step(m, a)
    ensures Numbered(next) && SlotInvariant(next) && StartedInvariant(next)
  {
    if m.shared.pending.Some? {
      assert JobInvariant(m, m.shared.pending.value);
    }
  }

  lemma SwapToSubmitter(m: Machine, a: Actor, next: Machine)
    requires Inv(m) && Can(m, Advance(a)) && m.pcs[a].Swap? && a.Submitter? && next == Step(m, a)
    ensures Actors(next)
  {
    SwapToSubmitterFillsSlot(m, a, next);
    if m.shared.pending.Some? {
      assert JobInvariant(m, m.shared.pending.value);
    }
    forall b | b in next.pcs ensures ActorInvariant(next, b) {
      assert b in m.pcs ==> ActorInvariant(m, b);
    }
  }

  lemma SwapKeepsActors(m: Machine, a: Actor)
    requires Inv(m) && Can(m, Advance(a)) && m.pcs[a].Swap?
    ensures Actors(Step(m, a))
  {
    if a == Closer {
      SwapToCloser(m, Step(m, a));
    } else {
      SwapToSubmitter(m, a, Step(m, a));
    }
  }

  lemma SwapKeepsJobs(m: Machine, a: Actor)
    requires Inv(m) && Can(m, Advance(a)) && m.pcs[a].Swap? && Actors(Step(m, a))
    ensures Jobs(Step(m, a))
  {
    forall j | 0 <= j < |Step(m, a).shared.jobs| ensures JobInvariant(Step(m, a), j) {
      if j < |m.shared.jobs| {
        assert JobInvariant(m, j);
        if m.shared.pending != Some(j) {
          BystanderJob(m, Step(m, a), a, j);
        }
      }
    }
  }

  lemma StepKeeps(m: Machine, a: Actor)
    requires Inv(m) && Can(m, Advance(a))
    ensures Inv(Step(m, a))
  {
    match m.pcs[a]
    case CasActive => CasActiveKeepsActors(m, a); CasActiveKeepsJobs(m, a);
    case CasPending => CasPendingKeepsActors(m, a); CasPendingKeepsJobs(m, a);
    case StoreActive(_) => StoreActiveKeepsActors(m, a); StoreActiveKeepsJobs(m, a);
    case CountActive => CountKeepsActors(m, a); CountKeepsJobs(m, a);
    case StorePending(_) => StorePendingKeepsActors(m, a); StorePendingKeepsJobs(m, a);
    case CountPending => CountKeepsActors(m, a); CountKeepsJobs(m, a);
    case Swap => SwapKeepsActors(m, a); SwapKeepsJobs(m, a);
    case Judge(_) => JudgeKeepsActors(m, a); JudgeKeepsJobs(m, a);
    case Before(_) => BeforeKeepsActors(m, a); BeforeKeepsJobs(m, a);
    case Play(_) =>
    case Merge(_, _) => MergeKeepsActors(m, a); MergeKeepsJobs(m, a);
    case Claim(_, _) => ClaimKeepsActors(m, a); ClaimKeepsJobs(m, a);
    case Tally(_, _) => TallyKeepsActors(m, a); TallyKeepsJobs(m, a);
    case Publish(_, _) => PublishKeepsActors(m, a); PublishKeepsJobs(m, a);
  }

  lemma SubmitEnterKeepsActors(m: Machine, pid: nat)
    requires Inv(m) && Can(m, SubmitEnter(pid))
    ensures Actors(Next(m, SubmitEnter(pid)))
  {
  }

  lemma CloseEnterKeepsActors(m: Machine)
    requires Inv(m) && Can(m, CloseEnter)
    ensures Actors(Next(m, CloseEnter))
  {
  }

  lemma EnterKeepsActors(m: Machine, act: Act)
    requires Inv(m) && Can(m, act) && (act.SubmitInvalid? || act.SubmitEnter? || act.CloseEnter? || act.WorkerExits?)
    ensures Actors(Next(m, act))
  {
    if act.SubmitEnter? {
      SubmitEnterKeepsActors(m, act.pid);
    } else if act.CloseEnter? {
      CloseEnterKeepsActors(m);
    }
  }

  lemma EnterKeeps(m: Machine, act: Act)
    requires Inv(m) && Can(m, act) && (act.SubmitInvalid? || act.SubmitEnter? || act.CloseEnter? || act.WorkerExits?)
    ensures Inv(Next(m, act))
  {
    var a := if act.SubmitEnter? then Submitter(act.pid) else Closer;
    EnterKeepsActors(m, act);
    forall j | 0 <= j < |m.shared.jobs| ensures JobInvariant(Next(m, act), j) {
      assert JobInvariant(m, j);
      if act.SubmitEnter? || act.CloseEnter? {
        BystanderJob(m, Next(m, act), a, j);
      }
    }
  }

  lemma PlayEndsKeepsActors(m: Machine, result: Outcome)
    requires Inv(m) && Can(m, PlayEnds(result))
    ensures Actors(Next(m, PlayEnds(result)))
  {
  }

  lemma PlayEndsKeeps(m: Machine, result: Outcome)
    requires Inv(m) && Can(m, PlayEnds(result))
    ensures Inv(Next(m, PlayEnds(result)))
  {
    var j := m.pcs[Worker].job;
    assert JobInvariant(m, j);
    PlayEndsKeepsActors(m, result);
    OnlyJob(m, Next(m, PlayEnds(result)), Worker, j);
  }

  lemma ActiveHasWorker(m: Machine)
    requires Inv(m)
    ensures m.shared.active.Some? ==> Worker in m.pcs
  {
    if m.shared.active.Some? {
      assert JobInvariant(m, m.shared.active.value);
    }
  }

  lemma WorkerTakesKeepsActors(m: Machine)
    requires Inv(m) && Can(m, WorkerTakes)
    ensures Actors(Next(m, WorkerTakes))
  {
    assert JobInvariant(m, m.shared.pending.value);
    ActiveHasWorker(m);
  }

  lemma WorkerTakesKeeps(m: Machine)
    requires Inv(m) && Can(m, WorkerTakes)
    ensures Inv(Next(m, WorkerTakes))
  {
    var j := m.shared.pending.value;
    assert JobInvariant(m, j);
    ActiveHasWorker(m);
    WorkerTakesKeepsActors(m);
    OnlyJob(m, Next(m, WorkerTakes), Worker, j);
  }

  /** A handle touches only the stop fields of its job, wherever that job is. */
  lemma HandleKeepsJob(m: Machine, next: Machine, j: nat, job: Job, k: nat)
    requires Inv(m) && j < |m.shared.jobs| && k < |m.shared.jobs|
    requires next.pcs == m.pcs && next.trails == m.trails
    requires next.shared == m.shared.WithJob(j, job)
    requires job == m.shared.jobs[j].(reason := job.reason, stopRequested := job.stopRequested)
    requires job.reason == m.shared.jobs[j].reason || (m.shared.jobs[j].reason == NotStopped && job.reason == ByRequest)
    ensures JobInvariant(next, k)
  {
    assert JobInvariant(m, k);
  }

  lemma HandleStopsKeeps(m: Machine, j: nat)
    requires Inv(m) && Can(m, HandleStops(j))
    ensures Inv(Next(m, HandleStops(j)))
  {
    var next := Next(m, HandleStops(j));
    assert Actors(next);
    forall k | 0 <= k < |m.shared.jobs| ensures JobInvariant(next, k) {
      HandleKeepsJob(m, next, j, next.shared.jobs[j], k);
    }
  }

  lemma HandleStoresKeeps(m: Machine, j: nat)
    requires Inv(m) && Can(m, HandleStores(j))
    ensures Inv(Next(m, HandleStores(j)))
  {
    var next := Next(m, HandleStores(j));
    assert Actors(next);
    forall k | 0 <= k < |m.shared.jobs| ensures JobInvariant(next, k) {
      HandleKeepsJob(m, next, j, next.shared.jobs[j], k);
    }
  }

  lemma NextKeepsInv(m: Machine, act: Act)
    requires Inv(m) && Can(m, act)
    ensures Inv(Next(m, act))
  {
    match act
    case Advance(a) => StepKeeps(m, a);
    case PlayEnds(result) => PlayEndsKeeps(m, result);
    case WorkerTakes => WorkerTakesKeeps(m);
    case HandleStops(j) => HandleStopsKeeps(m, j);
    case HandleStores(j) => HandleStoresKeeps(m, j);
    case _ => EnterKeeps(m, act);
  }

  lemma {:induction false} RunKeepsInv(m: Machine, acts: seq<Act>)
    requires Inv(m) && Possible(m, acts)
    ensures Inv(End(m, acts))
    decreases |acts|
  {
    if acts != [] {
      NextKeepsInv(m, acts[0]);
      RunKeepsInv(Next(m, acts[0]), acts[1..]);
    }
  }
}
