/** What holds over every interleaving of the session manager's critical sections. */
module SessionRuns {
  import opened Wrappers
  import opened PlaybackSessions
  import opened Sequences
  import opened SessionRegistry

  // ----- Sessions that contend for an output -----

  /** In every reachable registry a session is on the list of one universe at most, and only once. */
  lemma EverySessionIsListedOnce(steps: seq<Step>, u: Universe, v: Universe, id: SessionId)
    requires Runs(EMPTY, steps)
    ensures NoDuplicates(StateOf(After(EMPTY, steps), u).active)
    ensures Registered(After(EMPTY, steps), u, id) && Registered(After(EMPTY, steps), v, id) ==> u == v
  {
    RunKeepsSound(EMPTY, steps);
    var g := After(EMPTY, steps);
    assert InOrder(g.sessions, StateOf(g, u).active);
    InOrderHasNoRepeats(g.sessions, StateOf(g, u).active);
  }

  /** In every reachable registry, two live sessions of a universe share no creature and no fixture. */
  lemma LiveSessionsNeverConflict(steps: seq<Step>, u: Universe, a: SessionId, b: SessionId)
    requires Runs(EMPTY, steps)
    requires Live(After(EMPTY, steps), u, a) && Live(After(EMPTY, steps), u, b) && a != b
    ensures !Conflict(After(EMPTY, steps).sessions[a], After(EMPTY, steps).sessions[b])
  {
    RunKeepsSound(EMPTY, steps);
    var g := After(EMPTY, steps);
    var active := StateOf(g, u).active;
    assert InOrder(g.sessions, active);
    var i :| 0 <= i < |active| && active[i] == a;
    var j :| 0 <= j < |active| && active[j] == b;
    if i < j {
      assert Precedes(g.sessions[active[i]], g.sessions[active[j]]);
    } else {
      assert Precedes(g.sessions[active[j]], g.sessions[active[i]]);
    }
  }

  lemma {:induction false} LastLiveIsNewest(sessions: map<SessionId, Session>, active: seq<SessionId>)
    requires InOrder(sessions, active)
    ensures match LastLive(sessions, active)
            case None => forall id | id in active :: sessions[id].cancelled
            case Some(c) =>
              && c in active && !sessions[c].cancelled
              && forall id | id in active && id != c && !sessions[id].cancelled ::
                   sessions[id].generation < sessions[c].generation
    decreases |active|
  {
    if active != [] {
      var front, last := active[..|active| - 1], active[|active| - 1];
      assert active == front + [last];
      if sessions[last].cancelled {
        LastLiveIsNewest(sessions, front);
      } else {
        forall id | id in active && id != last ensures sessions[id].generation < sessions[last].generation {
          var i :| 0 <= i < |active| && active[i] == id;
          assert Precedes(sessions[active[i]], sessions[active[|active| - 1]]);
        }
      }
    }
  }

  /** The current session is the live one adopted last; there is none exactly when nothing is live. */
  lemma CurrentSessionIsNewest(steps: seq<Step>, u: Universe)
    requires Runs(EMPTY, steps)
    ensures match CurrentSession(After(EMPTY, steps), u)
            case None => forall id :: !Live(After(EMPTY, steps), u, id)
            case Some(c) =>
              && Live(After(EMPTY, steps), u, c)
              && forall id | Live(After(EMPTY, steps), u, id) && id != c ::
                   After(EMPTY, steps).sessions[id].generation < After(EMPTY, steps).sessions[c].generation
  {
    RunKeepsSound(EMPTY, steps);
    var g := After(EMPTY, steps);
    assert InOrder(g.sessions, StateOf(g, u).active);
    LastLiveIsNewest(g.sessions, StateOf(g, u).active);
  }

  /** What a session is never changes, a cancellation is never undone, and a session off every list stays off. */
  ghost predicate Ages(before: Registry, after: Registry, id: SessionId)
    requires id in before.sessions
  {
    && id in after.sessions
    && (var was, now := before.sessions[id], after.sessions[id];
        && now.creatures == was.creatures && now.fixtures == was.fixtures
        && now.reason == was.reason && now.generation == was.generation
        && (was.cancelled ==> now.cancelled))
    && (forall u | Registered(after, u, id) :: Registered(before, u, id))
  }

  lemma StepKeepsIdentity(g: Registry, step: Step, id: SessionId)
    requires Enabled(g, step) && id in g.sessions
    ensures id in Apply(g, step).sessions
    ensures var was, now := g.sessions[id], Apply(g, step).sessions[id];
            && now.creatures == was.creatures && now.fixtures == was.fixtures
            && now.reason == was.reason && now.generation == was.generation
  {
  }

  lemma StepAges(g: Registry, step: Step, id: SessionId)
    requires Enabled(g, step) && id in g.sessions
    ensures Ages(g, Apply(g, step), id)
  {
    StepKeepsIdentity(g, step, id);
    StepOnFlags(g, step, id);
    forall u | Registered(Apply(g, step), u, id) ensures Registered(g, u, id) {
      StepOnList(g, step, u, id);
    }
  }

  lemma {:induction false} RunAges(g: Registry, steps: seq<Step>, id: SessionId)
    requires Runs(g, steps) && id in g.sessions
    ensures Ages(g, After(g, steps), id)
    decreases |steps|
  {
    if steps != [] {
      StepAges(g, steps[0], id);
      RunAges(Apply(g, steps[0]), steps[1..], id);
    }
  }

  /** The sessions a step cancels. */
  function CancelledBy(g: Registry, step: Step): set<SessionId> {
    match step
    case Adopt(u, _, session, whole) => Targets(g, u, AdoptFilter(session, whole))
    case CancelMatching(u, filter) => Targets(g, u, filter)
    case StopPlaylist(u) =>
      var playlist := StateOf(g, u).playlist;
      if playlist == Active || playlist == Interrupted then Targets(g, u, OfPlaylist) else {}
    case SetCancelled(id) => {id}
    case _ => {}
  }

  /** The sessions a step takes off the list of a universe. */
  function RemovedBy(g: Registry, step: Step, u: Universe): set<SessionId> {
    match step
    case Adopt(v, _, _, _) => if v == u then CancelledBy(g, step) else {}
    case CancelMatching(v, _) => if v == u then CancelledBy(g, step) else {}
    case StopPlaylist(v) => if v == u then CancelledBy(g, step) else {}
    case ClearSession(v, id) => if v == u then {id} else {}
    case AbortLoading(v, id) => if v == u then {id} else {}
    case _ => {}
  }

  lemma StopTargets(g: Registry, u: Universe)
    ensures Targets(Put(g, u, StateOf(g, u).WithPlaylist(Stopped, false).WithHalted()), u, OfPlaylist)
            == Targets(g, u, OfPlaylist)
  {
  }

  /** What a step does to a session that was there before it. */
  ghost predicate OnMember(g: Registry, step: Step, reg: Registry, u: Universe, id: SessionId)
    requires id in g.sessions
  {
    && id in reg.sessions
    && (Registered(reg, u, id) <==> Registered(g, u, id) && id !in RemovedBy(g, step, u))
    && (reg.sessions[id].cancelled <==> g.sessions[id].cancelled || id in CancelledBy(g, step))
  }

  /** Only adoption brings in a session. */
  predicate OnStranger(step: Step, reg: Registry, u: Universe, id: SessionId) {
    && (Registered(reg, u, id) <==> step.Adopt? && step.u == u && step.id == id)
    && (id in reg.sessions <==> step.Adopt? && step.id == id)
  }

  ghost predicate Outcome(g: Registry, step: Step, reg: Registry) {
    && (forall u, id | id in g.sessions :: OnMember(g, step, reg, u, id))
    && (forall u, id | id !in g.sessions :: OnStranger(step, reg, u, id))
  }

  lemma CancellingOnList(g: Registry, step: Step, u: Universe, id: SessionId)
    requires Enabled(g, step) && id in g.sessions && (step.Adopt? || step.CancelMatching? || step.StopPlaylist?)
    ensures Registered(Apply(g, step), u, id) <==> Registered(g, u, id) && id !in RemovedBy(g, step, u)
  {
    if step.StopPlaylist? {
      StopTargets(g, step.u);
    }
  }

  lemma StepOnList(g: Registry, step: Step, u: Universe, id: SessionId)
    requires Enabled(g, step) && id in g.sessions
    ensures Registered(Apply(g, step), u, id) <==> Registered(g, u, id) && id !in RemovedBy(g, step, u)
  {
    if step.Adopt? || step.CancelMatching? || step.StopPlaylist? {
      CancellingOnList(g, step, u, id);
    }
  }

  lemma StepOnFlags(g: Registry, step: Step, id: SessionId)
    requires Enabled(g, step) && id in g.sessions
    ensures id in Apply(g, step).sessions
    ensures Apply(g, step).sessions[id].cancelled <==> g.sessions[id].cancelled || id in CancelledBy(g, step)
  {
    if step.StopPlaylist? {
      StopTargets(g, step.u);
    }
  }

  /** A registered session stays on its list unless the step removes it, and uncancelled unless the step cancels it. */
  lemma StepOnMember(g: Registry, step: Step, reg: Registry, u: Universe, id: SessionId)
    requires Enabled(g, step) && id in g.sessions && reg == Apply(g, step)
    ensures OnMember(g, step, reg, u, id)
  {
    StepOnList(g, step, u, id);
    StepOnFlags(g, step, id);
  }

  lemma StepOnStranger(g: Registry, step: Step, u: Universe, id: SessionId)
    requires Sound(g) && Enabled(g, step) && id !in g.sessions
    ensures OnStranger(step, Apply(g, step), u, id)
  {
    assert u in g.universes ==> InOrder(g.sessions, g.universes[u].active);
  }

  lemma StepOutcome(g: Registry, step: Step, reg: Registry)
    requires Sound(g) && Enabled(g, step) && reg == Apply(g, step)
    ensures Outcome(g, step, reg)
  {
    forall u, id | id in g.sessions ensures OnMember(g, step, reg, u, id) {
      StepOnMember(g, step, reg, u, id);
    }
    forall u, id | id !in g.sessions ensures OnStranger(step, reg, u, id) {
      StepOnStranger(g, step, u, id);
    }
  }

  /**
   A session that conflicts with a later adoption on its universe, or is adopted over by an interrupt, is never live
   again, whatever every thread does afterwards.
   */
  lemma SupersededIsNeverLive(g: Registry, u: Universe, id: SessionId, session: Session, whole: bool, later: seq<Step>,
                              older: SessionId, v: Universe)
    requires Sound(g) && Registered(g, u, older) && older in g.sessions
    requires whole || Conflict(session, g.sessions[older])
    requires Runs(g, [Adopt(u, id, session, whole)] + later)
    ensures !Live(After(g, [Adopt(u, id, session, whole)] + later), v, older)
  {
    var adopt := Adopt(u, id, session, whole);
    assert ([adopt] + later)[0] == adopt && ([adopt] + later)[1..] == later;
    var next := Apply(g, adopt);
    var f := AdoptFilter(session, whole);
    assert Targeted(g.sessions, f, older) <==> !g.sessions[older].cancelled;
    assert older in StateOf(g, u).active;
    assert next.sessions[older].cancelled;
    RunAges(next, later, older);
  }

  /** The creatures of an adopted session are busy the moment the adopting section ends. */
  lemma AdoptionLeavesNoGap(g: Registry, u: Universe, id: SessionId, session: Session, whole: bool, creature: string)
    requires Enabled(g, Adopt(u, id, session, whole))
    requires creature != "" && creature in session.creatures
    ensures Busy(Apply(g, Adopt(u, id, session, whole)), u, creature)
  {
    var next := Apply(g, Adopt(u, id, session, whole));
    assert id in StateOf(next, u).active && Live(next, u, id) && creature in next.sessions[id].creatures;
  }

  // ----- A stopped playlist -----

  predicate Quiet(g: Registry, u: Universe) {
    StateOf(g, u).playlist == Stopped || StateOf(g, u).playlist == NoPlaylist
  }

  /** Starting a playlist, or a playing snapshot on a universe that has no playlist at all. */
  predicate Revives(g: Registry, step: Step, u: Universe) {
    || (step.StartPlaylist? && step.u == u)
    || (step.SetStatus? && step.u == u && StateOf(g, u).playlist == NoPlaylist
        && step.status.playing && step.status.playlist != "")
  }

  predicate QuietThroughout(g: Registry, steps: seq<Step>, u: Universe)
    requires Runs(g, steps)
    decreases |steps|
  {
    Quiet(g, u) && (steps == [] || QuietThroughout(Apply(g, steps[0]), steps[1..], u))
  }

  predicate SomeStepRevives(g: Registry, steps: seq<Step>, u: Universe)
    requires Runs(g, steps)
    decreases |steps|
  {
    steps != [] && (Revives(g, steps[0], u) || SomeStepRevives(Apply(g, steps[0]), steps[1..], u))
  }

  lemma QuietStep(g: Registry, step: Step, u: Universe)
    requires Enabled(g, step) && Quiet(g, u)
    ensures Quiet(Apply(g, step), u) <==> !Revives(g, step, u)
  {
  }

  /**
   A stopped playlist stays stopped or absent through interrupts, roll-backs, resume decisions, adoptions,
   cancellations, aborts and queue steps, in any order: it comes back exactly when some step revives it.
   */
  lemma {:induction false} StoppedPlaylistIsNeverRevived(g: Registry, steps: seq<Step>, u: Universe)
    requires Runs(g, steps) && Quiet(g, u)
    ensures QuietThroughout(g, steps, u) <==> !SomeStepRevives(g, steps, u)
    decreases |steps|
  {
    if steps != [] {
      QuietStep(g, steps[0], u);
      if Quiet(Apply(g, steps[0]), u) {
        StoppedPlaylistIsNeverRevived(Apply(g, steps[0]), steps[1..], u);
      } else {
        assert !QuietThroughout(Apply(g, steps[0]), steps[1..], u);
      }
    }
  }

  // ----- The resume decision of an interrupt -----

  /** An interrupt that actually pauses a playlist; a chained interrupt finds it paused already. */
  predicate Pauses(g: Registry, step: Step, u: Universe) {
    step.MarkInterrupt? && step.u == u && StateOf(g, u).playlist == Active
  }

  predicate SomeStepPauses(g: Registry, steps: seq<Step>, u: Universe)
    requires Runs(g, steps)
    decreases |steps|
  {
    steps != [] && (Pauses(g, steps[0], u) || SomeStepPauses(Apply(g, steps[0]), steps[1..], u))
  }

  /** How many resume decisions of the run were granted. */
  function Grants(g: Registry, steps: seq<Step>, u: Universe): nat
    requires Runs(g, steps)
    decreases |steps|
  {
    if steps == [] then 0
    else (if steps[0] == ConsumeResume(u) && ResumeGranted(g, u) then 1 else 0)
         + Grants(Apply(g, steps[0]), steps[1..], u)
  }

  lemma FlagStep(g: Registry, step: Step, u: Universe)
    requires Sound(g) && Enabled(g, step) && !Pauses(g, step, u)
    ensures StateOf(Apply(g, step), u).shouldResume ==> StateOf(g, u).shouldResume && step != ConsumeResume(u)
  {
  }

  lemma {:induction false} GrantsWithoutPause(g: Registry, steps: seq<Step>, u: Universe)
    requires Sound(g) && Runs(g, steps) && !SomeStepPauses(g, steps, u)
    ensures Grants(g, steps, u) <= if StateOf(g, u).shouldResume then 1 else 0
    decreases |steps|
  {
    if steps != [] {
      StepKeepsSound(g, steps[0]);
      FlagStep(g, steps[0], u);
      GrantsWithoutPause(Apply(g, steps[0]), steps[1..], u);
    }
  }

  /**
   After a playlist is paused and until it is paused again, the resume decision is granted at most once, and only if
   the interrupt that paused it asked for that. Interrupts chained on top of it change nothing.
   */
  lemma ResumeGrantedAtMostOnce(g: Registry, u: Universe, resume: bool, steps: seq<Step>)
    requires Sound(g) && StateOf(g, u).playlist == Active
    requires Runs(Apply(g, MarkInterrupt(u, resume)), steps)
    requires !SomeStepPauses(Apply(g, MarkInterrupt(u, resume)), steps, u)
    ensures Grants(Apply(g, MarkInterrupt(u, resume)), steps, u) <= if resume then 1 else 0
  {
    StepKeepsSound(g, MarkInterrupt(u, resume));
    GrantsWithoutPause(Apply(g, MarkInterrupt(u, resume)), steps, u);
  }

  /** An interrupt refused before adoption, with nothing in between, leaves no trace. */
  lemma RefusedInterruptLeavesNoTrace(g: Registry, u: Universe, resume: bool)
    requires Sound(g)
    ensures StateOf(g, u).playlist != Active ==> InterruptMarked(g, u, resume) == g
    ensures StateOf(g, u).playlist == Active ==> InterruptRolledBack(InterruptMarked(g, u, resume), u) == g
  {
    if StateOf(g, u).playlist == Active {
      assert !g.universes[u].shouldResume;
      var restored := InterruptRolledBack(InterruptMarked(g, u, resume), u);
      assert restored.universes[u] == g.universes[u];
      assert restored.universes == g.universes;
    }
  }

  // ----- The animation queue -----

  datatype Departure = ByPop(animation: Animation) | ByDrop(animation: Animation)

  function Animations(departures: seq<Departure>): seq<Animation> {
    seq(|departures|, i requires 0 <= i < |departures| => departures[i].animation)
  }

  function Drops(queue: seq<Animation>): seq<Departure> {
    seq(|queue|, i requires 0 <= i < |queue| => ByDrop(queue[i]))
  }

  function PushedBy(step: Step, u: Universe): seq<Animation> {
    if step.Enqueue? && step.u == u then [step.animation] else []
  }

  /** A step lets animations go in three ways only: one pop, a failed load of this universe, or a clearing. */
  function LeavingBy(g: Registry, step: Step, u: Universe): (leaving: seq<Departure>)
    ensures |leaving| <= |StateOf(g, u).queue|
  {
    var queue := StateOf(g, u).queue;
    match step
    case Dequeue(v) => if v == u && queue != [] then [ByPop(queue[0])] else []
    case AbortLoading(v, id) => if v == u && Registered(g, u, id) && id in g.sessions then Drops(queue) else []
    case ClearQueue(v) => if v == u then Drops(queue) else []
    case ClearPlaylist(v) => if v == u && StateOf(g, u).active == [] then Drops(queue) else []
    case _ => []
  }

  function Pushed(steps: seq<Step>, u: Universe): seq<Animation> {
    if steps == [] then [] else PushedBy(steps[0], u) + Pushed(steps[1..], u)
  }

  function Leaving(g: Registry, steps: seq<Step>, u: Universe): seq<Departure>
    requires Runs(g, steps)
    decreases |steps|
  {
    if steps == [] then [] else LeavingBy(g, steps[0], u) + Leaving(Apply(g, steps[0]), steps[1..], u)
  }

  lemma CancellingKeepsQueue(g: Registry, step: Step, u: Universe)
    requires Enabled(g, step) && (step.Adopt? || step.CancelMatching? || step.StopPlaylist?)
    ensures StateOf(Apply(g, step), u).queue == StateOf(g, u).queue
  {
  }

  /** The steps that may touch a queue. */
  predicate OnQueue(step: Step) {
    step.Enqueue? || step.Dequeue? || step.ClearQueue? || step.ClearPlaylist? || step.AbortLoading?
  }

  lemma PassingKeepsQueue(g: Registry, step: Step, u: Universe)
    requires Enabled(g, step) && !OnQueue(step) && !step.Adopt? && !step.CancelMatching? && !step.StopPlaylist?
    ensures StateOf(Apply(g, step), u).queue == StateOf(g, u).queue
  {
  }

  lemma AbortedQueueAfter(g: Registry, step: Step, u: Universe)
    requires Enabled(g, step) && (step.AbortLoading? || step.ClearPlaylist?)
    ensures StateOf(Apply(g, step), u).queue == StateOf(g, u).queue[|LeavingBy(g, step, u)|..]
  {
  }

  lemma ServedQueueAfter(g: Registry, step: Step, u: Universe)
    requires Enabled(g, step) && (step.Enqueue? || step.Dequeue? || step.ClearQueue?)
    ensures StateOf(Apply(g, step), u).queue == StateOf(g, u).queue[|LeavingBy(g, step, u)|..] + PushedBy(step, u)
  {
  }

  lemma QueueAfter(g: Registry, step: Step, u: Universe)
    requires Enabled(g, step)
    ensures StateOf(Apply(g, step), u).queue == StateOf(g, u).queue[|LeavingBy(g, step, u)|..] + PushedBy(step, u)
  {
    if step.AbortLoading? || step.ClearPlaylist? {
      AbortedQueueAfter(g, step, u);
    } else if OnQueue(step) {
      ServedQueueAfter(g, step, u);
    } else if step.Adopt? || step.CancelMatching? || step.StopPlaylist? {
      CancellingKeepsQueue(g, step, u);
    } else {
      PassingKeepsQueue(g, step, u);
    }
  }

  lemma LeavingFirst(g: Registry, step: Step, u: Universe)
    ensures Animations(LeavingBy(g, step, u)) == StateOf(g, u).queue[..|LeavingBy(g, step, u)|]
  {
    assert Animations(Drops(StateOf(g, u).queue)) == StateOf(g, u).queue;
  }

  lemma QueueStep(g: Registry, step: Step, u: Universe)
    requires Enabled(g, step)
    ensures StateOf(g, u).queue + PushedBy(step, u)
            == Animations(LeavingBy(g, step, u)) + StateOf(Apply(g, step), u).queue
  {
    QueueAfter(g, step, u);
    LeavingFirst(g, step, u);
    Rejoined(StateOf(g, u).queue, |LeavingBy(g, step, u)|, PushedBy(step, u));
  }

  lemma Rejoined<T>(queue: seq<T>, n: nat, pushed: seq<T>)
    requires n <= |queue|
    ensures queue + pushed == queue[..n] + (queue[n..] + pushed)
  {
  }

  lemma AnimationsConcat(a: seq<Departure>, b: seq<Departure>)
    ensures Animations(a + b) == Animations(a) + Animations(b)
  {
  }

  /**
   Nothing is lost, repeated or reordered: what was queued, followed by what was pushed, is what left, in order,
   followed by what is queued still.
   */
  lemma {:induction false} QueueIsConserved(g: Registry, steps: seq<Step>, u: Universe)
    requires Runs(g, steps)
    ensures StateOf(g, u).queue + Pushed(steps, u)
            == Animations(Leaving(g, steps, u)) + StateOf(After(g, steps), u).queue
    decreases |steps|
  {
    if steps != [] {
      var next, rest := Apply(g, steps[0]), steps[1..];
      QueueStep(g, steps[0], u);
      QueueIsConserved(next, rest, u);
      AnimationsConcat(LeavingBy(g, steps[0], u), Leaving(next, rest, u));
      Regrouped(StateOf(g, u).queue, PushedBy(steps[0], u), Pushed(rest, u));
      var left, leaving := Animations(LeavingBy(g, steps[0], u)), Animations(Leaving(next, rest, u));
      Regrouped(left, StateOf(next, u).queue, Pushed(rest, u));
      Regrouped(left, leaving, StateOf(After(next, rest), u).queue);
    }
  }

  /** What the pops of a run hand out. */
  function HandedOut(g: Registry, steps: seq<Step>, u: Universe): seq<Animation>
    requires Runs(g, steps)
    decreases |steps|
  {
    if steps == [] then []
    else
      var head := QueueHead(g, u);
      (if steps[0] == Dequeue(u) && head.Some? then [head.value] else [])
      + HandedOut(Apply(g, steps[0]), steps[1..], u)
  }

  /** The animations that left by a pop, in order. */
  function LeftByPop(departures: seq<Departure>): seq<Animation> {
    if departures == [] then []
    else (if departures[0].ByPop? then [departures[0].animation] else []) + LeftByPop(departures[1..])
  }

  /** A pop takes the animation at the front, and hands out that one. */
  lemma PopTakesFront(g: Registry, u: Universe)
    ensures match QueueHead(g, u)
            case Some(a) =>
              && StateOf(g, u).queue == [a] + StateOf(Popped(g, u), u).queue
              && LeavingBy(g, Dequeue(u), u) == [ByPop(a)]
            case None => StateOf(g, u).queue == [] && Popped(g, u) == g && LeavingBy(g, Dequeue(u), u) == []
  {
  }

  lemma {:induction false} LeftByPopConcat(a: seq<Departure>, b: seq<Departure>)
    ensures LeftByPop(a + b) == LeftByPop(a) + LeftByPop(b)
  {
    if a == [] {
      assert a + b == b;
    } else {
      assert (a + b)[0] == a[0] && (a + b)[1..] == a[1..] + b;
      LeftByPopConcat(a[1..], b);
    }
  }

  lemma {:induction false} DropsAreNoPops(queue: seq<Animation>)
    ensures LeftByPop(Drops(queue)) == []
  {
    if queue != [] {
      assert Drops(queue)[1..] == Drops(queue[1..]);
      DropsAreNoPops(queue[1..]);
    }
  }

  lemma StepHandsOut(g: Registry, step: Step, u: Universe)
    requires Enabled(g, step)
    ensures LeftByPop(LeavingBy(g, step, u))
            == if step == Dequeue(u) && QueueHead(g, u).Some? then [QueueHead(g, u).value] else []
  {
    PopTakesFront(g, u);
    DropsAreNoPops(StateOf(g, u).queue);
  }

  /**
   Over every run the pops hand out exactly the animations that left by a pop, in the order in which they were pushed:
   what is queued and pushed is what left, by pop or dropped, followed by what is queued still.
   */
  lemma {:induction false} PopsHandOutInPushOrder(g: Registry, steps: seq<Step>, u: Universe)
    requires Runs(g, steps)
    ensures HandedOut(g, steps, u) == LeftByPop(Leaving(g, steps, u))
    ensures StateOf(g, u).queue + Pushed(steps, u)
            == Animations(Leaving(g, steps, u)) + StateOf(After(g, steps), u).queue
    decreases |steps|
  {
    QueueIsConserved(g, steps, u);
    if steps != [] {
      StepHandsOut(g, steps[0], u);
      PopsHandOutInPushOrder(Apply(g, steps[0]), steps[1..], u);
      LeftByPopConcat(LeavingBy(g, steps[0], u), Leaving(Apply(g, steps[0]), steps[1..], u));
    }
  }
}
