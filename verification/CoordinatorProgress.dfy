/** The flag the player polls, and why the work there is runs out. */
module CoordinatorProgress {
  import opened Wrappers
  import opened PlaybackCoordination
  import opened CoordinatorRuns
  import opened CoordinatorTheorems

  // ----- The reason and the flag -----

  predicate OwesStore(m: Machine, a: Actor, j: nat) {
    a in m.pcs && (m.pcs[a] == StoreActive(j) || m.pcs[a] == StorePending(j))
  }

  /** Some party has set the job's stop reason and is about to set its flag. */
  ghost predicate StoreOwed(m: Machine, j: nat) {
    j in m.storing || exists a :: OwesStore(m, a, j)
  }

  ghost predicate StopAgrees(m: Machine, j: nat)
    requires j < |m.shared.jobs|
  {
    m.shared.jobs[j].reason != NotStopped <==> m.shared.jobs[j].stopRequested || StoreOwed(m, j)
  }

  ghost predicate StopsAgree(m: Machine) {
    forall j: nat | j < |m.shared.jobs| :: StopAgrees(m, j)
  }

  /** An actor other than the one that moves owes what it owed. */
  lemma OthersOweTheSame(m: Machine, next: Machine, a: Actor, j: nat)
    requires SameElsewhere(m, next, a) && next.storing == m.storing
    requires OwesStore(next, a, j) <==> OwesStore(m, a, j)
    ensures StoreOwed(next, j) <==> StoreOwed(m, j)
  {
    forall b ensures OwesStore(next, b, j) <==> OwesStore(m, b, j) {
    }
  }

  lemma CasAgrees(m: Machine, a: Actor, j: nat)
    requires Can(m, Advance(a)) && (m.pcs[a].CasActive? || m.pcs[a].CasPending?)
    requires j < |m.shared.jobs| && StopAgrees(m, j)
    ensures StopAgrees(Step(m, a), j)
  {
    var target := if m.pcs[a].CasActive? then m.shared.active else m.shared.pending;
    if Wins(m.shared, target) && target.value == j {
      assert OwesStore(Step(m, a), a, j);
    } else {
      OthersOweTheSame(m, Step(m, a), a, j);
    }
  }

  lemma StoreAgrees(m: Machine, a: Actor, j: nat)
    requires Can(m, Advance(a)) && (m.pcs[a].StoreActive? || m.pcs[a].StorePending?)
    requires j < |m.shared.jobs| && StopAgrees(m, j)
    ensures StopAgrees(Step(m, a), j)
  {
    if m.pcs[a].job == j {
      assert OwesStore(m, a, j);
    } else {
      OthersOweTheSame(m, Step(m, a), a, j);
    }
  }

  predicate SetsStop(pc: Pc) {
    pc.CasActive? || pc.CasPending? || pc.StoreActive? || pc.StorePending?
  }

  lemma OtherStepAgrees(m: Machine, a: Actor, j: nat)
    requires Can(m, Advance(a)) && !SetsStop(m.pcs[a]) && j < |m.shared.jobs| && StopAgrees(m, j)
    ensures j < |Step(m, a).shared.jobs| && StopAgrees(Step(m, a), j)
  {
    OthersOweTheSame(m, Step(m, a), a, j);
  }

  lemma NewJobAgrees(m: Machine, a: Actor)
    requires Can(m, Advance(a)) && |Step(m, a).shared.jobs| > |m.shared.jobs|
    ensures StopAgrees(Step(m, a), |m.shared.jobs|)
  {
    var next, j := Step(m, a), |m.shared.jobs|;
    assert next.shared.jobs[j] == NEW_JOB;
    forall b ensures !OwesStore(next, b, j) {
      assert b in next.pcs && b != a ==> next.pcs[b] == m.pcs[b];
    }
  }

  lemma StepAgrees(m: Machine, a: Actor)
    requires Can(m, Advance(a)) && StopsAgree(m)
    ensures StopsAgree(Step(m, a))
  {
    forall j: nat | j < |Step(m, a).shared.jobs| ensures StopAgrees(Step(m, a), j) {
      if j >= |m.shared.jobs| {
        NewJobAgrees(m, a);
      } else if m.pcs[a].CasActive? || m.pcs[a].CasPending? {
        CasAgrees(m, a, j);
      } else if SetsStop(m.pcs[a]) {
        StoreAgrees(m, a, j);
      } else {
        OtherStepAgrees(m, a, j);
      }
    }
  }

  lemma HandleAgrees(m: Machine, act: Act)
    requires Can(m, act) && (act.HandleStops? || act.HandleStores?) && StopsAgree(m)
    ensures StopsAgree(Next(m, act))
  {
    var next := Next(m, act);
    forall j: nat | j < |next.shared.jobs| ensures StopAgrees(next, j) {
      assert StopAgrees(m, j);
      assert forall b :: OwesStore(next, b, j) <==> OwesStore(m, b, j);
    }
  }

  lemma OtherActAgrees(m: Machine, act: Act)
    requires Inv(m) && Can(m, act) && !act.Advance? && !act.HandleStops? && !act.HandleStores? && StopsAgree(m)
    ensures StopsAgree(Next(m, act))
  {
    var next := Next(m, act);
    var mover := if act.SubmitEnter? then Submitter(act.pid) else if act.CloseEnter? then Closer else Worker;
    forall j: nat | j < |next.shared.jobs| ensures StopAgrees(next, j) {
      assert StopAgrees(m, j);
      OthersOweTheSame(m, next, mover, j);
    }
  }

  lemma {:induction false} RunAgrees(m: Machine, acts: seq<Act>)
    requires StopsAgree(m) && Possible(m, acts) && Inv(m)
    ensures StopsAgree(End(m, acts))
    decreases |acts|
  {
    if acts != [] {
      if acts[0].Advance? {
        StepAgrees(m, acts[0].actor);
      } else if acts[0].HandleStops? || acts[0].HandleStores? {
        HandleAgrees(m, acts[0]);
      } else {
        OtherActAgrees(m, acts[0]);
      }
      NextKeepsInv(m, acts[0]);
      RunAgrees(Next(m, acts[0]), acts[1..]);
    }
  }

  /** Over every run a job has a stop reason exactly if the player can see it, or someone still owes the store. */
  lemma StopReachesThePlayer(acts: seq<Act>, j: nat)
    requires Possible(START, acts) && j < |End(START, acts).shared.jobs|
    ensures var m := End(START, acts);
            m.shared.jobs[j].reason != NotStopped <==> m.shared.jobs[j].stopRequested || StoreOwed(m, j)
  {
    RunAgrees(START, acts);
    assert StopAgrees(End(START, acts), j);
  }

  // ----- The work runs out -----

  /** The acts of parties that are at work already; nobody submits, stops or shuts down anew. */
  predicate Internal(act: Act) {
    act.Advance? || act.PlayEnds? || act.WorkerTakes? || act.HandleStores?
  }

  /** How many acts an actor has before it at most. */
  function Rank(pc: Pc): (rank: nat) {
    match pc
    case CasActive => 20
    case StoreActive(_) => 19
    case CountActive => 18
    case CasPending => 17
    case StorePending(_) => 16
    case CountPending => 15
    case Swap => 14
    case Before(_) => 7
    case Play(_) => 6
    case Merge(_, _) => 5
    case Judge(_) => 4
    case Claim(_, _) => 3
    case Tally(_, _) => 2
    case Publish(_, _) => 1
  }

  ghost function Total(pcs: map<Actor, Pc>): nat
    decreases |pcs|
  {
    if pcs == map[] then 0
    else
      var a :| a in pcs;
      Rank(pcs[a]) + Total(pcs - {a})
  }

  lemma {:induction false} TotalWithout(pcs: map<Actor, Pc>, a: Actor)
    requires a in pcs
    ensures Total(pcs) == Rank(pcs[a]) + Total(pcs - {a})
    decreases |pcs|
  {
    var b :| b in pcs && Total(pcs) == Rank(pcs[b]) + Total(pcs - {b});
    if a != b {
      TotalWithout(pcs - {b}, a);
      TotalWithout(pcs - {a}, b);
      assert pcs - {b} - {a} == pcs - {a} - {b};
    }
  }

  lemma TotalUpdated(pcs: map<Actor, Pc>, a: Actor, pc: Pc)
    ensures a in pcs ==> Total(pcs[a := pc]) == Total(pcs) - Rank(pcs[a]) + Rank(pc)
    ensures a !in pcs ==> Total(pcs[a := pc]) == Total(pcs) + Rank(pc)
  {
    TotalWithout(pcs[a := pc], a);
    if a in pcs {
      TotalWithout(pcs, a);
      assert pcs[a := pc] - {a} == pcs - {a};
    } else {
      assert pcs[a := pc] - {a} == pcs;
    }
  }

  function SlotWork(s: Shared): nat {
    if s.pending.Some? then 8 else 0
  }

  /** The acts of the actors at work, of the job in the slot, and the stores that handles owe. */
  ghost function Work(m: Machine): nat {
    Total(m.pcs) + SlotWork(m.shared) + |m.storing|
  }

  function RankOf(pc: Option<Pc>): nat {
    if pc.Some? then Rank(pc.value) else 0
  }

  lemma StepFallsInRank(m: Machine, a: Actor)
    requires Can(m, Advance(a))
    ensures RankOf(PcAfter(m, a)) + SlotWork(SharedAfter(m, a)) < Rank(m.pcs[a]) + SlotWork(m.shared)
  {
  }

  lemma StepWorks(m: Machine, a: Actor)
    requires Can(m, Advance(a))
    ensures Work(Step(m, a)) < Work(m)
  {
    var pc := PcAfter(m, a);
    StepFallsInRank(m, a);
    PcsFallInRank(m.pcs, a, pc, PcsAfter(m, a));
    assert Work(Step(m, a)) == Total(PcsAfter(m, a)) + SlotWork(SharedAfter(m, a)) + |m.storing|;
  }

  lemma PcsFallInRank(pcs: map<Actor, Pc>, a: Actor, pc: Option<Pc>, after: map<Actor, Pc>)
    requires a in pcs && after == if pc.Some? then pcs[a := pc.value] else pcs - {a}
    ensures Total(after) == Total(pcs) - Rank(pcs[a]) + RankOf(pc)
  {
    TotalWithout(pcs, a);
    if pc.Some? {
      TotalUpdated(pcs, a, pc.value);
    }
  }

  lemma InternalActWorks(m: Machine, act: Act)
    requires Can(m, act) && Internal(act)
    ensures Work(Next(m, act)) < Work(m)
  {
    match act
    case Advance(a) => StepWorks(m, a);
    case PlayEnds(result) => TotalUpdated(m.pcs, Worker, Merge(m.pcs[Worker].job, result));
    case WorkerTakes => TotalUpdated(m.pcs, Worker, Before(m.shared.pending.value));
    case HandleStores(j) => assert |m.storing - {j}| == |m.storing| - 1;
  }

  predicate AllInternal(acts: seq<Act>) {
    forall k | 0 <= k < |acts| :: Internal(acts[k])
  }

  lemma {:induction false} InternalRunWorks(m: Machine, acts: seq<Act>)
    requires Possible(m, acts) && AllInternal(acts)
    ensures Work(End(m, acts)) + |acts| <= Work(m)
    decreases |acts|
  {
    if acts != [] {
      InternalActWorks(m, acts[0]);
      InternalRunWorks(Next(m, acts[0]), acts[1..]);
    }
  }

  /**
   Left alone, with a player that returns, the parties at work finish every job: from any reachable state they have a
   bounded number of acts before them, and while a job is unfinished some act of theirs is enabled.
   */
  lemma EveryJobGetsFinished(before: seq<Act>, acts: seq<Act>)
    requires Possible(START, before) && Possible(End(START, before), acts) && AllInternal(acts)
    ensures |acts| <= Work(End(START, before))
    ensures var m := End(End(START, before), acts);
            (forall act :: Internal(act) ==> !Can(m, act)) ==> forall j: nat | j < |m.shared.jobs| :: IsOver(m, j)
  {
    var first := End(START, before);
    var m := End(first, acts);
    InternalRunWorks(first, acts);
    RunKeepsInv(START, before);
    RunKeepsInv(first, acts);
    if forall act :: Internal(act) ==> !Can(m, act) {
      forall j: nat | j < |m.shared.jobs| ensures IsOver(m, j) {
        if !IsOver(m, j) {
          SomeoneCanAct(m, j);
        }
      }
    }
  }

  /** While a job is unfinished, some party at work can act. */
  lemma SomeoneCanAct(m: Machine, j: nat)
    requires Inv(m) && j < |m.shared.jobs| && !IsOver(m, j)
    ensures exists act :: Internal(act) && Can(m, act)
  {
    assert JobInvariant(m, j);
    if m.lock.Some? {
      assert Can(m, Advance(m.lock.value));
    } else if Worker in m.pcs {
      assert Can(m, if m.pcs[Worker].Play? then PlayEnds(Completed) else Advance(Worker));
    } else if m.shared.pending == Some(j) {
      assert Can(m, WorkerTakes);
    } else {
      var a := m.trails[j].place.actor;
      assert ActorInvariant(m, a);
      assert Can(m, Advance(a));
    }
  }
}
