/**
 What the cancelling sections do to each session, told by what the session is: the ids it drives, its reason, whether it
 is live. And what they report back.
 */
module Cancellations {
  import opened PlaybackSessions
  import opened SessionRegistry

  /** The session is cancelled, marked as notified, and off the list; nothing else about it has changed. */
  ghost predicate TakenOff(before: Registry, after: Registry, u: Universe, id: SessionId) {
    && id in before.sessions && id in after.sessions
    && after.sessions[id] == before.sessions[id].(cancelled := true, notified := true)
    && Registered(before, u, id) && !Registered(after, u, id)
  }

  /** Nothing about the session has changed, nor which lists it is on. */
  ghost predicate Spared(before: Registry, after: Registry, id: SessionId) {
    && id in before.sessions && id in after.sessions && after.sessions[id] == before.sessions[id]
    && forall v :: Registered(after, v, id) <==> Registered(before, v, id)
  }

  /** The first list has its members in the order in which they stand in the second. */
  ghost predicate InOrderOf(some: seq<SessionId>, all: seq<SessionId>) {
    forall i, j | 0 <= i < j < |some| :: Before(some[i], some[j], all)
  }

  ghost predicate Before(a: SessionId, b: SessionId, all: seq<SessionId>) {
    exists p, q :: 0 <= p < q < |all| && all[p] == a && all[q] == b
  }

  lemma BeforeInLonger(a: SessionId, b: SessionId, all: seq<SessionId>, more: SessionId)
    requires Before(a, b, all)
    ensures Before(a, b, all + [more])
  {
    var p, q :| 0 <= p < q < |all| && all[p] == a && all[q] == b;
    assert (all + [more])[p] == a && (all + [more])[q] == b;
  }

  lemma BeforeLast(a: SessionId, all: seq<SessionId>, last: SessionId)
    requires a in all
    ensures Before(a, last, all + [last])
  {
    var p :| 0 <= p < |all| && all[p] == a;
    assert (all + [last])[p] == a && (all + [last])[|all|] == last;
  }

  /** A list without repeats that has some of the members of another one in their order. */
  ghost predicate IsSelection(some: seq<SessionId>, all: seq<SessionId>) {
    NoDuplicates(some) && InOrderOf(some, all) && forall x | x in some :: x in all
  }

  lemma SelectionGrows(some: seq<SessionId>, all: seq<SessionId>, last: SessionId)
    requires IsSelection(some, all) && last !in all
    ensures IsSelection(some, all + [last]) && IsSelection(some + [last], all + [last])
  {
    forall i, j | 0 <= i < j < |some| ensures Before(some[i], some[j], all + [last]) {
      BeforeInLonger(some[i], some[j], all, last);
    }
    forall i | 0 <= i < |some| ensures Before(some[i], last, all + [last]) {
      BeforeLast(some[i], all, last);
    }
  }

  lemma {:induction false} PickIsSelection(xs: seq<SessionId>, wanted: set<SessionId>)
    requires NoDuplicates(xs)
    ensures IsSelection(Pick(xs, wanted), xs)
    decreases |xs|
  {
    if xs != [] {
      var front, last := xs[..|xs| - 1], xs[|xs| - 1];
      PickIsSelection(front, wanted);
      assert xs == front + [last];
      SelectionGrows(Pick(front, wanted), front, last);
    }
  }

  lemma {:induction false} KeepIsSelection(xs: seq<SessionId>, drop: set<SessionId>)
    requires NoDuplicates(xs)
    ensures IsSelection(Keep(xs, drop), xs)
    decreases |xs|
  {
    if xs != [] {
      var front, last := xs[..|xs| - 1], xs[|xs| - 1];
      KeepIsSelection(front, drop);
      assert xs == front + [last];
      SelectionGrows(Keep(front, drop), front, last);
    }
  }

  /** Selections of one list with the same members are the same list. */
  lemma {:induction false} SelectionIsUnique(a: seq<SessionId>, b: seq<SessionId>, all: seq<SessionId>)
    requires NoDuplicates(all) && IsSelection(a, all) && IsSelection(b, all)
    requires forall x :: x in a <==> x in b
    ensures a == b
    decreases |a|
  {
    if a == [] {
      if b != [] {
        FirstOfSelection(b, a, all);
      }
    } else {
      FirstOfSelection(a, b, all);
      WithoutFirst(a, all);
      WithoutFirst(b, all);
      SelectionIsUnique(a[1..], b[1..], all);
      assert a == [a[0]] + a[1..] && b == [b[0]] + b[1..];
    }
  }

  lemma FirstOfSelection(a: seq<SessionId>, b: seq<SessionId>, all: seq<SessionId>)
    requires NoDuplicates(all) && IsSelection(a, all) && IsSelection(b, all) && a != []
    requires forall x :: x in a <==> x in b
    ensures b != [] && a[0] == b[0]
  {
    assert a[0] in b && b[0] in a;
  }

  lemma WithoutFirst(a: seq<SessionId>, all: seq<SessionId>)
    requires IsSelection(a, all) && a != []
    ensures IsSelection(a[1..], all)
    ensures forall x :: x in a[1..] <==> x in a && x != a[0]
  {
    forall i, j | 0 <= i < j < |a[1..]| ensures Before(a[1..][i], a[1..][j], all) {
      assert Before(a[i + 1], a[j + 1], all);
    }
    forall x | x in a && x != a[0] ensures x in a[1..] {
      var i :| 0 < i < |a| && a[i] == x;
      assert a[1..][i - 1] == x;
    }
  }

  // ----- Sweeps, member by member -----

  /** The report names exactly the sessions that were taken off, once each, in the order of the list. */
  ghost predicate ReportsTaken(report: seq<SessionId>, before: Registry, after: Registry, u: Universe) {
    && IsSelection(report, StateOf(before, u).active)
    && forall x :: x in report <==> TakenOff(before, after, u, x)
  }

  /** Those of the old list that stay are in their old order, and nothing but newcomers comes after them. */
  ghost predicate KeepsOrder(before: Registry, after: Registry, u: Universe, newcomers: seq<SessionId>) {
    exists kept :: StateOf(after, u).active == kept + newcomers && IsSelection(kept, StateOf(before, u).active)
  }

  ghost predicate TakesExactly(before: Registry, after: Registry, u: Universe, hits: set<SessionId>) {
    forall x | x in before.sessions :: if x in hits then TakenOff(before, after, u, x) else Spared(before, after, x)
  }

  lemma SweepTakesTargets(g: Registry, u: Universe, f: Filter)
    requires Listed(g)
    ensures TakesExactly(g, Swept(g, u, f), u, Targets(g, u, f))
    ensures KeepsOrder(g, Swept(g, u, f), u, [])
  {
    var after, active := Swept(g, u, f), StateOf(g, u).active;
    forall x | x in g.sessions
      ensures if x in Targets(g, u, f) then TakenOff(g, after, u, x) else Spared(g, after, x) {
    }
    KeepIsSelection(active, Targets(g, u, f));
    assert StateOf(after, u).active == (if u in g.universes then Keep(active, Targets(g, u, f)) else []) + [];
  }

  /** Every list is without repeats and has known sessions only. */
  ghost predicate Listed(g: Registry) {
    forall u: Universe ::
      NoDuplicates(StateOf(g, u).active) && forall x | x in StateOf(g, u).active :: x in g.sessions
  }

  lemma SoundIsListed(g: Registry)
    requires Sound(g)
    ensures Listed(g)
  {
    forall u: Universe
      ensures NoDuplicates(StateOf(g, u).active) && forall x | x in StateOf(g, u).active :: x in g.sessions {
      assert InOrder(g.sessions, StateOf(g, u).active);
      InOrderHasNoRepeats(g.sessions, StateOf(g, u).active);
    }
  }

  lemma AdoptionTakesTargets(g: Registry, u: Universe, id: SessionId, session: Session, isPlaylist: bool, whole: bool)
    requires Listed(g) && id !in g.sessions
    ensures var after := Adopted(g, u, id, session, isPlaylist, whole);
            && TakesExactly(g, after, u, Targets(g, u, AdoptFilter(session, whole)))
            && KeepsOrder(g, after, u, [id])
  {
    var f := AdoptFilter(session, whole);
    var swept, after := Swept(g, u, f), Adopted(g, u, id, session, isPlaylist, whole);
    SweepTakesTargets(g, u, f);
    forall x | x in g.sessions
      ensures if x in Targets(g, u, f) then TakenOff(g, after, u, x) else Spared(g, after, x) {
      assert x != id;
      assert if x in Targets(g, u, f) then TakenOff(g, swept, u, x) else Spared(g, swept, x);
      JoiningSparesOthers(swept, after, u, id, x);
    }
    var kept :| StateOf(swept, u).active == kept + [] && IsSelection(kept, StateOf(g, u).active);
    assert StateOf(after, u).active == kept + [id];
  }

  lemma JoiningSparesOthers(swept: Registry, after: Registry, u: Universe, id: SessionId, x: SessionId)
    requires x in swept.sessions && x != id && after.sessions.Keys == swept.sessions.Keys + {id}
    requires after.sessions[x] == swept.sessions[x]
    requires StateOf(after, u).active == StateOf(swept, u).active + [id]
    requires forall v | v != u :: StateOf(after, v) == StateOf(swept, v)
    ensures Spared(swept, after, x)
  {
  }

  lemma PickReportsTaken(g: Registry, after: Registry, u: Universe, hits: set<SessionId>)
    requires Listed(g) && TakesExactly(g, after, u, hits) && forall x | x in hits :: x in g.sessions
    ensures ReportsTaken(Pick(StateOf(g, u).active, hits), g, after, u)
  {
    var active := StateOf(g, u).active;
    PickIsSelection(active, hits);
    forall x ensures x in Pick(active, hits) <==> TakenOff(g, after, u, x) {
      if x in g.sessions {
        assert if x in hits then TakenOff(g, after, u, x) else Spared(g, after, x);
      }
    }
  }

  // ----- Whom each request cancels -----

  /** A new session displaces the live ones that share a creature or a fixture with it, or all of the universe. */
  ghost predicate DisplacesExactly(before: Registry, after: Registry, u: Universe, session: Session, whole: bool) {
    forall x | x in before.sessions ::
      var other := before.sessions[x];
      if && Live(before, u, x)
         && (|| whole
             || (exists c :: c in session.creatures && c in other.creatures)
             || (exists d :: d in session.fixtures && d in other.fixtures))
      then TakenOff(before, after, u, x) else Spared(before, after, x)
  }

  ghost predicate CancelsDrivingExactly(before: Registry, after: Registry, u: Universe, creatures: set<string>) {
    forall x | x in before.sessions ::
      if Live(before, u, x) && exists c :: c in creatures && c in before.sessions[x].creatures
      then TakenOff(before, after, u, x) else Spared(before, after, x)
  }

  predicate IdlesWith(g: Registry, u: Universe, creature: string, x: SessionId) {
    Live(g, u, x) && g.sessions[x].reason == Idle && creature != "" && creature in g.sessions[x].creatures
  }

  ghost predicate CancelsIdleExactly(before: Registry, after: Registry, u: Universe, creature: string) {
    forall x | x in before.sessions ::
      if IdlesWith(before, u, creature, x) then TakenOff(before, after, u, x) else Spared(before, after, x)
  }

  /** Only a playlist that is active or interrupted has sessions to lose. */
  ghost predicate StopsExactly(before: Registry, after: Registry, u: Universe) {
    forall x | x in before.sessions ::
      if && (StateOf(before, u).playlist == Active || StateOf(before, u).playlist == Interrupted)
         && Live(before, u, x) && before.sessions[x].reason == Playlist
      then TakenOff(before, after, u, x) else Spared(before, after, x)
  }

  /** An adoption cancels the live sessions it contends with, and leaves every other session alone. */
  lemma AdoptionDisplacesExactly(g: Registry, u: Universe, id: SessionId, session: Session, isPlaylist: bool,
                                 whole: bool)
    requires Listed(g) && id !in g.sessions
    ensures DisplacesExactly(g, Adopted(g, u, id, session, isPlaylist, whole), u, session, whole)
  {
    var after := Adopted(g, u, id, session, isPlaylist, whole);
    AdoptionTakesTargets(g, u, id, session, isPlaylist, whole);
    forall x | x in g.sessions
      ensures var other := g.sessions[x];
              if && Live(g, u, x)
                 && (|| whole
                     || (exists c :: c in session.creatures && c in other.creatures)
                     || (exists d :: d in session.fixtures && d in other.fixtures))
              then TakenOff(g, after, u, x) else Spared(g, after, x) {
      var targets := Targets(g, u, AdoptFilter(session, whole));
      assert if x in targets then TakenOff(g, after, u, x) else Spared(g, after, x);
    }
  }

  /** So does every adopting step of a run, whose registries are all sound. */
  lemma AdoptStepDisplacesExactly(g: Registry, step: Step)
    requires Sound(g) && Enabled(g, step) && step.Adopt?
    ensures DisplacesExactly(g, Apply(g, step), step.u, step.session, step.whole)
    ensures KeepsOrder(g, Apply(g, step), step.u, [step.id])
  {
    SoundIsListed(g);
    AdoptionDisplacesExactly(g, step.u, step.id, step.session, false, step.whole);
    AdoptionTakesTargets(g, step.u, step.id, step.session, false, step.whole);
  }

  lemma SweepCancelsDrivingExactly(g: Registry, u: Universe, creatures: set<string>)
    requires Listed(g)
    ensures CancelsDrivingExactly(g, Swept(g, u, Involving(creatures)), u, creatures)
  {
    SweepTakesTargets(g, u, Involving(creatures));
  }

  /** Afterwards no live idle session of the universe has the creature. */
  lemma SweepCancelsIdleExactly(g: Registry, u: Universe, creature: string)
    requires Listed(g)
    ensures CancelsIdleExactly(g, Swept(g, u, IdleOf(creature)), u, creature)
    ensures forall x :: !IdlesWith(Swept(g, u, IdleOf(creature)), u, creature, x)
    ensures Targets(g, u, IdleOf(creature)) != {} <==> exists x :: IdlesWith(g, u, creature, x)
  {
    var after := Swept(g, u, IdleOf(creature));
    SweepTakesTargets(g, u, IdleOf(creature));
    forall x ensures !IdlesWith(after, u, creature, x) {
      if x in g.sessions && Live(after, u, x) {
        assert if x in Targets(g, u, IdleOf(creature)) then TakenOff(g, after, u, x) else Spared(g, after, x);
      }
    }
    forall x ensures IdlesWith(g, u, creature, x) <==> x in Targets(g, u, IdleOf(creature)) {
    }
  }

  lemma SameListsSameTaking(g: Registry, same: Registry, after: Registry, u: Universe, hits: set<SessionId>)
    requires same.sessions == g.sessions && forall v :: StateOf(same, v).active == StateOf(g, v).active
    requires TakesExactly(same, after, u, hits) && KeepsOrder(same, after, u, [])
    ensures TakesExactly(g, after, u, hits) && KeepsOrder(g, after, u, [])
  {
    forall x | x in g.sessions
      ensures if x in hits then TakenOff(g, after, u, x) else Spared(g, after, x) {
      assert if x in hits then TakenOff(same, after, u, x) else Spared(same, after, x);
    }
  }

  lemma StopTakesTargets(g: Registry, u: Universe)
    requires Listed(g) && (StateOf(g, u).playlist == Active || StateOf(g, u).playlist == Interrupted)
    ensures TakesExactly(g, PlaylistStopped(g, u), u, Targets(g, u, OfPlaylist))
    ensures KeepsOrder(g, PlaylistStopped(g, u), u, [])
  {
    var halted := Put(g, u, StateOf(g, u).WithPlaylist(Stopped, false).WithHalted());
    HaltingKeepsSessions(g, u, halted);
    assert Targets(halted, u, OfPlaylist) == Targets(g, u, OfPlaylist);
    SweepTakesTargets(halted, u, OfPlaylist);
    SameListsSameTaking(g, halted, PlaylistStopped(g, u), u, Targets(g, u, OfPlaylist));
  }

  lemma StopTakesExactly(g: Registry, u: Universe)
    requires Listed(g)
    ensures StopsExactly(g, PlaylistStopped(g, u), u)
    ensures KeepsOrder(g, PlaylistStopped(g, u), u, [])
  {
    if StateOf(g, u).playlist == Active || StateOf(g, u).playlist == Interrupted {
      StopTakesTargets(g, u);
    } else {
      assert StateOf(g, u).active == StateOf(g, u).active + [];
      WholeIsSelection(StateOf(g, u).active);
    }
  }

  lemma WholeIsSelection(all: seq<SessionId>)
    requires NoDuplicates(all)
    ensures IsSelection(all, all)
  {
    forall i, j | 0 <= i < j < |all| ensures Before(all[i], all[j], all) {
    }
  }

  lemma HaltingKeepsSessions(g: Registry, u: Universe, halted: Registry)
    requires Listed(g) && u in g.universes
    requires halted == Put(g, u, StateOf(g, u).WithPlaylist(Stopped, false).WithHalted())
    ensures Listed(halted) && halted.sessions == g.sessions
    ensures forall v :: StateOf(halted, v).active == StateOf(g, v).active
  {
    forall v: Universe
      ensures NoDuplicates(StateOf(halted, v).active)
      ensures forall x | x in StateOf(halted, v).active :: x in halted.sessions {
      assert StateOf(halted, v).active == StateOf(g, v).active;
    }
  }

  lemma NothingTaken(g: Registry, u: Universe)
    ensures ReportsTaken([], g, g, u)
  {
  }
}
