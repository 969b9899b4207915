/** Placing a mono mix on the lanes that own its stretches, with a ramp at both ends of each stretch. */
module GatedConversion {
  import opened SpeakerRuns
  import opened LaneRuns

  const TARGET_CHANNELS: nat := 17

  /** Twenty milliseconds at 48 kHz. */
  const RAMP: nat := 960

  // ----- Fading -----

  function Abs(v: int): nat {
    if v >= 0 then v else -v
  }

  /** The product with offset / RAMP, cut off towards zero. */
  function Fade(v: int, offset: nat): int {
    if v >= 0 then v * offset / RAMP else -(-v * offset / RAMP)
  }

  lemma ScaledDown(v: nat, offset: nat)
    requires offset <= RAMP
    ensures 0 <= v * offset / RAMP <= v
  {
    assert v * offset <= v * RAMP;
  }

  lemma FadeIsSmaller(v: int, offset: nat)
    requires offset <= RAMP
    ensures Abs(Fade(v, offset)) <= Abs(v) && Fade(v, 0) == 0
    ensures (v >= 0 ==> Fade(v, offset) >= 0) && (v <= 0 ==> Fade(v, offset) <= 0)
  {
    ScaledDown(Abs(v), offset);
  }

  /** It is the sample's product with offset / RAMP, cut off towards zero and nothing more. */
  lemma FadeExactly(v: int, offset: nat)
    ensures RAMP * Abs(Fade(v, offset)) <= Abs(v) * offset < RAMP * (Abs(Fade(v, offset)) + 1)
    ensures (v >= 0 ==> Fade(v, offset) >= 0) && (v <= 0 ==> Fade(v, offset) <= 0)
  {
    var product := Abs(v) * offset;
    assert product == RAMP * (product / RAMP) + product % RAMP;
  }

  /** A sample some way into its run and some way from its last sample, after the first turns of the fading loop. */
  function FadedBy(v: int, front: nat, back: nat, turns: nat): int {
    if turns == 0 then v
    else
      var before := FadedBy(v, front, back, turns - 1);
      var faded := if front == turns - 1 then Fade(before, turns - 1) else before;
      if back == turns - 1 then Fade(faded, turns - 1) else faded
  }

  function Turns(length: nat): nat {
    if length < RAMP then length else RAMP
  }

  function Shaped(v: int, front: nat, back: nat): int {
    FadedBy(v, front, back, Turns(front + back + 1))
  }

  lemma {:induction false} FadedExactly(v: int, front: nat, back: nat, turns: nat)
    ensures var near, far := if front < back then front else back, if front < back then back else front;
            FadedBy(v, front, back, turns)
            == if turns <= near then v else if turns <= far then Fade(v, near) else Fade(Fade(v, near), far)
  {
    if turns > 0 {
      FadedExactly(v, front, back, turns - 1);
    }
  }

  /** One ramp from both edges a sample is what it was; nearer to one it is faded once, nearer to both twice. */
  lemma ShapedExactly(v: int, front: nat, back: nat)
    ensures var near, far := if front < back then front else back, if front < back then back else front;
            var once := if near < RAMP then Fade(v, near) else v;
            Shaped(v, front, back) == if far < RAMP then Fade(once, far) else once
  {
    FadedExactly(v, front, back, Turns(front + back + 1));
  }

  /** It never gets louder or changes sign, starts and ends at zero, and is untouched a ramp from both edges. */
  lemma ShapedIsSmaller(v: int, front: nat, back: nat)
    ensures Abs(Shaped(v, front, back)) <= Abs(v)
    ensures (v >= 0 ==> Shaped(v, front, back) >= 0) && (v <= 0 ==> Shaped(v, front, back) <= 0)
    ensures front == 0 || back == 0 ==> Shaped(v, front, back) == 0
    ensures front >= RAMP && back >= RAMP ==> Shaped(v, front, back) == v
  {
    ShapedExactly(v, front, back);
    var near, far := if front < back then front else back, if front < back then back else front;
    if near < RAMP {
      FadeIsSmaller(v, near);
      if far < RAMP {
        FadeIsSmaller(Fade(v, near), far);
      }
    }
  }

  // ----- Placing -----

  datatype Placement = Placement(lane: nat, runs: seq<Run>)

  predicate Within(run: Run, x: int) {
    run.start <= x < run.end
  }

  function Clamped(run: Run, total: nat): (clamped: Run)
    ensures clamped.start <= clamped.end <= total
    ensures forall x | 0 <= x < total :: Within(clamped, x) <==> Within(run, x)
  {
    var start := if run.start < total then run.start else total;
    var end := if run.end < total then run.end else total;
    Run(start, if end > start then end else start)
  }

  /** What a run makes of a cell of its lane. */
  function Over(mono: seq<int>, run: Run, x: nat, cell: int): int
    requires x < |mono|
  {
    var clamped := Clamped(run, |mono|);
    if Within(clamped, x) then Shaped(mono[x], x - clamped.start, clamped.end - 1 - x) else cell
  }

  function AfterRuns(mono: seq<int>, runs: seq<Run>, x: nat, cell: int): int
    requires x < |mono|
  {
    if runs == [] then cell
    else Over(mono, runs[|runs| - 1], x, AfterRuns(mono, runs[..|runs| - 1], x, cell))
  }

  function AfterPlacements(mono: seq<int>, placements: seq<Placement>, lane: nat, x: nat): int
    requires x < |mono|
  {
    if placements == [] then 0
    else
      var before := AfterPlacements(mono, placements[..|placements| - 1], lane, x);
      var last := placements[|placements| - 1];
      if last.lane == lane then AfterRuns(mono, last.runs, x, before) else before
  }

  predicate IsLane(lane: nat) {
    1 <= lane <= TARGET_CHANNELS
  }

  function CellAt(lane: nat, x: nat): nat
    requires IsLane(lane)
  {
    lane - 1 + x * TARGET_CHANNELS
  }

  /** Cells of different lanes or samples are different cells. */
  lemma CellsDiffer(lane: nat, x: nat, other: nat, y: nat)
    requires IsLane(lane) && IsLane(other) && CellAt(lane, x) == CellAt(other, y)
    ensures lane == other && x == y
  {
  }

  class LaneBuffer {
    const total: nat
    const out: array<int>

    predicate Valid() {
      out.Length == TARGET_CHANNELS * total
    }

    function Cell(lane: nat, x: nat): int
      requires Valid() && IsLane(lane) && x < total
      reads out
    {
      out[CellAt(lane, x)]
    }

    constructor (total: nat)
      ensures Valid() && this.total == total && fresh(out)
      ensures forall lane, x | IsLane(lane) && 0 <= x < total :: Cell(lane, x) == 0
    {
      this.total := total;
      out := new int[TARGET_CHANNELS * total](_ => 0);
    }

    method Set(lane: nat, x: nat, value: int)
      requires Valid() && IsLane(lane) && x < total
      modifies out
      ensures forall other, y | IsLane(other) && 0 <= y < total ::
                Cell(other, y) == if other == lane && y == x then value else old(Cell(other, y))
    {
      out[CellAt(lane, x)] := value;
      forall other, y | IsLane(other) && 0 <= y < total && CellAt(other, y) == CellAt(lane, x)
        ensures other == lane && y == x {
        CellsDiffer(other, y, lane, x);
      }
    }

    /** One run: a strided copy, then the fades at both of its edges. */
    method PlaceRun(mono: seq<int>, lane: nat, run: Run)
      requires Valid() && IsLane(lane) && |mono| == total
      modifies out
      ensures forall other, x | IsLane(other) && 0 <= x < total ::
                Cell(other, x) == if other == lane then Over(mono, run, x, old(Cell(other, x))) else old(Cell(other, x))
    {
      var start, end := Clamped(run, total).start, Clamped(run, total).end;
      for x := start to end
        invariant forall other, y | IsLane(other) && 0 <= y < total ::
          Cell(other, y) == if other == lane && start <= y < x then mono[y] else old(Cell(other, y))
      {
        Set(lane, x, mono[x]);
      }
      for offset := 0 to Turns(end - start)
        invariant forall other, y | IsLane(other) && 0 <= y < total ::
          Cell(other, y) == if other == lane && start <= y < end then FadedBy(mono[y], y - start, end - 1 - y, offset)
                            else old(Cell(other, y))
      {
        Set(lane, start + offset, Fade(Cell(lane, start + offset), offset));
        Set(lane, end - 1 - offset, Fade(Cell(lane, end - 1 - offset), offset));
      }
    }

    method PlaceRuns(mono: seq<int>, lane: nat, runs: seq<Run>)
      requires Valid() && IsLane(lane) && |mono| == total
      modifies out
      ensures forall other, x | IsLane(other) && 0 <= x < total ::
                Cell(other, x) == if other == lane then AfterRuns(mono, runs, x, old(Cell(other, x)))
                                  else old(Cell(other, x))
    {
      for i := 0 to |runs|
        invariant forall other, x | IsLane(other) && 0 <= x < total ::
          Cell(other, x) == if other == lane then AfterRuns(mono, runs[..i], x, old(Cell(other, x)))
                            else old(Cell(other, x))
      {
        assert runs[..i + 1][..i] == runs[..i];
        PlaceRun(mono, lane, runs[i]);
      }
      assert runs[..|runs|] == runs;
    }
  }

  /** The lanes' own runs first, then the runs nobody owns on each fallback lane. */
  function AllPlacements(owned: seq<Placement>, unowned: seq<Run>, fallback: seq<nat>): (all: seq<Placement>)
    ensures |all| == |owned| + |fallback| && all[..|owned|] == owned
    ensures forall i | 0 <= i < |fallback| :: all[|owned| + i] == Placement(fallback[i], unowned)
  {
    owned + seq(|fallback|, i requires 0 <= i < |fallback| => Placement(fallback[i], unowned))
  }

  method ConvertGated(mono: seq<int>, owned: seq<Placement>, unowned: seq<Run>, fallback: seq<nat>)
    returns (buffer: LaneBuffer)
    requires (forall p | p in owned :: IsLane(p.lane)) && (forall lane | lane in fallback :: IsLane(lane))
    ensures buffer.Valid() && buffer.total == |mono|
    ensures forall lane, x | IsLane(lane) && 0 <= x < |mono| ::
              buffer.Cell(lane, x) == AfterPlacements(mono, AllPlacements(owned, unowned, fallback), lane, x)
    ensures forall lane: nat, x: nat | IsLane(lane) && x < |mono| ::
              && x * 17 + (lane - 1) < buffer.out.Length
              && buffer.out[x * 17 + (lane - 1)] == buffer.Cell(lane, x)
  {
    buffer := new LaneBuffer(|mono|);
    var all := AllPlacements(owned, unowned, fallback);
    for i := 0 to |all|
      invariant forall lane, x | IsLane(lane) && 0 <= x < |mono| ::
        buffer.Cell(lane, x) == AfterPlacements(mono, all[..i], lane, x)
      modifies buffer.out
    {
      assert i < |owned| ==> all[i] == owned[i];
      assert i >= |owned| ==> all[i].lane == fallback[i - |owned|];
      assert all[..i + 1][..i] == all[..i];
      buffer.PlaceRuns(mono, all[i].lane, all[i].runs);
    }
    assert all[..|all|] == all;
  }

  // ----- What ends up in a cell -----

  /** A run that has the sample decides its cell, whatever was there. */
  lemma {:induction false} LastRunDecides(mono: seq<int>, runs: seq<Run>, x: nat, cell: int)
    requires x < |mono|
    ensures AfterRuns(mono, runs, x, cell) == if Covers(runs, x) then AfterRuns(mono, runs, x, 0) else cell
  {
    if runs != [] {
      var n := |runs| - 1;
      LastRunDecides(mono, runs[..n], x, cell);
      assert runs == runs[..n] + [runs[n]];
      CoversMore(runs[..n], runs[n]);
      assert Within(Clamped(runs[n], |mono|), x) <==> Within(runs[n], x);
    }
  }

  /** Of disjoint runs one at most has the sample, and that one shapes it. */
  lemma {:induction false} TheRunDecides(mono: seq<int>, runs: seq<Run>, x: nat, i: nat)
    requires x < |mono| && Disjoint(runs) && i < |runs| && Within(runs[i], x)
    ensures var run := Clamped(runs[i], |mono|);
            run.start <= x < run.end && AfterRuns(mono, runs, x, 0) == Shaped(mono[x], x - run.start, run.end - 1 - x)
  {
    var n := |runs| - 1;
    assert Within(Clamped(runs[i], |mono|), x);
    if i < n {
      assert runs[i].end <= runs[n].start;
      assert !Within(Clamped(runs[n], |mono|), x);
      assert runs[..n][i] == runs[i];
      TheRunDecides(mono, runs[..n], x, i);
    }
  }

  /** Some placement puts the sample on the lane. */
  predicate Puts(placements: seq<Placement>, lane: nat, x: nat) {
    exists i | 0 <= i < |placements| :: PutsHere(placements[i], lane, x)
  }

  predicate PutsHere(p: Placement, lane: nat, x: nat) {
    p.lane == lane && Covers(p.runs, x)
  }

  /** When all placements that put the sample on the lane have the same runs, it does not matter how many there are. */
  lemma {:induction false} OneSource(mono: seq<int>, placements: seq<Placement>, lane: nat, x: nat, runs: seq<Run>)
    requires x < |mono|
    requires forall i | 0 <= i < |placements| && PutsHere(placements[i], lane, x) :: placements[i].runs == runs
    ensures AfterPlacements(mono, placements, lane, x)
            == if Puts(placements, lane, x) then AfterRuns(mono, runs, x, 0) else 0
  {
    if placements != [] {
      var n := |placements| - 1;
      var front, last := placements[..n], placements[n];
      OneSource(mono, front, lane, x, runs);
      LastRunDecides(mono, last.runs, x, AfterPlacements(mono, front, lane, x));
      assert Puts(placements, lane, x) <==> Puts(front, lane, x) || PutsHere(last, lane, x) by {
        if Puts(front, lane, x) {
          var i :| 0 <= i < |front| && PutsHere(front[i], lane, x);
          assert PutsHere(placements[i], lane, x);
        }
        if i :| 0 <= i < |placements| && PutsHere(placements[i], lane, x) {
          assert i < n ==> PutsHere(front[i], lane, x);
        }
      }
    }
  }

  /** The placements list the lanes' runs, each lane once. */
  ghost predicate Lists(owned: seq<Placement>, byLane: map<nat, seq<Run>>) {
    && (forall i | 0 <= i < |owned| :: owned[i].lane in byLane && owned[i].runs == byLane[owned[i].lane])
    && (forall lane | lane in byLane :: exists i | 0 <= i < |owned| :: owned[i].lane == lane)
  }

  /** Whose runs a cell gets its sample from, if it gets it. */
  ghost function SourceOf(byLane: map<nat, seq<Run>>, unowned: seq<Run>, fallback: seq<nat>, lane: nat, x: nat)
    : seq<Run>
  {
    if lane in byLane && Covers(byLane[lane], x) then byLane[lane]
    else if lane in fallback && Covers(unowned, x) then unowned
    else []
  }

  /**
   The whole conversion, cell by cell: a lane has the mono sample, shaped by the one run that has it, exactly where the
   lane owns it or, on a fallback lane, where nobody does; elsewhere it is silent. Nothing is louder than the mono mix.
   */
  lemma CellsAreGated(mono: seq<int>, owned: seq<Placement>, byLane: map<nat, seq<Run>>, unowned: seq<Run>,
                      fallback: seq<nat>, tracks: seq<Track>, samplesPerFrame: real, total: nat, lane: nat, x: nat)
    requires samplesPerFrame >= 0.0 && AllLanes(byLane, tracks) && Lists(owned, byLane) && x < |mono|
    requires AreLaneRuns(byLane, unowned, tracks, samplesPerFrame, total)
    ensures var runs := SourceOf(byLane, unowned, fallback, lane, x);
            IsShapedBy(mono, runs, x, AfterPlacements(mono, AllPlacements(owned, unowned, fallback), lane, x))
  {
    var runs := SourceOf(byLane, unowned, fallback, lane, x);
    EverySampleIsSettled(byLane, unowned, tracks, samplesPerFrame, total, x);
    SourceIsPut(owned, byLane, unowned, fallback, lane, x);
    OneSource(mono, AllPlacements(owned, unowned, fallback), lane, x, runs);
    assert Disjoint(runs);
    DisjointRunsShape(mono, runs, x);
  }

  /** The value of a cell whose sample comes from these runs. */
  predicate IsShapedBy(mono: seq<int>, runs: seq<Run>, x: nat, value: int)
    requires x < |mono|
  {
    && (!Covers(runs, x) ==> value == 0)
    && (forall i | 0 <= i < |runs| && Within(runs[i], x) :: IsShapedIn(mono, runs[i], x, value))
    && Abs(value) <= Abs(mono[x])
  }

  predicate IsShapedIn(mono: seq<int>, run: Run, x: nat, value: int)
    requires x < |mono|
  {
    var clamped := Clamped(run, |mono|);
    clamped.start <= x < clamped.end && value == Shaped(mono[x], x - clamped.start, clamped.end - 1 - x)
  }

  lemma DisjointRunsShape(mono: seq<int>, runs: seq<Run>, x: nat)
    requires x < |mono| && Disjoint(runs)
    ensures IsShapedBy(mono, runs, x, if Covers(runs, x) then AfterRuns(mono, runs, x, 0) else 0)
  {
    forall i | 0 <= i < |runs| && Within(runs[i], x)
      ensures Covers(runs, x) && IsShapedIn(mono, runs[i], x, AfterRuns(mono, runs, x, 0)) {
      TheRunDecides(mono, runs, x, i);
    }
    var value := AfterRuns(mono, runs, x, 0);
    if i :| 0 <= i < |runs| && Within(runs[i], x) {
      assert Abs(value) <= Abs(mono[x]) by {
        ShapedStaysBelow(mono, runs[i], x, value);
      }
    }
  }

  lemma ShapedStaysBelow(mono: seq<int>, run: Run, x: nat, value: int)
    requires x < |mono| && IsShapedIn(mono, run, x, value)
    ensures Abs(value) <= Abs(mono[x])
  {
    var clamped := Clamped(run, |mono|);
    ShapedIsSmaller(mono[x], x - clamped.start, clamped.end - 1 - x);
  }

  lemma SourceIsPut(owned: seq<Placement>, byLane: map<nat, seq<Run>>, unowned: seq<Run>, fallback: seq<nat>, lane: nat,
                    x: nat)
    requires Lists(owned, byLane)
    requires Covers(unowned, x) ==> forall other | other in byLane :: !Covers(byLane[other], x)
    ensures var all := AllPlacements(owned, unowned, fallback);
            var runs := SourceOf(byLane, unowned, fallback, lane, x);
            && (forall i | 0 <= i < |all| && PutsHere(all[i], lane, x) :: all[i].runs == runs)
            && (Puts(all, lane, x) <==> Covers(runs, x))
  {
    var all := AllPlacements(owned, unowned, fallback);
    var runs := SourceOf(byLane, unowned, fallback, lane, x);
    forall i | 0 <= i < |all| && PutsHere(all[i], lane, x) ensures all[i].runs == runs {
      if i < |owned| {
        assert all[i] == owned[i];
      } else {
        assert all[i] == Placement(fallback[i - |owned|], unowned);
      }
    }
    if lane in byLane && Covers(byLane[lane], x) {
      var i :| 0 <= i < |owned| && owned[i].lane == lane;
      assert all[i] == owned[i];
      assert PutsHere(all[i], lane, x);
    } else if lane in fallback && Covers(unowned, x) {
      var i :| 0 <= i < |fallback| && fallback[i] == lane;
      assert all[|owned| + i] == Placement(lane, unowned);
      assert PutsHere(all[|owned| + i], lane, x);
    }
  }
}
