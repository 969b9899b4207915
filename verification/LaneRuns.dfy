/** Which samples each lane owns, from the activity of the creatures on it. */
module LaneRuns {
  import opened SpeakerRuns

  // A creature's lane (0 if it has none) and its frames' raw mouth activity.
  datatype Track = Track(lane: nat, raw: seq<bool>)

  // ----- Frames -----

  predicate SpeaksIn(track: Track, lane: nat, k: nat) {
    track.lane == lane && k < |track.raw| && Speaking(track.raw, k)
  }

  predicate SpeaksOn(tracks: seq<Track>, lane: nat, k: nat) {
    exists i | 0 <= i < |tracks| :: SpeaksIn(tracks[i], lane, k)
  }

  predicate Used(tracks: seq<Track>, lane: nat) {
    lane != 0 && exists i | 0 <= i < |tracks| :: tracks[i].lane == lane
  }

  /** The length of the first track on a lane, which limits all of them. */
  function FirstLength(tracks: seq<Track>, lane: nat): nat {
    if tracks == [] then 0
    else if tracks[0].lane == lane then |tracks[0].raw|
    else FirstLength(tracks[1..], lane)
  }

  function FrameCount(tracks: seq<Track>): nat {
    if tracks == [] then 0
    else
      var front, last := FrameCount(tracks[..|tracks| - 1]), tracks[|tracks| - 1];
      if last.lane != 0 && |last.raw| > front then |last.raw| else front
  }

  /** The length of a track that is on the lane while none before it is. */
  lemma {:induction false} FirstLengthIsFirst(tracks: seq<Track>, lane: nat, i: nat)
    requires i < |tracks| && tracks[i].lane == lane && forall k | 0 <= k < i :: tracks[k].lane != lane
    ensures FirstLength(tracks, lane) == |tracks[i].raw|
  {
    if i > 0 {
      FirstLengthIsFirst(tracks[1..], lane, i - 1);
    }
  }

  /** The animation is as long as the longest track of a creature with a lane, and no longer. */
  lemma {:induction false} FrameCountIsLongest(tracks: seq<Track>)
    ensures forall i | 0 <= i < |tracks| && tracks[i].lane != 0 :: |tracks[i].raw| <= FrameCount(tracks)
    ensures FrameCount(tracks) > 0 ==>
              exists i :: 0 <= i < |tracks| && tracks[i].lane != 0 && |tracks[i].raw| == FrameCount(tracks)
  {
    if tracks != [] {
      var front := tracks[..|tracks| - 1];
      FrameCountIsLongest(front);
      forall i | 0 <= i < |tracks| && tracks[i].lane != 0 ensures |tracks[i].raw| <= FrameCount(tracks) {
        assert i < |tracks| - 1 ==> tracks[i] == front[i];
      }
      if FrameCount(front) > 0 && FrameCount(tracks) == FrameCount(front) {
        var i :| 0 <= i < |front| && front[i].lane != 0 && |front[i].raw| == FrameCount(front);
        assert tracks[i] == front[i];
      }
    }
  }

  lemma {:induction false} FirstLengthAppend(tracks: seq<Track>, track: Track, lane: nat)
    requires lane != 0
    ensures FirstLength(tracks + [track], lane)
            == if Used(tracks, lane) then FirstLength(tracks, lane) else if track.lane == lane then |track.raw| else 0
    ensures !Used(tracks, lane) ==> FirstLength(tracks, lane) == 0
  {
    if tracks == [] {
      assert [] + [track] == [track];
    } else {
      assert (tracks + [track])[1..] == tracks[1..] + [track];
      FirstLengthAppend(tracks[1..], track, lane);
      if Used(tracks, lane) && tracks[0].lane != lane {
        var i :| 0 <= i < |tracks| && tracks[i].lane == lane;
        assert tracks[1..][i - 1].lane == lane;
      }
      if Used(tracks[1..], lane) {
        var i :| 0 <= i < |tracks[1..]| && tracks[1..][i].lane == lane;
        assert tracks[i + 1].lane == lane;
      }
    }
  }

  lemma AppendTrack(tracks: seq<Track>, track: Track)
    ensures forall lane :: Used(tracks + [track], lane) <==> Used(tracks, lane) || (lane != 0 && track.lane == lane)
    ensures forall lane, k: nat :: SpeaksOn(tracks + [track], lane, k) <==>
              SpeaksOn(tracks, lane, k) || SpeaksIn(track, lane, k)
  {
    var more := tracks + [track];
    assert more[|tracks|] == track;
    forall lane ensures Used(more, lane) <==> Used(tracks, lane) || (lane != 0 && track.lane == lane) {
      if Used(tracks, lane) {
        var i :| 0 <= i < |tracks| && tracks[i].lane == lane;
        assert more[i].lane == lane;
      }
    }
    forall lane, k: nat ensures SpeaksOn(more, lane, k) <==> SpeaksOn(tracks, lane, k) || SpeaksIn(track, lane, k) {
      if SpeaksOn(tracks, lane, k) {
        var i :| 0 <= i < |tracks| && SpeaksIn(tracks[i], lane, k);
        assert SpeaksIn(more[i], lane, k);
      }
    }
  }

  /** A lane's flags after some of the tracks. */
  predicate AreFlagsOf(flags: seq<bool>, tracks: seq<Track>, lane: nat) {
    && |flags| == FirstLength(tracks, lane)
    && forall k: nat | k < |flags| :: flags[k] <==> SpeaksOn(tracks, lane, k)
  }

  method LaneFlags(tracks: seq<Track>) returns (perLane: map<nat, seq<bool>>, frameCount: nat)
    ensures forall lane :: lane in perLane <==> Used(tracks, lane)
    ensures forall lane | lane in perLane :: AreFlagsOf(perLane[lane], tracks, lane)
    ensures frameCount == FrameCount(tracks)
  {
    perLane, frameCount := map[], 0;
    for i := 0 to |tracks|
      invariant forall lane :: lane in perLane <==> Used(tracks[..i], lane)
      invariant forall lane | lane in perLane :: AreFlagsOf(perLane[lane], tracks[..i], lane)
      invariant frameCount == FrameCount(tracks[..i])
    {
      var track := tracks[i];
      assert tracks[..i + 1] == tracks[..i] + [track];
      AppendTrack(tracks[..i], track);
      forall lane | lane != 0 {
        FirstLengthAppend(tracks[..i], track, lane);
      }
      if track.lane != 0 {
        if |track.raw| > frameCount {
          frameCount := |track.raw|;
        }
        var active := Smooth(track.raw);
        if track.lane !in perLane {
          SpeaksNowhere(tracks[..i], track.lane);
          perLane := perLane[track.lane := active];
        } else {
          var merged := Merge(perLane[track.lane], active);
          perLane := perLane[track.lane := merged];
        }
      }
    }
    assert tracks[..|tracks|] == tracks;
  }

  lemma SpeaksNowhere(tracks: seq<Track>, lane: nat)
    requires lane != 0 && !Used(tracks, lane)
    ensures forall k: nat :: !SpeaksOn(tracks, lane, k)
  {
  }

  /** Zipped with the second sequence padded by the first one's length: as long as the first one. */
  method Merge(existing: seq<bool>, active: seq<bool>) returns (merged: seq<bool>)
    ensures |merged| == |existing|
    ensures forall k | 0 <= k < |merged| :: merged[k] <==> existing[k] || (k < |active| && active[k])
  {
    var padded := active + seq(|existing|, _ => false);
    merged := [];
    for k := 0 to |existing|
      invariant |merged| == k
      invariant forall j | 0 <= j < k :: merged[j] <==> existing[j] || (j < |active| && active[j])
    {
      merged := merged + [existing[k] || padded[k]];
    }
  }

  // ----- Samples -----

  /** The sample at which a frame begins, no later than the end of the audio. */
  function Edge(frame: nat, samplesPerFrame: real, total: nat): nat
    requires samplesPerFrame >= 0.0
  {
    Product(frame, samplesPerFrame);
    var sample := (frame as real * samplesPerFrame).Floor;
    if sample < total then sample else total
  }

  lemma Product(frame: nat, samplesPerFrame: real)
    requires samplesPerFrame >= 0.0
    ensures frame as real * samplesPerFrame >= 0.0
  {
  }

  lemma EdgesGrow(a: nat, b: nat, samplesPerFrame: real, total: nat)
    requires a <= b && samplesPerFrame >= 0.0
    ensures Edge(a, samplesPerFrame, total) <= Edge(b, samplesPerFrame, total)
  {
    Product(b - a, samplesPerFrame);
    assert b as real * samplesPerFrame == a as real * samplesPerFrame + (b - a) as real * samplesPerFrame;
  }

  /** The sample belongs to the frame: it ends after the frame begins, and no later than the frame does. */
  predicate InFrame(x: nat, frame: nat, samplesPerFrame: real, total: nat) {
    && x < total
    && frame as real * samplesPerFrame < (x + 1) as real <= (frame + 1) as real * samplesPerFrame
  }

  lemma InFrameIsBetweenEdges(x: nat, frame: nat, samplesPerFrame: real, total: nat)
    requires samplesPerFrame >= 0.0
    ensures InFrame(x, frame, samplesPerFrame, total)
       <==> Edge(frame, samplesPerFrame, total) <= x < Edge(frame + 1, samplesPerFrame, total)
  {
    EdgeIsFloor(x, frame, samplesPerFrame, total);
    EdgeIsFloor(x, frame + 1, samplesPerFrame, total);
  }

  /** A sample lies before a frame's edge exactly if it has ended when the frame begins. */
  lemma EdgeIsFloor(x: nat, frame: nat, samplesPerFrame: real, total: nat)
    requires samplesPerFrame >= 0.0
    ensures x < Edge(frame, samplesPerFrame, total)
       <==> x < total && (x + 1) as real <= frame as real * samplesPerFrame
  {
    var begin := frame as real * samplesPerFrame;
    Product(frame, samplesPerFrame);
    assert begin.Floor as real <= begin < begin.Floor as real + 1.0;
  }

  lemma OneFrame(x: nat, a: nat, b: nat, samplesPerFrame: real, total: nat)
    requires samplesPerFrame >= 0.0 && InFrame(x, a, samplesPerFrame, total) && InFrame(x, b, samplesPerFrame, total)
    ensures a == b
  {
    InFrameIsBetweenEdges(x, a, samplesPerFrame, total);
    InFrameIsBetweenEdges(x, b, samplesPerFrame, total);
    if a < b {
      EdgesGrow(a + 1, b, samplesPerFrame, total);
      assert false;
    }
    if b < a {
      EdgesGrow(b + 1, a, samplesPerFrame, total);
      assert false;
    }
  }

  lemma {:induction false} SomeFrame(x: nat, start: nat, end: nat, samplesPerFrame: real, total: nat)
    returns (frame: nat)
    requires samplesPerFrame >= 0.0 && start <= end
    requires Edge(start, samplesPerFrame, total) <= x < Edge(end, samplesPerFrame, total)
    ensures start <= frame < end && InFrame(x, frame, samplesPerFrame, total)
    decreases end - start
  {
    if x < Edge(start + 1, samplesPerFrame, total) {
      frame := start;
      InFrameIsBetweenEdges(x, start, samplesPerFrame, total);
    } else {
      frame := SomeFrame(x, start + 1, end, samplesPerFrame, total);
    }
  }

  function Scaled(runs: seq<Run>, samplesPerFrame: real, total: nat): (scaled: seq<Run>)
    requires samplesPerFrame >= 0.0
    ensures |scaled| == |runs|
    ensures forall i | 0 <= i < |runs| ::
              scaled[i] == Run(Edge(runs[i].start, samplesPerFrame, total), Edge(runs[i].end, samplesPerFrame, total))
  {
    seq(|runs|, i requires 0 <= i < |runs| =>
      Run(Edge(runs[i].start, samplesPerFrame, total), Edge(runs[i].end, samplesPerFrame, total)))
  }

  predicate FlaggedAt(flags: seq<bool>, x: nat, samplesPerFrame: real, total: nat)
    requires samplesPerFrame >= 0.0
  {
    exists frame | 0 <= frame < |flags| :: flags[frame] && InFrame(x, frame, samplesPerFrame, total)
  }

  /** Runs of samples cover exactly the samples of the flagged frames. */
  lemma ScaledRunsCover(runs: seq<Run>, flags: seq<bool>, samplesPerFrame: real, total: nat, x: nat)
    requires samplesPerFrame >= 0.0 && AreRunsOf(runs, flags)
    ensures Covers(Scaled(runs, samplesPerFrame, total), x) <==> FlaggedAt(flags, x, samplesPerFrame, total)
  {
    if Covers(Scaled(runs, samplesPerFrame, total), x) {
      CoveredIsFlagged(runs, flags, samplesPerFrame, total, x);
    }
    if FlaggedAt(flags, x, samplesPerFrame, total) {
      FlaggedIsCovered(runs, flags, samplesPerFrame, total, x);
    }
  }

  lemma CoveredIsFlagged(runs: seq<Run>, flags: seq<bool>, samplesPerFrame: real, total: nat, x: nat)
    requires samplesPerFrame >= 0.0 && AreRunsOf(runs, flags) && Covers(Scaled(runs, samplesPerFrame, total), x)
    ensures FlaggedAt(flags, x, samplesPerFrame, total)
  {
    var scaled := Scaled(runs, samplesPerFrame, total);
    var i :| 0 <= i < |scaled| && scaled[i].start <= x < scaled[i].end;
    assert IsMaximal(flags, runs[i]);
    var frame := SomeFrame(x, runs[i].start, runs[i].end, samplesPerFrame, total);
  }

  lemma FlaggedIsCovered(runs: seq<Run>, flags: seq<bool>, samplesPerFrame: real, total: nat, x: nat)
    requires samplesPerFrame >= 0.0 && AreRunsOf(runs, flags) && FlaggedAt(flags, x, samplesPerFrame, total)
    ensures Covers(Scaled(runs, samplesPerFrame, total), x)
  {
    var scaled := Scaled(runs, samplesPerFrame, total);
    var frame: nat :| frame < |flags| && flags[frame] && InFrame(x, frame, samplesPerFrame, total);
    InFrameIsBetweenEdges(x, frame, samplesPerFrame, total);
    var i :| 0 <= i < |runs| && runs[i].start <= frame < runs[i].end;
    EdgesGrow(runs[i].start, frame, samplesPerFrame, total);
    EdgesGrow(frame + 1, runs[i].end, samplesPerFrame, total);
    assert scaled[i].start <= x < scaled[i].end;
  }

  predicate Disjoint(runs: seq<Run>) {
    forall i, j | 0 <= i < j < |runs| :: runs[i].end <= runs[j].start
  }

  lemma ScaledRunsAreDisjoint(runs: seq<Run>, samplesPerFrame: real, total: nat)
    requires samplesPerFrame >= 0.0 && Ordered(runs)
    ensures Disjoint(Scaled(runs, samplesPerFrame, total))
  {
    forall i, j | 0 <= i < j < |runs|
      ensures Edge(runs[i].end, samplesPerFrame, total) <= Edge(runs[j].start, samplesPerFrame, total) {
      EdgesGrow(runs[i].end, runs[j].start, samplesPerFrame, total);
    }
  }

  // ----- The lanes' runs -----

  /** Some lane's tracks claim the frame. */
  predicate Claimed(tracks: seq<Track>, k: nat) {
    exists i | 0 <= i < |tracks| :: tracks[i].lane != 0 && Claims(tracks, tracks[i].lane, k)
  }

  predicate Claims(tracks: seq<Track>, lane: nat, k: nat) {
    k < FirstLength(tracks, lane) && SpeaksOn(tracks, lane, k)
  }

  /** What the lanes' runs have to be, sample by sample. */
  ghost predicate AreLaneRuns(byLane: map<nat, seq<Run>>, unowned: seq<Run>, tracks: seq<Track>, samplesPerFrame: real,
                              total: nat)
    requires samplesPerFrame >= 0.0
  {
    && (forall lane | lane in byLane :: Used(tracks, lane) && Disjoint(byLane[lane]))
    && (forall lane, x: nat | lane in byLane :: Covers(byLane[lane], x) <==>
          exists k: nat :: Claims(tracks, lane, k) && InFrame(x, k, samplesPerFrame, total))
    && Disjoint(unowned)
    && (forall x: nat :: Covers(unowned, x) <==>
          exists k: nat :: k < FrameCount(tracks) && !Claimed(tracks, k) && InFrame(x, k, samplesPerFrame, total))
  }

  method LaneRunsFromTracks(tracks: seq<Track>, samplesPerFrame: real, total: nat)
    returns (byLane: map<nat, seq<Run>>, unowned: seq<Run>)
    requires samplesPerFrame >= 0.0
    ensures FrameCount(tracks) == 0 ==> byLane == map[] && unowned == []
    ensures FrameCount(tracks) > 0 ==> forall lane :: lane in byLane <==> Used(tracks, lane)
    ensures AreLaneRuns(byLane, unowned, tracks, samplesPerFrame, total)
  {
    var perLane, frameCount := LaneFlags(tracks);
    if frameCount == 0 {
      return map[], [];
    }
    var owned;
    byLane, owned := ScaleLanes(perLane, frameCount, samplesPerFrame, total);
    var free := seq(frameCount, k requires 0 <= k < frameCount => !owned[k]);
    var runs := FlagRuns(free);
    unowned := Scaled(runs, samplesPerFrame, total);
    ScaledRunsAreDisjoint(runs, samplesPerFrame, total);
    forall x: nat {
      ScaledRunsCover(runs, free, samplesPerFrame, total, x);
    }
    OwnedIsClaimed(tracks, perLane, owned);
    LanesAreRight(byLane, perLane, tracks, samplesPerFrame, total);
    UnownedIsRight(unowned, free, tracks, samplesPerFrame, total);
  }

  method ScaleLanes(perLane: map<nat, seq<bool>>, frameCount: nat, samplesPerFrame: real, total: nat)
    returns (byLane: map<nat, seq<Run>>, owned: seq<bool>)
    requires samplesPerFrame >= 0.0
    ensures byLane.Keys == perLane.Keys && |owned| == frameCount
    ensures forall lane | lane in byLane :: OwnsFlagged(byLane[lane], perLane[lane], samplesPerFrame, total)
    ensures forall k: nat | k < frameCount :: owned[k] <==>
              exists lane | lane in perLane :: k < |perLane[lane]| && perLane[lane][k]
  {
    byLane := map[];
    owned := seq(frameCount, _ => false);
    var lanes := perLane.Keys;
    while lanes != {}
      invariant lanes <= perLane.Keys && byLane.Keys == perLane.Keys - lanes
      invariant |owned| == frameCount
      invariant forall lane | lane in byLane :: OwnsFlagged(byLane[lane], perLane[lane], samplesPerFrame, total)
      invariant forall k: nat | k < frameCount :: owned[k] <==>
        exists lane | lane in byLane :: k < |perLane[lane]| && perLane[lane][k]
      decreases |lanes|
    {
      var lane :| lane in lanes;
      lanes := lanes - {lane};
      var runs := FlagRuns(perLane[lane]);
      ScaledRunsOwn(runs, perLane[lane], samplesPerFrame, total);
      byLane := byLane[lane := Scaled(runs, samplesPerFrame, total)];
      owned := Claim(owned, perLane[lane]);
    }
  }

  ghost predicate OwnsFlagged(runs: seq<Run>, flags: seq<bool>, samplesPerFrame: real, total: nat)
    requires samplesPerFrame >= 0.0
  {
    Disjoint(runs) && forall x: nat :: Covers(runs, x) <==> FlaggedAt(flags, x, samplesPerFrame, total)
  }

  lemma ScaledRunsOwn(runs: seq<Run>, flags: seq<bool>, samplesPerFrame: real, total: nat)
    requires samplesPerFrame >= 0.0 && AreRunsOf(runs, flags)
    ensures OwnsFlagged(Scaled(runs, samplesPerFrame, total), flags, samplesPerFrame, total)
  {
    ScaledRunsAreDisjoint(runs, samplesPerFrame, total);
    forall x: nat {
      ScaledRunsCover(runs, flags, samplesPerFrame, total, x);
    }
  }

  lemma LanesAreRight(byLane: map<nat, seq<Run>>, perLane: map<nat, seq<bool>>, tracks: seq<Track>,
                      samplesPerFrame: real, total: nat)
    requires samplesPerFrame >= 0.0 && byLane.Keys == perLane.Keys
    requires forall lane | lane in perLane :: AreFlagsOf(perLane[lane], tracks, lane)
    requires forall lane | lane in byLane :: OwnsFlagged(byLane[lane], perLane[lane], samplesPerFrame, total)
    ensures forall lane, x: nat | lane in byLane :: Covers(byLane[lane], x) <==>
              exists k: nat :: Claims(tracks, lane, k) && InFrame(x, k, samplesPerFrame, total)
  {
    forall lane, x: nat | lane in byLane
      ensures Covers(byLane[lane], x) <==>
                exists k: nat :: Claims(tracks, lane, k) && InFrame(x, k, samplesPerFrame, total) {
      var flags := perLane[lane];
      if FlaggedAt(flags, x, samplesPerFrame, total) {
        var k: nat :| k < |flags| && flags[k] && InFrame(x, k, samplesPerFrame, total);
        assert Claims(tracks, lane, k);
      }
      if k: nat :| Claims(tracks, lane, k) && InFrame(x, k, samplesPerFrame, total) {
        assert flags[k];
      }
    }
  }

  lemma UnownedIsRight(unowned: seq<Run>, free: seq<bool>, tracks: seq<Track>, samplesPerFrame: real, total: nat)
    requires samplesPerFrame >= 0.0 && |free| == FrameCount(tracks)
    requires OwnsFlagged(unowned, free, samplesPerFrame, total)
    requires forall k: nat | k < |free| :: free[k] <==> !Claimed(tracks, k)
    ensures forall x: nat :: Covers(unowned, x) <==>
              exists k: nat :: k < FrameCount(tracks) && !Claimed(tracks, k) && InFrame(x, k, samplesPerFrame, total)
  {
    forall x: nat
      ensures Covers(unowned, x) <==>
                exists k: nat :: k < FrameCount(tracks) && !Claimed(tracks, k) && InFrame(x, k, samplesPerFrame, total)
    {
      if k: nat :| k < FrameCount(tracks) && !Claimed(tracks, k) && InFrame(x, k, samplesPerFrame, total) {
        assert free[k];
      }
    }
  }

  method Claim(owned: seq<bool>, flags: seq<bool>) returns (claimed: seq<bool>)
    ensures |claimed| == |owned|
    ensures forall k | 0 <= k < |owned| :: claimed[k] <==> owned[k] || (k < |flags| && flags[k])
  {
    claimed := owned;
    for index := 0 to |flags|
      invariant |claimed| == |owned|
      invariant forall k | 0 <= k < |owned| :: claimed[k] <==> owned[k] || (k < index && flags[k])
    {
      if flags[index] && index < |owned| {
        claimed := claimed[index := true];
      }
    }
  }

  lemma OwnedIsClaimed(tracks: seq<Track>, perLane: map<nat, seq<bool>>, owned: seq<bool>)
    requires forall lane :: lane in perLane <==> Used(tracks, lane)
    requires forall lane | lane in perLane :: AreFlagsOf(perLane[lane], tracks, lane)
    requires forall k: nat | k < |owned| :: owned[k] <==>
               exists lane | lane in perLane :: k < |perLane[lane]| && perLane[lane][k]
    ensures forall k: nat | k < |owned| :: owned[k] <==> Claimed(tracks, k)
  {
    forall k: nat | k < |owned| ensures owned[k] <==> Claimed(tracks, k) {
      if Claimed(tracks, k) {
        var i :| 0 <= i < |tracks| && tracks[i].lane != 0 && Claims(tracks, tracks[i].lane, k);
        assert Used(tracks, tracks[i].lane);
        assert perLane[tracks[i].lane][k];
      }
    }
  }

  // ----- Who gets a sample -----

  ghost predicate AllLanes(byLane: map<nat, seq<Run>>, tracks: seq<Track>) {
    FrameCount(tracks) > 0 ==> forall lane :: lane in byLane <==> Used(tracks, lane)
  }

  lemma {:induction false} CountIsReached(tracks: seq<Track>, lane: nat, k: nat)
    requires lane != 0 && SpeaksOn(tracks, lane, k)
    ensures k < FrameCount(tracks)
  {
    var n := |tracks| - 1;
    if !SpeaksIn(tracks[n], lane, k) {
      var i :| 0 <= i < |tracks| && SpeaksIn(tracks[i], lane, k);
      assert tracks[..n][i] == tracks[i];
      CountIsReached(tracks[..n], lane, k);
    }
  }

  lemma ClaimerIsUsed(tracks: seq<Track>, k: nat)
    requires Claimed(tracks, k)
    ensures exists lane :: Used(tracks, lane) && Claims(tracks, lane, k)
  {
    var i :| 0 <= i < |tracks| && tracks[i].lane != 0 && Claims(tracks, tracks[i].lane, k);
    assert Used(tracks, tracks[i].lane);
  }

  /**
   The samples that are owned by a lane or by nobody are exactly those below the end of the animation, and what nobody
   owns no lane owns.
   */
  lemma EverySampleIsSettled(byLane: map<nat, seq<Run>>, unowned: seq<Run>, tracks: seq<Track>, samplesPerFrame: real,
                             total: nat, x: nat)
    requires samplesPerFrame >= 0.0 && AllLanes(byLane, tracks)
    requires AreLaneRuns(byLane, unowned, tracks, samplesPerFrame, total)
    ensures (Covers(unowned, x) || exists lane :: lane in byLane && Covers(byLane[lane], x))
            <==> x < total && (x + 1) as real <= FrameCount(tracks) as real * samplesPerFrame
    ensures Covers(unowned, x) ==> forall lane | lane in byLane :: !Covers(byLane[lane], x)
  {
    var count := FrameCount(tracks);
    EdgeIsFloor(x, count, samplesPerFrame, total);
    forall lane | lane in byLane && Covers(byLane[lane], x)
      ensures x < Edge(count, samplesPerFrame, total) && !Covers(unowned, x) {
      LaneExcludesUnowned(byLane, unowned, tracks, samplesPerFrame, total, x, lane);
    }
    if Covers(unowned, x) {
      var k: nat :| k < count && !Claimed(tracks, k) && InFrame(x, k, samplesPerFrame, total);
      InFrameIsBetweenEdges(x, k, samplesPerFrame, total);
      EdgesGrow(k + 1, count, samplesPerFrame, total);
    }
    if x < Edge(count, samplesPerFrame, total) {
      SettledBelowTheEnd(byLane, unowned, tracks, samplesPerFrame, total, x);
    }
  }

  lemma LaneExcludesUnowned(byLane: map<nat, seq<Run>>, unowned: seq<Run>, tracks: seq<Track>, samplesPerFrame: real,
                            total: nat, x: nat, lane: nat)
    requires samplesPerFrame >= 0.0 && AreLaneRuns(byLane, unowned, tracks, samplesPerFrame, total)
    requires lane in byLane && Covers(byLane[lane], x)
    ensures x < Edge(FrameCount(tracks), samplesPerFrame, total) && !Covers(unowned, x)
  {
    var k: nat :| Claims(tracks, lane, k) && InFrame(x, k, samplesPerFrame, total);
    assert Claimed(tracks, k) by {
      var i :| 0 <= i < |tracks| && SpeaksIn(tracks[i], lane, k);
    }
    CountIsReached(tracks, lane, k);
    InFrameIsBetweenEdges(x, k, samplesPerFrame, total);
    EdgesGrow(k + 1, FrameCount(tracks), samplesPerFrame, total);
    if Covers(unowned, x) {
      var j: nat :| j < FrameCount(tracks) && !Claimed(tracks, j) && InFrame(x, j, samplesPerFrame, total);
      OneFrame(x, j, k, samplesPerFrame, total);
    }
  }

  lemma SettledBelowTheEnd(byLane: map<nat, seq<Run>>, unowned: seq<Run>, tracks: seq<Track>, samplesPerFrame: real,
                           total: nat, x: nat)
    requires samplesPerFrame >= 0.0 && AllLanes(byLane, tracks)
    requires AreLaneRuns(byLane, unowned, tracks, samplesPerFrame, total)
    requires x < Edge(FrameCount(tracks), samplesPerFrame, total)
    ensures Covers(unowned, x) || exists lane :: lane in byLane && Covers(byLane[lane], x)
  {
    assert Edge(0, samplesPerFrame, total) == 0;
    var k := SomeFrame(x, 0, FrameCount(tracks), samplesPerFrame, total);
    if Claimed(tracks, k) {
      ClaimerIsUsed(tracks, k);
      var lane :| Used(tracks, lane) && Claims(tracks, lane, k);
      assert lane in byLane && Covers(byLane[lane], x);
    }
  }

  /**
   A lane gets the samples of a frame in which one of its creatures speaks if and only if the frame is within the first
   of the lane's tracks: what a longer, later track says after that is lost to its lane.
   */
  lemma SpeechIsHeardWithinTheFirstTrack(byLane: map<nat, seq<Run>>, unowned: seq<Run>, tracks: seq<Track>,
                                         samplesPerFrame: real, total: nat, lane: nat, k: nat, x: nat)
    requires samplesPerFrame >= 0.0 && AreLaneRuns(byLane, unowned, tracks, samplesPerFrame, total)
    requires lane in byLane && SpeaksOn(tracks, lane, k) && InFrame(x, k, samplesPerFrame, total)
    ensures Covers(byLane[lane], x) <==> k < FirstLength(tracks, lane)
  {
    if Covers(byLane[lane], x) {
      var j: nat :| Claims(tracks, lane, j) && InFrame(x, j, samplesPerFrame, total);
      OneFrame(x, j, k, samplesPerFrame, total);
    }
  }

  /**
   For example: a creature's first track is empty and it speaks throughout the two frames of its second one. Nobody owns
   them.
   */
  lemma LongerSecondTrackIsCut(byLane: map<nat, seq<Run>>, unowned: seq<Run>, k: nat)
    requires AllLanes(byLane, [Track(1, []), Track(1, [true, true])])
    requires AreLaneRuns(byLane, unowned, [Track(1, []), Track(1, [true, true])], 1.0, 2) && k < 2
    ensures SpeaksOn([Track(1, []), Track(1, [true, true])], 1, k)
    ensures 1 in byLane && !Covers(byLane[1], k) && Covers(unowned, k)
  {
    var tracks := [Track(1, []), Track(1, [true, true])];
    assert Bridged([true, true], k);
    assert Speaking([true, true], k);
    assert SpeaksIn(tracks[1], 1, k);
    assert tracks[..1] == [Track(1, [])] && FrameCount(tracks) == 2;
    assert tracks[0].lane == 1;
    assert Used(tracks, 1);
    assert Edge(0, 1.0, 2) == 0 && Edge(1, 1.0, 2) == 1 && Edge(2, 1.0, 2) == 2;
    assert InFrame(k, k, 1.0, 2);
    SpeechIsHeardWithinTheFirstTrack(byLane, unowned, tracks, 1.0, 2, 1, k, k);
    assert !Claimed(tracks, k);
  }
}
