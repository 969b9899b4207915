/**
 One writer, the device's renderer and a stopping thread on the sample ring, one load, copied sample or store at a time,
 so that each side works with a position of the other side that may be out of date.
 */
module SampleRingRuns {
  import opened SampleRings

  datatype Writer =
    | Waiting
    | Loaded(samples: seq<int>, seen: nat)                 // the read position it saw
    | Copying(samples: seq<int>, seen: nat, done: nat)

  datatype Renderer =
    | Quiet
    | Started(wanted: nat, at: nat)
    | Filling(wanted: nat, at: nat, copied: nat, out: seq<int>)

  datatype Stopper = Absent | Clearing(seen: nat)          // the write position it saw

  // What the device was given: samples from a position on, then padding.
  datatype Buffer = Buffer(at: nat, copied: nat, out: seq<int>)

  // The accepted samples and the buffers are history.
  datatype State = State(
    ring: seq<int>,
    read: nat,
    write: nat,
    writer: Writer,
    renderer: Renderer,
    stopper: Stopper,
    accepted: seq<int>,
    buffers: seq<Buffer>)
  {
    function Put(position: nat, sample: int): State
      requires |ring| > 0
    {
      this.(ring := ring[Place(position, |ring|) := sample])
    }
  }

  datatype Act =
    | WriterLoads(samples: seq<int>)
    | WriterRefuses
    | WriterBegins
    | WriterCopies
    | WriterStores
    | RendererLoads(wanted: nat)
    | RendererSees
    | RendererCopies
    | RendererStores
    | StopperLoads               // the device has stopped: no render is under way, and none starts until the store
    | StopperStores

  predicate HasRoom(s: State, samples: seq<int>, seen: nat) {
    seen <= s.write && |samples| + (s.write - seen) <= |s.ring|
  }

  predicate Can(s: State, act: Act) {
    && |s.ring| > 0
    && match act
       case WriterLoads(_) => s.writer.Waiting?
       case WriterRefuses => s.writer.Loaded? && !HasRoom(s, s.writer.samples, s.writer.seen)
       case WriterBegins => s.writer.Loaded? && HasRoom(s, s.writer.samples, s.writer.seen)
       case WriterCopies => s.writer.Copying? && s.writer.done < |s.writer.samples|
       case WriterStores => s.writer.Copying? && s.writer.done >= |s.writer.samples|
       case RendererLoads(_) => s.renderer.Quiet? && s.stopper.Absent?
       case RendererSees => s.renderer.Started? && s.renderer.at <= s.write
       case RendererCopies => s.renderer.Filling? && |s.renderer.out| < s.renderer.copied
       case RendererStores => s.renderer.Filling? && |s.renderer.out| >= s.renderer.copied
       case StopperLoads => s.stopper.Absent? && s.renderer.Quiet?
       case StopperStores => s.stopper.Clearing?
  }

  function Next(s: State, act: Act): State
    requires Can(s, act)
  {
    match act
    case WriterLoads(samples) => s.(writer := Loaded(samples, s.read))
    case WriterRefuses => s.(writer := Waiting)
    case WriterBegins => s.(writer := Copying(s.writer.samples, s.writer.seen, 0))
    case WriterCopies =>
      s.Put(s.write + s.writer.done, s.writer.samples[s.writer.done]).(writer := s.writer.(done := s.writer.done + 1))
    case WriterStores =>
      s.(write := s.write + |s.writer.samples|, accepted := s.accepted + s.writer.samples, writer := Waiting)
    case RendererLoads(wanted) => s.(renderer := Started(wanted, s.read))
    case RendererSees =>
      s.(renderer := Filling(s.renderer.wanted, s.renderer.at, Min(s.renderer.wanted, s.write - s.renderer.at), []))
    case RendererCopies =>
      var sample := s.ring[Place(s.renderer.at + |s.renderer.out|, |s.ring|)];
      s.(renderer := s.renderer.(out := s.renderer.out + [sample]))
    case RendererStores =>
      var r := s.renderer;
      var padding := Zeros(if r.wanted >= r.copied then r.wanted - r.copied else 0);
      s.(read := r.at + r.copied, renderer := Quiet, buffers := s.buffers + [Buffer(r.at, r.copied, r.out + padding)])
    case StopperLoads => s.(stopper := Clearing(s.write))
    case StopperStores => s.(read := s.stopper.seen, stopper := Absent)
  }

  predicate Possible(s: State, acts: seq<Act>)
    decreases |acts|
  {
    acts == [] || (Can(s, acts[0]) && Possible(Next(s, acts[0]), acts[1..]))
  }

  function End(s: State, acts: seq<Act>): State
    requires Possible(s, acts)
    decreases |acts|
  {
    if acts == [] then s else End(Next(s, acts[0]), acts[1..])
  }

  predicate Initial(s: State) {
    && |s.ring| > 0 && s.read == s.write == 0 && s.accepted == [] && s.buffers == []
    && s.writer.Waiting? && s.renderer.Quiet? && s.stopper.Absent?
  }

  // ----- The invariant -----

  predicate Positions(s: State) {
    |s.ring| > 0 && s.read <= s.write <= s.read + |s.ring| && |s.accepted| == s.write
  }

  /** The samples between the positions are the ones that were accepted there. */
  ghost predicate Cells(s: State)
    requires Positions(s)
  {
    forall p | s.read <= p < s.write :: Holds(s.ring, p, s.accepted[p])
  }

  predicate Holds(ring: seq<int>, position: nat, sample: int)
    requires |ring| > 0
  {
    ring[Place(position, |ring|)] == sample
  }

  ghost predicate WriterOk(s: State)
    requires Positions(s)
  {
    match s.writer
    case Waiting => true
    case Loaded(_, seen) => seen <= s.read
    case Copying(samples, seen, done) =>
      && seen <= s.read && HasRoom(s, samples, seen) && done <= |samples|
      && forall k | 0 <= k < done :: Holds(s.ring, s.write + k, samples[k])
  }

  predicate RendererOk(s: State)
    requires Positions(s)
  {
    match s.renderer
    case Quiet => true
    case Started(_, at) => at == s.read && s.stopper.Absent?
    case Filling(wanted, at, copied, out) =>
      && at == s.read && s.stopper.Absent?
      && copied <= wanted && at + copied <= s.write && |out| <= copied && out == s.accepted[at..at + |out|]
  }

  predicate StopperOk(s: State) {
    s.stopper.Clearing? ==> s.read <= s.stopper.seen <= s.write
  }

  predicate BufferOk(s: State, b: Buffer) {
    && b.at + b.copied <= s.read && s.read <= |s.accepted| && b.copied <= |b.out|
    && b.out == s.accepted[b.at..b.at + b.copied] + Zeros(|b.out| - b.copied)
  }

  ghost predicate BuffersOk(s: State) {
    && (forall i | 0 <= i < |s.buffers| :: BufferOk(s, s.buffers[i]))
    && (forall i, j | 0 <= i < j < |s.buffers| :: s.buffers[i].at + s.buffers[i].copied <= s.buffers[j].at)
  }

  ghost predicate Inv(s: State) {
    Positions(s) && Cells(s) && WriterOk(s) && RendererOk(s) && StopperOk(s) && BuffersOk(s)
  }

  lemma PutKeepsHeld(ring: seq<int>, p: nat, sample: int, at: nat, other: int)
    requires |ring| > 0 && Holds(ring, p, sample) && p < at < p + |ring|
    ensures Holds(ring[Place(at, |ring|) := other], p, sample)
  {
    PlacesDiffer(p, at, |ring|);
  }

  lemma WriterCopiesKeepsInv(s: State)
    requires Inv(s) && Can(s, WriterCopies)
    ensures Inv(Next(s, WriterCopies))
  {
    var next := Next(s, WriterCopies);
    var at, sample := s.write + s.writer.done, s.writer.samples[s.writer.done];
    forall p | s.read <= p < s.write ensures Holds(next.ring, p, next.accepted[p]) {
      PutKeepsHeld(s.ring, p, s.accepted[p], at, sample);
    }
    forall k | 0 <= k < next.writer.done ensures Holds(next.ring, s.write + k, s.writer.samples[k]) {
      if k < s.writer.done {
        PutKeepsHeld(s.ring, s.write + k, s.writer.samples[k], at, sample);
      }
    }
  }

  lemma WriterStoresKeepsInv(s: State)
    requires Inv(s) && Can(s, WriterStores)
    ensures Inv(Next(s, WriterStores))
  {
    var next := Next(s, WriterStores);
    forall p | next.read <= p < next.write ensures Holds(next.ring, p, next.accepted[p]) {
      if p >= s.write {
        assert Holds(s.ring, s.write + (p - s.write), s.writer.samples[p - s.write]);
      }
    }
  }

  lemma RendererCopiesKeepsInv(s: State)
    requires Inv(s) && Can(s, RendererCopies)
    ensures Inv(Next(s, RendererCopies))
  {
    var p := s.renderer.at + |s.renderer.out|;
    assert Holds(s.ring, p, s.accepted[p]);
    assert s.accepted[s.renderer.at..p + 1] == s.accepted[s.renderer.at..p] + [s.accepted[p]];
  }

  lemma RendererSeesKeepsInv(s: State)
    requires Inv(s) && Can(s, RendererSees)
    ensures Inv(Next(s, RendererSees))
  {
  }

  lemma WriterBeginsKeepsInv(s: State)
    requires Inv(s) && Can(s, WriterBegins)
    ensures Inv(Next(s, WriterBegins))
  {
  }

  lemma RendererStoresKeepsInv(s: State)
    requires Inv(s) && Can(s, RendererStores)
    ensures Inv(Next(s, RendererStores))
  {
    var next := Next(s, RendererStores);
    forall i | 0 <= i < |s.buffers| ensures BufferOk(next, s.buffers[i]) {
      assert BufferOk(s, s.buffers[i]);
    }
  }

  lemma NextKeepsInv(s: State, act: Act)
    requires Inv(s) && Can(s, act)
    ensures Inv(Next(s, act))
  {
    match act
    case WriterCopies => WriterCopiesKeepsInv(s);
    case WriterStores => WriterStoresKeepsInv(s);
    case RendererCopies => RendererCopiesKeepsInv(s);
    case RendererStores => RendererStoresKeepsInv(s);
    case RendererSees => RendererSeesKeepsInv(s);
    case WriterBegins => WriterBeginsKeepsInv(s);
    case _ =>
  }

  lemma {:induction false} RunKeepsInv(s: State, acts: seq<Act>)
    requires Inv(s) && Possible(s, acts)
    ensures Inv(End(s, acts))
    decreases |acts|
  {
    if acts != [] {
      NextKeepsInv(s, acts[0]);
      RunKeepsInv(Next(s, acts[0]), acts[1..]);
    }
  }

  // ----- The ring is a queue -----

  function Queue(s: State): seq<int>
    requires Positions(s)
  {
    s.accepted[s.read..s.write]
  }

  /** What every single action does to the queue: only the two stores change it, each by a whole operation at once. */
  lemma EachActIsAQueueOperation(s: State, act: Act)
    requires Inv(s) && Can(s, act)
    ensures Positions(Next(s, act)) && |Queue(s)| <= |s.ring| && Queue(s) == Window(s.ring, s.read, s.write - s.read)
    ensures var before, after := Queue(s), Queue(Next(s, act));
            match act
            case WriterStores => after == before + s.writer.samples
            case RendererStores =>
              && after == before[s.renderer.copied..] && s.renderer.copied == |s.renderer.out|
              && s.renderer.out == before[..s.renderer.copied]
            case StopperStores => s.read <= s.stopper.seen && after == before[s.stopper.seen - s.read..]
            case _ => after == before
  {
    var next := Next(s, act);
    NextKeepsInv(s, act);
    QueueIsTheWindow(s);
    match act
    case WriterStores =>
      assert next.accepted[s.read..s.write] == Queue(s) && next.accepted[s.write..next.write] == s.writer.samples;
      assert Queue(next) == next.accepted[s.read..s.write] + next.accepted[s.write..next.write];
    case RendererStores =>
      assert Queue(s)[..s.renderer.copied] == s.accepted[s.read..s.read + s.renderer.copied];
      assert Queue(s)[s.renderer.copied..] == s.accepted[s.read + s.renderer.copied..s.write];
    case StopperStores =>
      assert Queue(s)[s.stopper.seen - s.read..] == s.accepted[s.stopper.seen..s.write];
    case _ =>
  }

  lemma QueueIsTheWindow(s: State)
    requires Inv(s)
    ensures Queue(s) == Window(s.ring, s.read, s.write - s.read)
  {
    forall i | 0 <= i < |Queue(s)| ensures Queue(s)[i] == Window(s.ring, s.read, s.write - s.read)[i] {
      assert Holds(s.ring, s.read + i, s.accepted[s.read + i]);
    }
  }

  /** A refusal was right when the writer looked, and a write that was let through still fits when it is stored. */
  lemma RefusalsAreJustified(s: State, samples: seq<int>, acts: seq<Act>)
    requires Inv(s) && s.writer.Waiting? && Possible(Next(s, WriterLoads(samples)), acts)
    requires forall act | act in acts :: !act.WriterLoads? && !act.WriterRefuses? && !act.WriterBegins?
    ensures var looked := Next(s, WriterLoads(samples));
            var later := End(looked, acts);
            && Can(later, WriterRefuses) == (|Queue(s)| + |samples| > |s.ring|)
            && Can(later, WriterBegins) == (|Queue(s)| + |samples| <= |s.ring|)
  {
    var looked := Next(s, WriterLoads(samples));
    WriterWaits(looked, acts);
  }

  lemma {:induction false} WriterWaits(s: State, acts: seq<Act>)
    requires s.writer.Loaded? && Possible(s, acts)
    requires forall act | act in acts :: !act.WriterLoads? && !act.WriterRefuses? && !act.WriterBegins?
    ensures End(s, acts).writer == s.writer && End(s, acts).write == s.write && |End(s, acts).ring| == |s.ring|
    decreases |acts|
  {
    if acts != [] {
      assert acts[0] in acts;
      WriterWaits(Next(s, acts[0]), acts[1..]);
    }
  }

  // ----- What is heard -----

  /** Everything the device was given, without the padding. */
  function Heard(buffers: seq<Buffer>): seq<int> {
    if buffers == [] then []
    else
      var b := buffers[|buffers| - 1];
      Heard(buffers[..|buffers| - 1]) + if b.copied <= |b.out| then b.out[..b.copied] else b.out
  }

  ghost predicate HeardOk(s: State) {
    Inv(s) && Heard(s.buffers) == s.accepted[..s.read]
  }

  lemma NextKeepsHeard(s: State, act: Act)
    requires HeardOk(s) && Can(s, act) && !act.StopperStores?
    ensures HeardOk(Next(s, act))
  {
    NextKeepsInv(s, act);
    var next := Next(s, act);
    if act.RendererStores? {
      assert next.buffers[..|s.buffers|] == s.buffers;
      assert next.accepted[..next.read] == s.accepted[..s.read] + s.accepted[s.read..next.read];
    } else {
      assert next.accepted[..next.read] == s.accepted[..s.read];
    }
  }

  lemma {:induction false} RunKeepsHeard(s: State, acts: seq<Act>)
    requires HeardOk(s) && Possible(s, acts) && StopperStores !in acts
    ensures HeardOk(End(s, acts))
    decreases |acts|
  {
    if acts != [] {
      NextKeepsHeard(s, acts[0]);
      RunKeepsHeard(Next(s, acts[0]), acts[1..]);
    }
  }

  /**
   Under every interleaving the device hears a beginning of what was accepted, in order, with nothing lost or repeated,
   and each buffer is silent after it.
   */
  lemma HeardIsAPrefixOfAccepted(s: State, acts: seq<Act>)
    requires Initial(s) && Possible(s, acts) && StopperStores !in acts
    ensures var last := End(s, acts);
            && Heard(last.buffers) <= last.accepted
            && last.read <= last.write <= last.read + |last.ring|
            && forall i | 0 <= i < |last.buffers| ::
                 var b := last.buffers[i];
                 b.copied <= |b.out| && forall k | b.copied <= k < |b.out| :: b.out[k] == 0
  {
    RunKeepsHeard(s, acts);
    var last := End(s, acts);
    forall i | 0 <= i < |last.buffers| ensures BufferOk(last, last.buffers[i]) {
    }
  }

  /** With stops in between, buffers still hold what was accepted at their positions, and no position is heard twice. */
  lemma NothingIsHeardTwice(s: State, acts: seq<Act>, i: nat, j: nat)
    requires Initial(s) && Possible(s, acts) && i < j < |End(s, acts).buffers|
    ensures var last := End(s, acts);
            var (b, c) := (last.buffers[i], last.buffers[j]);
            && b.at + b.copied <= c.at && c.at + c.copied <= last.read
            && last.read <= |last.accepted| && b.copied <= |b.out|
            && b.out[..b.copied] == last.accepted[b.at..b.at + b.copied]
  {
    RunKeepsInv(s, acts);
    var last := End(s, acts);
    assert BufferOk(last, last.buffers[i]) && BufferOk(last, last.buffers[j]);
  }

  /**
   Why no render may be under way while the ring is cleared: the render's own store undoes the clearing, and all that it
   did not take is queued again, which is nothing only if it took everything.
   */
  lemma OverlappingClearIsUndone(s: State)
    requires Inv(s) && s.renderer.Filling? && |s.renderer.out| == s.renderer.copied
    ensures var cleared := Next(s.(stopper := Clearing(s.write)), StopperStores);
            && Positions(cleared) && Queue(cleared) == [] && Can(cleared, RendererStores)
            && var after := Next(cleared, RendererStores);
               && Positions(after) && Queue(after) == Queue(s)[s.renderer.copied..]
               && (Queue(after) == [] <==> s.renderer.copied == |Queue(s)|)
  {
  }

  // ----- What a write between the clearing and the render's store does to the capacity -----

  predicate OfWriter(act: Act) {
    act.WriterLoads? || act.WriterRefuses? || act.WriterBegins? || act.WriterCopies? || act.WriterStores?
  }

  predicate OnlyWriter(acts: seq<Act>) {
    forall k | 0 <= k < |acts| :: OfWriter(acts[k])
  }

  /** A render has taken its samples and not stored its position; the ring is cleared under it. */
  function ClearedUnderRender(s: State): State
    requires |s.ring| > 0
  {
    Next(s.(stopper := Clearing(s.write)), StopperStores)
  }

  lemma {:induction false} WriterRunAddsOnly(s: State, acts: seq<Act>)
    requires |s.ring| > 0 && Possible(s, acts) && OnlyWriter(acts)
    ensures var end := End(s, acts);
            end.read == s.read && end.write >= s.write && end.renderer == s.renderer && |end.ring| == |s.ring|
    decreases |acts|
  {
    if acts != [] {
      assert OfWriter(acts[0]);
      WriterRunAddsOnly(Next(s, acts[0]), acts[1..]);
    }
  }

  /**
   Whatever the writer adds between the clearing and the render's store, the positions stay within the capacity if and
   only if that and what the render did not take fit the ring together.
   */
  lemma ClearedRingOverrunsExactly(s: State, acts: seq<Act>)
    requires Inv(s) && s.renderer.Filling? && |s.renderer.out| == s.renderer.copied
    requires Possible(ClearedUnderRender(s), acts) && OnlyWriter(acts)
    ensures var full := End(ClearedUnderRender(s), acts);
            && Can(full, RendererStores) && full.write >= s.write && s.renderer.copied <= |Queue(s)|
            && var after := Next(full, RendererStores);
               && after.read <= after.write
               && (after.write - after.read <= |s.ring|
                   <==> (|Queue(s)| - s.renderer.copied) + (full.write - s.write) <= |s.ring|)
  {
    WriterRunAddsOnly(ClearedUnderRender(s), acts);
  }

  function Copies(count: nat): (acts: seq<Act>) {
    seq(count, k => WriterCopies)
  }

  lemma {:induction false} CopyingRun(s: State, count: nat)
    requires |s.ring| > 0 && s.writer.Copying? && s.writer.done + count == |s.writer.samples|
    ensures Possible(s, Copies(count) + [WriterStores])
    ensures End(s, Copies(count) + [WriterStores]).write == s.write + |s.writer.samples|
    decreases count
  {
    var acts := Copies(count) + [WriterStores];
    if count == 0 {
      assert acts == [WriterStores] && acts[1..] == [];
    } else {
      assert acts[0] == WriterCopies && acts[1..] == Copies(count - 1) + [WriterStores];
      CopyingRun(Next(s, WriterCopies), count - 1);
    }
  }

  /** So a single write of a ring's worth of samples overruns it unless the render took all that was queued. */
  lemma FullWriteOverruns(s: State, samples: seq<int>)
    requires Inv(s) && s.renderer.Filling? && |s.renderer.out| == s.renderer.copied && s.writer.Waiting?
    requires |samples| == |s.ring|
    ensures var acts := [WriterLoads(samples), WriterBegins] + (Copies(|samples|) + [WriterStores]);
            && Possible(ClearedUnderRender(s), acts) && OnlyWriter(acts)
            && var full := End(ClearedUnderRender(s), acts);
               && Can(full, RendererStores) && s.renderer.copied <= |Queue(s)|
               && var after := Next(full, RendererStores);
                  after.write - after.read <= |s.ring| <==> s.renderer.copied == |Queue(s)|
  {
    var rest := Copies(|samples|) + [WriterStores];
    var acts := [WriterLoads(samples), WriterBegins] + rest;
    var cleared := ClearedUnderRender(s);
    var loaded := Next(cleared, WriterLoads(samples));
    assert acts[1..] == [WriterBegins] + rest && acts[1..][1..] == rest;
    CopyingRun(Next(loaded, WriterBegins), |samples|);
    ClearedRingOverrunsExactly(s, acts);
  }

  const WRAP := 0x1_0000_0000_0000_0000

  /** The room test as it is computed, in unsigned 64-bit arithmetic. */
  predicate FitsUnsigned(count: nat, capacity: nat, used: nat) {
    count <= (capacity - used) % WRAP
  }

  /** Within the capacity that is the test for room; beyond it, it lets through all but absurdly long writes. */
  lemma OverrunRingAcceptsExactly(count: nat, capacity: nat, used: nat)
    requires capacity < WRAP && used < WRAP
    ensures FitsUnsigned(count, capacity, used) <==>
            if used <= capacity then count + used <= capacity else count <= WRAP - (used - capacity)
  {
    if used > capacity {
      assert (capacity - used) % WRAP == capacity - used + WRAP;
    }
  }
}
