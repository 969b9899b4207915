/** The CoreAudio sample ring: positions only grow, and a sample's place is its position modulo the ring's size. */
module SampleRings {

  function Min(a: nat, b: nat): nat {
    if a < b then a else b
  }

  function Zeros(n: nat): (zeros: seq<int>)
    ensures |zeros| == n
  {
    seq(n, _ => 0)
  }

  /** The queue the ring stands for, and what one write and one render do to it. */
  predicate Takes(queue: seq<int>, samples: seq<int>, channels: nat, capacity: nat) {
    channels > 0 && |samples| % channels == 0 && |queue| + |samples| <= capacity
  }

  /** The remainder of a position, by counting turns of the ring. */
  function Place(position: nat, size: nat): (place: nat)
    requires size > 0
    ensures place < size
  {
    if position < size then position else Place(position - size, size)
  }

  lemma {:induction false} PlaceIsRemainder(position: nat, size: nat)
    requires size > 0
    ensures Place(position, size) == position % size
  {
    if position >= size {
      PlaceIsRemainder(position - size, size);
      var turns := (position - size) / size;
      assert position == size * (turns + 1) + (position - size) % size;
      Remainder(position, size, turns + 1, (position - size) % size);
    }
  }

  lemma Remainder(n: nat, size: nat, turns: nat, place: nat)
    requires n == size * turns + place && place < size
    ensures n % size == place
  {
    var d: int := turns - n / size;
    assert n == size * (n / size) + n % size;
    assert size * d == n % size - place;
    assert d >= 1 ==> size * d >= size;
    assert d <= -1 ==> size * d + size <= 0;
  }

  lemma {:induction false} PlaceAfter(position: nat, k: nat, size: nat)
    requires k < size
    ensures var start := Place(position, size);
            Place(position + k, size) == if start + k < size then start + k else start + k - size
  {
    if position >= size {
      PlaceAfter(position - size, k, size);
    }
  }

  lemma PlacesDiffer(p: nat, q: nat, size: nat)
    requires p < q < p + size
    ensures Place(p, size) != Place(q, size)
  {
    PlaceAfter(p, q - p, size);
  }

  /** The samples at a run of positions. */
  function Window(ring: seq<int>, from: nat, count: nat): (samples: seq<int>)
    requires |ring| > 0
    ensures |samples| == count
  {
    seq(count, i requires 0 <= i < count => ring[Place(from + i, |ring|)])
  }

  /** The ring with samples copied in from a position on. */
  function Overlaid(ring: seq<int>, at: nat, samples: seq<int>): (overlaid: seq<int>)
    requires |ring| > 0
    ensures |overlaid| == |ring|
  {
    if samples == [] then ring
    else
      var n := |samples| - 1;
      Overlaid(ring, at, samples[..n])[Place(at + n, |ring|) := samples[n]]
  }

  lemma PutAtTheEnd(ring: seq<int>, from: nat, count: nat, sample: int)
    requires count < |ring|
    ensures Window(ring[Place(from + count, |ring|) := sample], from, count + 1) == Window(ring, from, count) + [sample]
  {
    var next := ring[Place(from + count, |ring|) := sample];
    var extended := Window(next, from, count + 1);
    forall i | 0 <= i < count ensures extended[i] == Window(ring, from, count)[i] {
      PlacesDiffer(from + i, from + count, |ring|);
    }
  }

  /** Samples that fit go after the ones that are queued, and disturb none of those. */
  lemma {:induction false} OverlayExtendsWindow(ring: seq<int>, from: nat, count: nat, samples: seq<int>)
    requires |ring| > 0 && count + |samples| <= |ring|
    ensures Window(Overlaid(ring, from + count, samples), from, count + |samples|)
            == Window(ring, from, count) + samples
  {
    if samples != [] {
      var n := |samples| - 1;
      OverlayExtendsWindow(ring, from, count, samples[..n]);
      PutAtTheEnd(Overlaid(ring, from + count, samples[..n]), from, count + n, samples[n]);
      assert samples == samples[..n] + [samples[n]];
    }
  }

  lemma WindowSplits(ring: seq<int>, from: nat, first: nat, second: nat)
    requires |ring| > 0
    ensures Window(ring, from, first + second) == Window(ring, from, first) + Window(ring, from + first, second)
  {
    var whole := Window(ring, from, first + second);
    var parts := Window(ring, from, first) + Window(ring, from + first, second);
    forall i | 0 <= i < first + second ensures whole[i] == parts[i] {
      if i >= first {
        assert parts[i] == ring[Place(from + first + (i - first), |ring|)];
      }
    }
  }

  class SampleRing {
    const channels: nat
    const ring: array<int>
    var readPosition: nat
    var writePosition: nat
    var running: bool
    var underruns: nat

    predicate Valid()
      reads this
    {
      ring.Length > 0 && readPosition <= writePosition <= readPosition + ring.Length
    }

    function Queue(): (queue: seq<int>)
      requires Valid()
      reads this, ring
      ensures |queue| == writePosition - readPosition
    {
      Window(ring[..], readPosition, writePosition - readPosition)
    }

    constructor (channels: nat, capacity: nat)
      requires capacity > 0
      ensures Valid() && Queue() == [] && ring.Length == capacity && this.channels == channels && fresh(ring)
      ensures running && underruns == 0
    {
      this.channels := channels;
      ring := new int[capacity](_ => 0);
      readPosition, writePosition, running, underruns := 0, 0, true, 0;
    }

    /** All of the samples or none of them. */
    method Write(samples: seq<int>) returns (accepted: bool)
      requires Valid()
      modifies this`writePosition, ring
      ensures Valid()
      ensures accepted <==> Takes(old(Queue()), samples, channels, ring.Length)
      ensures Queue() == if accepted then old(Queue()) + samples else old(Queue())
      ensures !accepted ==> writePosition == old(writePosition) && ring[..] == old(ring[..])
    {
      if channels == 0 || |samples| % channels != 0 {
        return false;
      }
      var read, write := readPosition, writePosition;
      if |samples| > ring.Length - (write - read) {
        return false;
      }
      var start := write % ring.Length;
      PlaceIsRemainder(write, ring.Length);
      var first := Min(|samples|, ring.Length - start);
      ghost var before := ring[..];
      CopyIn(samples, 0, first, start, before, write);
      CopyIn(samples, first, |samples|, 0, before, write);
      assert samples[..|samples|] == samples;
      OverlayExtendsWindow(before, read, write - read, samples);
      writePosition := write + |samples|;
      accepted := true;
    }

    /** One of the two parts of a copy into the ring. */
    method CopyIn(samples: seq<int>, from: nat, to: nat, at: nat, ghost before: seq<int>, ghost write: nat)
      requires 0 < ring.Length == |before| && from <= to <= |samples| <= ring.Length && at + (to - from) <= ring.Length
      requires ring[..] == Overlaid(before, write, samples[..from])
      requires from < to ==> at == if from == 0 then Place(write, ring.Length) else 0
      requires from == 0 || from == to || Place(write, ring.Length) + from == ring.Length
      modifies ring
      ensures ring[..] == Overlaid(before, write, samples[..to])
    {
      for k := from to to
        invariant ring[..] == Overlaid(before, write, samples[..k])
      {
        PlaceAfter(write, k, ring.Length);
        assert samples[..k + 1][..k] == samples[..k];
        ring[at + (k - from)] := samples[k];
      }
    }

    /** Fills the device's buffer: what is queued first, then silence. */
    method Render(destination: array<int>) returns (copied: nat)
      requires Valid() && destination != ring
      modifies this`readPosition, this`underruns, destination
      ensures Valid()
      ensures channels == 0 ==> copied == 0 && destination[..] == old(destination[..]) && Queue() == old(Queue())
      ensures channels > 0 ==>
                && copied == Min(destination.Length, |old(Queue())|)
                && destination[..] == old(Queue())[..copied] + Zeros(destination.Length - copied)
                && Queue() == old(Queue())[copied..]
      ensures underruns == old(underruns) + (if channels > 0 && running && copied < destination.Length then 1 else 0)
    {
      if channels == 0 {
        return 0;
      }
      var read, write := readPosition, writePosition;
      copied := Min(destination.Length, write - read);
      var start := read % ring.Length;
      PlaceIsRemainder(read, ring.Length);
      var first := Min(copied, ring.Length - start);
      CopyOut(destination, 0, first, start, read);
      CopyOut(destination, first, copied, 0, read);
      Pad(destination, copied);
      WindowSplits(ring[..], read, copied, write - read - copied);
      readPosition := read + copied;
      if copied < destination.Length && running {
        underruns := underruns + 1;
      }
    }

    method Pad(destination: array<int>, from: nat)
      requires from <= destination.Length
      modifies destination
      ensures destination[..] == old(destination[..from]) + Zeros(destination.Length - from)
    {
      for i := from to destination.Length
        invariant destination[..i] == old(destination[..from]) + Zeros(i - from)
      {
        destination[i] := 0;
        assert Zeros(i + 1 - from) == Zeros(i - from) + [0];
      }
      assert destination[..] == destination[..destination.Length];
    }

    method CopyOut(destination: array<int>, from: nat, to: nat, at: nat, ghost read: nat)
      requires ring.Length > 0 && destination != ring && from <= to <= destination.Length && to <= ring.Length
      requires at + (to - from) <= ring.Length
      requires destination[..from] == Window(ring[..], read, from)
      requires from < to ==> at == if from == 0 then Place(read, ring.Length) else 0
      requires from == 0 || from == to || Place(read, ring.Length) + from == ring.Length
      modifies destination
      ensures destination[..to] == Window(ring[..], read, to)
    {
      for k := from to to
        invariant destination[..k] == Window(ring[..], read, k)
      {
        PlaceAfter(read, k, ring.Length);
        destination[k] := ring[at + (k - from)];
        assert destination[..k + 1] == destination[..k] + [destination[k]];
        WindowSplits(ring[..], read, k, 1);
      }
    }

    method StopAndClear()
      requires Valid()
      modifies this`readPosition, this`running
      ensures Valid() && Queue() == [] && !running
    {
      running := false;
      readPosition := writePosition;
    }
  }
}
