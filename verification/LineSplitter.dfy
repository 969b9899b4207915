/** The lines a child process's output is reported in, however the reads divide it. */
module LineSplitter {
  import opened Wrappers
  import opened Bytes

  const NEWLINE: byte := 10

  /** A newline at the end and nowhere else. */
  predicate IsTerminated(line: bytes) {
    line != [] && line[|line| - 1] == NEWLINE && NEWLINE !in line[..|line| - 1]
  }

  predicate IsOpen(line: bytes) {
    line != [] && NEWLINE !in line
  }

  /** Lines that make up the output: each one terminated, but perhaps the last, which is not empty. */
  predicate IsSplit(lines: seq<bytes>, output: bytes) {
    && Flat(lines) == output
    && (forall i | 0 <= i < |lines| - 1 :: IsTerminated(lines[i]))
    && (lines != [] ==> IsTerminated(lines[|lines| - 1]) || IsOpen(lines[|lines| - 1]))
  }

  /** There is only one way to split an output into lines. */
  lemma {:induction false} SplitIsUnique(a: seq<bytes>, b: seq<bytes>, output: bytes)
    requires IsSplit(a, output) && IsSplit(b, output)
    ensures a == b
    decreases |a|
  {
    if a == [] || b == [] {
      SplitOfNothing(a);
      SplitOfNothing(b);
    } else {
      SameFirstLine(a, b, output);
      assert Flat(a[1..]) == output[|a[0]|..] == Flat(b[1..]);
      RestIsSplit(a, output);
      RestIsSplit(b, output);
      SplitIsUnique(a[1..], b[1..], output[|a[0]|..]);
      assert a == [a[0]] + a[1..] && b == [b[0]] + b[1..];
    }
  }

  lemma SplitOfNothing(lines: seq<bytes>)
    requires IsSplit(lines, Flat(lines))
    ensures Flat(lines) == [] <==> lines == []
  {
    if lines != [] {
      assert lines[0] != [];
    }
  }

  lemma RestIsSplit(lines: seq<bytes>, output: bytes)
    requires IsSplit(lines, output) && lines != []
    ensures IsSplit(lines[1..], output[|lines[0]|..])
  {
    assert output == lines[0] + Flat(lines[1..]);
    assert output[|lines[0]|..] == Flat(lines[1..]);
    var rest := lines[1..];
    forall i | 0 <= i < |rest| - 1 ensures IsTerminated(rest[i]) {
      assert rest[i] == lines[i + 1];
    }
  }

  lemma SameFirstLine(a: seq<bytes>, b: seq<bytes>, output: bytes)
    requires IsSplit(a, output) && IsSplit(b, output) && a != [] && b != []
    ensures a[0] == b[0]
  {
    FirstLineIsPrefix(a, output);
    FirstLineIsPrefix(b, output);
    NotShorter(a, b, output);
    NotShorter(b, a, output);
  }

  lemma FirstLineIsPrefix(lines: seq<bytes>, output: bytes)
    requires IsSplit(lines, output) && lines != []
    ensures |lines[0]| <= |output| && output[..|lines[0]|] == lines[0] && lines[0] != []
    ensures IsTerminated(lines[0]) || (IsOpen(lines[0]) && lines[0] == output)
  {
    assert output == lines[0] + Flat(lines[1..]);
  }

  lemma NotShorter(a: seq<bytes>, b: seq<bytes>, output: bytes)
    requires IsSplit(a, output) && IsSplit(b, output) && a != [] && b != []
    ensures |a[0]| >= |b[0]|
  {
    FirstLineIsPrefix(a, output);
    FirstLineIsPrefix(b, output);
    if |a[0]| < |b[0]| {
      assert false;
    }
  }

  /** The first newline at or after a position. */
  method Find(s: bytes, from: nat) returns (at: Option<nat>)
    requires from <= |s|
    ensures at.None? ==> NEWLINE !in s[from..]
    ensures at.Some? ==> from <= at.value < |s| && s[at.value] == NEWLINE && NEWLINE !in s[from..at.value]
  {
    var i := from;
    while i < |s|
      invariant from <= i <= |s| && NEWLINE !in s[from..i]
    {
      if s[i] == NEWLINE {
        return Some(i);
      }
      assert s[from..i + 1] == s[from..i] + [s[i]];
      i := i + 1;
    }
    return None;
  }

  /**
   The reading loop. The callback's lines depend on the output as a whole only, not on how it was divided into reads:
   they are the one split of it into lines.
   */
  method ReportLines(chunks: seq<bytes>) returns (output: bytes, lines: seq<bytes>)
    ensures output == Flat(chunks)
    ensures IsSplit(lines, output)
    ensures forall other | IsSplit(other, output) :: other == lines
  {
    output, lines := [], [];
    var accumulator: bytes := [];
    for i := 0 to |chunks|
      invariant output == Flat(chunks[..i]) == Flat(lines) + accumulator
      invariant (forall k | 0 <= k < |lines| :: IsTerminated(lines[k])) && NEWLINE !in accumulator
    {
      assert chunks[..i + 1] == chunks[..i] + [chunks[i]];
      FlatAppend(chunks[..i], chunks[i]);
      output := output + chunks[i];
      accumulator := accumulator + chunks[i];
      lines, accumulator := ReportTerminated(lines, accumulator);
    }
    assert chunks[..|chunks|] == chunks;
    if accumulator != [] {
      FlatAppend(lines, accumulator);
      lines := lines + [accumulator];
    }
    ghost var all := lines;
    forall other | IsSplit(other, output) ensures other == all {
      SplitIsUnique(other, all, output);
    }
  }

  /** Reports every complete line and keeps the rest. */
  method ReportTerminated(reported: seq<bytes>, accumulated: bytes) returns (lines: seq<bytes>, accumulator: bytes)
    requires forall k | 0 <= k < |reported| :: IsTerminated(reported[k])
    ensures Flat(lines) + accumulator == Flat(reported) + accumulated
    ensures (forall k | 0 <= k < |lines| :: IsTerminated(lines[k])) && NEWLINE !in accumulator
  {
    lines, accumulator := reported, accumulated;
    var position := 0;
    var newline := Find(accumulator, 0);
    while newline.Some?
      invariant accumulator == accumulated && position <= |accumulator|
      invariant Flat(lines) + accumulator[position..] == Flat(reported) + accumulated
      invariant forall k | 0 <= k < |lines| :: IsTerminated(lines[k])
      invariant newline.None? ==> NEWLINE !in accumulator[position..]
      invariant newline.Some? ==> position <= newline.value < |accumulator| && accumulator[newline.value] == NEWLINE
                                  && NEWLINE !in accumulator[position..newline.value]
      decreases |accumulator| - position
    {
      var next := newline.value + 1;
      var line := accumulator[position..next];
      assert line[..|line| - 1] == accumulator[position..newline.value];
      assert accumulator[position..] == line + accumulator[next..];
      FlatAppend(lines, line);
      assert Flat(lines) + (line + accumulator[next..]) == Flat(lines) + line + accumulator[next..];
      lines := lines + [line];
      position := next;
      newline := Find(accumulator, position);
    }
    accumulator := accumulator[position..];
  }
}
