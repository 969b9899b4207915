/**
 The internal packet format of one cached channel: the size of the metadata and the metadata, the number of frames,
 their sizes, and their bytes back to back.
 */
module PacketFiles {
  import opened Wrappers
  import opened Bytes
  import opened Sequences

  type Frames = seq<bytes>

  datatype SourceInfo = SourceInfo(path: string, size: nat, checksum: string)

  /** What a cached file says about the build that wrote it. */
  datatype Fingerprint = Fingerprint(
    version: nat,
    sampleRate: nat,
    channels: nat,
    frameMs: nat,
    primingFrames: nat,
    bitrate: nat,
    fec: bool,
    opusVersion: string)

  const CHANNELS: nat := 17

  function Build(opusVersion: string): Fingerprint {
    Fingerprint(3, 48000, CHANNELS, 10, 4, 256000, true, opusVersion)
  }

  datatype Metadata = Metadata(fingerprint: Fingerprint, info: SourceInfo)

  /** The JSON library: writing fails on a path that is not valid text. */
  datatype Json = Json(dump: Metadata -> Option<bytes>, parse: bytes -> Option<Metadata>)
  {
    ghost predicate Lawful() {
      forall m :: dump(m).Some? ==> parse(dump(m).value) == Some(m)
    }
  }

  const MAX_METADATA_SIZE: nat := 64 * 1024
  const MAX_FRAME_COUNT: nat := 2000000
  const MAX_FRAME_SIZE: nat := 8192
  const MAX_TOTAL_DATA_SIZE: nat := 512 * 1024 * 1024

  function SizesOf(frames: Frames): (sizes: seq<nat>)
    ensures |sizes| == |frames|
  {
    if frames == [] then [] else [|frames[0]|] + SizesOf(frames[1..])
  }

  /** The table of sizes, as written. */
  function Table(sizes: seq<nat>): (b: bytes)
    ensures |b| == 4 * |sizes|
  {
    if sizes == [] then [] else Word(sizes[0]) + Table(sizes[1..])
  }

  function Body(frames: Frames): bytes {
    Word(|frames|) + (Table(SizesOf(frames)) + Flat(frames))
  }

  function Layout(metadata: bytes, frames: Frames): bytes {
    Word(|metadata|) + (metadata + Body(frames))
  }

  /** For example: a metadata text of one byte, and two frames of two bytes and one. */
  lemma LayoutForExample()
    ensures Layout([7], [[8, 9], [10]])
            == [1, 0, 0, 0] + [7] + [2, 0, 0, 0] + [2, 0, 0, 0] + [1, 0, 0, 0] + [8, 9] + [10]
  {
    WordIsLittleEndian(1, 0, 0, 0);
    WordIsLittleEndian(2, 0, 0, 0);
    var frames: Frames := [[8, 9], [10]];
    assert frames[1..] == [[10]] && frames[1..][1..] == [];
    assert SizesOf(frames[1..]) == [1] && SizesOf(frames) == [2, 1];
    assert [2, 1][1..] == [1];
    assert Table([1]) == [1, 0, 0, 0] + [] && Table([2, 1]) == [2, 0, 0, 0] + [1, 0, 0, 0];
    assert Flat(frames[1..]) == [10] + [] && Flat(frames) == [8, 9] + [10];
  }

  predicate AllSmall(frames: Frames, limit: nat) {
    frames == [] || (|frames[0]| <= limit && AllSmall(frames[1..], limit))
  }

  predicate FramesAllowed(frames: Frames) {
    && 1 <= |frames| <= MAX_FRAME_COUNT
    && AllSmall(frames, MAX_FRAME_SIZE)
    && |Flat(frames)| <= MAX_TOTAL_DATA_SIZE
  }

  /** What a reader accepts. */
  predicate Admissible(metadata: bytes, frames: Frames) {
    1 <= |metadata| <= MAX_METADATA_SIZE && FramesAllowed(frames)
  }

  /** What a writer need not cut off. */
  predicate Writable(metadata: bytes, frames: Frames) {
    |metadata| < WORD_LIMIT && |frames| < WORD_LIMIT && AllSmall(frames, WORD_LIMIT - 1)
  }

  // ----- Reading: each function takes what is left of the file -----

  function Sizes(rest: bytes, count: nat): (sizes: seq<nat>)
    requires 4 * count <= |rest|
    ensures |sizes| == count
    decreases count
  {
    if count == 0 then [] else [FirstWord(rest)] + Sizes(rest[4..], count - 1)
  }

  /** The frames of the given sizes, unless one is too large, is not all there, or is more than the budget allows. */
  function Cut(rest: bytes, sizes: seq<nat>, budget: int): Option<Frames> {
    if sizes == [] then Some([])
    else if sizes[0] > MAX_FRAME_SIZE || sizes[0] > budget || sizes[0] > |rest| then None
    else
      var others := Cut(rest[sizes[0]..], sizes[1..], budget - sizes[0]);
      if others.None? then None else Some([rest[..sizes[0]]] + others.value)
  }

  function MetadataIn(file: bytes): Option<(bytes, bytes)> {
    if |file| < 4 then None
    else
      var size := FirstWord(file);
      var rest := file[4..];
      if size == 0 || size > MAX_METADATA_SIZE || size > |rest| then None else Some((rest[..size], rest[size..]))
  }

  function FramesIn(rest: bytes): Option<Frames> {
    if |rest| < 4 then None
    else
      var count := FirstWord(rest);
      var table := rest[4..];
      if count == 0 || count > MAX_FRAME_COUNT || 4 * count > |table| then None
      else Cut(table[4 * count..], Sizes(table, count), MAX_TOTAL_DATA_SIZE)
  }

  /** The two parts of a packet file; whatever follows the last frame is not looked at. */
  function Parts(file: bytes): Option<(bytes, Frames)> {
    var metadata := MetadataIn(file);
    if metadata.None? then None
    else
      var frames := FramesIn(metadata.value.1);
      if frames.None? then None else Some((metadata.value.0, frames.value))
  }

  // ----- Exactly the files that begin with an admissible layout are accepted -----

  lemma {:induction false} TableIsReadBack(sizes: seq<nat>, others: bytes)
    requires forall i | 0 <= i < |sizes| :: sizes[i] < WORD_LIMIT
    ensures Sizes(Table(sizes) + others, |sizes|) == sizes && (Table(sizes) + others)[4 * |sizes|..] == others
  {
    if sizes != [] {
      assert Table(sizes) + others == Word(sizes[0]) + (Table(sizes[1..]) + others);
      WordIsReadBack(sizes[0], Table(sizes[1..]) + others);
      TableIsReadBack(sizes[1..], others);
    }
  }

  lemma {:induction false} TableIsRewritten(rest: bytes, count: nat)
    requires 4 * count <= |rest|
    ensures Table(Sizes(rest, count)) + rest[4 * count..] == rest
    decreases count
  {
    if count > 0 {
      WordIsRewritten(rest);
      TableIsRewritten(rest[4..], count - 1);
      assert Sizes(rest, count)[1..] == Sizes(rest[4..], count - 1);
      assert rest[4..][4 * (count - 1)..] == rest[4 * count..];
    }
  }

  lemma {:induction false} SmallSizes(frames: Frames, limit: nat)
    requires AllSmall(frames, limit)
    ensures forall i | 0 <= i < |frames| :: SizesOf(frames)[i] <= limit
  {
    if frames != [] {
      SmallSizes(frames[1..], limit);
    }
  }

  lemma {:induction false} FramesAreCutBack(frames: Frames, others: bytes, budget: int)
    requires AllSmall(frames, MAX_FRAME_SIZE) && |Flat(frames)| <= budget
    ensures Cut(Flat(frames) + others, SizesOf(frames), budget) == Some(frames)
  {
    if frames != [] {
      var first := frames[0];
      var left := Flat(frames[1..]) + others;
      FramesAreCutBack(frames[1..], others, budget - |first|);
      assert Flat(frames) + others == first + left;
      assert (first + left)[..|first|] == first && (first + left)[|first|..] == left;
      assert SizesOf(frames)[1..] == SizesOf(frames[1..]);
      assert frames == [first] + frames[1..];
    }
  }

  lemma {:induction false} CutsAreFlat(rest: bytes, sizes: seq<nat>, budget: int) returns (others: bytes)
    requires Cut(rest, sizes, budget).Some?
    ensures var frames := Cut(rest, sizes, budget).value;
            && SizesOf(frames) == sizes && Flat(frames) + others == rest
            && AllSmall(frames, MAX_FRAME_SIZE) && (|Flat(frames)| <= budget || frames == [])
  {
    if sizes == [] {
      others := rest;
    } else {
      var frames := Cut(rest, sizes, budget).value;
      var left := rest[sizes[0]..];
      others := CutsAreFlat(left, sizes[1..], budget - sizes[0]);
      assert frames[1..] == Cut(left, sizes[1..], budget - sizes[0]).value;
      assert rest == frames[0] + left == frames[0] + Flat(frames[1..]) + others;
    }
  }

  lemma BodyThen(frames: Frames, others: bytes)
    ensures Body(frames) + others == Word(|frames|) + (Table(SizesOf(frames)) + (Flat(frames) + others))
  {
    Regrouped(Table(SizesOf(frames)), Flat(frames), others);
    Regrouped(Word(|frames|), Table(SizesOf(frames)) + Flat(frames), others);
  }

  lemma BodyIsRead(frames: Frames, others: bytes)
    requires FramesAllowed(frames)
    ensures FramesIn(Body(frames) + others) == Some(frames)
  {
    AllSmallWeakens(frames, MAX_FRAME_SIZE, WORD_LIMIT - 1);
    BodyBegins(Body(frames) + others, frames, others);
    FramesAreCutBack(frames, others, MAX_TOTAL_DATA_SIZE);
  }

  lemma BodyIsRewritten(rest: bytes) returns (others: bytes)
    requires FramesIn(rest).Some?
    ensures Body(FramesIn(rest).value) + others == rest && FramesAllowed(FramesIn(rest).value)
  {
    var frames := FramesIn(rest).value;
    var count := FirstWord(rest);
    var table := rest[4..];
    others := CutsAreFlat(table[4 * count..], Sizes(table, count), MAX_TOTAL_DATA_SIZE);
    TableIsRewritten(table, count);
    WordIsRewritten(rest);
    BodyThen(frames, others);
  }

  lemma MetadataIsRead(metadata: bytes, rest: bytes)
    requires 1 <= |metadata| <= MAX_METADATA_SIZE
    ensures MetadataIn(Word(|metadata|) + (metadata + rest)) == Some((metadata, rest))
  {
    WordIsReadBack(|metadata|, metadata + rest);
  }

  lemma MetadataIsRewritten(file: bytes)
    requires MetadataIn(file).Some?
    ensures var (metadata, rest) := MetadataIn(file).value;
            Word(|metadata|) + (metadata + rest) == file && 1 <= |metadata| <= MAX_METADATA_SIZE
  {
    WordIsRewritten(file);
    assert file[4..] == MetadataIn(file).value.0 + MetadataIn(file).value.1;
  }

  lemma LayoutThen(metadata: bytes, frames: Frames, others: bytes)
    ensures Layout(metadata, frames) + others == Word(|metadata|) + (metadata + (Body(frames) + others))
  {
    Regrouped(metadata, Body(frames), others);
    Regrouped(Word(|metadata|), metadata + Body(frames), others);
  }

  lemma LayoutIsRead(metadata: bytes, frames: Frames, others: bytes)
    requires Admissible(metadata, frames)
    ensures Parts(Layout(metadata, frames) + others) == Some((metadata, frames))
  {
    LayoutThen(metadata, frames, others);
    MetadataIsRead(metadata, Body(frames) + others);
    BodyIsRead(frames, others);
  }

  lemma LayoutIsRewritten(file: bytes) returns (others: bytes)
    requires Parts(file).Some?
    ensures var (metadata, frames) := Parts(file).value;
            Layout(metadata, frames) + others == file && Admissible(metadata, frames)
  {
    var (metadata, frames) := Parts(file).value;
    MetadataIsRewritten(file);
    others := BodyIsRewritten(MetadataIn(file).value.1);
    LayoutThen(metadata, frames, others);
  }

  /**
   The reader accepts a file as a layout if and only if the file begins with it and it is within the limits. So a file
   has at most one reading, and bytes after it change nothing.
   */
  lemma AcceptedExactly(file: bytes, metadata: bytes, frames: Frames)
    ensures Parts(file) == Some((metadata, frames)) <==>
              Layout(metadata, frames) <= file && Admissible(metadata, frames)
  {
    if Layout(metadata, frames) <= file && Admissible(metadata, frames) {
      var layout := Layout(metadata, frames);
      assert file == layout + file[|layout|..];
      LayoutIsRead(metadata, frames, file[|layout|..]);
    }
    if Parts(file) == Some((metadata, frames)) {
      var others := LayoutIsRewritten(file);
    }
  }

  /** A torn file is never taken for a whole one: every strict prefix of a layout is refused. */
  lemma StrictPrefixIsRefused(torn: bytes, metadata: bytes, frames: Frames)
    requires Writable(metadata, frames) && torn < Layout(metadata, frames)
    ensures Parts(torn).None?
  {
    if Parts(torn).Some? {
      var (m, f) := Parts(torn).value;
      var others := LayoutIsRewritten(torn);
      ReadPrefixIsWhole(torn, m, f, others, metadata, frames);
      assert false;
    }
  }

  lemma ReadPrefixIsWhole(torn: bytes, m: bytes, f: Frames, others: bytes, metadata: bytes, frames: Frames)
    requires torn == Layout(m, f) + others && Admissible(m, f)
    requires torn <= Layout(metadata, frames) && Writable(metadata, frames)
    ensures m == metadata && f == frames
  {
    var layout := Layout(metadata, frames);
    var missing := layout[|torn|..];
    assert layout == torn + missing && layout == layout + [];
    Regrouped(Layout(m, f), others, missing);
    AllSmallWeakens(f, MAX_FRAME_SIZE, WORD_LIMIT - 1);
    SameLayout(m, f, others + missing, metadata, frames, []);
  }

  lemma {:induction false} AllSmallWeakens(frames: Frames, limit: nat, more: nat)
    requires AllSmall(frames, limit) && limit <= more
    ensures AllSmall(frames, more)
  {
    if frames != [] {
      AllSmallWeakens(frames[1..], limit, more);
    }
  }

  /** Two layouts that one file begins with are the same, whether or not a reader would accept them. */
  lemma SameLayout(m: bytes, f: Frames, x: bytes, n: bytes, g: Frames, y: bytes)
    requires Layout(m, f) + x == Layout(n, g) + y && Writable(m, f) && Writable(n, g)
    ensures m == n && f == g
  {
    var file := Layout(m, f) + x;
    LayoutThen(m, f, x);
    LayoutThen(n, g, y);
    WordBegins(file, |m|, m + (Body(f) + x));
    WordBegins(file, |n|, n + (Body(g) + y));
    SameBeginning(m, Body(f) + x, n, Body(g) + y);
    SameBody(Body(f) + x, f, x, g, y);
  }

  lemma WordBegins(file: bytes, n: nat, others: bytes)
    requires file == Word(n) + others && n < WORD_LIMIT
    ensures |file| >= 4 && FirstWord(file) == n && file[4..] == others
  {
    WordIsReadBack(n, others);
  }

  lemma SameBody(rest: bytes, f: Frames, x: bytes, g: Frames, y: bytes)
    requires rest == Body(f) + x && rest == Body(g) + y && |f| < WORD_LIMIT && |g| < WORD_LIMIT
    requires AllSmall(f, WORD_LIMIT - 1) && AllSmall(g, WORD_LIMIT - 1)
    ensures f == g
  {
    BodyBegins(rest, f, x);
    BodyBegins(rest, g, y);
    SameFrames(f, x, g, y);
  }

  lemma BodyBegins(rest: bytes, f: Frames, x: bytes)
    requires rest == Body(f) + x && |f| < WORD_LIMIT && AllSmall(f, WORD_LIMIT - 1)
    ensures |rest| >= 4 + 4 * |f| && FirstWord(rest) == |f|
    ensures Sizes(rest[4..], |f|) == SizesOf(f) && rest[4..][4 * |f|..] == Flat(f) + x
  {
    BodyThen(f, x);
    WordBegins(rest, |f|, Table(SizesOf(f)) + (Flat(f) + x));
    SmallSizes(f, WORD_LIMIT - 1);
    TableBegins(rest[4..], SizesOf(f), Flat(f) + x);
  }

  lemma TableBegins(rest: bytes, sizes: seq<nat>, data: bytes)
    requires rest == Table(sizes) + data && forall i | 0 <= i < |sizes| :: sizes[i] < WORD_LIMIT
    ensures |rest| >= 4 * |sizes| && Sizes(rest, |sizes|) == sizes && rest[4 * |sizes|..] == data
  {
    TableIsReadBack(sizes, data);
  }

  lemma {:induction false} SameFrames(f: Frames, x: bytes, g: Frames, y: bytes)
    requires Flat(f) + x == Flat(g) + y && SizesOf(f) == SizesOf(g)
    ensures f == g
  {
    if f != [] {
      assert SizesOf(f)[1..] == SizesOf(f[1..]) && SizesOf(g)[1..] == SizesOf(g[1..]);
      assert SizesOf(f)[0] == |f[0]| && SizesOf(g)[0] == |g[0]|;
      assert Flat(f) + x == f[0] + (Flat(f[1..]) + x) && Flat(g) + y == g[0] + (Flat(g[1..]) + y);
      SameBeginning(f[0], Flat(f[1..]) + x, g[0], Flat(g[1..]) + y);
      SameFrames(f[1..], x, g[1..], y);
      assert f == [f[0]] + f[1..] && g == [g[0]] + g[1..];
    }
  }

  // ----- The reader and the writer, with the metadata -----

  /** What a reader knows besides the file: the library, its own build, and which recorded sources exist now. */
  datatype Reader = Reader(json: Json, build: Fingerprint, modTimes: map<string, int>)

  datatype Loaded = Loaded(frames: Frames, info: SourceInfo, modTime: int)

  function InfoIn(reader: Reader, metadata: bytes): Option<SourceInfo> {
    var parsed := reader.json.parse(metadata);
    if parsed.None? || parsed.value.fingerprint != reader.build || parsed.value.info.path !in reader.modTimes then None
    else Some(parsed.value.info)
  }

  function Load(reader: Reader, file: bytes): (loaded: Option<Loaded>)
    ensures loaded.Some? ==>
              && loaded.value.info.path in reader.modTimes
              && loaded.value.modTime == reader.modTimes[loaded.value.info.path]
  {
    var parts := Parts(file);
    if parts.None? then None
    else
      var info := InfoIn(reader, parts.value.0);
      if info.None? then None else Some(Loaded(parts.value.1, info.value, reader.modTimes[info.value.path]))
  }

  function Stored(json: Json, build: Fingerprint, info: SourceInfo, frames: Frames): Option<bytes> {
    var metadata := json.dump(Metadata(build, info));
    if metadata.None? then None else Some(Layout(metadata.value, frames))
  }

  /**
   Of the beginnings of a saved file, only the whole is loaded, and gives back what was saved: exactly when that is
   within the limits, the build is the one that saved it, and the recorded source still exists.
   */
  lemma SavedIsLoaded(reader: Reader, build: Fingerprint, info: SourceInfo, frames: Frames, file: bytes)
    requires reader.json.Lawful() && reader.json.dump(Metadata(build, info)).Some?
    requires Writable(reader.json.dump(Metadata(build, info)).value, frames)
    requires file <= Stored(reader.json, build, info, frames).value
    ensures var metadata := reader.json.dump(Metadata(build, info)).value;
            var accepted := && file == Stored(reader.json, build, info, frames).value && Admissible(metadata, frames)
                            && build == reader.build && info.path in reader.modTimes;
            Load(reader, file) == if accepted then Some(Loaded(frames, info, reader.modTimes[info.path])) else None
  {
    var metadata := reader.json.dump(Metadata(build, info)).value;
    var layout := Layout(metadata, frames);
    AcceptedExactly(file, metadata, frames);
    if file < layout {
      StrictPrefixIsRefused(file, metadata, frames);
    } else if Parts(file).Some? {
      var (m, f) := Parts(file).value;
      var others := LayoutIsRewritten(file);
      ReadPrefixIsWhole(file, m, f, others, metadata, frames);
    }
  }

  /**
   Between servers of this version only the Opus library tells builds apart: a whole saved file within the limits is
   loaded by exactly those that have the one it was saved with.
   */
  lemma OnlyOpusTellsBuildsApart(reader: Reader, running: string, saved: string, info: SourceInfo, frames: Frames)
    requires reader.build == Build(running) && reader.json.Lawful() && info.path in reader.modTimes
    requires reader.json.dump(Metadata(Build(saved), info)).Some?
    requires Admissible(reader.json.dump(Metadata(Build(saved), info)).value, frames)
    ensures Load(reader, Stored(reader.json, Build(saved), info, frames).value).Some? <==> running == saved
  {
    var metadata := reader.json.dump(Metadata(Build(saved), info)).value;
    AllSmallWeakens(frames, MAX_FRAME_SIZE, WORD_LIMIT - 1);
    SavedIsLoaded(reader, Build(saved), info, frames, Layout(metadata, frames));
  }

  /** The reading loops: sizes first, then frame by frame, giving up at the first that is too large or not all there. */
  method LoadPackets(reader: Reader, file: bytes) returns (loaded: Option<Loaded>)
    ensures loaded == Load(reader, file)
  {
    if |file| < 4 {
      return None;
    }
    var size, rest := FirstWord(file), file[4..];
    if size == 0 || size > MAX_METADATA_SIZE || size > |rest| {
      return None;
    }
    var info := InfoIn(reader, rest[..size]);
    if info.None? {
      return None;
    }
    var frames := LoadFrames(rest[size..]);
    if frames.None? {
      return None;
    }
    return Some(Loaded(frames.value, info.value, reader.modTimes[info.value.path]));
  }

  method LoadFrames(body: bytes) returns (frames: Option<Frames>)
    ensures frames == FramesIn(body)
  {
    if |body| < 4 {
      return None;
    }
    var count, rest := FirstWord(body), body[4..];
    if count == 0 || count > MAX_FRAME_COUNT || 4 * count > |rest| {
      return None;
    }
    ghost var table := rest;
    var sizes: seq<nat>;
    sizes, rest := LoadSizes(rest, count);
    frames := CutFrames(rest, sizes);
    assert FramesIn(body) == Cut(table[4 * count..], Sizes(table, count), MAX_TOTAL_DATA_SIZE);
  }

  method LoadSizes(table: bytes, count: nat) returns (sizes: seq<nat>, rest: bytes)
    requires 4 * count <= |table|
    ensures sizes == Sizes(table, count) && rest == table[4 * count..]
  {
    sizes, rest := [], table;
    for i := 0 to count
      invariant |sizes| == i && 4 * (count - i) <= |rest|
      invariant sizes + Sizes(rest, count - i) == Sizes(table, count)
      invariant rest == table[4 * i..]
    {
      SizeIsRead(sizes, rest, count - i);
      sizes := sizes + [FirstWord(rest)];
      rest := rest[4..];
    }
  }

  lemma SizeIsRead(sizes: seq<nat>, rest: bytes, count: nat)
    requires count > 0 && 4 * count <= |rest|
    ensures sizes + [FirstWord(rest)] + Sizes(rest[4..], count - 1) == sizes + Sizes(rest, count)
  {
  }

  method CutFrames(data: bytes, sizes: seq<nat>) returns (frames: Option<Frames>)
    ensures frames == Cut(data, sizes, MAX_TOTAL_DATA_SIZE)
  {
    var read: Frames, total: nat, rest := [], 0, data;
    assert sizes[0..] == sizes;
    assert forall frames: Frames :: [] + frames == frames;
    for i := 0 to |sizes|
      invariant total <= MAX_TOTAL_DATA_SIZE
      invariant Prepended(read, Cut(rest, sizes[i..], MAX_TOTAL_DATA_SIZE - total))
                == Cut(data, sizes, MAX_TOTAL_DATA_SIZE)
    {
      if sizes[i] > MAX_FRAME_SIZE {
        return None;
      }
      total := total + sizes[i];
      if total > MAX_TOTAL_DATA_SIZE {
        return None;
      }
      if sizes[i] > |rest| {
        return None;
      }
      assert sizes[i..][1..] == sizes[i + 1..];
      PrependedTwice(read, rest[..sizes[i]], Cut(rest[sizes[i]..], sizes[i + 1..], MAX_TOTAL_DATA_SIZE - total));
      read := read + [rest[..sizes[i]]];
      rest := rest[sizes[i]..];
    }
    assert read + [] == read;
    return Some(read);
  }

  function Prepended(read: Frames, frames: Option<Frames>): Option<Frames> {
    if frames.None? then None else Some(read + frames.value)
  }

  lemma PrependedTwice(read: Frames, frame: bytes, frames: Option<Frames>)
    ensures Prepended(read, Prepended([frame], frames)) == Prepended(read + [frame], frames)
  {
    if frames.Some? {
      assert read + ([frame] + frames.value) == read + [frame] + frames.value;
    }
  }

  /** The writing loops. */
  method SavePackets(json: Json, build: Fingerprint, info: SourceInfo, frames: Frames) returns (file: Option<bytes>)
    ensures file == Stored(json, build, info, frames)
  {
    var metadata := json.dump(Metadata(build, info));
    if metadata.None? {
      return None;
    }
    var table := SaveTable(frames);
    var data := SaveData(frames);
    return Some(Word(|metadata.value|) + (metadata.value + (Word(|frames|) + (table + data))));
  }

  method SaveTable(frames: Frames) returns (table: bytes)
    ensures table == Table(SizesOf(frames))
  {
    table := [];
    for i := 0 to |frames|
      invariant table + Table(SizesOf(frames[i..])) == Table(SizesOf(frames))
    {
      assert SizesOf(frames[i..])[1..] == SizesOf(frames[i..][1..]) && frames[i..][1..] == frames[i + 1..];
      assert table + Table(SizesOf(frames[i..])) == table + Word(|frames[i]|) + Table(SizesOf(frames[i + 1..]));
      table := table + Word(|frames[i]|);
    }
  }

  method SaveData(frames: Frames) returns (data: bytes)
    ensures data == Flat(frames)
  {
    data := [];
    for i := 0 to |frames|
      invariant data + Flat(frames[i..]) == Flat(frames)
    {
      assert frames[i..][1..] == frames[i + 1..];
      assert data + Flat(frames[i..]) == data + frames[i] + Flat(frames[i + 1..]);
      data := data + frames[i];
    }
  }
}
