/**
 One cache directory and what may happen to it, one file operation at a time. Any operation may fail, a write may keep
 only a beginning of its bytes with or without the stream noticing, and the process may stop between any two operations.
 */
module CacheDirectories {
  import opened Wrappers
  import opened Bytes
  import opened PacketFiles

  datatype FileName = Marker | MarkerTemporary | Channel(n: nat) | Temporary(n: nat)

  type Files = map<FileName, bytes>

  /** A request to save, with its metadata as the JSON library of the build that saves wrote it. */
  datatype Save = Save(info: SourceInfo, channels: seq<Frames>, build: Fingerprint, metadata: Option<bytes>)

  predicate AllOfCount(channels: seq<Frames>, count: nat) {
    forall c | 0 <= c < |channels| :: |channels[c]| == count
  }

  /** Seventeen channels of one nonzero number of frames. */
  predicate Uniform(channels: seq<Frames>) {
    |channels| == CHANNELS && |channels[0]| > 0 && AllOfCount(channels, |channels[0]|)
  }

  predicate Fits(save: Save) {
    save.metadata.Some? ==>
      forall c | 0 <= c < |save.channels| :: Writable(save.metadata.value, save.channels[c])
  }

  function Image(save: Save, c: nat): bytes
    requires save.metadata.Some? && c < |save.channels|
  {
    Layout(save.metadata.value, save.channels[c])
  }

  datatype Pc =
    | Idle
    | Unmarking(save: Save)
    | Preparing(save: Save, channel: nat)      // about to remove the channel's temporary file
    | Writing(save: Save, channel: nat)
    | Publishing(save: Save, channel: nat)     // about to rename the temporary file
    | Unblocking(save: Save, channel: nat)     // about to remove the file in the way of the rename
    | Retrying(save: Save, channel: nat)
    | Marking(save: Save)
    | PublishingMarker(save: Save)
    | Clearing

  // The completed saves are history: no operation reads them.
  datatype Disk = Disk(files: Files, pc: Pc, completed: seq<Save>)

  const EMPTY := Disk(map[], Idle, [])

  datatype Act =
    | BeginSave(save: Save)
    | BeginClear
    | MarkerRemoved(ok: bool)
    | TemporaryRemoved(ok: bool)
    | Written(kept: nat, seen: bool)           // how much reached the file; whether the stream reported an error
    | WriteRefused(created: bool)              // the file cannot be opened, or the metadata cannot be written
    | Renamed(ok: bool)
    | BlockerRemoved(ok: bool)
    | MarkerWritten(kept: nat, seen: bool)
    | MarkerRenamed(ok: bool)
    | Deleted(name: FileName)
    | ClearEnds
    | Stops                                    // a crash, or an exception that leaves the operation

  predicate Can(d: Disk, act: Act) {
    match act
    case BeginSave(save) => d.pc.Idle? && Uniform(save.channels) && Fits(save)
    case BeginClear => d.pc.Idle?
    case MarkerRemoved(_) => d.pc.Unmarking?
    case TemporaryRemoved(_) => d.pc.Preparing?
    case Written(_, _) => d.pc.Writing? && d.pc.save.metadata.Some? && d.pc.channel < |d.pc.save.channels|
    case WriteRefused(_) => d.pc.Writing?
    case Renamed(_) => (d.pc.Publishing? || d.pc.Retrying?) && Temporary(d.pc.channel) in d.files
    case BlockerRemoved(_) => d.pc.Unblocking?
    case MarkerWritten(_, _) => d.pc.Marking?
    case MarkerRenamed(_) => d.pc.PublishingMarker? && MarkerTemporary in d.files
    case Deleted(_) => d.pc.Clearing?
    case ClearEnds => d.pc.Clearing?
    case Stops => true
  }

  function Beginning(b: bytes, kept: nat): (p: bytes)
    ensures p <= b
  {
    if kept < |b| then b[..kept] else b
  }

  /** The text of the format version. */
  const MARKER_TEXT: bytes := [51]

  function Moved(files: Files, from: FileName, to: FileName): Files
    requires from in files
  {
    files[to := files[from]] - {from}
  }

  function AfterChannel(save: Save, channel: nat): Pc {
    if channel + 1 < CHANNELS then Preparing(save, channel + 1) else Marking(save)
  }

  function FilesAfter(d: Disk, act: Act): Files
    requires Can(d, act)
  {
    match act
    case MarkerRemoved(ok) => if ok then d.files - {Marker} else d.files
    case TemporaryRemoved(ok) => if ok then d.files - {Temporary(d.pc.channel)} else d.files
    case Written(kept, _) => d.files[Temporary(d.pc.channel) := Beginning(Image(d.pc.save, d.pc.channel), kept)]
    case WriteRefused(created) => if created then d.files[Temporary(d.pc.channel) := []] else d.files
    case Renamed(ok) => if ok then Moved(d.files, Temporary(d.pc.channel), Channel(d.pc.channel)) else d.files
    case BlockerRemoved(ok) => if ok then d.files - {Channel(d.pc.channel)} else d.files
    case MarkerWritten(kept, _) => d.files[MarkerTemporary := Beginning(MARKER_TEXT, kept)]
    case MarkerRenamed(ok) => if ok then Moved(d.files, MarkerTemporary, Marker) else d.files
    case Deleted(name) => d.files - {name}
    case _ => d.files
  }

  function PcAfter(d: Disk, act: Act): Pc
    requires Can(d, act)
  {
    match act
    case BeginSave(save) => Unmarking(save)
    case BeginClear => Clearing
    case MarkerRemoved(_) => Preparing(d.pc.save, 0)
    case TemporaryRemoved(_) => Writing(d.pc.save, d.pc.channel)
    case Written(_, seen) => if seen then Clearing else Publishing(d.pc.save, d.pc.channel)
    case WriteRefused(_) => Clearing
    case Renamed(ok) =>
      if ok then AfterChannel(d.pc.save, d.pc.channel)
      else if d.pc.Publishing? then Unblocking(d.pc.save, d.pc.channel)
      else Clearing
    case BlockerRemoved(_) => Retrying(d.pc.save, d.pc.channel)
    case MarkerWritten(_, seen) => if seen then Clearing else PublishingMarker(d.pc.save)
    case MarkerRenamed(ok) => if ok then Idle else Clearing
    case Deleted(_) => Clearing
    case ClearEnds => Idle
    case Stops => Idle
  }

  function CompletedAfter(d: Disk, act: Act): seq<Save>
    requires Can(d, act)
  {
    if act == MarkerRenamed(true) then d.completed + [d.pc.save] else d.completed
  }

  function Next(d: Disk, act: Act): Disk
    requires Can(d, act)
  {
    Disk(FilesAfter(d, act), PcAfter(d, act), CompletedAfter(d, act))
  }

  predicate Possible(d: Disk, acts: seq<Act>)
    decreases |acts|
  {
    acts == [] || (Can(d, acts[0]) && Possible(Next(d, acts[0]), acts[1..]))
  }

  function End(d: Disk, acts: seq<Act>): Disk
    requires Possible(d, acts)
    decreases |acts|
  {
    if acts == [] then d else End(Next(d, acts[0]), acts[1..])
  }

  // ----- Crash safety -----

  /** Channel files that are there, below a number, are beginnings of what the save wrote. */
  predicate WrittenBy(files: Files, save: Save, upTo: nat)
    requires upTo <= |save.channels|
  {
    forall c | 0 <= c < upTo && Channel(c) in files :: save.metadata.Some? && files[Channel(c)] <= Image(save, c)
  }

  /** A directory with a marker holds nothing but (parts of) the latest completed save. */
  predicate Committed(d: Disk) {
    Marker in d.files ==>
      && d.completed != []
      && var latest := d.completed[|d.completed| - 1];
         Uniform(latest.channels) && latest.metadata.Some? && Fits(latest) && WrittenBy(d.files, latest, CHANNELS)
  }

  predicate SavingOk(d: Disk, save: Save, upTo: nat) {
    Marker !in d.files && Uniform(save.channels) && Fits(save) && upTo <= CHANNELS && WrittenBy(d.files, save, upTo)
  }

  predicate TemporaryOk(files: Files, save: Save, c: nat) {
    && c < |save.channels| && save.metadata.Some?
    && Temporary(c) in files && files[Temporary(c)] <= Image(save, c)
  }

  predicate Inv(d: Disk) {
    match d.pc
    case Idle => Committed(d)
    case Clearing => Committed(d)
    case Unmarking(save) => Committed(d) && Uniform(save.channels) && Fits(save)
    case Preparing(save, c) => SavingOk(d, save, c) && c < CHANNELS
    case Writing(save, c) => SavingOk(d, save, c) && c < CHANNELS
    case Publishing(save, c) => SavingOk(d, save, c) && c < CHANNELS && TemporaryOk(d.files, save, c)
    case Unblocking(save, c) => SavingOk(d, save, c) && c < CHANNELS && TemporaryOk(d.files, save, c)
    case Retrying(save, c) => SavingOk(d, save, c) && c < CHANNELS && TemporaryOk(d.files, save, c)
    case Marking(save) => SavingOk(d, save, CHANNELS) && save.metadata.Some?
    case PublishingMarker(save) => SavingOk(d, save, CHANNELS) && save.metadata.Some? && MarkerTemporary in d.files
  }

  /** Every operation keeps the invariant, whether it fails or not, save one: removing the marker has to succeed. */
  lemma NextKeepsInv(d: Disk, act: Act)
    requires Inv(d) && Can(d, act) && act != MarkerRemoved(false)
    ensures Inv(Next(d, act))
  {
    if act.Renamed? && act.ok {
      RenamedKeepsInv(d);
    }
  }

  lemma RenamedKeepsInv(d: Disk)
    requires Inv(d) && Can(d, Renamed(true))
    ensures Inv(Next(d, Renamed(true)))
  {
    var save, c := d.pc.save, d.pc.channel;
    var files := Moved(d.files, Temporary(c), Channel(c));
    forall k | 0 <= k < c + 1 && Channel(k) in files
      ensures save.metadata.Some? && files[Channel(k)] <= Image(save, k) {
    }
  }

  predicate MarkerComesOff(acts: seq<Act>) {
    MarkerRemoved(false) !in acts
  }

  lemma {:induction false} RunKeepsInv(d: Disk, acts: seq<Act>)
    requires Inv(d) && Possible(d, acts) && MarkerComesOff(acts)
    ensures Inv(End(d, acts))
    decreases |acts|
  {
    if acts != [] {
      NextKeepsInv(d, acts[0]);
      RunKeepsInv(Next(d, acts[0]), acts[1..]);
    }
  }

  lemma CrashSafety(acts: seq<Act>)
    requires Possible(EMPTY, acts) && MarkerComesOff(acts)
    ensures Committed(End(EMPTY, acts))
  {
    RunKeepsInv(EMPTY, acts);
  }

  // ----- Loading -----

  datatype LoadResult = Hit(channels: seq<Frames>) | Miss(clears: bool)

  /** The comparison the loader makes, which includes the time of the recorded source's last change. */
  predicate SameSource(reader: Reader, current: SourceInfo, loaded: Loaded)
    requires current.path in reader.modTimes
  {
    && loaded.info.path == current.path && loaded.modTime == reader.modTimes[current.path]
    && loaded.info.size == current.size && loaded.info.checksum == current.checksum
  }

  predicate AllFilesExist(files: Files) {
    Marker in files && forall c | 0 <= c < CHANNELS :: Channel(c) in files
  }

  function ChannelIn(reader: Reader, file: bytes, current: SourceInfo, count: nat): Option<Frames>
    requires current.path in reader.modTimes
  {
    var loaded := Load(reader, file);
    if loaded.None? || |loaded.value.frames| != count || !SameSource(reader, current, loaded.value) then None
    else Some(loaded.value.frames)
  }

  /** Each channel's frames, if it is readable, has the frames it should, and names the source. */
  function ChannelsIn(reader: Reader, files: Files, current: SourceInfo, count: nat): (parts: seq<Option<Frames>>)
    requires AllFilesExist(files) && current.path in reader.modTimes
    ensures |parts| == CHANNELS
    ensures forall c | 0 <= c < CHANNELS :: parts[c] == ChannelIn(reader, files[Channel(c)], current, count)
  {
    seq(CHANNELS, c requires 0 <= c < CHANNELS => ChannelIn(reader, files[Channel(c)], current, count))
  }

  function Together<T>(parts: seq<Option<T>>): Option<seq<T>> {
    if parts == [] then Some([])
    else
      var front := Together(parts[..|parts| - 1]);
      var last := parts[|parts| - 1];
      if front.None? || last.None? then None else Some(front.value + [last.value])
  }

  lemma {:induction false} TogetherExactly<T>(parts: seq<Option<T>>, all: seq<T>)
    ensures Together(parts) == Some(all) <==>
              |all| == |parts| && forall i | 0 <= i < |all| :: parts[i] == Some(all[i])
  {
    if parts != [] {
      var n := |parts| - 1;
      if |all| == |parts| {
        TogetherExactly(parts[..n], all[..n]);
        assert all == all[..n] + [all[n]];
      } else {
        TogetherIsAsLong(parts);
      }
    }
  }

  lemma {:induction false} TogetherIsAsLong<T>(parts: seq<Option<T>>)
    ensures Together(parts).Some? ==> |Together(parts).value| == |parts|
  {
    if parts != [] {
      TogetherIsAsLong(parts[..|parts| - 1]);
    }
  }

  function LoadAll(reader: Reader, files: Files, current: SourceInfo): LoadResult
    requires current.path in reader.modTimes
  {
    if !AllFilesExist(files) then Miss(false)
    else
      var first := Load(reader, files[Channel(0)]);
      if first.None? then Miss(true)
      else
        var channels := Together(ChannelsIn(reader, files, current, |first.value.frames|));
        if channels.None? then Miss(true) else Hit(channels.value)
  }

  /** A miss clears the directory exactly if nothing was missing from it: neither the marker nor a channel. */
  lemma MissClearsExactly(reader: Reader, files: Files, current: SourceInfo)
    requires current.path in reader.modTimes
    ensures LoadAll(reader, files, current).Miss? ==>
              (LoadAll(reader, files, current).clears
               <==> Marker in files && forall c: nat | c < CHANNELS :: Channel(c) in files)
  {
  }

  predicate Described(json: Json, save: Save) {
    save.metadata.Some? ==> save.metadata == json.dump(Metadata(save.build, save.info))
  }

  lemma ChannelIsLoadedWhole(reader: Reader, files: Files, save: Save, c: nat)
    requires reader.json.Lawful() && Described(reader.json, save) && Fits(save) && c < |save.channels|
    requires save.metadata.Some? && Channel(c) in files && files[Channel(c)] <= Image(save, c)
    ensures var loaded := Load(reader, files[Channel(c)]);
            loaded.Some? ==> files[Channel(c)] == Image(save, c) && loaded.value.frames == save.channels[c]
                             && loaded.value.info == save.info && reader.build == save.build
  {
    SavedIsLoaded(reader, save.build, save.info, save.channels[c], files[Channel(c)]);
  }

  lemma LoadedChannelsAreSaved(reader: Reader, files: Files, current: SourceInfo, count: nat, save: Save)
    requires AllFilesExist(files) && current.path in reader.modTimes && |save.channels| == CHANNELS
    requires reader.json.Lawful() && Described(reader.json, save) && Fits(save) && save.metadata.Some?
    requires WrittenBy(files, save, CHANNELS)
    ensures var channels := Together(ChannelsIn(reader, files, current, count));
            channels.Some? ==> channels.value == save.channels && save.info == current && save.build == reader.build
  {
    var parts := ChannelsIn(reader, files, current, count);
    if Together(parts).Some? {
      TogetherExactly(parts, Together(parts).value);
      forall c | 0 <= c < CHANNELS
        ensures parts[c] == Some(save.channels[c]) && save.info == current && save.build == reader.build {
        ChannelIsLoadedWhole(reader, files, save, c);
      }
      TogetherExactly(parts, save.channels);
      assert parts[0] == Some(save.channels[0]);
    }
  }

  /**
   Whatever operations ran before, failed, tore their writes or were cut short, a hit is the latest completed save,
   whole, made by this build, and its recorded source is the current one.
   */
  lemma HitIsTheLatestSave(d: Disk, reader: Reader, current: SourceInfo)
    requires Inv(d) && current.path in reader.modTimes && reader.json.Lawful()
    requires forall save | save in d.completed :: Described(reader.json, save)
    ensures var result := LoadAll(reader, d.files, current);
            result.Hit? ==>
              && d.completed != []
              && var latest := d.completed[|d.completed| - 1];
                 result.channels == latest.channels && Uniform(result.channels)
                 && latest.info == current && latest.build == reader.build
  {
    if LoadAll(reader, d.files, current).Hit? {
      var latest := d.completed[|d.completed| - 1];
      var first := Load(reader, d.files[Channel(0)]);
      LoadedChannelsAreSaved(reader, d.files, current, |first.value.frames|, latest);
    }
  }

  /** A save of which every channel is within a reader's limits. */
  predicate Acceptable(save: Save) {
    && Uniform(save.channels) && Fits(save) && save.metadata.Some?
    && forall c | 0 <= c < CHANNELS :: Admissible(save.metadata.value, save.channels[c])
  }

  /** The first channels from one save and the others from another. */
  predicate Mixed(files: Files, newer: Save, older: Save, k: nat) {
    && |newer.channels| == |older.channels| == CHANNELS
    && newer.metadata.Some? && older.metadata.Some? && AllFilesExist(files)
    && forall c | 0 <= c < CHANNELS :: files[Channel(c)] == Image(if c < k then newer else older, c)
  }

  lemma ChannelIsServed(reader: Reader, file: bytes, current: SourceInfo, save: Save, c: nat, count: nat)
    requires Acceptable(save) && Described(reader.json, save) && reader.json.Lawful() && current.path in reader.modTimes
    requires c < CHANNELS && file == Image(save, c)
    ensures ChannelIn(reader, file, current, count)
            == if ServesAs(reader, save, current, count) then Some(save.channels[c]) else None
  {
    SavedIsLoaded(reader, save.build, save.info, save.channels[c], file);
  }

  predicate ServesAs(reader: Reader, save: Save, current: SourceInfo, count: nat) {
    save.build == reader.build && save.info == current && |save.channels| > 0 && |save.channels[0]| == count
  }

  function Blend(newer: seq<Frames>, older: seq<Frames>, k: nat): (channels: seq<Frames>)
    requires |newer| == |older| == CHANNELS && k <= CHANNELS
    ensures |channels| == CHANNELS
    ensures forall c | 0 <= c < CHANNELS :: channels[c] == if c < k then newer[c] else older[c]
  {
    newer[..k] + older[k..]
  }

  ghost predicate Mixture(reader: Reader, files: Files, current: SourceInfo, newer: Save, older: Save, k: nat) {
    && Mixed(files, newer, older, k) && k <= CHANNELS
    && Acceptable(newer) && Acceptable(older) && reader.json.Lawful() && current.path in reader.modTimes
    && Described(reader.json, newer) && Described(reader.json, older)
  }

  lemma MixedChannelsAreLoaded(reader: Reader, files: Files, current: SourceInfo, newer: Save, older: Save, k: nat,
                               count: nat)
    requires Mixture(reader, files, current, newer, older, k)
    ensures var good := && (k > 0 ==> ServesAs(reader, newer, current, count))
                        && (k < CHANNELS ==> ServesAs(reader, older, current, count));
            Together(ChannelsIn(reader, files, current, count))
            == if good then Some(Blend(newer.channels, older.channels, k)) else None
  {
    var parts := ChannelsIn(reader, files, current, count);
    var blend := Blend(newer.channels, older.channels, k);
    forall c | 0 <= c < CHANNELS
      ensures var save := if c < k then newer else older;
              parts[c] == if ServesAs(reader, save, current, count) then Some(blend[c]) else None {
      ChannelIsServed(reader, files[Channel(c)], current, if c < k then newer else older, c, count);
    }
    TogetherExactly(parts, blend);
    assert parts[0].None? || ServesAs(reader, if k > 0 then newer else older, current, count);
    assert parts[CHANNELS - 1].None? || ServesAs(reader, if k < CHANNELS then older else newer, current, count);
    if Together(parts).Some? {
      TogetherExactly(parts, Together(parts).value);
    }
  }

  /**
   What a directory that mixes two saves is taken for. With k = 0 or 17 it is no mixture, and this says exactly when a
   completed save is a hit. Otherwise it is a hit exactly when both saves are of the current source, by this build, with
   the same number of frames; and then it returns channels of both.
   */
  lemma MixedIsLoadedExactly(reader: Reader, files: Files, current: SourceInfo, newer: Save, older: Save, k: nat)
    requires Mixture(reader, files, current, newer, older, k)
    ensures var count := |(if k > 0 then newer else older).channels[0]|;
            var good := && (k > 0 ==> ServesAs(reader, newer, current, count))
                        && (k < CHANNELS ==> ServesAs(reader, older, current, count));
            LoadAll(reader, files, current)
            == if good then Hit(Blend(newer.channels, older.channels, k)) else Miss(true)
  {
    var save := if k > 0 then newer else older;
    var count := |save.channels[0]|;
    ChannelIsServed(reader, files[Channel(0)], current, save, 0, count);
    MixedChannelsAreLoaded(reader, files, current, newer, older, k, count);
    FirstChannelDecides(reader, files, current, save, count);
  }

  /** The first channel alone gives the number of frames, when it is readable. */
  lemma FirstChannelDecides(reader: Reader, files: Files, current: SourceInfo, save: Save, count: nat)
    requires Acceptable(save) && Described(reader.json, save) && reader.json.Lawful() && current.path in reader.modTimes
    requires AllFilesExist(files) && files[Channel(0)] == Image(save, 0)
    requires count == |save.channels[0]|
    ensures LoadAll(reader, files, current) ==
            var channels := Together(ChannelsIn(reader, files, current, count));
            if Load(reader, files[Channel(0)]).None? || channels.None? then Miss(true) else Hit(channels.value)
  {
    SavedIsLoaded(reader, save.build, save.info, save.channels[0], files[Channel(0)]);
  }
}
