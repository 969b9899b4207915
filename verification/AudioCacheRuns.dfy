/**
 All the cache's directories together with the sources they are about: sources are edited and removed at any time,
 builds change, and the directories' operations interleave.
 */
module AudioCacheRuns {
  import opened Wrappers
  import opened Bytes
  import opened PacketFiles
  import opened CacheDirectories

  datatype Source = Source(content: bytes, modTime: int)

  /** The libraries: JSON, SHA-256 in hexadecimal, and the directory a canonical path is cached in. */
  datatype Setting = Setting(json: Json, checksum: bytes -> string, directoryOf: string -> string)

  datatype World = World(sources: map<string, Source>, build: Fingerprint, disks: map<string, Disk>)
  {
    function DiskAt(directory: string): Disk {
      if directory in disks then disks[directory] else EMPTY
    }
  }

  function InfoOf(setting: Setting, path: string, content: bytes): SourceInfo {
    SourceInfo(path, |content|, setting.checksum(content))
  }

  function ReaderIn(setting: Setting, w: World): Reader {
    Reader(setting.json, w.build, map path | path in w.sources :: w.sources[path].modTime)
  }

  datatype Event =
    | Edited(path: string, source: Source)
    | Removed(path: string)
    | Upgraded(build: Fingerprint)
    | SaveBegins(path: string, channels: seq<Frames>)
    | Happens(directory: string, act: Act)

  function SaveOf(setting: Setting, w: World, path: string, channels: seq<Frames>): Save
    requires path in w.sources
  {
    var info := InfoOf(setting, path, w.sources[path].content);
    Save(info, channels, w.build, setting.json.dump(Metadata(w.build, info)))
  }

  predicate CanHappen(setting: Setting, w: World, event: Event) {
    match event
    case SaveBegins(path, channels) =>
      path in w.sources && Can(w.DiskAt(setting.directoryOf(path)), BeginSave(SaveOf(setting, w, path, channels)))
    case Happens(directory, act) => !act.BeginSave? && Can(w.DiskAt(directory), act)
    case _ => true
  }

  function After(setting: Setting, w: World, event: Event): World
    requires CanHappen(setting, w, event)
  {
    match event
    case Edited(path, source) => w.(sources := w.sources[path := source])
    case Removed(path) => w.(sources := w.sources - {path})
    case Upgraded(build) => w.(build := build)
    case SaveBegins(path, channels) =>
      var directory := setting.directoryOf(path);
      w.(disks := w.disks[directory := Next(w.DiskAt(directory), BeginSave(SaveOf(setting, w, path, channels)))])
    case Happens(directory, act) => w.(disks := w.disks[directory := Next(w.DiskAt(directory), act)])
  }

  predicate Possible(setting: Setting, w: World, events: seq<Event>)
    decreases |events|
  {
    events == [] || (CanHappen(setting, w, events[0]) && Possible(setting, After(setting, w, events[0]), events[1..]))
  }

  function End(setting: Setting, w: World, events: seq<Event>): World
    requires Possible(setting, w, events)
    decreases |events|
  {
    if events == [] then w else End(setting, After(setting, w, events[0]), events[1..])
  }

  predicate Fresh(w: World) {
    w.disks == map[]
  }

  // ----- What every history keeps -----

  function Pending(pc: Pc): Option<Save> {
    match pc
    case Idle => None
    case Clearing => None
    case _ => Some(pc.save)
  }

  /** A save in this directory: of a source that is cached here, with an honest description. */
  ghost predicate Honest(setting: Setting, directory: string, save: Save) {
    && setting.directoryOf(save.info.path) == directory
    && Described(setting.json, save)
    && exists content :: save.info == InfoOf(setting, save.info.path, content)
  }

  ghost predicate DiskOk(setting: Setting, directory: string, d: Disk) {
    && Inv(d)
    && (forall save | save in d.completed :: Honest(setting, directory, save))
    && (Pending(d.pc).Some? ==> Honest(setting, directory, Pending(d.pc).value))
  }

  ghost predicate WorldOk(setting: Setting, w: World) {
    forall directory | directory in w.disks :: DiskOk(setting, directory, w.disks[directory])
  }

  lemma ActKeepsDisk(setting: Setting, directory: string, d: Disk, act: Act)
    requires DiskOk(setting, directory, d) && Can(d, act) && act != MarkerRemoved(false)
    requires act.BeginSave? ==> Honest(setting, directory, act.save)
    ensures DiskOk(setting, directory, Next(d, act))
  {
    NextKeepsInv(d, act);
  }

  /** The removal of a directory's marker fails. */
  predicate MarkerSticks(event: Event) {
    event.Happens? && event.act == MarkerRemoved(false)
  }

  predicate MarkersComeOff(events: seq<Event>) {
    forall k | 0 <= k < |events| :: !MarkerSticks(events[k])
  }

  lemma EventKeepsWorld(setting: Setting, w: World, event: Event)
    requires WorldOk(setting, w) && CanHappen(setting, w, event) && !MarkerSticks(event)
    ensures WorldOk(setting, After(setting, w, event))
  {
    match event
    case SaveBegins(path, channels) =>
      var directory := setting.directoryOf(path);
      var save := SaveOf(setting, w, path, channels);
      assert save.info == InfoOf(setting, save.info.path, w.sources[path].content);
      ActKeepsDisk(setting, directory, w.DiskAt(directory), BeginSave(save));
    case Happens(directory, act) =>
      ActKeepsDisk(setting, directory, w.DiskAt(directory), act);
    case _ =>
  }

  lemma {:induction false} HistoryKeepsWorld(setting: Setting, w: World, events: seq<Event>)
    requires WorldOk(setting, w) && Possible(setting, w, events) && MarkersComeOff(events)
    ensures WorldOk(setting, End(setting, w, events))
    decreases |events|
  {
    if events != [] {
      EventKeepsWorld(setting, w, events[0]);
      HistoryKeepsWorld(setting, After(setting, w, events[0]), events[1..]);
    }
  }

  /**
   After every history in which no marker sticks, a hit is exactly the latest save completed in the source's directory,
   whichever source that was of: made by this build, of this path, of content as long as the current content and with
   the same checksum.
   */
  lemma HitAgreesWithItsSource(setting: Setting, w: World, events: seq<Event>, path: string)
    requires setting.json.Lawful() && Fresh(w) && Possible(setting, w, events) && MarkersComeOff(events)
    requires path in End(setting, w, events).sources
    ensures var now := End(setting, w, events);
            var d := now.DiskAt(setting.directoryOf(path));
            var content := now.sources[path].content;
            var result := LoadAll(ReaderIn(setting, now), d.files, InfoOf(setting, path, content));
            result.Hit? ==>
              && d.completed != []
              && var latest := d.completed[|d.completed| - 1];
                 && result.channels == latest.channels && Uniform(latest.channels)
                 && latest.build == now.build && latest.info == InfoOf(setting, path, content)
  {
    HistoryKeepsWorld(setting, w, events);
    var now := End(setting, w, events);
    var directory := setting.directoryOf(path);
    assert DiskOk(setting, directory, now.DiskAt(directory));
    HitIsTheLatestSave(now.DiskAt(directory), ReaderIn(setting, now), InfoOf(setting, path, now.sources[path].content));
  }

  // ----- With an encoder -----

  /** Every save in the history is of what the encoder makes of the content its source has when the save begins. */
  predicate Encodes(setting: Setting, encode: bytes -> seq<Frames>, w: World, events: seq<Event>)
    requires Possible(setting, w, events)
    decreases |events|
  {
    events == [] ||
    (&& (events[0].SaveBegins? ==> events[0].channels == encode(w.sources[events[0].path].content))
     && Encodes(setting, encode, After(setting, w, events[0]), events[1..]))
  }

  /** A well-formed save of what the encoder made of some content, described by that content's checksum. */
  ghost predicate Genuine(setting: Setting, encode: bytes -> seq<Frames>, save: Save) {
    && Described(setting.json, save) && Uniform(save.channels) && Fits(save)
    && exists content :: save.info.checksum == setting.checksum(content) && save.channels == encode(content)
  }

  /** The beginning of a channel of some genuine save, whether or not that save was completed. */
  ghost predicate PartOfGenuine(setting: Setting, encode: bytes -> seq<Frames>, file: bytes, c: nat) {
    exists save :: Genuine(setting, encode, save) && IsPart(file, save, c)
  }

  predicate IsPart(file: bytes, save: Save, c: nat) {
    save.metadata.Some? && c < |save.channels| && file <= Image(save, c)
  }

  ghost predicate ChannelsGenuine(setting: Setting, encode: bytes -> seq<Frames>, files: Files) {
    forall c: nat | Channel(c) in files :: PartOfGenuine(setting, encode, files[Channel(c)], c)
  }

  ghost predicate DiskGenuine(setting: Setting, encode: bytes -> seq<Frames>, d: Disk) {
    && ChannelsGenuine(setting, encode, d.files)
    && (Pending(d.pc).Some? ==> Genuine(setting, encode, Pending(d.pc).value))
    && (d.pc.Publishing? || d.pc.Unblocking? || d.pc.Retrying? ==> TemporaryOk(d.files, d.pc.save, d.pc.channel))
  }

  ghost predicate AllGenuine(setting: Setting, encode: bytes -> seq<Frames>, w: World) {
    forall directory | directory in w.disks :: DiskGenuine(setting, encode, w.disks[directory])
  }

  /** A failed removal of the marker makes no difference here: the channel files are always pieces of genuine saves. */
  lemma ActKeepsGenuine(setting: Setting, encode: bytes -> seq<Frames>, d: Disk, act: Act)
    requires DiskGenuine(setting, encode, d) && Can(d, act)
    requires act.BeginSave? ==> Genuine(setting, encode, act.save)
    ensures DiskGenuine(setting, encode, Next(d, act))
  {
    if act.Renamed? && act.ok {
      RenamedKeepsGenuine(setting, encode, d);
    }
  }

  lemma RenamedKeepsGenuine(setting: Setting, encode: bytes -> seq<Frames>, d: Disk)
    requires DiskGenuine(setting, encode, d) && Can(d, Renamed(true))
    ensures DiskGenuine(setting, encode, Next(d, Renamed(true)))
  {
    var next, c := Next(d, Renamed(true)), d.pc.channel;
    forall k: nat | Channel(k) in next.files ensures PartOfGenuine(setting, encode, next.files[Channel(k)], k) {
      if k == c {
        assert IsPart(next.files[Channel(k)], d.pc.save, k);
      } else {
        assert Channel(k) in d.files && next.files[Channel(k)] == d.files[Channel(k)];
      }
    }
  }

  lemma EventKeepsGenuine(setting: Setting, encode: bytes -> seq<Frames>, w: World, event: Event)
    requires AllGenuine(setting, encode, w) && CanHappen(setting, w, event)
    requires event.SaveBegins? ==> event.channels == encode(w.sources[event.path].content)
    ensures AllGenuine(setting, encode, After(setting, w, event))
  {
    match event
    case SaveBegins(path, channels) =>
      var save := SaveOf(setting, w, path, channels);
      var content := w.sources[path].content;
      assert save.info.checksum == setting.checksum(content) && save.channels == encode(content);
      ActKeepsGenuine(setting, encode, w.DiskAt(setting.directoryOf(path)), BeginSave(save));
    case Happens(directory, act) =>
      ActKeepsGenuine(setting, encode, w.DiskAt(directory), act);
    case _ =>
  }

  lemma {:induction false} HistoryKeepsGenuine(setting: Setting, encode: bytes -> seq<Frames>, w: World,
                                               events: seq<Event>)
    requires AllGenuine(setting, encode, w) && Possible(setting, w, events) && Encodes(setting, encode, w, events)
    ensures AllGenuine(setting, encode, End(setting, w, events))
    decreases |events|
  {
    if events != [] {
      EventKeepsGenuine(setting, encode, w, events[0]);
      HistoryKeepsGenuine(setting, encode, After(setting, w, events[0]), events[1..]);
    }
  }

  ghost predicate CollisionFree(checksum: bytes -> string) {
    forall a, b :: checksum(a) == checksum(b) ==> a == b
  }

  /** A channel that is accepted for a source is what the encoder makes of that source. */
  lemma AcceptedChannelIsFresh(setting: Setting, encode: bytes -> seq<Frames>, reader: Reader, files: Files,
                               path: string, content: bytes, count: nat, c: nat)
    requires reader.json == setting.json && setting.json.Lawful() && CollisionFree(setting.checksum)
    requires path in reader.modTimes && Channel(c) in files
    requires PartOfGenuine(setting, encode, files[Channel(c)], c) && c < CHANNELS
    ensures var frames := ChannelIn(reader, files[Channel(c)], InfoOf(setting, path, content), count);
            frames.Some? ==> |encode(content)| == CHANNELS && frames.value == encode(content)[c]
  {
    var save :| Genuine(setting, encode, save) && IsPart(files[Channel(c)], save, c);
    ChannelIsLoadedWhole(reader, files, save, c);
    GenuineIsFresh(setting, encode, save, content);
  }

  lemma GenuineIsFresh(setting: Setting, encode: bytes -> seq<Frames>, save: Save, content: bytes)
    requires CollisionFree(setting.checksum) && Genuine(setting, encode, save)
    ensures save.info.checksum == setting.checksum(content) ==> save.channels == encode(content)
  {
  }

  lemma GenuineHitIsFresh(setting: Setting, encode: bytes -> seq<Frames>, reader: Reader, files: Files, path: string,
                          content: bytes)
    requires reader.json == setting.json && setting.json.Lawful() && CollisionFree(setting.checksum)
    requires path in reader.modTimes && ChannelsGenuine(setting, encode, files)
    ensures var result := LoadAll(reader, files, InfoOf(setting, path, content));
            result.Hit? ==> result.channels == encode(content)
  {
    var info := InfoOf(setting, path, content);
    var result := LoadAll(reader, files, info);
    if result.Hit? {
      var count := |Load(reader, files[Channel(0)]).value.frames|;
      var parts := ChannelsIn(reader, files, info, count);
      TogetherExactly(parts, result.channels);
      forall c: nat | c < CHANNELS ensures |encode(content)| == CHANNELS && result.channels[c] == encode(content)[c] {
        AcceptedChannelIsFresh(setting, encode, reader, files, path, content, count, c);
      }
      assert |encode(content)| == CHANNELS && result.channels[0] == encode(content)[0];
    }
  }

  /**
   What the cache is for: with a collision-free checksum and a deterministic encoder a hit is a fresh encoding, after
   every history, even one in which markers stick and saves are mixed.
   */
  lemma HitIsAFreshEncoding(setting: Setting, encode: bytes -> seq<Frames>, w: World, events: seq<Event>, path: string)
    requires setting.json.Lawful() && CollisionFree(setting.checksum)
    requires Fresh(w) && Possible(setting, w, events) && Encodes(setting, encode, w, events)
    requires path in End(setting, w, events).sources
    ensures var now := End(setting, w, events);
            var content := now.sources[path].content;
            var files := now.DiskAt(setting.directoryOf(path)).files;
            var result := LoadAll(ReaderIn(setting, now), files, InfoOf(setting, path, content));
            result.Hit? ==> result.channels == encode(content)
  {
    HistoryKeepsGenuine(setting, encode, w, events);
    var now := End(setting, w, events);
    GenuineHitIsFresh(setting, encode, ReaderIn(setting, now), now.DiskAt(setting.directoryOf(path)).files, path,
                      now.sources[path].content);
  }
}
