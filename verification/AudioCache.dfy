/** The cache's operations on one directory, as its methods carry them out; the disk's failures are given beforehand. */
module AudioCaches {
  import opened Wrappers
  import opened Bytes
  import opened PacketFiles
  import opened CacheDirectories

  // Which operations succeed, how many bytes of each write are kept, and what gets deleted before a clean-up fails.
  datatype Faults = Faults(
    markerRemoved: bool,
    temporaryRemoved: nat -> bool,
    creates: nat -> bool,
    kept: nat -> nat,
    seen: nat -> bool,
    renamed: nat -> bool,
    blockerRemoved: nat -> bool,
    retried: nat -> bool,
    markerKept: nat,
    markerSeen: bool,
    markerRenamed: bool,
    deleted: seq<FileName>)

  ghost predicate Runs(d: Disk, acts: seq<Act>, e: Disk) {
    Possible(d, acts) && End(d, acts) == e
  }

  lemma {:induction false} RunsCompose(d: Disk, acts: seq<Act>, e: Disk, others: seq<Act>, f: Disk)
    requires Runs(d, acts, e) && Runs(e, others, f)
    ensures Runs(d, acts + others, f)
    decreases |acts|
  {
    if acts == [] {
      assert acts + others == others;
    } else {
      assert (acts + others)[1..] == acts[1..] + others;
      RunsCompose(Next(d, acts[0]), acts[1..], e, others, f);
    }
  }

  lemma One(d: Disk, act: Act)
    requires Can(d, act)
    ensures Runs(d, [act], Next(d, act))
  {
    assert [act][1..] == [];
    assert Possible(Next(d, act), []);
  }

  lemma Extended(d: Disk, acts: seq<Act>, e: Disk, act: Act)
    requires Runs(d, acts, e) && Can(e, act)
    ensures Runs(d, acts + [act], Next(e, act))
  {
    One(e, act);
    RunsCompose(d, acts, e, [act], Next(e, act));
  }

  class AudioCache {
    var files: Files
    var hits: nat
    var misses: nat
    ghost var completed: seq<Save>

    ghost function At(pc: Pc): Disk
      reads this
    {
      Disk(files, pc, completed)
    }

    constructor ()
      ensures At(Idle) == EMPTY && hits == misses == 0
    {
      files, hits, misses := map[], 0, 0;
      completed := [];
    }

    /** Deletes what it gets to. */
    method DeleteAll(faults: Faults) returns (ghost trace: seq<Act>)
      modifies this`files
      ensures Runs(old(At(Clearing)), trace, At(Idle))
      ensures forall name :: name in files <==> name in old(files) && name !in faults.deleted
      ensures forall name | name in files :: files[name] == old(files)[name]
      ensures MarkerComesOff(trace)
    {
      trace := [];
      ghost var start := At(Clearing);
      for i := 0 to |faults.deleted|
        invariant Runs(start, trace, At(Clearing)) && MarkerComesOff(trace)
        invariant forall name :: name in files <==> name in old(files) && name !in faults.deleted[..i]
        invariant forall name | name in files :: files[name] == old(files)[name]
      {
        Extended(start, trace, At(Clearing), Deleted(faults.deleted[i]));
        trace := trace + [Deleted(faults.deleted[i])];
        files := files - {faults.deleted[i]};
      }
      Extended(start, trace, At(Clearing), ClearEnds);
      trace := trace + [ClearEnds];
    }

    /** Without a source there is no directory to clear. */
    method ClearCache(sourceExists: bool, faults: Faults) returns (ok: bool, ghost trace: seq<Act>)
      modifies this`files
      ensures Runs(old(At(Idle)), trace, At(Idle)) && MarkerComesOff(trace)
      ensures ok <==> sourceExists
      ensures !sourceExists ==> files == old(files)
      ensures forall name | name in files :: name in old(files) && files[name] == old(files)[name]
      ensures sourceExists && old(files).Keys <= (set name | name in faults.deleted) ==> files == map[]
    {
      if !sourceExists {
        trace := [];
        return false, trace;
      }
      ghost var start := At(Idle);
      One(start, BeginClear);
      trace := DeleteAll(faults);
      RunsCompose(start, [BeginClear], Next(start, BeginClear), trace, At(Idle));
      trace := [BeginClear] + trace;
      ok := true;
    }

    /** A rename that fails is tried once more with the way cleared. */
    method Rename(save: Save, c: nat, faults: Faults) returns (ok: bool, ghost trace: seq<Act>)
      requires c < CHANNELS == |save.channels| && Temporary(c) in files
      modifies this`files
      ensures Runs(old(At(Publishing(save, c))), trace, At(if ok then AfterChannel(save, c) else Clearing))
      ensures MarkerComesOff(trace)
      ensures ok <==> faults.renamed(c) || faults.retried(c)
      ensures ok ==> Channel(c) in files && files[Channel(c)] == old(files)[Temporary(c)]
      ensures ok ==> SameOtherChannels(old(files), files, c)
    {
      ghost var start := At(Publishing(save, c));
      ok := faults.renamed(c);
      One(start, Renamed(ok));
      trace := [Renamed(ok)];
      if !ok {
        var removed := faults.blockerRemoved(c);
        Extended(start, trace, At(Unblocking(save, c)), BlockerRemoved(removed));
        trace := trace + [BlockerRemoved(removed)];
        if removed {
          files := files - {Channel(c)};
        }
        ok := faults.retried(c);
        Extended(start, trace, At(Retrying(save, c)), Renamed(ok));
        trace := trace + [Renamed(ok)];
      }
      if ok {
        files := files[Channel(c) := files[Temporary(c)]] - {Temporary(c)};
      }
    }

    /** The part of publishing a channel that writes its temporary file. */
    method WriteTemporary(save: Save, c: nat, faults: Faults) returns (ok: bool, ghost trace: seq<Act>)
      requires c < CHANNELS == |save.channels|
      modifies this`files
      ensures Runs(old(At(Preparing(save, c))), trace, At(if ok then Publishing(save, c) else Clearing))
      ensures MarkerComesOff(trace)
      ensures ok <==> save.metadata.Some? && faults.creates(c) && !faults.seen(c)
      ensures ok ==> Temporary(c) in files && files[Temporary(c)] == Beginning(Image(save, c), faults.kept(c))
      ensures SameOtherChannels(old(files), files, CHANNELS)
    {
      ghost var start := At(Preparing(save, c));
      var removed := faults.temporaryRemoved(c);
      One(start, TemporaryRemoved(removed));
      trace := [TemporaryRemoved(removed)];
      if removed {
        files := files - {Temporary(c)};
      }
      if save.metadata.None? || !faults.creates(c) {
        Extended(start, trace, At(Writing(save, c)), WriteRefused(faults.creates(c)));
        trace := trace + [WriteRefused(faults.creates(c))];
        if faults.creates(c) {
          files := files[Temporary(c) := []];
        }
        return false, trace;
      }
      Extended(start, trace, At(Writing(save, c)), Written(faults.kept(c), faults.seen(c)));
      trace := trace + [Written(faults.kept(c), faults.seen(c))];
      files := files[Temporary(c) := Beginning(Layout(save.metadata.value, save.channels[c]), faults.kept(c))];
      ok := !faults.seen(c);
    }

    method PublishChannel(save: Save, c: nat, faults: Faults) returns (ok: bool, ghost trace: seq<Act>)
      requires c < CHANNELS == |save.channels|
      modifies this`files
      ensures Runs(old(At(Preparing(save, c))), trace, At(if ok then AfterChannel(save, c) else Clearing))
      ensures MarkerComesOff(trace)
      ensures ok <==> GoesThrough(save, c, faults)
      ensures ok ==> HoldsBeginning(files, save, c, faults.kept(c))
      ensures ok ==> SameOtherChannels(old(files), files, c)
    {
      ghost var start := At(Preparing(save, c));
      ok, trace := WriteTemporary(save, c, faults);
      if ok {
        ghost var more;
        ghost var between := At(Publishing(save, c));
        ok, more := Rename(save, c, faults);
        RunsCompose(start, trace, between, more, At(if ok then AfterChannel(save, c) else Clearing));
        trace := trace + more;
      }
    }

    /** The marker comes off first and goes on last, when every channel is in place. */
    method SaveToCache(save: Save, sourceExists: bool, faults: Faults) returns (ok: bool, ghost trace: seq<Act>)
      requires Fits(save)
      modifies this`files, this`completed
      ensures Runs(old(At(Idle)), trace, At(Idle))
      ensures faults.markerRemoved ==> MarkerComesOff(trace)
      ensures ok <==> sourceExists && Uniform(save.channels)
                      && (forall c | 0 <= c < CHANNELS :: GoesThrough(save, c, faults))
                      && !faults.markerSeen && faults.markerRenamed
      ensures completed == if ok then old(completed) + [save] else old(completed)
      ensures ok ==> Marker in files
      ensures ok ==> forall c | 0 <= c < CHANNELS :: HoldsBeginning(files, save, c, faults.kept(c))
      ensures !sourceExists || !Uniform(save.channels) ==> files == old(files)
      ensures !ok && sourceExists && Uniform(save.channels) ==> forall name | name in files :: name !in faults.deleted
    {
      trace := [];
      ok := false;
      if !sourceExists || !Uniform(save.channels) {
        return;
      }
      ghost var start := At(Idle);
      One(start, BeginSave(save));
      Extended(start, [BeginSave(save)], At(Unmarking(save)), MarkerRemoved(faults.markerRemoved));
      trace := [BeginSave(save), MarkerRemoved(faults.markerRemoved)];
      if faults.markerRemoved {
        files := files - {Marker};
      }
      ghost var more;
      ghost var unmarked := At(Preparing(save, 0));
      ok, more := PublishChannels(save, faults);
      RunsCompose(start, trace, unmarked, more, At(if ok then Marking(save) else Clearing));
      trace := trace + more;
      if ok {
        ghost var published := At(Marking(save));
        ok, more := PublishMarker(save, faults);
        RunsCompose(start, trace, published, more, At(if ok then Idle else Clearing));
        trace := trace + more;
      }
      if !ok {
        ghost var failed := At(Clearing);
        more := DeleteAll(faults);
        RunsCompose(start, trace, failed, more, At(Idle));
        trace := trace + more;
      }
    }

    method PublishChannels(save: Save, faults: Faults) returns (ok: bool, ghost trace: seq<Act>)
      requires |save.channels| == CHANNELS
      modifies this`files
      ensures Runs(old(At(Preparing(save, 0))), trace, At(if ok then Marking(save) else Clearing))
      ensures MarkerComesOff(trace)
      ensures ok <==> forall c | 0 <= c < CHANNELS :: GoesThrough(save, c, faults)
      ensures ok ==> forall c | 0 <= c < CHANNELS :: HoldsBeginning(files, save, c, faults.kept(c))
    {
      ghost var start := At(Preparing(save, 0));
      trace := [];
      var c := 0;
      while c < CHANNELS
        invariant c <= CHANNELS && MarkerComesOff(trace)
        invariant Runs(start, trace, At(if c < CHANNELS then Preparing(save, c) else Marking(save)))
        invariant forall k | 0 <= k < c :: GoesThrough(save, k, faults)
        invariant forall k | 0 <= k < c :: HoldsBeginning(files, save, k, faults.kept(k))
      {
        ghost var more;
        ghost var before := At(Preparing(save, c));
        ok, more := PublishChannel(save, c, faults);
        RunsCompose(start, trace, before, more, At(if ok then AfterChannel(save, c) else Clearing));
        trace := trace + more;
        if !ok {
          return;
        }
        c := c + 1;
      }
      ok := true;
    }

    method PublishMarker(save: Save, faults: Faults) returns (ok: bool, ghost trace: seq<Act>)
      modifies this`files, this`completed
      ensures Runs(old(At(Marking(save))), trace, At(if ok then Idle else Clearing)) && MarkerComesOff(trace)
      ensures ok <==> !faults.markerSeen && faults.markerRenamed
      ensures ok ==> Marker in files
      ensures SameOtherChannels(old(files), files, CHANNELS)
      ensures completed == if ok then old(completed) + [save] else old(completed)
    {
      ghost var start := At(Marking(save));
      var written := MarkerWritten(faults.markerKept, faults.markerSeen);
      One(start, written);
      trace := [written];
      files := files[MarkerTemporary := Beginning(MARKER_TEXT, faults.markerKept)];
      if faults.markerSeen {
        return false, trace;
      }
      ok := faults.markerRenamed;
      Extended(start, trace, At(PublishingMarker(save)), MarkerRenamed(ok));
      trace := trace + [MarkerRenamed(ok)];
      if ok {
        files := files[Marker := files[MarkerTemporary]] - {MarkerTemporary};
        completed := completed + [save];
      }
    }

    /** A miss on anything but missing files clears the directory, as far as the disk lets it. */
    method TryLoadFromCache(reader: Reader, current: Option<SourceInfo>, faults: Faults)
      returns (channels: Option<seq<Frames>>, ghost trace: seq<Act>)
      requires current.Some? ==> current.value.path in reader.modTimes
      modifies this`files, this`hits, this`misses
      ensures Runs(old(At(Idle)), trace, At(Idle)) && MarkerComesOff(trace)
      ensures current.None? ==> channels.None? && files == old(files)
      ensures current.Some? ==>
                var result := LoadAll(reader, old(files), current.value);
                && channels == (if result.Hit? then Some(result.channels) else None)
                && (result.Hit? || !result.clears ==> files == old(files))
                && (result.Miss? && result.clears && old(files).Keys <= (set name | name in faults.deleted) ==>
                      files == map[])
                && var complete := Marker in old(files) && forall c: nat | c < CHANNELS :: Channel(c) in old(files);
                   && (!complete ==> channels.None? && files == old(files))
                   && (complete && channels.None? && old(files).Keys <= (set name | name in faults.deleted) ==>
                         files == map[])
      ensures forall name | name in files :: name in old(files) && files[name] == old(files)[name]
      ensures hits == old(hits) + (if channels.Some? then 1 else 0)
      ensures misses == old(misses) + (if channels.Some? then 0 else 1)
    {
      trace := [];
      channels := None;
      if current.Some? {
        MissClearsExactly(reader, files, current.value);
      }
      if current.None? || !AllFilesExist(files) {
        misses := misses + 1;
        return;
      }
      channels := LoadFiles(reader, current.value);
      if channels.Some? {
        hits := hits + 1;
        return;
      }
      misses := misses + 1;
      var ok;
      ok, trace := ClearCache(true, faults);
    }

    /** The loader's loop, which stops at the first channel it cannot use. */
    method LoadFiles(reader: Reader, current: SourceInfo) returns (channels: Option<seq<Frames>>)
      requires AllFilesExist(files) && current.path in reader.modTimes
      ensures channels == var result := LoadAll(reader, files, current);
                          if result.Hit? then Some(result.channels) else None
    {
      var first := LoadPackets(reader, files[Channel(0)]);
      if first.None? {
        return None;
      }
      ghost var parts := ChannelsIn(reader, files, current, |first.value.frames|);
      if !SameSource(reader, current, first.value) {
        assert parts[0].None?;
        NoneIsMissed(parts, 0);
        return None;
      }
      var loaded := [first.value.frames];
      while |loaded| < CHANNELS
        invariant 1 <= |loaded| <= CHANNELS
        invariant PresentUpTo(parts, loaded)
      {
        var c := |loaded|;
        var channel := LoadPackets(reader, files[Channel(c)]);
        if channel.None? || |channel.value.frames| != |first.value.frames|
           || !SameSource(reader, current, channel.value) {
          assert parts[c].None?;
          NoneIsMissed(parts, c);
          return None;
        }
        OneMoreIsPresent(parts, loaded, channel.value.frames);
        loaded := loaded + [channel.value.frames];
      }
      TogetherExactly(parts, loaded);
      return Some(loaded);
    }
  }

  predicate PresentUpTo<T(==)>(parts: seq<Option<T>>, loaded: seq<T>) {
    |loaded| <= |parts| && forall c | 0 <= c < |loaded| :: parts[c] == Some(loaded[c])
  }

  lemma OneMoreIsPresent<T>(parts: seq<Option<T>>, loaded: seq<T>, part: T)
    requires PresentUpTo(parts, loaded) && |loaded| < |parts| && parts[|loaded|] == Some(part)
    ensures PresentUpTo(parts, loaded + [part])
  {
  }

  lemma NoneIsMissed<T>(parts: seq<Option<T>>, c: nat)
    requires c < |parts| && parts[c].None?
    ensures Together(parts).None?
  {
    if Together(parts).Some? {
      TogetherExactly(parts, Together(parts).value);
    }
  }

  /** Every channel file but one is there if it was, and holds what it held. */
  predicate SameOtherChannels(before: Files, after: Files, c: nat) {
    forall k | k != c && 0 <= k < CHANNELS ::
      && (Channel(k) in after <==> Channel(k) in before)
      && (Channel(k) in before ==> after[Channel(k)] == before[Channel(k)])
  }

  predicate HoldsBeginning(files: Files, save: Save, c: nat, kept: nat) {
    && c < |save.channels| && save.metadata.Some?
    && Channel(c) in files && files[Channel(c)] == Beginning(Image(save, c), kept)
  }

  predicate GoesThrough(save: Save, c: nat, faults: Faults) {
    save.metadata.Some? && faults.creates(c) && !faults.seen(c) && (faults.renamed(c) || faults.retried(c))
  }

  /**
   What a save that reported success is worth: it is a hit exactly when it is of the current source and build and no
   write was cut short unnoticed; a write that was makes it a miss, never a damaged hit.
   */
  lemma SavedIsAHit(reader: Reader, files: Files, current: SourceInfo, save: Save, kept: nat -> nat)
    requires Marker in files && forall c | 0 <= c < CHANNELS :: HoldsBeginning(files, save, c, kept(c))
    requires Acceptable(save) && Described(reader.json, save) && reader.json.Lawful() && current.path in reader.modTimes
    ensures var good := && save.info == current && save.build == reader.build
                        && forall c | 0 <= c < CHANNELS :: kept(c) >= |Image(save, c)|;
            LoadAll(reader, files, current) == if good then Hit(save.channels) else Miss(true)
  {
    forall c | 0 <= c < CHANNELS ensures Channel(c) in files {
      assert HoldsBeginning(files, save, c, kept(c));
    }
    if torn: nat :| torn < CHANNELS && kept(torn) < |Image(save, torn)| {
      assert HoldsBeginning(files, save, torn, kept(torn));
      SavedIsLoaded(reader, save.build, save.info, save.channels[torn], files[Channel(torn)]);
      TornIsMissed(reader, files, current, torn);
    } else {
      forall c | 0 <= c < CHANNELS ensures files[Channel(c)] == Image(save, c) {
        assert HoldsBeginning(files, save, c, kept(c));
        assert kept(c) >= |Image(save, c)|;
      }
      MixedIsLoadedExactly(reader, files, current, save, save, CHANNELS);
      assert Blend(save.channels, save.channels, CHANNELS) == save.channels;
    }
  }

  lemma TornIsMissed(reader: Reader, files: Files, current: SourceInfo, torn: nat)
    requires AllFilesExist(files) && current.path in reader.modTimes
    requires torn < CHANNELS && Load(reader, files[Channel(torn)]).None?
    ensures LoadAll(reader, files, current) == Miss(true)
  {
    var first := Load(reader, files[Channel(0)]);
    if first.Some? {
      NoneIsMissed(ChannelsIn(reader, files, current, |first.value.frames|), torn);
    }
  }

  // ----- A marker that does not come off -----

  /** Left alone, a channel is published in three operations. */
  lemma ChannelIsPublished(d: Disk, save: Save, c: nat) returns (acts: seq<Act>, e: Disk)
    requires d.pc == Preparing(save, c) && c < CHANNELS == |save.channels| && save.metadata.Some?
    ensures Runs(d, acts, e) && e.pc == AfterChannel(save, c) && e.completed == d.completed
    ensures Channel(c) in e.files && e.files[Channel(c)] == Image(save, c) && SameOtherChannels(d.files, e.files, c)
    ensures Marker in d.files ==> Marker in e.files
  {
    One(d, TemporaryRemoved(true));
    var written := Written(|Image(save, c)|, false);
    var prepared := Next(d, TemporaryRemoved(true));
    Extended(d, [TemporaryRemoved(true)], prepared, written);
    Extended(d, [TemporaryRemoved(true), written], Next(prepared, written), Renamed(true));
    acts := [TemporaryRemoved(true), written] + [Renamed(true)];
    e := Next(Next(prepared, written), Renamed(true));
  }

  lemma {:induction false} ChannelsArePublished(d: Disk, save: Save, k: nat) returns (acts: seq<Act>, e: Disk)
    requires d.pc == Preparing(save, 0) && k < CHANNELS == |save.channels| && save.metadata.Some?
    requires AllFilesExist(d.files)
    ensures Runs(d, acts, e) && e.pc == Preparing(save, k) && e.completed == d.completed && AllFilesExist(e.files)
    ensures forall c | 0 <= c < CHANNELS ::
              e.files[Channel(c)] == if c < k then Image(save, c) else d.files[Channel(c)]
    decreases k
  {
    if k == 0 {
      acts, e := [], d;
    } else {
      var before, middle := ChannelsArePublished(d, save, k - 1);
      var last;
      last, e := ChannelIsPublished(middle, save, k - 1);
      RunsCompose(d, before, middle, last, e);
      acts := before + last;
    }
  }

  /**
   The saver ignores a failure to remove the marker, and this is what it takes: stopped after any number k of channels,
   such a save leaves a marker over new and old channels. They are returned together as a hit exactly when both saves
   are of the current source, by this build, with the same number of frames; so a deterministic encoder is all that
   stands between this failure and a hit that is neither the old data nor the new.
   */
  lemma StuckMarkerMixesSaves(d: Disk, reader: Reader, current: SourceInfo, older: Save, newer: Save, k: nat)
    returns (acts: seq<Act>, e: Disk)
    requires d.pc.Idle? && Marker in d.files && 0 < k < CHANNELS
    requires Acceptable(newer) && Acceptable(older) && reader.json.Lawful() && current.path in reader.modTimes
    requires forall c | 0 <= c < CHANNELS :: HoldsBeginning(d.files, older, c, |Image(older, c)|)
    requires Described(reader.json, newer) && Described(reader.json, older)
    ensures Runs(d, acts, e) && e.pc.Idle? && e.completed == d.completed
    ensures var count := |newer.channels[0]|;
            LoadAll(reader, e.files, current)
            == if ServesAs(reader, newer, current, count) && ServesAs(reader, older, current, count)
               then Hit(newer.channels[..k] + older.channels[k..]) else Miss(true)
  {
    forall c | 0 <= c < CHANNELS ensures Channel(c) in d.files && d.files[Channel(c)] == Image(older, c) {
      assert HoldsBeginning(d.files, older, c, |Image(older, c)|);
    }
    One(d, BeginSave(newer));
    Extended(d, [BeginSave(newer)], Next(d, BeginSave(newer)), MarkerRemoved(false));
    var begun := [BeginSave(newer)] + [MarkerRemoved(false)];
    var unmarked := Next(Next(d, BeginSave(newer)), MarkerRemoved(false));
    var more, published := ChannelsArePublished(unmarked, newer, k);
    RunsCompose(d, begun, unmarked, more, published);
    Extended(d, begun + more, published, Stops);
    acts := begun + more + [Stops];
    e := Next(published, Stops);
    MixedIsLoadedExactly(reader, e.files, current, newer, older, k);
  }
}
