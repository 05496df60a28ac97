/** The playback data source (IrohDataSource.kt): one contract for the bytes it delivers, whether they come
    from a complete track in RAM or from the network stream that fills the RAM cache on the way.

    `Rest` is what an open source has still to deliver. Each method also reports, as ghost results, the operations it
    asked of the cache, so that whole sessions can be counted in the runs of the cache's protocol. */
module DataSources {
  import opened Wrappers
  import opened MemoryTracks
  import opened AudioCaches
  import M = CacheModel
  import R = CacheRuns
  import P = CacheProtocol

  const LENGTH_UNSET: int := -1
  const END_OF_INPUT := -1

  /** The native stream: a read delivers some of the next bytes, reports the end (or an empty request) with
      END_OF_INPUT, or fails. */
  class NativeStream {
    const bytes: seq<Byte>
    var position: nat

    constructor (bytes: seq<Byte>)
      ensures this.bytes == bytes && position == 0
    {
      this.bytes, position := bytes, 0;
    }

    method ReadStream(destination: array<Byte>, offset: nat, length: nat) returns (read: int)
      requires position <= |bytes| && offset + length <= destination.Length
      modifies this, destination
      ensures read < 0 ==> position == old(position) && destination[..] == old(destination[..])
      ensures read == END_OF_INPUT ==> length == 0 || position == |bytes|
      ensures read >= 0 ==> 0 < read <= length && position == old(position) + read <= |bytes|
                            && destination[..] == Spliced(old(destination[..]), offset, bytes[old(position)..position])
    {
      var fails: bool := *;
      if fails {
        return -2;
      }
      var rest := Min(length, |bytes| - position);
      if rest == 0 {
        return END_OF_INPUT;
      }
      read :| 0 < read <= rest;
      CopyInto(bytes, destination, offset, position, position + read);
      position := position + read;
    }
  }

  /** A complete track reads back the file. */
  lemma SomesRead(f: seq<Byte>, pos: nat, n: nat)
    requires pos + n <= |f|
    ensures Readable(Somes(f), pos, n) && Slice(Somes(f), pos, n) == f[pos..pos + n]
  {
  }

  /** Where the bytes of a request for `length` from `position` end in a file of `size` bytes. */
  function RequestEnd(position: nat, length: int, size: nat): (end: nat)
    ensures Min(position, size) <= end <= size
  {
    if length < 0 then size else Min(Min(position, size) + length, size)
  }

  lemma RunSnoc(c: M.Cache, ops: seq<R.Op>, op: R.Op, h: int)
    ensures R.Run(c, ops + [op], h) == R.Step(R.Run(c, ops, h), op, h).1
    decreases |ops|
  {
    if ops == [] {
      assert R.Run(c, [op], h) == R.Run(R.Step(c, op, h).1, [], h);
    } else {
      assert (ops + [op])[1..] == ops[1..] + [op];
      RunSnoc(R.Step(c, ops[0], h).1, ops[1..], op, h);
    }
  }

  lemma RunRecord(c: M.Cache, op: R.Op, h: int)
    requires op.RecordOp?
    ensures R.Run(c, [op], h) == M.Record(c, op.key, op.write, op.total).1
  {
    assert R.Run(c, [op], h) == R.Run(R.Step(c, op, h).1, [], h);
  }

  /** A write of received bytes where they belong delivers the file. */
  lemma ReadDelivers(cache: NativeAudioCache, key: Key, position: nat, buffer: array<Byte>, offset: nat, read: nat,
                     total: nat)
    requires |cache.file(key, total)| == total && position + read <= total && offset + read <= buffer.Length
    requires buffer[offset..offset + read] == cache.file(key, total)[position..position + read]
    ensures cache.Delivers(key, buffer[..], M.Write(position, buffer.Length, offset, read), total)
  {
    assert buffer[..][offset..offset + read] == buffer[offset..offset + read];
  }

  /** What an open asks of the cache before it reads, given whether a stream was opened. */
  function Asks(useMemory: bool, populate: bool, key: Key, size: nat, streamed: bool): seq<R.Op> {
    (if useMemory then [R.AcquireOp(key)] else []) + (if populate && streamed then [R.BeginOp(key, size)] else [])
  }

  /** What a close says to the cache. */
  function Ends(key: Key, pinned: bool, started: bool): seq<R.Op> {
    (if pinned then [R.ReleaseOp(key)] else []) + (if started then [R.EndOp(key)] else [])
  }

  predicate Records(ops: seq<R.Op>, key: Key, total: int) {
    forall i :: 0 <= i < |ops| ==> ops[i].RecordOp? && ops[i].key == key && ops[i].total == total
  }

  lemma OneRecord(op: R.Op)
    requires op.RecordOp?
    ensures Records([op], op.key, op.total) && Records([], op.key, op.total)
  {
  }

  class IrohDataSource {
    const cache: NativeAudioCache
    const useMemoryCache: bool
    const populateMemoryCache: bool
    var streamHandle: NativeStream?
    var remaining: int
    var key: Key
    var absolutePosition: int
    var fileSize: int
    var memoryTrack: MemoryTrack?
    var memoryTrackPinned: bool
    var memoryPosition: int
    var memoryWriterStarted: bool

    constructor (cache: NativeAudioCache, useMemoryCache: bool, populateMemoryCache: bool)
      ensures this.cache == cache && this.useMemoryCache == useMemoryCache
      ensures this.populateMemoryCache == populateMemoryCache
      ensures Closed()
    {
      this.cache, this.useMemoryCache, this.populateMemoryCache := cache, useMemoryCache, populateMemoryCache;
      streamHandle, remaining, key, absolutePosition, fileSize := null, LENGTH_UNSET, "", 0, 0;
      memoryTrack, memoryTrackPinned, memoryPosition, memoryWriterStarted := null, false, 0, false;
    }

    ghost predicate Closed()
      reads this
    {
      streamHandle == null && memoryTrack == null && !memoryTrackPinned && !memoryWriterStarted
    }

    /** The file this source is open on. */
    ghost function File(): seq<Byte>
      reads this
    {
      if fileSize < 0 then [] else cache.file(key, fileSize)
    }

    /** Serving from RAM: the track was complete when it was acquired, and only this source's pin is held. */
    ghost predicate OnTrack()
      reads this, cache
    {
      && memoryTrack != null && streamHandle == null && memoryTrackPinned && !memoryWriterStarted
      && (key, memoryTrack) in cache.promoted && fileSize == memoryTrack.size == |File()|
      && 0 <= memoryPosition <= memoryPosition + remaining <= fileSize
    }

    /** Serving from the stream, which stands at `absolutePosition` of the file. */
    ghost predicate OnStream()
      reads this, streamHandle
    {
      && streamHandle != null && memoryTrack == null && !memoryTrackPinned
      && streamHandle.bytes == File() && |File()| == fileSize
      && 0 <= absolutePosition == streamHandle.position <= fileSize && remaining >= 0
    }

    /** The bytes still to be delivered. */
    ghost function Rest(): seq<Byte>
      requires OnTrack() || OnStream()
      reads this, cache, streamHandle
    {
      if memoryTrack != null then File()[memoryPosition..memoryPosition + remaining]
      else File()[absolutePosition..Min(absolutePosition + remaining, fileSize)]
    }

    /** Exactly the file's bytes from the position on, as far as asked for, are still to be delivered. */
    ghost predicate Serves(position: nat, length: int)
      reads this, cache, streamHandle
    {
      (OnTrack() || OnStream()) && Rest() == File()[Min(position, fileSize)..RequestEnd(position, length, fileSize)]
    }

    lemma ServesFile(position: nat, length: int)
      requires Serves(position, length)
      ensures (OnTrack() || OnStream()) && 0 <= fileSize == |cache.file(key, fileSize)|
      ensures Rest() == cache.file(key, fileSize)[Min(position, fileSize)..RequestEnd(position, length, fileSize)]
      ensures !memoryTrackPinned ==> streamHandle != null
      ensures memoryTrackPinned ==> streamHandle == null
    {
      hide RequestEnd;
    }

    /** Records a read of the stream when this source is a writer. */
    method RecordRead(position: nat, buffer: array<Byte>, offset: nat, read: nat) returns (ghost ops: seq<R.Op>)
      requires cache.Valid() && 0 <= fileSize == |cache.file(key, fileSize)| && read > 0
      requires position + read <= fileSize && offset + read <= buffer.Length
      requires buffer[offset..offset + read] == cache.file(key, fileSize)[position..position + read]
      modifies cache.Footprint()
      ensures cache.Valid() && old(cache.promoted) <= cache.promoted
      ensures fresh(cache.Footprint() - old(cache.Footprint()))
      ensures Records(ops, key, fileSize) && (!memoryWriterStarted ==> ops == [])
      ensures cache.View() == R.Run(old(cache.View()), ops, cache.heapSafeMemoryCacheBytes)
    {
      hide *;
      ghost var op := R.RecordOp(key, M.Write(position, buffer.Length, offset, read), fileSize);
      OneRecord(op);
      ReadDelivers(cache, key, position, buffer, offset, read, fileSize);
      RunNone(cache.View(), cache.heapSafeMemoryCacheBytes);
      RunRecord(cache.View(), op, cache.heapSafeMemoryCacheBytes);
      ops := [];
      if memoryWriterStarted {
        var promoted := cache.RecordMemoryBytes(key, position, buffer, offset, read, fileSize);
        ops := [op];
      }
    }

    /** Reads past the bytes before `position`, recording them. None is an I/O failure while seeking. */
    method Skip(position: nat, ghost h: int) returns (skipped: Option<nat>, ghost ops: seq<R.Op>)
      requires cache.Valid() && h == cache.heapSafeMemoryCacheBytes
      requires streamHandle != null && streamHandle.bytes == File() && |File()| == fileSize
      requires streamHandle.position == 0
      modifies streamHandle, cache.Footprint()
      ensures cache.Valid() && old(cache.promoted) <= cache.promoted
      ensures fresh(cache.Footprint() - old(cache.Footprint()))
      ensures Records(ops, key, fileSize) && (!memoryWriterStarted ==> ops == [])
      ensures cache.View() == R.Run(old(cache.View()), ops, h)
      ensures skipped.Some? ==> skipped.value == Min(position, fileSize) && streamHandle.position == skipped.value
    {
      hide cache.Valid, cache.View, cache.Footprint, R.Run;
      RunNone(cache.View(), h);
      var at: nat := 0;
      var scratch := new Byte[64 * 1024];
      cache.Kept();
      ops := [];
      while at < position
        invariant 0 <= at == streamHandle.position <= Min(position, fileSize)
        invariant cache.Valid() && old(cache.promoted) <= cache.promoted
        invariant fresh(cache.Footprint() - old(cache.Footprint()))
        invariant Records(ops, key, fileSize) && (!memoryWriterStarted ==> ops == [])
        invariant cache.View() == R.Run(old(cache.View()), ops, h)
        decreases position - at
      {
        var wanted := Min(scratch.Length, position - at);
        label reading:
        var read := streamHandle.ReadStream(scratch, 0, wanted);
        cache.Kept@reading();
        if read == END_OF_INPUT {
          break;
        }
        if read < 0 {
          return None, ops;
        }
        ghost var before := cache.Footprint();
        label recording:
        ghost var more := RecordRead(at, scratch, 0, read);
        assert forall o :: o in cache.Footprint() && o !in before ==> fresh@recording(o);
        RunJoin(old(cache.View()), ops, more, h);
        ops := ops + more;
        at := at + read;
      }
      skipped := Some(at);
    }

    /** The hit of an open: the source serves [position, end) of the acquired track. */
    method ServeTrack(track: MemoryTrack, position: nat, length: int) returns (r: int)
      requires (key, track) in cache.promoted && |cache.file(key, track.size)| == track.size && length >= LENGTH_UNSET
      requires streamHandle == null && !memoryWriterStarted
      modifies this
      ensures key == old(key) && OnTrack() && fileSize == track.size && Serves(position, length)
      ensures r == |Rest()|
    {
      memoryTrack := track;
      memoryTrackPinned := true;
      memoryPosition := Min(position, track.size);
      fileSize := track.size;
      remaining := if length != LENGTH_UNSET then Min(length, fileSize - memoryPosition) else fileSize - memoryPosition;
      r := remaining;
    }

    /** Where the stream stands after the skip; the answer is the requested length as it is. */
    method ServeStream(skipped: nat, position: nat, length: int) returns (r: int)
      requires streamHandle != null && memoryTrack == null && !memoryTrackPinned && length >= LENGTH_UNSET
      requires streamHandle.bytes == File() && |File()| == fileSize
      requires skipped == Min(position, fileSize) == streamHandle.position
      modifies this`absolutePosition, this`remaining
      ensures OnStream() && Serves(position, length)
      ensures r == if length == LENGTH_UNSET then |Rest()| else length
    {
      absolutePosition := skipped;
      remaining := if length != LENGTH_UNSET then length else fileSize - skipped;
      r := remaining;
    }

    method TryAcquire(key: Key) returns (track: MemoryTrack?)
      requires cache.Valid()
      modifies cache`memoryTracks, cache`memoryTrackPins
      ensures cache.Valid() && cache.Footprint() == old(cache.Footprint())
      ensures cache.View()
              == R.Run(old(cache.View()), Asks(useMemoryCache, populateMemoryCache, key, 0, false),
                       cache.heapSafeMemoryCacheBytes)
      ensures track != null <==> useMemoryCache && M.Has(old(cache.View()).complete, key)
      ensures track == null ==> cache.View() == old(cache.View())
      ensures track != null ==> (key, track) in cache.promoted && |cache.file(key, track.size)| == track.size
    {
      hide *;
      AsksOne(key, cache.View());
      track := null;
      if useMemoryCache {
        track := cache.AcquireMemoryTrack(key);
        if track != null {
          cache.FileSize(key, track.size);
        }
      }
    }

    lemma AsksOne(key: Key, c: M.Cache)
      ensures R.Run(c, Asks(useMemoryCache, populateMemoryCache, key, 0, false), cache.heapSafeMemoryCacheBytes)
              == if useMemoryCache then M.Acquire(c, key).1 else c
      ensures M.Acquire(c, key).0 == M.Has(c.complete, key)
      ensures !M.Has(c.complete, key) ==> M.Acquire(c, key).1 == c
    {
      if useMemoryCache {
        assert R.Run(c, [R.AcquireOp(key)], cache.heapSafeMemoryCacheBytes)
               == R.Run(M.Acquire(c, key).1, [], cache.heapSafeMemoryCacheBytes);
      }
    }

    lemma AsksBoth(key: Key, size: nat, c: M.Cache)
      requires useMemoryCache ==> !M.Has(c.complete, key)
      ensures R.Run(c, Asks(useMemoryCache, populateMemoryCache, key, size, true), cache.heapSafeMemoryCacheBytes)
              == if populateMemoryCache then M.Begin(c, key, size).1 else c
    {
      var h := cache.heapSafeMemoryCacheBytes;
      AsksOne(key, c);
      assert Asks(useMemoryCache, populateMemoryCache, key, 0, false)
             == Asks(useMemoryCache, populateMemoryCache, key, size, false);
      if populateMemoryCache {
        RunSnoc(c, Asks(useMemoryCache, populateMemoryCache, key, 0, false), R.BeginOp(key, size), h);
        assert Asks(useMemoryCache, populateMemoryCache, key, size, true)
               == Asks(useMemoryCache, populateMemoryCache, key, 0, false) + [R.BeginOp(key, size)];
      } else {
        assert Asks(useMemoryCache, populateMemoryCache, key, size, true)
               == Asks(useMemoryCache, populateMemoryCache, key, 0, false);
      }
    }

    method TryBegin(key: Key, size: nat) returns (started: bool)
      requires cache.Valid() && (useMemoryCache ==> !M.Has(cache.View().complete, key))
      modifies cache.Footprint()
      ensures cache.Valid() && cache.promoted == old(cache.promoted)
      ensures fresh(cache.Footprint() - old(cache.Footprint()))
      ensures cache.View()
              == R.Run(old(cache.View()), Asks(useMemoryCache, populateMemoryCache, key, size, true),
                       cache.heapSafeMemoryCacheBytes)
      ensures started == (populateMemoryCache && M.Begin(old(cache.View()), key, size).0)
    {
      hide *;
      AsksBoth(key, size, cache.View());
      started := false;
      if populateMemoryCache {
        started := cache.BeginMemoryTrack(key, size);
      }
    }

    /** A stream is opened, and the source becomes a writer if it may. */
    method StartStream(server: seq<Byte>)
      requires cache.Valid() && Closed() && server == cache.file(key, |server|)
      requires useMemoryCache ==> !M.Has(cache.View().complete, key)
      modifies this, cache.Footprint()
      ensures cache.Valid() && cache.promoted == old(cache.promoted)
      ensures fresh(cache.Footprint() - old(cache.Footprint()))
      ensures key == old(key) && memoryTrack == null && !memoryTrackPinned && fileSize == |server|
      ensures streamHandle != null && fresh(streamHandle) && streamHandle.bytes == server && streamHandle.position == 0
      ensures cache.View()
              == R.Run(old(cache.View()), Asks(useMemoryCache, populateMemoryCache, key, |server|, true),
                       cache.heapSafeMemoryCacheBytes)
      ensures memoryWriterStarted == (populateMemoryCache && M.Begin(old(cache.View()), key, |server|).0)
    {
      hide cache.Valid, cache.View, cache.Footprint, R.Run, M.Begin, Asks, Records, M.Has;
      streamHandle := new NativeStream(server);
      fileSize := |server|;
      cache.Kept();
      ghost var before := cache.Footprint();
      label begin:
      var started := TryBegin(key, |server|);
      assert forall o :: o in cache.Footprint() && o !in before ==> fresh@begin(o);
      label begun:
      memoryWriterStarted := started;
      cache.Kept@begun();
    }

    /** The stream is read up to the requested position and serves from there. */
    method SkipAndServe(position: nat, length: int) returns (r: Option<int>, ghost records: seq<R.Op>)
      requires cache.Valid() && length >= LENGTH_UNSET && memoryTrack == null && !memoryTrackPinned
      requires streamHandle != null && streamHandle.bytes == File() && |File()| == fileSize
      requires streamHandle.position == 0
      modifies this`absolutePosition, this`remaining, streamHandle, cache.Footprint()
      ensures cache.Valid() && old(cache.promoted) <= cache.promoted
      ensures fresh(cache.Footprint() - old(cache.Footprint()))
      ensures Records(records, key, fileSize) && (!memoryWriterStarted ==> records == [])
      ensures cache.View() == R.Run(old(cache.View()), records, cache.heapSafeMemoryCacheBytes)
      ensures r.Some? ==> OnStream() && Serves(position, length)
      ensures r.Some? ==> r.value == if length == LENGTH_UNSET then |Rest()| else length
    {
      hide cache.Valid, cache.View, cache.Footprint, R.Run, Records, Serves;
      var skipped;
      skipped, records := Skip(position, cache.heapSafeMemoryCacheBytes);
      if skipped.None? {
        return None, records;
      }
      label serving:
      var n := ServeStream(skipped.value, position, length);
      cache.Kept@serving();
      r := Some(n);
    }

    /** The miss of an open. */
    method OpenStream(position: nat, length: int, server: seq<Byte>) returns (r: Option<int>, ghost records: seq<R.Op>)
      requires cache.Valid() && Closed() && length >= LENGTH_UNSET && server == cache.file(key, |server|)
      requires useMemoryCache ==> !M.Has(cache.View().complete, key)
      modifies this, cache.Footprint()
      ensures cache.Valid() && old(cache.promoted) <= cache.promoted
      ensures fresh(cache.Footprint() - old(cache.Footprint()))
      ensures key == old(key) && memoryTrack == null && !memoryTrackPinned && streamHandle != null
      ensures fresh(streamHandle)
      ensures fileSize == |server| && Records(records, key, |server|) && (!memoryWriterStarted ==> records == [])
      ensures cache.View()
              == R.Run(old(cache.View()), Asks(useMemoryCache, populateMemoryCache, key, |server|, true)
                       + records, cache.heapSafeMemoryCacheBytes)
      ensures memoryWriterStarted == (populateMemoryCache && M.Begin(old(cache.View()), key, |server|).0)
      ensures r.Some? ==> OnStream() && Serves(position, length)
      ensures r.Some? ==> r.value == if length == LENGTH_UNSET then |Rest()| else length
    {
      hide cache.Valid, cache.View, cache.Footprint, R.Run, M.Begin, Asks, Records, M.Has, Serves, OnStream, Rest;
      ghost var c := cache.View();
      StartStream(server);
      ghost var before := cache.Footprint();
      label skipping:
      r, records := SkipAndServe(position, length);
      assert forall o :: o in cache.Footprint() && o !in before ==> fresh@skipping(o);
      RunJoin(c, Asks(useMemoryCache, populateMemoryCache, key, |server|, true), records,
              cache.heapSafeMemoryCacheBytes);
    }

    /** Opens the source at `position` of the track `key`. None is the exception of a source that is offline, a
        stream that does not open, or one that fails while seeking. */
    method Open(key: Key, position: nat, length: int, connected: bool, server: seq<Byte>)
      returns (r: Option<int>, ghost asked: seq<R.Op>, ghost records: seq<R.Op>)
      requires cache.Valid() && Closed() && length >= LENGTH_UNSET && server == cache.file(key, |server|)
      modifies this, cache.Footprint()
      ensures cache.Valid() && old(cache.promoted) <= cache.promoted
      ensures fresh(cache.Footprint() - old(cache.Footprint()))
      ensures this.key == key && (streamHandle != null ==> fresh(streamHandle) && fileSize == |server|)
      ensures asked == if connected then Asks(useMemoryCache, populateMemoryCache, key, |server|, streamHandle != null)
                       else []
      ensures Records(records, key, |server|) && (!memoryWriterStarted ==> records == [])
      ensures cache.View() == R.Run(old(cache.View()), asked + records, cache.heapSafeMemoryCacheBytes)
      ensures memoryTrackPinned == (connected && useMemoryCache && M.Has(old(cache.View()).complete, key))
      ensures memoryWriterStarted
              == (streamHandle != null && populateMemoryCache && M.Begin(old(cache.View()), key, |server|).0)
      ensures memoryTrackPinned ==> OnTrack() && r.Some?
      ensures r.Some? && !memoryTrackPinned ==> OnStream()
      ensures r.Some? ==> Serves(position, length)
      ensures r.Some? ==> r.value == if memoryTrackPinned || length == LENGTH_UNSET then |Rest()| else length
    {
      hide cache.Valid, cache.View, cache.Footprint, R.Run, M.Begin, M.Has, Serves, Rest, Records;
      this.key := key;
      cache.Kept();
      NoRecords(key, |server|);
      RunNone(cache.View(), cache.heapSafeMemoryCacheBytes);
      records, asked := [], [];
      if !connected {
        assert asked + records == [];
        return None, asked, records;
      }
      asked := Asks(useMemoryCache, populateMemoryCache, key, |server|, false);
      assert asked == Asks(useMemoryCache, populateMemoryCache, key, 0, false) == asked + records;
      var track := TryAcquire(key);
      if track != null {
        label serving:
        var n := ServeTrack(track, position, length);
        cache.Kept@serving();
        return Some(n), asked, records;
      }
      var opens: bool := *;
      if !opens {
        return None, asked, records;
      }
      asked := Asks(useMemoryCache, populateMemoryCache, key, |server|, true);
      ghost var before := cache.Footprint();
      label streaming:
      r, records := OpenStream(position, length, server);
      assert forall o :: o in cache.Footprint() && o !in before ==> fresh@streaming(o);
    }

    lemma NoRecords(key: Key, total: int)
      ensures Records([], key, total)
    {
    }

    /** A read from RAM: never a missing chunk, always the next min(length, remaining) bytes of the file. */
    method ReadTrack(buffer: array<Byte>, offset: nat, length: nat) returns (wanted: int)
      requires cache.Valid() && OnTrack() && remaining > 0 && offset + length <= buffer.Length
      modifies this`memoryPosition, this`remaining, buffer
      ensures OnTrack() && wanted >= 0
      ensures Delivered(old(buffer[..]), buffer[..], offset, old(Rest()), Rest(), wanted, length)
    {
      hide *;
      TrackParts();
      wanted := if length <= remaining then length else remaining;
      TrackBytes();
      Lesser(wanted, memoryTrack.size - memoryPosition);
      ghost var was, f, at := buffer[..], File(), memoryPosition;
      var got := memoryTrack.Read(memoryPosition, buffer, offset, wanted);
      TrackRead(was, buffer[..], offset, f, memoryTrack.Bytes(), at, remaining, wanted, length, got);
      memoryPosition := memoryPosition + wanted;
      remaining := remaining - wanted;
      TrackWhole();
    }

    lemma TrackParts()
      requires OnTrack()
      ensures memoryTrack != null && streamHandle == null && memoryTrackPinned && !memoryWriterStarted
      ensures (key, memoryTrack) in cache.promoted && 0 <= fileSize == memoryTrack.size == |File()|
      ensures File() == cache.file(key, fileSize) && 0 <= memoryPosition <= memoryPosition + remaining <= fileSize
      ensures Rest() == File()[memoryPosition..memoryPosition + remaining]
    {
    }

    lemma TrackWhole()
      requires memoryTrack != null && streamHandle == null && memoryTrackPinned && !memoryWriterStarted
      requires (key, memoryTrack) in cache.promoted && 0 <= fileSize == memoryTrack.size == |cache.file(key, fileSize)|
      requires 0 <= memoryPosition <= memoryPosition + remaining <= fileSize
      ensures OnTrack() && Rest() == cache.file(key, fileSize)[memoryPosition..memoryPosition + remaining]
    {
    }

    /** A track in RAM reads as the file. */
    lemma TrackBytes()
      requires cache.Valid() && OnTrack()
      ensures memoryTrack != null && memoryTrack.Valid() && memoryTrack.Bytes() == Somes(File())
    {
    }

    /** The next bytes of the stream, not yet recorded. */
    method TakeStream(buffer: array<Byte>, offset: nat, length: nat) returns (read: int)
      requires OnStream() && remaining > 0 && offset + length <= buffer.Length
      modifies this`remaining, this`absolutePosition, streamHandle, buffer
      ensures OnStream()
      ensures read < 0 ==> buffer[..] == old(buffer[..]) && Rest() == old(Rest())
      ensures read == END_OF_INPUT ==> length == 0 || old(Rest()) == []
      ensures read >= 0 ==> Delivered(old(buffer[..]), buffer[..], offset, old(Rest()), Rest(), read, length)
      ensures read >= 0 ==> 0 < read <= length && old(absolutePosition) + read == absolutePosition
                            && buffer[offset..offset + read] == File()[old(absolutePosition)..absolutePosition]
    {
      hide cache.Valid, cache.View, cache.Footprint, OnStream, OnTrack, File, Rest, Spliced, Delivered, Min;
      StreamParts();
      ghost var was, f := buffer[..], streamHandle.bytes;
      var wanted := if length <= remaining then length else remaining;
      read := streamHandle.ReadStream(buffer, offset, wanted);
      if read >= 0 {
        StreamPiece(was, buffer[..], offset, f, absolutePosition, remaining, read, length);
        remaining := remaining - read;
        absolutePosition := absolutePosition + read;
      }
      StreamWhole();
    }

    lemma StreamParts()
      requires OnStream()
      ensures streamHandle != null && memoryTrack == null && !memoryTrackPinned
      ensures 0 <= fileSize == |streamHandle.bytes| && streamHandle.bytes == cache.file(key, fileSize) == File()
      ensures 0 <= absolutePosition == streamHandle.position <= fileSize && remaining >= 0
      ensures Rest() == streamHandle.bytes[absolutePosition..Min(absolutePosition + remaining, fileSize)]
      ensures absolutePosition == fileSize ==> Rest() == []
    {
    }

    lemma StreamWhole()
      requires streamHandle != null && memoryTrack == null && !memoryTrackPinned
      requires 0 <= fileSize == |streamHandle.bytes| && streamHandle.bytes == cache.file(key, fileSize)
      requires 0 <= absolutePosition == streamHandle.position <= fileSize && remaining >= 0
      ensures OnStream() && File() == streamHandle.bytes
      ensures Rest() == streamHandle.bytes[absolutePosition..Min(absolutePosition + remaining, fileSize)]
    {
    }

    /** A read from the stream, recorded when this source is a writer. None is a failing stream. */
    method ReadThrough(buffer: array<Byte>, offset: nat, length: nat) returns (r: Option<int>, ghost records: seq<R.Op>)
      requires cache.Valid() && OnStream() && remaining > 0 && offset + length <= buffer.Length
      modifies this`remaining, this`absolutePosition, streamHandle, buffer, cache.Footprint()
      ensures cache.Valid() && old(cache.promoted) <= cache.promoted
      ensures fresh(cache.Footprint() - old(cache.Footprint()))
      ensures Records(records, key, fileSize) && (!memoryWriterStarted ==> records == [])
      ensures cache.View() == R.Run(old(cache.View()), records, cache.heapSafeMemoryCacheBytes)
      ensures OnStream()
      ensures r.None? || r.value == END_OF_INPUT ==> buffer[..] == old(buffer[..]) && Rest() == old(Rest())
      ensures r == Some(END_OF_INPUT) ==> length == 0 || old(Rest()) == []
      ensures r.Some? && r.value != END_OF_INPUT ==>
                Delivered(old(buffer[..]), buffer[..], offset, old(Rest()), Rest(), r.value, length)
    {
      hide cache.Valid, cache.View, cache.Footprint, R.Run, Records, Spliced, Delivered;
      RunNone(cache.View(), cache.heapSafeMemoryCacheBytes);
      NoRecords(key, fileSize);
      records := [];
      var readPosition := absolutePosition;
      var read := TakeStream(buffer, offset, length);
      cache.Kept();
      if read == END_OF_INPUT {
        return Some(END_OF_INPUT), records;
      }
      if read < 0 {
        return None, records;
      }
      ghost var before := cache.Footprint();
      label recording:
      records := RecordRead(readPosition, buffer, offset, read);
      assert forall o :: o in cache.Footprint() && o !in before ==> fresh@recording(o);
      r := Some(read);
    }

    lemma RestEmpty()
      requires OnTrack() || OnStream()
      ensures remaining == 0 ==> Rest() == []
      ensures memoryTrackPinned == (memoryTrack != null) && (if memoryTrackPinned then OnTrack() else OnStream())
      ensures remaining >= 0
    {
    }

    method Read(buffer: array<Byte>, offset: nat, length: nat) returns (r: Option<int>, ghost records: seq<R.Op>)
      requires cache.Valid() && (OnTrack() || OnStream()) && offset + length <= buffer.Length
      modifies this`remaining, this`absolutePosition, this`memoryPosition, streamHandle, buffer, cache.Footprint()
      ensures cache.Valid() && old(cache.promoted) <= cache.promoted
      ensures fresh(cache.Footprint() - old(cache.Footprint()))
      ensures Records(records, key, fileSize) && (!memoryWriterStarted ==> records == [])
      ensures cache.View() == R.Run(old(cache.View()), records, cache.heapSafeMemoryCacheBytes)
      ensures if memoryTrackPinned then OnTrack() && r.Some? else OnStream()
      ensures r.None? || r.value == END_OF_INPUT ==> buffer[..] == old(buffer[..]) && Rest() == old(Rest())
      ensures r == Some(END_OF_INPUT) ==> length == 0 || old(Rest()) == []
      ensures r.Some? && r.value != END_OF_INPUT ==>
                Delivered(old(buffer[..]), buffer[..], offset, old(Rest()), Rest(), r.value, length)
    {
      RestEmpty();
      hide *;
      RunNone(cache.View(), cache.heapSafeMemoryCacheBytes);
      NoRecords(key, fileSize);
      records := [];
      if remaining == 0 {
        return Some(END_OF_INPUT), records;
      }
      if memoryTrack != null {
        var wanted := ReadTrack(buffer, offset, length);
        cache.Kept();
        return Some(wanted), records;
      }
      r, records := ReadThrough(buffer, offset, length);
    }

    /** Lets go of whatever the open took: the pin, the stream, the writer. */
    method Close() returns (ghost ends: seq<R.Op>)
      requires cache.Valid()
      modifies this, cache.Footprint()
      ensures cache.Valid() && cache.promoted == old(cache.promoted) && cache.Footprint() <= old(cache.Footprint())
      ensures Closed()
      ensures ends == Ends(old(key), old(memoryTrackPinned), old(memoryWriterStarted))
      ensures cache.View() == R.Run(old(cache.View()), ends, cache.heapSafeMemoryCacheBytes)
    {
      hide cache.Valid, cache.View, cache.Footprint, R.Run, M.Release, M.End;
      ghost var c, h := cache.View(), cache.heapSafeMemoryCacheBytes;
      RunNone(c, h);
      ends := [];
      if memoryTrackPinned {
        RunSnoc(c, ends, R.ReleaseOp(key), h);
        cache.ReleaseMemoryTrack(key);
        ends := ends + [R.ReleaseOp(key)];
      }
      if memoryWriterStarted {
        RunSnoc(c, ends, R.EndOp(key), h);
        cache.EndMemoryTrack(key);
        ends := ends + [R.EndOp(key)];
      }
      label closing:
      streamHandle := null;
      key, absolutePosition, fileSize := "", 0, 0;
      memoryTrack, memoryTrackPinned, memoryPosition, memoryWriterStarted := null, false, 0, false;
      cache.Kept@closing();
    }
  }

  // ---- What a session takes and gives back ----

  /** Records change no counts and are always allowed. */
  lemma {:induction false} RecordsCount(w: P.World, ops: seq<R.Op>, key: Key, total: int, h: int)
    requires Records(ops, key, total)
    ensures P.WorldRun(w, ops, h).readers == w.readers && P.WorldRun(w, ops, h).writers == w.writers
    ensures P.AllAllowed(w, ops, h)
    decreases |ops|
  {
    if ops != [] {
      RecordsCount(P.WorldStep(w, ops[0], h), ops[1..], key, total, h);
    }
  }

  lemma WorldJoin(w: P.World, a: seq<R.Op>, b: seq<R.Op>, h: int)
    ensures P.WorldRun(w, a + b, h) == P.WorldRun(P.WorldRun(w, a, h), b, h)
    ensures P.AllAllowed(w, a + b, h) == (P.AllAllowed(w, a, h) && P.AllAllowed(P.WorldRun(w, a, h), b, h))
    decreases |a|
  {
    if a == [] {
      assert a + b == b;
    } else {
      assert (a + b)[1..] == a[1..] + b;
      WorldJoin(P.WorldStep(w, a[0], h), a[1..], b, h);
    }
  }

  lemma WorldOne(w: P.World, op: R.Op, h: int)
    ensures P.WorldRun(w, [op], h) == P.WorldStep(w, op, h) && P.AllAllowed(w, [op], h) == P.Allowed(w, op, h)
  {
    assert P.WorldRun(P.WorldStep(w, op, h), [], h) == P.WorldStep(w, op, h);
    assert P.AllAllowed(P.WorldStep(w, op, h), [], h);
  }

  /** The cache of a world's run is the run of its cache: what Open, Read and Close report of theirs. */
  lemma {:induction false} WorldCache(w: P.World, ops: seq<R.Op>, h: int)
    ensures P.WorldRun(w, ops, h).cache == R.Run(w.cache, ops, h)
    decreases |ops|
  {
    if ops != [] {
      WorldCache(P.WorldStep(w, ops[0], h), ops[1..], h);
    }
  }

  /** An open that hits takes one pin; one that starts a writer takes one writer; nothing else is taken. */
  lemma AsksTake(w: P.World, key: Key, size: nat, useMemory: bool, populate: bool, streamed: bool, h: int)
    requires streamed ==> !(useMemory && M.Has(w.cache.complete, key))
    ensures var w' := P.WorldRun(w, Asks(useMemory, populate, key, size, streamed), h);
            && w'.readers == (if useMemory && M.Has(w.cache.complete, key) then P.Inc(w.readers, key) else w.readers)
            && w'.writers == (if streamed && populate && M.Begin(w.cache, key, size).0 then P.Inc(w.writers, key)
                              else w.writers)
    ensures P.AllAllowed(w, Asks(useMemory, populate, key, size, streamed), h)
  {
    var first := if useMemory then [R.AcquireOp(key)] else [];
    var second := if populate && streamed then [R.BeginOp(key, size)] else [];
    var mid := P.WorldRun(w, first, h);
    WorldJoin(w, first, second, h);
    if useMemory {
      WorldOne(w, R.AcquireOp(key), h);
    }
    if populate && streamed {
      assert mid == w;
      WorldOne(w, R.BeginOp(key, size), h);
    }
  }

  lemma EndsGive(w: P.World, key: Key, pinned: bool, started: bool, h: int)
    requires pinned ==> P.Count(w.readers, key) > 0
    requires started ==> P.Count(w.writers, key) > 0
    ensures var w' := P.WorldRun(w, Ends(key, pinned, started), h);
            && w'.readers == (if pinned then P.Dec(w.readers, key) else w.readers)
            && w'.writers == (if started then P.Dec(w.writers, key) else w.writers)
    ensures P.AllAllowed(w, Ends(key, pinned, started), h)
  {
    var first := if pinned then [R.ReleaseOp(key)] else [];
    var second := if started then [R.EndOp(key)] else [];
    WorldJoin(w, first, second, h);
    if pinned {
      WorldOne(w, R.ReleaseOp(key), h);
    }
    if started {
      WorldOne(P.WorldRun(w, first, h), R.EndOp(key), h);
    }
  }

  /** A whole session of a source - what Open asked, all the records of its reads, what Close says - keeps to the
      protocol, so every count is conserved, and gives back exactly what it took. */
  lemma SessionBalanced(w: P.World, key: Key, size: nat, useMemory: bool, populate: bool, streamed: bool,
                        records: seq<R.Op>, h: int, k: Key)
    requires P.Conserved(w) && Records(records, key, size)
    requires streamed ==> !(useMemory && M.Has(w.cache.complete, key))
    ensures var pinned := useMemory && M.Has(w.cache.complete, key);
            var started := streamed && populate && M.Begin(w.cache, key, size).0;
            var session := Asks(useMemory, populate, key, size, streamed) + records + Ends(key, pinned, started);
            var w' := P.WorldRun(w, session, h);
            && P.AllAllowed(w, session, h) && P.Conserved(w')
            && P.Count(w'.readers, k) == P.Count(w.readers, k) && P.Count(w'.writers, k) == P.Count(w.writers, k)
  {
    var pinned := useMemory && M.Has(w.cache.complete, key);
    var started := streamed && populate && M.Begin(w.cache, key, size).0;
    var asked := Asks(useMemory, populate, key, size, streamed);
    var w1 := P.WorldRun(w, asked, h);
    var w2 := P.WorldRun(w1, records, h);
    hide P.WorldRun, P.AllAllowed, Asks, Ends, Records, P.Conserved, M.Begin;
    AsksTake(w, key, size, useMemory, populate, streamed, h);
    WorldJoin(w, asked, records, h);
    RecordsCount(w1, records, key, size, h);
    WorldJoin(w, asked + records, Ends(key, pinned, started), h);
    EndsGive(w2, key, pinned, started, h);
    P.RunConserves(w, asked + records + Ends(key, pinned, started), h);
  }

  /** The answers of a hit and of a miss to the same request differ exactly when a length was asked for that the
      file does not have after the position. */
  lemma OpenAnswers(position: nat, length: int, size: nat)
    requires length >= LENGTH_UNSET
    ensures var rest := RequestEnd(position, length, size) - Min(position, size);
            (if length == LENGTH_UNSET then rest else length) == rest
            <==> length == LENGTH_UNSET || length <= size - Min(position, size)
  {
  }

  /** Opens, reads to the end with buffers of `chunk` bytes, and closes: the bytes are those of the request in
      the file of the size the source found, the server's unless the track was in RAM. */
  method Play(source: IrohDataSource, key: Key, position: nat, length: int, connected: bool, server: seq<Byte>,
              chunk: nat)
    returns (bytes: Option<seq<Byte>>, hit: bool, ghost size: nat)
    requires source.cache.Valid() && source.Closed() && length >= LENGTH_UNSET && chunk > 0
    requires server == source.cache.file(key, |server|)
    modifies source, source.cache.Footprint()
    ensures source.cache.Valid() && source.Closed() && |source.cache.file(key, size)| == size
    ensures hit == (connected && source.useMemoryCache && M.Has(old(source.cache.View()).complete, key))
    ensures !hit ==> size == |server|
    ensures hit ==> bytes.Some?
    ensures bytes.Some? ==>
              bytes.value == source.cache.file(key, size)[Min(position, size)..RequestEnd(position, length, size)]
  {
    hide *;
    source.cache.FileSize(key, |server|);
    size := |server|;
    var r;
    ghost var asked, records;
    r, asked, records := source.Open(key, position, length, connected, server);
    label ready:
    hit := source.memoryTrackPinned;
    bytes := None;
    if r.Some? {
      source.ServesFile(position, length);
      size := source.fileSize;
      var buffer := new Byte[chunk];
      source.cache.Kept@ready();
      ghost var before := source.cache.Footprint();
      label draining:
      bytes := Drain(source, buffer);
      assert forall o :: o in source.cache.Footprint() && o !in before ==> fresh@draining(o);
    }
    ghost var ends := source.Close();
  }

  method Drain(source: IrohDataSource, buffer: array<Byte>) returns (bytes: Option<seq<Byte>>)
    requires source.cache.Valid() && (source.OnTrack() || source.OnStream()) && buffer.Length > 0
    modifies source`remaining, source`absolutePosition, source`memoryPosition, source.streamHandle, buffer,
             source.cache.Footprint()
    ensures source.cache.Valid() && fresh(source.cache.Footprint() - old(source.cache.Footprint()))
    ensures source.memoryTrackPinned ==> bytes.Some?
    ensures bytes.Some? ==> bytes.value == old(source.Rest())
  {
    hide *;
    var got := [];
    ghost var whole := source.Rest();
    assert got + source.Rest() == whole;
    while true
      invariant source.cache.Valid() && fresh(source.cache.Footprint() - old(source.cache.Footprint()))
      invariant source.OnTrack() || source.OnStream()
      invariant got + source.Rest() == whole
      decreases |source.Rest()|
    {
      ghost var was, rest, before := buffer[..], source.Rest(), source.cache.Footprint();
      label reading:
      var r;
      ghost var records;
      r, records := source.Read(buffer, 0, buffer.Length);
      assert forall o :: o in source.cache.Footprint() && o !in before ==> fresh@reading(o);
      if r.None? {
        return None;
      }
      if r.value == END_OF_INPUT {
        assert got + [] == got;
        return Some(got);
      }
      DeliveredJoin(was, buffer[..], got, rest, source.Rest(), r.value, buffer.Length);
      got := got + buffer[..r.value];
    }
  }

  lemma DeliveredJoin(was: seq<Byte>, now: seq<Byte>, got: seq<Byte>, before: seq<Byte>, after: seq<Byte>, n: int,
                      length: nat)
    requires Delivered(was, now, 0, before, after, n, length) && length > 0
    ensures 0 < n <= |now| && |after| < |before|
    ensures (got + now[..n]) + after == got + before
  {
    assert now[..n] == before[..n];
    assert before == before[..n] + before[n..];
  }

  /** A read of n bytes of f at `at` delivers them, and leaves the rest of the request. */
  lemma StreamPiece(was: seq<Byte>, now: seq<Byte>, offset: nat, f: seq<Byte>, at: nat, remaining: nat, n: nat,
                    length: nat)
    requires 0 < n <= remaining && n <= length && at + n <= |f| && offset + n <= |was|
    requires now == Spliced(was, offset, f[at..at + n])
    ensures now[offset..offset + n] == f[at..at + n]
    ensures Min(at + remaining, |f|) >= at + n
    ensures Delivered(was, now, offset, f[at..Min(at + remaining, |f|)], f[at + n..Min(at + remaining, |f|)], n, length)
  {
    RestStep(f, at, remaining, n);
    SplicedSlice(was, offset, f[at..at + n]);
  }

  lemma Lesser(a: int, b: int)
    requires a <= b
    ensures Min(a, b) == a
  {
  }

  /** A read of a track that reads as the file is never short of a chunk. */
  lemma TrackRead(was: seq<Byte>, now: seq<Byte>, offset: nat, f: seq<Byte>, v: FlatView, at: nat, remaining: nat,
                  n: nat, length: nat,
                  got: Option<int>)
    requires n <= remaining && n <= length && (length > 0 ==> n > 0) && at + remaining <= |f| && offset + n <= |was|
    requires v == Somes(f)
    requires if n == 0 then got == Some(0) && now == was
             else if !Readable(v, at, n) then got == None
             else got == Some(n) && now == Spliced(was, offset, Slice(v, at, n))
    ensures got == Some(n) && Delivered(was, now, offset, f[at..at + remaining], f[at + n..at + remaining], n, length)
  {
    hide Somes, Slice, Readable, Spliced;
    SomesRead(f, at, n);
    RestStep(f, at, remaining, n);
    SplicedNothing(was, offset);
    assert f[at..at + remaining][..0] == [];
  }

  lemma SliceStep(f: seq<Byte>, at: nat, n: nat, end: nat)
    requires at + n <= end <= |f|
    ensures f[at..end][..n] == f[at..at + n] && f[at..end][n..] == f[at + n..end]
  {
  }

  lemma RestStep(f: seq<Byte>, at: nat, remaining: nat, n: nat)
    requires n <= remaining && at + n <= |f|
    ensures var rest := f[at..Min(at + remaining, |f|)];
            rest[..n] == f[at..at + n] && rest[n..] == f[at + n..Min(at + remaining, |f|)]
  {
    SliceStep(f, at, n, Min(at + remaining, |f|));
  }

  /** n bytes of the rest have been delivered into the buffer, at least one when some were asked for. */
  predicate Delivered(was: seq<Byte>, now: seq<Byte>, offset: nat, before: seq<Byte>, after: seq<Byte>, n: int,
                      length: nat) {
    && 0 <= n <= length && n <= |before| && (length > 0 ==> n > 0) && after == before[n..]
    && offset + n <= |was| && now == Spliced(was, offset, before[..n])
  }

  lemma SplicedNothing(was: seq<Byte>, offset: nat)
    requires offset <= |was|
    ensures Spliced(was, offset, []) == was
  {
  }

  lemma SplicedSlice(was: seq<Byte>, offset: nat, data: seq<Byte>)
    requires offset + |data| <= |was|
    ensures Spliced(was, offset, data)[offset..offset + |data|] == data
  {
  }

  lemma RunNone(c: M.Cache, h: int)
    ensures R.Run(c, [], h) == c
  {
  }

  lemma RunJoin(c: M.Cache, a: seq<R.Op>, b: seq<R.Op>, h: int)
    ensures R.Run(c, a + b, h) == R.Run(R.Run(c, a, h), b, h)
    decreases |a|
  {
    if a == [] {
      assert a + b == b;
    } else {
      assert (a + b)[1..] == a[1..] + b;
      RunJoin(R.Step(c, a[0], h).1, a[1..], b, h);
    }
  }
}
