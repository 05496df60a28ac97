/** The RAM track cache as the object the source keeps under its lock (NativeAudioCache.kt).

    Each method leaves exactly the value that CacheModel gives for its operation (`View`), and the byte
    contents follow one file per key and size: recorded ranges of a partial track, and all of every track
    that was ever promoted, agree with that file. */
module AudioCaches {
  import opened Wrappers
  import opened MemoryRanges
  import opened MemoryTracks
  import M = CacheModel
  import I = CacheInvariants
  import R = CacheRuns

  type Key = M.Key

  function Somes(s: seq<Byte>): FlatView {
    seq(|s|, i requires 0 <= i < |s| => Some(s[i]))
  }

  /** The stored bytes agree with the file wherever a range was recorded. */
  ghost predicate Agrees(v: FlatView, ranges: seq<Range>, file: seq<Byte>) {
    |v| == |file| && forall p :: 0 <= p < |v| && InRanges(ranges, p) ==> v[p] == Some(file[p])
  }

  lemma WrittenAgrees(v: FlatView, ranges: seq<Range>, file: seq<Byte>, start: nat, data: seq<Byte>)
    requires Agrees(v, ranges, file) && Canonical(ranges, |file|) && |data| > 0
    requires start + |data| <= |file| && data == file[start..start + |data|]
    ensures Agrees(Written(v, start, data), Insert(ranges, start, start + |data|), file)
  {
    InsertCorrect(ranges, start, start + |data|, |file|);
  }

  lemma WholeAgrees(v: FlatView, file: seq<Byte>)
    requires Agrees(v, [Range(0, |file|)], file)
    ensures v == Somes(file)
  {
    forall p | 0 <= p < |v| ensures v[p] == Some(file[p]) {
      assert Covers([Range(0, |file|)][0], p);
    }
  }

  lemma NothingAgrees(v: FlatView, file: seq<Byte>)
    requires |v| == |file|
    ensures Agrees(v, [], file)
  {
  }

  class PartialMemoryTrack {
    const track: MemoryTrack
    var ranges: seq<Range>
    var coveredBytes: int
    var activeWriters: nat

    function Value(): M.Partial
      reads this
    {
      M.Partial(track.size, ranges, coveredBytes, activeWriters)
    }

    constructor (track: MemoryTrack)
      ensures this.track == track && Value() == M.Partial(track.size, [], 0, 0)
    {
      this.track, ranges, coveredBytes, activeWriters := track, [], 0, 0;
    }

    method AddMemoryRange(start: int, end: int)
      requires Canonical(ranges, track.size) && 0 <= start < end <= track.size
      modifies this
      ensures ranges == Insert(old(ranges), start, end)
      ensures coveredBytes == old(coveredBytes) + Total(ranges) - Total(old(ranges))
      ensures activeWriters == old(activeWriters)
    {
      var mergedStart, mergedEnd := start, end;
      var newlyCovered := end - start;
      var remaining := [];
      ghost var was := ranges;
      for k := 0 to |ranges|
        invariant ranges == was && coveredBytes == old(coveredBytes) && activeWriters == old(activeWriters)
        invariant Passes(ranges, start, end, k) == Loop(remaining, mergedStart, mergedEnd, newlyCovered)
      {
        var range := ranges[k];
        if range.end < mergedStart || range.start > mergedEnd {
          remaining := remaining + [range];
        } else {
          var overlapStart := Max(range.start, start);
          var overlapEnd := Min(range.end, end);
          if overlapEnd > overlapStart {
            newlyCovered := newlyCovered - (overlapEnd - overlapStart);
          }
          mergedStart := Min(mergedStart, range.start);
          mergedEnd := Max(mergedEnd, range.end);
        }
      }
      LoopResult(ranges, track.size, start, end);
      remaining := remaining + [Range(mergedStart, mergedEnd)];
      ranges := SortByStart(remaining);
      coveredBytes := coveredBytes + Max(newlyCovered, 0);
    }

    /** A range of the file arrives: its bytes are stored and the range recorded. */
    method Receive(start: nat, buffer: array<Byte>, offset: nat, n: nat, ghost file: seq<Byte>)
      requires track.Valid() && Agrees(track.Bytes(), ranges, file) && Canonical(ranges, track.size)
      requires n > 0 && start + n <= track.size && offset + n <= buffer.Length
      requires buffer[offset..offset + n] == file[start..start + n]
      modifies this, track
      ensures track.Valid() && Agrees(track.Bytes(), ranges, file)
      ensures Value() == M.Extend(old(Value()), start, n)
    {
      WrittenAgrees(track.Bytes(), ranges, file, start, buffer[offset..offset + n]);
      track.Write(start, buffer, offset, n);
      AddMemoryRange(start, start + n);
    }
  }

  /** Two entry lists with the same keys have the same indices. */
  lemma SameIndex<V, W>(a: seq<(Key, V)>, b: seq<(Key, W)>, k: Key)
    requires |a| == |b| && forall i :: 0 <= i < |a| ==> a[i].0 == b[i].0
    ensures M.IndexOf(a, k) == M.IndexOf(b, k)
  {
  }

  function SizesOf(m: seq<(Key, MemoryTrack)>): (r: seq<(Key, int)>)
    ensures |r| == |m|
  {
    seq(|m|, i requires 0 <= i < |m| => (m[i].0, m[i].1.size))
  }

  ghost function ValuesOf(m: seq<(Key, PartialMemoryTrack)>): (r: seq<(Key, M.Partial)>)
    reads set e | e in m :: e.1
    ensures |r| == |m|
  {
    seq(|m|, i requires 0 <= i < |m| reads set e | e in m :: e.1 => (m[i].0, m[i].1.Value()))
  }

  lemma UnpinnedIndex(m: seq<(Key, MemoryTrack)>, pins: map<Key, nat>, i: nat)
    requires i <= |m|
    requires forall j :: 0 <= j < i ==> m[j].0 in pins && pins[m[j].0] > 0
    requires i < |m| ==> m[i].0 !in pins || pins[m[i].0] == 0
    ensures M.FirstUnpinned(SizesOf(m), pins) == i
    ensures i < |m| ==> SizesOf(m)[i] == (m[i].0, m[i].1.size)
  {
    var j := M.FirstUnpinned(SizesOf(m), pins);
    assert j < |m| ==> SizesOf(m)[j].0 == m[j].0;
    assert i < |m| ==> SizesOf(m)[i].0 == m[i].0;
  }

  lemma RemoveSizes(m: seq<(Key, MemoryTrack)>, i: nat)
    requires i < |m|
    ensures SizesOf(M.RemoveAt(m, i)) == M.RemoveAt(SizesOf(m), i)
  {
  }

  lemma IdleIndex(m: seq<(Key, PartialMemoryTrack)>, i: nat)
    requires i <= |m|
    requires forall j :: 0 <= j < i ==> m[j].1.activeWriters > 0
    requires i < |m| ==> m[i].1.activeWriters == 0
    ensures M.FirstIdle(ValuesOf(m)) == i
    ensures i < |m| ==> ValuesOf(m)[i] == (m[i].0, m[i].1.Value())
  {
    var j := M.FirstIdle(ValuesOf(m));
    assert j < |m| ==> ValuesOf(m)[j].1.writers == m[j].1.activeWriters;
    assert i < |m| ==> ValuesOf(m)[i].1.writers == m[i].1.activeWriters;
  }

  lemma RemoveValues(m: seq<(Key, PartialMemoryTrack)>, i: nat)
    requires i < |m|
    ensures ValuesOf(M.RemoveAt(m, i)) == M.RemoveAt(ValuesOf(m), i)
  {
  }

  /** Only the object of entry i has changed since `before`. */
  lemma ValueReplaced(m: seq<(Key, PartialMemoryTrack)>, before: seq<(Key, M.Partial)>, i: nat)
    requires i < |m| == |before|
    requires forall j :: 0 <= j < |m| && j != i ==> before[j] == (m[j].0, m[j].1.Value())
    ensures ValuesOf(m) == before[i := (m[i].0, m[i].1.Value())]
  {
  }

  lemma AppendSizes(m: seq<(Key, MemoryTrack)>, k: Key, t: MemoryTrack)
    ensures SizesOf(m + [(k, t)]) == SizesOf(m) + [(k, t.size)]
  {
  }

  lemma AppendValues(m: seq<(Key, PartialMemoryTrack)>, k: Key, p: PartialMemoryTrack)
    ensures ValuesOf(m + [(k, p)]) == ValuesOf(m) + [(k, p.Value())]
  {
  }

  lemma SizesIndex(m: seq<(Key, MemoryTrack)>, k: Key)
    ensures M.IndexOf(SizesOf(m), k) == M.IndexOf(m, k)
    ensures M.Has(m, k) ==> SizesOf(m)[M.IndexOf(m, k)] == (k, m[M.IndexOf(m, k)].1.size)
  {
    SameIndex(SizesOf(m), m, k);
  }

  lemma ValuesIndex(m: seq<(Key, PartialMemoryTrack)>, k: Key)
    ensures M.IndexOf(ValuesOf(m), k) == M.IndexOf(m, k)
    ensures M.Has(m, k) ==> ValuesOf(m)[M.IndexOf(m, k)] == (k, m[M.IndexOf(m, k)].1.Value())
  {
    SameIndex(ValuesOf(m), m, k);
  }

  /** What an insertion over a stored entry comes to. */
  lemma InsertOver(c: M.Cache, k: Key, size: int)
    requires M.Has(c.complete, k) && 0 < size <= c.limit
    ensures var i := M.IndexOf(c.complete, k);
            var r := M.FreeComplete(c.(complete := M.RemoveAt(c.complete, i),
                                       memoryBytes := c.memoryBytes - c.complete[i].1), size);
            M.Insert(c, k, size) == (r.0, M.AddComplete(r.1, k, if r.0 then size else c.complete[i].1))
  {
  }

  lemma DistinctEntries(m: seq<(Key, PartialMemoryTrack)>)
    requires M.DistinctKeys(ValuesOf(m))
    ensures M.DistinctKeys(m)
  {
    forall i, j | 0 <= i < j < |m| ensures m[i].0 != m[j].0 {
      assert ValuesOf(m)[i].0 == m[i].0 && ValuesOf(m)[j].0 == m[j].0;
    }
  }

  lemma ReceiveIs(c: M.Cache, k: Key, start: int, n: int)
    requires M.Has(c.partials, k)
    ensures var p := M.Extend(M.PartialOf(c, k), start, n);
            M.Receive(c, k, start, n)
            == if p.covered < p.size then (false, M.SetPartial(c, k, p)) else M.Promote(M.SetPartial(c, k, p), k)
  {
    hide M.Extend, M.SetPartial, M.Promote;
  }

  class NativeAudioCache {
    var memoryTracks: seq<(Key, MemoryTrack)>
    var memoryTrackPins: map<Key, nat>
    var partialMemoryTracks: seq<(Key, PartialMemoryTrack)>
    var memoryBytes: int
    var partialMemoryBytes: int
    var memoryCacheBytes: int
    const heapSafeMemoryCacheBytes: int

    /** Every complete entry there has been. */
    ghost var promoted: set<(Key, MemoryTrack)>
    /** The file each key and size stands for. */
    ghost const file: (Key, nat) -> seq<Byte>

    ghost function PartialObjects(): set<PartialMemoryTrack>
      reads this
    {
      set e | e in partialMemoryTracks :: e.1
    }

    ghost function View(): M.Cache
      reads this, PartialObjects()
    {
      M.Cache(SizesOf(memoryTracks), memoryTrackPins, ValuesOf(partialMemoryTracks),
              memoryBytes, partialMemoryBytes, memoryCacheBytes)
    }

    /** Tracks that may still be written. */
    ghost function OpenTracks(): set<MemoryTrack>
      reads this
    {
      set e | e in partialMemoryTracks :: e.1.track
    }

    ghost function DoneTracks(): set<MemoryTrack>
      reads this
    {
      set e | e in promoted :: e.1
    }

    /** What an operation may change: the cache, its partial entries and their tracks. */
    ghost function Footprint(): (r: set<object>)
      reads this
      ensures this in r
      ensures forall o :: o in r ==> o is NativeAudioCache || o is PartialMemoryTrack || o is MemoryTrack
    {
      {this} + PartialObjects() + OpenTracks()
    }

    ghost predicate Separate()
      reads this
    {
      && (forall e, f :: e in partialMemoryTracks && f in partialMemoryTracks && e != f ==>
          e.1 != f.1 && e.1.track != f.1.track)
      && OpenTracks() !! DoneTracks()
    }

    /** Recorded ranges and promoted tracks hold the bytes of the file. */
    ghost predicate Content()
      reads this, PartialObjects(), OpenTracks(), DoneTracks()
    {
      && (forall k, n :: |file(k, n)| == n)
      && (forall e :: e in partialMemoryTracks ==>
                        e.1.track.Valid() && Agrees(e.1.track.Bytes(), e.1.ranges, file(e.0, e.1.track.size)))
      && (forall e :: e in promoted ==> e.1.Valid() && e.1.Bytes() == Somes(file(e.0, e.1.size)))
      && (forall e :: e in memoryTracks ==> e in promoted)
    }

    ghost predicate Valid()
      reads this, PartialObjects(), OpenTracks(), DoneTracks()
    {
      R.Inv(View()) && Separate() && Content()
    }

    constructor (heapSafe: int, ghost file: (Key, nat) -> seq<Byte>)
      requires forall k, n :: |file(k, n)| == n
      ensures Valid() && fresh(Footprint()) && this.file == file && heapSafeMemoryCacheBytes == heapSafe
      ensures View() == M.Cache([], map[], [], 0, 0, Min(64 * 1024 * 1024, heapSafe))
    {
      memoryTracks, memoryTrackPins, partialMemoryTracks := [], map[], [];
      memoryBytes, partialMemoryBytes := 0, 0;
      memoryCacheBytes := Min(64 * 1024 * 1024, heapSafe);
      heapSafeMemoryCacheBytes := heapSafe;
      promoted := {};
      this.file := file;
    }

    // ---- Eviction ----

    /** Entries have only been removed. */
    twostate predicate Shrinks()
      reads this
    {
      && (forall e :: e in memoryTracks ==> e in old(memoryTracks))
      && (forall e :: e in partialMemoryTracks ==> e in old(partialMemoryTracks))
      && promoted == old(promoted)
    }

    method EvictOldestMemoryTrackLocked() returns (evicted: bool)
      modifies this`memoryTracks, this`memoryTrackPins, this`memoryBytes
      ensures Shrinks()
      ensures evicted == M.CanEvictComplete(old(View()))
      ensures View() == if evicted then M.EvictComplete(old(View())) else old(View())
    {
      var i := 0;
      while i < |memoryTracks| && memoryTracks[i].0 in memoryTrackPins && memoryTrackPins[memoryTracks[i].0] > 0
        invariant 0 <= i <= |memoryTracks|
        invariant forall j :: 0 <= j < i ==>
                    memoryTracks[j].0 in memoryTrackPins && memoryTrackPins[memoryTracks[j].0] > 0
      {
        i := i + 1;
      }
      UnpinnedIndex(memoryTracks, memoryTrackPins, i);
      if i == |memoryTracks| {
        return false;
      }
      RemoveSizes(memoryTracks, i);
      hide M.FirstUnpinned, SizesOf;
      var oldest := memoryTracks[i];
      memoryTracks := M.RemoveAt(memoryTracks, i);
      memoryTrackPins := memoryTrackPins - {oldest.0};
      memoryBytes := memoryBytes - oldest.1.size;
      evicted := true;
    }

    method EvictOldestInactivePartialLocked() returns (evicted: bool)
      modifies this`partialMemoryTracks, this`partialMemoryBytes
      ensures Shrinks()
      ensures evicted == M.CanEvictPartial(old(View()))
      ensures View() == if evicted then M.EvictPartial(old(View())) else old(View())
    {
      var i := 0;
      while i < |partialMemoryTracks| && partialMemoryTracks[i].1.activeWriters > 0
        invariant 0 <= i <= |partialMemoryTracks|
        invariant forall j :: 0 <= j < i ==> partialMemoryTracks[j].1.activeWriters > 0
      {
        i := i + 1;
      }
      IdleIndex(partialMemoryTracks, i);
      if i == |partialMemoryTracks| {
        return false;
      }
      RemoveValues(partialMemoryTracks, i);
      var entry := partialMemoryTracks[i];
      partialMemoryTracks := M.RemoveAt(partialMemoryTracks, i);
      partialMemoryBytes := partialMemoryBytes - entry.1.track.size;
      evicted := true;
    }

    method TrimMemoryCacheLocked()
      modifies this`memoryTracks, this`memoryTrackPins, this`memoryBytes, this`partialMemoryTracks,
               this`partialMemoryBytes
      ensures Shrinks() && View() == M.Trim(old(View()))
    {
      while memoryBytes + partialMemoryBytes > memoryCacheBytes
        invariant Shrinks() && M.FreeAny(View(), 0) == M.FreeAny(old(View()), 0)
        decreases |memoryTracks| + |partialMemoryTracks|
      {
        var evicted := EvictOldestMemoryTrackLocked();
        if evicted {
          continue;
        }
        evicted := EvictOldestInactivePartialLocked();
        if !evicted {
          break;
        }
      }
    }

    method ReservePartialMemoryLocked(bytes: int) returns (reserved: bool)
      modifies this`memoryTracks, this`memoryTrackPins, this`memoryBytes, this`partialMemoryTracks,
               this`partialMemoryBytes
      ensures Shrinks() && (reserved, View()) == M.Reserve(old(View()), bytes)
    {
      if bytes > memoryCacheBytes {
        return false;
      }
      while memoryBytes + partialMemoryBytes + bytes > memoryCacheBytes
        invariant Shrinks() && M.FreeAny(View(), bytes) == M.FreeAny(old(View()), bytes)
        decreases |memoryTracks| + |partialMemoryTracks|
      {
        var evicted := EvictOldestMemoryTrackLocked();
        if evicted {
          continue;
        }
        evicted := EvictOldestInactivePartialLocked();
        if !evicted {
          return false;
        }
      }
      reserved := true;
    }

    /** The eviction loop of an insertion. */
    method MakeRoomLocked(size: int) returns (fits: bool)
      modifies this`memoryTracks, this`memoryTrackPins, this`memoryBytes
      ensures Shrinks() && (fits, View()) == M.FreeComplete(old(View()), size)
      ensures forall e :: e in memoryTracks ==> e in old(memoryTracks)
    {
      while memoryBytes + partialMemoryBytes + size > memoryCacheBytes
        invariant Shrinks() && M.FreeComplete(View(), size) == M.FreeComplete(old(View()), size)
        decreases |memoryTracks|
      {
        var evicted := EvictOldestMemoryTrackLocked();
        if !evicted {
          return false;
        }
      }
      fits := true;
    }

    method PutCompleteLocked(key: Key, track: MemoryTrack)
      modifies this`memoryTracks, this`memoryBytes
      ensures View() == M.AddComplete(old(View()), key, track.size)
      ensures memoryTracks == old(memoryTracks) + [(key, track)]
    {
      AppendSizes(memoryTracks, key, track);
      memoryTracks := memoryTracks + [(key, track)];
      memoryBytes := memoryBytes + track.size;
    }

    method InsertMemoryTrackLocked(key: Key, track: MemoryTrack) returns (inserted: bool)
      modifies this`memoryTracks, this`memoryTrackPins, this`memoryBytes
      ensures (inserted, View()) == M.Insert(old(View()), key, track.size)
      ensures forall e :: e in memoryTracks ==> e in old(memoryTracks) || (inserted && e == (key, track))
    {
      if track.size <= 0 || track.size > memoryCacheBytes {
        return false;
      }
      if !M.Has(memoryTracks, key) {
        SizesIndex(memoryTracks, key);
        inserted := MakeRoomLocked(track.size);
        if inserted {
          PutCompleteLocked(key, track);
        }
      } else {
        inserted := ReplaceLocked(key, track);
      }
    }

    /** Insertion over a stored entry: the old one is taken out first and put back when there is no room. */
    method ReplaceLocked(key: Key, track: MemoryTrack) returns (inserted: bool)
      requires M.Has(memoryTracks, key) && 0 < track.size <= memoryCacheBytes
      modifies this`memoryTracks, this`memoryTrackPins, this`memoryBytes
      ensures (inserted, View()) == M.Insert(old(View()), key, track.size)
      ensures forall e :: e in memoryTracks ==> e in old(memoryTracks) || (inserted && e == (key, track))
    {
      hide *;
      StoredEntry(key, track.size);
      var i := M.IndexOf(memoryTracks, key);
      var previous := memoryTracks[i].1;
      RemoveCompleteLocked(i);
      inserted := MakeRoomLocked(track.size);
      PutCompleteLocked(key, if inserted then track else previous);
    }

    lemma StoredEntry(key: Key, size: int)
      requires M.Has(memoryTracks, key) && 0 < size <= memoryCacheBytes
      ensures var i, c := M.IndexOf(memoryTracks, key), View();
              && i < |memoryTracks| && memoryTracks[i] in memoryTracks && memoryTracks[i].0 == key
              && M.IndexOf(c.complete, key) == i
              && i < |c.complete| && c.complete[i].1 == memoryTracks[i].1.size
              && var r := M.FreeComplete(c.(complete := M.RemoveAt(c.complete, i),
                                            memoryBytes := c.memoryBytes - c.complete[i].1), size);
                 M.Insert(c, key, size) == (r.0, M.AddComplete(r.1, key, if r.0 then size else c.complete[i].1))
    {
      SizesIndex(memoryTracks, key);
      InsertOver(View(), key, size);
    }

    method RemoveCompleteLocked(i: nat)
      requires i < |memoryTracks|
      modifies this`memoryTracks, this`memoryBytes
      ensures forall e :: e in memoryTracks ==> e in old(memoryTracks)
      ensures var c := old(View());
              View() == c.(complete := M.RemoveAt(c.complete, i), memoryBytes := c.memoryBytes - c.complete[i].1)
    {
      RemoveSizes(memoryTracks, i);
      memoryBytes := memoryBytes - memoryTracks[i].1.size;
      memoryTracks := M.RemoveAt(memoryTracks, i);
    }

    method DropPartialLocked(key: Key)
      requires M.Has(partialMemoryTracks, key) && M.DistinctKeys(partialMemoryTracks)
      modifies this`partialMemoryTracks, this`partialMemoryBytes
      ensures Shrinks() && !M.Has(partialMemoryTracks, key)
      ensures forall e :: e in partialMemoryTracks ==> e in old(partialMemoryTracks) && e.0 != key
      ensures M.Has(old(View()).partials, key) && View() == M.DropPartial(old(View()), key)
    {
      var i := M.IndexOf(partialMemoryTracks, key);
      ValuesIndex(partialMemoryTracks, key);
      RemoveValues(partialMemoryTracks, i);
      I.RemoveAtEntries(partialMemoryTracks, i);
      hide ValuesOf, M.IndexOf;
      partialMemoryBytes := partialMemoryBytes - partialMemoryTracks[i].1.track.size;
      partialMemoryTracks := M.RemoveAt(partialMemoryTracks, i);
    }

    /** `e` is the entry of a track just made. */
    ghost predicate Blank(key: Key, r: PartialMemoryTrack?, e: (Key, PartialMemoryTrack))
      reads if r == null then {} else {r, r.track}
    {
      r != null && e == (key, r) && r.track.Valid() && r.ranges == []
    }

    method AddPartialLocked(key: Key, total: int) returns (r: PartialMemoryTrack)
      requires M.ValidTotal(total) && !M.Has(partialMemoryTracks, key)
      modifies this`partialMemoryTracks, this`partialMemoryBytes
      ensures View() == M.NewPartial(old(View()), key, total)
      ensures partialMemoryTracks == old(partialMemoryTracks) + [(key, r)]
      ensures M.Has(partialMemoryTracks, key) && partialMemoryTracks[M.IndexOf(partialMemoryTracks, key)].1 == r
      ensures r.track.size == total && fresh(r) && fresh(r.track) && Blank(key, r, (key, r))
    {
      var track := new MemoryTrack(total);
      r := new PartialMemoryTrack(track);
      AppendValues(partialMemoryTracks, key, r);
      partialMemoryTracks := partialMemoryTracks + [(key, r)];
      partialMemoryBytes := partialMemoryBytes + total;
      assert partialMemoryTracks[|partialMemoryTracks| - 1] == (key, r);
    }

    method EnsurePartialMemoryTrackLocked(key: Key, total: int) returns (r: PartialMemoryTrack?)
      requires M.ValidTotal(total) && M.DistinctKeys(partialMemoryTracks)
      modifies this`memoryTracks, this`memoryTrackPins, this`memoryBytes, this`partialMemoryTracks,
               this`partialMemoryBytes
      ensures (r != null, View()) == M.EnsurePartial(old(View()), key, total)
      ensures forall e :: e in memoryTracks ==> e in old(memoryTracks)
      ensures r != null ==>
                M.Has(partialMemoryTracks, key) && partialMemoryTracks[M.IndexOf(partialMemoryTracks, key)].1 == r
      ensures r != null ==> r.track.size == total
      ensures forall e :: e in partialMemoryTracks ==>
                e in old(partialMemoryTracks) || (Blank(key, r, e) && fresh(e.1) && fresh(e.1.track))
    {
      var i := M.IndexOf(partialMemoryTracks, key);
      ValuesIndex(partialMemoryTracks, key);
      if i < |partialMemoryTracks| {
        var partial := partialMemoryTracks[i].1;
        if partial.track.size == total {
          return partial;
        }
        if partial.activeWriters > 0 {
          return null;
        }
        DropPartialLocked(key);
      }
      hide ValuesOf, M.FreeAny;
      assert forall e :: e in partialMemoryTracks ==> e in old(partialMemoryTracks) && e.0 != key;
      var reserved := ReservePartialMemoryLocked(total);
      if !reserved {
        return null;
      }
      r := AddPartialLocked(key, total);
    }

    // ---- The public operations ----

    lemma FileSize(key: Key, n: nat)
      requires Valid()
      ensures |file(key, n)| == n
    {
    }

    /** Changes elsewhere do not matter. */
    twostate lemma Kept()
      requires old(Valid()) && unchanged(this)
      requires forall e :: e in partialMemoryTracks ==> unchanged(e.1) && unchanged(e.1.track)
      requires forall e :: e in promoted ==> unchanged(e.1)
      ensures Valid() && View() == old(View()) && Footprint() == old(Footprint())
    {
    }

    /** Removing entries, or adding a blank one, keeps the object valid as long as the value it stands for is. */
    twostate lemma StaysValid(key: Key, new r: PartialMemoryTrack?)
      requires old(Valid()) && R.Inv(View()) && promoted == old(promoted)
      requires forall e :: e in memoryTracks ==> e in old(memoryTracks)
      requires forall e :: e in partialMemoryTracks ==>
                             e in old(partialMemoryTracks) || (Blank(key, r, e) && fresh(e.1) && fresh(e.1.track))
      requires forall e :: e in old(partialMemoryTracks) ==> unchanged(e.1.track) && e.1.ranges == old(e.1.ranges)
      requires forall e :: e in promoted ==> unchanged(e.1)
      ensures Valid() && promoted == old(promoted) && fresh(Footprint() - old(Footprint()))
      ensures forall e :: e in memoryTracks ==> e in promoted
    {
      hide R.Inv, View, Agrees, Somes;
      forall e | e in partialMemoryTracks && e !in old(partialMemoryTracks)
        ensures e.1.track.Valid() && Agrees(e.1.track.Bytes(), e.1.ranges, file(e.0, e.1.track.size))
      {
        NothingAgrees(e.1.track.Bytes(), file(e.0, e.1.track.size));
      }
    }

    /** The case of an operation that only reorders and removes entries. */
    twostate lemma ShrinksValid()
      requires old(Valid()) && R.Inv(View()) && Shrinks()
      requires forall e :: e in old(partialMemoryTracks) ==> unchanged(e.1) && unchanged(e.1.track)
      requires forall e :: e in old(promoted) ==> unchanged(e.1)
      ensures Valid() && promoted == old(promoted) && Footprint() <= old(Footprint())
      ensures forall e :: e in memoryTracks ==> e in promoted
    {
      StaysValid("", null);
    }

    method AcquireMemoryTrack(key: Key) returns (r: MemoryTrack?)
      requires Valid()
      modifies this`memoryTracks, this`memoryTrackPins
      ensures Valid() && (r != null, View()) == M.Acquire(old(View()), key) && Footprint() == old(Footprint())
      ensures r != null ==> (key, r) in promoted
    {
      SizesIndex(memoryTracks, key);
      if !M.Has(memoryTracks, key) {
        return null;
      }
      r := PinStored(key);
    }

    /** The hit of an acquire: the entry becomes the youngest and is pinned once more. */
    method PinStored(key: Key) returns (r: MemoryTrack)
      requires Valid() && M.Has(memoryTracks, key)
      modifies this`memoryTracks, this`memoryTrackPins
      ensures Valid() && View() == M.Pin(M.Touch(old(View()), key), key)
      ensures (key, r) in memoryTracks
    {
      hide *;
      StoredPins(key);
      r := TouchLocked(key);
      ShrinksValid();
    }

    lemma StoredPins(key: Key)
      requires Valid() && M.Has(memoryTracks, key)
      ensures M.Has(View().complete, key) && R.Inv(M.Pin(M.Touch(View(), key), key))
    {
      SizesIndex(memoryTracks, key);
      R.PinTouchInv(View(), key);
    }

    /** The access-order read of a stored entry, with a pin. */
    method TouchLocked(key: Key) returns (r: MemoryTrack)
      requires M.Has(memoryTracks, key)
      modifies this`memoryTracks, this`memoryTrackPins
      ensures M.Has(old(View()).complete, key) && View() == M.Pin(M.Touch(old(View()), key), key)
      ensures (key, r) in memoryTracks && Shrinks()
    {
      SizesIndex(memoryTracks, key);
      var i := M.IndexOf(memoryTracks, key);
      r := memoryTracks[i].1;
      RemoveSizes(memoryTracks, i);
      AppendSizes(M.RemoveAt(memoryTracks, i), key, r);
      memoryTracks := M.RemoveAt(memoryTracks, i) + [(key, r)];
      PinLocked(key);
    }

    method PinLocked(key: Key)
      modifies this`memoryTrackPins
      ensures View() == M.Pin(old(View()), key)
    {
      memoryTrackPins := memoryTrackPins[key := (if key in memoryTrackPins then memoryTrackPins[key] else 0) + 1];
    }

    method ReleaseMemoryTrack(key: Key)
      requires Valid()
      modifies this`memoryTracks, this`memoryTrackPins, this`memoryBytes, this`partialMemoryTracks,
               this`partialMemoryBytes
      ensures Valid() && View() == M.Release(old(View()), key) && promoted == old(promoted)
      ensures Footprint() <= old(Footprint())
    {
      hide *;
      ReleasedInv(key);
      UnpinLocked(key);
      TrimMemoryCacheLocked();
      ShrinksValid();
    }

    lemma ReleasedInv(key: Key)
      requires Valid()
      ensures R.Inv(M.Release(View(), key)) && M.Release(View(), key) == M.Trim(M.Unpin(View(), key))
    {
      R.UnpinInv(View(), key);
      R.TrimInv(M.Unpin(View(), key));
    }

    method UnpinLocked(key: Key)
      modifies this`memoryTrackPins
      ensures View() == M.Unpin(old(View()), key)
    {
      if key in memoryTrackPins {
        memoryTrackPins := if memoryTrackPins[key] <= 1 then memoryTrackPins - {key}
                           else memoryTrackPins[key := memoryTrackPins[key] - 1];
      }
    }

    method ResizeMemoryCache(bytes: int)
      requires Valid()
      modifies this`memoryTracks, this`memoryTrackPins, this`memoryBytes, this`partialMemoryTracks,
               this`partialMemoryBytes,
               this`memoryCacheBytes
      ensures Valid() && View() == M.Resize(old(View()), bytes, heapSafeMemoryCacheBytes) && promoted == old(promoted)
    {
      hide *;
      ResizedInv(bytes);
      SetLimitLocked(bytes);
      TrimMemoryCacheLocked();
      ShrinksValid();
    }

    lemma ResizedInv(bytes: int)
      requires Valid()
      ensures R.Inv(M.Resize(View(), bytes, heapSafeMemoryCacheBytes))
      ensures M.Resize(View(), bytes, heapSafeMemoryCacheBytes)
           == M.Trim(View().(limit := Min(M.Clamp(bytes, M.MIN_CACHE_BYTES, M.MAX_CACHE_BYTES),
                                          heapSafeMemoryCacheBytes)))
    {
      R.ResizeInv(View(), bytes, heapSafeMemoryCacheBytes);
    }

    method SetLimitLocked(bytes: int)
      modifies this`memoryCacheBytes
      ensures View() == old(View()).(limit := Min(M.Clamp(bytes, M.MIN_CACHE_BYTES, M.MAX_CACHE_BYTES),
                                                  heapSafeMemoryCacheBytes))
    {
      var configured := M.Clamp(bytes, M.MIN_CACHE_BYTES, M.MAX_CACHE_BYTES);
      memoryCacheBytes := Min(configured, heapSafeMemoryCacheBytes);
    }

    function Entry(key: Key): PartialMemoryTrack
      requires M.Has(partialMemoryTracks, key)
      reads this
    {
      partialMemoryTracks[M.IndexOf(partialMemoryTracks, key)].1
    }

    /** The object of entry i is no other entry's. */
    lemma OwnObject(i: nat)
      requires R.Inv(View()) && Separate() && i < |partialMemoryTracks|
      ensures forall j :: 0 <= j < |partialMemoryTracks| && j != i ==>
                            partialMemoryTracks[j].1 != partialMemoryTracks[i].1
                            && partialMemoryTracks[j].1.track != partialMemoryTracks[i].1.track
    {
      forall j | 0 <= j < |partialMemoryTracks| && j != i
        ensures partialMemoryTracks[j] != partialMemoryTracks[i]
      {
        var v := View().partials;
        assert v[i].0 == partialMemoryTracks[i].0 && v[j].0 == partialMemoryTracks[j].0;
      }
    }

    method PutWritersLocked(key: Key, writers: nat)
      requires R.Inv(View()) && Separate() && M.Has(partialMemoryTracks, key)
      modifies Entry(key)
      ensures Entry(key).ranges == old(Entry(key).ranges)
      ensures var c := old(View());
              M.Has(c.partials, key) && View() == M.SetPartial(c, key, M.PartialOf(c, key).(writers := writers))
    {
      var i := M.IndexOf(partialMemoryTracks, key);
      ValuesIndex(partialMemoryTracks, key);
      OwnObject(i);
      ghost var before := ValuesOf(partialMemoryTracks);
      Entry(key).activeWriters := writers;
      ValueReplaced(partialMemoryTracks, before, i);
    }

    method SetWritersLocked(key: Key, writers: nat)
      requires Valid() && M.Has(partialMemoryTracks, key)
      modifies Entry(key)
      ensures Valid()
      ensures var c := old(View());
              M.Has(c.partials, key) && View() == M.SetPartial(c, key, M.PartialOf(c, key).(writers := writers))
    {
      ValuesIndex(partialMemoryTracks, key);
      R.WritersInv(View(), key, writers);
      PutWritersLocked(key, writers);
      hide Valid, R.Inv, M.IndexOf, SizesOf, ValuesOf;
      StaysValid(key, null);
    }

    /** ensurePartialMemoryTrackLocked for a key that is not complete. */
    method EnsurePartial(key: Key, total: int) returns (r: PartialMemoryTrack?)
      requires Valid() && M.ValidTotal(total) && !M.Has(memoryTracks, key)
      modifies this`memoryTracks, this`memoryTrackPins, this`memoryBytes, this`partialMemoryTracks,
               this`partialMemoryBytes
      ensures Valid() && promoted == old(promoted) && !M.Has(memoryTracks, key)
      ensures (r != null, View()) == M.EnsurePartial(old(View()), key, total)
      ensures r != null ==> M.Has(partialMemoryTracks, key) && Entry(key) == r && r.track.size == total
      ensures fresh(Footprint() - old(Footprint()))
    {
      SizesIndex(memoryTracks, key);
      R.EnsureInv(View(), key, total);
      assert M.DistinctKeys(partialMemoryTracks) by { DistinctEntries(partialMemoryTracks); }
      hide Valid, R.Inv, SizesOf, ValuesOf, M.EnsurePartial;
      r := EnsurePartialMemoryTrackLocked(key, total);
      SizesIndex(memoryTracks, key);
      StaysValid(key, r);
    }

    lemma WritersOf(key: Key)
      requires M.Has(partialMemoryTracks, key)
      ensures M.Has(View().partials, key)
      ensures var p := M.PartialOf(View(), key);
              p.writers == Entry(key).activeWriters &&
                M.AddWriter(View(), key) == M.SetPartial(View(), key, p.(writers := p.writers + 1))
      ensures var p := M.PartialOf(View(), key);
              M.RemoveWriter(View(), key)
                == M.SetPartial(View(), key, p.(writers := if p.writers > 0 then p.writers - 1 else 0))
    {
      ValuesIndex(partialMemoryTracks, key);
    }

    method AddWriterLocked(key: Key)
      requires Valid() && M.Has(partialMemoryTracks, key)
      modifies Entry(key)
      ensures Valid() && M.Has(old(View()).partials, key) && View() == M.AddWriter(old(View()), key)
    {
      hide *;
      WritersOf(key);
      SetWritersLocked(key, Entry(key).activeWriters + 1);
    }

    method RemoveWriterLocked(key: Key)
      requires Valid() && M.Has(partialMemoryTracks, key)
      modifies Entry(key)
      ensures Valid() && M.Has(old(View()).partials, key) && View() == M.RemoveWriter(old(View()), key)
    {
      hide *;
      WritersOf(key);
      var writers := Entry(key).activeWriters;
      SetWritersLocked(key, if writers > 0 then writers - 1 else 0);
    }

    method BeginPartialLocked(key: Key, totalBytes: int) returns (begun: bool)
      requires Valid() && M.ValidTotal(totalBytes) && !M.Has(memoryTracks, key)
      modifies Footprint()
      ensures Valid() && promoted == old(promoted) && fresh(Footprint() - old(Footprint()))
      ensures (begun, View()) == M.BeginPartial(old(View()), key, totalBytes)
    {
      hide Valid, SizesOf, ValuesOf, M.EnsurePartial, M.AddWriter;
      var partial := EnsurePartial(key, totalBytes);
      if partial == null {
        return false;
      }
      AddWriterLocked(key);
      begun := true;
    }

    lemma BeginCases(key: Key, totalBytes: int)
      requires Valid()
      ensures M.ValidTotal(totalBytes) <==> 0 < totalBytes <= M.INT_MAX
      ensures M.Has(memoryTracks, key) ==> R.Inv(M.Pin(View(), key))
      ensures M.Begin(View(), key, totalBytes)
              == if !M.ValidTotal(totalBytes) then (false, View())
                 else if M.Has(memoryTracks, key) then (true, M.Pin(View(), key))
                 else M.BeginPartial(View(), key, totalBytes)
    {
      hide M.Pin, M.BeginPartial, Separate, Content;
      SizesIndex(memoryTracks, key);
      if M.Has(memoryTracks, key) {
        R.PinInv(View(), key);
      }
    }

    method BeginMemoryTrack(key: Key, totalBytes: int) returns (begun: bool)
      requires Valid()
      modifies Footprint()
      ensures Valid() && promoted == old(promoted) && fresh(Footprint() - old(Footprint()))
      ensures (begun, View()) == M.Begin(old(View()), key, totalBytes)
    {
      hide *;
      BeginCases(key, totalBytes);
      if totalBytes <= 0 || totalBytes > M.INT_MAX {
        return false;
      }
      if M.Has(memoryTracks, key) {
        PinValid(key);
        begun := true;
      } else {
        begun := BeginPartialLocked(key, totalBytes);
      }
    }

    method TrimValid()
      requires Valid()
      modifies this`memoryTracks, this`memoryTrackPins, this`memoryBytes, this`partialMemoryTracks,
               this`partialMemoryBytes
      ensures Valid() && promoted == old(promoted) && Footprint() <= old(Footprint())
      ensures View() == M.Trim(old(View()))
    {
      hide *;
      TrimmedInv();
      TrimMemoryCacheLocked();
      ShrinksValid();
    }

    lemma TrimmedInv()
      requires Valid()
      ensures R.Inv(M.Trim(View()))
    {
      R.TrimInv(View());
    }

    lemma OwnFootprint(key: Key)
      requires M.Has(partialMemoryTracks, key)
      ensures Entry(key) in Footprint() && Entry(key).track in Footprint()
    {
      assert (key, Entry(key)) in partialMemoryTracks;
    }

    lemma EndCases(key: Key)
      ensures M.Has(partialMemoryTracks, key) <==> M.Has(View().partials, key)
      ensures M.Has(partialMemoryTracks, key) ==> M.End(View(), key) == M.Trim(M.RemoveWriter(View(), key))
      ensures !M.Has(partialMemoryTracks, key) ==> M.End(View(), key) == M.Release(View(), key)
    {
      hide M.Trim, M.RemoveWriter, M.Unpin;
      ValuesIndex(partialMemoryTracks, key);
    }

    method EndMemoryTrack(key: Key)
      requires Valid()
      modifies Footprint()
      ensures Valid() && promoted == old(promoted) && Footprint() <= old(Footprint())
      ensures View() == M.End(old(View()), key)
    {
      hide *;
      EndCases(key);
      if M.Has(partialMemoryTracks, key) {
        OwnFootprint(key);
        RemoveWriterLocked(key);
        TrimValid();
      } else {
        ReleaseMemoryTrack(key);
      }
    }

    method PinValid(key: Key)
      requires Valid() && R.Inv(M.Pin(View(), key))
      modifies this`memoryTrackPins
      ensures Valid() && View() == M.Pin(old(View()), key) && Footprint() == old(Footprint())
    {
      hide Valid, R.Inv, SizesOf, ValuesOf, M.Pin;
      PinLocked(key);
      ShrinksValid();
    }

    // ---- Recording ----

    /** The file's bytes in a buffer, as far as they land. */
    ghost predicate Delivers(key: Key, buffer: seq<Byte>, w: M.Write, total: int) {
      var (start, n) := M.Landing(w, total);
      M.ValidTotal(total) && M.ValidBuffer(w) && w.bufferSize == |buffer| && n > 0 && |file(key, total)| == total ==>
        buffer[w.offset..w.offset + n] == file(key, total)[start..start + n]
    }

    method PutRangeLocked(key: Key, start: nat, buffer: array<Byte>, offset: nat, n: nat, ghost bytes: seq<Byte>)
      requires R.Inv(View()) && Separate() && M.Has(partialMemoryTracks, key) && n > 0
      requires Entry(key).track.Valid() && Agrees(Entry(key).track.Bytes(), Entry(key).ranges, bytes)
      requires start + n <= Entry(key).track.size == |bytes| && offset + n <= buffer.Length
      requires buffer[offset..offset + n] == bytes[start..start + n]
      modifies Entry(key), Entry(key).track
      ensures Entry(key).track.Valid() && Agrees(Entry(key).track.Bytes(), Entry(key).ranges, bytes)
      ensures var c := old(View());
              M.Has(c.partials, key) && View() == M.SetPartial(c, key, M.Extend(M.PartialOf(c, key), start, n))
    {
      ValuesIndex(partialMemoryTracks, key);
      var i := M.IndexOf(partialMemoryTracks, key);
      OwnObject(i);
      ghost var before := ValuesOf(partialMemoryTracks);
      assert before[i].1 == Entry(key).Value();
      assert Canonical(Entry(key).ranges, Entry(key).track.size) by { assert I.PartialOk(View().partials[i].1); }
      hide R.Inv, Agrees, M.Extend, M.IndexOf, SizesOf;
      Entry(key).Receive(start, buffer, offset, n, bytes);
      ValueReplaced(partialMemoryTracks, before, i);
    }

    /** The write of one range into the track of a partial entry. Its counter may be full afterwards. */
    method WriteRangeLocked(key: Key, start: nat, buffer: array<Byte>, offset: nat, n: nat)
      requires Valid() && M.Has(partialMemoryTracks, key) && n > 0
      requires start + n <= Entry(key).track.size && offset + n <= buffer.Length
      requires |file(key, Entry(key).track.size)| == Entry(key).track.size
      requires buffer[offset..offset + n] == file(key, Entry(key).track.size)[start..start + n]
      modifies Entry(key), Entry(key).track
      ensures Separate() && Content()
      ensures var c := old(View());
              M.Has(c.partials, key) && View() == M.SetPartial(c, key, M.Extend(M.PartialOf(c, key), start, n))
    {
      hide *;
      OwnEntry(key);
      PutRangeLocked(key, start, buffer, offset, n, file(key, Entry(key).track.size));
      ReceivedContent(key);
    }

    /** No other entry shares the objects of the partial entry of `key`. */
    lemma OwnEntry(key: Key)
      requires Valid() && M.Has(partialMemoryTracks, key)
      ensures R.Inv(View()) && Separate()
      ensures Entry(key).track.Valid()
      ensures Agrees(Entry(key).track.Bytes(), Entry(key).ranges, file(key, Entry(key).track.size))
      ensures forall e :: e in partialMemoryTracks && e.1 != Entry(key) ==> e.1.track != Entry(key).track
      ensures forall e :: e in promoted ==> e.1 != Entry(key).track
    {
      ghost var own := (key, Entry(key));
      assert own in partialMemoryTracks && own.1.track in OpenTracks();
      forall e | e in promoted ensures e.1 != own.1.track {
        assert e.1 in DoneTracks();
      }
    }

    /** Only the entry of `key` has received bytes. */
    twostate lemma ReceivedContent(key: Key)
      requires old(Valid()) && unchanged(this) && M.Has(partialMemoryTracks, key)
      requires Entry(key).track.Valid()
      requires Agrees(Entry(key).track.Bytes(), Entry(key).ranges, file(key, Entry(key).track.size))
      requires forall e :: e in partialMemoryTracks && e.1 != Entry(key) ==> unchanged(e.1) && unchanged(e.1.track)
      requires forall e :: e in promoted ==> unchanged(e.1)
      ensures Separate() && Content()
    {
      hide R.Inv, Agrees, Somes, M.IndexOf, View;
      forall e | e in partialMemoryTracks && e.1 == Entry(key) ensures e == (key, Entry(key)) {
        assert (key, Entry(key)) in partialMemoryTracks;
      }
    }

    /** The promotion of the partial entry of `key`, on the fields. */
    method MoveToCompleteLocked(key: Key) returns (inserted: bool, track: MemoryTrack)
      requires M.Has(partialMemoryTracks, key) && M.DistinctKeys(partialMemoryTracks)
      modifies this`memoryTracks, this`memoryTrackPins, this`memoryBytes, this`partialMemoryTracks,
               this`partialMemoryBytes,
               this`promoted
      ensures track == old(Entry(key)).track
      ensures promoted == if inserted then old(promoted) + {(key, track)} else old(promoted)
      ensures M.Has(old(View()).partials, key) && (inserted, View()) == M.Promote(old(View()), key)
      ensures forall e :: e in partialMemoryTracks ==> e in old(partialMemoryTracks) && e.0 != key
      ensures forall e :: e in memoryTracks ==> e in old(memoryTracks) || (inserted && e == (key, track))
    {
      hide *;
      PromoteParts(key);
      ghost var c := View();
      var entry := Entry(key);
      track := entry.track;
      DropPartialLocked(key);
      var writerPins := entry.activeWriters;
      inserted := InsertMemoryTrackLocked(key, track);
      ghost var r := M.Insert(M.DropPartial(c, key), key, track.size);
      assert r == (inserted, View()) && writerPins == old(entry.activeWriters);
      if inserted {
        CarryPinsLocked(key, track, writerPins);
      }
    }

    lemma PromoteParts(key: Key)
      requires M.Has(partialMemoryTracks, key)
      ensures M.Has(View().partials, key)
      ensures var r := M.Insert(M.DropPartial(View(), key), key, Entry(key).track.size);
              var writers := Entry(key).activeWriters;
              M.Promote(View(), key)
              == if r.0 && writers > 0 then (true, r.1.(pins := r.1.pins[key := M.Pins(r.1, key) + writers])) else r
    {
      ValuesIndex(partialMemoryTracks, key);
      assert M.PartialOf(View(), key) == Entry(key).Value();
      hide M.DropPartial, M.Insert;
    }

    /** The writers of a promoted track become its pins. */
    method CarryPinsLocked(key: Key, track: MemoryTrack, writerPins: nat)
      modifies this`memoryTrackPins, this`promoted
      ensures var c := old(View());
              View() == if writerPins > 0 then c.(pins := c.pins[key := M.Pins(c, key) + writerPins]) else c
      ensures promoted == old(promoted) + {(key, track)}
    {
      if writerPins > 0 {
        var pins := if key in memoryTrackPins then memoryTrackPins[key] else 0;
        memoryTrackPins := memoryTrackPins[key := pins + writerPins];
      }
      promoted := promoted + {(key, track)};
    }

    twostate lemma SmallerFootprint()
      requires forall e :: e in partialMemoryTracks ==> e in old(partialMemoryTracks)
      ensures Footprint() <= old(Footprint())
    {
    }

    /** Moving a fully received track over keeps the object valid. */
    twostate lemma PromotedValid(key: Key, new inserted: bool)
      requires old(M.Has(partialMemoryTracks, key)) && R.Inv(View())
      requires old(Separate()) && old(Content())
      requires old(Entry(key).ranges) == [Range(0, old(Entry(key)).track.size)]
      requires forall e :: e in partialMemoryTracks ==> e in old(partialMemoryTracks) && e.0 != key
      requires forall e :: e in memoryTracks ==>
                 e in old(memoryTracks) || (inserted && e == (key, old(Entry(key)).track))
      requires promoted == if inserted then old(promoted) + {(key, old(Entry(key)).track)} else old(promoted)
      requires forall e :: e in old(partialMemoryTracks) ==>
                             e.1.track.chunks == old(e.1.track.chunks) && e.1.ranges == old(e.1.ranges)
      requires forall e :: e in old(promoted) ==> e.1.chunks == old(e.1.chunks)
      ensures Valid()
    {
      hide *;
      PromotedSeparate(key, inserted);
      PromotedContent(key, inserted);
      ValidIs();
    }

    lemma ValidIs()
      ensures Valid() <==> R.Inv(View()) && Separate() && Content()
    {
    }

    twostate lemma PromotedSeparate(key: Key, new inserted: bool)
      requires old(M.Has(partialMemoryTracks, key)) && old(Separate())
      requires forall e :: e in partialMemoryTracks ==> e in old(partialMemoryTracks) && e.0 != key
      requires promoted == if inserted then old(promoted) + {(key, old(Entry(key)).track)} else old(promoted)
      ensures Separate()
    {
      hide M.IndexOf;
      ghost var own := (key, old(Entry(key)));
      assert own in old(partialMemoryTracks);
      forall t | t in OpenTracks() ensures t !in DoneTracks() {
        assert t in old(OpenTracks()) && t != own.1.track;
      }
    }

    twostate lemma PromotedContent(key: Key, new inserted: bool)
      requires old(M.Has(partialMemoryTracks, key)) && old(Separate()) && old(Content())
      requires old(Entry(key).ranges) == [Range(0, old(Entry(key)).track.size)]
      requires forall e :: e in partialMemoryTracks ==> e in old(partialMemoryTracks) && e.0 != key
      requires forall e :: e in memoryTracks ==>
                 e in old(memoryTracks) || (inserted && e == (key, old(Entry(key)).track))
      requires promoted == if inserted then old(promoted) + {(key, old(Entry(key)).track)} else old(promoted)
      requires forall e :: e in old(partialMemoryTracks) ==>
                             e.1.track.chunks == old(e.1.track.chunks) && e.1.ranges == old(e.1.ranges)
      requires forall e :: e in old(promoted) ==> e.1.chunks == old(e.1.chunks)
      ensures Content()
    {
      hide Agrees, Somes, M.IndexOf, Separate;
      ghost var own := (key, old(Entry(key)));
      assert own in old(partialMemoryTracks);
      WholeAgrees(old(own.1.track.Bytes()), file(key, own.1.track.size));
    }

    /** What the completing write leaves to do: drop the partial entry and insert its track. */
    method PromoteLocked(key: Key, ghost c: M.Cache, ghost p: M.Partial) returns (inserted: bool)
      requires Separate() && Content()
      requires M.Has(partialMemoryTracks, key) && Entry(key).ranges == [Range(0, Entry(key).track.size)]
      requires R.Inv(c) && M.Has(c.partials, key) && p.size == M.PartialOf(c, key).size > 0
      requires View() == M.SetPartial(c, key, p)
      modifies this
      ensures Valid() && Footprint() <= old(Footprint()) && old(promoted) <= promoted
      ensures M.Has(old(View()).partials, key) && (inserted, View()) == M.Promote(old(View()), key)
    {
      hide *;
      PromotionInv(key, c, p);
      var track;
      inserted, track := MoveToCompleteLocked(key);
      PromotedValid(key, inserted);
      SmallerFootprint();
    }

    lemma PromotionInv(key: Key, c: M.Cache, p: M.Partial)
      requires M.Has(partialMemoryTracks, key)
      requires R.Inv(c) && M.Has(c.partials, key) && p.size == M.PartialOf(c, key).size > 0
      requires View() == M.SetPartial(c, key, p)
      ensures M.Has(View().partials, key) && R.Inv(M.Promote(View(), key).1) && M.DistinctKeys(partialMemoryTracks)
    {
      R.PromoteInv(c, key, p);
      I.ReplaceEntry(c.partials, key, p);
      DistinctEntries(partialMemoryTracks);
    }

    /** A range of the file lands in the partial entry of `key`; the last one promotes the track. */
    method ReceiveLocked(key: Key, start: nat, buffer: array<Byte>, offset: nat, n: nat) returns (complete: bool)
      requires Valid() && M.Has(partialMemoryTracks, key) && n > 0
      requires start + n <= Entry(key).track.size && offset + n <= buffer.Length
      requires |file(key, Entry(key).track.size)| == Entry(key).track.size
      requires buffer[offset..offset + n] == file(key, Entry(key).track.size)[start..start + n]
      modifies Footprint()
      ensures Valid() && old(promoted) <= promoted && Footprint() <= old(Footprint())
      ensures M.Has(old(View()).partials, key) && (complete, View()) == M.Receive(old(View()), key, start, n)
    {
      hide *;
      ghost var c := View();
      ReceiveCases(key, start, n);
      OwnFootprint(key);
      var size := Entry(key).track.size;
      WriteRangeLocked(key, start, buffer, offset, n);
      EntryValue(key);
      if Entry(key).coveredBytes < size {
        ValidIs();
        return false;
      }
      complete := PromoteLocked(key, c, M.Extend(M.PartialOf(c, key), start, n));
    }

    /** What a write of n bytes makes of the cache. */
    lemma ReceiveCases(key: Key, start: nat, n: nat)
      requires Valid() && M.Has(partialMemoryTracks, key) && 0 < n <= Entry(key).track.size - start
      ensures var c := View();
              && R.Inv(c) && M.Has(c.partials, key)
              && var p := M.Extend(M.PartialOf(c, key), start, n);
                 && p.size == M.PartialOf(c, key).size == Entry(key).track.size > 0
                 && M.PartialOf(M.SetPartial(c, key, p), key) == p
                 && (p.covered < p.size ==> R.Inv(M.SetPartial(c, key, p)))
                 && (p.covered >= p.size ==> p.ranges == [Range(0, p.size)])
                 && M.Receive(c, key, start, n)
                    == if p.covered < p.size then (false, M.SetPartial(c, key, p))
                       else M.Promote(M.SetPartial(c, key, p), key)
    {
      hide *;
      ValidIs();
      EntryValue(key);
      ghost var c := View();
      R.ReceiveInv(c, key, start, n);
      ReceiveIs(c, key, start, n);
    }

    lemma EntryValue(key: Key)
      requires M.Has(partialMemoryTracks, key)
      ensures M.Has(View().partials, key)
      ensures M.PartialOf(View(), key)
              == M.Partial(Entry(key).track.size, Entry(key).ranges, Entry(key).coveredBytes, Entry(key).activeWriters)
    {
      ValuesIndex(partialMemoryTracks, key);
    }

    /** What a write leaves of its range lands in the partial entry. */
    method LandLocked(key: Key, start: nat, buffer: array<Byte>, offset: nat, n: int) returns (complete: bool)
      requires Valid() && M.Has(partialMemoryTracks, key)
      requires n > 0 ==> start + n <= Entry(key).track.size && offset + n <= buffer.Length
      requires |file(key, Entry(key).track.size)| == Entry(key).track.size
      requires n > 0 ==> buffer[offset..offset + n] == file(key, Entry(key).track.size)[start..start + n]
      modifies Footprint()
      ensures Valid() && old(promoted) <= promoted && Footprint() <= old(Footprint())
      ensures M.Has(old(View()).partials, key) && (complete, View()) == M.Land(old(View()), key, start, n)
    {
      if n <= 0 {
        ValuesIndex(partialMemoryTracks, key);
        complete := Entry(key).coveredBytes >= Entry(key).track.size;
      } else {
        hide Valid, M.Receive, M.IndexOf, SizesOf, ValuesOf;
        complete := ReceiveLocked(key, start, buffer, offset, n);
      }
    }

    /** A range for a key that is not complete: its entry is ensured, then n bytes land at `start`. */
    method RecordAtLocked(key: Key, start: nat, buffer: array<Byte>, offset: nat, n: int, totalBytes: int)
      returns (complete: bool)
      requires Valid() && !M.Has(memoryTracks, key) && M.ValidTotal(totalBytes)
      requires |file(key, totalBytes)| == totalBytes
      requires n > 0 ==> start + n <= totalBytes && offset + n <= buffer.Length
      requires n > 0 ==> buffer[offset..offset + n] == file(key, totalBytes)[start..start + n]
      modifies Footprint()
      ensures Valid() && old(promoted) <= promoted && fresh(Footprint() - old(Footprint()))
      ensures var r := M.EnsurePartial(old(View()), key, totalBytes);
              (complete, View()) == if r.0 then M.Land(r.1, key, start, n) else r
    {
      assert this in Footprint();
      hide Valid, SizesOf, ValuesOf, M.EnsurePartial, M.Land, M.IndexOf, Footprint, View;
      var track := EnsurePartial(key, totalBytes);
      if track == null {
        return false;
      }
      complete := LandLocked(key, start, buffer, offset, n);
    }

    /** Records a received range and promotes the track once it is complete. */
    method RecordMemoryBytes(key: Key, position: int, buffer: array<Byte>, offset: int, length: int, totalBytes: int)
      returns (complete: bool)
      requires Valid() && Delivers(key, buffer[..], M.Write(position, buffer.Length, offset, length), totalBytes)
      modifies Footprint()
      ensures Valid() && old(promoted) <= promoted && fresh(Footprint() - old(Footprint()))
      ensures (complete, View())
              == M.Record(old(View()), key, M.Write(position, buffer.Length, offset, length), totalBytes)
    {
      hide *;
      ghost var w := M.Write(position, buffer.Length, offset, length);
      RecordCases(key, w, totalBytes);
      if totalBytes <= 0 || totalBytes > M.INT_MAX {
        complete := false;
      } else if offset < 0 || length <= 0 || offset > buffer.Length - length {
        complete := false;
      } else if M.Has(memoryTracks, key) {
        complete := true;
      } else {
        var start := if position < 0 then 0 else Min(position, totalBytes);
        var copyLength := Min(length, totalBytes - start);
        LandingBytes(key, buffer, w, totalBytes);
        complete := RecordAtLocked(key, start, buffer, offset, copyLength, totalBytes);
      }
    }

    lemma RecordCases(key: Key, w: M.Write, total: int)
      ensures total <= 0 || total > M.INT_MAX ==> M.Record(View(), key, w, total) == (false, View())
      ensures w.offset < 0 || w.length <= 0 || w.offset > w.bufferSize - w.length ==>
                M.Record(View(), key, w, total) == (false, View())
      ensures M.ValidTotal(total) <==> !(total <= 0 || total > M.INT_MAX)
      ensures M.ValidBuffer(w) <==> !(w.offset < 0 || w.length <= 0 || w.offset > w.bufferSize - w.length)
      ensures M.ValidTotal(total) && M.ValidBuffer(w) && M.Has(memoryTracks, key) ==>
                M.Record(View(), key, w, total) == (true, View())
      ensures M.ValidTotal(total) && M.ValidBuffer(w) && !M.Has(memoryTracks, key) ==>
                var r := M.EnsurePartial(View(), key, total);
                var start := if w.position < 0 then 0 else Min(w.position, total);
                M.Record(View(), key, w, total) == if r.0 then M.Land(r.1, key, start, Min(w.length, total - start))
                                                   else r
    {
      SizesIndex(memoryTracks, key);
      hide M.EnsurePartial, M.Land, M.IndexOf, SizesOf, ValuesOf;
    }

    lemma LandingBytes(key: Key, buffer: array<Byte>, w: M.Write, total: int)
      requires Valid() && M.ValidTotal(total) && M.ValidBuffer(w) && w.bufferSize == buffer.Length
      requires Delivers(key, buffer[..], w, total)
      ensures |file(key, total)| == total
      ensures var start := if w.position < 0 then 0 else Min(w.position, total);
              var n := Min(w.length, total - start);
              && 0 <= start && start <= total && n <= total - start && n <= w.length
              && 0 <= w.offset <= buffer.Length - w.length
              && (n > 0 ==> buffer[w.offset..w.offset + n] == file(key, total)[start..start + n])
    {
      hide R.Inv, Separate, View;
      assert |file(key, total)| == total;
      var (start, n) := M.Landing(w, total);
      if n > 0 {
        assert buffer[w.offset..w.offset + n] == buffer[..][w.offset..w.offset + n];
      }
    }
  }
}
