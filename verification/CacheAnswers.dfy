/** What each operation of the RAM track cache answers and leaves, in terms of what is stored, pinned and written before
    it: when room is found, what is evicted for it, and when a recorded range completes a track. */
module CacheAnswers {
  import opened Wrappers
  import opened MemoryRanges
  import opened CacheModel
  import opened CacheInvariants
  import opened CacheRuns

  // ---- Reserving ----

  /** A reservation succeeds exactly when the entries in use leave room for it. */
  lemma ReserveIff(c: Cache, bytes: int)
    requires Sound(c) && bytes > 0
    ensures Reserve(c, bytes).0 <==> bytes <= c.limit && InUse(c) + bytes <= c.limit
  {
    hide FreeAny, InUse;
    FreeAnyIff(c, bytes);
  }

  /** It drops the eldest entries nobody uses, and no more than it must; one larger than the limit drops nothing. */
  lemma ReserveOrder(c: Cache, bytes: int) returns (n: nat, m: nat)
    requires Sound(c)
    ensures if bytes <= c.limit then EldestDropped(c, Reserve(c, bytes).1, bytes, n, m) else Reserve(c, bytes).1 == c
    ensures bytes <= c.limit && !Reserve(c, bytes).0 ==> Blocked(Reserve(c, bytes).1)
  {
    hide FreeAny, EldestDropped, Blocked, Sound;
    n, m := FreeAnyOrder(c, bytes);
    FreeAnyKeeps(c, bytes);
  }

  /** The entries of other keys. */
  function Others<V>(m: seq<(Key, V)>, k: Key): seq<(Key, V)> {
    if m == [] then [] else (if m[0].0 == k then [] else [m[0]]) + Others(m[1..], k)
  }

  lemma {:induction false} OthersAll<V>(m: seq<(Key, V)>, k: Key)
    requires forall i :: 0 <= i < |m| ==> m[i].0 != k
    ensures Others(m, k) == m
  {
    if m != [] {
      OthersAll(m[1..], k);
      assert m == [m[0]] + m[1..];
    }
  }

  lemma {:induction false} OthersRemove<V>(m: seq<(Key, V)>, k: Key)
    requires DistinctKeys(m)
    ensures Others(m, k) == if Has(m, k) then RemoveAt(m, IndexOf(m, k)) else m
  {
    var i := IndexOf(m, k);
    if i == |m| {
      OthersAll(m, k);
    } else if i == 0 {
      RestOthers(m);
    } else {
      assert DistinctKeys(m[1..]);
      OthersRemove(m[1..], k);
      RemoveAtRest(m, i);
    }
  }

  lemma RestOthers<V>(m: seq<(Key, V)>)
    requires DistinctKeys(m) && m != []
    ensures Others(m, m[0].0) == m[1..] && RemoveAt(m, 0) == m[1..]
  {
    forall i | 0 <= i < |m[1..]| ensures m[1..][i].0 != m[0].0 {
      assert m[1..][i] == m[i + 1];
    }
    OthersAll(m[1..], m[0].0);
  }

  // ---- An entry for a track that is being loaded ----

  /** The cache without the partial entry of k. */
  function WithoutPartial(c: Cache, k: Key): Cache {
    c.(partials := Others(c.partials, k), partialBytes := Sum(Sizes(Others(c.partials, k))))
  }

  lemma WithoutIsDrop(c: Cache, k: Key)
    requires Sound(c)
    ensures WithoutPartial(c, k) == if Has(c.partials, k) then DropPartial(c, k) else c
  {
    hide IndexOf, Sum, Sizes;
    OthersRemove(c.partials, k);
    if Has(c.partials, k) {
      DropPartialKeeps(c, k);
    }
  }

  /** There is an entry of this size, or nobody writes one of another size and the entries in use leave room. */
  predicate CanHold(c: Cache, k: Key, total: int) {
    || (Has(c.partials, k) && PartialOf(c, k).size == total)
    || ((Has(c.partials, k) ==> PartialOf(c, k).writers == 0) && InUse(c) + total <= c.limit)
  }

  lemma IdleUsesNothing(c: Cache, k: Key)
    requires Sound(c) && Has(c.partials, k) && PartialOf(c, k).writers == 0
    ensures InUse(DropPartial(c, k)) == InUse(c) && DropPartial(c, k).limit == c.limit
  {
    ActiveBytesRemove(c.partials, IndexOf(c.partials, k));
  }

  lemma UsedIsPositive(c: Cache)
    requires Sound(c)
    ensures InUse(c) >= 0
  {
    PinnedBytesBound(c.complete, c.pins);
    ActiveBytesBound(c.partials);
  }

  lemma EnsureCases(c: Cache, k: Key, total: int)
    ensures EnsurePartial(c, k, total)
            == if Has(c.partials, k) && PartialOf(c, k).size == total then (true, c)
               else if Has(c.partials, k) && PartialOf(c, k).writers > 0 then (false, c)
               else
                 var r := Reserve(if Has(c.partials, k) then DropPartial(c, k) else c, total);
                 if r.0 then (true, NewPartial(r.1, k, total)) else r
  {
    hide Reserve, DropPartial, NewPartial;
  }

  /** When ensurePartialMemoryTrackLocked finds or makes an entry. */
  lemma EnsureIff(c: Cache, k: Key, total: int)
    requires Sound(c) && ValidTotal(total)
    ensures EnsurePartial(c, k, total).0 <==> CanHold(c, k, total)
  {
    hide EnsurePartial, Reserve, DropPartial, Sound, InUse, IndexOf, Has, PartialOf;
    EnsureCases(c, k, total);
    UsedIsPositive(c);
    if Has(c.partials, k) {
      if PartialOf(c, k).size != total && PartialOf(c, k).writers == 0 {
        IdleUsesNothing(c, k);
        DropPartialKeeps(c, k);
        ReserveIff(DropPartial(c, k), total);
      }
    } else {
      ReserveIff(c, total);
    }
  }

  /** And what it leaves: the cache as it was when there is one of this size or one being written; else the eldest
      entries nobody uses are dropped, an idle one of k first of all, and on success a blank entry is the youngest. */
  lemma EnsureLeaves(c: Cache, k: Key, total: int) returns (d: Cache, n: nat, m: nat)
    requires Sound(c) && ValidTotal(total)
    ensures var r := EnsurePartial(c, k, total);
            if Has(c.partials, k) && (PartialOf(c, k).size == total || PartialOf(c, k).writers > 0) then r.1 == c
            else
              && (if total <= c.limit then EldestDropped(WithoutPartial(c, k), d, total, n, m)
                  else d == WithoutPartial(c, k))
              && r.1 == if r.0 then d.(partials := d.partials + [(k, Partial(total, [], 0, 0))],
                                       partialBytes := d.partialBytes + total)
                        else d
  {
    hide Reserve, DropPartial, Sound, InUse, IndexOf, Has, PartialOf, EldestDropped, WithoutPartial, EnsurePartial;
    EnsureCases(c, k, total);
    WithoutIsDrop(c, k);
    if Has(c.partials, k) {
      DropPartialKeeps(c, k);
      DropLimit(c, k);
    }
    d := Reserve(WithoutPartial(c, k), total).1;
    n, m := ReserveOrder(WithoutPartial(c, k), total);
  }

  lemma DropLimit(c: Cache, k: Key)
    requires Has(c.partials, k)
    ensures DropPartial(c, k).limit == c.limit
  {
  }

  /** beginMemoryTrack succeeds for a stored track, and where an entry for it is found or made. */
  lemma BeginIff(c: Cache, k: Key, total: int)
    requires Sound(c)
    ensures Begin(c, k, total).0 <==> 0 < total <= 0x7fff_ffff && (Has(c.complete, k) || CanHold(c, k, total))
  {
    hide EnsurePartial, Has, CanHold, Sound, AddWriter;
    if 0 < total <= 0x7fff_ffff {
      EnsureIff(c, k, total);
    }
  }

  /** It then holds the track by one pin more, or the entry by one writer more, and changes nothing else. */
  lemma BeginTakes(c: Cache, k: Key, total: int)
    requires Sound(c) && Begin(c, k, total).0
    ensures var c' := Begin(c, k, total).1;
            if Has(c.complete, k) then c' == c.(pins := c.pins[k := Pins(c, k) + 1])
            else
              var e := EnsurePartial(c, k, total).1;
              && Has(e.partials, k) && Has(c'.partials, k) && c' == e.(partials := c'.partials)
              && PartialOf(c', k) == PartialOf(e, k).(writers := PartialOf(e, k).writers + 1)
              && Others(c'.partials, k) == Others(e.partials, k)
  {
    hide EnsurePartial, IndexOf, Others, Sound;
    if !Has(c.complete, k) {
      EnsurePartialKeeps(c, k, total);
      var e := EnsurePartial(c, k, total).1;
      SetOthers(e, k, PartialOf(e, k).(writers := PartialOf(e, k).writers + 1));
    }
  }

  /** Replacing the entry of a key leaves the others. */
  lemma SetOthers(c: Cache, k: Key, p: Partial)
    requires Sound(c) && Has(c.partials, k)
    ensures var c' := SetPartial(c, k, p);
            && Has(c'.partials, k) && PartialOf(c', k) == p && c' == c.(partials := c'.partials)
            && Others(c'.partials, k) == Others(c.partials, k)
  {
    hide Others, IndexOf, Sum, Sizes;
    var i := IndexOf(c.partials, k);
    var r := c.partials[i := (k, p)];
    ReplaceEntry(c.partials, k, p);
    OthersRemove(c.partials, k);
    OthersRemove(r, k);
    assert RemoveAt(r, i) == RemoveAt(c.partials, i);
  }

  // ---- Recording ----

  /** Byte p of the track is among those a write delivers: its position counts from 0 at least. */
  predicate Delivers(w: CacheModel.Write, p: int) {
    Max(w.position, 0) <= p < Max(w.position, 0) + w.length
  }

  lemma LandingIs(w: CacheModel.Write, total: int)
    requires total > 0 && w.length > 0
    ensures var (start, n) := Landing(w, total);
            && 0 <= start && start + n <= total
            && (n > 0 ==> forall p :: start <= p < start + n <==> Delivers(w, p) && p < total)
            && (n <= 0 ==> forall p :: 0 <= p < total ==> !Delivers(w, p))
  {
  }

  lemma ExtendFields(p: Partial, start: int, n: int)
    ensures var q := Extend(p, start, n);
            && q.size == p.size && q.writers == p.writers
            && q.ranges == MemoryRanges.Insert(p.ranges, start, start + n)
  {
  }

  /** The entry after a write holds its bytes and those it held before. */
  lemma ExtendCovers(e: Cache, k: Key, w: CacheModel.Write, total: int)
    requires Sound(e) && Has(e.partials, k) && PartialOf(e, k).size == total && ValidBuffer(w)
    requires Landing(w, total).1 > 0
    ensures var (start, n) := Landing(w, total);
            var (p, q) := (PartialOf(e, k), Extend(PartialOf(e, k), start, n));
            && q.size == p.size && q.writers == p.writers && q.covered <= total
            && (forall b :: 0 <= b < total ==> (InRanges(q.ranges, b) <==> InRanges(p.ranges, b) || Delivers(w, b)))
            && (q.covered >= total <==> forall b :: 0 <= b < total ==> InRanges(p.ranges, b) || Delivers(w, b))
  {
    hide IndexOf, InRanges, Canonical, Landing, Extend, Delivers, MemoryRanges.Insert, Total;
    var (start, n) := Landing(w, total);
    var (p, q) := (PartialOf(e, k), Extend(PartialOf(e, k), start, n));
    assert PartialOk(p);
    ReadyKeeps(e, k, w, total);
    LandingIs(w, total);
    ExtendFields(p, start, n);
    InsertCorrect(p.ranges, start, start + n, total);
    CompleteIffWhole(q.ranges, total);
  }

  lemma NotYetWhole(e: Cache, k: Key)
    requires Sound(e) && Has(e.partials, k)
    ensures var p := PartialOf(e, k);
            0 < p.size && p.covered < p.size && exists b :: 0 <= b < p.size && !InRanges(p.ranges, b)
  {
    hide IndexOf, InRanges, Canonical, Total;
    var p := PartialOf(e, k);
    assert PartialOk(p);
    CompleteIffWhole(p.ranges, p.size);
  }

  /** With this write every byte of the track is there. */
  predicate Completes(e: Cache, k: Key, w: CacheModel.Write, total: int)
    requires Has(e.partials, k)
  {
    forall b :: 0 <= b < total ==> InRanges(PartialOf(e, k).ranges, b) || Delivers(w, b)
  }

  lemma LandCases(e: Cache, k: Key, start: int, n: int)
    requires Has(e.partials, k)
    ensures var p := PartialOf(e, k);
            var q := Extend(p, start, n);
            Land(e, k, start, n)
            == if n <= 0 then (p.covered >= p.size, e)
               else if q.covered < q.size then (false, SetPartial(e, k, q))
               else Promote(SetPartial(e, k, q), k)
  {
    hide Extend, SetPartial, Promote, PartialOf;
  }

  lemma RecordCases(c: Cache, k: Key, w: CacheModel.Write, total: int)
    requires ValidTotal(total) && ValidBuffer(w) && !Has(c.complete, k)
    ensures var r := EnsurePartial(c, k, total);
            var (start, n) := Landing(w, total);
            Record(c, k, w, total) == if r.0 then Land(r.1, k, start, n) else r
  {
    hide EnsurePartial, Landing, Land, Has;
  }

  lemma EntryReady(c: Cache, k: Key, total: int)
    requires Good(c) && ValidTotal(total) && !Has(c.complete, k) && EnsurePartial(c, k, total).0
    ensures var e := EnsurePartial(c, k, total).1;
            && Good(e) && Sound(e) && Has(e.partials, k) && !Has(e.complete, k) && PartialOf(e, k).size == total
  {
    hide EnsurePartial, IndexOf;
    EnsureGood(c, k, total);
  }

  /** recordMemoryBytes answers true exactly for a stored track and for a write that completes one and can be
      promoted. */
  lemma RecordIff(c: Cache, k: Key, w: CacheModel.Write, total: int)
    requires Good(c)
    ensures Record(c, k, w, total).0
            <==>
            && 0 < total <= 0x7fff_ffff && w.offset >= 0 && w.length > 0 && w.offset + w.length <= w.bufferSize
            && (Has(c.complete, k) ||
                (EnsurePartial(c, k, total).0
                 && var e := EnsurePartial(c, k, total).1;
                    Completes(e, k, w, total) && PinnedBytes(e.complete, e.pins) + e.partialBytes <= e.limit))
  {
    if ValidTotal(total) && ValidBuffer(w) && !Has(c.complete, k) {
      hide *;
      RecordCases(c, k, w, total);
      var e := EnsurePartial(c, k, total).1;
      if EnsurePartial(c, k, total).0 {
        EntryReady(c, k, total);
        EntryAnswer(e, k, w, total);
      }
    } else {
      hide RecordPartial, EnsurePartial, Has;
    }
  }

  lemma BufferIsValid(w: CacheModel.Write)
    ensures ValidBuffer(w) <==> w.offset >= 0 && w.length > 0 && w.offset + w.length <= w.bufferSize
  {
  }

  lemma WholeMeans(e: Cache, k: Key, w: CacheModel.Write, total: int)
    requires Has(e.partials, k)
    ensures Completes(e, k, w, total)
            <==> forall b :: 0 <= b < total ==> InRanges(PartialOf(e, k).ranges, b) || Delivers(w, b)
  {
  }

  lemma EntryAnswer(e: Cache, k: Key, w: CacheModel.Write, total: int)
    requires Good(e) && Has(e.partials, k) && !Has(e.complete, k) && PartialOf(e, k).size == total && ValidBuffer(w)
    ensures var (start, n) := Landing(w, total);
            Land(e, k, start, n).0
            <==> Completes(e, k, w, total) && PinnedBytes(e.complete, e.pins) + e.partialBytes <= e.limit
  {
    hide *;
    GoodIsSound(e);
    NotYetWhole(e, k);
    BufferIsValid(w);
    LandingIs(w, total);
    WholeMeans(e, k, w, total);
    var (start, n) := Landing(w, total);
    LandCases(e, k, start, n);
    if n > 0 {
      ExtendCovers(e, k, w, total);
      var q := Extend(PartialOf(e, k), start, n);
      if q.covered >= total {
        PromoteIff(e, k, q);
      }
    }
  }

  /** A write that does not complete its track adds exactly its bytes to the entry, and changes nothing else. */
  lemma RecordAdds(c: Cache, k: Key, w: CacheModel.Write, total: int)
    requires Good(c) && ValidTotal(total) && ValidBuffer(w) && !Has(c.complete, k) && EnsurePartial(c, k, total).0
    requires !Completes(EnsurePartial(c, k, total).1, k, w, total)
    ensures var (e, c') := (EnsurePartial(c, k, total).1, Record(c, k, w, total).1);
            && Has(c'.partials, k) && c' == e.(partials := c'.partials)
            && Others(c'.partials, k) == Others(e.partials, k)
            && PartialOf(c', k).size == total && PartialOf(c', k).writers == PartialOf(e, k).writers
            && forall b :: 0 <= b < total ==>
                 (InRanges(PartialOf(c', k).ranges, b) <==> InRanges(PartialOf(e, k).ranges, b) || Delivers(w, b))
  {
    hide *;
    RecordCases(c, k, w, total);
    EntryReady(c, k, total);
    var e := EnsurePartial(c, k, total).1;
    NotYetWhole(e, k);
    BufferIsValid(w);
    LandingIs(w, total);
    WholeMeans(e, k, w, total);
    var (start, n) := Landing(w, total);
    LandCases(e, k, start, n);
    if n > 0 {
      ExtendCovers(e, k, w, total);
      SetOthers(e, k, Extend(PartialOf(e, k), start, n));
    }
  }

  // ---- Reading and giving back ----

  /** A read moves its entry to the young end; the others keep their order. */
  lemma TouchIs(c: Cache, k: Key)
    requires Sound(c)
    ensures Touch(c, k) == if Has(c.complete, k)
                           then c.(complete := Others(c.complete, k) + [(k, Get(c.complete, k))])
                           else c
  {
    hide Others;
    OthersRemove(c.complete, k);
  }

  /** acquireMemoryTrack: a hit is the youngest afterwards and has one pin more; a miss changes nothing. */
  lemma AcquireIs(c: Cache, k: Key)
    requires Sound(c)
    ensures Acquire(c, k)
            == if Has(c.complete, k)
               then (true, c.(complete := Others(c.complete, k) + [(k, Get(c.complete, k))],
                              pins := c.pins[k := Pins(c, k) + 1]))
               else (false, c)
  {
    hide Others, Has, Touch;
    TouchIs(c, k);
  }

  /** What the trim after an operation drops from u: the eldest entries nobody uses, no more than it must, and enough
      unless everything left is in use. */
  ghost predicate Trimmed(u: Cache, c': Cache) {
    && (exists n, m :: EldestDropped(u, c', 0, n, m))
    && (Usage(c') <= u.limit || Blocked(c'))
  }

  lemma TrimIs(u: Cache)
    requires Sound(u)
    ensures Trimmed(u, Trim(u))
  {
    hide FreeAny, EldestDropped, Sound;
    var n, m := FreeAnyOrder(u, 0);
    TrimEnds(u);
  }

  lemma UnpinSame(c: Cache, k: Key)
    ensures Unpin(c, k) == c.(pins := Unpin(c, k).pins)
  {
  }

  /** releaseMemoryTrack takes back one pin, if there is one, and trims. */
  lemma ReleaseIs(c: Cache, k: Key) returns (u: Cache)
    requires Sound(c)
    ensures u == c.(pins := u.pins)
    ensures forall j :: Pins(u, j) == if j == k && Pins(c, k) > 0 then Pins(c, k) - 1 else Pins(c, j)
    ensures Trimmed(u, Release(c, k))
  {
    hide Trim, Unpin, Trimmed, Sound;
    u := Unpin(c, k);
    UnpinSame(c, k);
    UnpinKeeps(c, k);
    TrimIs(u);
  }

  /** endMemoryTrack takes back one writer of the entry or, without an entry, one pin, if there is one, and trims. */
  lemma EndIs(c: Cache, k: Key) returns (u: Cache)
    requires Sound(c)
    ensures if Has(c.partials, k) then
              && Has(u.partials, k) && u == c.(partials := u.partials) && Others(u.partials, k) == Others(c.partials, k)
              && PartialOf(u, k) == PartialOf(c, k).(writers := Max(PartialOf(c, k).writers - 1, 0))
            else
              && u == c.(pins := u.pins)
              && forall j :: Pins(u, j) == if j == k && Pins(c, k) > 0 then Pins(c, k) - 1 else Pins(c, j)
    ensures Trimmed(u, End(c, k))
  {
    hide Trim, Unpin, Trimmed, Others, SetPartial, IndexOf;
    if Has(c.partials, k) {
      var p := PartialOf(c, k);
      var q := p.(writers := if p.writers > 0 then p.writers - 1 else 0);
      u := SetPartial(c, k, q);
      assert PartialOk(p);
      SetOthers(c, k, q);
      SetPartialKeeps(c, k, q);
    } else {
      u := Unpin(c, k);
      UnpinSame(c, k);
      UnpinKeeps(c, k);
    }
    TrimIs(u);
  }

  /** resizeMemoryCache: between 32 and 256 MiB, at most what the heap allows, then a trim. */
  lemma ResizeIs(c: Cache, bytes: int, heapSafe: int)
    requires Sound(c)
    ensures Trimmed(c.(limit := Min(Max(33_554_432, Min(bytes, 268_435_456)), heapSafe)), Resize(c, bytes, heapSafe))
  {
    hide Trim, Trimmed;
    TrimIs(c.(limit := Min(Max(33_554_432, Min(bytes, 268_435_456)), heapSafe)));
  }

  // ---- Inserting a whole track ----

  lemma {:induction false} FreeCompleteOrder(c: Cache, need: int) returns (n: nat)
    requires Sound(c)
    ensures EldestDropped(c, FreeComplete(c, need).1, need, n, 0)
    decreases |c.complete|
  {
    hide *;
    n := 0;
    FreeCompleteStep(c, need);
    if Usage(c) + need > c.limit && CanEvictComplete(c) {
      EvictCompleteKeeps(c);
      n := FreeCompleteOrder(EvictComplete(c), need);
      DropOneComplete(c, FreeComplete(c, need).1, need, n, 0);
      n := n + 1;
    } else {
      NothingDropped(c, need);
    }
  }

  lemma FreeCompleteStep(c: Cache, need: int)
    ensures FreeComplete(c, need)
            == if Usage(c) + need <= c.limit then (true, c)
               else if CanEvictComplete(c) then FreeComplete(EvictComplete(c), need)
               else (false, c)
    ensures CanEvictComplete(c) ==> |EvictComplete(c).complete| < |c.complete|
  {
  }

  /** The cache without the complete entry of k; its pins stay. */
  function WithoutComplete(c: Cache, k: Key): Cache {
    c.(complete := Others(c.complete, k), memoryBytes := Sum(Others(c.complete, k)))
  }

  lemma WithoutCompleteIs(c: Cache, k: Key)
    requires Sound(c)
    ensures Sound(WithoutComplete(c, k)) && WithoutComplete(c, k).limit == c.limit
    ensures WithoutComplete(c, k)
            == if Has(c.complete, k)
               then c.(complete := RemoveAt(c.complete, IndexOf(c.complete, k)),
                       memoryBytes := c.memoryBytes - Get(c.complete, k))
               else c
  {
    hide Sum, Others, IndexOf;
    OthersRemove(c.complete, k);
    if Has(c.complete, k) {
      RemoveCompleteKeeps(c, IndexOf(c.complete, k));
    }
  }

  lemma InsertCases(c: Cache, k: Key, size: int)
    requires Sound(c) && 0 < size <= c.limit
    ensures var r := FreeComplete(WithoutComplete(c, k), size);
            CacheModel.Insert(c, k, size)
            == if r.0 then (true, AddComplete(r.1, k, size))
               else if Has(c.complete, k) then (false, AddComplete(r.1, k, Get(c.complete, k)))
               else r
  {
    hide FreeComplete, WithoutComplete, IndexOf, Sound, AddComplete;
    WithoutCompleteIs(c, k);
  }

  /** insertMemoryTrackLocked: accepted exactly for a size that fits beside the pinned and the partial entries. The
      eldest unpinned complete entries go, no more than must, and the track, or the one it would have replaced, is the
      youngest. */
  lemma InsertIs(c: Cache, k: Key, size: int) returns (d: Cache, n: nat)
    requires Sound(c)
    ensures var (ok, c') := CacheModel.Insert(c, k, size);
            var rest := WithoutComplete(c, k);
            && (ok <==> 0 < size <= c.limit && PinnedBytes(rest.complete, c.pins) + c.partialBytes + size <= c.limit)
            && (if 0 < size <= c.limit then
                  && EldestDropped(rest, d, size, n, 0)
                  && c' == if ok then d.(complete := d.complete + [(k, size)], memoryBytes := d.memoryBytes + size)
                           else if Has(c.complete, k)
                           then d.(complete := d.complete + [(k, Get(c.complete, k))],
                                   memoryBytes := d.memoryBytes + Get(c.complete, k))
                           else d
                else c' == c)
  {
    hide FreeComplete, IndexOf, Sound, EldestDropped, PinnedBytes, Others, Sum;
    WithoutCompleteIs(c, k);
    d := FreeComplete(WithoutComplete(c, k), size).1;
    n := FreeCompleteOrder(WithoutComplete(c, k), size);
    if 0 < size <= c.limit {
      InsertCases(c, k, size);
      FreeCompleteIff(WithoutComplete(c, k), size);
    }
  }
}
