/** Reference counting of the RAM track cache over whole runs of its callers: data sources that acquire or
    begin a track and later release or end it exactly once. */
module CacheProtocol {
  import opened Wrappers
  import opened MemoryRanges
  import opened CacheModel
  import opened CacheInvariants
  import opened CacheRuns

  /** The cache with the outstanding acquires and begins of each key. */
  datatype World = World(cache: Cache, readers: map<Key, nat>, writers: map<Key, nat>)

  function Count(m: map<Key, nat>, k: Key): nat {
    if k in m then m[k] else 0
  }

  function Inc(m: map<Key, nat>, k: Key): map<Key, nat> {
    m[k := Count(m, k) + 1]
  }

  function Dec(m: map<Key, nat>, k: Key): map<Key, nat> {
    m[k := if Count(m, k) > 0 then Count(m, k) - 1 else 0]
  }

  function NewLimit(bytes: int, heapSafe: int): int {
    Min(Clamp(bytes, MIN_CACHE_BYTES, MAX_CACHE_BYTES), heapSafe)
  }

  /** The callers' side: release and end only what is held, never insert whole tracks from outside, and do not
      lower the limit below what is in use. */
  predicate Allowed(w: World, op: Op, heapSafe: int) {
    match op
    case ReleaseOp(k) => Count(w.readers, k) > 0
    case EndOp(k) => Count(w.writers, k) > 0
    case ResizeOp(bytes) => InUse(w.cache) <= NewLimit(bytes, heapSafe)
    case RememberOp(_, _) => false
    case _ => true
  }

  function WorldStep(w: World, op: Op, heapSafe: int): World {
    var (ok, c) := Step(w.cache, op, heapSafe);
    match op
    case AcquireOp(k) => World(c, if ok then Inc(w.readers, k) else w.readers, w.writers)
    case ReleaseOp(k) => World(c, Dec(w.readers, k), w.writers)
    case BeginOp(k, _) => World(c, w.readers, if ok then Inc(w.writers, k) else w.writers)
    case EndOp(k) => World(c, w.readers, Dec(w.writers, k))
    case _ => w.(cache := c)
  }

  /** What the counts of one key must be, by where its track is. */
  predicate KeyCounts(c: Cache, r: nat, n: nat, k: Key) {
    if Has(c.complete, k) then !Has(c.partials, k) && Pins(c, k) == r + n
    else if Has(c.partials, k) then r == 0 && Writers(c, k) == n
    else r == 0 && n == 0
  }

  ghost predicate Counts(c: Cache, readers: map<Key, nat>, writers: map<Key, nat>) {
    forall k :: KeyCounts(c, Count(readers, k), Count(writers, k), k)
  }

  ghost predicate Conserved(w: World) {
    Good(w.cache) && Counts(w.cache, w.readers, w.writers) && Usage(w.cache) <= w.cache.limit
  }

  /** Pins plus active writers are the outstanding acquires plus begins; complete and partial keys are disjoint;
      whatever is held is stored. */
  lemma ConservedMeans(w: World, k: Key)
    requires Conserved(w)
    ensures Pins(w.cache, k) + Writers(w.cache, k) == Count(w.readers, k) + Count(w.writers, k)
    ensures Has(w.cache.complete, k) ==> !Has(w.cache.partials, k)
    ensures Count(w.readers, k) > 0 ==> Has(w.cache.complete, k)
    ensures Count(w.writers, k) > 0 ==> Has(w.cache.complete, k) || Has(w.cache.partials, k)
  {
    assert KeyCounts(w.cache, Count(w.readers, k), Count(w.writers, k), k);
  }

  // ---- Counts through the operations ----

  lemma ShrunkCounts(c: Cache, c': Cache, readers: map<Key, nat>, writers: map<Key, nat>)
    requires Good(c) && Counts(c, readers, writers) && Shrunk(c, c')
    ensures Counts(c', readers, writers)
  {
    forall k ensures KeyCounts(c', Count(readers, k), Count(writers, k), k) {
      assert KeyCounts(c, Count(readers, k), Count(writers, k), k);
    }
  }

  lemma TouchCounts(c: Cache, k: Key, readers: map<Key, nat>, writers: map<Key, nat>)
    requires Good(c) && Counts(c, readers, writers)
    ensures Counts(Touch(c, k), readers, writers)
  {
    TouchKeeps(c, k);
    hide Touch;
    forall j ensures KeyCounts(Touch(c, k), Count(readers, j), Count(writers, j), j) {
      assert KeyCounts(c, Count(readers, j), Count(writers, j), j);
    }
  }

  /** Pinning a complete entry for a reader or for a writer. */
  lemma PinCounts(c: Cache, k: Key, readers: map<Key, nat>, writers: map<Key, nat>)
    requires Good(c) && Counts(c, readers, writers) && Has(c.complete, k)
    ensures Counts(Pin(c, k), Inc(readers, k), writers)
    ensures Counts(Pin(c, k), readers, Inc(writers, k))
  {
    forall j
      ensures KeyCounts(Pin(c, k), Count(Inc(readers, k), j), Count(writers, j), j)
      ensures KeyCounts(Pin(c, k), Count(readers, j), Count(Inc(writers, k), j), j)
    {
      assert KeyCounts(c, Count(readers, j), Count(writers, j), j);
    }
  }

  /** Unpinning for a holder of either kind. */
  lemma UnpinCounts(c: Cache, k: Key, readers: map<Key, nat>, writers: map<Key, nat>, readers': map<Key, nat>,
                    writers': map<Key, nat>)
    requires Good(c) && Counts(c, readers, writers) && Has(c.complete, k)
    requires Count(readers', k) + Count(writers', k) == Count(readers, k) + Count(writers, k) - 1
    requires forall j :: j != k ==> Count(readers', j) == Count(readers, j) && Count(writers', j) == Count(writers, j)
    ensures Counts(Unpin(c, k), readers', writers')
  {
    hide Unpin, IndexOf, Good, Pins, Count, Writers;
    GoodIsSound(c);
    UnpinKeeps(c, k);
    UnpinFields(c, k);
    assert KeyCounts(c, Count(readers, k), Count(writers, k), k);
    forall j ensures KeyCounts(Unpin(c, k), Count(readers', j), Count(writers', j), j) {
      assert KeyCounts(c, Count(readers, j), Count(writers, j), j);
      SameWriters(c, Unpin(c, k), j);
    }
  }

  lemma UnpinFields(c: Cache, k: Key)
    ensures Unpin(c, k).complete == c.complete && Unpin(c, k).partials == c.partials
  {
  }

  lemma SameWriters(c: Cache, c': Cache, k: Key)
    requires c'.partials == c.partials
    ensures Writers(c', k) == Writers(c, k)
  {
  }

  lemma NewPartialCounts(d: Cache, k: Key, total: int, readers: map<Key, nat>, writers: map<Key, nat>)
    requires Sound(d) && Counts(d, readers, writers) && ValidTotal(total) && !Has(d.complete, k) && !Has(d.partials, k)
    ensures Counts(NewPartial(d, k, total), readers, writers)
  {
    NewPartialKeeps(d, k, total);
    assert NewPartial(d, k, total).complete == d.complete && NewPartial(d, k, total).pins == d.pins;
    hide NewPartial, Sound, IndexOf;
    forall j ensures KeyCounts(NewPartial(d, k, total), Count(readers, j), Count(writers, j), j) {
      assert KeyCounts(d, Count(readers, j), Count(writers, j), j);
    }
  }

  lemma EnsureCounts(c: Cache, k: Key, total: int, readers: map<Key, nat>, writers: map<Key, nat>)
    requires Good(c) && Counts(c, readers, writers) && ValidTotal(total) && !Has(c.complete, k)
    ensures Counts(EnsurePartial(c, k, total).1, readers, writers)
    ensures !Has(EnsurePartial(c, k, total).1.complete, k)
  {
    EnsurePartialKeeps(c, k, total);
    hide EnsurePartial, IndexOf, Counts;
    var r := EnsurePartial(c, k, total);
    if !r.0 {
      ShrunkCounts(c, r.1, readers, writers);
    } else if r.1 != c {
      var d :| Sound(d) && Shrunk(c, d) && !Has(d.partials, k) && r.1 == NewPartial(d, k, total);
      ShrunkCounts(c, d, readers, writers);
      NewPartialCounts(d, k, total, readers, writers);
    }
  }

  /** Replacing a partial entry by one with n writers, when n is the count for its key. */
  lemma SetPartialCounts(c: Cache, k: Key, p: Partial, readers: map<Key, nat>, writers: map<Key, nat>,
                         writers': map<Key, nat>)
    requires Good(c) && Counts(c, readers, writers) && Has(c.partials, k)
    requires p.size == PartialOf(c, k).size && PartialOk(p) && p.writers == Count(writers', k)
    requires forall j :: j != k ==> Count(writers', j) == Count(writers, j)
    ensures Counts(SetPartial(c, k, p), readers, writers')
  {
    hide SetPartial, IndexOf, Good, Sound, PartialOk, Count;
    GoodIsSound(c);
    SetPartialKeeps(c, k, p);
    SetPartialFields(c, k, p);
    forall j ensures KeyCounts(SetPartial(c, k, p), Count(readers, j), Count(writers', j), j) {
      assert KeyCounts(c, Count(readers, j), Count(writers, j), j);
    }
  }

  lemma SetPartialFields(c: Cache, k: Key, p: Partial)
    requires Has(c.partials, k)
    ensures SetPartial(c, k, p).complete == c.complete && SetPartial(c, k, p).pins == c.pins
  {
  }

  /** The exact condition under which a promotion keeps the counts: it has no writers to lose, or it succeeds,
      that is, the pinned and partial bytes are within the limit. */
  lemma PromoteCounts(c: Cache, k: Key, p: Partial, readers: map<Key, nat>, writers: map<Key, nat>)
    requires Good(c) && Counts(c, readers, writers) && Has(c.partials, k) && p.size == PartialOf(c, k).size > 0
    requires p.writers == PartialOf(c, k).writers
    ensures Counts(Promote(SetPartial(c, k, p), k).1, readers, writers)
            <==> p.writers == 0 || PinnedBytes(c.complete, c.pins) + c.partialBytes <= c.limit
  {
    assert KeyCounts(c, Count(readers, k), Count(writers, k), k);
    PromoteIff(c, k, p);
    PromoteKeeps(c, k, p);
    DropPartialKeeps(c, k);
    DropPartialGood(c, k);
    var d, r := DropPartial(c, k), Promote(SetPartial(c, k, p), k);
    hide Promote, SetPartial, DropPartial, Sound, PinnedBytes, CacheModel.Insert;
    if r.0 {
      PromotedCounts(c, d, r.1, k, p, readers, writers);
    } else {
      FailedCounts(c, d, r.1, k, p, readers, writers);
    }
  }

  lemma PromotedCounts(c: Cache, d: Cache, r: Cache, k: Key, p: Partial, readers: map<Key, nat>, writers: map<Key, nat>)
    requires Counts(c, readers, writers) && Has(c.partials, k) && p.writers == Writers(c, k)
    requires Good(d) && d.complete == c.complete && d.pins == c.pins && !Has(d.partials, k)
    requires forall j :: j != k ==> (Has(d.partials, j) <==> Has(c.partials, j))
    requires forall j :: Has(d.partials, j) ==> Get(d.partials, j) == Get(c.partials, j)
    requires exists e :: Added(d, e, k, p.size) && r == if p.writers > 0 then e.(pins := e.pins[k := p.writers]) else e
    ensures Counts(r, readers, writers)
  {
    assert KeyCounts(c, Count(readers, k), Count(writers, k), k);
    assert k !in d.pins;
    forall j ensures KeyCounts(r, Count(readers, j), Count(writers, j), j) {
      assert KeyCounts(c, Count(readers, j), Count(writers, j), j);
    }
  }

  lemma FailedCounts(c: Cache, d: Cache, r: Cache, k: Key, p: Partial, readers: map<Key, nat>, writers: map<Key, nat>)
    requires Counts(c, readers, writers) && Has(c.partials, k) && p.writers == Writers(c, k)
    requires Good(d) && d.complete == c.complete && d.pins == c.pins && !Has(d.partials, k)
    requires forall j :: j != k ==> (Has(d.partials, j) <==> Has(c.partials, j))
    requires forall j :: Has(d.partials, j) ==> Get(d.partials, j) == Get(c.partials, j)
    requires Shrunk(d, r)
    ensures Counts(r, readers, writers) <==> p.writers == 0
  {
    assert KeyCounts(c, Count(readers, k), Count(writers, k), k);
    if p.writers > 0 {
      assert !KeyCounts(r, Count(readers, k), Count(writers, k), k);
    } else {
      forall j ensures KeyCounts(r, Count(readers, j), Count(writers, j), j) {
        assert KeyCounts(c, Count(readers, j), Count(writers, j), j);
      }
    }
  }

  // ---- One step, and every run ----

  lemma AcquireConserves(w: World, k: Key, heapSafe: int)
    requires Conserved(w)
    ensures Conserved(WorldStep(w, AcquireOp(k), heapSafe))
  {
    var c := w.cache;
    StepGood(c, AcquireOp(k), heapSafe);
    if Has(c.complete, k) {
      TouchGood(c, k);
      TouchCounts(c, k, w.readers, w.writers);
      PinCounts(Touch(c, k), k, w.readers, w.writers);
      TouchKeeps(c, k);
    }
  }

  lemma ReleaseConserves(w: World, k: Key, heapSafe: int)
    requires Conserved(w) && Count(w.readers, k) > 0
    ensures Conserved(WorldStep(w, ReleaseOp(k), heapSafe))
  {
    var c := w.cache;
    StepGood(c, ReleaseOp(k), heapSafe);
    assert KeyCounts(c, Count(w.readers, k), Count(w.writers, k), k);
    UnpinCounts(c, k, w.readers, w.writers, Dec(w.readers, k), w.writers);
    UnpinGood(c, k);
    TrimGood(Unpin(c, k));
    ShrunkCounts(Unpin(c, k), Trim(Unpin(c, k)), Dec(w.readers, k), w.writers);
  }

  lemma BeginConserves(w: World, k: Key, total: int, heapSafe: int)
    requires Conserved(w)
    ensures Conserved(WorldStep(w, BeginOp(k, total), heapSafe))
  {
    var c := w.cache;
    StepGood(c, BeginOp(k, total), heapSafe);
    if ValidTotal(total) {
      if Has(c.complete, k) {
        PinCounts(c, k, w.readers, w.writers);
      } else {
        BeginPartialCounts(c, k, total, w.readers, w.writers);
      }
    }
  }

  lemma BeginPartialCounts(c: Cache, k: Key, total: int, readers: map<Key, nat>, writers: map<Key, nat>)
    requires Good(c) && Counts(c, readers, writers) && ValidTotal(total) && !Has(c.complete, k)
    ensures var r := Begin(c, k, total);
            && Counts(r.1, readers, if r.0 then Inc(writers, k) else writers)
            && r.1.limit == c.limit
  {
    hide EnsurePartial, Good, Counts, IndexOf, Bounded;
    EnsureGood(c, k, total);
    EnsureCounts(c, k, total, readers, writers);
    var r := EnsurePartial(c, k, total);
    if r.0 {
      var p := PartialOf(r.1, k);
      assert p.writers == Count(writers, k) by {
        KeyCountsOf(r.1, readers, writers, k);
      }
      SetPartialCounts(r.1, k, p.(writers := p.writers + 1), readers, writers, Inc(writers, k));
    }
  }

  lemma KeyCountsOf(c: Cache, readers: map<Key, nat>, writers: map<Key, nat>, k: Key)
    requires Counts(c, readers, writers)
    ensures KeyCounts(c, Count(readers, k), Count(writers, k), k)
  {
  }

  lemma EndConserves(w: World, k: Key, heapSafe: int)
    requires Conserved(w) && Count(w.writers, k) > 0
    ensures Conserved(WorldStep(w, EndOp(k), heapSafe))
  {
    var c := w.cache;
    StepGood(c, EndOp(k), heapSafe);
    KeyCountsOf(c, w.readers, w.writers, k);
    var c1;
    if Has(c.partials, k) {
      var p := PartialOf(c, k);
      assert PartialOk(p);
      c1 := SetPartial(c, k, p.(writers := p.writers - 1));
      SetPartialGood(c, k, p.(writers := p.writers - 1));
      SetPartialCounts(c, k, p.(writers := p.writers - 1), w.readers, w.writers, Dec(w.writers, k));
    } else {
      c1 := Unpin(c, k);
      UnpinGood(c, k);
      UnpinCounts(c, k, w.readers, w.writers, w.readers, Dec(w.writers, k));
    }
    assert End(c, k) == Trim(c1);
    hide End, Trim, SetPartial, Unpin, Good, Counts;
    TrimGood(c1);
    ShrunkCounts(c1, Trim(c1), w.readers, Dec(w.writers, k));
  }

  /** Recording keeps the counts, and a completing write always promotes without evicting anything. */
  lemma RecordCounts(c: Cache, k: Key, write: CacheModel.Write, total: int, readers: map<Key, nat>,
                     writers: map<Key, nat>)
    requires Good(c) && Counts(c, readers, writers) && Usage(c) <= c.limit
    ensures Counts(Record(c, k, write, total).1, readers, writers) && Record(c, k, write, total).1.limit == c.limit
  {
    if ValidTotal(total) && ValidBuffer(write) && !Has(c.complete, k) {
      EnsureGood(c, k, total);
      EnsureCounts(c, k, total, readers, writers);
      hide EnsurePartial, Counts, Promote;
      var r := EnsurePartial(c, k, total);
      var (start, n) := Landing(write, total);
      if r.0 && n > 0 {
        ReadyKeeps(r.1, k, write, total);
        KeyCountsOf(r.1, readers, writers, k);
        var p := Extend(PartialOf(r.1, k), start, n);
        if p.covered < total {
          SetPartialCounts(r.1, k, p, readers, writers, writers);
        } else {
          PromoteFits(r.1, k, p);
          PromoteCounts(r.1, k, p, readers, writers);
          PromoteKeeps(r.1, k, p);
        }
      }
    }
  }

  lemma ResizeConserves(w: World, bytes: int, heapSafe: int)
    requires Conserved(w) && Allowed(w, ResizeOp(bytes), heapSafe)
    ensures Conserved(WorldStep(w, ResizeOp(bytes), heapSafe))
  {
    var c1 := w.cache.(limit := NewLimit(bytes, heapSafe));
    assert Good(c1);
    assert Counts(c1, w.readers, w.writers) by {
      forall k ensures KeyCounts(c1, Count(w.readers, k), Count(w.writers, k), k) {
        KeyCountsOf(w.cache, w.readers, w.writers, k);
      }
    }
    FreeAnyIff(c1, 0);
    FreeAnyKeeps(c1, 0);
    TrimGood(c1);
    ShrunkCounts(c1, Trim(c1), w.readers, w.writers);
  }

  /** Every allowed step keeps the counts exact and the usage within the limit. */
  lemma StepConserves(w: World, op: Op, heapSafe: int)
    requires Conserved(w) && Allowed(w, op, heapSafe)
    ensures Conserved(WorldStep(w, op, heapSafe))
  {
    match op
    case AcquireOp(k) => AcquireConserves(w, k, heapSafe);
    case ReleaseOp(k) => ReleaseConserves(w, k, heapSafe);
    case BeginOp(k, total) => BeginConserves(w, k, total, heapSafe);
    case EndOp(k) => EndConserves(w, k, heapSafe);
    case RecordOp(k, write, total) =>
      StepGood(w.cache, op, heapSafe);
      RecordCounts(w.cache, k, write, total, w.readers, w.writers);
    case PeekOp(k) =>
      TouchGood(w.cache, k);
      TouchKeeps(w.cache, k);
      TouchCounts(w.cache, k, w.readers, w.writers);
    case ResizeOp(bytes) => ResizeConserves(w, bytes, heapSafe);
  }

  function WorldRun(w: World, ops: seq<Op>, heapSafe: int): World
    decreases |ops|
  {
    if ops == [] then w else WorldRun(WorldStep(w, ops[0], heapSafe), ops[1..], heapSafe)
  }

  predicate AllAllowed(w: World, ops: seq<Op>, heapSafe: int)
    decreases |ops|
  {
    ops == [] || (Allowed(w, ops[0], heapSafe) && AllAllowed(WorldStep(w, ops[0], heapSafe), ops[1..], heapSafe))
  }

  lemma {:induction false} RunConserves(w: World, ops: seq<Op>, heapSafe: int)
    requires Conserved(w) && AllAllowed(w, ops, heapSafe)
    ensures Conserved(WorldRun(w, ops, heapSafe))
    decreases |ops|
  {
    if ops != [] {
      StepConserves(w, ops[0], heapSafe);
      RunConserves(WorldStep(w, ops[0], heapSafe), ops[1..], heapSafe);
    }
  }

  lemma EmptyConserved(limit: nat)
    ensures Conserved(World(Empty(limit), map[], map[]))
  {
    var w := World(Empty(limit), map[], map[]);
    forall j ensures KeyCounts(w.cache, Count(w.readers, j), Count(w.writers, j), j) {}
  }

  /** Reference-count conservation over every run from the empty cache. */
  lemma CountsConserved(limit: nat, ops: seq<Op>, heapSafe: int, k: Key)
    requires AllAllowed(World(Empty(limit), map[], map[]), ops, heapSafe)
    ensures var w := WorldRun(World(Empty(limit), map[], map[]), ops, heapSafe);
            && Pins(w.cache, k) + Writers(w.cache, k) == Count(w.readers, k) + Count(w.writers, k)
            && (Has(w.cache.complete, k) ==> !Has(w.cache.partials, k))
            && (Count(w.readers, k) > 0 ==> Has(w.cache.complete, k))
            && (Count(w.writers, k) > 0 ==> Has(w.cache.complete, k) || Has(w.cache.partials, k))
            && Usage(w.cache) <= w.cache.limit
  {
    var w := World(Empty(limit), map[], map[]);
    EmptyConserved(limit);
    RunConserves(w, ops, heapSafe);
    ConservedMeans(WorldRun(w, ops, heapSafe), k);
  }

  // ---- Promotion in a run, and what lowering the limit can lose ----

  /** Promoting a complete partial entry within the limit appends it, evicts nothing and turns its writers into pins. */
  lemma PromotionWithin(c: Cache, k: Key, p: Partial)
    requires Good(c) && Usage(c) <= c.limit && Has(c.partials, k) && !Has(c.complete, k)
    requires p.size == PartialOf(c, k).size > 0 && p.writers == PartialOf(c, k).writers && Pins(c, k) == 0
    ensures var (promoted, c') := Promote(SetPartial(c, k, p), k);
            && promoted && c'.complete == c.complete + [(k, p.size)] && c'.partials == DropPartial(c, k).partials
            && Pins(c', k) == p.writers && Usage(c') == Usage(c)
  {
    PromoteIff(c, k, p);
    PromoteShape(c, k, p);
    DropPartialGood(c, k);
    InsertAbsent(DropPartial(c, k), k, p.size);
    hide Promote, SetPartial, CacheModel.Insert, DropPartial, Good, Sound, PinnedBytes, Has, PartialOf, IndexOf, Shrunk;
  }

  /** A write that completes a track, be it the first one to it, promotes it as soon as there is an entry for it: the
      track is appended, nothing is evicted for the promotion, and the writers become pins. */
  lemma CompletingWrite(w: World, k: Key, write: CacheModel.Write, total: int, heapSafe: int)
    requires Conserved(w) && !Has(w.cache.complete, k) && ValidTotal(total) && ValidBuffer(write)
    requires Landing(write, total).1 > 0
    requires var (ready, e) := EnsurePartial(w.cache, k, total);
             ready && var (start, n) := Landing(write, total); Extend(PartialOf(e, k), start, n).covered >= total
    ensures var e := EnsurePartial(w.cache, k, total).1;
            var (promoted, c') := Step(w.cache, RecordOp(k, write, total), heapSafe);
            && promoted && Has(e.partials, k) && Usage(e) <= e.limit
            && c'.complete == e.complete + [(k, total)] && c'.partials == RemoveAt(e.partials, IndexOf(e.partials, k))
            && Pins(c', k) == Count(w.writers, k) && Usage(c') == Usage(e)
  {
    hide *;
    var c := w.cache;
    ConservedIs(w);
    EnsureGood(c, k, total);
    EnsureCounts(c, k, total, w.readers, w.writers);
    var e := EnsurePartial(c, k, total).1;
    EnsuredEntry(c, k, total);
    BoundedWithin(c, e);
    KeyCountsOf(e, w.readers, w.writers, k);
    KeyCountsPartial(e, w.readers, w.writers, k);
    GoodSound(e);
    ReadyKeeps(e, k, write, total);
    var (start, n) := Landing(write, total);
    ExtendKeeps(PartialOf(e, k), start, n);
    PromotionWithin(e, k, Extend(PartialOf(e, k), start, n));
    RecordCompletes(c, k, write, total, heapSafe);
    DropPartialIs(e, k);
  }

  lemma ConservedIs(w: World)
    requires Conserved(w)
    ensures Good(w.cache) && Counts(w.cache, w.readers, w.writers) && Usage(w.cache) <= w.cache.limit
  {
    hide Good, Counts, Usage;
  }

  lemma EnsuredEntry(c: Cache, k: Key, total: int)
    requires EnsurePartial(c, k, total).0
    ensures Has(EnsurePartial(c, k, total).1.partials, k)
  {
    hide FreeAny;
  }

  lemma BoundedWithin(c: Cache, e: Cache)
    requires Bounded(c, e) && Usage(c) <= c.limit && e.limit == c.limit
    ensures Usage(e) <= e.limit
  {
  }

  lemma KeyCountsPartial(c: Cache, readers: map<Key, nat>, writers: map<Key, nat>, k: Key)
    requires Good(c) && KeyCounts(c, Count(readers, k), Count(writers, k), k) && Has(c.partials, k)
    requires !Has(c.complete, k)
    ensures Pins(c, k) == 0 && PartialOf(c, k).writers == Count(writers, k)
  {
    hide IndexOf;
  }

  lemma GoodSound(c: Cache)
    requires Good(c)
    ensures Sound(c)
  {
    hide Sound;
  }

  lemma ExtendKeeps(p: Partial, start: int, n: int)
    ensures Extend(p, start, n).size == p.size && Extend(p, start, n).writers == p.writers
  {
  }

  lemma RecordCompletes(c: Cache, k: Key, write: CacheModel.Write, total: int, heapSafe: int)
    requires !Has(c.complete, k) && ValidTotal(total) && ValidBuffer(write) && Landing(write, total).1 > 0
    requires var (ready, e) := EnsurePartial(c, k, total);
             ready && PartialOf(e, k).size == total
             && var (start, n) := Landing(write, total); Extend(PartialOf(e, k), start, n).covered >= total
    ensures var e := EnsurePartial(c, k, total).1;
            var (start, n) := Landing(write, total);
            Has(e.partials, k) &&
              Step(c, RecordOp(k, write, total), heapSafe)
                == Promote(SetPartial(e, k, Extend(PartialOf(e, k), start, n)), k)
  {
    EnsuredEntry(c, k, total);
    ExtendKeeps(PartialOf(EnsurePartial(c, k, total).1, k), Landing(write, total).0, Landing(write, total).1);
    hide EnsurePartial, Promote, SetPartial, Landing, PartialOf, Extend, ValidTotal, ValidBuffer, Has;
  }

  lemma DropPartialIs(c: Cache, k: Key)
    requires Has(c.partials, k)
    ensures DropPartial(c, k).partials == RemoveAt(c.partials, IndexOf(c.partials, k))
  {
    hide IndexOf;
  }

  /** Resizing ends within the new limit exactly when the entries in use fit it. */
  lemma ResizeIff(c: Cache, bytes: int, heapSafe: int)
    requires Good(c)
    ensures Usage(Resize(c, bytes, heapSafe)) <= NewLimit(bytes, heapSafe) <==> InUse(c) <= NewLimit(bytes, heapSafe)
  {
    var c1 := c.(limit := NewLimit(bytes, heapSafe));
    FreeAnyIff(c1, 0);
    FreeAnyKeeps(c1, 0);
  }

  const MIB: int := 1024 * 1024

  /** One 40 MiB track begun and nothing else, before and after its last write. */
  function Begun(k: Key, limit: int): Cache {
    Cache([], map[], [(k, Partial(40 * MIB, [], 0, 1))], 0, 40 * MIB, limit)
  }

  lemma BeginAlone(k: Key)
    ensures Begin(Empty(64 * MIB), k, 40 * MIB) == (true, Begun(k, 64 * MIB))
  {
    var size, c := 40 * MIB, Empty(64 * MIB);
    var entry := (k, Partial(size, [], 0, 0));
    assert c.partials + [entry] == [entry];
    assert Reserve(c, size) == (true, c);
    assert EnsurePartial(c, k, size) == (true, Cache([], map[], [entry], 0, size, 64 * MIB));
    assert [entry][0 := (k, Partial(size, [], 0, 1))] == [(k, Partial(size, [], 0, 1))];
  }

  lemma LowerAlone(k: Key)
    ensures Resize(Begun(k, 64 * MIB), 32 * MIB, 256 * MIB) == Begun(k, 32 * MIB)
    ensures InUse(Begun(k, 64 * MIB)) == 40 * MIB
  {
    var c := Begun(k, 32 * MIB);
    assert FirstIdle(c.partials) == 1;
    assert FirstUnpinned(c.complete, c.pins) == 0;
    assert ActiveBytes(c.partials) == 40 * MIB + ActiveBytes([]);
  }

  lemma CompleteAlone(k: Key)
    ensures Record(Begun(k, 32 * MIB), k, Write(0, 40 * MIB, 0, 40 * MIB), 40 * MIB) == (false, Empty(32 * MIB))
  {
    var size, c := 40 * MIB, Begun(k, 32 * MIB);
    var full := Extend(c.partials[0].1, 0, size);
    assert full.ranges == [Range(0, size)];
    assert Total([Range(0, size)]) == size + Total([]);
    var c2 := SetPartial(c, k, full);
    assert c2.partials == [(k, full)];
    assert RemoveAt(c2.partials, 0) == [];
    assert DropPartial(c2, k) == Empty(32 * MIB);
  }

  /** Conservation does fail when the limit is lowered below what is in use: a begun 40 MiB track, the limit
      lowered to 32 MiB, and then the completing write. The track is dropped and its writer forgotten. */
  lemma LoweringLosesWriter(k: Key)
    ensures var heapSafe := 256 * MIB;
            var w := World(Empty(64 * MIB), map[], map[]);
            var w1 := WorldStep(w, BeginOp(k, 40 * MIB), heapSafe);
            var w2 := WorldStep(w1, ResizeOp(32 * MIB), heapSafe);
            var w3 := WorldStep(w2, RecordOp(k, Write(0, 40 * MIB, 0, 40 * MIB), 40 * MIB), heapSafe);
            && Conserved(w1) && !Allowed(w1, ResizeOp(32 * MIB), heapSafe)
            && Pins(w3.cache, k) + Writers(w3.cache, k) == 0 && Count(w3.writers, k) == 1
  {
    hide Begin, Resize, Record, InUse, Conserved;
    EmptyConserved(64 * MIB);
    BeginConserves(World(Empty(64 * MIB), map[], map[]), k, 40 * MIB, 256 * MIB);
    BeginAlone(k);
    LowerAlone(k);
    CompleteAlone(k);
  }
}
