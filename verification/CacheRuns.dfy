/** Whole runs of the RAM track cache: the accounting holds after any operations whatsoever, and under the
    protocol of its callers every pin and writer is accounted for. */
module CacheRuns {
  import opened Wrappers
  import opened MemoryRanges
  import opened CacheModel
  import opened CacheInvariants

  datatype Op =
    | AcquireOp(key: Key)
    | ReleaseOp(key: Key)
    | BeginOp(key: Key, total: int)
    | EndOp(key: Key)
    | RecordOp(key: Key, write: CacheModel.Write, total: int)
    | PeekOp(key: Key)
    | ResizeOp(bytes: int)
    | RememberOp(key: Key, size: int)

  /** The answer of an operation (true where it answers nothing) and the cache it leaves. */
  function Step(c: Cache, op: Op, heapSafe: int): (bool, Cache) {
    match op
    case AcquireOp(k) => Acquire(c, k)
    case ReleaseOp(k) => (true, Release(c, k))
    case BeginOp(k, total) => Begin(c, k, total)
    case EndOp(k) => (true, End(c, k))
    case RecordOp(k, w, total) => Record(c, k, w, total)
    case PeekOp(k) => (Has(c.complete, k), Touch(c, k))
    case ResizeOp(bytes) => (true, Resize(c, bytes, heapSafe))
    case RememberOp(k, size) => CacheModel.Insert(c, k, size)
  }

  function Run(c: Cache, ops: seq<Op>, heapSafe: int): Cache
    decreases |ops|
  {
    if ops == [] then c else Run(Step(c, ops[0], heapSafe).1, ops[1..], heapSafe)
  }

  function Empty(limit: int): Cache {
    Cache([], map[], [], 0, 0, limit)
  }

  // ---- Promotion ----

  /** Promotion looks only at the cache without the partial entry. */
  lemma PromoteUnfold(c: Cache, k: Key, p: Partial)
    requires Sound(c) && Has(c.partials, k) && p.size == PartialOf(c, k).size
    ensures PartialOf(SetPartial(c, k, p), k) == p
    ensures DropPartial(SetPartial(c, k, p), k) == DropPartial(c, k)
  {
    ReplaceEntry(c.partials, k, p);
    var i := IndexOf(c.partials, k);
    assert RemoveAt(c.partials[i := (k, p)], i) == RemoveAt(c.partials, i);
  }

  /** Inserting an absent key: what an outsider sees of the other entries. */
  ghost predicate Added(d: Cache, r: Cache, k: Key, size: int) {
    && Good(r) && r.limit == d.limit && r.partials == d.partials && r.pins == d.pins && Usage(r) <= d.limit
    && Has(r.complete, k) && Get(r.complete, k) == size
    && (forall j :: j != k && Has(r.complete, j) ==> Has(d.complete, j))
    && (forall j :: j != k && Has(d.complete, j) && Pins(d, j) > 0 ==> Has(r.complete, j))
  }

  lemma InsertAdds(d: Cache, k: Key, size: int)
    requires Good(d) && !Has(d.complete, k) && size > 0
    ensures var r := CacheModel.Insert(d, k, size);
            && Good(r.1) && r.1.limit == d.limit && r.1.partials == d.partials && r.1.pins == d.pins
            && (r.0 ==> Added(d, r.1, k, size) && Usage(r.1) <= d.limit && Has(r.1.complete, k) && k !in r.1.pins)
            && (!r.0 ==> Shrunk(d, r.1) && Usage(r.1) <= Usage(d))
  {
    InsertAbsent(d, k, size);
    hide CacheModel.Insert, IndexOf, Sum, Sizes, Canonical, Total;
    var r := CacheModel.Insert(d, k, size);
    if r.0 {
      var e :| Sound(e) && Shrunk(d, e) && e.partials == d.partials && r.1 == AddComplete(e, k, size);
      AppendEntry(e.complete, k, size);
      ShrunkGood(d, e);
    } else {
      ShrunkGood(d, r.1);
    }
  }

  /** The capacity test of the promotion, in terms of the cache before it. */
  lemma PromoteFits(c: Cache, k: Key, p: Partial)
    requires Sound(c) && Has(c.partials, k) && p.size == PartialOf(c, k).size > 0
    ensures var d := DropPartial(c, k);
            (p.size <= d.limit && PinnedBytes(d.complete, d.pins) + d.partialBytes + p.size <= d.limit)
            <==> PinnedBytes(c.complete, c.pins) + c.partialBytes <= c.limit
    ensures Usage(c) <= c.limit ==> PinnedBytes(c.complete, c.pins) + c.partialBytes <= c.limit
  {
    DropPartialKeeps(c, k);
    PinnedBytesBound(c.complete, c.pins);
    PartialBytesBound(DropPartial(c, k));
  }

  lemma DropPartialGood(c: Cache, k: Key)
    requires Good(c) && Has(c.partials, k)
    ensures var d := DropPartial(c, k);
            && Good(d) && d.complete == c.complete && d.pins == c.pins && d.limit == c.limit
            && Usage(d) == Usage(c) - PartialOf(c, k).size
  {
    DropPartialKeeps(c, k);
  }

  lemma PromoteShape(c: Cache, k: Key, p: Partial)
    requires Sound(c) && Has(c.partials, k) && p.size == PartialOf(c, k).size
    ensures var e := CacheModel.Insert(DropPartial(c, k), k, p.size);
            Promote(SetPartial(c, k, p), k)
            == (if e.0 && p.writers > 0 then (true, e.1.(pins := e.1.pins[k := Pins(e.1, k) + p.writers])) else e)
  {
    PromoteUnfold(c, k, p);
  }

  /** A fully covered partial entry is promoted exactly when the pinned and partial bytes are within the limit;
      within the limit altogether, nothing is evicted for it. */
  lemma PromoteIff(c: Cache, k: Key, p: Partial)
    requires Good(c) && Has(c.partials, k) && !Has(c.complete, k) && p.size == PartialOf(c, k).size > 0
    ensures var r := Promote(SetPartial(c, k, p), k);
            && (r.0 <==> PinnedBytes(c.complete, c.pins) + c.partialBytes <= c.limit)
            && (Usage(c) <= c.limit ==> r.0 && r.1.complete == c.complete + [(k, p.size)])
  {
    PromoteShape(c, k, p);
    DropPartialGood(c, k);
    PromoteFits(c, k, p);
    InsertAbsent(DropPartial(c, k), k, p.size);
    hide Promote, DropPartial, SetPartial, CacheModel.Insert, PinnedBytes, Sound, Shrunk;
  }

  /** A promoted entry takes its writers along as pins. */
  lemma PromoteKeeps(c: Cache, k: Key, p: Partial)
    requires Good(c) && Has(c.partials, k) && !Has(c.complete, k) && p.size == PartialOf(c, k).size > 0
    ensures var r := Promote(SetPartial(c, k, p), k);
            && Good(r.1) && Bounded(c, r.1) && r.1.limit == c.limit && r.1.partials == DropPartial(c, k).partials
            && (!r.0 ==> Shrunk(DropPartial(c, k), r.1))
            && (r.0 ==> var e := CacheModel.Insert(DropPartial(c, k), k, p.size).1;
                        Added(DropPartial(c, k), e, k, p.size)
                        && r.1 == (if p.writers > 0 then e.(pins := e.pins[k := p.writers]) else e))
  {
    hide IndexOf, Good, Shrunk, Added, Promote, DropPartial, SetPartial, CacheModel.Insert, Has, PartialOf;
    GoodIsSound(c);
    PromoteShape(c, k, p);
    DropPartialGood(c, k);
    InsertAdds(DropPartial(c, k), k, p.size);
    var e := CacheModel.Insert(DropPartial(c, k), k, p.size);
    if e.0 {
      PinGood(e.1, k, p.writers);
    }
  }

  lemma PartialBytesBound(c: Cache)
    requires Sound(c)
    ensures c.partialBytes >= 0
  {
    SumNonNegative(Sizes(c.partials));
  }

  // ---- Any run: accounting, and no operation raises the peak ----

  ghost predicate Bounded(c: Cache, c': Cache) {
    Usage(c') <= Max(c'.limit, Usage(c))
  }

  lemma ShrunkGood(c: Cache, c': Cache)
    requires Good(c) && Sound(c') && Shrunk(c, c')
    ensures Good(c')
  {
    forall k | k in c'.pins ensures Has(c'.complete, k) {
      assert Pins(c, k) > 0;
    }
  }

  lemma TrimGood(c: Cache)
    requires Good(c)
    ensures Good(Trim(c)) && Bounded(c, Trim(c)) && Shrunk(c, Trim(c))
  {
    TrimEnds(c);
    hide Trim;
    ShrunkGood(c, Trim(c));
  }

  lemma PinGood(c: Cache, k: Key, n: nat)
    requires Good(c) && Has(c.complete, k)
    ensures n > 0 ==> Good(c.(pins := c.pins[k := Pins(c, k) + n]))
  {
  }

  lemma UnpinGood(c: Cache, k: Key)
    requires Good(c)
    ensures Good(Unpin(c, k))
  {
  }

  lemma TouchGood(c: Cache, k: Key)
    requires Good(c)
    ensures Good(Touch(c, k)) && Has(Touch(c, k).complete, k) == Has(c.complete, k) && Usage(Touch(c, k)) == Usage(c)
  {
    TouchKeeps(c, k);
  }

  lemma SetPartialGood(c: Cache, k: Key, p: Partial)
    requires Good(c) && Has(c.partials, k) && p.size == PartialOf(c, k).size && PartialOk(p)
    ensures Good(SetPartial(c, k, p))
  {
    SetPartialKeeps(c, k, p);
  }

  lemma EnsureGood(c: Cache, k: Key, total: int)
    requires Good(c) && ValidTotal(total)
    ensures var r := EnsurePartial(c, k, total);
            && Good(r.1) && Bounded(c, r.1) && r.1.limit == c.limit
            && (r.0 ==> PartialOf(r.1, k).size == total && PartialOk(PartialOf(r.1, k)))
            && (forall j :: Has(r.1.complete, j) ==> Has(c.complete, j))
  {
    EnsurePartialKeeps(c, k, total);
    hide EnsurePartial;
    var r := EnsurePartial(c, k, total);
    if !r.0 {
      ShrunkGood(c, r.1);
    } else if r.1 != c {
      var d :| Sound(d) && Shrunk(c, d) && !Has(d.partials, k) && r.1 == NewPartial(d, k, total);
      ShrunkGood(c, d);
    }
  }

  lemma BeginGood(c: Cache, k: Key, total: int)
    requires Good(c)
    ensures var r := Begin(c, k, total); Good(r.1) && Bounded(c, r.1)
  {
    if ValidTotal(total) && Has(c.complete, k) {
      PinGood(c, k, 1);
    } else if ValidTotal(total) {
      EnsureGood(c, k, total);
      hide EnsurePartial;
      var r := EnsurePartial(c, k, total);
      if r.0 {
        var p := PartialOf(r.1, k);
        SetPartialGood(r.1, k, p.(writers := p.writers + 1));
      }
    }
  }

  lemma WriterGone(c: Cache, k: Key)
    requires Good(c) && Has(c.partials, k)
    ensures var p := PartialOf(c, k);
            var c' := SetPartial(c, k, p.(writers := if p.writers > 0 then p.writers - 1 else 0));
            Good(c') && Usage(c') == Usage(c) && c'.limit == c.limit
  {
    var p := PartialOf(c, k);
    assert PartialOk(p);
    SetPartialGood(c, k, p.(writers := if p.writers > 0 then p.writers - 1 else 0));
  }

  lemma EndGood(c: Cache, k: Key)
    requires Good(c)
    ensures var c' := End(c, k); Good(c') && Bounded(c, c')
  {
    hide Good, Trim, Usage;
    if Has(c.partials, k) {
      WriterGone(c, k);
      var p := PartialOf(c, k);
      TrimGood(SetPartial(c, k, p.(writers := if p.writers > 0 then p.writers - 1 else 0)));
    } else {
      UnpinGood(c, k);
      UnpinBytes(c, k);
      TrimGood(Unpin(c, k));
    }
  }

  lemma RecordGood(c: Cache, k: Key, w: CacheModel.Write, total: int)
    requires Good(c)
    ensures var r := Record(c, k, w, total); Good(r.1) && Bounded(c, r.1)
  {
    if ValidTotal(total) && ValidBuffer(w) && !Has(c.complete, k) {
      EnsureGood(c, k, total);
      hide EnsurePartial, Promote;
      var r := EnsurePartial(c, k, total);
      var (start, n) := Landing(w, total);
      if r.0 && n > 0 {
        ReadyKeeps(r.1, k, w, total);
        var p := Extend(PartialOf(r.1, k), start, n);
        if p.covered < total {
          SetPartialGood(r.1, k, p);
        } else {
          PromoteKeeps(r.1, k, p);
        }
      }
    }
  }

  lemma RememberGood(c: Cache, k: Key, size: int)
    requires Good(c)
    ensures var r := CacheModel.Insert(c, k, size); Good(r.1) && Bounded(c, r.1)
  {
    if size > 0 {
      if Has(c.complete, k) {
        InsertPresent(c, k, size);
      } else {
        InsertAdds(c, k, size);
      }
    }
  }

  /** One operation of any kind keeps the counters equal to the stored sizes, keeps pins on complete entries,
      and leaves no more than max(limit, what was used before). */
  lemma StepGood(c: Cache, op: Op, heapSafe: int)
    requires Good(c)
    ensures Good(Step(c, op, heapSafe).1) && Bounded(c, Step(c, op, heapSafe).1)
  {
    hide Trim, Record, Begin, End, CacheModel.Insert, Touch, Unpin;
    match op
    case AcquireOp(k) =>
      TouchGood(c, k);
      if Has(c.complete, k) { PinGood(Touch(c, k), k, 1); }
    case ReleaseOp(k) =>
      UnpinGood(c, k);
      UnpinBytes(c, k);
      TrimGood(Unpin(c, k));
    case BeginOp(k, total) =>
      BeginGood(c, k, total);
    case EndOp(k) =>
      EndGood(c, k);
    case RecordOp(k, w, total) =>
      RecordGood(c, k, w, total);
    case PeekOp(k) =>
      TouchGood(c, k);
    case ResizeOp(bytes) =>
      var c1 := c.(limit := Min(Clamp(bytes, MIN_CACHE_BYTES, MAX_CACHE_BYTES), heapSafe));
      TrimGood(c1);
    case RememberOp(k, size) =>
      RememberGood(c, k, size);
  }

  lemma UnpinBytes(c: Cache, k: Key)
    ensures Usage(Unpin(c, k)) == Usage(c) && Unpin(c, k).limit == c.limit
  {
  }

  /** Every reachable state is accounted for exactly. */
  lemma {:induction false} RunGood(c: Cache, ops: seq<Op>, heapSafe: int)
    requires Good(c)
    ensures Good(Run(c, ops, heapSafe))
    decreases |ops|
  {
    if ops != [] {
      StepGood(c, ops[0], heapSafe);
      RunGood(Step(c, ops[0], heapSafe).1, ops[1..], heapSafe);
    }
  }

  lemma ReachableSound(limit: int, ops: seq<Op>, heapSafe: int)
    ensures Good(Run(Empty(limit), ops, heapSafe))
  {
    RunGood(Empty(limit), ops, heapSafe);
  }

  // ---- The invariant of the cache object, operation by operation ----

  ghost predicate Inv(c: Cache) {
    Good(c) && Disjoint(c)
  }

  lemma ShrunkInv(c: Cache, c': Cache)
    requires Inv(c) && Sound(c') && Shrunk(c, c')
    ensures Inv(c')
  {
    ShrunkGood(c, c');
  }

  lemma PinInv(c: Cache, k: Key)
    requires Inv(c) && Has(c.complete, k)
    ensures Inv(Pin(c, k))
  {
    PinGood(c, k, 1);
  }

  lemma UnpinInv(c: Cache, k: Key)
    requires Inv(c)
    ensures Inv(Unpin(c, k))
  {
    UnpinGood(c, k);
  }

  lemma TouchInv(c: Cache, k: Key)
    requires Inv(c)
    ensures Inv(Touch(c, k)) && (Has(Touch(c, k).complete, k) <==> Has(c.complete, k))
  {
    TouchGood(c, k);
    TouchKeeps(c, k);
  }

  lemma PinTouchInv(c: Cache, k: Key)
    requires Inv(c)
    ensures Has(c.complete, k) ==> Inv(Pin(Touch(c, k), k))
  {
    TouchInv(c, k);
    if Has(c.complete, k) { PinInv(Touch(c, k), k); }
  }

  lemma DropPartialInv(c: Cache, k: Key)
    requires Inv(c) && Has(c.partials, k)
    ensures Inv(DropPartial(c, k)) && !Has(DropPartial(c, k).partials, k)
    ensures DropPartial(c, k).complete == c.complete
  {
    DropPartialGood(c, k);
    DropPartialKeeps(c, k);
  }

  lemma NewPartialInv(c: Cache, k: Key, total: int)
    requires Inv(c) && !Has(c.partials, k) && !Has(c.complete, k) && ValidTotal(total)
    ensures Inv(NewPartial(c, k, total))
  {
    NewPartialKeeps(c, k, total);
    assert NewPartial(c, k, total).complete == c.complete && NewPartial(c, k, total).pins == c.pins;
    hide NewPartial;
  }

  lemma SetPartialInv(c: Cache, k: Key, p: Partial)
    requires Inv(c) && Has(c.partials, k) && p.size == PartialOf(c, k).size && PartialOk(p)
    ensures Inv(SetPartial(c, k, p))
  {
    SetPartialGood(c, k, p);
    SetPartialKeeps(c, k, p);
  }

  lemma TrimInv(c: Cache)
    requires Inv(c)
    ensures Inv(Trim(c))
  {
    TrimEnds(c);
    hide Trim;
    ShrunkInv(c, Trim(c));
  }

  lemma ResizeInv(c: Cache, bytes: int, heapSafe: int)
    requires Inv(c)
    ensures Inv(Resize(c, bytes, heapSafe))
  {
    TrimInv(c.(limit := Min(Clamp(bytes, MIN_CACHE_BYTES, MAX_CACHE_BYTES), heapSafe)));
  }

  lemma WritersInv(c: Cache, k: Key, writers: nat)
    requires Inv(c) && Has(c.partials, k)
    ensures Inv(SetPartial(c, k, PartialOf(c, k).(writers := writers)))
  {
    assert PartialOk(PartialOf(c, k));
    SetPartialInv(c, k, PartialOf(c, k).(writers := writers));
  }

  lemma EnsureInv(c: Cache, k: Key, total: int)
    requires Inv(c) && ValidTotal(total) && !Has(c.complete, k)
    ensures Inv(EnsurePartial(c, k, total).1) && !Has(EnsurePartial(c, k, total).1.complete, k)
    ensures EnsurePartial(c, k, total).0 ==> PartialOf(EnsurePartial(c, k, total).1, k).size == total
  {
    EnsurePartialKeeps(c, k, total);
    hide EnsurePartial;
    var r := EnsurePartial(c, k, total);
    if !r.0 {
      ShrunkInv(c, r.1);
    } else if r.1 != c {
      var d :| Sound(d) && Shrunk(c, d) && !Has(d.partials, k) && r.1 == NewPartial(d, k, total);
      ShrunkInv(c, d);
      NewPartialInv(d, k, total);
    }
  }

  lemma PromoteInv(c: Cache, k: Key, p: Partial)
    requires Inv(c) && Has(c.partials, k) && p.size == PartialOf(c, k).size > 0
    ensures Inv(Promote(SetPartial(c, k, p), k).1)
    ensures DropPartial(SetPartial(c, k, p), k) == DropPartial(c, k) && Inv(DropPartial(c, k))
  {
    PromoteUnfold(c, k, p);
    PromoteKeeps(c, k, p);
    DropPartialInv(c, k);
    DropPartialKeeps(c, k);
    var d, r := DropPartial(c, k), Promote(SetPartial(c, k, p), k);
    hide Promote, SetPartial, DropPartial, CacheModel.Insert, Good;
    if !r.0 {
      assert Disjoint(r.1);
    }
  }

  lemma ReceiveInv(c: Cache, k: Key, start: int, n: int)
    requires Inv(c) && Has(c.partials, k) && 0 <= start < start + n <= PartialOf(c, k).size
    ensures var p := Extend(PartialOf(c, k), start, n);
            && p.size == PartialOf(c, k).size > 0
            && (p.covered < p.size ==> Inv(SetPartial(c, k, p)))
            && (p.covered >= p.size ==> p.ranges == [Range(0, p.size)])
            && PartialOf(SetPartial(c, k, p), k) == p
  {
    var q := PartialOf(c, k);
    assert PartialOk(q);
    var ranges := MemoryRanges.Insert(q.ranges, start, start + n);
    InsertCorrect(q.ranges, start, start + n, q.size);
    CompleteIffWhole(ranges, q.size);
    var p := Extend(q, start, n);
    ReplaceEntry(c.partials, k, p);
    if p.covered < p.size {
      SetPartialInv(c, k, p);
    }
  }
}
