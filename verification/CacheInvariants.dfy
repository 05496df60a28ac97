/** What every operation of the RAM track cache keeps: the byte accounting, the peak, and the entries
    somebody still uses. */
module CacheInvariants {
  import opened Wrappers
  import opened MemoryRanges
  import opened CacheModel

  function Get<V>(m: seq<(Key, V)>, k: Key): V
    requires Has(m, k)
  {
    m[IndexOf(m, k)].1
  }

  /** An incomplete partial entry with a canonical range list and an exact counter. */
  predicate PartialOk(p: Partial) {
    ValidTotal(p.size) && Canonical(p.ranges, p.size) && p.covered == Total(p.ranges) < p.size
  }

  /** The accounting invariant. */
  predicate Sound(c: Cache) {
    && DistinctKeys(c.complete) && DistinctKeys(c.partials)
    && c.memoryBytes == Sum(c.complete)
    && c.partialBytes == Sum(Sizes(c.partials))
    && (forall i :: 0 <= i < |c.complete| ==> c.complete[i].1 > 0)
    && (forall k :: k in c.pins ==> c.pins[k] > 0)
    && (forall i :: 0 <= i < |c.partials| ==> PartialOk(c.partials[i].1))
  }

  /** Only complete entries are pinned. */
  predicate PinsHeld(c: Cache) {
    forall k :: k in c.pins ==> Has(c.complete, k)
  }

  predicate Good(c: Cache) {
    Sound(c) && PinsHeld(c)
  }

  lemma GoodIsSound(c: Cache)
    requires Good(c)
    ensures Sound(c) && PinsHeld(c)
  {
  }

  /** No key is complete and partial at once. Only rememberMemoryTrack can break it. */
  ghost predicate Disjoint(c: Cache) {
    forall k :: Has(c.complete, k) ==> !Has(c.partials, k)
  }

  /** c' is c with entries nobody uses removed. */
  ghost predicate Shrunk(c: Cache, c': Cache) {
    && c'.limit == c.limit && c'.pins == c.pins
    && Usage(c') <= Usage(c)
    && (forall k :: Has(c'.complete, k) ==> Has(c.complete, k) && Get(c'.complete, k) == Get(c.complete, k))
    && (forall k :: Has(c'.partials, k) ==> Has(c.partials, k) && Get(c'.partials, k) == Get(c.partials, k))
    && (forall k :: Has(c.complete, k) && Pins(c, k) > 0 ==> Has(c'.complete, k))
    && (forall k :: Has(c.partials, k) && Writers(c, k) > 0 ==> Has(c'.partials, k))
  }

  /** Everything left is pinned or being written. */
  predicate Blocked(c: Cache) {
    && (forall i :: 0 <= i < |c.complete| ==> Pins(c, c.complete[i].0) > 0)
    && (forall i :: 0 <= i < |c.partials| ==> c.partials[i].1.writers > 0)
  }

  // ---- Sums and ordered maps ----

  lemma {:induction false} SumSplit(a: seq<(Key, int)>, b: seq<(Key, int)>)
    ensures Sum(a + b) == Sum(a) + Sum(b)
  {
    if a == [] {
      assert a + b == b;
    } else {
      SumSplit(a[1..], b);
      assert (a + b)[1..] == a[1..] + b;
    }
  }

  lemma SumRemove(m: seq<(Key, int)>, i: nat)
    requires i < |m|
    ensures Sum(RemoveAt(m, i)) == Sum(m) - m[i].1
  {
    SumSplit(m[..i], m[i + 1..]);
    SumSplit(m[..i], m[i..]);
    assert m[..i] + m[i..] == m;
    assert m[i..][1..] == m[i + 1..];
  }

  lemma SumAppend(m: seq<(Key, int)>, k: Key, v: int)
    ensures Sum(m + [(k, v)]) == Sum(m) + v
  {
    SumSplit(m, [(k, v)]);
    assert Sum([(k, v)]) == v + Sum([]);
  }

  lemma SizesRemove(m: seq<(Key, Partial)>, i: nat)
    requires i < |m|
    ensures Sizes(RemoveAt(m, i)) == RemoveAt(Sizes(m), i)
  {
  }

  lemma {:induction false} SumNonNegative(m: seq<(Key, int)>)
    requires forall i :: 0 <= i < |m| ==> m[i].1 > 0
    ensures Sum(m) >= 0
  {
    if m != [] { SumNonNegative(m[1..]); }
  }

  lemma RemoveAtEntries<V>(m: seq<(Key, V)>, i: nat)
    requires i < |m| && DistinctKeys(m)
    ensures DistinctKeys(RemoveAt(m, i))
    ensures !Has(RemoveAt(m, i), m[i].0)
    ensures forall k :: k != m[i].0 ==> (Has(RemoveAt(m, i), k) <==> Has(m, k))
    ensures forall k :: Has(RemoveAt(m, i), k) ==> Get(RemoveAt(m, i), k) == Get(m, k)
  {
    var r := RemoveAt(m, i);
    forall j | 0 <= j < |r| ensures r[j] == m[if j < i then j else j + 1] {}
    forall k | k != m[i].0 && Has(m, k) ensures Has(r, k) {
      var j := IndexOf(m, k);
      assert r[if j < i then j else j - 1] == m[j];
    }
  }

  lemma AppendEntry<V>(m: seq<(Key, V)>, k: Key, v: V)
    requires DistinctKeys(m) && !Has(m, k)
    ensures DistinctKeys(m + [(k, v)])
    ensures Has(m + [(k, v)], k) && Get(m + [(k, v)], k) == v
    ensures forall j :: j != k ==> (Has(m + [(k, v)], j) <==> Has(m, j))
    ensures forall j :: Has(m, j) ==> Get(m + [(k, v)], j) == Get(m, j)
  {
    var r := m + [(k, v)];
    assert r[|m|] == (k, v);
    forall j | 0 <= j < |m| ensures r[j] == m[j] && m[j].0 != k {}
    forall j | Has(m, j) ensures Has(r, j) && IndexOf(r, j) == IndexOf(m, j) {
      assert r[IndexOf(m, j)].0 == j;
    }
  }

  lemma ReplaceEntry<V>(m: seq<(Key, V)>, k: Key, v: V)
    requires DistinctKeys(m) && Has(m, k)
    ensures var r := m[IndexOf(m, k) := (k, v)];
            && DistinctKeys(r) && Has(r, k) && IndexOf(r, k) == IndexOf(m, k) && Get(r, k) == v
            && (forall j :: Has(r, j) <==> Has(m, j))
            && (forall j :: Has(m, j) && j != k ==> Get(r, j) == Get(m, j))
  {
    var i := IndexOf(m, k);
    var r := m[i := (k, v)];
    assert r[i] == (k, v);
    forall j | 0 <= j < |m| ensures r[j].0 == m[j].0 {}
    forall j | Has(m, j) ensures Has(r, j) && IndexOf(r, j) == IndexOf(m, j) {
      assert r[IndexOf(m, j)].0 == j;
    }
    forall j | Has(r, j) ensures Has(m, j) {
      assert m[IndexOf(r, j)].0 == j;
    }
  }

  // ---- Eviction ----

  lemma EvictCompleteKeeps(c: Cache)
    requires Sound(c) && CanEvictComplete(c)
    ensures Sound(EvictComplete(c)) && Shrunk(c, EvictComplete(c)) && Usage(EvictComplete(c)) < Usage(c)
    ensures EvictComplete(c).partials == c.partials
  {
    hide IndexOf, FirstUnpinned, Sum;
    var i := FirstUnpinned(c.complete, c.pins);
    SumRemove(c.complete, i);
    RemoveAtEntries(c.complete, i);
    assert c.complete[i].0 !in c.pins;
    assert c.pins - {c.complete[i].0} == c.pins;
  }

  lemma EvictPartialKeeps(c: Cache)
    requires Sound(c) && CanEvictPartial(c)
    ensures Sound(EvictPartial(c)) && Shrunk(c, EvictPartial(c)) && Usage(EvictPartial(c)) < Usage(c)
    ensures EvictPartial(c).complete == c.complete
  {
    hide IndexOf, FirstIdle, Sum;
    var i := FirstIdle(c.partials);
    SizesRemove(c.partials, i);
    SumRemove(Sizes(c.partials), i);
    RemoveAtEntries(c.partials, i);
    assert IndexOf(c.partials, c.partials[i].0) == i;
  }

  lemma ShrunkTransitive(a: Cache, b: Cache, c: Cache)
    requires Shrunk(a, b) && Shrunk(b, c)
    ensures Shrunk(a, c)
  {
  }

  lemma {:induction false} FreeCompleteKeeps(c: Cache, need: int)
    requires Sound(c)
    ensures var r := FreeComplete(c, need);
            && Sound(r.1) && Shrunk(c, r.1) && r.1.partials == c.partials
            && (r.0 ==> Usage(r.1) + need <= c.limit)
            && (!r.0 ==> Usage(r.1) + need > c.limit && !CanEvictComplete(r.1))
    decreases |c.complete|
  {
    if Usage(c) + need > c.limit && CanEvictComplete(c) {
      EvictCompleteKeeps(c);
      FreeCompleteKeeps(EvictComplete(c), need);
      ShrunkTransitive(c, EvictComplete(c), FreeComplete(c, need).1);
    }
  }

  lemma {:induction false} FreeAnyKeeps(c: Cache, need: int)
    requires Sound(c)
    ensures var r := FreeAny(c, need);
            && Sound(r.1) && Shrunk(c, r.1)
            && (r.0 ==> Usage(r.1) + need <= c.limit)
            && (!r.0 ==> Usage(r.1) + need > c.limit && Blocked(r.1))
    decreases |c.complete| + |c.partials|
  {
    if Usage(c) + need > c.limit {
      if CanEvictComplete(c) {
        EvictCompleteKeeps(c);
        FreeAnyKeeps(EvictComplete(c), need);
        ShrunkTransitive(c, EvictComplete(c), FreeAny(c, need).1);
      } else if CanEvictPartial(c) {
        EvictPartialKeeps(c);
        FreeAnyKeeps(EvictPartial(c), need);
        ShrunkTransitive(c, EvictPartial(c), FreeAny(c, need).1);
      }
    }
  }

  /** Every trim ends within the limit or with everything left in use. */
  lemma TrimEnds(c: Cache)
    requires Sound(c)
    ensures Sound(Trim(c)) && Shrunk(c, Trim(c))
    ensures Usage(Trim(c)) <= c.limit || Blocked(Trim(c))
  {
    FreeAnyKeeps(c, 0);
  }

  // ---- Single operations on the entries ----

  lemma UnpinKeeps(c: Cache, k: Key)
    requires Sound(c)
    ensures Sound(Unpin(c, k))
    ensures forall j :: Pins(Unpin(c, k), j) == if j == k && Pins(c, k) > 0 then Pins(c, k) - 1 else Pins(c, j)
  {
  }

  /** Two orders of the same entries. */
  ghost predicate SameEntries<V(!new)>(a: seq<(Key, V)>, b: seq<(Key, V)>) {
    forall k :: (Has(a, k) <==> Has(b, k)) && (Has(a, k) ==> Get(a, k) == Get(b, k))
  }

  lemma TouchKeeps(c: Cache, k: Key)
    requires Sound(c)
    ensures Sound(Touch(c, k)) && SameEntries(c.complete, Touch(c, k).complete)
    ensures Touch(c, k).(complete := []) == c.(complete := [])
  {
    var i := IndexOf(c.complete, k);
    if i < |c.complete| {
      RemoveAtEntries(c.complete, i);
      SumRemove(c.complete, i);
      SumAppend(RemoveAt(c.complete, i), k, c.complete[i].1);
      AppendEntry(RemoveAt(c.complete, i), k, c.complete[i].1);
    }
  }

  lemma DropPartialKeeps(c: Cache, k: Key)
    requires Sound(c) && Has(c.partials, k)
    ensures Sound(DropPartial(c, k)) && !Has(DropPartial(c, k).partials, k)
    ensures forall j :: j != k ==> (Has(DropPartial(c, k).partials, j) <==> Has(c.partials, j))
    ensures forall j :: Has(DropPartial(c, k).partials, j) ==> Get(DropPartial(c, k).partials, j) == Get(c.partials, j)
    ensures Usage(DropPartial(c, k)) == Usage(c) - PartialOf(c, k).size < Usage(c)
    ensures PartialOf(c, k).writers == 0 ==> Shrunk(c, DropPartial(c, k))
  {
    var i := IndexOf(c.partials, k);
    SizesRemove(c.partials, i);
    SumRemove(Sizes(c.partials), i);
    RemoveAtEntries(c.partials, i);
  }

  lemma NewPartialKeeps(c: Cache, k: Key, total: int)
    requires Sound(c) && !Has(c.partials, k) && ValidTotal(total)
    ensures Sound(NewPartial(c, k, total)) && Has(NewPartial(c, k, total).partials, k)
    ensures PartialOf(NewPartial(c, k, total), k) == Partial(total, [], 0, 0)
    ensures forall j :: j != k ==> (Has(NewPartial(c, k, total).partials, j) <==> Has(c.partials, j))
    ensures forall j :: Has(c.partials, j) ==> Get(NewPartial(c, k, total).partials, j) == Get(c.partials, j)
  {
    var p := Partial(total, [], 0, 0);
    AppendEntry(c.partials, k, p);
    SumAppend(Sizes(c.partials), k, total);
    assert Sizes(c.partials + [(k, p)]) == Sizes(c.partials) + [(k, total)];
  }

  lemma SetPartialKeeps(c: Cache, k: Key, p: Partial)
    requires Sound(c) && Has(c.partials, k) && p.size == PartialOf(c, k).size && PartialOk(p)
    ensures Sound(SetPartial(c, k, p)) && PartialOf(SetPartial(c, k, p), k) == p
    ensures forall j :: Has(SetPartial(c, k, p).partials, j) <==> Has(c.partials, j)
    ensures forall j :: Has(c.partials, j) && j != k ==> Get(SetPartial(c, k, p).partials, j) == Get(c.partials, j)
  {
    ReplaceEntry(c.partials, k, p);
    assert Sizes(SetPartial(c, k, p).partials) == Sizes(c.partials);
  }

  lemma AddCompleteKeeps(c: Cache, k: Key, size: int)
    requires Sound(c) && !Has(c.complete, k) && size > 0
    ensures Sound(AddComplete(c, k, size)) && Has(AddComplete(c, k, size).complete, k)
    ensures forall j :: j != k ==> (Has(AddComplete(c, k, size).complete, j) <==> Has(c.complete, j))
  {
    AppendEntry(c.complete, k, size);
    SumAppend(c.complete, k, size);
  }

  /** ensurePartialMemoryTrackLocked either finds the entry, or frees room and appends an empty one, or fails. */
  lemma EnsurePartialKeeps(c: Cache, k: Key, total: int)
    requires Sound(c) && ValidTotal(total)
    ensures var r := EnsurePartial(c, k, total);
            && Sound(r.1) && Usage(r.1) <= Max(c.limit, Usage(c)) && r.1.limit == c.limit
            && (!r.0 ==> Shrunk(c, r.1))
            && (r.0 ==> PartialOf(r.1, k).size == total)
            && (r.0 && r.1 != c ==>
                  exists d :: Sound(d) && Shrunk(c, d) && !Has(d.partials, k) && r.1 == NewPartial(d, k, total)
                              && Usage(r.1) <= c.limit)
  {
    hide IndexOf, Sound, FreeAny;
    var i := IndexOf(c.partials, k);
    var found := i < |c.partials|;
    if found && (c.partials[i].1.size == total || c.partials[i].1.writers > 0) {
    } else {
      if found { DropPartialKeeps(c, k); }
      var c1 := if found then DropPartial(c, k) else c;
      assert Shrunk(c, c1);
      assert !Has(c1.partials, k);
      FreeAnyKeeps(c1, total);
      var d := Reserve(c1, total).1;
      ShrunkTransitive(c, c1, d);
      assert !Has(d.partials, k);
      NewPartialKeeps(d, k, total);
    }
  }

  lemma ReadyKeeps(c: Cache, k: Key, w: CacheModel.Write, total: int)
    requires Sound(c) && Has(c.partials, k) && PartialOf(c, k).size == total && ValidBuffer(w)
    requires Landing(w, total).1 > 0
    ensures var (start, n) := Landing(w, total);
            && 0 <= start < start + n <= total
            && var p := Extend(PartialOf(c, k), start, n);
            && p.size == total && Canonical(p.ranges, total) && p.covered == Total(p.ranges) <= total
            && (p.covered < total ==> PartialOk(p))
            && (p.covered >= total <==> p.ranges == [Range(0, total)])
  {
    var (start, n) := Landing(w, total);
    InsertCorrect(PartialOf(c, k).ranges, start, start + n, total);
    CompleteIffWhole(MemoryRanges.Insert(PartialOf(c, k).ranges, start, start + n), total);
  }

  // ---- When freeing room succeeds ----

  /** Bytes of the complete entries somebody pins. */
  function PinnedBytes(m: seq<(Key, int)>, pins: map<Key, nat>): int {
    if m == [] then 0
    else (if m[0].0 in pins && pins[m[0].0] > 0 then m[0].1 else 0) + PinnedBytes(m[1..], pins)
  }

  /** Bytes of the partial entries somebody writes. */
  function ActiveBytes(m: seq<(Key, Partial)>): int {
    if m == [] then 0 else (if m[0].1.writers > 0 then m[0].1.size else 0) + ActiveBytes(m[1..])
  }

  /** What no eviction can free. */
  function InUse(c: Cache): int {
    PinnedBytes(c.complete, c.pins) + ActiveBytes(c.partials)
  }

  lemma {:induction false} PinnedBytesRemove(m: seq<(Key, int)>, pins: map<Key, nat>, i: nat)
    requires i < |m| && (m[i].0 !in pins || pins[m[i].0] == 0)
    ensures PinnedBytes(RemoveAt(m, i), pins) == PinnedBytes(m, pins)
  {
    if i > 0 {
      PinnedBytesRemove(m[1..], pins, i - 1);
      assert RemoveAt(m, i)[1..] == RemoveAt(m[1..], i - 1);
    } else {
      assert RemoveAt(m, i) == m[1..];
    }
  }

  lemma {:induction false} PinnedBytesBound(m: seq<(Key, int)>, pins: map<Key, nat>)
    requires forall i :: 0 <= i < |m| ==> m[i].1 > 0
    ensures 0 <= PinnedBytes(m, pins) <= Sum(m)
    ensures PinnedBytes(m, pins) == Sum(m) <==> forall i :: 0 <= i < |m| ==> m[i].0 in pins && pins[m[i].0] > 0
  {
    if m != [] {
      PinnedBytesBound(m[1..], pins);
      assert m == [m[0]] + m[1..];
    }
  }

  lemma {:induction false} ActiveBytesRemove(m: seq<(Key, Partial)>, i: nat)
    requires i < |m| && m[i].1.writers == 0
    ensures ActiveBytes(RemoveAt(m, i)) == ActiveBytes(m)
  {
    if i > 0 {
      ActiveBytesRemove(m[1..], i - 1);
      assert RemoveAt(m, i)[1..] == RemoveAt(m[1..], i - 1);
    } else {
      assert RemoveAt(m, i) == m[1..];
    }
  }

  lemma {:induction false} ActiveBytesBound(m: seq<(Key, Partial)>)
    requires forall i :: 0 <= i < |m| ==> m[i].1.size > 0
    ensures 0 <= ActiveBytes(m) <= Sum(Sizes(m))
    ensures ActiveBytes(m) == Sum(Sizes(m)) <==> forall i :: 0 <= i < |m| ==> m[i].1.writers > 0
  {
    if m != [] {
      ActiveBytesBound(m[1..]);
      assert m == [m[0]] + m[1..];
      assert Sizes(m)[1..] == Sizes(m[1..]);
    }
  }

  /** The complete-only eviction of an insertion makes room exactly when pinned and partial bytes leave it. */
  lemma {:induction false} FreeCompleteIff(c: Cache, need: int)
    requires Sound(c)
    ensures FreeComplete(c, need).0 <==> PinnedBytes(c.complete, c.pins) + c.partialBytes + need <= c.limit
    decreases |c.complete|
  {
    PinnedBytesBound(c.complete, c.pins);
    if Usage(c) + need > c.limit && CanEvictComplete(c) {
      EvictCompleteKeeps(c);
      FreeCompleteIff(EvictComplete(c), need);
      PinnedBytesRemove(c.complete, c.pins, FirstUnpinned(c.complete, c.pins));
    }
  }

  /** The general eviction makes room exactly when the entries in use leave it. */
  lemma {:induction false} FreeAnyIff(c: Cache, need: int)
    requires Sound(c)
    ensures FreeAny(c, need).0 <==> InUse(c) + need <= c.limit
    decreases |c.complete| + |c.partials|
  {
    PinnedBytesBound(c.complete, c.pins);
    ActiveBytesBound(c.partials);
    if Usage(c) + need > c.limit {
      if CanEvictComplete(c) {
        EvictCompleteKeeps(c);
        FreeAnyIff(EvictComplete(c), need);
        PinnedBytesRemove(c.complete, c.pins, FirstUnpinned(c.complete, c.pins));
      } else if CanEvictPartial(c) {
        EvictPartialKeeps(c);
        FreeAnyIff(EvictPartial(c), need);
        ActiveBytesRemove(c.partials, FirstIdle(c.partials));
      }
    }
  }

  // ---- Insertion and promotion ----

  lemma InsertAbsent(c: Cache, k: Key, size: int)
    requires Sound(c) && !Has(c.complete, k) && size > 0
    ensures var r := CacheModel.Insert(c, k, size);
            && (r.0 <==> size <= c.limit && PinnedBytes(c.complete, c.pins) + c.partialBytes + size <= c.limit)
            && Sound(r.1) && r.1.limit == c.limit && r.1.partials == c.partials
            && (!r.0 ==> Shrunk(c, r.1))
            && (r.0 ==> Usage(r.1) <= c.limit
                        && exists d :: Sound(d) && Shrunk(c, d) && d.partials == c.partials &&
                             r.1 == AddComplete(d, k, size))
            && (r.0 && Usage(c) + size <= c.limit ==> r.1 == AddComplete(c, k, size))
  {
    if size <= c.limit {
      FreeCompleteKeeps(c, size);
      FreeCompleteIff(c, size);
      var d := FreeComplete(c, size).1;
      assert !Has(d.complete, k);
      AddCompleteKeeps(d, k, size);
    }
  }

  /** Replacing a stored entry (rememberMemoryTrack): it survives, new or old, at the young end. */
  lemma InsertPresent(c: Cache, k: Key, size: int)
    requires Sound(c) && PinsHeld(c) && Has(c.complete, k) && size > 0
    ensures var r := CacheModel.Insert(c, k, size);
            && Sound(r.1) && PinsHeld(r.1) && r.1.limit == c.limit && r.1.partials == c.partials && Has(r.1.complete, k)
            && Usage(r.1) <= Max(c.limit, Usage(c))
  {
    hide IndexOf, Sum, FreeComplete;
    if size <= c.limit {
      var i := IndexOf(c.complete, k);
      var was := c.complete[i].1;
      var c1 := c.(complete := RemoveAt(c.complete, i), memoryBytes := c.memoryBytes - was);
      RemoveCompleteKeeps(c, i);
      FreeCompleteKeeps(c1, size);
      var d := FreeComplete(c1, size).1;
      AddCompleteKeeps(d, k, size);
      AddCompleteKeeps(d, k, was);
      PinsHeldThrough(c, c1, d, k, size);
      PinsHeldThrough(c, c1, d, k, was);
    }
  }

  lemma RemoveCompleteKeeps(c: Cache, i: nat)
    requires Sound(c) && i < |c.complete|
    ensures var c1 := c.(complete := RemoveAt(c.complete, i), memoryBytes := c.memoryBytes - c.complete[i].1);
            && Sound(c1) && !Has(c1.complete, c.complete[i].0)
            && (forall j :: j != c.complete[i].0 ==> (Has(c1.complete, j) <==> Has(c.complete, j)))
  {
    SumRemove(c.complete, i);
    RemoveAtEntries(c.complete, i);
  }

  lemma PinsHeldThrough(c: Cache, c1: Cache, d: Cache, k: Key, size: int)
    requires PinsHeld(c) && c1.pins == c.pins && Shrunk(c1, d) && !Has(c1.complete, k)
    requires forall j :: j != k ==> (Has(c1.complete, j) <==> Has(c.complete, j))
    requires Sound(d) && size > 0
    ensures PinsHeld(AddComplete(d, k, size))
  {
    AddCompleteKeeps(d, k, size);
    forall j | j in d.pins ensures Has(AddComplete(d, k, size).complete, j) {
      if j != k { assert Pins(c1, j) > 0; }
    }
  }

  // ---- Eviction order ----

  function Unpinned(m: seq<(Key, int)>, pins: map<Key, nat>): seq<(Key, int)> {
    if m == [] then []
    else (if m[0].0 in pins && pins[m[0].0] > 0 then [] else [m[0]]) + Unpinned(m[1..], pins)
  }

  function Idle(m: seq<(Key, Partial)>): seq<(Key, Partial)> {
    if m == [] then [] else (if m[0].1.writers > 0 then [] else [m[0]]) + Idle(m[1..])
  }

  lemma RemoveAtRest<T>(s: seq<T>, i: nat)
    requires i < |s|
    ensures i == 0 ==> RemoveAt(s, i) == s[1..]
    ensures i > 0 ==> RemoveAt(s, i) == [s[0]] + RemoveAt(s[1..], i - 1)
  {
  }

  lemma FirstUnpinnedStep(m: seq<(Key, int)>, pins: map<Key, nat>)
    requires m != []
    ensures if m[0].0 in pins && pins[m[0].0] > 0
            then FirstUnpinned(m, pins) == 1 + FirstUnpinned(m[1..], pins) &&
              Unpinned(m, pins) == Unpinned(m[1..], pins)
            else FirstUnpinned(m, pins) == 0 && Unpinned(m, pins) == [m[0]] + Unpinned(m[1..], pins)
  {
  }

  lemma FirstIdleStep(m: seq<(Key, Partial)>)
    requires m != []
    ensures if m[0].1.writers > 0 then FirstIdle(m) == 1 + FirstIdle(m[1..]) && Idle(m) == Idle(m[1..])
            else FirstIdle(m) == 0 && Idle(m) == [m[0]] + Idle(m[1..])
  {
  }

  lemma UnpinnedFirst(e: (Key, int), m: seq<(Key, int)>, pins: map<Key, nat>)
    ensures Unpinned([e] + m, pins) == (if e.0 in pins && pins[e.0] > 0 then [] else [e]) + Unpinned(m, pins)
  {
    assert ([e] + m)[1..] == m;
  }

  lemma IdleFirst(e: (Key, Partial), m: seq<(Key, Partial)>)
    ensures Idle([e] + m) == (if e.1.writers > 0 then [] else [e]) + Idle(m)
  {
    assert ([e] + m)[1..] == m;
  }

  lemma {:induction false} UnpinnedRemove(m: seq<(Key, int)>, pins: map<Key, nat>)
    requires FirstUnpinned(m, pins) < |m|
    ensures var i := FirstUnpinned(m, pins);
            Unpinned(m, pins) == [m[i]] + Unpinned(RemoveAt(m, i), pins)
  {
    hide *;
    var i := FirstUnpinned(m, pins);
    FirstUnpinnedStep(m, pins);
    RemoveAtRest(m, i);
    if i > 0 {
      UnpinnedRemove(m[1..], pins);
      UnpinnedFirst(m[0], RemoveAt(m[1..], i - 1), pins);
    }
  }

  lemma {:induction false} UnpinnedNone(m: seq<(Key, int)>, pins: map<Key, nat>)
    ensures Unpinned(m, pins) == [] <==> FirstUnpinned(m, pins) == |m|
  {
    if m != [] { UnpinnedNone(m[1..], pins); }
  }

  lemma {:induction false} IdleRemove(m: seq<(Key, Partial)>)
    requires FirstIdle(m) < |m|
    ensures Idle(m) == [m[FirstIdle(m)]] + Idle(RemoveAt(m, FirstIdle(m)))
  {
    hide *;
    var i := FirstIdle(m);
    FirstIdleStep(m);
    RemoveAtRest(m, i);
    if i > 0 {
      IdleRemove(m[1..]);
      IdleFirst(m[0], RemoveAt(m[1..], i - 1));
    }
  }

  /** The entries without the n eldest that nobody pins; the others keep their order. */
  function DropUnpinned(m: seq<(Key, int)>, pins: map<Key, nat>, n: nat): seq<(Key, int)> {
    if m == [] || n == 0 then m
    else if m[0].0 in pins && pins[m[0].0] > 0 then [m[0]] + DropUnpinned(m[1..], pins, n)
    else DropUnpinned(m[1..], pins, n - 1)
  }

  /** The entries without the n eldest that nobody writes. */
  function DropIdle(m: seq<(Key, Partial)>, n: nat): seq<(Key, Partial)> {
    if m == [] || n == 0 then m
    else if m[0].1.writers > 0 then [m[0]] + DropIdle(m[1..], n)
    else DropIdle(m[1..], n - 1)
  }

  lemma DropUnpinnedFirst(e: (Key, int), m: seq<(Key, int)>, pins: map<Key, nat>, n: nat)
    ensures DropUnpinned([e] + m, pins, n)
            == if n == 0 then [e] + m
               else if e.0 in pins && pins[e.0] > 0 then [e] + DropUnpinned(m, pins, n)
               else DropUnpinned(m, pins, n - 1)
  {
    assert ([e] + m)[1..] == m;
  }

  lemma DropUnpinnedNone(m: seq<(Key, int)>, pins: map<Key, nat>)
    ensures DropUnpinned(m, pins, 0) == m
  {
  }

  lemma DropIdleFirst(e: (Key, Partial), m: seq<(Key, Partial)>, n: nat)
    ensures DropIdle([e] + m, n)
            == if n == 0 then [e] + m else if e.1.writers > 0 then [e] + DropIdle(m, n) else DropIdle(m, n - 1)
  {
    assert ([e] + m)[1..] == m;
  }

  lemma DropIdleNone(m: seq<(Key, Partial)>)
    ensures DropIdle(m, 0) == m
  {
  }

  lemma {:induction false} DropUnpinnedMore(m: seq<(Key, int)>, pins: map<Key, nat>, n: nat)
    requires FirstUnpinned(m, pins) < |m|
    ensures DropUnpinned(RemoveAt(m, FirstUnpinned(m, pins)), pins, n) == DropUnpinned(m, pins, n + 1)
  {
    hide *;
    var i := FirstUnpinned(m, pins);
    FirstUnpinnedStep(m, pins);
    RemoveAtRest(m, i);
    assert m == [m[0]] + m[1..];
    DropUnpinnedFirst(m[0], m[1..], pins, n + 1);
    if i > 0 {
      DropUnpinnedMore(m[1..], pins, n);
      DropUnpinnedFirst(m[0], RemoveAt(m[1..], i - 1), pins, n);
      DropUnpinnedNone(RemoveAt(m[1..], i - 1), pins);
    }
  }

  lemma {:induction false} DropIdleMore(m: seq<(Key, Partial)>, n: nat)
    requires FirstIdle(m) < |m|
    ensures DropIdle(RemoveAt(m, FirstIdle(m)), n) == DropIdle(m, n + 1)
  {
    hide *;
    var i := FirstIdle(m);
    FirstIdleStep(m);
    RemoveAtRest(m, i);
    assert m == [m[0]] + m[1..];
    DropIdleFirst(m[0], m[1..], n + 1);
    if i > 0 {
      DropIdleMore(m[1..], n);
      DropIdleFirst(m[0], RemoveAt(m[1..], i - 1), n);
      DropIdleNone(RemoveAt(m[1..], i - 1));
    }
  }

  /** c' is c without its n eldest unpinned complete entries and its m eldest idle partial ones: partial ones
      only when no unpinned complete entry is left, and without the last dropped entry the room was missing. */
  ghost predicate EldestDropped(c: Cache, c': Cache, need: int, n: nat, m: nat) {
    var u, d := Unpinned(c.complete, c.pins), Idle(c.partials);
    && n <= |u| && m <= |d|
    && c'.complete == DropUnpinned(c.complete, c.pins, n) && Unpinned(c'.complete, c'.pins) == u[n..]
    && c'.partials == DropIdle(c.partials, m) && Idle(c'.partials) == d[m..]
    && c'.pins == c.pins && c'.limit == c.limit
    && (n == 0 && m == 0 ==> c' == c)
    && (m > 0 ==> n == |u|)
    && (n > 0 && m == 0 ==> Usage(c') + u[n - 1].1 + need > c.limit)
    && (m > 0 ==> Usage(c') + d[m - 1].1.size + need > c.limit)
  }

  lemma EvictedComplete(c: Cache)
    requires CanEvictComplete(c)
    ensures var c1 := EvictComplete(c);
            var e := c.complete[FirstUnpinned(c.complete, c.pins)];
            && Unpinned(c.complete, c.pins) == [e] + Unpinned(c1.complete, c.pins)
            && c1.partials == c.partials && c1.limit == c.limit && Usage(c1) == Usage(c) - e.1
            && c1.complete == RemoveAt(c.complete, FirstUnpinned(c.complete, c.pins))
  {
    hide RemoveAt, Unpinned, FirstUnpinned;
    UnpinnedRemove(c.complete, c.pins);
  }

  lemma EvictedPartial(c: Cache)
    requires CanEvictPartial(c)
    ensures var c1 := EvictPartial(c);
            var e := c.partials[FirstIdle(c.partials)];
            && Idle(c.partials) == [e] + Idle(c1.partials)
            && c1.complete == c.complete && c1.pins == c.pins && c1.limit == c.limit && Usage(c1) == Usage(c) - e.1.size
            && c1.partials == RemoveAt(c.partials, FirstIdle(c.partials))
  {
    hide RemoveAt, Idle, FirstIdle;
    IdleRemove(c.partials);
  }

  lemma DropOneComplete(c: Cache, c': Cache, need: int, n: nat, m: nat)
    requires Sound(c) && CanEvictComplete(c) && Usage(c) + need > c.limit
    requires EldestDropped(EvictComplete(c), c', need, n, m)
    ensures EldestDropped(c, c', need, n + 1, m)
  {
    hide Sound, Unpinned, Idle, FirstUnpinned, RemoveAt, EvictComplete, Usage, DropUnpinned, DropIdle;
    EvictedComplete(c);
    EvictCompleteKeeps(c);
    DropUnpinnedMore(c.complete, c.pins, n);
  }

  lemma DropOnePartial(c: Cache, c': Cache, need: int, n: nat, m: nat)
    requires Sound(c) && !CanEvictComplete(c) && CanEvictPartial(c) && Usage(c) + need > c.limit
    requires EldestDropped(EvictPartial(c), c', need, n, m)
    ensures EldestDropped(c, c', need, n, m + 1)
  {
    hide Sound, Unpinned, Idle, FirstIdle, RemoveAt, EvictPartial, Usage, DropUnpinned, DropIdle;
    EvictedPartial(c);
    UnpinnedNone(c.complete, c.pins);
    DropIdleMore(c.partials, m);
  }

  lemma NothingDropped(c: Cache, need: int)
    ensures EldestDropped(c, c, need, 0, 0)
  {
  }

  lemma FreeAnyStep(c: Cache, need: int)
    ensures FreeAny(c, need)
            == if Usage(c) + need <= c.limit then (true, c)
               else if CanEvictComplete(c) then FreeAny(EvictComplete(c), need)
               else if CanEvictPartial(c) then FreeAny(EvictPartial(c), need)
               else (false, c)
    ensures CanEvictComplete(c) ==>
              |EvictComplete(c).complete| < |c.complete| && EvictComplete(c).partials == c.partials
    ensures CanEvictPartial(c) ==> |EvictPartial(c).partials| < |c.partials| && EvictPartial(c).complete == c.complete
  {
  }

  /** Freeing room drops the eldest entries nobody uses, complete ones first, and no more than it must. */
  lemma {:induction false} FreeAnyOrder(c: Cache, need: int) returns (n: nat, m: nat)
    requires Sound(c)
    ensures EldestDropped(c, FreeAny(c, need).1, need, n, m)
    decreases |c.complete| + |c.partials|
  {
    hide *;
    n, m := 0, 0;
    FreeAnyStep(c, need);
    if Usage(c) + need > c.limit {
      if CanEvictComplete(c) {
        EvictCompleteKeeps(c);
        n, m := FreeAnyOrder(EvictComplete(c), need);
        DropOneComplete(c, FreeAny(c, need).1, need, n, m);
        n := n + 1;
      } else if CanEvictPartial(c) {
        EvictPartialKeeps(c);
        n, m := FreeAnyOrder(EvictPartial(c), need);
        DropOnePartial(c, FreeAny(c, need).1, need, n, m);
        m := m + 1;
      } else {
        NothingDropped(c, need);
      }
    } else {
      NothingDropped(c, need);
    }
  }
}
