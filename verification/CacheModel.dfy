/** The RAM track cache as a value: what every locked operation of NativeAudioCache.kt does to the
    accounting, the pins and the partial tracks. Byte contents are the business of AudioCache. */
module CacheModel {
  // Both track maps of the source keep an order (access order for complete tracks, insertion order for
  // partial ones), so they are sequences of entries here, the eldest first.

  import opened Wrappers

  import opened MemoryRanges

  type Key = string

  datatype Partial = Partial(size: int, ranges: seq<Range>, covered: int, writers: nat)

  datatype Cache = Cache(
    complete: seq<(Key, int)>,
    pins: map<Key, nat>,
    partials: seq<(Key, Partial)>,
    memoryBytes: int,
    partialBytes: int,
    limit: int)

  const INT_MAX: int := 0x7fff_ffff
  const MIN_CACHE_BYTES: int := 32 * 1024 * 1024
  const MAX_CACHE_BYTES: int := 256 * 1024 * 1024

  // ---- Ordered maps ----

  function IndexOf<V>(m: seq<(Key, V)>, k: Key): (i: nat)
    ensures i <= |m|
    ensures i < |m| ==> m[i].0 == k
    ensures forall j :: 0 <= j < i ==> m[j].0 != k
  {
    if m == [] then 0 else if m[0].0 == k then 0 else 1 + IndexOf(m[1..], k)
  }

  predicate Has<V>(m: seq<(Key, V)>, k: Key) {
    IndexOf(m, k) < |m|
  }

  function RemoveAt<T>(s: seq<T>, i: nat): (r: seq<T>)
    requires i < |s|
    ensures |r| == |s| - 1
  {
    s[..i] + s[i + 1..]
  }

  predicate DistinctKeys<V>(m: seq<(Key, V)>) {
    forall i, j :: 0 <= i < j < |m| ==> m[i].0 != m[j].0
  }

  // ---- Sizes and counts ----

  function Sum(m: seq<(Key, int)>): int {
    if m == [] then 0 else m[0].1 + Sum(m[1..])
  }

  function Sizes(m: seq<(Key, Partial)>): seq<(Key, int)> {
    seq(|m|, i requires 0 <= i < |m| => (m[i].0, m[i].1.size))
  }

  function Pins(c: Cache, k: Key): nat {
    if k in c.pins then c.pins[k] else 0
  }

  function Writers(c: Cache, k: Key): nat {
    if Has(c.partials, k) then c.partials[IndexOf(c.partials, k)].1.writers else 0
  }

  function Usage(c: Cache): int {
    c.memoryBytes + c.partialBytes
  }

  // ---- Eviction ----

  /** Index of the eldest complete entry nobody pins, or the length. */
  function FirstUnpinned(m: seq<(Key, int)>, pins: map<Key, nat>): (i: nat)
    ensures i <= |m|
    ensures i < |m| ==> m[i].0 !in pins || pins[m[i].0] == 0
    ensures forall j :: 0 <= j < i ==> m[j].0 in pins && pins[m[j].0] > 0
  {
    if m == [] then 0 else if m[0].0 !in pins || pins[m[0].0] == 0 then 0 else 1 + FirstUnpinned(m[1..], pins)
  }

  /** Index of the eldest partial entry without writers, or the length. */
  function FirstIdle(m: seq<(Key, Partial)>): (i: nat)
    ensures i <= |m|
    ensures i < |m| ==> m[i].1.writers == 0
    ensures forall j :: 0 <= j < i ==> m[j].1.writers > 0
  {
    if m == [] then 0 else if m[0].1.writers == 0 then 0 else 1 + FirstIdle(m[1..])
  }

  predicate CanEvictComplete(c: Cache) {
    FirstUnpinned(c.complete, c.pins) < |c.complete|
  }

  function EvictComplete(c: Cache): Cache
    requires CanEvictComplete(c)
  {
    var i := FirstUnpinned(c.complete, c.pins);
    c.(complete := RemoveAt(c.complete, i), pins := c.pins - {c.complete[i].0},
       memoryBytes := c.memoryBytes - c.complete[i].1)
  }

  predicate CanEvictPartial(c: Cache) {
    FirstIdle(c.partials) < |c.partials|
  }

  function EvictPartial(c: Cache): Cache
    requires CanEvictPartial(c)
  {
    var i := FirstIdle(c.partials);
    c.(partials := RemoveAt(c.partials, i), partialBytes := c.partialBytes - c.partials[i].1.size)
  }

  /** Evict complete entries until `need` more bytes fit. */
  function FreeComplete(c: Cache, need: int): (bool, Cache)
    decreases |c.complete|
  {
    if Usage(c) + need <= c.limit then (true, c)
    else if CanEvictComplete(c) then FreeComplete(EvictComplete(c), need)
    else (false, c)
  }

  /** Evict complete entries first, then idle partial ones, until `need` more bytes fit. */
  function FreeAny(c: Cache, need: int): (bool, Cache)
    decreases |c.complete| + |c.partials|
  {
    if Usage(c) + need <= c.limit then (true, c)
    else if CanEvictComplete(c) then FreeAny(EvictComplete(c), need)
    else if CanEvictPartial(c) then FreeAny(EvictPartial(c), need)
    else (false, c)
  }

  function Trim(c: Cache): Cache {
    FreeAny(c, 0).1
  }

  function Reserve(c: Cache, bytes: int): (bool, Cache) {
    if bytes > c.limit then (false, c) else FreeAny(c, bytes)
  }

  // ---- Operations ----

  function Pin(c: Cache, k: Key): Cache {
    c.(pins := c.pins[k := Pins(c, k) + 1])
  }

  function Unpin(c: Cache, k: Key): Cache {
    if k !in c.pins then c
    else if c.pins[k] <= 1 then c.(pins := c.pins - {k})
    else c.(pins := c.pins[k := c.pins[k] - 1])
  }

  /** A read access moves the entry to the young end. */
  function Touch(c: Cache, k: Key): Cache {
    var i := IndexOf(c.complete, k);
    if i == |c.complete| then c
    else c.(complete := RemoveAt(c.complete, i) + [c.complete[i]])
  }

  function Acquire(c: Cache, k: Key): (bool, Cache) {
    if Has(c.complete, k) then (true, Pin(Touch(c, k), k)) else (false, c)
  }

  function Release(c: Cache, k: Key): Cache {
    Trim(Unpin(c, k))
  }

  function DropPartial(c: Cache, k: Key): Cache
    requires Has(c.partials, k)
  {
    var i := IndexOf(c.partials, k);
    c.(partials := RemoveAt(c.partials, i), partialBytes := c.partialBytes - c.partials[i].1.size)
  }

  function NewPartial(c: Cache, k: Key, total: int): (r: Cache)
    ensures Has(r.partials, k)
  {
    assert (c.partials + [(k, Partial(total, [], 0, 0))])[|c.partials|].0 == k;
    c.(partials := c.partials + [(k, Partial(total, [], 0, 0))], partialBytes := c.partialBytes + total)
  }

  function EnsurePartial(c: Cache, k: Key, total: int): (r: (bool, Cache))
    ensures r.0 ==> Has(r.1.partials, k)
  {
    var i := IndexOf(c.partials, k);
    if i < |c.partials| && c.partials[i].1.size == total then (true, c)
    else if i < |c.partials| && c.partials[i].1.writers > 0 then (false, c)
    else
      var r := Reserve(if i < |c.partials| then DropPartial(c, k) else c, total);
      if r.0 then (true, NewPartial(r.1, k, total)) else r
  }

  function PartialOf(c: Cache, k: Key): Partial
    requires Has(c.partials, k)
  {
    c.partials[IndexOf(c.partials, k)].1
  }

  function SetPartial(c: Cache, k: Key, p: Partial): (r: Cache)
    requires Has(c.partials, k)
    ensures Has(r.partials, k)
  {
    var i := IndexOf(c.partials, k);
    assert c.partials[i := (k, p)][i].0 == k;
    c.(partials := c.partials[i := (k, p)])
  }

  predicate ValidTotal(total: int) {
    0 < total <= INT_MAX
  }

  function AddWriter(c: Cache, k: Key): Cache
    requires Has(c.partials, k)
  {
    var p := PartialOf(c, k);
    SetPartial(c, k, p.(writers := p.writers + 1))
  }

  function RemoveWriter(c: Cache, k: Key): Cache
    requires Has(c.partials, k)
  {
    var p := PartialOf(c, k);
    SetPartial(c, k, p.(writers := if p.writers > 0 then p.writers - 1 else 0))
  }

  function BeginPartial(c: Cache, k: Key, total: int): (bool, Cache) {
    var r := EnsurePartial(c, k, total);
    if r.0 then (true, AddWriter(r.1, k)) else r
  }

  function Begin(c: Cache, k: Key, total: int): (bool, Cache) {
    if !ValidTotal(total) then (false, c)
    else if Has(c.complete, k) then (true, Pin(c, k))
    else BeginPartial(c, k, total)
  }

  function End(c: Cache, k: Key): Cache {
    Trim(if Has(c.partials, k) then RemoveWriter(c, k) else Unpin(c, k))
  }

  function Insert(c: Cache, k: Key, size: int): (bool, Cache) {
    if size <= 0 || size > c.limit then (false, c)
    else
      var i := IndexOf(c.complete, k);
      var had := i < |c.complete|;
      var c1 := if had then c.(complete := RemoveAt(c.complete, i), memoryBytes := c.memoryBytes - c.complete[i].1)
                else c;
      var r := FreeComplete(c1, size);
      if r.0 then (true, AddComplete(r.1, k, size))
      else if had then (false, AddComplete(r.1, k, c.complete[i].1))
      else r
  }

  function AddComplete(c: Cache, k: Key, size: int): Cache {
    c.(complete := c.complete + [(k, size)], memoryBytes := c.memoryBytes + size)
  }

  /** Promote the fully covered partial entry of k. */
  function Promote(c: Cache, k: Key): (bool, Cache)
    requires Has(c.partials, k)
  {
    var p := PartialOf(c, k);
    var r := Insert(DropPartial(c, k), k, p.size);
    if r.0 && p.writers > 0 then (true, r.1.(pins := r.1.pins[k := Pins(r.1, k) + p.writers])) else r
  }

  datatype Write = Write(position: int, bufferSize: int, offset: int, length: int)

  predicate ValidBuffer(w: Write) {
    w.offset >= 0 && w.length > 0 && w.offset <= w.bufferSize - w.length
  }

  /** Where the bytes of a write land: [start, start + n). */
  function Landing(w: Write, total: int): (int, int) {
    var start := if w.position < 0 then 0 else Min(w.position, total);
    (start, Min(w.length, total - start))
  }

  function Extend(p: Partial, start: int, n: int): Partial {
    var ranges := MemoryRanges.Insert(p.ranges, start, start + n);
    p.(ranges := ranges, covered := p.covered + Total(ranges) - Total(p.ranges))
  }

  /** The n bytes at `start` arrive for the partial entry of k. */
  function Receive(c: Cache, k: Key, start: int, n: int): (bool, Cache)
    requires Has(c.partials, k)
  {
    var p := Extend(PartialOf(c, k), start, n);
    var c' := SetPartial(c, k, p);
    if p.covered < p.size then (false, c') else Promote(c', k)
  }

  function Land(c: Cache, k: Key, start: int, n: int): (bool, Cache)
    requires Has(c.partials, k)
  {
    if n <= 0 then (PartialOf(c, k).covered >= PartialOf(c, k).size, c) else Receive(c, k, start, n)
  }

  function RecordPartial(c: Cache, k: Key, w: Write, total: int): (bool, Cache) {
    var r := EnsurePartial(c, k, total);
    var (start, n) := Landing(w, total);
    if r.0 then Land(r.1, k, start, n) else r
  }

  function Record(c: Cache, k: Key, w: Write, total: int): (bool, Cache) {
    if !ValidTotal(total) || !ValidBuffer(w) then (false, c)
    else if Has(c.complete, k) then (true, c)
    else RecordPartial(c, k, w, total)
  }

  function Clamp(x: int, low: int, high: int): int {
    if x < low then low else if x > high then high else x
  }

  function Resize(c: Cache, bytes: int, heapSafe: int): Cache {
    Trim(c.(limit := Min(Clamp(bytes, MIN_CACHE_BYTES, MAX_CACHE_BYTES), heapSafe)))
  }
}
