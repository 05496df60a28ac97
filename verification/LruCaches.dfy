/** Three byte-bounded caches that evict the least recently used entry: cover thumbnails (server.rs), tracks in the
    desktop client (track.rs) and tracks in the browser client (index.js). All refine one list, oldest first.

    The abstract list has the operations of all three: a hit with and without a version, storing after and before making
    room, and a new maximum. The first two caches keep a table and a queue of keys beside each other, the third one map
    that keeps its insertion order; `Listed` is the list such a table and queue stand for. Stored bytes are sequences,
    whose length is what is counted.  */
module LruCaches {
  import opened Wrappers
  import opened Lists

  type Key = string

  type Blob = seq<int>

  /** A stored value; thumbnails carry the version of their source. */
  datatype Item = Item(version: string, bytes: Blob)

  datatype Lru = Lru(entries: seq<(Key, Item)>, max: nat)

  // ---- The abstract cache ----

  function Bytes(entries: seq<(Key, Item)>): nat {
    if entries == [] then 0 else |entries[0].1.bytes| + Bytes(entries[1..])
  }

  function Keys(entries: seq<(Key, Item)>): (keys: seq<Key>)
    ensures |keys| == |entries|
  {
    seq(|entries|, i requires 0 <= i < |entries| => entries[i].0)
  }

  predicate Distinct(entries: seq<(Key, Item)>) {
    forall i, j :: 0 <= i < j < |entries| ==> entries[i].0 != entries[j].0
  }

  function Without(entries: seq<(Key, Item)>, k: Key): seq<(Key, Item)> {
    if entries == [] then []
    else if entries[0].0 == k then Without(entries[1..], k)
    else [entries[0]] + Without(entries[1..], k)
  }

  /** How many of the oldest entries have to go for `need` more bytes to fit. */
  function Excess(entries: seq<(Key, Item)>, need: nat, max: nat): (n: nat)
    ensures n <= |entries|
  {
    if entries == [] || Bytes(entries) + need <= max then 0 else 1 + Excess(entries[1..], need, max)
  }

  function Find(entries: seq<(Key, Item)>, k: Key): Option<Item> {
    if entries == [] then None else if entries[0].0 == k then Some(entries[0].1) else Find(entries[1..], k)
  }

  /** A hit makes the entry the youngest. */
  function Hit(c: Lru, k: Key): (Option<Item>, Lru) {
    var found := Find(c.entries, k);
    if found.None? then (None, c) else (found, c.(entries := Without(c.entries, k) + [(k, found.value)]))
  }

  /** A thumbnail of another source version is a miss and is dropped. */
  function HitVersion(c: Lru, k: Key, version: string): (Option<Item>, Lru) {
    var found := Find(c.entries, k);
    if found.None? || found.value.version != version then (None, c.(entries := Without(c.entries, k))) else Hit(c, k)
  }

  /** Make room, then store; refused when empty or larger than the cache. The keys evicted, oldest first. */
  function Store(c: Lru, k: Key, item: Item): (bool, seq<Key>, Lru) {
    if item.bytes == [] || |item.bytes| > c.max then (false, [], c)
    else
      var rest := Without(c.entries, k);
      var n := Excess(rest, |item.bytes|, c.max);
      (true, Keys(rest[..n]), c.(entries := rest[n..] + [(k, item)]))
  }

  /** Store, then make room. */
  function StoreThenEvict(c: Lru, k: Key, item: Item): Lru {
    var stored := Without(c.entries, k) + [(k, item)];
    c.(entries := stored[Excess(stored, 0, c.max)..])
  }

  function Shrink(c: Lru, max: nat): (seq<Key>, Lru) {
    var n := Excess(c.entries, 0, max);
    (Keys(c.entries[..n]), Lru(c.entries[n..], max))
  }

  // ---- What eviction does ----

  /** Exactly the shortest prefix that makes room is evicted. */
  lemma {:induction false} ExcessIsShortest(entries: seq<(Key, Item)>, need: nat, max: nat)
    ensures var n := Excess(entries, need, max);
            && (need <= max ==> Bytes(entries[n..]) + need <= max)
            && forall j :: 0 <= j < n ==> Bytes(entries[j..]) + need > max
  {
    if entries != [] && Bytes(entries) + need > max {
      ExcessIsShortest(entries[1..], need, max);
      var n := Excess(entries[1..], need, max);
      assert entries[1..][n..] == entries[n + 1..];
      forall j | 0 <= j < n + 1 ensures Bytes(entries[j..]) + need > max {
        if j == 0 {
          assert entries[0..] == entries;
        } else {
          assert entries[1..][j - 1..] == entries[j..];
        }
      }
    } else {
      assert entries[0..] == entries;
    }
  }

  lemma {:induction false} WithoutFacts(entries: seq<(Key, Item)>, k: Key)
    ensures forall e :: e in Without(entries, k) <==> e in entries && e.0 != k
    ensures Distinct(entries) ==> Distinct(Without(entries, k))
  {
    if entries != [] {
      WithoutFacts(entries[1..], k);
      var rest := Without(entries[1..], k);
      assert forall j :: 0 <= j < |rest| ==> rest[j] in rest;
    }
  }

  lemma {:induction false} FindFacts(entries: seq<(Key, Item)>, k: Key)
    ensures Find(entries, k).Some? ==> (k, Find(entries, k).value) in entries
    ensures Find(entries, k).None? ==> forall e :: e in entries ==> e.0 != k
    ensures Distinct(entries) ==> forall e :: e in entries && e.0 == k ==> Find(entries, k) == Some(e.1)
  {
    if entries != [] {
      FindFacts(entries[1..], k);
    }
  }

  lemma {:induction false} BytesJoin(a: seq<(Key, Item)>, b: seq<(Key, Item)>)
    ensures Bytes(a + b) == Bytes(a) + Bytes(b)
    decreases |a|
  {
    if a == [] {
      assert a + b == b;
    } else {
      assert (a + b)[0] == a[0] && (a + b)[1..] == a[1..] + b;
      BytesJoin(a[1..], b);
    }
  }

  lemma BytesOne(k: Key, item: Item)
    ensures Bytes([(k, item)]) == |item.bytes|
  {
    assert [(k, item)][1..] == [];
  }

  lemma BytesNone()
    ensures Bytes([]) == 0
  {
  }

  lemma {:induction false} WithoutBytes(entries: seq<(Key, Item)>, k: Key)
    requires Distinct(entries)
    ensures Bytes(Without(entries, k))
            == Bytes(entries) - (if Find(entries, k).Some? then |Find(entries, k).value.bytes| else 0)
  {
    if entries != [] {
      WithoutBytes(entries[1..], k);
      if entries[0].0 == k {
        WithoutAbsent(entries[1..], k);
      }
    }
  }

  lemma {:induction false} WithoutAbsent(entries: seq<(Key, Item)>, k: Key)
    requires forall i :: 0 <= i < |entries| ==> entries[i].0 != k
    ensures Without(entries, k) == entries && Find(entries, k) == None
  {
    if entries != [] {
      WithoutAbsent(entries[1..], k);
    }
  }

  /** The bound holds after every operation, and keys stay distinct. */
  predicate Good(c: Lru) {
    Distinct(c.entries) && Bytes(c.entries) <= c.max
  }

  lemma HitGood(c: Lru, k: Key, version: string)
    requires Good(c)
    ensures Good(Hit(c, k).1) && Good(HitVersion(c, k, version).1)
    ensures Find(c.entries, k).Some? ==> Bytes(Hit(c, k).1.entries) == Bytes(c.entries)
  {
    WithoutFacts(c.entries, k);
    WithoutBytes(c.entries, k);
    var found := Find(c.entries, k);
    if found.Some? {
      BytesJoin(Without(c.entries, k), [(k, found.value)]);
      BytesOne(k, found.value);
      AppendDistinct(Without(c.entries, k), k, found.value);
    }
    hide Bytes, Without, Find, Distinct;
  }

  lemma AppendDistinct(entries: seq<(Key, Item)>, k: Key, item: Item)
    requires Distinct(entries) && forall e :: e in entries ==> e.0 != k
    ensures Distinct(entries + [(k, item)])
  {
    forall i | 0 <= i < |entries| ensures entries[i].0 != k {
      assert entries[i] in entries;
    }
  }

  lemma DropDistinct(entries: seq<(Key, Item)>, n: nat)
    requires Distinct(entries) && n <= |entries|
    ensures Distinct(entries[n..]) && forall e :: e in entries[n..] ==> e in entries
  {
  }

  /** An accepted insertion stores the item as the youngest entry and evicts exactly the shortest prefix of the others
      that makes room; it is accepted exactly for items that are not empty and fit the cache. */
  lemma StoreGood(c: Lru, k: Key, item: Item)
    requires Distinct(c.entries)
    ensures var (ok, evicted, c') := Store(c, k, item);
            && (ok <==> 0 < |item.bytes| <= c.max)
            && (ok ==> Good(c') && c'.entries != [] && c'.entries[|c'.entries| - 1] == (k, item))
            && (ok ==> var rest := Without(c.entries, k);
                       && |evicted| <= |rest| && evicted == Keys(rest[..|evicted|])
                       && c'.entries == rest[|evicted|..] + [(k, item)]
                       && forall j :: 0 <= j < |evicted| ==> Bytes(rest[j..]) + |item.bytes| > c.max)
            && (!ok ==> c' == c && evicted == [])
  {
    if 0 < |item.bytes| <= c.max {
      var rest := Without(c.entries, k);
      var n := Excess(rest, |item.bytes|, c.max);
      WithoutFacts(c.entries, k);
      ExcessIsShortest(rest, |item.bytes|, c.max);
      DropDistinct(rest, n);
      AppendDistinct(rest[n..], k, item);
      BytesJoin(rest[n..], [(k, item)]);
      BytesOne(k, item);
      hide Bytes, Without, Excess, Distinct;
    }
  }

  /** Storing first and evicting afterwards keeps the bound as well, but an item larger than the cache empties it. */
  lemma StoreThenEvictGood(c: Lru, k: Key, item: Item)
    requires Distinct(c.entries)
    ensures var c' := StoreThenEvict(c, k, item);
            && Good(c')
            && (|item.bytes| <= c.max ==> c'.entries != [] && c'.entries[|c'.entries| - 1] == (k, item))
            && (|item.bytes| > c.max ==> c'.entries == [])
  {
    var rest := Without(c.entries, k);
    var stored := rest + [(k, item)];
    var n := Excess(stored, 0, c.max);
    WithoutFacts(c.entries, k);
    AppendDistinct(rest, k, item);
    ExcessIsShortest(stored, 0, c.max);
    DropDistinct(stored, n);
    LastKept(rest, k, item, n, c.max);
    hide Without, Excess, Distinct;
  }

  lemma LastKept(rest: seq<(Key, Item)>, k: Key, item: Item, n: nat, max: nat)
    requires n == Excess(rest + [(k, item)], 0, max)
    ensures |item.bytes| <= max <==> n <= |rest|
  {
    var stored := rest + [(k, item)];
    ExcessIsShortest(stored, 0, max);
    assert stored[|rest|..] == [(k, item)];
    BytesOne(k, item);
    if n <= |rest| {
      assert stored[n..] == rest[n..] + [(k, item)];
      BytesJoin(rest[n..], [(k, item)]);
    }
  }

  lemma ShrinkGood(c: Lru, max: nat)
    requires Distinct(c.entries)
    ensures var (evicted, c') := Shrink(c, max);
            && Good(c') && |evicted| <= |c.entries| && evicted == Keys(c.entries[..|evicted|])
            && c'.entries == c.entries[|evicted|..]
            && forall j :: 0 <= j < |evicted| ==> Bytes(c.entries[j..]) > max
  {
    ExcessIsShortest(c.entries, 0, max);
    DropDistinct(c.entries, Excess(c.entries, 0, max));
    hide Bytes, Excess, Distinct;
  }

  // ---- Answers and order ----

  function Others(entries: seq<(Key, Item)>, k: Key): set<nat> {
    set p | 0 <= p < |entries| && entries[p].0 != k
  }

  lemma OthersMore(entries: seq<(Key, Item)>, k: Key, e: (Key, Item))
    ensures Others(entries + [e], k) == if e.0 != k then Others(entries, k) + {|entries|} else Others(entries, k)
  {
  }

  lemma OthersNone(k: Key)
    ensures Others([], k) == {} && Without([], k) == []
  {
  }

  lemma {:induction false} WithoutMore(entries: seq<(Key, Item)>, k: Key, e: (Key, Item))
    ensures Without(entries + [e], k) == if e.0 != k then Without(entries, k) + [e] else Without(entries, k)
  {
    if entries == [] {
      assert [] + [e] == [e] && [e][1..] == [];
    } else {
      assert (entries + [e])[1..] == entries[1..] + [e];
      WithoutMore(entries[1..], k, e);
    }
  }

  /** The entries of other keys keep their places among each other. */
  lemma {:induction false} WithoutPlaces(entries: seq<(Key, Item)>, k: Key)
    ensures ListsPlaces(entries, Without(entries, k), Others(entries, k))
  {
    hide *;
    if entries == [] {
      PlacesNone<(Key, Item)>();
      OthersNone(k);
    } else {
      var (rest, e) := (entries[..|entries| - 1], entries[|entries| - 1]);
      assert entries == rest + [e];
      WithoutPlaces(rest, k);
      PlacesMore(rest, Without(rest, k), Others(rest, k), e, e.0 != k);
      OthersMore(rest, k, e);
      WithoutMore(rest, k, e);
    }
  }

  /** A read answers exactly what is stored under the key, of the version asked for if there is one. What it answers
      becomes the youngest entry; an entry of another version goes, and the others stay as they are. */
  lemma HitAnswers(c: Lru, k: Key, version: string, item: Item)
    requires Good(c)
    ensures Hit(c, k).0 == Some(item) <==> (k, item) in c.entries
    ensures HitVersion(c, k, version).0 == Some(item) <==> (k, item) in c.entries && item.version == version
    ensures (k, item) in c.entries ==> Hit(c, k).1 == c.(entries := Without(c.entries, k) + [(k, item)])
    ensures (k, item) in c.entries && item.version == version ==> HitVersion(c, k, version).1 == Hit(c, k).1
    ensures (k, item) in c.entries && item.version != version ==>
              HitVersion(c, k, version).1 == c.(entries := Without(c.entries, k))
    ensures Hit(c, k).0.None? ==> Hit(c, k).1 == c == HitVersion(c, k, version).1
  {
    FindFacts(c.entries, k);
    WithoutFacts(c.entries, k);
    if Find(c.entries, k).None? {
      WithoutAbsent(c.entries, k);
    }
    hide Find, Without, Bytes, Distinct;
  }

  /** Storing first evicts the shortest prefix too, of the other entries and the new one. */
  lemma StoreThenEvictOrder(c: Lru, k: Key, item: Item) returns (n: nat)
    ensures var stored := Without(c.entries, k) + [(k, item)];
            && n <= |stored| && StoreThenEvict(c, k, item) == c.(entries := stored[n..])
            && Bytes(stored[n..]) <= c.max && forall j :: 0 <= j < n ==> Bytes(stored[j..]) > c.max
  {
    var stored := Without(c.entries, k) + [(k, item)];
    n := Excess(stored, 0, c.max);
    ExcessIsShortest(stored, 0, c.max);
    hide Without, Excess, Bytes;
  }

  // ---- Whole runs ----

  datatype Op =
    | Read(k: Key)
    | ReadVersion(k: Key, version: string)
    | Put(k: Key, item: Item)
    | PutThenTrim(k: Key, item: Item)
    | Drop(k: Key)
    | SetMax(max: nat)
    | Empty

  function Step(c: Lru, op: Op): Lru {
    match op
    case Read(k) => Hit(c, k).1
    case ReadVersion(k, version) => HitVersion(c, k, version).1
    case Put(k, item) => Store(c, k, item).2
    case PutThenTrim(k, item) => StoreThenEvict(c, k, item)
    case Drop(k) => c.(entries := Without(c.entries, k))
    case SetMax(max) => Shrink(c, max).1
    case Empty => c.(entries := [])
  }

  function Run(c: Lru, ops: seq<Op>): Lru
    decreases |ops|
  {
    if ops == [] then c else Run(Step(c, ops[0]), ops[1..])
  }

  lemma StepGood(c: Lru, op: Op)
    requires Good(c)
    ensures Good(Step(c, op))
  {
    match op {
      case Read(k) => HitGood(c, k, "");
      case ReadVersion(k, version) => HitGood(c, k, version);
      case Put(k, item) => StoreGood(c, k, item);
      case PutThenTrim(k, item) => StoreThenEvictGood(c, k, item);
      case Drop(k) =>
        WithoutFacts(c.entries, k);
        WithoutBytes(c.entries, k);
      case SetMax(max) => ShrinkGood(c, max);
      case Empty =>
    }
    hide Store, StoreThenEvict, Hit, HitVersion, Shrink, Without, Distinct;
  }

  /** After every operation of every run keys are distinct and the bytes are within the limit then in force. */
  lemma {:induction false} RunGood(c: Lru, ops: seq<Op>)
    requires Good(c)
    ensures Good(Run(c, ops))
    decreases |ops|
  {
    hide Good, Step;
    if ops != [] {
      StepGood(c, ops[0]);
      RunGood(Step(c, ops[0]), ops[1..]);
    }
  }

  // ---- A table and an order together hold such a list ----

  predicate DistinctKeys(order: seq<Key>) {
    forall i, j :: 0 <= i < j < |order| ==> order[i] != order[j]
  }

  /** The order lists each stored key exactly once. */
  ghost predicate Matched(order: seq<Key>, entries: map<Key, Item>) {
    DistinctKeys(order) && forall k :: k in order <==> k in entries
  }

  function Listed(order: seq<Key>, entries: map<Key, Item>): seq<(Key, Item)>
    requires forall k :: k in order ==> k in entries
  {
    if order == [] then [] else [(order[0], entries[order[0]])] + Listed(order[1..], entries)
  }

  /** The order without a key, as a retain on a queue leaves it. */
  function Retain(order: seq<Key>, k: Key): seq<Key> {
    if order == [] then [] else if order[0] == k then Retain(order[1..], k) else [order[0]] + Retain(order[1..], k)
  }

  lemma {:induction false} ListedFacts(order: seq<Key>, entries: map<Key, Item>)
    requires forall k :: k in order ==> k in entries
    ensures |Listed(order, entries)| == |order|
    ensures forall i :: 0 <= i < |order| ==> Listed(order, entries)[i] == (order[i], entries[order[i]])
  {
    if order != [] {
      ListedFacts(order[1..], entries);
    }
  }

  lemma ListedDistinct(order: seq<Key>, entries: map<Key, Item>)
    requires Matched(order, entries)
    ensures Distinct(Listed(order, entries))
  {
    ListedFacts(order, entries);
  }

  lemma ListedLookup(order: seq<Key>, entries: map<Key, Item>, k: Key)
    requires Matched(order, entries)
    ensures Find(Listed(order, entries), k) == if k in entries then Some(entries[k]) else None
  {
    var listed := Listed(order, entries);
    ListedFacts(order, entries);
    FindFacts(listed, k);
    if k in entries {
      var i :| 0 <= i < |order| && order[i] == k;
      assert listed[i] in listed && listed[i].0 == k;
    }
    hide Find, Listed;
  }

  /** Values of keys outside the order do not matter. */
  lemma {:induction false} ListedSame(order: seq<Key>, a: map<Key, Item>, b: map<Key, Item>)
    requires forall k :: k in order ==> k in a && k in b && a[k] == b[k]
    ensures Listed(order, a) == Listed(order, b)
  {
    if order != [] {
      ListedSame(order[1..], a, b);
    }
  }

  lemma {:induction false} RetainFacts(order: seq<Key>, k: Key)
    ensures forall x :: x in Retain(order, k) <==> x in order && x != k
    ensures DistinctKeys(order) ==> DistinctKeys(Retain(order, k))
  {
    if order != [] {
      RetainFacts(order[1..], k);
      var rest := Retain(order[1..], k);
      assert forall j :: 0 <= j < |rest| ==> rest[j] in rest;
      assert forall x :: x in order <==> x == order[0] || x in order[1..];
    }
  }

  lemma {:induction false} RetainListed(order: seq<Key>, entries: map<Key, Item>, k: Key)
    requires forall x :: x in order ==> x in entries
    ensures forall x :: x in Retain(order, k) ==> x in entries
    ensures Listed(Retain(order, k), entries) == Without(Listed(order, entries), k)
  {
    RetainFacts(order, k);
    if order != [] {
      RetainListed(order[1..], entries, k);
      var rest := Retain(order[1..], k);
      assert ([order[0]] + rest)[1..] == rest;
    }
  }

  /** Dropping a key from the table and from the order drops its entry from the list. */
  lemma Dropped(order: seq<Key>, entries: map<Key, Item>, k: Key)
    requires Matched(order, entries)
    ensures Matched(Retain(order, k), entries - {k})
    ensures Listed(Retain(order, k), entries - {k}) == Without(Listed(order, entries), k)
  {
    RetainFacts(order, k);
    RetainListed(order, entries, k);
    ListedSame(Retain(order, k), entries, entries - {k});
    hide Listed, Without, Retain;
  }

  lemma {:induction false} ListedJoin(a: seq<Key>, b: seq<Key>, entries: map<Key, Item>)
    requires forall k :: k in a + b ==> k in entries
    ensures (forall k :: k in a ==> k in entries) && forall k :: k in b ==> k in entries
    ensures Listed(a + b, entries) == Listed(a, entries) + Listed(b, entries)
    decreases |a|
  {
    assert forall k :: k in a || k in b ==> k in a + b;
    if a == [] {
      assert a + b == b;
    } else {
      assert (a + b)[0] == a[0] && (a + b)[1..] == a[1..] + b;
      ListedJoin(a[1..], b, entries);
    }
  }

  lemma ListedOne(k: Key, entries: map<Key, Item>)
    requires k in entries
    ensures Listed([k], entries) == [(k, entries[k])]
  {
    assert [k][1..] == [];
  }

  /** Storing a new key at the young end. */
  lemma Pushed(order: seq<Key>, entries: map<Key, Item>, k: Key, item: Item)
    requires Matched(order, entries) && k !in entries
    ensures Matched(order + [k], entries[k := item])
    ensures Listed(order + [k], entries[k := item]) == Listed(order, entries) + [(k, item)]
  {
    ListedJoin(order, [k], entries[k := item]);
    ListedOne(k, entries[k := item]);
    ListedSame(order, entries, entries[k := item]);
    hide Listed;
  }

  /** Taking the oldest key. */
  lemma Popped(order: seq<Key>, entries: map<Key, Item>)
    requires Matched(order, entries) && order != []
    ensures order[0] in entries && Matched(order[1..], entries - {order[0]})
    ensures Listed(order[1..], entries - {order[0]}) == Listed(order, entries)[1..]
    ensures Bytes(Listed(order, entries)) == |entries[order[0]].bytes| + Bytes(Listed(order, entries)[1..])
    ensures Listed(order, entries)[0] == (order[0], entries[order[0]])
  {
    ListedSame(order[1..], entries, entries - {order[0]});
    assert forall k :: k in order <==> k == order[0] || k in order[1..];
  }

  lemma KeysHead(entries: seq<(Key, Item)>, n: nat)
    requires n < |entries|
    ensures Keys(entries[..n + 1]) == Keys(entries[..n]) + [entries[n].0]
  {
  }

  /** One eviction is one step of the count. */
  lemma ExcessStep(entries: seq<(Key, Item)>, n: nat, need: nat, max: nat)
    requires n < |entries| && Bytes(entries[n..]) + need > max
    ensures Excess(entries[n..], need, max) == 1 + Excess(entries[n + 1..], need, max)
  {
    assert entries[n..][1..] == entries[n + 1..];
  }

  lemma ExcessDone(entries: seq<(Key, Item)>, n: nat, need: nat, max: nat)
    requires n <= |entries| && (Bytes(entries[n..]) + need <= max || n == |entries|)
    ensures Excess(entries[n..], need, max) == 0
  {
  }

  function SaturatingSub(a: nat, b: nat): nat {
    if a < b then 0 else a - b
  }

  lemma Subtracts(a: nat, b: nat)
    ensures SaturatingSub(a + b, b) == a
  {
  }

  /** Moving a stored key to the young end is what a hit does. */
  lemma Moved(order: seq<Key>, entries: map<Key, Item>, max: nat, k: Key)
    requires Matched(order, entries) && k in entries
    ensures Matched(Retain(order, k) + [k], entries)
    ensures Hit(Lru(Listed(order, entries), max), k).1 == Lru(Listed(Retain(order, k) + [k], entries), max)
    ensures Hit(Lru(Listed(order, entries), max), k).0 == Some(entries[k])
    ensures Bytes(Listed(Retain(order, k) + [k], entries)) == Bytes(Listed(order, entries))
  {
    var listed := Listed(order, entries);
    Dropped(order, entries, k);
    Pushed(Retain(order, k), entries - {k}, k, entries[k]);
    assert (entries - {k})[k := entries[k]] == entries;
    ListedLookup(order, entries, k);
    ListedDistinct(order, entries);
    WithoutBytes(listed, k);
    BytesJoin(Without(listed, k), [(k, entries[k])]);
    BytesOne(k, entries[k]);
    hide Bytes, Listed, Matched, Retain, Without, Distinct, Find;
  }

  /** Popping one entry at a time ends where the count says. */
  lemma PoppedEnough(c: Lru, k: Key, item: Item, n: nat)
    requires Distinct(c.entries)
    requires var stored := Without(c.entries, k) + [(k, item)];
             && n <= |stored| && Bytes(stored[n..]) <= c.max
             && Excess(stored, 0, c.max) == n + Excess(stored[n..], 0, c.max)
    ensures var stored := Without(c.entries, k) + [(k, item)];
            StoreThenEvict(c, k, item) == Lru(stored[n..], c.max) && Good(StoreThenEvict(c, k, item))
  {
    var stored := Without(c.entries, k) + [(k, item)];
    ExcessDone(stored, n, 0, c.max);
    StoreThenEvictGood(c, k, item);
  }

  lemma Missed(order: seq<Key>, entries: map<Key, Item>, max: nat, k: Key)
    requires Matched(order, entries) && k !in entries
    ensures Hit(Lru(Listed(order, entries), max), k) == (None, Lru(Listed(order, entries), max))
  {
    ListedLookup(order, entries, k);
  }

  lemma Refused(c: Lru, k: Key, item: Item)
    requires item.bytes == [] || |item.bytes| > c.max
    ensures Store(c, k, item) == (false, [], c) && Ids([]) == []
  {
  }

  /** Cover thumbnails in the server. */
  class CoverThumbnailCache {
    var entries: map<Key, Item>
    var order: seq<Key>
    var bytes: nat
    const maxBytes: nat

    ghost predicate Valid()
      reads this
    {
      Matched(order, entries) && bytes == Bytes(Listed(order, entries))
    }

    ghost function View(): Lru
      reads this
      requires Valid()
    {
      Lru(Listed(order, entries), maxBytes)
    }

    constructor (maxBytes: nat)
      ensures Valid() && View() == Lru([], maxBytes)
    {
      entries, order, bytes := map[], [], 0;
      this.maxBytes := maxBytes;
    }

    method Remove(k: Key)
      requires Valid()
      modifies this
      ensures Valid()
      ensures View() == old(View()).(entries := Without(old(View()).entries, k))
      ensures k !in entries
    {
      Dropped(order, entries, k);
      ListedDistinct(order, entries);
      ListedLookup(order, entries, k);
      WithoutBytes(Listed(order, entries), k);
      if k in entries {
        var entry := entries[k];
        entries := entries - {k};
        bytes := SaturatingSub(bytes, |entry.bytes|);
      } else {
        assert entries - {k} == entries;
      }
      order := Retain(order, k);
      hide Listed, Without, Retain, Matched, Bytes, Find, Distinct;
    }

    method Touch(k: Key)
      requires Valid() && k in entries
      modifies this`order
      ensures Valid() && View() == Hit(old(View()), k).1
    {
      hide *;
      Opened();
      Moved(order, entries, maxBytes, k);
      order := Retain(order, k) + [k];
      Closed();
    }

    lemma Opened()
      requires Valid()
      ensures Matched(order, entries) && bytes == Bytes(Listed(order, entries))
      ensures View() == Lru(Listed(order, entries), maxBytes)
    {
    }

    lemma Closed()
      requires Matched(order, entries) && bytes == Bytes(Listed(order, entries))
      ensures Valid() && View() == Lru(Listed(order, entries), maxBytes)
    {
    }

    /** A thumbnail is answered only for the version of the source it was made from; another version is dropped. */
    method Get(k: Key, version: string) returns (cover: Option<Blob>)
      requires Valid()
      modifies this
      ensures Valid() && View() == HitVersion(old(View()), k, version).1
      ensures cover == match HitVersion(old(View()), k, version).0 case None => None case Some(item) => Some(item.bytes)
    {
      ListedLookup(order, entries, k);
      var matches := k in entries && entries[k].version == version;
      if !matches {
        Remove(k);
        cover := None;
      } else {
        cover := Some(entries[k].bytes);
        Touch(k);
      }
      hide Listed, Without, Retain, Matched, Bytes, Find, Distinct;
    }

    method Insert(k: Key, item: Item)
      requires Valid()
      modifies this
      ensures Valid() && View() == StoreThenEvict(old(View()), k, item)
      ensures Good(View())
    {
      hide *;
      ghost var c := View();
      Opened();
      ListedDistinct(order, entries);
      Remove(k);
      Opened();
      Pushed(order, entries, k, item);
      ghost var rest := Listed(order, entries);
      ghost var stored := rest + [(k, item)];
      BytesJoin(rest, [(k, item)]);
      BytesOne(k, item);
      bytes := bytes + |item.bytes|;
      entries := entries[k := item];
      order := order + [k];
      Closed();
      ghost var n := 0;
      assert stored[0..] == stored;
      while bytes > maxBytes
        invariant Valid() && n <= |stored| && View() == Lru(stored[n..], maxBytes)
        invariant Excess(stored, 0, maxBytes) == n + Excess(stored[n..], 0, maxBytes)
        decreases |stored| - n
      {
        hide *;
        Opened();
        ListedFacts(order, entries);
        BytesNone();
        if order == [] {
          break;
        }
        Popped(order, entries);
        ExcessStep(stored, n, 0, maxBytes);
        assert stored[n..][1..] == stored[n + 1..];
        var oldest := order[0];
        order := order[1..];
        var entry := entries[oldest];
        entries := entries - {oldest};
        Subtracts(Bytes(stored[n + 1..]), |entry.bytes|);
        bytes := SaturatingSub(bytes, |entry.bytes|);
        Closed();
        n := n + 1;
      }
      Opened();
      PoppedEnough(c, k, item, n);
    }
  }

  // ---- Tracks of the desktop client ----

  datatype TrackId = TrackId(remote: string, track: string)

  const NUL: char := '\0'

  function KeyOf(id: TrackId): Key {
    id.remote + [NUL] + id.track
  }

  function FirstNul(s: string): (n: nat)
    ensures n <= |s|
  {
    if s == [] || s[0] == NUL then 0 else 1 + FirstNul(s[1..])
  }

  /** The key split at its first NUL; empty names when there is none. */
  function IdOf(key: Key): TrackId {
    var n := FirstNul(key);
    if n == |key| then TrackId([], []) else TrackId(key[..n], key[n + 1..])
  }

  lemma {:induction false} FirstNulOfKey(remote: string, track: string)
    ensures var n := FirstNul(remote + [NUL] + track);
            n <= |remote| && (n == |remote| <==> NUL !in remote)
  {
    var key := remote + [NUL] + track;
    if remote != [] && remote[0] != NUL {
      FirstNulOfKey(remote[1..], track);
      assert key[1..] == remote[1..] + [NUL] + track;
    }
  }

  /** The evicted names read back from the key are the ones stored exactly when the remote's name has no NUL. */
  lemma IdRoundTrip(id: TrackId)
    ensures IdOf(KeyOf(id)) == id <==> NUL !in id.remote
  {
    var key := KeyOf(id);
    var n := FirstNul(key);
    FirstNulOfKey(id.remote, id.track);
    if n == |id.remote| {
      assert key[..n] == id.remote && key[n + 1..] == id.track;
    }
  }

  /** Hence tracks of two such remotes never share an entry. */
  lemma KeysApart(a: TrackId, b: TrackId)
    requires NUL !in a.remote && NUL !in b.remote && a != b
    ensures KeyOf(a) != KeyOf(b)
  {
    IdRoundTrip(a);
    IdRoundTrip(b);
  }

  /** A NUL may belong to the remote or to the track: such tracks share an entry. */
  lemma KeysCollide(remote: string, middle: string, track: string)
    ensures KeyOf(TrackId(remote + [NUL] + middle, track)) == KeyOf(TrackId(remote, middle + [NUL] + track))
    ensures TrackId(remote + [NUL] + middle, track) != TrackId(remote, middle + [NUL] + track)
  {
    assert remote + [NUL] + middle + [NUL] + track == remote + [NUL] + (middle + [NUL] + track);
    assert |remote + [NUL] + middle| > |remote|;
  }

  function Ids(keys: seq<Key>): seq<TrackId> {
    seq(|keys|, i requires 0 <= i < |keys| => IdOf(keys[i]))
  }

  lemma IdsGrow(entries: seq<(Key, Item)>, n: nat)
    requires n < |entries|
    ensures Ids(Keys(entries[..n])) + [IdOf(entries[n].0)] == Ids(Keys(entries[..n + 1]))
  {
    KeysHead(entries, n);
  }

  lemma IdsNone(entries: seq<(Key, Item)>)
    ensures Ids(Keys(entries[..0])) == []
  {
  }

  /** Popping while there is no room, then storing, is the insertion of the list. */
  lemma PoppedThenStored(c: Lru, k: Key, item: Item, n: nat)
    requires 0 < |item.bytes| <= c.max
    requires var rest := Without(c.entries, k);
             && n <= |rest| && Bytes(rest[n..]) + |item.bytes| <= c.max
             && Excess(rest, |item.bytes|, c.max) == n + Excess(rest[n..], |item.bytes|, c.max)
    ensures var rest := Without(c.entries, k);
            Store(c, k, item) == (true, Keys(rest[..n]), c.(entries := rest[n..] + [(k, item)]))
  {
    ExcessDone(Without(c.entries, k), n, |item.bytes|, c.max);
  }

  lemma PoppedForSize(c: Lru, max: nat, n: nat)
    requires n <= |c.entries| && Bytes(c.entries[n..]) <= max
    requires Excess(c.entries, 0, max) == n + Excess(c.entries[n..], 0, max)
    ensures Shrink(c, max) == (Keys(c.entries[..n]), Lru(c.entries[n..], max))
  {
    ExcessDone(c.entries, n, 0, max);
  }

  class MemoryTrackCache {
    var entries: map<Key, Item>
    var order: seq<Key>
    var bytes: nat
    var maxBytes: nat

    ghost predicate Valid()
      reads this
    {
      Matched(order, entries) && bytes == Bytes(Listed(order, entries))
    }

    ghost function View(): Lru
      reads this
      requires Valid()
    {
      Lru(Listed(order, entries), maxBytes)
    }

    lemma Opened()
      requires Valid()
      ensures Matched(order, entries) && bytes == Bytes(Listed(order, entries))
      ensures View() == Lru(Listed(order, entries), maxBytes)
    {
    }

    lemma Closed()
      requires Matched(order, entries) && bytes == Bytes(Listed(order, entries))
      ensures Valid() && View() == Lru(Listed(order, entries), maxBytes)
    {
    }

    constructor ()
      ensures Valid() && View() == Lru([], 256 * 1024 * 1024)
    {
      entries, order, bytes, maxBytes := map[], [], 0, 256 * 1024 * 1024;
    }

    method Get(id: TrackId) returns (found: Option<Blob>)
      requires Valid()
      modifies this`order
      ensures Valid() && View() == Hit(old(View()), KeyOf(id)).1
      ensures found == match Hit(old(View()), KeyOf(id)).0 case None => None case Some(item) => Some(item.bytes)
    {
      hide *;
      var key := KeyOf(id);
      Opened();
      if key !in entries {
        Missed(order, entries, maxBytes, key);
        return None;
      }
      Moved(order, entries, maxBytes, key);
      found := Some(entries[key].bytes);
      order := Retain(order, key) + [key];
      Closed();
    }

    /** The oldest entry goes; its names come from its key. */
    method EvictOldest() returns (id: Option<TrackId>)
      requires Valid()
      modifies this
      ensures Valid() && maxBytes == old(maxBytes) && entries.Keys <= old(entries.Keys)
      ensures var before := old(View()).entries;
              if before == [] then id == None && View() == old(View())
              else id == Some(IdOf(before[0].0)) && View() == Lru(before[1..], maxBytes)
    {
      hide *;
      Opened();
      ListedFacts(order, entries);
      if order == [] {
        return None;
      }
      Popped(order, entries);
      var oldest := order[0];
      order := order[1..];
      if oldest in entries {
        var previous := entries[oldest];
        bytes := bytes - |previous.bytes|;
        entries := entries - {oldest};
      }
      id := Some(IdOf(oldest));
      Closed();
    }

    method Insert(id: TrackId, item: Item) returns (stored: bool, evicted: seq<TrackId>)
      requires Valid()
      modifies this
      ensures Valid()
      ensures var (ok, keys, c) := Store(old(View()), KeyOf(id), item);
              stored == ok && evicted == Ids(keys) && View() == c
    {
      hide *;
      ghost var c := View();
      evicted := [];
      Opened();
      if item.bytes == [] || |item.bytes| > maxBytes {
        Refused(c, KeyOf(id), item);
        return false, [];
      }
      var key := KeyOf(id);
      ListedDistinct(order, entries);
      ListedLookup(order, entries, key);
      WithoutBytes(c.entries, key);
      Dropped(order, entries, key);
      if key in entries {
        bytes := bytes - |entries[key].bytes|;
        entries := entries - {key};
      } else {
        assert entries - {key} == entries;
      }
      order := Retain(order, key);
      Closed();
      ghost var rest := View().entries;
      ghost var n := 0;
      assert rest[0..] == rest && key !in entries;
      IdsNone(rest);
      while bytes + |item.bytes| > maxBytes
        invariant Valid() && n <= |rest| && View() == Lru(rest[n..], maxBytes) && maxBytes == c.max
        invariant Excess(rest, |item.bytes|, maxBytes) == n + Excess(rest[n..], |item.bytes|, maxBytes)
        invariant evicted == Ids(Keys(rest[..n])) && key !in entries
        decreases |rest| - n
      {
        hide *;
        Opened();
        BytesNone();
        ExcessStep(rest, n, |item.bytes|, maxBytes);
        assert rest[n..][1..] == rest[n + 1..] && rest[n..][0] == rest[n];
        IdsGrow(rest, n);
        var oldest := EvictOldest();
        if oldest.None? {
          break;
        }
        evicted := evicted + [oldest.value];
        n := n + 1;
      }
      Opened();
      PoppedThenStored(c, key, item, n);
      Pushed(order, entries, key, item);
      BytesJoin(rest[n..], [(key, item)]);
      BytesOne(key, item);
      bytes := bytes + |item.bytes|;
      entries := entries[key := item];
      order := order + [key];
      Closed();
      stored := true;
    }

    method Resize(max: nat) returns (evicted: seq<TrackId>)
      requires Valid()
      modifies this
      ensures Valid()
      ensures var (keys, c) := Shrink(old(View()), max); evicted == Ids(keys) && View() == c
    {
      hide *;
      ghost var c := View();
      Opened();
      maxBytes := max;
      Closed();
      evicted := [];
      ghost var n := 0;
      assert c.entries[0..] == c.entries;
      IdsNone(c.entries);
      while bytes > maxBytes
        invariant Valid() && n <= |c.entries| && View() == Lru(c.entries[n..], max) && maxBytes == max
        invariant Excess(c.entries, 0, max) == n + Excess(c.entries[n..], 0, max)
        invariant evicted == Ids(Keys(c.entries[..n]))
        decreases |c.entries| - n
      {
        hide *;
        Opened();
        BytesNone();
        ExcessStep(c.entries, n, 0, max);
        assert c.entries[n..][1..] == c.entries[n + 1..] && c.entries[n..][0] == c.entries[n];
        IdsGrow(c.entries, n);
        var oldest := EvictOldest();
        if oldest.None? {
          break;
        }
        evicted := evicted + [oldest.value];
        n := n + 1;
      }
      Opened();
      PoppedForSize(c, max, n);
    }
  }

  // ---- Tracks of the browser client: one map that keeps its insertion order ----

  /** Setting a present key keeps its place; a new key goes last. */
  function MapSet(entries: seq<(Key, Item)>, k: Key, item: Item): seq<(Key, Item)> {
    if entries == [] then [(k, item)]
    else if entries[0].0 == k then [(k, item)] + entries[1..]
    else [entries[0]] + MapSet(entries[1..], k, item)
  }

  lemma {:induction false} MapSetNew(entries: seq<(Key, Item)>, k: Key, item: Item)
    requires forall e :: e in entries ==> e.0 != k
    ensures MapSet(entries, k, item) == entries + [(k, item)]
  {
    if entries != [] {
      MapSetNew(entries[1..], k, item);
    }
  }

  lemma FirstEntry(entries: seq<(Key, Item)>)
    requires entries != [] && Distinct(entries)
    ensures Find(entries, entries[0].0) == Some(entries[0].1)
    ensures Without(entries, entries[0].0) == entries[1..]
    ensures Bytes(entries) == |entries[0].1.bytes| + Bytes(entries[1..])
  {
    WithoutAbsent(entries[1..], entries[0].0);
  }

  lemma DistinctFrom(entries: seq<(Key, Item)>, n: nat)
    requires Distinct(entries) && n <= |entries|
    ensures Distinct(entries[n..])
  {
  }

  lemma NoneHits(c: Lru, k: Key)
    ensures Find(c.entries, k).None? ==> Hit(c, k) == (None, c)
    ensures Find(c.entries, k).Some? ==>
              Hit(c, k) == (Find(c.entries, k), Lru(Without(c.entries, k) + [(k, Find(c.entries, k).value)], c.max))
  {
  }

  lemma SetStores(entries: seq<(Key, Item)>, k: Key, item: Item)
    requires Distinct(entries) && forall e :: e in entries ==> e.0 != k
    ensures MapSet(entries, k, item) == entries + [(k, item)] && Distinct(entries + [(k, item)])
    ensures Bytes(entries + [(k, item)]) == Bytes(entries) + |item.bytes|
  {
    MapSetNew(entries, k, item);
    AppendDistinct(entries, k, item);
    BytesJoin(entries, [(k, item)]);
    BytesOne(k, item);
  }

  lemma WithoutDistinct(entries: seq<(Key, Item)>, k: Key)
    requires Distinct(entries)
    ensures Distinct(Without(entries, k)) && forall e :: e in Without(entries, k) ==> e.0 != k
    ensures Find(entries, k).None? ==> Bytes(Without(entries, k)) == Bytes(entries)
    ensures Find(entries, k).Some? ==>
              Bytes(Without(entries, k)) + |Find(entries, k).value.bytes| == Bytes(entries)
  {
    WithoutFacts(entries, k);
    WithoutBytes(entries, k);
  }

  class TrackMemoryCache {
    var maxBytes: nat
    var entries: seq<(Key, Item)>
    var bytes: int

    ghost predicate Valid()
      reads this
    {
      Distinct(entries) && bytes == Bytes(entries)
    }

    ghost function View(): Lru
      reads this
      requires Valid()
    {
      Lru(entries, maxBytes)
    }

    lemma Opened()
      requires Valid()
      ensures Distinct(entries) && bytes == Bytes(entries) && View() == Lru(entries, maxBytes)
    {
    }

    lemma Closed()
      requires Distinct(entries) && bytes == Bytes(entries)
      ensures Valid() && View() == Lru(entries, maxBytes)
    {
    }

    constructor (maxBytes: nat)
      ensures Valid() && View() == Lru([], maxBytes)
    {
      this.maxBytes := maxBytes;
      entries, bytes := [], 0;
    }

    method Get(id: Key) returns (blob: Option<Item>)
      requires Valid()
      modifies this`entries
      ensures Valid() && View() == Hit(old(View()), id).1 && blob == Hit(old(View()), id).0
    {
      hide *;
      Opened();
      NoneHits(Lru(entries, maxBytes), id);
      blob := Find(entries, id);
      if blob.None? {
        return;
      }
      WithoutDistinct(entries, id);
      SetStores(Without(entries, id), id, blob.value);
      entries := Without(entries, id);
      entries := MapSet(entries, id, blob.value);
      Closed();
    }

    /** The first key of the map goes while the rest and `need` more bytes do not fit. */
    method EvictFor(need: nat, ghost start: seq<(Key, Item)>) returns (ghost n: nat)
      requires Valid() && entries == start
      modifies this`entries, this`bytes
      ensures Valid() && n <= |start| && entries == start[n..]
      ensures need <= maxBytes ==> bytes + need <= maxBytes
      ensures Excess(start, need, maxBytes) == n + Excess(start[n..], need, maxBytes)
    {
      hide *;
      n := 0;
      assert start[0..] == start;
      while bytes + need > maxBytes
        invariant Valid() && n <= |start| && entries == start[n..]
        invariant Excess(start, need, maxBytes) == n + Excess(start[n..], need, maxBytes)
        decreases |start| - n
      {
        hide *;
        Opened();
        BytesNone();
        if entries == [] {
          break;
        }
        FirstEntry(entries);
        ExcessStep(start, n, need, maxBytes);
        DistinctFrom(entries, 1);
        assert start[n..][1..] == start[n + 1..];
        var oldest := entries[0].0;
        var evicted := Find(entries, oldest);
        entries := Without(entries, oldest);
        if evicted.Some? {
          bytes := bytes - |evicted.value.bytes|;
        }
        Closed();
        n := n + 1;
      }
    }

    method Set(id: Key, blob: Item) returns (stored: bool)
      requires Valid()
      modifies this`entries, this`bytes
      ensures Valid()
      ensures stored == Store(old(View()), id, blob).0 && View() == Store(old(View()), id, blob).2
    {
      hide *;
      ghost var c := View();
      Opened();
      if |blob.bytes| <= 0 || |blob.bytes| > maxBytes {
        Refused(c, id, blob);
        return false;
      }
      WithoutDistinct(entries, id);
      var previous := Find(entries, id);
      if previous.Some? {
        bytes := bytes - |previous.value.bytes|;
      }
      entries := Without(entries, id);
      Closed();
      ghost var rest := entries;
      ghost var n := EvictFor(|blob.bytes|, rest);
      Opened();
      PoppedThenStored(c, id, blob, n);
      SetStores(entries, id, blob);
      entries := MapSet(entries, id, blob);
      bytes := bytes + |blob.bytes|;
      Closed();
      stored := true;
    }

    method Clear()
      requires Valid()
      modifies this`entries, this`bytes
      ensures Valid() && View() == Lru([], maxBytes)
    {
      entries, bytes := [], 0;
    }

    method Resize(max: nat)
      requires Valid()
      modifies this
      ensures Valid() && View() == Shrink(old(View()), max).1
    {
      hide *;
      ghost var c := View();
      Opened();
      maxBytes := max;
      Closed();
      ghost var n := EvictFor(0, entries);
      Opened();
      PoppedForSize(c, max, n);
    }
  }
}
