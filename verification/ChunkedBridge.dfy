/** The message channel between the web player and the Android app: long messages travel as numbered chunks that may
    arrive in any order, mixed with other transfers and repeated (native.js, MainActivity.kt).

    Both directions use the same splitting and reassembly with different sizes; the app's receiver also limits the
    number of chunks and of characters. A run is any sequence of arriving chunks. Chunks of other transfers may be
    arbitrary, even malformed; the results speak of one transfer whose own chunks come from one message. */
module ChunkedBridge {
  import opened Wrappers

  datatype Chunk = Chunk(id: string, index: int, total: int, data: string)

  /** What is sent: a whole message or one of its chunks. */
  datatype Post = Whole(raw: string) | Piece(chunk: Chunk)

  datatype Transfer = Transfer(parts: seq<Option<string>>, received: nat, chars: nat)

  /** What a receiver refuses: blank names, and, in the app, too many chunks or characters. */
  datatype Rules = Rules(blank: string -> bool, maxChunks: Option<nat>, maxChars: Option<nat>)

  const REQUEST_CHUNK_CHARS: nat := 24 * 1024
  const REPLY_CHUNK_CHARS: nat := 64 * 1024
  const MAX_REQUEST_CHUNKS: nat := 1024
  const MAX_REQUEST_CHARS: nat := 24 * 1024 * 1024

  /** The app's rules for requests. */
  function AppRules(blank: string -> bool): Rules {
    Rules(blank, Some(MAX_REQUEST_CHUNKS), Some(MAX_REQUEST_CHARS))
  }

  /** The web player's rules for replies and events: only the empty name is refused. */
  function WebRules(): Rules {
    Rules(id => id == "", None, None)
  }

  // ---- Splitting ----

  function ChunkCount(length: nat, size: nat): nat
    requires size > 0
  {
    (length + size - 1) / size
  }

  function PartEnd(raw: string, size: nat, i: nat): (end: nat)
    ensures end <= |raw|
  {
    if i * size < |raw| then i * size else |raw|
  }

  function Part(raw: string, size: nat, i: nat): string {
    var start := PartEnd(raw, size, i);
    raw[start..if start + size < |raw| then start + size else |raw|]
  }

  function PieceOf(raw: string, size: nat, id: string, i: nat): Chunk
    requires size > 0
  {
    Chunk(id, i, ChunkCount(|raw|, size), Part(raw, size, i))
  }

  lemma EndsRise(raw: string, size: nat, i: nat)
    ensures PartEnd(raw, size, i) <= PartEnd(raw, size, i + 1)
    ensures Part(raw, size, i) == raw[PartEnd(raw, size, i)..PartEnd(raw, size, i + 1)]
  {
    assert (i + 1) * size == i * size + size;
  }

  /** The last part ends the message, and no earlier one does. */
  lemma LastEnd(raw: string, size: nat)
    requires size > 0
    ensures PartEnd(raw, size, ChunkCount(|raw|, size)) == |raw|
    ensures forall i: nat :: i < ChunkCount(|raw|, size) ==> i * size < |raw|
  {
    var n := ChunkCount(|raw|, size);
    var r := (|raw| + size - 1) % size;
    assert |raw| + size - 1 == n * size + r;
    forall i: nat | i < n ensures i * size < |raw| {
      assert i * size <= (n - 1) * size == n * size - size by {
        Scaled(i, n - 1, size);
      }
    }
  }

  lemma Scaled(a: nat, b: nat, size: nat)
    requires a <= b
    ensures a * size <= b * size
  {
  }

  /** A message fits the app's two limits exactly up to 24 MiB. */
  lemma RequestFits(length: nat)
    ensures ChunkCount(length, REQUEST_CHUNK_CHARS) <= 1024 <==> length <= 25_165_824
  {
  }

  // ---- Receiving ----

  function Join(parts: seq<Option<string>>): string {
    if parts == [] then []
    else Join(parts[..|parts| - 1]) + (match parts[|parts| - 1] case None => [] case Some(data) => data)
  }

  predicate Admitted(rules: Rules, c: Chunk) {
    && !rules.blank(c.id)
    && 1 <= c.total
    && (rules.maxChunks.Some? ==> c.total <= rules.maxChunks.value)
    && 0 <= c.index < c.total
  }

  function Started(total: nat): Transfer {
    Transfer(seq(total, i => None), 0, 0)
  }

  /** One chunk at one transfer's place: what is kept there, and the message it completes. */
  function Accept(rules: Rules, slot: Option<Transfer>, c: Chunk): (Option<Transfer>, Option<string>) {
    if !Admitted(rules, c) then (slot, None)
    else
      var t := if slot.Some? then slot.value else Started(c.total);
      if |t.parts| != c.total || t.parts[c.index].Some? then (Some(t), None)
      else
        var t' := Filled(t, c.index, c.data);
        if rules.maxChars.Some? && t'.chars > rules.maxChars.value then (None, None)
        else if t'.received != c.total then (Some(t'), None)
        else (None, Some(Join(t'.parts)))
  }

  function Filled(t: Transfer, index: nat, data: string): Transfer
    requires index < |t.parts|
  {
    Transfer(t.parts[index := Some(data)], t.received + 1, t.chars + |data|)
  }

  type Open = map<string, Transfer>

  function SlotOf(open: Open, id: string): Option<Transfer> {
    if id in open then Some(open[id]) else None
  }

  function WithSlot(open: Open, id: string, slot: Option<Transfer>): Open {
    match slot
    case None => open - {id}
    case Some(t) => open[id := t]
  }

  function Receive(rules: Rules, open: Open, c: Chunk): (Open, Option<string>) {
    var (slot, message) := Accept(rules, SlotOf(open, c.id), c);
    (WithSlot(open, c.id, slot), message)
  }

  /** The same step in terms of the whole table. */
  lemma ReceiveCases(rules: Rules, open: Open, c: Chunk)
    ensures !Admitted(rules, c) ==> Receive(rules, open, c) == (open, None)
    ensures Admitted(rules, c) ==>
              var open' := if c.id in open then open else open[c.id := Started(c.total)];
              var t := open'[c.id];
              && 0 <= c.index < c.total
              && (|t.parts| != c.total || t.parts[c.index].Some? ==> Receive(rules, open, c) == (open', None))
              && (|t.parts| == c.total && t.parts[c.index].None? ==>
                    var t' := Filled(t, c.index, c.data);
                    Receive(rules, open, c)
                    == if rules.maxChars.Some? && t'.chars > rules.maxChars.value
                       then (open'[c.id := t'] - {c.id}, None)
                       else if t'.received != c.total then (open'[c.id := t'], None)
                       else (open'[c.id := t'] - {c.id}, Some(Join(t'.parts))))
  {
    if !Admitted(rules, c) {
      if c.id in open {
        assert open[c.id := open[c.id]] == open;
      } else {
        assert open - {c.id} == open;
      }
    } else {
      var open' := if c.id in open then open else open[c.id := Started(c.total)];
      var t := open'[c.id];
      assert open'[c.id := t] == open' && open[c.id := t] == open';
      if |t.parts| == c.total {
        var t' := Filled(t, c.index, c.data);
        assert open'[c.id := t'] == open[c.id := t'];
        assert open'[c.id := t'] - {c.id} == open - {c.id};
      }
    }
  }

  /** The messages reassembled over a run, each with its transfer. */
  function Deliveries(rules: Rules, open: Open, arrivals: seq<Chunk>): seq<(string, string)>
    decreases |arrivals|
  {
    if arrivals == [] then []
    else
      var (open', message) := Receive(rules, open, arrivals[0]);
      (match message case None => [] case Some(raw) => [(arrivals[0].id, raw)])
        + Deliveries(rules, open', arrivals[1..])
  }

  function Named(deliveries: seq<(string, string)>, id: string): seq<string> {
    if deliveries == [] then []
    else (if deliveries[0].0 == id then [deliveries[0].1] else []) + Named(deliveries[1..], id)
  }

  // ---- The transfer as a set of seen numbers ----

  predicate Full(seen: set<nat>, count: nat) {
    forall i: nat :: i < count ==> i in seen
  }

  function PartsSeen(raw: string, size: nat, seen: set<nat>, n: nat): (parts: seq<Option<string>>)
    ensures |parts| == n
  {
    seq(n, i requires i >= 0 => if i in seen then Some(Part(raw, size, i)) else None)
  }

  function CharsSeen(raw: string, size: nat, seen: set<nat>, n: nat): nat {
    if n == 0 then 0 else CharsSeen(raw, size, seen, n - 1) + if n - 1 in seen then |Part(raw, size, n - 1)| else 0
  }

  /** The transfer once the chunks of these numbers have come. */
  function SlotSeen(raw: string, size: nat, seen: set<nat>): Option<Transfer>
    requires size > 0
  {
    if seen == {} then None
    else
      var n := ChunkCount(|raw|, size);
      Some(Transfer(PartsSeen(raw, size, seen, n), |seen|, CharsSeen(raw, size, seen, n)))
  }

  /** How often the numbers seen become complete; each time the transfer starts over. */
  function Rounds(seen: set<nat>, indexes: seq<nat>, count: nat): nat
    decreases |indexes|
  {
    if indexes == [] then 0
    else if indexes[0] in seen then Rounds(seen, indexes[1..], count)
    else if Full(seen + {indexes[0]}, count) then 1 + Rounds({}, indexes[1..], count)
    else Rounds(seen + {indexes[0]}, indexes[1..], count)
  }

  /** The numbers of a transfer's chunks as they arrive. */
  function IndexesOf(arrivals: seq<Chunk>, id: string): seq<nat> {
    if arrivals == [] then []
    else
      (if arrivals[0].id == id && arrivals[0].index >= 0 then [arrivals[0].index] else [])
      + IndexesOf(arrivals[1..], id)
  }

  function Copies(raw: string, n: nat): seq<string> {
    if n == 0 then [] else [raw] + Copies(raw, n - 1)
  }

  /** All parts in order are the message. */
  lemma {:induction false} JoinPrefix(raw: string, size: nat, seen: set<nat>, n: nat)
    requires forall i: nat :: i < n ==> i in seen
    ensures Join(PartsSeen(raw, size, seen, n)) == raw[..PartEnd(raw, size, n)]
  {
    if n > 0 {
      JoinPrefix(raw, size, seen, n - 1);
      EndsRise(raw, size, n - 1);
      var parts := PartsSeen(raw, size, seen, n);
      assert parts[..n - 1] == PartsSeen(raw, size, seen, n - 1);
      assert parts[n - 1] == Some(Part(raw, size, n - 1));
    }
  }

  /** Parts seen once each never hold more than the message. */
  lemma {:induction false} CharsBound(raw: string, size: nat, seen: set<nat>, n: nat)
    ensures CharsSeen(raw, size, seen, n) <= PartEnd(raw, size, n)
  {
    if n > 0 {
      CharsBound(raw, size, seen, n - 1);
      EndsRise(raw, size, n - 1);
    }
  }

  lemma {:induction false} CharsAdd(raw: string, size: nat, seen: set<nat>, i: nat, n: nat)
    requires i !in seen
    ensures CharsSeen(raw, size, seen + {i}, n)
            == CharsSeen(raw, size, seen, n) + if i < n then |Part(raw, size, i)| else 0
  {
    if n > 0 {
      CharsAdd(raw, size, seen, i, n - 1);
    }
  }

  lemma {:induction false} CharsNone(raw: string, size: nat, n: nat)
    ensures CharsSeen(raw, size, {}, n) == 0
  {
    if n > 0 {
      CharsNone(raw, size, n - 1);
    }
  }

  lemma PartsAdd(raw: string, size: nat, seen: set<nat>, i: nat, n: nat)
    requires i < n
    ensures PartsSeen(raw, size, seen, n)[i := Some(Part(raw, size, i))] == PartsSeen(raw, size, seen + {i}, n)
    ensures PartsSeen(raw, size, seen, n)[i].Some? <==> i in seen
  {
  }

  function Below(n: nat): (below: set<nat>)
    ensures forall i: nat :: i in below <==> i < n
  {
    if n == 0 then {} else Below(n - 1) + {n - 1}
  }

  lemma {:induction false} BelowSize(n: nat)
    ensures |Below(n)| == n
  {
    if n > 0 {
      BelowSize(n - 1);
      assert Below(n) == Below(n - 1) + {n - 1};
    } else {
      assert Below(n) == {};
    }
  }

  lemma {:induction false} SubsetSize(a: set<nat>, b: set<nat>)
    requires a <= b
    ensures |a| <= |b| && (|a| == |b| ==> a == b)
  {
    if a != {} {
      var x :| x in a;
      SubsetSize(a - {x}, b - {x});
    }
  }

  /** Counting the parts tells exactly when all are there. */
  lemma FullByCount(seen: set<nat>, count: nat)
    requires seen <= Below(count)
    ensures |seen| == count <==> Full(seen, count)
  {
    BelowSize(count);
    SubsetSize(seen, Below(count));
    if Full(seen, count) {
      assert seen == Below(count);
    }
  }

  predicate Fits(rules: Rules, raw: string, size: nat, id: string)
    requires size > 0
  {
    && raw != ""
    && !rules.blank(id)
    && (rules.maxChunks.Some? ==> ChunkCount(|raw|, size) <= rules.maxChunks.value)
    && (rules.maxChars.Some? ==> |raw| <= rules.maxChars.value)
  }

  /** The transfer a receiver goes on with, whether or not it had one. */
  lemma SlotTransfer(raw: string, size: nat, seen: set<nat>)
    requires size > 0
    ensures var n := ChunkCount(|raw|, size);
            var slot := SlotSeen(raw, size, seen);
            (if slot.Some? then slot.value else Started(n))
            == Transfer(PartsSeen(raw, size, seen, n), |seen|, CharsSeen(raw, size, seen, n))
  {
    hide ChunkCount, CharsSeen, Part;
    var n := ChunkCount(|raw|, size);
    assert Started(n).parts == PartsSeen(raw, size, {}, n);
    CharsNone(raw, size, n);
  }

  lemma PieceAdmitted(rules: Rules, raw: string, size: nat, id: string, i: nat)
    requires size > 0 && Fits(rules, raw, size, id) && i < ChunkCount(|raw|, size)
    ensures Admitted(rules, PieceOf(raw, size, id, i))
  {
    hide ChunkCount, Part;
  }

  lemma AcceptPart(rules: Rules, slot: Option<Transfer>, c: Chunk)
    requires Admitted(rules, c)
    ensures 0 <= c.index < c.total
    ensures var t := if slot.Some? then slot.value else Started(c.total);
            |t.parts| == c.total ==>
              Accept(rules, slot, c)
              == if t.parts[c.index].Some? then (Some(t), None)
                 else if rules.maxChars.Some? && t.chars + |c.data| > rules.maxChars.value then (None, None)
                 else if t.received + 1 == c.total then (None, Some(Join(t.parts[c.index := Some(c.data)])))
                 else (Some(Transfer(t.parts[c.index := Some(c.data)], t.received + 1, t.chars + |c.data|)), None)
  {
    hide Started, Join;
  }

  /** One more part is kept whole: it stays within the limit of characters, and the last one completes the message. */
  lemma OneMorePart(rules: Rules, raw: string, size: nat, id: string, seen: set<nat>, i: nat)
    requires size > 0 && Fits(rules, raw, size, id)
    requires i < ChunkCount(|raw|, size) && seen <= Below(ChunkCount(|raw|, size)) && i !in seen
    ensures var n := ChunkCount(|raw|, size);
            && CharsSeen(raw, size, seen, n) + |Part(raw, size, i)| == CharsSeen(raw, size, seen + {i}, n) <= |raw|
            && (|seen| + 1 == n <==> Full(seen + {i}, n))
            && (Full(seen + {i}, n) ==> Join(PartsSeen(raw, size, seen + {i}, n)) == raw)
  {
    hide *;
    var n := ChunkCount(|raw|, size);
    CharsAdd(raw, size, seen, i, n);
    CharsBound(raw, size, seen + {i}, n);
    FullByCount(seen + {i}, n);
    LastEnd(raw, size);
    if Full(seen + {i}, n) {
      AllIn(seen + {i}, n);
      JoinPrefix(raw, size, seen + {i}, n);
      assert raw[..|raw|] == raw;
    }
  }

  lemma AllIn(seen: set<nat>, n: nat)
    requires Full(seen, n)
    ensures forall i: nat :: i < n ==> i in seen
  {
  }

  lemma SlotMore(raw: string, size: nat, seen: set<nat>, i: nat)
    requires size > 0 && i !in seen
    ensures var n := ChunkCount(|raw|, size);
            SlotSeen(raw, size, seen + {i})
            == Some(Transfer(PartsSeen(raw, size, seen + {i}, n), |seen| + 1, CharsSeen(raw, size, seen + {i}, n)))
  {
    hide ChunkCount, CharsSeen, PartsSeen;
  }

  lemma CharsFit(rules: Rules, raw: string, size: nat, id: string)
    requires size > 0 && Fits(rules, raw, size, id)
    ensures rules.maxChars.Some? ==> |raw| <= rules.maxChars.value
  {
  }

  lemma PieceFields(raw: string, size: nat, id: string, i: nat)
    requires size > 0
    ensures PieceOf(raw, size, id, i) == Chunk(id, i, ChunkCount(|raw|, size), Part(raw, size, i))
  {
  }

  lemma SlotKept(raw: string, size: nat, seen: set<nat>)
    requires size > 0 && seen != {}
    ensures SlotSeen(raw, size, seen).Some?
  {
  }

  /** A receiver that follows one transfer knows exactly the numbers seen; the chunk that completes them yields the
      message itself. */
  lemma AcceptSeen(rules: Rules, raw: string, size: nat, id: string, seen: set<nat>, i: nat)
    requires size > 0 && Fits(rules, raw, size, id)
    requires i < ChunkCount(|raw|, size) && seen <= Below(ChunkCount(|raw|, size))
    requires !Full(seen, ChunkCount(|raw|, size))
    ensures var n := ChunkCount(|raw|, size);
            Accept(rules, SlotSeen(raw, size, seen), PieceOf(raw, size, id, i))
            == if i in seen then (SlotSeen(raw, size, seen), None)
               else if Full(seen + {i}, n) then (None, Some(raw))
               else (SlotSeen(raw, size, seen + {i}), None)
  {
    hide *;
    var n := ChunkCount(|raw|, size);
    PieceFields(raw, size, id, i);
    PieceAdmitted(rules, raw, size, id, i);
    SlotTransfer(raw, size, seen);
    AcceptPart(rules, SlotSeen(raw, size, seen), PieceOf(raw, size, id, i));
    PartsAdd(raw, size, seen, i, n);
    if i in seen {
      SlotKept(raw, size, seen);
    } else {
      CharsFit(rules, raw, size, id);
      SlotMore(raw, size, seen, i);
      OneMorePart(rules, raw, size, id, seen, i);
    }
  }

  // ---- Whole runs ----

  /** Every arrival under this name is a chunk of this message; other names are arbitrary. */
  predicate Honest(raw: string, size: nat, id: string, arrivals: seq<Chunk>)
    requires size > 0
  {
    forall k :: 0 <= k < |arrivals| && arrivals[k].id == id ==>
      0 <= arrivals[k].index < ChunkCount(|raw|, size) && arrivals[k] == PieceOf(raw, size, id, arrivals[k].index)
  }

  lemma HonestRest(raw: string, size: nat, id: string, arrivals: seq<Chunk>)
    requires size > 0 && arrivals != [] && Honest(raw, size, id, arrivals)
    ensures Honest(raw, size, id, arrivals[1..])
    ensures arrivals[0].id == id ==>
              0 <= arrivals[0].index < ChunkCount(|raw|, size) &&
                arrivals[0] == PieceOf(raw, size, id, arrivals[0].index)
  {
    forall k | 0 <= k < |arrivals[1..]| && arrivals[1..][k].id == id
      ensures 0 <= arrivals[1..][k].index < ChunkCount(|raw|, size)
      ensures arrivals[1..][k] == PieceOf(raw, size, id, arrivals[1..][k].index)
    {
      assert arrivals[1..][k] == arrivals[k + 1];
    }
  }

  lemma NotFullAtStart(raw: string, size: nat)
    requires size > 0 && raw != ""
    ensures !Full({}, ChunkCount(|raw|, size)) && SlotSeen(raw, size, {}) == None
    ensures {} <= Below(ChunkCount(|raw|, size))
  {
    var n := ChunkCount(|raw|, size);
    assert |raw| + size - 1 == size * n + (|raw| + size - 1) % size;
    var none: set<nat> := {};
    assert 0 < n && 0 !in none && !Full(none, n);
  }

  lemma NamedFirst(first: seq<(string, string)>, rest: seq<(string, string)>, id: string)
    requires |first| <= 1
    ensures Named(first + rest, id) == (if first != [] && first[0].0 == id then [first[0].1] else []) + Named(rest, id)
  {
    if first == [] {
      assert first + rest == rest;
    } else {
      assert (first + rest)[1..] == rest;
    }
  }

  lemma ReceiveSlots(rules: Rules, open: Open, c: Chunk, id: string)
    ensures var (open', message) := Receive(rules, open, c);
            && (c.id != id ==> SlotOf(open', id) == SlotOf(open, id))
            && (c.id == id ==> Accept(rules, SlotOf(open, id), c) == (SlotOf(open', id), message))
  {
    hide Accept;
  }

  lemma FirstDelivery(rules: Rules, open: Open, arrivals: seq<Chunk>, id: string)
    requires arrivals != []
    ensures var (open', message) := Receive(rules, open, arrivals[0]);
            && Named(Deliveries(rules, open, arrivals), id)
               == (if arrivals[0].id == id && message.Some? then [message.value] else [])
                  + Named(Deliveries(rules, open', arrivals[1..]), id)
            && (arrivals[0].id != id ==> SlotOf(open', id) == SlotOf(open, id))
            && (arrivals[0].id == id ==> Accept(rules, SlotOf(open, id), arrivals[0]) == (SlotOf(open', id), message))
  {
    hide Accept, Receive, Named, SlotOf;
    var (open', message) := Receive(rules, open, arrivals[0]);
    var first := match message case None => [] case Some(raw) => [(arrivals[0].id, raw)];
    NamedFirst(first, Deliveries(rules, open', arrivals[1..]), id);
    ReceiveSlots(rules, open, arrivals[0], id);
  }

  /** Whatever else arrives in between, a transfer yields its own message, once for each time its chunks are all
      there. */
  lemma {:induction false} DeliveredRounds(rules: Rules, raw: string, size: nat, id: string, open: Open, seen: set<nat>,
      arrivals: seq<Chunk>)
    requires size > 0 && Fits(rules, raw, size, id) && Honest(raw, size, id, arrivals)
    requires seen <= Below(ChunkCount(|raw|, size)) && !Full(seen, ChunkCount(|raw|, size))
    requires SlotOf(open, id) == SlotSeen(raw, size, seen)
    ensures Named(Deliveries(rules, open, arrivals), id)
            == Copies(raw, Rounds(seen, IndexesOf(arrivals, id), ChunkCount(|raw|, size)))
    decreases |arrivals|
  {
    hide Fits, Honest, Accept, SlotSeen, Deliveries, Named, Full, ChunkCount, PieceOf, Receive, SlotOf, Part;
    var n := ChunkCount(|raw|, size);
    if arrivals == [] {
      NoDeliveries(rules, open, id);
    } else {
      HonestRest(raw, size, id, arrivals);
      FirstDelivery(rules, open, arrivals, id);
      var (open', message) := Receive(rules, open, arrivals[0]);
      var indexes := IndexesOf(arrivals, id);
      if arrivals[0].id == id {
        var i := arrivals[0].index;
        AcceptSeen(rules, raw, size, id, seen, i);
        assert indexes[0] == i && indexes[1..] == IndexesOf(arrivals[1..], id);
        FitsNotFull(rules, raw, size, id);
        var seen' := if i in seen then seen else if Full(seen + {i}, n) then {} else seen + {i};
        DeliveredRounds(rules, raw, size, id, open', seen', arrivals[1..]);
      } else {
        assert indexes == IndexesOf(arrivals[1..], id);
        DeliveredRounds(rules, raw, size, id, open', seen, arrivals[1..]);
      }
    }
  }

  lemma NoDeliveries(rules: Rules, open: Open, id: string)
    ensures Named(Deliveries(rules, open, []), id) == []
  {
  }

  lemma FitsNotFull(rules: Rules, raw: string, size: nat, id: string)
    requires size > 0 && Fits(rules, raw, size, id)
    ensures !Full({}, ChunkCount(|raw|, size)) && SlotSeen(raw, size, {}) == None
    ensures {} <= Below(ChunkCount(|raw|, size))
  {
    NotFullAtStart(raw, size);
  }

  function SetOf(indexes: seq<nat>): (all: set<nat>)
    ensures forall i: nat :: i in all <==> i in indexes
  {
    if indexes == [] then {} else {indexes[0]} + SetOf(indexes[1..])
  }

  /** With a chunk missing the count never completes; it completes once when only the last arrival fills the last
      gap. */
  lemma {:induction false} RoundsOf(seen: set<nat>, indexes: seq<nat>, count: nat)
    requires !Full(seen, count)
    ensures !Full(seen + SetOf(indexes), count) ==> Rounds(seen, indexes, count) == 0
    ensures Full(seen + SetOf(indexes), count) ==> Rounds(seen, indexes, count) >= 1
    ensures indexes != [] && Full(seen + SetOf(indexes), count) && !Full(seen + SetOf(indexes[..|indexes| - 1]), count)
            ==> Rounds(seen, indexes, count) == 1
    decreases |indexes|
  {
    if indexes == [] {
      assert seen + SetOf(indexes) == seen;
    } else {
      var i := indexes[0];
      var rest := indexes[1..];
      assert seen + SetOf(indexes) == (seen + {i}) + SetOf(rest);
      if |indexes| == 1 {
        assert indexes[..0] == [] && rest == [];
        assert seen + SetOf(indexes[..0]) == seen;
        if i in seen {
          assert seen + {i} == seen;
        }
      } else {
        assert indexes[..|indexes| - 1][0] == i && indexes[..|indexes| - 1][1..] == rest[..|rest| - 1];
        assert seen + SetOf(indexes[..|indexes| - 1]) == (seen + {i}) + SetOf(rest[..|rest| - 1]);
        if i in seen {
          assert seen + {i} == seen;
          RoundsOf(seen, rest, count);
        } else if !Full(seen + {i}, count) {
          RoundsOf(seen + {i}, rest, count);
        }
      }
    }
  }

  lemma NothingOpen(id: string)
    ensures SlotOf(map[], id) == None
  {
  }

  /** Every arrival order, interleaving with other transfers and repetition before completion reassembles exactly the
      message that was split, once; nothing is handed on while a chunk is missing. */
  lemma RoundTrip(rules: Rules, raw: string, size: nat, id: string, arrivals: seq<Chunk>)
    requires size > 0 && Fits(rules, raw, size, id) && Honest(raw, size, id, arrivals)
    ensures var count := ChunkCount(|raw|, size);
            var indexes := IndexesOf(arrivals, id);
            var messages := Named(Deliveries(rules, map[], arrivals), id);
            && (forall m :: m in messages ==> m == raw)
            && (messages != [] <==> Full(SetOf(indexes), count))
            && (Full(SetOf(indexes), count) && indexes != [] && !Full(SetOf(indexes[..|indexes| - 1]), count) ==>
                messages == [raw])
  {
    hide *;
    var count := ChunkCount(|raw|, size);
    var indexes := IndexesOf(arrivals, id);
    FitsNotFull(rules, raw, size, id);
    NothingOpen(id);
    DeliveredRounds(rules, raw, size, id, map[], {}, arrivals);
    RoundsOf({}, indexes, count);
    assert {} + SetOf(indexes) == SetOf(indexes);
    if indexes != [] {
      assert {} + SetOf(indexes[..|indexes| - 1]) == SetOf(indexes[..|indexes| - 1]);
    }
    AllCopies(raw, Rounds({}, indexes, count));
  }

  lemma {:induction false} AllCopies(raw: string, n: nat)
    ensures |Copies(raw, n)| == n && (forall m :: m in Copies(raw, n) ==> m == raw)
    ensures n == 1 ==> Copies(raw, n) == [raw]
  {
    if n > 0 {
      AllCopies(raw, n - 1);
    }
  }

  /** A request beyond 24 MiB is never handed on, whatever arrives. */
  lemma {:induction false} RequestTooLong(blank: string -> bool, raw: string, id: string, open: Open,
                                          arrivals: seq<Chunk>)
    requires |raw| > 25_165_824 && Honest(raw, REQUEST_CHUNK_CHARS, id, arrivals)
    requires id !in open
    ensures Named(Deliveries(AppRules(blank), open, arrivals), id) == []
    decreases |arrivals|
  {
    if arrivals != [] {
      HonestRest(raw, REQUEST_CHUNK_CHARS, id, arrivals);
      FirstDelivery(AppRules(blank), open, arrivals, id);
      RequestFits(|raw|);
      var (open', message) := Receive(AppRules(blank), open, arrivals[0]);
      hide Honest, Deliveries, Named, ChunkCount;
      RequestTooLong(blank, raw, id, open', arrivals[1..]);
    }
  }

  /** So a chunked request whose chunks all arrive reaches the app exactly when it has at most 24 MiB characters. */
  lemma RequestReaches(blank: string -> bool, raw: string, id: string, arrivals: seq<Chunk>)
    requires !blank(id) && raw != "" && Honest(raw, REQUEST_CHUNK_CHARS, id, arrivals)
    requires Full(SetOf(IndexesOf(arrivals, id)), ChunkCount(|raw|, REQUEST_CHUNK_CHARS))
    ensures var messages := Named(Deliveries(AppRules(blank), map[], arrivals), id);
            && (messages != [] <==> |raw| <= 25_165_824)
            && (forall m :: m in messages ==> m == raw)
  {
    RequestFits(|raw|);
    if |raw| <= MAX_REQUEST_CHARS {
      RoundTrip(AppRules(blank), raw, REQUEST_CHUNK_CHARS, id, arrivals);
    } else {
      RequestTooLong(blank, raw, id, map[], arrivals);
    }
    hide Honest, Deliveries, Named, Full, SetOf, ChunkCount;
  }

  /** Replies have no limit. */
  lemma ReplyReaches(raw: string, id: string, arrivals: seq<Chunk>)
    requires id != "" && raw != "" && Honest(raw, REPLY_CHUNK_CHARS, id, arrivals)
    requires Full(SetOf(IndexesOf(arrivals, id)), ChunkCount(|raw|, REPLY_CHUNK_CHARS))
    ensures var messages := Named(Deliveries(WebRules(), map[], arrivals), id);
            messages != [] && forall m :: m in messages ==> m == raw
  {
    RoundTrip(WebRules(), raw, REPLY_CHUNK_CHARS, id, arrivals);
    hide Honest, Deliveries, Named, Full, SetOf, ChunkCount;
  }

  // ---- The senders ----

  /** Short requests, and all requests to an app that cannot take chunks, go whole; others as numbered chunks. */
  method PostRequest(raw: string, id: string, chunksSupported: bool) returns (posts: seq<Post>)
    ensures !chunksSupported || |raw| <= REQUEST_CHUNK_CHARS ==> posts == [Whole(raw)]
    ensures chunksSupported && |raw| > REQUEST_CHUNK_CHARS ==>
              && |posts| == ChunkCount(|raw|, REQUEST_CHUNK_CHARS)
              && forall i :: 0 <= i < |posts| ==> posts[i] == Piece(PieceOf(raw, REQUEST_CHUNK_CHARS, id, i))
  {
    if !chunksSupported || |raw| <= REQUEST_CHUNK_CHARS {
      return [Whole(raw)];
    }
    posts := PostChunks(raw, REQUEST_CHUNK_CHARS, id);
  }

  method PostReply(raw: string, id: string) returns (posts: seq<Post>)
    ensures |raw| <= REPLY_CHUNK_CHARS ==> posts == [Whole(raw)]
    ensures |raw| > REPLY_CHUNK_CHARS ==>
              && |posts| == ChunkCount(|raw|, REPLY_CHUNK_CHARS)
              && forall i :: 0 <= i < |posts| ==> posts[i] == Piece(PieceOf(raw, REPLY_CHUNK_CHARS, id, i))
  {
    if |raw| <= REPLY_CHUNK_CHARS {
      return [Whole(raw)];
    }
    posts := PostChunks(raw, REPLY_CHUNK_CHARS, id);
  }

  /** Both senders' loop: slice `index` runs from `index * size` to the next one or the end. */
  method PostChunks(raw: string, size: nat, id: string) returns (posts: seq<Post>)
    requires size > 0
    ensures |posts| == ChunkCount(|raw|, size)
    ensures forall i :: 0 <= i < |posts| ==> posts[i] == Piece(PieceOf(raw, size, id, i))
  {
    var total := (|raw| + size - 1) / size;
    LastEnd(raw, size);
    posts := [];
    for index := 0 to total
      invariant |posts| == index
      invariant forall i :: 0 <= i < index ==> posts[i] == Piece(PieceOf(raw, size, id, i))
    {
      var start := index * size;
      var end := if start + size < |raw| then start + size else |raw|;
      posts := posts + [Piece(Chunk(id, index, total, raw[start..end]))];
    }
  }

  // ---- The receivers ----

  class IncomingTransfer {
    const parts: array<Option<string>>
    var received: nat
    var chars: nat

    constructor (total: nat)
      ensures fresh(parts) && View() == Started(total)
    {
      parts := new Option<string>[total](_ => None);
      received, chars := 0, 0;
    }

    ghost function View(): Transfer
      reads this, parts
    {
      Transfer(parts[..], received, chars)
    }

    method Put(index: nat, data: string)
      requires index < parts.Length
      modifies this, parts
      ensures View() == Transfer(old(View()).parts[index := Some(data)], old(View()).received + 1,
                                 old(View()).chars + |data|)
    {
      parts[index] := Some(data);
      received := received + 1;
      chars := chars + |data|;
    }

    method Joined() returns (raw: string)
      ensures raw == Join(View().parts)
    {
      raw := "";
      for i := 0 to parts.Length
        invariant raw == Join(parts[..i])
      {
        assert parts[..i + 1][..i] == parts[..i] && parts[..i + 1][i] == parts[i];
        match parts[i]
        case None =>
        case Some(data) => raw := raw + data;
      }
      assert parts[..parts.Length] == parts[..];
    }
  }

  /** The app's request receiver under AppRules, the web player's under WebRules. */
  class Receiver {
    const rules: Rules
    var incoming: map<string, IncomingTransfer>

    ghost function Objects(): set<object>
      reads this
    {
      (set id | id in incoming :: incoming[id]) + (set id | id in incoming :: incoming[id].parts)
    }

    ghost predicate Valid()
      reads this
    {
      forall a, b :: a in incoming && b in incoming && a != b ==>
        incoming[a] != incoming[b] && incoming[a].parts != incoming[b].parts
    }

    ghost function View(): Open
      reads this, Objects()
    {
      map id | id in incoming :: incoming[id].View()
    }

    constructor (rules: Rules)
      ensures Valid() && View() == map[] && this.rules == rules && Objects() == {}
    {
      this.rules := rules;
      incoming := map[];
    }

    /** The transfer of this name, started when there is none. */
    method StartedFor(id: string, total: nat) returns (transfer: IncomingTransfer)
      requires Valid()
      modifies this`incoming
      ensures Valid() && id in incoming && incoming[id] == transfer && fresh(Objects() - old(Objects()))
      ensures View() == if id in old(View()) then old(View()) else old(View())[id := Started(total)]
    {
      if id !in incoming {
        transfer := new IncomingTransfer(total);
        incoming := incoming[id := transfer];
      }
      transfer := incoming[id];
    }

    method Fill(id: string, index: nat, data: string)
      requires Valid() && id in incoming && index < incoming[id].parts.Length
      modifies incoming[id], incoming[id].parts
      ensures Valid() && id in View() && Objects() == old(Objects())
      ensures View() == old(View())[id := Filled(old(View())[id], index, data)]
    {
      incoming[id].Put(index, data);
    }

    method Forget(id: string)
      requires Valid()
      modifies this`incoming
      ensures Valid() && View() == old(View()) - {id} && Objects() <= old(Objects())
    {
      incoming := incoming - {id};
    }

    /** A complete transfer leaves the table as its message. */
    method Take(id: string) returns (raw: string)
      requires Valid() && id in incoming
      modifies this`incoming
      ensures Valid() && View() == old(View()) - {id} && Objects() <= old(Objects())
      ensures id in old(View()) && raw == Join(old(View())[id].parts)
    {
      var transfer := incoming[id];
      Forget(id);
      raw := transfer.Joined();
    }

    /** One chunk message is one step of the receiver. */
    method ReceiveChunk(c: Chunk) returns (message: Option<string>)
      requires Valid()
      modifies this, Objects()
      ensures Valid() && fresh(Objects() - old(Objects()))
      ensures View() == Receive(rules, old(View()), c).0 && message == Receive(rules, old(View()), c).1
    {
      hide *;
      ghost var open := View();
      message := None;
      ReceiveCases(rules, open, c);
      if !Admitted(rules, c) {
        return;
      }
      var transfer := StartedFor(c.id, c.total);
      Seen(c.id);
      if transfer.parts.Length != c.total || transfer.parts[c.index] != None {
        return;
      }
      Fill(c.id, c.index, c.data);
      Seen(c.id);
      if rules.maxChars.Some? && transfer.chars > rules.maxChars.value {
        Forget(c.id);
        return;
      }
      if transfer.received != c.total {
        return;
      }
      var raw := Take(c.id);
      message := Some(raw);
    }

    lemma Seen(id: string)
      requires Valid() && id in incoming
      ensures id in View() && View()[id] == incoming[id].View()
      ensures View()[id] == Transfer(incoming[id].parts[..], incoming[id].received, incoming[id].chars)
      ensures incoming[id] in Objects() && incoming[id].parts in Objects()
    {
    }
  }
}
