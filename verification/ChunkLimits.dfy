/** What the senders cut and what the receivers refuse, whatever the other side sends. */
module ChunkLimits {
  import opened Wrappers
  import opened ChunkedBridge

  lemma InRange(i: nat, length: nat, size: nat)
    requires size > 0 && i < ChunkCount(length, size)
    ensures i * size < length
  {
    var n := ChunkCount(length, size);
    assert i * size <= (n - 1) * size == n * size - size by {
      Scaled(i, n - 1, size);
    }
  }

  /** A chunk is its slice of 24 Ki characters of a request and of 64 Ki of a reply, and knows how many there are. */
  lemma PiecesAre(raw: string, id: string, i: nat)
    ensures i < ChunkCount(|raw|, REQUEST_CHUNK_CHARS) ==>
              && i * 24_576 < |raw|
              && PieceOf(raw, REQUEST_CHUNK_CHARS, id, i)
                 == Chunk(id, i, (|raw| + 24_575) / 24_576, raw[i * 24_576..Min((i + 1) * 24_576, |raw|)])
    ensures i < ChunkCount(|raw|, REPLY_CHUNK_CHARS) ==>
              && i * 65_536 < |raw|
              && PieceOf(raw, REPLY_CHUNK_CHARS, id, i)
                 == Chunk(id, i, (|raw| + 65_535) / 65_536, raw[i * 65_536..Min((i + 1) * 65_536, |raw|)])
  {
    if i < ChunkCount(|raw|, REQUEST_CHUNK_CHARS) {
      InRange(i, |raw|, REQUEST_CHUNK_CHARS);
    }
    if i < ChunkCount(|raw|, REPLY_CHUNK_CHARS) {
      InRange(i, |raw|, REPLY_CHUNK_CHARS);
    }
  }

  /** A malformed chunk changes nothing and yields nothing. */
  lemma MalformedIgnored(blank: string -> bool, open: Open, c: Chunk)
    ensures blank(c.id) || c.total > 1024 || c.index < 0 || c.index >= c.total ==>
              Receive(AppRules(blank), open, c) == (open, None)
    ensures c.id == "" || c.index < 0 || c.index >= c.total ==> Receive(WebRules(), open, c) == (open, None)
  {
    ReceiveCases(AppRules(blank), open, c);
    ReceiveCases(WebRules(), open, c);
    hide Receive;
  }

  // ---- Any arrivals ----

  /** The characters of every open transfer are counted. */
  ghost predicate CharsCounted(open: Open) {
    forall id :: id in open ==> |Join(open[id].parts)| == open[id].chars
  }

  lemma {:induction false} JoinFilled(parts: seq<Option<string>>, i: nat, data: string)
    requires i < |parts| && parts[i].None?
    ensures |Join(parts[i := Some(data)])| == |Join(parts)| + |data|
  {
    var parts' := parts[i := Some(data)];
    var n := |parts| - 1;
    if i == n {
      assert parts'[..n] == parts[..n];
    } else {
      assert parts'[..n] == parts[..n][i := Some(data)];
      JoinFilled(parts[..n], i, data);
    }
  }

  lemma {:induction false} JoinNone(total: nat)
    ensures Join(Started(total).parts) == "" && |Started(total).parts| == total && Started(total).chars == 0
  {
    if total > 0 {
      JoinNone(total - 1);
      assert Started(total).parts[..total - 1] == Started(total - 1).parts;
    }
  }

  /** Whatever chunks arrive, the app is never handed a longer message. */
  lemma StepLimited(blank: string -> bool, open: Open, c: Chunk)
    requires CharsCounted(open)
    ensures var (open', message) := Receive(AppRules(blank), open, c);
            CharsCounted(open') && (message.Some? ==> |message.value| <= 25_165_824)
  {
    hide Receive, Join, Started;
    ReceiveCases(AppRules(blank), open, c);
    if Admitted(AppRules(blank), c) {
      JoinNone(c.total);
      var open' := if c.id in open then open else open[c.id := Started(c.total)];
      var t := open'[c.id];
      if |t.parts| == c.total && t.parts[c.index].None? {
        JoinFilled(t.parts, c.index, c.data);
      }
    }
  }

  lemma {:induction false} NeverTooLong(blank: string -> bool, open: Open, arrivals: seq<Chunk>)
    requires CharsCounted(open)
    ensures forall d :: d in Deliveries(AppRules(blank), open, arrivals) ==> |d.1| <= 25_165_824
    decreases |arrivals|
  {
    hide Receive, CharsCounted;
    if arrivals != [] {
      StepLimited(blank, open, arrivals[0]);
      NeverTooLong(blank, Receive(AppRules(blank), open, arrivals[0]).0, arrivals[1..]);
    }
  }
}
