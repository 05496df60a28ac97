/** The chunked byte store of one track (NativeAudioCache.kt, class MemoryTrack). */
module MemoryTracks {
  // The store is a map from chunk index to a chunk array; the lemmas and contracts here speak of the
  // flat view `Bytes()`, in which an absent chunk reads as None at each of its positions.

  import opened Wrappers

  type Byte = bv8

  const CHUNK_BYTES: nat := 0x10_0000

  type FlatView = seq<Option<Byte>>

  /** Position p lies in a chunk that a write of n bytes at pos has to create or fill. */
  predicate Touched(p: nat, pos: nat, n: nat) {
    n > 0 && pos / CHUNK_BYTES <= p / CHUNK_BYTES <= (pos + n - 1) / CHUNK_BYTES
  }

  /** The flat view after writing `data` at `pos`. A chunk allocated on the way is zero-filled elsewhere. */
  function Written(v: FlatView, pos: nat, data: seq<Byte>): FlatView {
    seq(|v|, p requires 0 <= p < |v| =>
      if pos <= p < pos + |data| then Some(data[p - pos])
      else if v[p].None? && Touched(p, pos, |data|) then Some(0)
      else v[p])
  }

  /** Every byte of [pos, pos + n) is in an allocated chunk. */
  predicate Readable(v: FlatView, pos: nat, n: nat)
    requires pos + n <= |v|
  {
    forall p :: pos <= p < pos + n ==> v[p].Some?
  }

  lemma TouchedJoin(p: nat, pos: nat, n: nat, m: nat)
    requires n > 0 && m > 0
    ensures Touched(p, pos, n + m) <==> Touched(p, pos, n) || Touched(p, pos + n, m)
  {
  }

  /** Writing in two pieces is writing the concatenation. */
  lemma WrittenJoin(v: FlatView, pos: nat, a: seq<Byte>, b: seq<Byte>)
    ensures Written(Written(v, pos, a), pos + |a|, b) == Written(v, pos, a + b)
  {
    if a == [] {
      assert a + b == b;
      assert Written(v, pos, a) == v;
    } else if b == [] {
      assert a + b == a;
    } else {
      forall p | 0 <= p < |v|
        ensures Written(Written(v, pos, a), pos + |a|, b)[p] == Written(v, pos, a + b)[p]
      {
        TouchedJoin(p, pos, |a|, |b|);
      }
    }
  }

  /** The bytes of [pos, pos + n). */
  function Slice(v: FlatView, pos: nat, n: nat): (s: seq<Byte>)
    requires pos + n <= |v| && Readable(v, pos, n)
    ensures |s| == n
  {
    seq(n, i requires 0 <= i < n => v[pos + i].value)
  }

  lemma SliceJoin(v: FlatView, pos: nat, n: nat, m: nat)
    requires pos + n + m <= |v| && Readable(v, pos, n) && Readable(v, pos + n, m)
    ensures Readable(v, pos, n + m)
    ensures Slice(v, pos, n + m) == Slice(v, pos, n) + Slice(v, pos + n, m)
  {
  }

  /** `base` with the bytes from `at` on replaced by `data`. */
  function Spliced(base: seq<Byte>, at: nat, data: seq<Byte>): (r: seq<Byte>)
    requires at + |data| <= |base|
    ensures |r| == |base|
  {
    base[..at] + data + base[at + |data|..]
  }

  lemma SplicedJoin(base: seq<Byte>, at: nat, a: seq<Byte>, b: seq<Byte>)
    requires at + |a| + |b| <= |base|
    ensures Spliced(Spliced(base, at, a), at + |a|, b) == Spliced(base, at, a + b)
  {
  }

  /** The library's copyInto, from a chunk. */
  method CopyInto(source: seq<Byte>, target: array<Byte>, targetOffset: nat, from: nat, to: nat)
    requires from <= to <= |source| && targetOffset + (to - from) <= target.Length
    modifies target
    ensures target[..] == Spliced(old(target[..]), targetOffset, source[from..to])
  {
    forall i | 0 <= i < to - from {
      target[targetOffset + i] := source[from + i];
    }
  }

  // ---- The chunk map and its flat view ----

  type ChunkMap = map<nat, seq<Byte>>

  /** The length the source gives chunk k. */
  function ChunkSize(size: nat, k: nat): int {
    Min(CHUNK_BYTES, size - k * CHUNK_BYTES)
  }

  predicate ChunksFit(cm: ChunkMap, size: nat) {
    forall k :: k in cm ==> k * CHUNK_BYTES < size && |cm[k]| == ChunkSize(size, k)
  }

  function At(cm: ChunkMap, size: nat, p: nat): Option<Byte>
    requires ChunksFit(cm, size) && p < size
  {
    var k := p / CHUNK_BYTES;
    if k in cm then Some(cm[k][p % CHUNK_BYTES]) else None
  }

  function Flat(cm: ChunkMap, size: nat): (v: FlatView)
    requires ChunksFit(cm, size)
    ensures |v| == size
  {
    seq(size, p requires 0 <= p < size => At(cm, size, p))
  }

  /** The chunk a write into chunk k starts from: the stored one, or a zeroed one. */
  function OrZeroed(cm: ChunkMap, size: nat, k: nat): seq<Byte>
    requires k * CHUNK_BYTES < size
  {
    if k in cm then cm[k] else seq(ChunkSize(size, k), _ => 0)
  }

  lemma PutFits(cm: ChunkMap, size: nat, k: nat, chunk: seq<Byte>)
    requires ChunksFit(cm, size) && k * CHUNK_BYTES < size && |chunk| == ChunkSize(size, k)
    ensures ChunksFit(cm[k := chunk], size)
  {
  }

  lemma ZeroedSize(cm: ChunkMap, size: nat, k: nat)
    requires ChunksFit(cm, size) && k * CHUNK_BYTES < size
    ensures |OrZeroed(cm, size, k)| == ChunkSize(size, k)
  {
  }

  lemma WriteOneChunk(cm: ChunkMap, size: nat, pos: nat, data: seq<Byte>, cm': ChunkMap)
    requires ChunksFit(cm, size) && ChunksFit(cm', size) && pos + |data| <= size && 0 < |data|
    requires pos % CHUNK_BYTES + |data| <= ChunkSize(size, pos / CHUNK_BYTES)
    requires cm' == cm[pos / CHUNK_BYTES := Spliced(OrZeroed(cm, size, pos / CHUNK_BYTES), pos % CHUNK_BYTES, data)]
    ensures Flat(cm', size) == Written(Flat(cm, size), pos, data)
  {
    var k, o := pos / CHUNK_BYTES, pos % CHUNK_BYTES;
    forall p | 0 <= p < size
      ensures At(cm', size, p) == Written(Flat(cm, size), pos, data)[p]
    {
      if p / CHUNK_BYTES == k {
        assert p - pos == p % CHUNK_BYTES - o;
      }
    }
  }

  /** A chunk has room for a byte at p, and Write starts from what is stored there. */
  lemma WriteRoom(cm: ChunkMap, size: nat, p: nat)
    requires ChunksFit(cm, size) && p < size
    ensures var k, o := p / CHUNK_BYTES, p % CHUNK_BYTES;
            && k * CHUNK_BYTES < size && o < |OrZeroed(cm, size, k)|
            && OrZeroed(cm, size, k) == if k in cm then cm[k] else seq(Min(CHUNK_BYTES, size - k * CHUNK_BYTES), _ => 0)
  {
    ZeroedSize(cm, size, p / CHUNK_BYTES);
  }

  lemma WrittenNothing(start: FlatView, position: nat, src: seq<Byte>, offset: nat)
    requires offset <= |src|
    ensures Written(start, position, src[offset..offset]) == start
  {
  }

  lemma SubseqJoin(src: seq<Byte>, offset: nat, n: nat, m: nat)
    requires offset + n + m <= |src|
    ensures src[offset..offset + n] + src[offset + n..offset + n + m] == src[offset..offset + n + m]
  {
  }

  /** A pass of the copy loop: m more bytes of src, in one chunk. */
  lemma WritePass(start: FlatView, position: nat, src: seq<Byte>, offset: nat, n: nat, m: nat,
                  cm: ChunkMap, size: nat, cm': ChunkMap)
    requires ChunksFit(cm, size) && position + n + m <= size && 0 < m && offset + n + m <= |src|
    requires Flat(cm, size) == Written(start, position, src[offset..offset + n])
    requires var k, o := (position + n) / CHUNK_BYTES, (position + n) % CHUNK_BYTES;
             && o + m <= |OrZeroed(cm, size, k)|
             && cm' == cm[k := Spliced(OrZeroed(cm, size, k), o, src[offset + n..offset + n + m])]
    ensures ChunksFit(cm', size)
    ensures Flat(cm', size) == Written(start, position, src[offset..offset + n + m])
  {
    hide Flat, Written, ChunksFit, OrZeroed, ChunkSize, Spliced;
    var k, o := (position + n) / CHUNK_BYTES, (position + n) % CHUNK_BYTES;
    ZeroedSize(cm, size, k);
    PutFits(cm, size, k, Spliced(OrZeroed(cm, size, k), o, src[offset + n..offset + n + m]));
    var done, piece := src[offset..offset + n], src[offset + n..offset + n + m];
    WriteOneChunk(cm, size, position + n, piece, cm');
    WrittenJoin(start, position, done, piece);
    SubseqJoin(src, offset, n, m);
  }

  lemma ChunkRoom(cm: ChunkMap, size: nat, p: nat)
    requires ChunksFit(cm, size) && p < size && p / CHUNK_BYTES in cm
    ensures p % CHUNK_BYTES < |cm[p / CHUNK_BYTES]|
  {
  }

  lemma ReadOneChunk(cm: ChunkMap, size: nat, pos: nat, n: nat)
    requires ChunksFit(cm, size) && pos < size && pos / CHUNK_BYTES in cm
    requires pos % CHUNK_BYTES + n <= ChunkSize(size, pos / CHUNK_BYTES)
    ensures pos + n <= size && Readable(Flat(cm, size), pos, n)
    ensures cm[pos / CHUNK_BYTES][pos % CHUNK_BYTES..pos % CHUNK_BYTES + n] == Slice(Flat(cm, size), pos, n)
  {
    var k, o := pos / CHUNK_BYTES, pos % CHUNK_BYTES;
    forall p | pos <= p < pos + n
      ensures p < size && Flat(cm, size)[p] == Some(cm[k][o + (p - pos)])
    {
      assert p / CHUNK_BYTES == k;
    }
  }

  lemma ChunkMissing(cm: ChunkMap, size: nat, pos: nat, n: nat, p: nat)
    requires ChunksFit(cm, size) && pos <= p < pos + n <= size && p / CHUNK_BYTES !in cm
    ensures !Readable(Flat(cm, size), pos, n)
  {
    assert Flat(cm, size)[p].None?;
  }

  /** `now` is `was` with n bytes from `pos` copied in at `offset`. */
  ghost predicate ReadSoFar(v: FlatView, pos: nat, n: nat, was: seq<Byte>, offset: nat, now: seq<Byte>) {
    pos + n <= |v| && offset + n <= |was| && Readable(v, pos, n) && now == Spliced(was, offset, Slice(v, pos, n))
  }

  lemma ReadNothing(cm: ChunkMap, size: nat, pos: nat, was: seq<Byte>, offset: nat)
    requires ChunksFit(cm, size) && pos <= size && offset <= |was|
    ensures ReadSoFar(Flat(cm, size), pos, 0, was, offset, was)
  {
  }

  lemma ReadAll(v: FlatView, pos: nat, n: nat, was: seq<Byte>, offset: nat, now: seq<Byte>)
    requires ReadSoFar(v, pos, n, was, offset, now)
    ensures pos + n <= |v| && offset + n <= |was| && Readable(v, pos, n)
    ensures now == Spliced(was, offset, Slice(v, pos, n))
  {
  }

  /** A pass of the read loop: m more bytes, from one chunk. */
  lemma ReadPass(cm: ChunkMap, size: nat, pos: nat, n: nat, m: nat, was: seq<Byte>, offset: nat, before: seq<Byte>,
                 after: seq<Byte>)
    requires ChunksFit(cm, size) && ReadSoFar(Flat(cm, size), pos, n, was, offset, before)
    requires pos + n < size && offset + n + m <= |was|
    requires var k, o := (pos + n) / CHUNK_BYTES, (pos + n) % CHUNK_BYTES;
             k in cm && o + m <= |cm[k]| && after == Spliced(before, offset + n, cm[k][o..o + m])
    ensures ReadSoFar(Flat(cm, size), pos, n + m, was, offset, after)
  {
    var v := Flat(cm, size);
    ReadOneChunk(cm, size, pos + n, m);
    SliceJoin(v, pos, n, m);
    SplicedJoin(was, offset, Slice(v, pos, n), Slice(v, pos + n, m));
  }

  class MemoryTrack {
    const size: nat
    var chunks: map<nat, seq<Byte>>

    ghost predicate Valid()
      reads this
    {
      ChunksFit(chunks, size)
    }

    /** What the track stores at each position. */
    ghost function Bytes(): FlatView
      requires Valid()
      reads this
    {
      Flat(chunks, size)
    }

    constructor (size: nat)
      ensures this.size == size && Valid()
      ensures Bytes() == seq(size, p => None)
    {
      this.size := size;
      this.chunks := map[];
    }

    method Write(position: nat, source: array<Byte>, offset: nat, length: nat)
      requires Valid()
      requires position + length <= size && offset + length <= source.Length
      modifies this
      ensures Valid()
      ensures Bytes() == Written(old(Bytes()), position, source[offset..offset + length])
    {
      hide Flat, Written, ChunksFit, Spliced, OrZeroed, ChunkSize, Valid, Bytes;
      var sourceOffset, targetPosition, remaining := offset, position, length;
      ghost var start, src, done: nat := Bytes(), source[..], 0;
      Opened();
      WrittenNothing(start, position, src, offset);
      while remaining > 0
        invariant 0 <= remaining && done == length - remaining
        invariant sourceOffset == offset + done && targetPosition == position + done
        invariant ChunksFit(chunks, size)
        invariant Flat(chunks, size) == Written(start, position, src[offset..offset + done])
      {
        hide Flat, Written, ChunksFit, Spliced, OrZeroed, ChunkSize, Valid, Bytes;
        var chunkIndex := targetPosition / CHUNK_BYTES;
        var chunkOffset := targetPosition % CHUNK_BYTES;
        var chunkStart := chunkIndex * CHUNK_BYTES;
        WriteRoom(chunks, size, targetPosition);
        var chunkSize := Min(CHUNK_BYTES, size - chunkStart);
        ghost var before := chunks;
        var chunk := if chunkIndex in chunks then chunks[chunkIndex] else seq(chunkSize, _ => 0);
        var copied := Min(remaining, |chunk| - chunkOffset);
        assert source[sourceOffset..sourceOffset + copied] == src[sourceOffset..sourceOffset + copied];
        chunks := chunks[chunkIndex := Spliced(chunk, chunkOffset, source[sourceOffset..sourceOffset + copied])];
        WritePass(start, position, src, offset, done, copied, before, size, chunks);
        done := done + copied;
        sourceOffset := sourceOffset + copied;
        targetPosition := targetPosition + copied;
        remaining := remaining - copied;
      }
      assert src[offset..offset + length] == source[offset..offset + length];
      Opened();
    }

    lemma Opened()
      ensures Valid() <==> ChunksFit(chunks, size)
      ensures Valid() ==> Bytes() == Flat(chunks, size)
    {
    }

    /** The copy loop of Read for a positive count. */
    method ReadLoop(position: nat, target: array<Byte>, offset: nat, requested: nat) returns (complete: bool)
      requires Valid() && position + requested <= size && offset + requested <= target.Length
      modifies target
      ensures complete <==> Readable(Bytes(), position, requested)
      ensures complete ==> ReadSoFar(Bytes(), position, requested, old(target[..]), offset, target[..])
    {
      hide ReadSoFar, Flat, Spliced, ChunksFit, Slice, Readable, ChunkSize, Valid, Bytes;
      Opened();
      var targetOffset, sourcePosition, remaining := offset, position, requested;
      ghost var cm, was, done: nat := chunks, target[..], 0;
      ReadNothing(cm, size, position, was, offset);
      while remaining > 0
        invariant 0 <= remaining && done == requested - remaining
        invariant targetOffset == offset + done && sourcePosition == position + done
        invariant ReadSoFar(Flat(cm, size), position, done, was, offset, target[..])
      {
        hide ReadSoFar, Flat, Spliced, ChunksFit, Slice, Readable, ChunkSize, Valid, Bytes;
        var chunkIndex := sourcePosition / CHUNK_BYTES;
        var chunkOffset := sourcePosition % CHUNK_BYTES;
        if chunkIndex !in chunks {
          ChunkMissing(cm, size, position, requested, sourcePosition);
          return false;
        }
        ChunkRoom(cm, size, sourcePosition);
        var chunk := chunks[chunkIndex];
        var copied := Min(remaining, |chunk| - chunkOffset);
        ghost var now := target[..];
        CopyInto(chunk, target, targetOffset, chunkOffset, chunkOffset + copied);
        ReadPass(cm, size, position, done, copied, was, offset, now, target[..]);
        done := done + copied;
        targetOffset := targetOffset + copied;
        sourcePosition := sourcePosition + copied;
        remaining := remaining - copied;
      }
      ReadAll(Flat(cm, size), position, requested, was, offset, target[..]);
      complete := true;
    }

    /** Copies min(length, size - position) bytes into `target`; None is the error "incomplete memory track". */
    method Read(position: nat, target: array<Byte>, offset: nat, length: nat) returns (r: Option<int>)
      requires Valid() && offset + length <= target.Length
      modifies target
      ensures var n := Min(length, size - position);
              if n <= 0 then r == Some(n) && target[..] == old(target[..])
              else if !Readable(Bytes(), position, n) then r == None
              else r == Some(n) && target[..] == Spliced(old(target[..]), offset, Slice(Bytes(), position, n))
    {
      var requested := Min(length, size - position);
      if requested > 0 {
        var complete := ReadLoop(position, target, offset, requested);
        if !complete {
          return None;
        }
        ReadAll(Bytes(), position, requested, old(target[..]), offset, target[..]);
      }
      r := Some(requested);
    }
  }
}
