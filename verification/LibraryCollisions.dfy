/** What colliding ids do to the library index: for every cut of the scan into chunks, exactly when the merged index is
    the sequential one, and a scan the source itself cuts badly. */
module LibraryCollisions {
  import opened Wrappers
  import opened LibraryIndex
  import opened LibraryMerge

  // ---- Labels and overwriting ----

  // The tracks that share a derived id are events, each with the label the id was derived from. The first event of a
  // label makes a new entry for the id and drops what an entry of another label has collected.

  function Labels<L(==), V>(es: seq<(L, V)>): set<L> {
    if es == [] then {} else Labels(es[..|es| - 1]) + {es[|es| - 1].0}
  }

  /** The events since the last new label: what the entry holds in the end. */
  function Kept<L(==), V>(es: seq<(L, V)>): (r: seq<(L, V)>)
    ensures |r| <= |es| && (r == [] <==> es == [])
  {
    if es == [] then []
    else
      var (rest, e) := (es[..|es| - 1], es[|es| - 1]);
      if e.0 in Labels(rest) then Kept(rest) + [e] else [e]
  }

  function Values<L, V>(es: seq<(L, V)>): (r: seq<V>)
    ensures |r| == |es|
  {
    if es == [] then [] else Values(es[..|es| - 1]) + [es[|es| - 1].1]
  }

  function Joined<L, V>(chunks: seq<seq<(L, V)>>): seq<(L, V)> {
    if chunks == [] then [] else Joined(chunks[..|chunks| - 1]) + chunks[|chunks| - 1]
  }

  /** What the chunks keep, each for itself. */
  function Survivors<L(==), V>(chunks: seq<seq<(L, V)>>): seq<(L, V)> {
    if chunks == [] then [] else Survivors(chunks[..|chunks| - 1]) + Kept(chunks[|chunks| - 1])
  }

  /** What the first chunk with the id keeps, and all events of the later ones. */
  function Compact<L(==), V>(chunks: seq<seq<(L, V)>>): seq<(L, V)> {
    if chunks == [] then []
    else
      var (rest, last) := (chunks[..|chunks| - 1], chunks[|chunks| - 1]);
      if Joined(rest) == [] then Kept(last) else Compact(rest) + last
  }

  /** No label first occurs in a chunk when an earlier chunk has its id already. */
  predicate Settled<L(==), V>(chunks: seq<seq<(L, V)>>) {
    forall j :: 0 <= j < |chunks| && Joined(chunks[..j]) != [] ==> Labels(chunks[j]) <= Labels(Joined(chunks[..j]))
  }

  lemma {:induction false} LabelsJoin<L, V>(a: seq<(L, V)>, b: seq<(L, V)>)
    ensures Labels(a + b) == Labels(a) + Labels(b)
    decreases |b|
  {
    if b == [] {
      assert a + b == a;
    } else {
      assert (a + b)[..|a + b| - 1] == a + b[..|b| - 1];
      LabelsJoin(a, b[..|b| - 1]);
    }
  }

  lemma {:induction false} ValuesJoin<L, V>(a: seq<(L, V)>, b: seq<(L, V)>)
    ensures Values(a + b) == Values(a) + Values(b)
    decreases |b|
  {
    if b == [] {
      assert a + b == a;
    } else {
      assert (a + b)[..|a + b| - 1] == a + b[..|b| - 1];
      ValuesJoin(a, b[..|b| - 1]);
    }
  }

  /** Events of known labels are appended; a new label starts over. */
  lemma {:induction false} KeptJoin<L, V>(a: seq<(L, V)>, b: seq<(L, V)>)
    requires a != []
    ensures Labels(b) <= Labels(a) ==> Kept(a + b) == Kept(a) + b
    ensures !(Labels(b) <= Labels(a)) ==> Kept(a + b)[0].0 !in Labels(a)
    decreases |b|
  {
    if b == [] {
      assert a + b == a;
    } else {
      var (rest, e) := (b[..|b| - 1], b[|b| - 1]);
      assert (a + b)[..|a + b| - 1] == a + rest && (a + b)[|a + b| - 1] == e;
      assert rest + [e] == b;
      KeptJoin(a, rest);
      LabelsJoin(a, rest);
    }
  }

  lemma {:induction false} HeadKnown<L, V>(es: seq<(L, V)>)
    requires es != []
    ensures Kept(es)[0].0 in Labels(es)
  {
    if Kept(es[..|es| - 1]) != [] {
      HeadKnown(es[..|es| - 1]);
    }
  }

  lemma SettledRest<L, V>(chunks: seq<seq<(L, V)>>)
    requires chunks != []
    ensures var (rest, last) := (chunks[..|chunks| - 1], chunks[|chunks| - 1]);
            Settled(chunks) <==> Settled(rest) && (Joined(rest) != [] ==> Labels(last) <= Labels(Joined(rest)))
  {
    var n := |chunks| - 1;
    assert forall j :: 0 <= j <= n ==> chunks[..n][..j] == chunks[..j];
    if Settled(chunks) {
      assert forall j :: 0 <= j < n ==> chunks[..n][j] == chunks[j];
    }
    hide Labels, Joined;
  }

  lemma {:induction false} SurvivorsFirst<L, V>(chunks: seq<seq<(L, V)>>)
    ensures Survivors(chunks) == [] <==> Joined(chunks) == []
    ensures Joined(chunks) != [] ==> Survivors(chunks)[0].0 in Labels(Joined(chunks))
  {
    if chunks != [] {
      var (rest, last) := (chunks[..|chunks| - 1], chunks[|chunks| - 1]);
      SurvivorsFirst(rest);
      LabelsJoin(Joined(rest), last);
      if last != [] {
        HeadKnown(last);
      }
      if Joined(rest) == [] {
        assert Survivors(chunks) == Kept(last);
      }
      hide Labels, Kept;
    }
  }

  /** The entry is that of the first chunk with the id exactly when the labels are settled. */
  lemma {:induction false} SettledIff<L, V>(chunks: seq<seq<(L, V)>>)
    requires Joined(chunks) != []
    ensures Survivors(chunks) != [] && Kept(Joined(chunks)) != []
    ensures Settled(chunks) <==> Kept(Joined(chunks))[0].0 == Survivors(chunks)[0].0
    ensures Settled(chunks) ==> Kept(Joined(chunks)) == Compact(chunks)
  {
    var (rest, last) := (chunks[..|chunks| - 1], chunks[|chunks| - 1]);
    SettledRest(chunks);
    SurvivorsFirst(chunks);
    SurvivorsFirst(rest);
    if Joined(rest) == [] {
      assert Joined(chunks) == last && Survivors(chunks) == Kept(last);
      SettledEmpty(rest);
    } else {
      SettledIff(rest);
      KeptJoin(Joined(rest), last);
      assert Survivors(chunks)[0] == Survivors(rest)[0];
    }
    hide Kept, Labels, Settled;
  }

  lemma {:induction false} SettledEmpty<L, V>(chunks: seq<seq<(L, V)>>)
    requires Joined(chunks) == []
    ensures Settled(chunks)
  {
    if chunks != [] {
      SettledRest(chunks);
      SettledEmpty(chunks[..|chunks| - 1]);
    }
  }

  // ---- The events of an artist, an album and a track ----

  function ArtistEvents(env: Env, xs: seq<Scanned>, r: Id): seq<(string, Id)>
    requires AllTagged(xs)
  {
    if xs == [] then []
    else
      var k := KeyOf(xs[|xs| - 1]);
      ArtistEvents(env, xs[..|xs| - 1], r) + if ArtistIdOf(env, k.0) == r then [(k.0, AlbumIdOf(env, k))] else []
  }

  function AlbumEvents(env: Env, xs: seq<Scanned>, a: Id): seq<(Key, Track)>
    requires AllTagged(xs)
  {
    if xs == [] then []
    else
      var x := xs[|xs| - 1];
      AlbumEvents(env, xs[..|xs| - 1], a) + if AlbumIdOf(env, KeyOf(x)) == a then [(KeyOf(x), TrackOf(env, x))] else []
  }

  /** The last track with an id. */
  function LastTrack(env: Env, xs: seq<Scanned>, t: Id): Option<Track>
    requires AllTagged(xs)
  {
    if xs == [] then None
    else
      var x := xs[|xs| - 1];
      if TrackIdOf(env, x) == t then Some(TrackOf(env, x)) else LastTrack(env, xs[..|xs| - 1], t)
  }

  function ArtistFrom(r: Id, kept: seq<(string, Id)>): Artist
    requires kept != []
  {
    Artist(r, kept[0].0, PushAllNew([], Values(kept)))
  }

  function Filled(env: Env, album: Album, tracks: seq<Track>): Album {
    if tracks == [] then album else Extend(env, Filled(env, album, tracks[..|tracks| - 1]), tracks[|tracks| - 1])
  }

  function AlbumFrom(env: Env, a: Id, kept: seq<(Key, Track)>): Album
    requires kept != []
  {
    Filled(env, NewAlbum(a, kept[0].0), Values(kept))
  }

  lemma TaggedRest(xs: seq<Scanned>)
    requires AllTagged(xs) && xs != []
    ensures AllTagged(xs[..|xs| - 1]) && xs[|xs| - 1].tags.Some?
  {
  }

  lemma {:induction false} ArtistLabels(env: Env, xs: seq<Scanned>, r: Id)
    requires AllTagged(xs)
    ensures forall n :: n in Labels(ArtistEvents(env, xs, r)) <==> n in Names(xs) && ArtistIdOf(env, n) == r
  {
    if xs != [] {
      var (rest, x) := (xs[..|xs| - 1], xs[|xs| - 1]);
      LastAdded(env, xs);
      ArtistLabels(env, rest, r);
      LabelsJoin(ArtistEvents(env, rest, r), [(KeyOf(x).0, AlbumIdOf(env, KeyOf(x)))]);
      LabelsOne((KeyOf(x).0, AlbumIdOf(env, KeyOf(x))));
      hide Labels, KeyOf, StableId, Names, Keys, Ids;
      assert ArtistEvents(env, rest, r) + [] == ArtistEvents(env, rest, r);
    }
  }

  lemma LabelsOne<L, V>(e: (L, V))
    ensures Labels([e]) == {e.0}
  {
    assert [e][..0] == [];
  }

  lemma {:induction false} AlbumLabels(env: Env, xs: seq<Scanned>, a: Id)
    requires AllTagged(xs)
    ensures forall k :: k in Labels(AlbumEvents(env, xs, a)) <==> k in Keys(xs) && AlbumIdOf(env, k) == a
  {
    if xs != [] {
      var (rest, x) := (xs[..|xs| - 1], xs[|xs| - 1]);
      LastAdded(env, xs);
      AlbumLabels(env, rest, a);
      LabelsJoin(AlbumEvents(env, rest, a), [(KeyOf(x), TrackOf(env, x))]);
      LabelsOne((KeyOf(x), TrackOf(env, x)));
      hide Labels, KeyOf, StableId, Names, Keys, Ids, TrackOf;
      assert AlbumEvents(env, rest, a) + [] == AlbumEvents(env, rest, a);
    }
  }

  // ---- What a builder holds after its tracks, colliding or not ----

  predicate Derived(env: Env, b: Builder) {
    && (forall n :: n in b.artistsByName ==> b.artistsByName[n] == ArtistIdOf(env, n))
    && (forall k :: k in b.albumsByKey ==> b.albumsByKey[k] == AlbumIdOf(env, k))
  }

  lemma ArtistAfterAdd(env: Env, b: Builder, x: Scanned, r: Id)
    requires x.tags.Some? && Consistent(b) && Derived(env, b)
    ensures var (k, artists) := (KeyOf(x), Add(env, b, x).artists);
            if ArtistIdOf(env, k.0) != r
            then (r in artists <==> r in b.artists) && (r in artists ==> artists[r] == b.artists[r])
            else
              && (k.0 in b.artistsByName ==> r in b.artists) && r in artists
              && artists[r] == if k.0 in b.artistsByName
                               then b.artists[r].(albumIds := PushNew(b.artists[r].albumIds, AlbumIdOf(env, k)))
                               else Artist(r, k.0, [AlbumIdOf(env, k)])
  {
    hide StableId, ArtistIdOf, AlbumIdOf, KeyOf, Extend, NewAlbum, Add, TrackOf;
    AddParts(env, b, x);
  }

  lemma AlbumAfterAdd(env: Env, b: Builder, x: Scanned, a: Id)
    requires x.tags.Some? && Consistent(b) && Derived(env, b)
    ensures var (k, albums) := (KeyOf(x), Add(env, b, x).albums);
            if AlbumIdOf(env, k) != a
            then (a in albums <==> a in b.albums) && (a in albums ==> albums[a] == b.albums[a])
            else
              && (k in b.albumsByKey ==> a in b.albums) && a in albums
              && albums[a] == Extend(env, if k in b.albumsByKey then b.albums[a] else NewAlbum(a, k), TrackOf(env, x))
  {
    hide StableId, ArtistIdOf, AlbumIdOf, KeyOf, Extend, NewAlbum, Add, TrackOf, WithArtist;
    AddParts(env, b, x);
    WithArtistAlbums(env, b, KeyOf(x).0);
  }

  lemma WithArtistAlbums(env: Env, b: Builder, name: string)
    requires Consistent(b)
    ensures var b1 := WithArtist(env, b, name).1; b1.albums == b.albums && b1.albumsByKey == b.albumsByKey
  {
  }

  lemma TracksAfterAdd(env: Env, b: Builder, x: Scanned)
    requires x.tags.Some? && Consistent(b)
    ensures Add(env, b, x).tracks == b.tracks[TrackIdOf(env, x) := TrackOf(env, x)]
  {
    AddParts(env, b, x);
    hide Add;
  }

  lemma SequentialFacts(env: Env, xs: seq<Scanned>)
    requires AllTagged(xs)
    ensures var b := Sequential(env, xs);
            && Consistent(b) && Derived(env, b) && b.artistsByName.Keys == Names(xs) && b.albumsByKey.Keys == Keys(xs)
  {
    Facts(env, xs);
    hide StableId, ArtistIdOf, AlbumIdOf, TrackFacts;
  }

  lemma SequentialLast(env: Env, xs: seq<Scanned>)
    requires AllTagged(xs) && xs != []
    ensures AllTagged(xs[..|xs| - 1]) && xs[|xs| - 1].tags.Some?
    ensures Sequential(env, xs) == Add(env, Sequential(env, xs[..|xs| - 1]), xs[|xs| - 1])
  {
    hide Add;
  }

  /** An artist holds the albums of its tracks since the last new name. */
  lemma {:induction false} ArtistBuilt(env: Env, xs: seq<Scanned>, r: Id)
    requires AllTagged(xs)
    ensures var (artists, es) := (Sequential(env, xs).artists, ArtistEvents(env, xs, r));
            (r in artists <==> es != []) && (es != [] ==> artists[r] == ArtistFrom(r, Kept(es)))
  {
    if xs != [] {
      var (rest, x) := (xs[..|xs| - 1], xs[|xs| - 1]);
      SequentialLast(env, xs);
      ArtistBuilt(env, rest, r);
      SequentialFacts(env, rest);
      ArtistAfterAdd(env, Sequential(env, rest), x, r);
      ArtistLabels(env, rest, r);
      ArtistGrows(env, xs, r);
      hide *;
      var k := KeyOf(x);
      if ArtistIdOf(env, k.0) == r {
        KeptArtist(r, ArtistEvents(env, rest, r), (k.0, AlbumIdOf(env, k)));
      }
    }
  }

  lemma ArtistGrows(env: Env, xs: seq<Scanned>, r: Id)
    requires AllTagged(xs) && xs != []
    ensures AllTagged(xs[..|xs| - 1]) && xs[|xs| - 1].tags.Some?
    ensures var (rest, k) := (xs[..|xs| - 1], KeyOf(xs[|xs| - 1]));
            ArtistEvents(env, xs, r)
            == if ArtistIdOf(env, k.0) == r then ArtistEvents(env, rest, r) + [(k.0, AlbumIdOf(env, k))]
               else ArtistEvents(env, rest, r)
  {
  }

  lemma KeptArtist(r: Id, es: seq<(string, Id)>, e: (string, Id))
    ensures e.0 in Labels(es) ==>
              es != [] && ArtistFrom(r, Kept(es + [e]))
                == ArtistFrom(r, Kept(es)).(albumIds := PushNew(ArtistFrom(r, Kept(es)).albumIds, e.1))
    ensures e.0 !in Labels(es) ==> ArtistFrom(r, Kept(es + [e])) == Artist(r, e.0, [e.1])
  {
    assert (es + [e])[..|es|] == es;
    ValuesOne(e);
    if e.0 in Labels(es) {
      ValuesJoin(Kept(es), [e]);
      assert (Values(Kept(es)) + [e.1])[..|Kept(es)|] == Values(Kept(es));
    } else {
      PushOne(e.1);
    }
  }

  lemma ValuesOne<L, V>(e: (L, V))
    ensures Values([e]) == [e.1]
  {
    assert [e][..0] == [];
  }

  lemma PushOne(id: Id)
    ensures PushAllNew([], [id]) == [id]
  {
    assert [id][..0] == [];
  }

  /** An album holds its tracks since the last new artist and title, one after the other. */
  lemma {:induction false} AlbumBuilt(env: Env, xs: seq<Scanned>, a: Id)
    requires AllTagged(xs)
    ensures var (albums, es) := (Sequential(env, xs).albums, AlbumEvents(env, xs, a));
            (a in albums <==> es != []) && (es != [] ==> albums[a] == AlbumFrom(env, a, Kept(es)))
  {
    if xs != [] {
      var (rest, x) := (xs[..|xs| - 1], xs[|xs| - 1]);
      SequentialLast(env, xs);
      AlbumBuilt(env, rest, a);
      SequentialFacts(env, rest);
      AlbumAfterAdd(env, Sequential(env, rest), x, a);
      AlbumLabels(env, rest, a);
      AlbumGrows(env, xs, a);
      hide *;
      if AlbumIdOf(env, KeyOf(x)) == a {
        KeptAlbum(env, a, AlbumEvents(env, rest, a), (KeyOf(x), TrackOf(env, x)));
      }
    }
  }

  lemma AlbumGrows(env: Env, xs: seq<Scanned>, a: Id)
    requires AllTagged(xs) && xs != []
    ensures AllTagged(xs[..|xs| - 1]) && xs[|xs| - 1].tags.Some?
    ensures var (rest, x) := (xs[..|xs| - 1], xs[|xs| - 1]);
            AlbumEvents(env, xs, a)
            == if AlbumIdOf(env, KeyOf(x)) == a then AlbumEvents(env, rest, a) + [(KeyOf(x), TrackOf(env, x))]
               else AlbumEvents(env, rest, a)
  {
  }

  lemma KeptAlbum(env: Env, a: Id, es: seq<(Key, Track)>, e: (Key, Track))
    ensures e.0 in Labels(es) ==>
              es != [] && AlbumFrom(env, a, Kept(es + [e])) == Extend(env, AlbumFrom(env, a, Kept(es)), e.1)
    ensures e.0 !in Labels(es) ==> AlbumFrom(env, a, Kept(es + [e])) == Extend(env, NewAlbum(a, e.0), e.1)
  {
    assert (es + [e])[..|es|] == es;
    ValuesOne(e);
    if e.0 in Labels(es) {
      ValuesJoin(Kept(es), [e]);
      assert (Values(Kept(es)) + [e.1])[..|Kept(es)|] == Values(Kept(es));
    } else {
      FilledOne(env, NewAlbum(a, e.0), e.1);
    }
    hide Extend, NewAlbum, Filled;
  }

  lemma FilledOne(env: Env, album: Album, t: Track)
    ensures Filled(env, album, [t]) == Extend(env, album, t)
  {
    assert [t][..0] == [];
    hide Extend;
  }

  lemma {:induction false} TracksBuilt(env: Env, xs: seq<Scanned>, t: Id)
    requires AllTagged(xs)
    ensures var tracks := Sequential(env, xs).tracks;
            LastTrack(env, xs, t) == if t in tracks then Some(tracks[t]) else None
    ensures LastTrack(env, xs, t).Some? ==> LastTrack(env, xs, t).value.id == t
  {
    if xs != [] {
      SequentialLast(env, xs);
      TracksBuilt(env, xs[..|xs| - 1], t);
      TracksAfterAdd(env, Sequential(env, xs[..|xs| - 1]), xs[|xs| - 1]);
      hide Add, Sequential, TrackIdOf;
    }
  }

  // ---- The chunks of an id ----

  lemma TaggedJoin(xs: seq<Scanned>, ys: seq<Scanned>)
    requires AllTagged(xs + ys)
    ensures AllTagged(xs) && AllTagged(ys)
  {
    assert forall i :: 0 <= i < |xs| ==> (xs + ys)[i] == xs[i];
    assert forall i :: 0 <= i < |ys| ==> (xs + ys)[|xs| + i] == ys[i];
  }

  lemma TaggedLast(chunks: seq<seq<Scanned>>)
    requires chunks != [] && AllTagged(Flatten(chunks))
    ensures AllTagged(Flatten(chunks[..|chunks| - 1])) && AllTagged(chunks[|chunks| - 1])
    ensures Flatten(chunks) == Flatten(chunks[..|chunks| - 1]) + chunks[|chunks| - 1]
  {
    hide AllTagged;
    TaggedJoin(Flatten(chunks[..|chunks| - 1]), chunks[|chunks| - 1]);
  }

  lemma ParallelLast(env: Env, chunks: seq<seq<Scanned>>)
    requires chunks != [] && AllTagged(Flatten(chunks))
    ensures AllTagged(Flatten(chunks[..|chunks| - 1])) && AllTagged(chunks[|chunks| - 1])
    ensures Parallel(env, chunks)
            == Merge(env, Parallel(env, chunks[..|chunks| - 1]), Sequential(env, chunks[|chunks| - 1]))
  {
    TaggedLast(chunks);
    hide Merge, Sequential;
  }

  function ArtistChunks(env: Env, chunks: seq<seq<Scanned>>, r: Id): (es: seq<seq<(string, Id)>>)
    requires AllTagged(Flatten(chunks))
    ensures |es| == |chunks|
  {
    if chunks == [] then []
    else
      TaggedLast(chunks);
      ArtistChunks(env, chunks[..|chunks| - 1], r) + [ArtistEvents(env, chunks[|chunks| - 1], r)]
  }

  function AlbumChunks(env: Env, chunks: seq<seq<Scanned>>, a: Id): (es: seq<seq<(Key, Track)>>)
    requires AllTagged(Flatten(chunks))
    ensures |es| == |chunks|
  {
    if chunks == [] then []
    else
      TaggedLast(chunks);
      AlbumChunks(env, chunks[..|chunks| - 1], a) + [AlbumEvents(env, chunks[|chunks| - 1], a)]
  }

  lemma NoEventsYet(env: Env, id: Id)
    ensures ArtistEvents(env, [], id) == [] && AlbumEvents(env, [], id) == []
  {
  }

  lemma {:induction false} ArtistEventsJoin(env: Env, xs: seq<Scanned>, ys: seq<Scanned>, r: Id)
    requires AllTagged(xs + ys) && AllTagged(xs) && AllTagged(ys)
    ensures ArtistEvents(env, xs + ys, r) == ArtistEvents(env, xs, r) + ArtistEvents(env, ys, r)
    decreases |ys|
  {
    hide *;
    if ys == [] {
      assert xs + ys == xs;
      NoEventsYet(env, r);
    } else {
      assert (xs + ys)[..|xs + ys| - 1] == xs + ys[..|ys| - 1] && (xs + ys)[|xs + ys| - 1] == ys[|ys| - 1];
      ArtistGrows(env, xs + ys, r);
      ArtistGrows(env, ys, r);
      ArtistEventsJoin(env, xs, ys[..|ys| - 1], r);
    }
  }

  lemma {:induction false} AlbumEventsJoin(env: Env, xs: seq<Scanned>, ys: seq<Scanned>, a: Id)
    requires AllTagged(xs + ys) && AllTagged(xs) && AllTagged(ys)
    ensures AlbumEvents(env, xs + ys, a) == AlbumEvents(env, xs, a) + AlbumEvents(env, ys, a)
    decreases |ys|
  {
    hide *;
    if ys == [] {
      assert xs + ys == xs;
      NoEventsYet(env, a);
    } else {
      assert (xs + ys)[..|xs + ys| - 1] == xs + ys[..|ys| - 1] && (xs + ys)[|xs + ys| - 1] == ys[|ys| - 1];
      AlbumGrows(env, xs + ys, a);
      AlbumGrows(env, ys, a);
      AlbumEventsJoin(env, xs, ys[..|ys| - 1], a);
    }
  }

  lemma ChunksLast(env: Env, chunks: seq<seq<Scanned>>, id: Id)
    requires chunks != [] && AllTagged(Flatten(chunks))
    ensures var (rest, last, n) := (chunks[..|chunks| - 1], chunks[|chunks| - 1], |chunks| - 1);
            && AllTagged(Flatten(rest)) && AllTagged(last)
            && ArtistChunks(env, chunks, id)[..n] == ArtistChunks(env, rest, id)
            && ArtistChunks(env, chunks, id)[n] == ArtistEvents(env, last, id)
            && AlbumChunks(env, chunks, id)[..n] == AlbumChunks(env, rest, id)
            && AlbumChunks(env, chunks, id)[n] == AlbumEvents(env, last, id)
  {
    TaggedLast(chunks);
    hide ArtistEvents, AlbumEvents;
  }

  lemma {:induction false} ChunksJoined(env: Env, chunks: seq<seq<Scanned>>, id: Id)
    requires AllTagged(Flatten(chunks))
    ensures Joined(ArtistChunks(env, chunks, id)) == ArtistEvents(env, Flatten(chunks), id)
    ensures Joined(AlbumChunks(env, chunks, id)) == AlbumEvents(env, Flatten(chunks), id)
  {
    if chunks != [] {
      var (rest, last) := (chunks[..|chunks| - 1], chunks[|chunks| - 1]);
      TaggedLast(chunks);
      ChunksLast(env, chunks, id);
      ChunksJoined(env, rest, id);
      ArtistEventsJoin(env, Flatten(rest), last, id);
      AlbumEventsJoin(env, Flatten(rest), last, id);
      hide ArtistEvents, AlbumEvents, ArtistChunks, AlbumChunks, Flatten;
    }
  }

  // ---- Artists ----

  lemma {:induction false} PushAllDistinct(ids: seq<Id>, more: seq<Id>)
    ensures PushAllNew(ids, PushAllNew([], more)) == PushAllNew(ids, more)
    decreases |more|
  {
    if more != [] {
      PushAllDistinct(ids, more[..|more| - 1]);
      PushCommutes(ids, PushAllNew([], more[..|more| - 1]), more[|more| - 1]);
    }
  }

  lemma {:induction false} PushAllJoin(ids: seq<Id>, more: seq<Id>, last: seq<Id>)
    ensures PushAllNew(ids, more + last) == PushAllNew(PushAllNew(ids, more), last)
    decreases |last|
  {
    if last == [] {
      assert more + last == more;
    } else {
      assert (more + last)[..|more + last| - 1] == more + last[..|last| - 1];
      PushAllJoin(ids, more, last[..|last| - 1]);
    }
  }

  lemma MergedArtistAt(env: Env, b: Builder, o: Builder, r: Id)
    requires Consistent(b) && Consistent(o)
    ensures var m := Merge(env, b, o).artists;
            && (r in m <==> r in b.artists || r in o.artists)
            && (r in m ==> m[r] == MergedArtist(b.artists, o.artists, r))
  {
    MergeFields(env, b, o);
    hide Merge, MergedAlbums, MergedArtist;
  }

  /** Merged, an artist has the name of the first chunk with it, and the albums of what survives. */
  lemma {:induction false} ArtistMerged(env: Env, chunks: seq<seq<Scanned>>, r: Id)
    requires AllTagged(Flatten(chunks))
    ensures var (artists, es) := (Parallel(env, chunks).artists, ArtistChunks(env, chunks, r));
            (r in artists <==> Survivors(es) != []) &&
              (Survivors(es) != [] ==> artists[r] == ArtistFrom(r, Survivors(es)))
  {
    hide *;
    NoChunks(env, r);
    if chunks != [] {
      var (rest, last) := (chunks[..|chunks| - 1], chunks[|chunks| - 1]);
      ParallelLast(env, chunks);
      ChunksLast(env, chunks, r);
      ArtistMerged(env, rest, r);
      ArtistBuilt(env, last, r);
      MergedArtistAt(env, Parallel(env, rest), Sequential(env, last), r);
      SurvivorsLast(ArtistChunks(env, chunks, r));
      MergedArtistIs(Parallel(env, rest).artists, Sequential(env, last).artists, r,
                     Survivors(ArtistChunks(env, rest, r)), Kept(ArtistEvents(env, last, r)));
    }
  }

  lemma SurvivorsLast<L, V>(chunks: seq<seq<(L, V)>>)
    requires chunks != []
    ensures Survivors(chunks) == Survivors(chunks[..|chunks| - 1]) + Kept(chunks[|chunks| - 1])
    ensures Kept(chunks[|chunks| - 1]) == [] <==> chunks[|chunks| - 1] == []
  {
  }

  lemma MergedArtistIs(mine: map<Id, Artist>, theirs: map<Id, Artist>, r: Id, a: seq<(string, Id)>,
                       b: seq<(string, Id)>)
    requires r in mine <==> a != []
    requires a != [] ==> mine[r] == ArtistFrom(r, a)
    requires r in theirs <==> b != []
    requires b != [] ==> theirs[r] == ArtistFrom(r, b)
    ensures a + b != [] ==> MergedArtist(mine, theirs, r) == ArtistFrom(r, a + b)
  {
    if b == [] {
      assert a + b == a;
    } else {
      PushAllDistinct(if a == [] then [] else PushAllNew([], Values(a)), Values(b));
      ValuesJoin(a, b);
      PushAllJoin([], Values(a), Values(b));
      if a == [] {
        assert a + b == b;
      }
    }
    hide PushAllNew, Values;
  }

  /** Exactly when the merged artist is the sequential one: its name is settled, and the albums that overwriting loses
      in later chunks are listed anyway, at the same places. */
  predicate ArtistSafe(env: Env, chunks: seq<seq<Scanned>>, r: Id)
    requires AllTagged(Flatten(chunks))
  {
    var es := ArtistChunks(env, chunks, r);
    Settled(es) && PushAllNew([], Values(Survivors(es))) == PushAllNew([], Values(Compact(es)))
  }

  lemma ArtistIff(env: Env, chunks: seq<seq<Scanned>>, r: Id)
    requires AllTagged(Flatten(chunks))
    ensures var (p, s) := (Parallel(env, chunks).artists, Sequential(env, Flatten(chunks)).artists);
            && (r in p <==> r in s)
            && (r in p ==> (p[r] == s[r] <==> ArtistSafe(env, chunks, r)))
            && (r !in p ==> ArtistSafe(env, chunks, r))
  {
    var es := ArtistChunks(env, chunks, r);
    ArtistMerged(env, chunks, r);
    ArtistBuilt(env, Flatten(chunks), r);
    ChunksJoined(env, chunks, r);
    SurvivorsFirst(es);
    if Joined(es) != [] {
      SettledIff(es);
    } else {
      SettledEmpty(es);
      CompactEmpty(es);
    }
    hide Settled, Survivors, Compact, Kept, PushAllNew, Values, ArtistChunks, Parallel, Sequential, ArtistEvents,
      Joined;
  }

  lemma CompactEmpty<L, V>(chunks: seq<seq<(L, V)>>)
    requires Joined(chunks) == []
    ensures Compact(chunks) == []
  {
    if chunks != [] {
      CompactEmpty(chunks[..|chunks| - 1]);
    }
  }

  // ---- Tracks ----

  /** The last track with an id in the first chunk that has one. */
  function FirstChunkTrack(env: Env, chunks: seq<seq<Scanned>>, t: Id): Option<Track>
    requires AllTagged(Flatten(chunks))
  {
    if chunks == [] then None
    else
      TaggedLast(chunks);
      var first := FirstChunkTrack(env, chunks[..|chunks| - 1], t);
      if first.Some? then first else LastTrack(env, chunks[|chunks| - 1], t)
  }

  lemma MergedTrackAt(env: Env, b: Builder, o: Builder, t: Id)
    requires Consistent(b) && Consistent(o)
    ensures var m := Merge(env, b, o).tracks;
            && (t in m <==> t in b.tracks || t in o.tracks)
            && (t in m ==> m[t] == if t in b.tracks then b.tracks[t] else o.tracks[t])
  {
    MergeFields(env, b, o);
    hide Merge, MergedAlbums, MergedArtists;
  }

  lemma {:induction false} TrackMerged(env: Env, chunks: seq<seq<Scanned>>, t: Id)
    requires AllTagged(Flatten(chunks))
    ensures var tracks := Parallel(env, chunks).tracks;
            FirstChunkTrack(env, chunks, t) == if t in tracks then Some(tracks[t]) else None
  {
    if chunks != [] {
      var (rest, last) := (chunks[..|chunks| - 1], chunks[|chunks| - 1]);
      ParallelLast(env, chunks);
      TrackMerged(env, rest, t);
      TracksBuilt(env, last, t);
      MergedTrackAt(env, Parallel(env, rest), Sequential(env, last), t);
      hide Parallel, Sequential, Merge, LastTrack;
    }
  }

  // ---- Albums ----

  function TrackIds(tracks: seq<Track>): (r: seq<Id>)
    ensures |r| == |tracks|
  {
    seq(|tracks|, i requires 0 <= i < |tracks| => tracks[i].id)
  }

  /** The events have one label, and ids of their own, none of which is among `ids`. */
  predicate Joins(ids: seq<Id>, es: seq<(Key, Track)>) {
    && OneLabel(es)
    && (forall i :: 0 <= i < |es| ==> es[i].1.id !in ids)
    && (forall i, j :: 0 <= i < j < |es| ==> es[i].1.id != es[j].1.id)
  }

  /** Every chunk that comes after the first one with the album joins what the album lists before. */
  predicate Clean(chunks: seq<seq<(Key, Track)>>) {
    forall j :: 0 <= j < |chunks| && Joined(chunks[..j]) != [] ==>
      Joins(TrackIds(Values(Compact(chunks[..j]))), chunks[j])
  }

  lemma CleanRest(chunks: seq<seq<(Key, Track)>>)
    requires chunks != []
    ensures var (rest, last) := (chunks[..|chunks| - 1], chunks[|chunks| - 1]);
            Clean(chunks) <==> Clean(rest) && (Joined(rest) != [] ==> Joins(TrackIds(Values(Compact(rest))), last))
  {
    var n := |chunks| - 1;
    assert forall j :: 0 <= j <= n ==> chunks[..n][..j] == chunks[..j];
    if Clean(chunks) {
      assert forall j :: 0 <= j < n ==> chunks[..n][j] == chunks[j];
    }
    hide Joins, Joined, Compact, TrackIds, Values;
  }

  /** The ids an album lists after the merges. */
  function MergedIds(chunks: seq<seq<(Key, Track)>>): seq<Id> {
    if chunks == [] then []
    else
      var (rest, last) := (chunks[..|chunks| - 1], chunks[|chunks| - 1]);
      var ids := TrackIds(Values(Kept(last)));
      if Joined(rest) == [] then ids else PushAllNew(MergedIds(rest), ids)
  }

  predicate Fresh(ids: seq<Id>, more: seq<Id>) {
    (forall i :: 0 <= i < |more| ==> more[i] !in ids) && forall i, j :: 0 <= i < j < |more| ==> more[i] != more[j]
  }

  lemma {:induction false} PushAllFresh(ids: seq<Id>, more: seq<Id>)
    ensures Fresh(ids, more) ==> PushAllNew(ids, more) == ids + more
    ensures !Fresh(ids, more) ==> |PushAllNew(ids, more)| < |ids| + |more|
    ensures |PushAllNew(ids, more)| <= |ids| + |more|
    decreases |more|
  {
    if more != [] {
      var (rest, last) := (more[..|more| - 1], more[|more| - 1]);
      PushAllFresh(ids, rest);
      PushAllContains(ids, rest, last);
      if Fresh(ids, rest) && last !in ids && last !in rest {
        assert ids + rest + [last] == ids + more;
        assert forall i :: 0 <= i < |rest| ==> rest[i] == more[i];
        assert Fresh(ids, more) by {
          forall i, j | 0 <= i < j < |more| ensures more[i] != more[j] {
            if j == |more| - 1 {
              assert more[i] == rest[i];
            }
          }
        }
      } else if Fresh(ids, more) {
        assert forall i :: 0 <= i < |rest| ==> rest[i] == more[i];
        assert last !in rest;
        assert Fresh(ids, rest);
      }
    }
  }

  predicate OneLabel<L(==), V>(es: seq<(L, V)>) {
    forall i, j :: 0 <= i < |es| && 0 <= j < |es| ==> es[i].0 == es[j].0
  }

  lemma {:induction false} KeptAll<L, V>(es: seq<(L, V)>)
    ensures Kept(es) == es <==> OneLabel(es)
    ensures |Kept(es)| == |es| <==> Kept(es) == es
  {
    if es != [] {
      var (rest, e) := (es[..|es| - 1], es[|es| - 1]);
      KeptAll(rest);
      assert es == rest + [e];
      hide Labels, OneLabel;
      OneMore(rest, e);
    } else {
      assert OneLabel(es);
    }
  }

  lemma OneMore<L, V>(rest: seq<(L, V)>, e: (L, V))
    ensures OneLabel(rest + [e]) <==> OneLabel(rest) && (rest != [] ==> e.0 in Labels(rest))
  {
    var es := rest + [e];
    assert forall i :: 0 <= i < |rest| ==> es[i] == rest[i];
    assert es[|rest|] == e;
    if rest != [] {
      LabelIn(rest, 0);
    }
    if rest != [] && e.0 in Labels(rest) && OneLabel(rest) {
      var k := LabelAt(rest, e.0);
      assert forall i :: 0 <= i < |es| ==> es[i].0 == rest[k].0;
    }
    if OneLabel(es) {
      assert forall i, j :: 0 <= i < |rest| && 0 <= j < |rest| ==> es[i].0 == es[j].0;
      assert rest != [] ==> es[0].0 == es[|rest|].0;
    }
    hide Labels;
  }

  lemma {:induction false} LabelAt<L, V>(es: seq<(L, V)>, l: L) returns (i: nat)
    requires l in Labels(es)
    ensures i < |es| && es[i].0 == l
  {
    if es[|es| - 1].0 == l {
      i := |es| - 1;
    } else {
      i := LabelAt(es[..|es| - 1], l);
    }
  }

  lemma {:induction false} LabelIn<L, V>(es: seq<(L, V)>, i: nat)
    requires i < |es|
    ensures es[i].0 in Labels(es)
  {
    if i < |es| - 1 {
      LabelIn(es[..|es| - 1], i);
    }
  }

  lemma {:induction false} ValuesAt<L, V>(es: seq<(L, V)>)
    ensures forall i :: 0 <= i < |es| ==> Values(es)[i] == es[i].1
  {
    if es != [] {
      ValuesAt(es[..|es| - 1]);
    }
  }

  lemma IdsJoin(a: seq<Track>, b: seq<Track>)
    ensures TrackIds(a + b) == TrackIds(a) + TrackIds(b)
  {
  }

  /** Later tracks are all listed exactly when they join. */
  lemma PushKept(ids: seq<Id>, es: seq<(Key, Track)>)
    ensures var pushed := PushAllNew(ids, TrackIds(Values(Kept(es))));
            && (Joins(ids, es) ==>
                Kept(es) == es && pushed == ids + TrackIds(Values(es)) && Fresh(ids, TrackIds(Values(es))))
            && (!Joins(ids, es) ==> |pushed| < |ids| + |es|)
            && |pushed| <= |ids| + |es|
  {
    KeptAll(es);
    ValuesAt(es);
    PushAllFresh(ids, TrackIds(Values(Kept(es))));
    if Kept(es) == es && Fresh(ids, TrackIds(Values(es))) {
      forall i | 0 <= i < |es| ensures es[i].1.id !in ids {
        assert TrackIds(Values(es))[i] == es[i].1.id;
      }
      forall i, j | 0 <= i < j < |es| ensures es[i].1.id != es[j].1.id {
        assert TrackIds(Values(es))[i] == es[i].1.id && TrackIds(Values(es))[j] == es[j].1.id;
      }
      assert Joins(ids, es);
    }
    hide Kept, Values, PushAllNew;
  }

  lemma {:induction false} CleanIff(chunks: seq<seq<(Key, Track)>>)
    ensures Clean(chunks) ==> MergedIds(chunks) == TrackIds(Values(Compact(chunks)))
    ensures !Clean(chunks) ==> |MergedIds(chunks)| < |Compact(chunks)|
  {
    if chunks != [] {
      var (rest, last) := (chunks[..|chunks| - 1], chunks[|chunks| - 1]);
      CleanRest(chunks);
      CleanIff(rest);
      if Joined(rest) != [] {
        PushKept(MergedIds(rest), last);
        ValuesJoin(Compact(rest), last);
        IdsJoin(Values(Compact(rest)), Values(last));
      } else {
        CleanEmpty(rest);
      }
      hide Clean, Joins, Kept, Values, TrackIds, PushAllNew;
    }
  }

  lemma {:induction false} CleanEmpty(chunks: seq<seq<(Key, Track)>>)
    requires Joined(chunks) == []
    ensures Clean(chunks)
  {
    if chunks != [] {
      CleanRest(chunks);
      CleanEmpty(chunks[..|chunks| - 1]);
    }
  }

  lemma MergedAlbumAt(env: Env, b: Builder, o: Builder, a: Id)
    requires Consistent(b) && Consistent(o)
    ensures var m := Merge(env, b, o).albums;
            && (a in m <==> a in b.albums || a in o.albums)
            && (a in m ==> m[a] == MergedAlbum(env, b.albums, o.albums, o.tracks, a))
  {
    MergeFields(env, b, o);
    hide Merge, MergedAlbum, MergedArtists;
  }

  predicate Stored(ids: seq<Id>, tracks: map<Id, Track>) {
    forall i :: 0 <= i < |ids| ==> ids[i] in tracks && tracks[ids[i]].id == ids[i]
  }

  function Looked(ids: seq<Id>, tracks: map<Id, Track>): (r: seq<Track>)
    requires Stored(ids, tracks)
    ensures |r| == |ids|
  {
    seq(|ids|, i requires 0 <= i < |ids| => tracks[ids[i]])
  }

  /** Absorbing stored tracks lists the new ones; if all are new, it is adding them. */
  lemma {:induction false} AbsorbStored(env: Env, album: Album, ids: seq<Id>, tracks: map<Id, Track>)
    requires Stored(ids, tracks)
    ensures var r := Absorb(env, album, ids, tracks);
            && r.trackIds == PushAllNew(album.trackIds, ids) && KeyOfAlbum(r) == KeyOfAlbum(album)
            && (Fresh(album.trackIds, ids) ==> r == Filled(env, album, Looked(ids, tracks)))
    decreases |ids|
  {
    hide *;
    AbsorbLast(env, album, ids, tracks);
    if ids != [] {
      var (rest, last) := (ids[..|ids| - 1], ids[|ids| - 1]);
      LookedLast(ids, tracks);
      AbsorbStored(env, album, rest, tracks);
      if Fresh(album.trackIds, ids) {
        FreshButLast(album.trackIds, ids);
        PushAllFresh(album.trackIds, rest);
      }
      AbsorbOne(env, Absorb(env, album, rest, tracks), tracks, last);
      FilledLast(env, album, Looked(ids, tracks));
    }
  }

  lemma AbsorbLast(env: Env, album: Album, ids: seq<Id>, tracks: map<Id, Track>)
    ensures ids == [] ==>
              Absorb(env, album, ids, tracks) == album && PushAllNew(album.trackIds, ids) == album.trackIds
              && Stored(ids, tracks) && Filled(env, album, Looked(ids, tracks)) == album
    ensures ids != [] ==>
              var (rest, last) := (ids[..|ids| - 1], ids[|ids| - 1]);
              var (done, pushed) := (Absorb(env, album, rest, tracks), PushAllNew(album.trackIds, rest));
              && PushAllNew(album.trackIds, ids) == (if last in pushed then pushed else pushed + [last])
              && Absorb(env, album, ids, tracks)
                 == if last !in tracks || last in done.trackIds then done
                    else MergeMetadata(env, done.(trackIds := done.trackIds + [last]), tracks[last])
  {
    hide MergeMetadata;
  }

  lemma LookedLast(ids: seq<Id>, tracks: map<Id, Track>)
    requires Stored(ids, tracks) && ids != []
    ensures var (rest, last) := (ids[..|ids| - 1], ids[|ids| - 1]);
            && Stored(rest, tracks) && last in tracks && tracks[last].id == last
            && Looked(ids, tracks)[..|rest|] == Looked(rest, tracks) && Looked(ids, tracks)[|rest|] == tracks[last]
  {
  }

  lemma FreshButLast(ids: seq<Id>, more: seq<Id>)
    requires Fresh(ids, more) && more != []
    ensures var (rest, last) := (more[..|more| - 1], more[|more| - 1]);
            Fresh(ids, rest) && last !in ids && last !in rest
  {
  }

  lemma AbsorbOne(env: Env, done: Album, tracks: map<Id, Track>, id: Id)
    requires id in tracks && tracks[id].id == id
    ensures MergeMetadata(env, done.(trackIds := done.trackIds + [id]), tracks[id]) == Extend(env, done, tracks[id])
    ensures KeyOfAlbum(Extend(env, done, tracks[id])) == KeyOfAlbum(done)
    ensures Extend(env, done, tracks[id]).trackIds == done.trackIds + [id]
  {
  }

  lemma FilledLast(env: Env, album: Album, tracks: seq<Track>)
    requires tracks != []
    ensures Filled(env, album, tracks) == Extend(env, Filled(env, album, tracks[..|tracks| - 1]), tracks[|tracks| - 1])
  {
  }

  lemma {:induction false} FilledFacts(env: Env, album: Album, tracks: seq<Track>)
    ensures var r := Filled(env, album, tracks);
            r.trackIds == album.trackIds + TrackIds(tracks) && KeyOfAlbum(r) == KeyOfAlbum(album)
  {
    if tracks != [] {
      var (rest, t) := (tracks[..|tracks| - 1], tracks[|tracks| - 1]);
      FilledFacts(env, album, rest);
      ExtendKeeps(env, Filled(env, album, rest), t);
      assert TrackIds(tracks) == TrackIds(rest) + [t.id];
      hide Extend;
    }
  }

  lemma {:induction false} FilledJoin(env: Env, album: Album, a: seq<Track>, b: seq<Track>)
    ensures Filled(env, album, a + b) == Filled(env, Filled(env, album, a), b)
    decreases |b|
  {
    if b == [] {
      assert a + b == a;
    } else {
      assert (a + b)[..|a + b| - 1] == a + b[..|b| - 1];
      FilledJoin(env, album, a, b[..|b| - 1]);
      hide Extend;
    }
  }

  /** The track a chunk's builder gives for the id of a track of the chunk. */
  function StandIn(env: Env, xs: seq<Scanned>, t: Track): Track
    requires AllTagged(xs)
  {
    var last := LastTrack(env, xs, t.id);
    if last.Some? then last.value else t
  }

  function StandInsOf(env: Env, xs: seq<Scanned>, tracks: seq<Track>): (r: seq<Track>)
    requires AllTagged(xs)
    ensures |r| == |tracks|
  {
    seq(|tracks|, i requires 0 <= i < |tracks| => StandIn(env, xs, tracks[i]))
  }

  /** An album's tracks as the merges see them: those the first chunk keeps, and for those of each later chunk the last
      track of the chunk with the same id. */
  function StandIns(env: Env, chunks: seq<seq<Scanned>>, a: Id): seq<Track>
    requires AllTagged(Flatten(chunks))
  {
    if chunks == [] then []
    else
      TaggedLast(chunks);
      var (rest, last) := (chunks[..|chunks| - 1], chunks[|chunks| - 1]);
      var es := AlbumEvents(env, last, a);
      if Joined(AlbumChunks(env, rest, a)) == [] then Values(Kept(es))
      else StandIns(env, rest, a) + StandInsOf(env, last, Values(es))
  }

  lemma {:induction false} EventsStored(env: Env, xs: seq<Scanned>, ys: seq<Scanned>, a: Id)
    requires AllTagged(xs) && xs <= ys && AllTagged(ys)
    ensures forall i :: 0 <= i < |AlbumEvents(env, xs, a)| ==>
              LastTrack(env, ys, AlbumEvents(env, xs, a)[i].1.id).Some? &&
                LastTrack(env, ys, AlbumEvents(env, xs, a)[i].1.id).value.id == AlbumEvents(env, xs, a)[i].1.id
  {
    if xs != [] {
      EventsStored(env, xs[..|xs| - 1], ys, a);
      AlbumGrows(env, xs, a);
      TrackFound(env, ys, |xs| - 1);
      hide AlbumEvents, LastTrack, AlbumIdOf, KeyOf, TrackIdOf;
    }
  }

  lemma {:induction false} TrackFound(env: Env, xs: seq<Scanned>, i: nat)
    requires AllTagged(xs) && i < |xs|
    ensures var t := LastTrack(env, xs, TrackOf(env, xs[i]).id); t.Some? && t.value.id == TrackOf(env, xs[i]).id
  {
    TaggedRest(xs);
    if i < |xs| - 1 {
      TrackFound(env, xs[..|xs| - 1], i);
    }
    hide TrackIdOf;
  }

  lemma {:induction false} KeptFrom<L, V>(es: seq<(L, V)>)
    ensures Kept(es) == es[|es| - |Kept(es)|..]
  {
    if es != [] {
      var (rest, e) := (es[..|es| - 1], es[|es| - 1]);
      KeptFrom(rest);
      assert es == rest + [e];
      hide Labels;
    }
  }

  lemma EventStored(env: Env, xs: seq<Scanned>, a: Id, i: nat)
    requires AllTagged(xs) && i < |AlbumEvents(env, xs, a)|
    ensures var (t, tracks) := (AlbumEvents(env, xs, a)[i].1, Sequential(env, xs).tracks);
            t.id in tracks && tracks[t.id].id == t.id && tracks[t.id] == StandIn(env, xs, t)
  {
    EventsStored(env, xs, xs, a);
    TracksBuilt(env, xs, AlbumEvents(env, xs, a)[i].1.id);
    hide AlbumEvents, Sequential, LastTrack;
  }

  lemma KeptStored(env: Env, xs: seq<Scanned>, a: Id, i: nat)
    requires AllTagged(xs) && i < |Kept(AlbumEvents(env, xs, a))|
    ensures var (t, tracks) := (Values(Kept(AlbumEvents(env, xs, a)))[i], Sequential(env, xs).tracks);
            t.id in tracks && tracks[t.id].id == t.id && tracks[t.id] == StandIn(env, xs, t)
  {
    hide *;
    var es := AlbumEvents(env, xs, a);
    KeptFrom(es);
    ValuesAt(Kept(es));
    EventStored(env, xs, a, |es| - |Kept(es)| + i);
  }

  /** The tracks of a chunk's album, found in its builder. */
  lemma ChunkStored(env: Env, xs: seq<Scanned>, a: Id)
    requires AllTagged(xs)
    ensures var (tracks, kept) := (Sequential(env, xs).tracks, Kept(AlbumEvents(env, xs, a)));
            && Stored(TrackIds(Values(kept)), tracks)
            && Looked(TrackIds(Values(kept)), tracks) == StandInsOf(env, xs, Values(kept))
  {
    hide Kept, Values, AlbumEvents, Sequential, StandIn;
    var kept := Values(Kept(AlbumEvents(env, xs, a)));
    forall i | 0 <= i < |kept|
      ensures kept[i].id in Sequential(env, xs).tracks && Sequential(env, xs).tracks[kept[i].id].id == kept[i].id
      ensures Sequential(env, xs).tracks[kept[i].id] == StandIn(env, xs, kept[i])
    {
      KeptStored(env, xs, a, i);
    }
  }

  // ---- Merged albums ----

  /** What holds of a merged album, whatever collides. */
  ghost predicate MergedAs(env: Env, a: Id, album: Album, es: seq<seq<(Key, Track)>>, standIns: seq<Track>)
    requires Survivors(es) != []
  {
    && KeyOfAlbum(album) == Survivors(es)[0].0 && album.trackIds == MergedIds(es)
    && (Clean(es) ==> album == Filled(env, NewAlbum(a, Survivors(es)[0].0), standIns))
  }

  lemma MergedAsIs(env: Env, a: Id, album: Album, es: seq<seq<(Key, Track)>>, standIns: seq<Track>)
    requires Survivors(es) != []
    ensures MergedAs(env, a, album, es, standIns) <==>
              && KeyOfAlbum(album) == Survivors(es)[0].0 && album.trackIds == MergedIds(es)
              && (Clean(es) ==> album == Filled(env, NewAlbum(a, Survivors(es)[0].0), standIns))
  {
    hide Survivors, MergedIds, Clean, Filled, KeyOfAlbum;
  }

  lemma MergedIdsLast(es: seq<seq<(Key, Track)>>)
    requires es != []
    ensures var (rest, ids) := (es[..|es| - 1], TrackIds(Values(Kept(es[|es| - 1]))));
            MergedIds(es) == if Joined(rest) == [] then ids else PushAllNew(MergedIds(rest), ids)
  {
    hide Kept, Values, TrackIds, PushAllNew;
  }

  lemma StandInsLast(env: Env, chunks: seq<seq<Scanned>>, a: Id)
    requires chunks != [] && AllTagged(Flatten(chunks))
    ensures AllTagged(Flatten(chunks[..|chunks| - 1])) && AllTagged(chunks[|chunks| - 1])
    ensures var (rest, last) := (chunks[..|chunks| - 1], chunks[|chunks| - 1]);
            var es := AlbumEvents(env, last, a);
            StandIns(env, chunks, a)
            == if Joined(AlbumChunks(env, rest, a)) == [] then Values(Kept(es))
               else StandIns(env, rest, a) + StandInsOf(env, last, Values(es))
  {
    TaggedLast(chunks);
    hide AlbumEvents, AlbumChunks, Joined, Kept, Values, StandInsOf;
  }

  lemma NoEvents()
    ensures Kept<Key, Track>([]) == [] && Values<Key, Track>([]) == [] && TrackIds([]) == []
    ensures forall ids :: PushAllNew(ids, []) == ids
  {
  }

  /** A chunk without the album leaves it. */
  lemma NothingMerged(env: Env, a: Id, album: Album, es: seq<seq<(Key, Track)>>, standIns: seq<Track>)
    requires es != [] && es[|es| - 1] == [] && Survivors(es[..|es| - 1]) != []
    requires MergedAs(env, a, album, es[..|es| - 1], standIns)
    ensures Survivors(es) != [] && MergedAs(env, a, album, es, standIns)
  {
    hide *;
    var rest := es[..|es| - 1];
    NoEvents();
    SurvivorsLast(es);
    MergedIdsLast(es);
    CleanRest(es);
    SurvivorsFirst(rest);
    MergedAsIs(env, a, album, rest, standIns);
    MergedAsIs(env, a, album, es, standIns);
  }

  /** The first chunk with the album brings it as it is. */
  lemma FirstMerged(env: Env, a: Id, es: seq<seq<(Key, Track)>>)
    requires es != [] && es[|es| - 1] != [] && Survivors(es[..|es| - 1]) == []
    ensures var kept := Kept(es[|es| - 1]);
            Survivors(es) != [] && MergedAs(env, a, AlbumFrom(env, a, kept), es, Values(kept))
  {
    hide *;
    var kept := Kept(es[|es| - 1]);
    SurvivorsLast(es);
    MergedIdsLast(es);
    SurvivorsFirst(es[..|es| - 1]);
    assert Survivors(es) == kept;
    AlbumFromIs(env, a, kept);
    MergedAsIs(env, a, AlbumFrom(env, a, kept), es, Values(kept));
  }

  lemma AlbumFromIs(env: Env, a: Id, kept: seq<(Key, Track)>)
    requires kept != []
    ensures AlbumFrom(env, a, kept) == Filled(env, NewAlbum(a, kept[0].0), Values(kept))
    ensures KeyOfAlbum(AlbumFrom(env, a, kept)) == kept[0].0
    ensures AlbumFrom(env, a, kept).trackIds == TrackIds(Values(kept))
  {
    FilledFacts(env, NewAlbum(a, kept[0].0), Values(kept));
    hide Filled, Values, TrackIds;
  }

  /** A later chunk's tracks are absorbed. */
  lemma MoreMerged(env: Env, a: Id, album: Album, es: seq<seq<(Key, Track)>>, standIns: seq<Track>, xs: seq<Scanned>)
    requires AllTagged(xs) && es != [] && es[|es| - 1] == AlbumEvents(env, xs, a)
    requires Survivors(es[..|es| - 1]) != [] && MergedAs(env, a, album, es[..|es| - 1], standIns)
    ensures var (ids, tracks) := (TrackIds(Values(Kept(es[|es| - 1]))), Sequential(env, xs).tracks);
            && Survivors(es) != []
            && MergedAs(env, a, Absorb(env, album, ids, tracks), es,
                        standIns + StandInsOf(env, xs, Values(es[|es| - 1])))
  {
    hide *;
    var (rest, last) := (es[..|es| - 1], es[|es| - 1]);
    var (ids, tracks) := (TrackIds(Values(Kept(last))), Sequential(env, xs).tracks);
    var more := StandInsOf(env, xs, Values(last));
    SurvivorsLast(es);
    MergedIdsLast(es);
    CleanRest(es);
    SurvivorsFirst(rest);
    MergedAsIs(env, a, album, rest, standIns);
    ChunkStored(env, xs, a);
    AbsorbStored(env, album, ids, tracks);
    CleanIff(rest);
    PushKept(MergedIds(rest), last);
    FilledJoin(env, NewAlbum(a, Survivors(rest)[0].0), standIns, more);
    MergedAsIs(env, a, Absorb(env, album, ids, tracks), es, standIns + more);
  }

  lemma MergedAlbumIs(env: Env, mine: map<Id, Album>, theirs: map<Id, Album>, tracks: map<Id, Track>, a: Id)
    requires a in mine || a in theirs
    ensures MergedAlbum(env, mine, theirs, tracks, a)
            == if a !in theirs then mine[a]
               else if a !in mine then theirs[a]
               else Absorb(env, mine[a], theirs[a].trackIds, tracks)
  {
    hide Absorb;
  }

  lemma AlbumStep(env: Env, a: Id, mine: map<Id, Album>, xs: seq<Scanned>, es: seq<seq<(Key, Track)>>,
                  standIns: seq<Track>)
    requires AllTagged(xs) && es != [] && es[|es| - 1] == AlbumEvents(env, xs, a)
    requires a in mine <==> Survivors(es[..|es| - 1]) != []
    requires a in mine ==> MergedAs(env, a, mine[a], es[..|es| - 1], standIns)
    ensures var (b, last) := (Sequential(env, xs), es[|es| - 1]);
            && (a in mine || a in b.albums <==> Survivors(es) != [])
            && (Survivors(es) != [] ==>
                  MergedAs(env, a, MergedAlbum(env, mine, b.albums, b.tracks, a), es,
                           if Joined(es[..|es| - 1]) == [] then Values(Kept(last))
                           else standIns + StandInsOf(env, xs, Values(last))))
  {
    hide *;
    var (b, last) := (Sequential(env, xs), es[|es| - 1]);
    AlbumBuilt(env, xs, a);
    SurvivorsLast(es);
    SurvivorsFirst(es[..|es| - 1]);
    if a in mine || a in b.albums {
      MergedAlbumIs(env, mine, b.albums, b.tracks, a);
      if last == [] {
        NoEvents();
        NothingMerged(env, a, mine[a], es, standIns);
        assert standIns + StandInsOf(env, xs, []) == standIns;
      } else {
        AlbumFromIs(env, a, Kept(last));
        if a !in mine {
          FirstMerged(env, a, es);
        } else {
          MoreMerged(env, a, mine[a], es, standIns, xs);
        }
      }
    }
  }

  lemma NoChunks(env: Env, id: Id)
    ensures Flatten([]) == [] && Parallel(env, []) == Empty() && id !in Empty().albums && id !in Empty().artists
    ensures Survivors(AlbumChunks(env, [], id)) == [] && Survivors(ArtistChunks(env, [], id)) == []
  {
  }

  lemma {:induction false} AlbumMerged(env: Env, chunks: seq<seq<Scanned>>, a: Id)
    requires AllTagged(Flatten(chunks))
    ensures var (albums, es) := (Parallel(env, chunks).albums, AlbumChunks(env, chunks, a));
            (a in albums <==> Survivors(es) != []) &&
              (Survivors(es) != [] ==> MergedAs(env, a, albums[a], es, StandIns(env, chunks, a)))
  {
    hide *;
    NoChunks(env, a);
    if chunks != [] {
      var (rest, last) := (chunks[..|chunks| - 1], chunks[|chunks| - 1]);
      ParallelLast(env, chunks);
      ChunksLast(env, chunks, a);
      AlbumMerged(env, rest, a);
      MergedAlbumAt(env, Parallel(env, rest), Sequential(env, last), a);
      StandInsLast(env, chunks, a);
      AlbumStep(env, a, Parallel(env, rest).albums, last, AlbumChunks(env, chunks, a), StandIns(env, rest, a));
    }
  }

  /** Exactly when the merged album is the sequential one: its artist and title are settled, every later chunk's tracks
      join it, and the stand-ins add up to the same lengths, sizes, dates and genres as its tracks. */
  predicate AlbumSafe(env: Env, chunks: seq<seq<Scanned>>, a: Id)
    requires AllTagged(Flatten(chunks))
  {
    var es := AlbumChunks(env, chunks, a);
    && Settled(es) && Clean(es)
    && (Compact(es) != [] ==>
          var album := NewAlbum(a, Compact(es)[0].0);
          Filled(env, album, StandIns(env, chunks, a)) == Filled(env, album, Values(Compact(es))))
  }

  lemma AlbumIff(env: Env, chunks: seq<seq<Scanned>>, a: Id)
    requires AllTagged(Flatten(chunks))
    ensures var (p, s) := (Parallel(env, chunks).albums, Sequential(env, Flatten(chunks)).albums);
            && (a in p <==> a in s)
            && (a in p ==> (p[a] == s[a] <==> AlbumSafe(env, chunks, a)))
            && (a !in p ==> AlbumSafe(env, chunks, a))
  {
    var es := AlbumChunks(env, chunks, a);
    AlbumMerged(env, chunks, a);
    AlbumBuilt(env, Flatten(chunks), a);
    ChunksJoined(env, chunks, a);
    SurvivorsFirst(es);
    if Joined(es) == [] {
      SettledEmpty(es);
      CleanEmpty(es);
      CompactEmpty(es);
    } else {
      SettledIff(es);
      CleanIff(es);
      AlbumFromIs(env, a, Kept(Joined(es)));
      assert |TrackIds(Values(Kept(Joined(es))))| == |Kept(Joined(es))|;
    }
    hide Settled, Clean, Survivors, Compact, Kept, Values, AlbumChunks, Parallel, Sequential, AlbumEvents, Joined,
      MergedIds, StandIns,
      Filled, AlbumFrom, TrackIds;
  }

  // ---- The whole index ----

  predicate TrackSafe(env: Env, chunks: seq<seq<Scanned>>, t: Id)
    requires AllTagged(Flatten(chunks))
  {
    FirstChunkTrack(env, chunks, t) == LastTrack(env, Flatten(chunks), t)
  }

  /** Every artist, album and track of the scan is safe in this cut. */
  predicate CutSafe(env: Env, chunks: seq<seq<Scanned>>)
    requires AllTagged(Flatten(chunks))
  {
    var xs := Flatten(chunks);
    forall i :: 0 <= i < |xs| ==>
      && ArtistSafe(env, chunks, ArtistIdOf(env, KeyOf(xs[i]).0))
      && AlbumSafe(env, chunks, AlbumIdOf(env, KeyOf(xs[i])))
      && TrackSafe(env, chunks, TrackIdOf(env, xs[i]))
  }

  lemma {:induction false} SomeArtistTrack(env: Env, xs: seq<Scanned>, r: Id) returns (i: nat)
    requires AllTagged(xs) && ArtistEvents(env, xs, r) != []
    ensures i < |xs| && ArtistIdOf(env, KeyOf(xs[i]).0) == r
  {
    NoEventsYet(env, r);
    ArtistGrows(env, xs, r);
    hide ArtistEvents, ArtistIdOf, AlbumIdOf, KeyOf;
    i := |xs| - 1;
    if ArtistIdOf(env, KeyOf(xs[i]).0) != r {
      i := SomeArtistTrack(env, xs[..|xs| - 1], r);
    }
  }

  lemma {:induction false} SomeAlbumTrack(env: Env, xs: seq<Scanned>, a: Id) returns (i: nat)
    requires AllTagged(xs) && AlbumEvents(env, xs, a) != []
    ensures i < |xs| && AlbumIdOf(env, KeyOf(xs[i])) == a
  {
    NoEventsYet(env, a);
    AlbumGrows(env, xs, a);
    hide AlbumEvents, AlbumIdOf, KeyOf, TrackOf;
    i := |xs| - 1;
    if AlbumIdOf(env, KeyOf(xs[i])) != a {
      i := SomeAlbumTrack(env, xs[..|xs| - 1], a);
    }
  }

  lemma {:induction false} SomeTrack(env: Env, xs: seq<Scanned>, t: Id) returns (i: nat)
    requires AllTagged(xs) && LastTrack(env, xs, t).Some?
    ensures i < |xs| && TrackIdOf(env, xs[i]) == t
  {
    i := |xs| - 1;
    if TrackIdOf(env, xs[i]) != t {
      TaggedRest(xs);
      i := SomeTrack(env, xs[..|xs| - 1], t);
    }
    hide TrackIdOf;
  }

  lemma TrackIff(env: Env, chunks: seq<seq<Scanned>>, t: Id)
    requires AllTagged(Flatten(chunks))
    ensures var (p, s) := (Parallel(env, chunks).tracks, Sequential(env, Flatten(chunks)).tracks);
            TrackSafe(env, chunks, t) <==> (t in p <==> t in s) && (t in p ==> p[t] == s[t])
  {
    TrackMerged(env, chunks, t);
    TracksBuilt(env, Flatten(chunks), t);
    hide Parallel, Sequential, LastTrack, FirstChunkTrack;
  }

  lemma {:induction false} ParallelFacts(env: Env, chunks: seq<seq<Scanned>>)
    requires AllTagged(Flatten(chunks))
    ensures var b := Parallel(env, chunks);
            Derived(env, b) && b.artistsByName.Keys == Names(Flatten(chunks)) &&
              b.albumsByKey.Keys == Keys(Flatten(chunks))
  {
    if chunks == [] {
      assert Names([]) == {} && Keys([]) == {};
    } else {
      hide *;
      var (rest, last) := (chunks[..|chunks| - 1], chunks[|chunks| - 1]);
      TaggedLast(chunks);
      ParallelLast(env, chunks);
      ParallelFacts(env, rest);
      SequentialFacts(env, last);
      MergedFacts(env, Parallel(env, rest), Sequential(env, last));
      NamesJoin(Flatten(rest), last);
    }
  }

  lemma MergedFacts(env: Env, b: Builder, o: Builder)
    requires Consistent(b) && Consistent(o) && Derived(env, b) && Derived(env, o)
    ensures var m := Merge(env, b, o);
            && Derived(env, m) && m.artistsByName.Keys == b.artistsByName.Keys + o.artistsByName.Keys
            && m.albumsByKey.Keys == b.albumsByKey.Keys + o.albumsByKey.Keys
  {
    MergeFields(env, b, o);
    hide Merge, StableId, ArtistIdOf, AlbumIdOf, MergedAlbums, MergedArtists, Consistent;
    var m := Merge(env, b, o);
    JoinedTables(o.artistsByName, b.artistsByName, n => ArtistIdOf(env, n));
    JoinedTables(o.albumsByKey, b.albumsByKey, k => AlbumIdOf(env, k));
  }

  lemma JoinedTables<K>(a: map<K, Id>, b: map<K, Id>, f: K -> Id)
    requires (forall k :: k in a ==> a[k] == f(k)) && forall k :: k in b ==> b[k] == f(k)
    ensures (forall k :: k in a + b ==> (a + b)[k] == f(k)) && (a + b).Keys == b.Keys + a.Keys
  {
  }

  lemma NamesJoin(xs: seq<Scanned>, ys: seq<Scanned>)
    requires AllTagged(xs + ys)
    ensures AllTagged(xs) && AllTagged(ys)
    ensures Names(xs + ys) == Names(xs) + Names(ys) && Keys(xs + ys) == Keys(xs) + Keys(ys)
  {
    TaggedJoin(xs, ys);
    hide KeyOf;
    forall i | 0 <= i < |xs| ensures KeyOf(xs[i]).0 in Names(xs + ys) && KeyOf(xs[i]) in Keys(xs + ys) {
      assert (xs + ys)[i] == xs[i];
    }
    forall i | 0 <= i < |ys| ensures KeyOf(ys[i]).0 in Names(xs + ys) && KeyOf(ys[i]) in Keys(xs + ys) {
      assert (xs + ys)[|xs| + i] == ys[i];
    }
    forall i | 0 <= i < |xs + ys|
      ensures KeyOf((xs + ys)[i]).0 in Names(xs) + Names(ys) && KeyOf((xs + ys)[i]) in Keys(xs) + Keys(ys)
    {
      if i < |xs| {
        assert (xs + ys)[i] == xs[i];
      } else {
        assert (xs + ys)[i] == ys[i - |xs|];
      }
    }
  }

  lemma SameTables(env: Env, b: Builder, c: Builder)
    requires Derived(env, b) && Derived(env, c)
    requires b.artistsByName.Keys == c.artistsByName.Keys && b.albumsByKey.Keys == c.albumsByKey.Keys
    ensures b.artistsByName == c.artistsByName && b.albumsByKey == c.albumsByKey
  {
    hide StableId, ArtistIdOf, AlbumIdOf;
    assert forall n :: n in b.artistsByName ==> n in c.artistsByName && b.artistsByName[n] == c.artistsByName[n];
    assert forall k :: k in b.albumsByKey ==> k in c.albumsByKey && b.albumsByKey[k] == c.albumsByKey[k];
  }

  lemma SafeAt(env: Env, chunks: seq<seq<Scanned>>, i: nat)
    requires AllTagged(Flatten(chunks)) && CutSafe(env, chunks) && i < |Flatten(chunks)|
    ensures var x := Flatten(chunks)[i];
            && ArtistSafe(env, chunks, ArtistIdOf(env, KeyOf(x).0)) && AlbumSafe(env, chunks, AlbumIdOf(env, KeyOf(x)))
            && TrackSafe(env, chunks, TrackIdOf(env, x))
  {
    hide ArtistSafe, AlbumSafe, TrackSafe, KeyOf, ArtistIdOf, AlbumIdOf, TrackIdOf, Flatten;
  }

  lemma SafeIs(env: Env, chunks: seq<seq<Scanned>>)
    requires AllTagged(Flatten(chunks))
    requires forall id :: ArtistSafe(env, chunks, id) && AlbumSafe(env, chunks, id) && TrackSafe(env, chunks, id)
    ensures CutSafe(env, chunks)
  {
    hide ArtistSafe, AlbumSafe, TrackSafe, KeyOf, ArtistIdOf, AlbumIdOf, TrackIdOf, Flatten;
  }

  lemma SafeEverywhere(env: Env, chunks: seq<seq<Scanned>>, id: Id)
    requires AllTagged(Flatten(chunks)) && CutSafe(env, chunks)
    ensures ArtistSafe(env, chunks, id) && AlbumSafe(env, chunks, id) && TrackSafe(env, chunks, id)
  {
    hide *;
    var xs := Flatten(chunks);
    ArtistIff(env, chunks, id);
    ArtistBuilt(env, xs, id);
    AlbumIff(env, chunks, id);
    AlbumBuilt(env, xs, id);
    TrackIff(env, chunks, id);
    TracksBuilt(env, xs, id);
    TrackMerged(env, chunks, id);
    if ArtistEvents(env, xs, id) != [] {
      var i := SomeArtistTrack(env, xs, id);
      SafeAt(env, chunks, i);
    }
    if AlbumEvents(env, xs, id) != [] {
      var i := SomeAlbumTrack(env, xs, id);
      SafeAt(env, chunks, i);
    }
    if LastTrack(env, xs, id).Some? {
      var i := SomeTrack(env, xs, id);
      SafeAt(env, chunks, i);
    } else {
      NothingFirst(env, chunks, id);
    }
  }

  lemma {:induction false} NothingFirst(env: Env, chunks: seq<seq<Scanned>>, t: Id)
    requires AllTagged(Flatten(chunks)) && LastTrack(env, Flatten(chunks), t).None?
    ensures FirstChunkTrack(env, chunks, t).None?
  {
    if chunks != [] {
      var (rest, last) := (chunks[..|chunks| - 1], chunks[|chunks| - 1]);
      TaggedLast(chunks);
      LastTrackJoin(env, Flatten(rest), last, t);
      NothingFirst(env, rest, t);
    }
  }

  lemma {:induction false} LastTrackJoin(env: Env, xs: seq<Scanned>, ys: seq<Scanned>, t: Id)
    requires AllTagged(xs + ys) && AllTagged(xs) && AllTagged(ys)
    ensures LastTrack(env, xs + ys, t) == if LastTrack(env, ys, t).Some? then LastTrack(env, ys, t)
                                          else LastTrack(env, xs, t)
    decreases |ys|
  {
    if ys == [] {
      assert xs + ys == xs;
    } else {
      assert (xs + ys)[..|xs + ys| - 1] == xs + ys[..|ys| - 1] && (xs + ys)[|xs + ys| - 1] == ys[|ys| - 1];
      LastTrackJoin(env, xs, ys[..|ys| - 1], t);
    }
    hide TrackIdOf;
  }

  /** For every cut: the merged index is the sequential one exactly when the cut is safe. */
  lemma CutIff(env: Env, chunks: seq<seq<Scanned>>)
    requires AllTagged(Flatten(chunks))
    ensures Parallel(env, chunks) == Sequential(env, Flatten(chunks)) <==> CutSafe(env, chunks)
  {
    hide *;
    var (p, s) := (Parallel(env, chunks), Sequential(env, Flatten(chunks)));
    ParallelFacts(env, chunks);
    SequentialFacts(env, Flatten(chunks));
    SameTables(env, p, s);
    forall id ensures
        && (id in p.artists <==> id in s.artists) && (id in p.albums <==> id in s.albums)
        && (ArtistSafe(env, chunks, id) <==> (id in p.artists ==> p.artists[id] == s.artists[id]))
        && (AlbumSafe(env, chunks, id) <==> (id in p.albums ==> p.albums[id] == s.albums[id]))
        && (TrackSafe(env, chunks, id)
            <==> (id in p.tracks <==> id in s.tracks) && (id in p.tracks ==> p.tracks[id] == s.tracks[id]))
    {
      ArtistIff(env, chunks, id);
      AlbumIff(env, chunks, id);
      TrackIff(env, chunks, id);
    }
    if CutSafe(env, chunks) {
      forall id ensures ArtistSafe(env, chunks, id) && AlbumSafe(env, chunks, id) && TrackSafe(env, chunks, id) {
        SafeEverywhere(env, chunks, id);
      }
      assert p.artists == s.artists;
      assert p.albums == s.albums;
      assert p.tracks == s.tracks;
    } else if p == s {
      SafeIs(env, chunks);
      assert false;
    }
  }

  // ---- The chunks of the source ----

  /** Exactly when the index built from chunks of a size is the sequential one. */
  lemma SizeIff(env: Env, xs: seq<Scanned>, size: nat)
    requires size > 0 && AllTagged(xs)
    ensures Flatten(ChunksOf(xs, size)) == xs
    ensures Parallel(env, ChunksOf(xs, size)) == Sequential(env, xs) <==> CutSafe(env, ChunksOf(xs, size))
  {
    ChunksFlatten(xs, size);
    hide *;
    CutIff(env, ChunksOf(xs, size));
  }

  /** A scan that fits one chunk is built sequentially, whatever collides. */
  lemma OneChunk(env: Env, xs: seq<Scanned>, threads: nat)
    requires threads > 0 && AllTagged(xs) && |xs| <= ChunkSize(|xs|, threads)
    ensures Parallel(env, ChunksOf(xs, ChunkSize(|xs|, threads))) == Sequential(env, xs)
  {
    if xs != [] {
      var chunks := [xs];
      assert ChunksOf(xs, ChunkSize(|xs|, threads)) == chunks;
      assert chunks[..0] == [] && Flatten(chunks) == Flatten([]) + xs == xs;
      hide *;
      forall id ensures ArtistSafe(env, chunks, id) && AlbumSafe(env, chunks, id) && TrackSafe(env, chunks, id) {
        OneChunkSafe(env, xs, id);
      }
      SafeIs(env, chunks);
      CutIff(env, chunks);
    }
  }

  lemma OneChunkSafe(env: Env, xs: seq<Scanned>, id: Id)
    requires AllTagged(xs)
    ensures Flatten([xs]) == xs
    ensures ArtistSafe(env, [xs], id) && AlbumSafe(env, [xs], id) && TrackSafe(env, [xs], id)
  {
    assert [xs][..0] == [];
    assert Flatten([xs]) == Flatten([]) + xs == xs;
    assert ArtistChunks(env, [xs], id) == [ArtistEvents(env, xs, id)];
    assert AlbumChunks(env, [xs], id) == [AlbumEvents(env, xs, id)];
    One(ArtistEvents(env, xs, id));
    One(AlbumEvents(env, xs, id));
    OneClean(AlbumEvents(env, xs, id));
    OneTrack(env, xs, id);
    hide FirstChunkTrack, Settled, Clean, Survivors, Compact, Kept, Values, ArtistEvents, AlbumEvents, LastTrack,
      Filled;
  }

  lemma OneTrack(env: Env, xs: seq<Scanned>, t: Id)
    requires AllTagged(xs)
    ensures Flatten([xs]) == xs && FirstChunkTrack(env, [xs], t) == LastTrack(env, xs, t)
  {
    assert [xs][..0] == [];
    assert Flatten([xs]) == Flatten([]) + xs == xs;
    hide LastTrack;
  }

  lemma One<L, V>(es: seq<(L, V)>)
    ensures Survivors([es]) == Kept(es) == Compact([es]) && Settled([es])
  {
    assert [es][..0] == [];
    hide Kept, Labels;
  }

  lemma OneClean(es: seq<(Key, Track)>)
    ensures Clean([es])
  {
    assert [es][..0] == [];
    hide Joins;
  }

  lemma {:induction false} ChunkAt(xs: seq<Scanned>, size: nat, c: nat)
    requires size > 0 && c * size < |xs|
    ensures c < |ChunksOf(xs, size)|
    ensures |ChunksOf(xs, size)[c]| == if |xs| - c * size <= size then |xs| - c * size else size
    ensures ChunksOf(xs, size)[c] == xs[c * size..c * size + |ChunksOf(xs, size)[c]|]
    ensures Flatten(ChunksOf(xs, size)[..c]) == xs[..c * size]
    decreases c
  {
    hide *;
    if c == 0 {
      FirstChunk(xs, size);
    } else {
      var chunks := ChunksOf(xs, size);
      OneLess(c, size);
      ChunksStep(xs, size);
      ChunkAt(xs[size..], size, c - 1);
      var tail := ChunksOf(xs[size..], size);
      assert chunks[..c] == [xs[..size]] + tail[..c - 1] && chunks[c] == tail[c - 1];
      FlattenCons(xs[..size], tail[..c - 1]);
      Shifted(xs, size, (c - 1) * size, |chunks[c]|);
    }
  }

  lemma {:induction false} ChunkInside(xs: seq<Scanned>, size: nat, c: nat)
    requires size > 0 && c < |ChunksOf(xs, size)|
    ensures c * size < |xs|
    decreases c
  {
    hide *;
    ChunksStep(xs, size);
    if c > 0 {
      OneLess(c, size);
      ChunkInside(xs[size..], size, c - 1);
    }
  }

  /** The chunks of the source: the scan in order, cut so that every chunk but the last has the tracks shared among the
      threads, but at least 256. */
  lemma ChunksShared(xs: seq<Scanned>, threads: nat, c: nat)
    requires threads > 0 && c < |ChunksOf(xs, ChunkSize(|xs|, threads))|
    ensures var (chunks, size) := (ChunksOf(xs, ChunkSize(|xs|, threads)), Max(|xs| / threads, 256));
            && Flatten(chunks) == xs && c * size < |xs| && Flatten(chunks[..c]) == xs[..c * size]
            && 0 < |chunks[c]| <= size && (c + 1 < |chunks| ==> |chunks[c]| == size)
  {
    var size := ChunkSize(|xs|, threads);
    assert size == Max(|xs| / threads, 256);
    hide *;
    ChunksFlatten(xs, size);
    ChunkInside(xs, size, c);
    ChunkAt(xs, size, c);
    if c + 1 < |ChunksOf(xs, size)| {
      ChunkInside(xs, size, c + 1);
      OneLess(c + 1, size);
    }
  }

  lemma FirstChunk(xs: seq<Scanned>, size: nat)
    requires size > 0 && xs != []
    ensures var chunks := ChunksOf(xs, size);
            chunks != [] && chunks[0] == (if |xs| <= size then xs else xs[..size]) &&
              Flatten(chunks[..0]) == [] == xs[..0]
  {
  }

  lemma OneLess(c: nat, size: nat)
    requires c > 0
    ensures c * size == (c - 1) * size + size && (c - 1) * size >= 0
  {
  }

  lemma Shifted(xs: seq<Scanned>, size: nat, start: nat, n: nat)
    requires size + start + n <= |xs|
    ensures xs[size..][start..start + n] == xs[start + size..start + size + n]
    ensures xs[..size] + xs[size..][..start] == xs[..start + size]
  {
  }

  lemma {:induction false} ArtistChunksAt(env: Env, chunks: seq<seq<Scanned>>, r: Id, c: nat)
    requires AllTagged(Flatten(chunks)) && c < |chunks|
    ensures AllTagged(chunks[c]) && ArtistChunks(env, chunks, r)[c] == ArtistEvents(env, chunks[c], r)
    ensures AllTagged(Flatten(chunks[..c])) && ArtistChunks(env, chunks, r)[..c] == ArtistChunks(env, chunks[..c], r)
  {
    var n := |chunks| - 1;
    ChunksLast(env, chunks, r);
    if c < n {
      ArtistChunksAt(env, chunks[..n], r, c);
      assert chunks[..n][..c] == chunks[..c];
      assert ArtistChunks(env, chunks, r)[..c] == ArtistChunks(env, chunks, r)[..n][..c];
    }
    hide ArtistEvents, ArtistChunks;
  }

  /** An album artist that first occurs in a chunk when an earlier chunk has its id breaks the index. */
  lemma NewNameBreaks(env: Env, xs: seq<Scanned>, size: nat, i: nat, j: nat)
    requires size > 0 && AllTagged(xs) && i < j < |xs| && i < j / size * size
    requires ArtistIdOf(env, KeyOf(xs[i]).0) == ArtistIdOf(env, KeyOf(xs[j]).0)
    requires forall p :: 0 <= p < j / size * size ==> KeyOf(xs[p]).0 != KeyOf(xs[j]).0
    ensures Flatten(ChunksOf(xs, size)) == xs && Parallel(env, ChunksOf(xs, size)) != Sequential(env, xs)
  {
    hide *;
    TaggedAt(xs, j);
    var (c, chunks, name) := (j / size, ChunksOf(xs, size), KeyOf(xs[j]).0);
    var (r, before) := (ArtistIdOf(env, name), xs[..c * size]);
    InChunk(j, size);
    ChunkAt(xs, size, c);
    SizeIff(env, xs, size);
    ArtistChunksAt(env, chunks, r, c);
    ChunksJoined(env, chunks[..c], r);
    NameTaken(env, xs, before, i, name);
    NameGiven(env, xs, chunks[c], j, c * size);
    UnsettledAt(ArtistChunks(env, chunks, r), c, name);
    if CutSafe(env, chunks) {
      SafeEverywhere(env, chunks, r);
      ArtistSafeSettled(env, chunks, r);
    }
  }

  lemma TaggedAt(xs: seq<Scanned>, j: nat)
    requires AllTagged(xs) && j < |xs|
    ensures xs[j].tags.Some?
  {
  }

  lemma NameTaken(env: Env, xs: seq<Scanned>, before: seq<Scanned>, i: nat, name: string)
    requires AllTagged(xs) && before <= xs && i < |before| && ArtistIdOf(env, KeyOf(xs[i]).0) == ArtistIdOf(env, name)
    requires forall p :: 0 <= p < |before| ==> KeyOf(xs[p]).0 != name
    ensures AllTagged(before)
    ensures ArtistEvents(env, before, ArtistIdOf(env, name)) != []
    ensures name !in Labels(ArtistEvents(env, before, ArtistIdOf(env, name)))
  {
    ArtistLabels(env, before, ArtistIdOf(env, name));
    NameIn(before, i);
    NameNotIn(before, name);
    LabelsNone<string, Id>();
    hide Labels, ArtistEvents, Names, ArtistIdOf, KeyOf;
  }

  lemma NameGiven(env: Env, xs: seq<Scanned>, chunk: seq<Scanned>, j: nat, start: nat)
    requires AllTagged(xs) && start <= j < start + |chunk| <= |xs| && chunk == xs[start..start + |chunk|]
    ensures AllTagged(chunk) && KeyOf(xs[j]).0 in Labels(ArtistEvents(env, chunk, ArtistIdOf(env, KeyOf(xs[j]).0)))
  {
    assert chunk[j - start] == xs[j];
    assert AllTagged(chunk);
    ArtistLabels(env, chunk, ArtistIdOf(env, KeyOf(xs[j]).0));
    NameIn(chunk, j - start);
    hide Labels, ArtistEvents, Names, ArtistIdOf, KeyOf;
  }

  lemma InChunk(j: nat, size: nat)
    requires size > 0
    ensures j / size * size <= j < (j / size + 1) * size
  {
    assert j == j / size * size + j % size;
    assert (j / size + 1) * size == j / size * size + size;
  }

  lemma NameIn(xs: seq<Scanned>, i: nat)
    requires AllTagged(xs) && i < |xs|
    ensures KeyOf(xs[i]).0 in Names(xs)
  {
    hide KeyOf;
  }

  lemma NameNotIn(xs: seq<Scanned>, name: string)
    requires AllTagged(xs) && forall p :: 0 <= p < |xs| ==> KeyOf(xs[p]).0 != name
    ensures name !in Names(xs)
  {
    hide KeyOf;
  }

  lemma LabelsNone<L, V>()
    ensures Labels<L, V>([]) == {}
  {
  }

  lemma UnsettledAt<L, V>(es: seq<seq<(L, V)>>, c: nat, l: L)
    requires c < |es| && Joined(es[..c]) != [] && l in Labels(es[c]) && l !in Labels(Joined(es[..c]))
    ensures !Settled(es)
  {
    hide Labels, Joined;
  }

  lemma ArtistSafeSettled(env: Env, chunks: seq<seq<Scanned>>, r: Id)
    requires AllTagged(Flatten(chunks)) && ArtistSafe(env, chunks, r)
    ensures Settled(ArtistChunks(env, chunks, r))
  {
    hide Settled, ArtistChunks;
  }

  // ---- Every cut ----

  /** However the tracks are cut, the merged builders are the sequential one. */
  ghost predicate ChunkingIrrelevant(env: Env, xs: seq<Scanned>)
    requires AllTagged(xs)
  {
    forall chunks :: Flatten(chunks) == xs ==> Parallel(env, chunks) == Sequential(env, xs)
  }

  function Singles(xs: seq<Scanned>): (chunks: seq<seq<Scanned>>)
    ensures Flatten(chunks) == xs
  {
    if xs == [] then []
    else
      assert xs == xs[..|xs| - 1] + [xs[|xs| - 1]];
      Singles(xs[..|xs| - 1]) + [[xs[|xs| - 1]]]
  }

  predicate AtMostOne<T>(es: seq<seq<T>>) {
    forall j :: 0 <= j < |es| ==> |es[j]| <= 1
  }

  lemma {:induction false} SinglesChunks(env: Env, xs: seq<Scanned>, id: Id)
    requires AllTagged(xs)
    ensures AtMostOne(ArtistChunks(env, Singles(xs), id)) && AtMostOne(AlbumChunks(env, Singles(xs), id))
  {
    hide *;
    if xs == [] {
      NoSingles(env, id);
    } else {
      var (rest, x) := (xs[..|xs| - 1], xs[|xs| - 1]);
      TaggedRest(xs);
      SinglesChunks(env, rest, id);
      SinglesLast(xs);
      ChunksLast(env, Singles(xs), id);
      OneEvent(env, x, id);
      AtMostOneLast(ArtistChunks(env, Singles(xs), id));
      AtMostOneLast(AlbumChunks(env, Singles(xs), id));
    }
  }

  lemma NoSingles(env: Env, id: Id)
    ensures AtMostOne(ArtistChunks(env, Singles([]), id)) && AtMostOne(AlbumChunks(env, Singles([]), id))
  {
  }

  lemma SinglesLast(xs: seq<Scanned>)
    requires xs != []
    ensures Singles(xs) != [] && Singles(xs)[..|Singles(xs)| - 1] == Singles(xs[..|xs| - 1])
    ensures Singles(xs)[|Singles(xs)| - 1] == [xs[|xs| - 1]]
  {
    hide Flatten;
  }

  lemma OneEvent(env: Env, x: Scanned, id: Id)
    requires x.tags.Some?
    ensures AllTagged([x]) && |ArtistEvents(env, [x], id)| <= 1 && |AlbumEvents(env, [x], id)| <= 1
  {
    assert [x][..0] == [];
    hide ArtistIdOf, AlbumIdOf, TrackOf;
  }

  lemma AtMostOneLast<T>(es: seq<seq<T>>)
    requires es != [] && AtMostOne(es[..|es| - 1]) && |es[|es| - 1]| <= 1
    ensures AtMostOne(es)
  {
    forall j | 0 <= j < |es| ensures |es[j]| <= 1 {
      if j < |es| - 1 {
        assert es[..|es| - 1][j] == es[j];
      }
    }
  }

  lemma {:induction false} SettledSingles<L, V>(es: seq<seq<(L, V)>>)
    requires AtMostOne(es) && Settled(es)
    ensures forall l, m :: l in Labels(Joined(es)) && m in Labels(Joined(es)) ==> l == m
  {
    if es != [] {
      var (rest, last) := (es[..|es| - 1], es[|es| - 1]);
      SettledRest(es);
      SettledSingles(rest);
      LabelsJoin(Joined(rest), last);
      if last != [] {
        LabelsOne(last[0]);
        assert last == [last[0]];
      }
      if Joined(rest) == [] {
        assert Joined(es) == last;
      }
      hide Settled, Labels;
    }
  }

  lemma {:induction false} CleanSingles(es: seq<seq<(Key, Track)>>)
    requires AtMostOne(es) && Clean(es)
    ensures Compact(es) == Joined(es) && Fresh([], TrackIds(Values(Joined(es))))
  {
    if es != [] {
      var (rest, last) := (es[..|es| - 1], es[|es| - 1]);
      assert AtMostOne(rest) && |last| <= 1;
      CleanRest(es);
      CleanSingles(rest);
      CompactLast(es);
      hide *;
      if last == [] {
        assert Joined(rest) + last == Joined(rest);
      } else {
        assert last == [last[0]];
        KeptOne(last[0]);
        if Joined(rest) == [] {
          FreshOne(last[0]);
          assert Joined(rest) + last == last;
        } else {
          FreshMore(Joined(rest), last[0]);
        }
      }
    }
  }

  lemma CompactLast<L, V>(es: seq<seq<(L, V)>>)
    requires es != []
    ensures var (rest, last) := (es[..|es| - 1], es[|es| - 1]);
            && Joined(es) == Joined(rest) + last && (last == [] ==> Kept(last) == [])
            && Compact(es) == if Joined(rest) == [] then Kept(last) else Compact(rest) + last
  {
  }

  lemma KeptOne<L, V>(e: (L, V))
    ensures Kept([e]) == [e]
  {
    assert [e][..0] == [];
  }

  lemma FreshOne(e: (Key, Track))
    ensures Fresh([], TrackIds(Values([e])))
  {
  }

  lemma FreshMore(es: seq<(Key, Track)>, e: (Key, Track))
    requires Fresh([], TrackIds(Values(es))) && Joins(TrackIds(Values(es)), [e])
    ensures Fresh([], TrackIds(Values(es + [e])))
  {
    ValuesJoin(es, [e]);
    ValuesOne(e);
    IdsJoin(Values(es), [e.1]);
    assert TrackIds([e.1]) == [e.1.id] && [e][0].1.id !in TrackIds(Values(es));
    hide Values, TrackIds;
  }

  /** The ids an album's tracks have. */
  function AlbumIds(env: Env, xs: seq<Scanned>, a: Id): seq<Id>
    requires AllTagged(xs)
  {
    TrackIds(Values(AlbumEvents(env, xs, a)))
  }

  lemma AlbumIdsGrow(env: Env, xs: seq<Scanned>, a: Id)
    requires AllTagged(xs) && xs != []
    ensures AllTagged(xs[..|xs| - 1]) && xs[|xs| - 1].tags.Some?
    ensures var (rest, x) := (xs[..|xs| - 1], xs[|xs| - 1]);
            AlbumIds(env, xs, a) == if AlbumIdOf(env, KeyOf(x)) == a then AlbumIds(env, rest, a) + [TrackIdOf(env, x)]
                                    else AlbumIds(env, rest, a)
  {
    var (rest, x) := (xs[..|xs| - 1], xs[|xs| - 1]);
    AlbumGrows(env, xs, a);
    hide AlbumEvents, AlbumIdOf, KeyOf, Values, TrackIdOf;
    ValuesJoin(AlbumEvents(env, rest, a), [(KeyOf(x), TrackOf(env, x))]);
    ValuesOne((KeyOf(x), TrackOf(env, x)));
    IdsJoin(Values(AlbumEvents(env, rest, a)), [TrackOf(env, x)]);
    assert TrackIds([TrackOf(env, x)]) == [TrackIdOf(env, x)];
  }

  lemma {:induction false} EventOf(env: Env, xs: seq<Scanned>, i: nat)
    requires AllTagged(xs) && i < |xs|
    ensures TrackIdOf(env, xs[i]) in AlbumIds(env, xs, AlbumIdOf(env, KeyOf(xs[i])))
  {
    var rest := xs[..|xs| - 1];
    AlbumIdsGrow(env, xs, AlbumIdOf(env, KeyOf(xs[i])));
    hide AlbumIds, AlbumIdOf, KeyOf, TrackIdOf;
    if i < |rest| {
      assert rest[i] == xs[i];
      EventOf(env, rest, i);
    }
  }

  lemma {:induction false} FreshTracks(env: Env, xs: seq<Scanned>, i: nat, j: nat)
    requires AllTagged(xs) && i < j < |xs| && KeyOf(xs[i]) == KeyOf(xs[j])
    requires Fresh([], AlbumIds(env, xs, AlbumIdOf(env, KeyOf(xs[j]))))
    ensures TrackIdOf(env, xs[i]) != TrackIdOf(env, xs[j])
  {
    hide *;
    TaggedAt(xs, i);
    TaggedAt(xs, j);
    var (rest, x, a) := (xs[..|xs| - 1], xs[|xs| - 1], AlbumIdOf(env, KeyOf(xs[j])));
    AlbumIdsGrow(env, xs, a);
    FreshRest(AlbumIds(env, rest, a), TrackIdOf(env, x));
    assert rest[i] == xs[i];
    if j < |rest| {
      assert rest[j] == xs[j];
      FreshTracks(env, rest, i, j);
    } else {
      EventOf(env, rest, i);
      FreshLast(AlbumIds(env, rest, a), TrackIdOf(env, x));
    }
  }

  lemma FreshRest(ids: seq<Id>, id: Id)
    requires Fresh([], ids + [id]) || Fresh([], ids)
    ensures Fresh([], ids)
  {
    if Fresh([], ids + [id]) {
      assert forall i :: 0 <= i < |ids| ==> (ids + [id])[i] == ids[i];
    }
  }

  lemma FreshLast(ids: seq<Id>, id: Id)
    requires Fresh([], ids + [id])
    ensures id !in ids
  {
    assert (ids + [id])[|ids|] == id;
    assert forall i :: 0 <= i < |ids| ==> (ids + [id])[i] == ids[i];
  }

  lemma {:induction false} FirstSingle(env: Env, xs: seq<Scanned>, p: nat)
    requires AllTagged(xs) && p < |xs| && forall i :: 0 <= i < p ==> TrackIdOf(env, xs[i]) != TrackIdOf(env, xs[p])
    ensures FirstChunkTrack(env, Singles(xs), TrackIdOf(env, xs[p])) == Some(TrackOf(env, xs[p]))
  {
    var (rest, x, t) := (xs[..|xs| - 1], xs[|xs| - 1], TrackIdOf(env, xs[p]));
    assert [x][..0] == [];
    if p < |rest| {
      assert forall i :: 0 <= i <= p ==> rest[i] == xs[i];
      FirstSingle(env, rest, p);
    } else {
      assert forall i :: 0 <= i < |rest| ==> rest[i] == xs[i];
      NoTrack(env, rest, t);
      NothingFirst(env, Singles(rest), t);
    }
    hide TrackIdOf, Flatten;
  }

  lemma {:induction false} NoTrack(env: Env, xs: seq<Scanned>, t: Id)
    requires AllTagged(xs) && forall i :: 0 <= i < |xs| ==> TrackIdOf(env, xs[i]) != t
    ensures LastTrack(env, xs, t).None?
  {
    if xs != [] {
      assert forall i :: 0 <= i < |xs| - 1 ==> xs[..|xs| - 1][i] == xs[i];
      NoTrack(env, xs[..|xs| - 1], t);
    }
  }

  lemma {:induction false} LastTrackAt(env: Env, xs: seq<Scanned>, q: nat)
    requires AllTagged(xs) && q < |xs| && forall i :: q < i < |xs| ==> TrackIdOf(env, xs[i]) != TrackIdOf(env, xs[q])
    ensures LastTrack(env, xs, TrackIdOf(env, xs[q])) == Some(TrackOf(env, xs[q]))
  {
    if q < |xs| - 1 {
      assert forall i :: 0 <= i < |xs| - 1 ==> xs[..|xs| - 1][i] == xs[i];
      LastTrackAt(env, xs[..|xs| - 1], q);
    }
    hide TrackIdOf;
  }

  lemma FirstAndLast(env: Env, xs: seq<Scanned>, i: nat, j: nat) returns (p: nat, q: nat)
    requires AllTagged(xs) && i < j < |xs| && TrackIdOf(env, xs[i]) == TrackIdOf(env, xs[j])
    ensures p < q < |xs| && TrackIdOf(env, xs[p]) == TrackIdOf(env, xs[i]) == TrackIdOf(env, xs[q])
    ensures forall k :: 0 <= k < p ==> TrackIdOf(env, xs[k]) != TrackIdOf(env, xs[p])
    ensures forall k :: q < k < |xs| ==> TrackIdOf(env, xs[k]) != TrackIdOf(env, xs[q])
  {
    hide TrackIdOf;
    var t := TrackIdOf(env, xs[i]);
    p := 0;
    while TrackIdOf(env, xs[p]) != t
      invariant p <= i && forall k :: 0 <= k < p ==> TrackIdOf(env, xs[k]) != t
      decreases i - p
    {
      p := p + 1;
    }
    q := |xs| - 1;
    while TrackIdOf(env, xs[q]) != t
      invariant j <= q < |xs| && forall k :: q < k < |xs| ==> TrackIdOf(env, xs[k]) != t
      decreases q
    {
      q := q - 1;
    }
  }

  lemma SinglesTell(env: Env, xs: seq<Scanned>, i: nat, j: nat)
    requires AllTagged(xs) && CutSafe(env, Singles(xs)) && i < |xs| && j < |xs|
    ensures ArtistIdOf(env, KeyOf(xs[i]).0) == ArtistIdOf(env, KeyOf(xs[j]).0) ==> KeyOf(xs[i]).0 == KeyOf(xs[j]).0
    ensures AlbumIdOf(env, KeyOf(xs[i])) == AlbumIdOf(env, KeyOf(xs[j])) ==> KeyOf(xs[i]) == KeyOf(xs[j])
    ensures Fresh([], AlbumIds(env, xs, AlbumIdOf(env, KeyOf(xs[j]))))
  {
    TaggedAt(xs, i);
    TaggedAt(xs, j);
    var (r, a, chunks) := (ArtistIdOf(env, KeyOf(xs[j]).0), AlbumIdOf(env, KeyOf(xs[j])), Singles(xs));
    SafeEverywhere(env, chunks, r);
    SafeEverywhere(env, chunks, a);
    ArtistSafeSettled(env, chunks, r);
    AlbumSafeParts(env, chunks, a);
    SinglesChunks(env, xs, r);
    SinglesChunks(env, xs, a);
    ChunksJoined(env, chunks, r);
    ChunksJoined(env, chunks, a);
    hide *;
    SettledSingles(ArtistChunks(env, chunks, r));
    SettledSingles(AlbumChunks(env, chunks, a));
    CleanSingles(AlbumChunks(env, chunks, a));
    ArtistLabels(env, xs, r);
    AlbumLabels(env, xs, a);
    NameIn(xs, i);
    NameIn(xs, j);
    KeyIn(xs, i);
    KeyIn(xs, j);
    AlbumIdsAre(env, xs, a);
  }

  lemma AlbumIdsAre(env: Env, xs: seq<Scanned>, a: Id)
    requires AllTagged(xs)
    ensures AlbumIds(env, xs, a) == TrackIds(Values(AlbumEvents(env, xs, a)))
  {
    hide AlbumEvents, Values, TrackIds;
  }

  lemma KeyIn(xs: seq<Scanned>, i: nat)
    requires AllTagged(xs) && i < |xs|
    ensures KeyOf(xs[i]) in Keys(xs)
  {
    hide KeyOf;
  }

  lemma AlbumSafeParts(env: Env, chunks: seq<seq<Scanned>>, a: Id)
    requires AllTagged(Flatten(chunks)) && AlbumSafe(env, chunks, a)
    ensures Settled(AlbumChunks(env, chunks, a)) && Clean(AlbumChunks(env, chunks, a))
  {
    hide Settled, Clean, AlbumChunks, Compact, StandIns, Filled, Values;
  }

  lemma SameTags(env: Env, x: Scanned, y: Scanned)
    requires x.tags.Some? && y.tags.Some? && TrackOf(env, x) == TrackOf(env, y)
    ensures KeyOf(x) == KeyOf(y)
  {
    hide TrackIdOf;
  }

  lemma SinglesApart(env: Env, xs: seq<Scanned>)
    requires AllTagged(xs) && CutSafe(env, Singles(xs))
    ensures Apart(env, xs)
  {
    hide CutSafe, KeyOf, StableId, ArtistIdOf, AlbumIdOf, TrackIdOf, AlbumIds, Fresh, Singles, TrackOf;
    forall i, j | 0 <= i < |xs| && 0 <= j < |xs|
      ensures ArtistIdOf(env, KeyOf(xs[i]).0) == ArtistIdOf(env, KeyOf(xs[j]).0) ==> KeyOf(xs[i]).0 == KeyOf(xs[j]).0
      ensures AlbumIdOf(env, KeyOf(xs[i])) == AlbumIdOf(env, KeyOf(xs[j])) ==> KeyOf(xs[i]) == KeyOf(xs[j])
    {
      SinglesTell(env, xs, i, j);
    }
    forall i, j | 0 <= i < j < |xs| ensures TrackIdOf(env, xs[i]) != TrackIdOf(env, xs[j]) {
      if TrackIdOf(env, xs[i]) == TrackIdOf(env, xs[j]) {
        var p, q := FirstAndLast(env, xs, i, j);
        FirstSingle(env, xs, p);
        LastTrackAt(env, xs, q);
        SafeEverywhere(env, Singles(xs), TrackIdOf(env, xs[p]));
        SameTags(env, xs[p], xs[q]);
        SinglesTell(env, xs, p, q);
        FreshTracks(env, xs, p, q);
      }
    }
  }

  /** No way of cutting the scan matters exactly when no two album artists, no two albums and no two tracks of it share
      a derived id. */
  lemma ExactCondition(env: Env, xs: seq<Scanned>)
    requires AllTagged(xs)
    ensures ChunkingIrrelevant(env, xs) <==> ArtistsApart(env, xs) && AlbumsApart(env, xs) && TracksApart(env, xs)
  {
    hide ArtistsApart, AlbumsApart, TracksApart, Sequential, Parallel, CutSafe;
    if Apart(env, xs) {
      forall chunks | Flatten(chunks) == xs ensures Parallel(env, chunks) == Sequential(env, xs) {
        ChunkedIsSequential(env, chunks);
      }
    } else {
      CutIff(env, Singles(xs));
      if CutSafe(env, Singles(xs)) {
        SinglesApart(env, xs);
      }
    }
  }

  // ---- Scans that the source cuts badly ----

  lemma {:induction false} SlugIgnoresCase(slug: string, a: string, b: string)
    requires SameIgnoringCase(a, b)
    ensures SlugFrom(slug, a) == SlugFrom(slug, b)
    decreases |a|
  {
    if a != "" {
      SlugIgnoresCase(SlugPushed(slug, a[0]), a[1..], b[1..]);
    }
  }

  /** ASCII names that differ only in case have one id, whatever the digest, unless nothing of them is left in a
      slug. */
  lemma CaseIgnored(env: Env, a: string, b: string)
    requires SameIgnoringCase(a, b) && Slugify(a) != "" && IsAscii(a) && IsAscii(b)
    ensures ArtistIdOf(env, a) == ArtistIdOf(env, b)
  {
    SlugIgnoresCase("", a, b);
  }

  /** So an album artist that first occurs, in another case, in a later chunk of the source breaks the index. */
  lemma CaseCollides(env: Env, xs: seq<Scanned>, threads: nat, i: nat, j: nat)
    requires threads > 0 && AllTagged(xs) && i < j < |xs|
    requires var size := ChunkSize(|xs|, threads);
             i < j / size * size && forall p :: 0 <= p < j / size * size ==> KeyOf(xs[p]).0 != KeyOf(xs[j]).0
    requires SameIgnoringCase(KeyOf(xs[i]).0, KeyOf(xs[j]).0) && Slugify(KeyOf(xs[i]).0) != ""
    requires IsAscii(KeyOf(xs[i]).0) && IsAscii(KeyOf(xs[j]).0)
    ensures var chunks := ChunksOf(xs, ChunkSize(|xs|, threads));
            Flatten(chunks) == xs && Parallel(env, chunks) != Sequential(env, xs)
  {
    CaseIgnored(env, KeyOf(xs[i]).0, KeyOf(xs[j]).0);
    hide ArtistIdOf, KeyOf, Parallel, Sequential, ChunksOf, Flatten, ChunkSize;
    NewNameBreaks(env, xs, ChunkSize(|xs|, threads), i, j);
  }

  function Song(artist: string, path: string): Scanned {
    Scanned(path, Some(Tags("title", artist, "album", None, None, None, [], None, None, None)), 1, 0)
  }

  function Path(n: nat): string {
    if n == 0 then "" else Path(n - 1) + "x"
  }

  /** Tracks of one artist, each at a path of its own. */
  function Songs(artist: string, n: nat): (xs: seq<Scanned>)
    ensures |xs| == n && AllTagged(xs) && forall i :: 0 <= i < n ==> KeyOf(xs[i]).0 == artist
  {
    if n == 0 then [] else Songs(artist, n - 1) + [Song(artist, Path(n))]
  }

  /** 256 tracks of "a" and one of "A". */
  function LargeScan(): (xs: seq<Scanned>)
    ensures |xs| == 257 && AllTagged(xs) && KeyOf(xs[256]).0 == "A"
    ensures forall i :: 0 <= i < 256 ==> KeyOf(xs[i]).0 == "a"
  {
    Songs("a", 256) + [Song("A", Path(257))]
  }

  /** A scan that every number of threads but one builds differently. */
  lemma LargeScanDiffers(env: Env, threads: nat)
    requires threads >= 2
    ensures var chunks := ChunksOf(LargeScan(), ChunkSize(257, threads));
            Flatten(chunks) == LargeScan() && Parallel(env, chunks) != Sequential(env, LargeScan())
  {
    hide *;
    SlugOfA();
    SmallShare(threads);
    CaseCollides(env, LargeScan(), threads, 0, 256);
  }

  lemma SmallShare(threads: nat)
    requires threads >= 2
    ensures ChunkSize(257, threads) == 256 && 256 / 256 * 256 == 256
  {
    assert 257 / threads <= 257 / 2;
  }

  lemma SlugOfA()
    ensures Slugify("a") != "" && SameIgnoringCase("a", "A") && IsAscii("a") && IsAscii("A")
  {
    assert "a"[1..] == "";
    assert SlugPushed("", 'a') == "a";
    assert SlugFrom("", "a") == "a";
  }

  /** A colon may belong to the artist or to the title: such albums share an id, whatever the digest. */
  lemma ColonCollides(env: Env, artist: string, middle: string, title: string)
    ensures AlbumIdOf(env, (artist + ":" + middle, title)) == AlbumIdOf(env, (artist, middle + ":" + title))
    ensures (artist + ":" + middle, title) != (artist, middle + ":" + title)
  {
    assert (artist + ":" + middle) + ":" + title == artist + ":" + (middle + ":" + title);
    assert |artist + ":" + middle| > |artist|;
  }
}
