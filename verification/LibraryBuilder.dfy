/** The builder as the object the scanner fills (scanner.rs, struct LibraryBuilder and build_index_parallel),
    proved to leave the values of LibraryIndex.

    The methods do on fields, loop by loop, what the functions of LibraryIndex do on values. Where the source visits the
    other builder's maps in key order, the loops here take any key that is left, so the result does not depend on the
    order. A null builder stands for the error of a missing tag. */
module LibraryBuilders {
  import opened Wrappers
  import opened LibraryIndex
  import opened LibraryMerge
  import C = LibraryCollisions

  // ---- Loops over lists and maps ----

  lemma {:induction false} GenresJoin(genres: seq<string>, a: seq<string>, b: seq<string>)
    ensures AddGenres(genres, a + b) == AddGenres(AddGenres(genres, a), b)
    decreases |a|
  {
    if a == [] {
      assert a + b == b;
    } else {
      assert (a + b)[1..] == a[1..] + b;
      GenresJoin(if HasGenre(genres, a[0]) then genres else genres + [a[0]], a[1..], b);
    }
  }

  lemma GenresTake(genres: seq<string>, more: seq<string>, i: nat)
    requires i < |more|
    ensures var done := AddGenres(genres, more[..i]);
            AddGenres(genres, more[..i + 1]) == if HasGenre(done, more[i]) then done else done + [more[i]]
  {
    hide HasGenre;
    GenresJoin(genres, more[..i], [more[i]]);
    assert more[..i] + [more[i]] == more[..i + 1];
    assert [more[i]][1..] == [];
  }

  /** The genres that are not there yet, in any case of letters. */
  method MergeGenres(genres: seq<string>, more: seq<string>) returns (r: seq<string>)
    ensures r == AddGenres(genres, more)
  {
    hide HasGenre;
    r := genres;
    for i := 0 to |more|
      invariant r == AddGenres(genres, more[..i])
    {
      GenresTake(genres, more, i);
      if !HasGenre(r, more[i]) {
        r := r + [more[i]];
      }
    }
    assert more[..|more|] == more;
  }

  /** The first half: what a track adds up in its album. */
  method MergeCounts(album: Album, track: Track) returns (r: Album)
    ensures r == album.(
              sizeBytes := SaturatingAdd(album.sizeBytes, track.fileSize, U64_MAX),
              durationSeconds := AddedDuration(album.durationSeconds, track.tags.durationSeconds),
              discCount := LargerDisc(album.discCount, track.tags.discNumber))
  {
    hide SaturatingAdd;
    var tags := track.tags;
    r := album.(sizeBytes := SaturatingAdd(album.sizeBytes, track.fileSize, U64_MAX));
    if tags.durationSeconds.Some? {
      r := r.(durationSeconds := Some(SaturatingAdd(OrZero(r.durationSeconds), tags.durationSeconds.value, U32_MAX)));
    }
    if tags.discNumber.Some? {
      r := r.(discCount := Some(Max(OrZero(r.discCount), tags.discNumber.value)));
    }
  }

  /** The second half: what a track tells of its album when no earlier one did. */
  method FillMissing(env: Env, album: Album, tags: Tags) returns (r: Album)
    ensures r == album.(
              albumArtist := FirstOf(album.albumArtist, Some(AlbumArtistOf(tags))),
              date := FirstOf(album.date, tags.date),
              year := FirstOf(album.year, if tags.date.Some? then env.year(tags.date.value) else None),
              musicbrainzAlbumId := FirstOf(album.musicbrainzAlbumId, tags.musicbrainzAlbumId),
              musicbrainzReleaseGroupId := FirstOf(album.musicbrainzReleaseGroupId, tags.musicbrainzReleaseGroupId))
  {
    r := album;
    if r.albumArtist.None? {
      r := r.(albumArtist := if tags.albumArtist.Some? then tags.albumArtist else Some(tags.artist));
    }
    if r.date.None? {
      r := r.(date := tags.date);
    }
    if r.year.None? {
      r := r.(year := if tags.date.Some? then env.year(tags.date.value) else None);
    }
    if r.musicbrainzAlbumId.None? {
      r := r.(musicbrainzAlbumId := tags.musicbrainzAlbumId);
    }
    if r.musicbrainzReleaseGroupId.None? {
      r := r.(musicbrainzReleaseGroupId := tags.musicbrainzReleaseGroupId);
    }
  }

  method MergeAlbumTrackMetadata(env: Env, album: Album, track: Track) returns (r: Album)
    ensures r == MergeMetadata(env, album, track)
  {
    hide AddGenres, SaturatingAdd, AddedDuration, LargerDisc, FirstOf, AlbumArtistOf;
    r := MergeCounts(album, track);
    r := FillMissing(env, r, track.tags);
    var genres := MergeGenres(r.genres, track.tags.genres);
    r := r.(genres := genres);
  }

  lemma PushTake(ids: seq<Id>, more: seq<Id>, i: nat)
    requires i < |more|
    ensures PushAllNew(ids, more[..i + 1]) == PushNew(PushAllNew(ids, more[..i]), more[i])
  {
    assert more[..i + 1][..i] == more[..i];
  }

  lemma AbsorbTake(env: Env, album: Album, ids: seq<Id>, tracks: map<Id, Track>, i: nat)
    requires i < |ids|
    ensures var done := Absorb(env, album, ids[..i], tracks);
            Absorb(env, album, ids[..i + 1], tracks)
            == if ids[i] !in tracks || ids[i] in done.trackIds then done
               else MergeMetadata(env, done.(trackIds := done.trackIds + [ids[i]]), tracks[ids[i]])
  {
    assert ids[..i + 1][..i] == ids[..i];
  }

  method PushAll(ids: seq<Id>, more: seq<Id>) returns (r: seq<Id>)
    ensures r == PushAllNew(ids, more)
  {
    r := ids;
    for i := 0 to |more|
      invariant r == PushAllNew(ids, more[..i])
    {
      PushTake(ids, more, i);
      if more[i] !in r {
        r := r + [more[i]];
      }
    }
    assert more[..|more|] == more;
  }

  method AbsorbAlbum(env: Env, album: Album, other: Album, tracks: map<Id, Track>) returns (r: Album)
    ensures r == Absorb(env, album, other.trackIds, tracks)
  {
    var ids := other.trackIds;
    r := album;
    for i := 0 to |ids|
      invariant r == Absorb(env, album, ids[..i], tracks)
    {
      AbsorbTake(env, album, ids, tracks, i);
      if ids[i] in tracks && ids[i] !in r.trackIds {
        r := MergeAlbumTrackMetadata(env, r.(trackIds := r.trackIds + [ids[i]]), tracks[ids[i]]);
      }
    }
    assert ids[..|ids|] == ids;
  }

  lemma ArtistsStep(mine: map<Id, Artist>, theirs: map<Id, Artist>, rest: set<Id>, id: Id)
    requires id in rest && rest <= theirs.Keys
    ensures var done := theirs.Keys - rest;
            MergedArtists(mine, theirs, theirs.Keys - (rest - {id}))
              == MergedArtists(mine, theirs, done)[id := MergedArtist(mine, theirs, id)]
  {
    hide MergedArtist;
    var l := MergedArtists(mine, theirs, theirs.Keys - (rest - {id}));
    var r := MergedArtists(mine, theirs, theirs.Keys - rest)[id := MergedArtist(mine, theirs, id)];
    assert l.Keys == r.Keys;
  }

  lemma AlbumsStep(env: Env, mine: map<Id, Album>, theirs: map<Id, Album>, tracks: map<Id, Track>, rest: set<Id>,
                   id: Id)
    requires id in rest && rest <= theirs.Keys
    ensures var done := theirs.Keys - rest;
            MergedAlbums(env, mine, theirs, tracks, theirs.Keys - (rest - {id}))
            == MergedAlbums(env, mine, theirs, tracks, done)[id := MergedAlbum(env, mine, theirs, tracks, id)]
  {
    hide MergedAlbum;
    var l := MergedAlbums(env, mine, theirs, tracks, theirs.Keys - (rest - {id}));
    var r := MergedAlbums(env, mine, theirs, tracks,
                          theirs.Keys - rest)[id := MergedAlbum(env, mine, theirs, tracks, id)];
    assert l.Keys == r.Keys;
  }

  class LibraryBuilder {
    const env: Env
    var artistsByName: map<string, Id>
    var albumsByKey: map<Key, Id>
    var artists: map<Id, Artist>
    var albums: map<Id, Album>
    var tracks: map<Id, Track>

    function View(): Builder
      reads this
    {
      Builder(artistsByName, albumsByKey, artists, albums, tracks)
    }

    constructor (env: Env)
      ensures View() == Empty() && this.env == env
    {
      this.env := env;
      artistsByName, albumsByKey, artists, albums, tracks := map[], map[], map[], map[], map[];
    }

    method ArtistIdFor(name: string) returns (id: Id)
      requires Consistent(View())
      modifies this`artistsByName, this`artists
      ensures (id, View()) == WithArtist(env, old(View()), name)
    {
      if name in artistsByName {
        return artistsByName[name];
      }
      id := ArtistIdOf(env, name);
      artistsByName := artistsByName[name := id];
      artists := artists[id := Artist(id, name, [])];
    }

    method AlbumIdFor(k: Key) returns (id: Id)
      requires Consistent(View())
      modifies this`albumsByKey, this`albums
      ensures (id, View()) == WithAlbum(env, old(View()), k)
    {
      if k in albumsByKey {
        return albumsByKey[k];
      }
      id := AlbumIdOf(env, k);
      albumsByKey := albumsByKey[k := id];
      albums := albums[id := NewAlbum(id, k)];
    }

    /** False is the error of a track without scanned tags. */
    method AddTrack(scanned: Scanned) returns (ok: bool)
      requires Consistent(View())
      modifies this
      ensures Consistent(View()) && ok == scanned.tags.Some?
      ensures View() == if ok then Add(env, old(View()), scanned) else old(View())
    {
      if scanned.tags.None? {
        return false;
      }
      hide ArtistIdOf, AlbumIdOf, TrackIdOf, MergeMetadata, NewAlbum;
      var k := KeyOf(scanned);
      var artistId := ArtistIdFor(k.0);
      var albumId := AlbumIdFor(k);
      var track := TrackOf(env, scanned);
      var artist := artists[artistId];
      if albumId !in artist.albumIds {
        artist := artist.(albumIds := artist.albumIds + [albumId]);
      }
      artists := artists[artistId := artist];
      var album := albums[albumId];
      album := MergeAlbumTrackMetadata(env, album.(trackIds := album.trackIds + [track.id]), track);
      albums := albums[albumId := album];
      tracks := tracks[track.id := track];
      ok := true;
    }

    method MergeArtists(theirs: map<Id, Artist>)
      modifies this`artists
      ensures artists == MergedArtists(old(artists), theirs, theirs.Keys)
    {
      ghost var mine := artists;
      var rest := theirs.Keys;
      assert MergedArtists(mine, theirs, theirs.Keys - rest) == mine;
      while rest != {}
        invariant rest <= theirs.Keys
        invariant artists == MergedArtists(mine, theirs, theirs.Keys - rest)
        decreases rest
      {
        var id :| id in rest;
        ArtistsStep(mine, theirs, rest, id);
        hide MergedArtists, PushAllNew;
        UndoneArtist(mine, theirs, rest, id);
        var target := if id in artists then artists[id] else Artist(id, theirs[id].name, []);
        var albumIds := PushAll(target.albumIds, theirs[id].albumIds);
        artists := artists[id := target.(albumIds := albumIds)];
        rest := rest - {id};
      }
      assert theirs.Keys - rest == theirs.Keys;
    }

    method MergeAlbums(theirs: map<Id, Album>, theirTracks: map<Id, Track>)
      modifies this`albums
      ensures albums == MergedAlbums(env, old(albums), theirs, theirTracks, theirs.Keys)
    {
      ghost var mine := albums;
      var rest := theirs.Keys;
      assert MergedAlbums(env, mine, theirs, theirTracks, theirs.Keys - rest) == mine;
      while rest != {}
        invariant rest <= theirs.Keys
        invariant albums == MergedAlbums(env, mine, theirs, theirTracks, theirs.Keys - rest)
        decreases rest
      {
        var id :| id in rest;
        AlbumsStep(env, mine, theirs, theirTracks, rest, id);
        hide MergedAlbums, Absorb;
        UndoneAlbum(env, mine, theirs, theirTracks, rest, id);
        if id !in albums {
          albums := albums[id := theirs[id]];
        } else {
          var album := AbsorbAlbum(env, albums[id], theirs[id], theirTracks);
          albums := albums[id := album];
        }
        rest := rest - {id};
      }
      assert theirs.Keys - rest == theirs.Keys;
    }

    method MergeBuilder(other: LibraryBuilder)
      requires Consistent(View()) && Consistent(other.View()) && other != this
      modifies this
      ensures View() == Merge(env, old(View()), old(other.View()))
    {
      hide MergedArtists, MergedAlbums, Consistent;
      MergeArtists(other.artists);
      albumsByKey := other.albumsByKey + albumsByKey;
      artistsByName := other.artistsByName + artistsByName;
      MergeAlbums(other.albums, other.tracks);
      tracks := other.tracks + tracks;
    }
  }

  lemma UndoneArtist(mine: map<Id, Artist>, theirs: map<Id, Artist>, rest: set<Id>, id: Id)
    requires id in rest && rest <= theirs.Keys
    ensures var now := MergedArtists(mine, theirs, theirs.Keys - rest);
            (id in now <==> id in mine) && (id in mine ==> now[id] == mine[id])
  {
    hide MergedArtist;
  }

  lemma UndoneAlbum(env: Env, mine: map<Id, Album>, theirs: map<Id, Album>, tracks: map<Id, Track>, rest: set<Id>,
                    id: Id)
    requires id in rest && rest <= theirs.Keys
    ensures var now := MergedAlbums(env, mine, theirs, tracks, theirs.Keys - rest);
            (id in now <==> id in mine) && (id in mine ==> now[id] == mine[id])
  {
    hide MergedAlbum;
  }

  // ---- The index of a scan ----

  lemma SequentialTake(env: Env, xs: seq<Scanned>, i: nat)
    requires i < |xs| && AllTagged(xs[..i + 1])
    ensures AllTagged(xs[..i]) && xs[i].tags.Some?
    ensures Sequential(env, xs[..i + 1]) == Add(env, Sequential(env, xs[..i]), xs[i])
  {
    assert xs[..i + 1][..i] == xs[..i];
    assert forall j :: 0 <= j < i ==> xs[..i + 1][j] == xs[..i][j];
    assert xs[..i + 1][i] == xs[i];
  }

  lemma TaggedTake(xs: seq<Scanned>, i: nat)
    requires i < |xs| && AllTagged(xs[..i])
    ensures xs[i].tags.Some? <==> AllTagged(xs[..i + 1])
    ensures xs[i].tags.None? ==> !AllTagged(xs)
  {
    assert xs[..i + 1][i] == xs[i];
    assert forall j :: 0 <= j < i ==> xs[..i + 1][j] == xs[..i][j];
  }

  lemma NothingAdded(env: Env)
    ensures AllTagged([]) && Sequential(env, []) == Empty() && Flatten([]) == [] && Parallel(env, []) == Empty()
  {
  }

  /** One chunk; null is the error of a track without tags. */
  method BuildChunk(env: Env, chunk: seq<Scanned>) returns (builder: LibraryBuilder?)
    ensures builder == null <==> !AllTagged(chunk)
    ensures builder != null ==> fresh(builder) && builder.env == env && builder.View() == Sequential(env, chunk)
  {
    hide *;
    NothingAdded(env);
    var b := new LibraryBuilder(env);
    assert chunk[..0] == [];
    for i := 0 to |chunk|
      invariant AllTagged(chunk[..i]) && b.View() == Sequential(env, chunk[..i])
    {
      TaggedTake(chunk, i);
      var ok := b.AddTrack(chunk[i]);
      if !ok {
        return null;
      }
      SequentialTake(env, chunk, i);
    }
    assert chunk[..|chunk|] == chunk;
    builder := b;
  }

  lemma TaggedJoin(a: seq<Scanned>, b: seq<Scanned>)
    ensures AllTagged(a + b) <==> AllTagged(a) && AllTagged(b)
  {
    assert forall i :: 0 <= i < |a| ==> (a + b)[i] == a[i];
    assert forall i :: 0 <= i < |b| ==> (a + b)[|a| + i] == b[i];
  }

  lemma FlattenLast(chunks: seq<seq<Scanned>>)
    requires chunks != []
    ensures Flatten(chunks) == Flatten(chunks[..|chunks| - 1]) + chunks[|chunks| - 1]
  {
  }

  lemma TaggedNothing()
    ensures AllTagged(Flatten([]))
  {
  }

  lemma {:induction false} TaggedFlatten(chunks: seq<seq<Scanned>>)
    ensures AllTagged(Flatten(chunks)) <==> forall i :: 0 <= i < |chunks| ==> AllTagged(chunks[i])
  {
    hide *;
    if chunks == [] {
      TaggedNothing();
    } else {
      var (rest, last) := (chunks[..|chunks| - 1], chunks[|chunks| - 1]);
      TaggedFlatten(rest);
      FlattenLast(chunks);
      TaggedJoin(Flatten(rest), last);
      assert forall i :: 0 <= i < |rest| ==> rest[i] == chunks[i];
    }
  }

  lemma ParallelTake(env: Env, chunks: seq<seq<Scanned>>, i: nat)
    requires i < |chunks| && AllTagged(Flatten(chunks[..i + 1]))
    ensures AllTagged(Flatten(chunks[..i])) && AllTagged(chunks[i])
    ensures Parallel(env, chunks[..i + 1]) == Merge(env, Parallel(env, chunks[..i]), Sequential(env, chunks[i]))
  {
    TaggedFlatten(chunks[..i + 1]);
    TaggedFlatten(chunks[..i]);
    assert chunks[..i + 1][..i] == chunks[..i] && chunks[..i + 1][i] == chunks[i];
    assert forall j :: 0 <= j < i ==> chunks[..i + 1][j] == chunks[j];
    hide Merge;
  }

  /** The chunks are independent of each other, so one after the other stands for any schedule of the threads. */
  method BuildIndexParallel(env: Env, chunks: seq<seq<Scanned>>) returns (merged: LibraryBuilder?)
    ensures merged == null <==> !AllTagged(Flatten(chunks))
    ensures merged != null ==> fresh(merged) && merged.View() == Parallel(env, chunks)
  {
    hide Sequential, AllTagged, Flatten, Parallel;
    TaggedFlatten(chunks);
    var partials: seq<LibraryBuilder> := [];
    for i := 0 to |chunks|
      invariant |partials| == i
      invariant forall j :: 0 <= j < i ==> AllTagged(chunks[j])
      invariant forall j :: 0 <= j < i ==> fresh(partials[j]) && partials[j].View() == Sequential(env, chunks[j])
    {
      var partial := BuildChunk(env, chunks[i]);
      if partial == null {
        return null;
      }
      partials := partials + [partial];
    }
    merged := MergeAll(env, chunks, partials);
  }

  method MergeAll(env: Env, chunks: seq<seq<Scanned>>, partials: seq<LibraryBuilder>) returns (merged: LibraryBuilder)
    requires AllTagged(Flatten(chunks)) && |partials| == |chunks|
    requires forall j :: 0 <= j < |chunks| ==> AllTagged(chunks[j])
    requires forall j :: 0 <= j < |chunks| ==> partials[j].View() == Sequential(env, chunks[j])
    ensures fresh(merged) && merged.View() == Parallel(env, chunks)
  {
    hide Sequential, AllTagged, Flatten, Parallel, Merge, Consistent, Empty;
    NothingAdded(env);
    merged := new LibraryBuilder(env);
    assert chunks[..0] == [];
    for i := 0 to |chunks|
      invariant fresh(merged) && merged.env == env
      invariant AllTagged(Flatten(chunks[..i])) && merged.View() == Parallel(env, chunks[..i])
      invariant forall j :: 0 <= j < |chunks| ==> partials[j].View() == Sequential(env, chunks[j])
    {
      TaggedFlatten(chunks[..i + 1]);
      ParallelTake(env, chunks, i);
      merged.MergeBuilder(partials[i]);
    }
    assert chunks[..|chunks|] == chunks;
  }

  /** The whole index: the sequential one exactly when the source's cut is safe for the scan; it is safe without
      colliding ids, however many threads share the work, and for every scan that fits one chunk. */
  method BuildIndex(env: Env, scanned: seq<Scanned>, threads: nat) returns (index: LibraryBuilder?)
    requires threads > 0
    ensures index == null <==> !AllTagged(scanned)
    ensures index != null ==> Flatten(ChunksOf(scanned, ChunkSize(|scanned|, threads))) == scanned
    ensures index != null ==>
              (index.View() == Sequential(env, scanned)
               <==> C.CutSafe(env, ChunksOf(scanned, ChunkSize(|scanned|, threads))))
    ensures index != null && Apart(env, scanned) ==> index.View() == Sequential(env, scanned)
    ensures index != null && |scanned| <= ChunkSize(|scanned|, threads) ==> index.View() == Sequential(env, scanned)
  {
    hide *;
    NothingAdded(env);
    var chunkSize := ChunkSize(|scanned|, threads);
    ChunksFlatten(scanned, chunkSize);
    if scanned == [] {
      index := new LibraryBuilder(env);
      NoChunks(chunkSize);
    } else {
      index := BuildIndexParallel(env, ChunksOf(scanned, chunkSize));
    }
    if AllTagged(scanned) {
      C.SizeIff(env, scanned, chunkSize);
      if Apart(env, scanned) {
        ChunkSizeIrrelevant(env, scanned, chunkSize);
      }
      if |scanned| <= chunkSize {
        C.OneChunk(env, scanned, threads);
      }
    }
  }

  lemma NoChunks(size: nat)
    requires size > 0
    ensures ChunksOf([], size) == []
  {
  }
}
