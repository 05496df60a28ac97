/** Building the library index in chunks gives the sequential result for every way of cutting the tracks into
    chunks exactly when derived ids do not collide on the scanned tracks. */
module LibraryMerge {
  import opened Wrappers
  import opened LibraryIndex

  // ---- The condition ----

  /** Different album artists have different ids. */
  predicate ArtistsApart(env: Env, xs: seq<Scanned>)
    requires AllTagged(xs)
  {
    forall i, j ::
      0 <= i < |xs| && 0 <= j < |xs| && ArtistIdOf(env, KeyOf(xs[i]).0) == ArtistIdOf(env, KeyOf(xs[j]).0) ==>
        KeyOf(xs[i]).0 == KeyOf(xs[j]).0
  }

  /** Different albums have different ids. */
  predicate AlbumsApart(env: Env, xs: seq<Scanned>)
    requires AllTagged(xs)
  {
    forall i, j :: 0 <= i < |xs| && 0 <= j < |xs| && AlbumIdOf(env, KeyOf(xs[i])) == AlbumIdOf(env, KeyOf(xs[j])) ==>
      KeyOf(xs[i]) == KeyOf(xs[j])
  }

  predicate TracksApart(env: Env, xs: seq<Scanned>)
    requires AllTagged(xs)
  {
    forall i, j :: 0 <= i < j < |xs| ==> TrackIdOf(env, xs[i]) != TrackIdOf(env, xs[j])
  }

  predicate Apart(env: Env, xs: seq<Scanned>)
    requires AllTagged(xs)
  {
    ArtistsApart(env, xs) && AlbumsApart(env, xs) && TracksApart(env, xs)
  }

  // ---- One track, added before or after the merge ----

  /** What the merge needs to know of a builder and a track that will be added. */
  predicate Ready(env: Env, b: Builder, x: Scanned)
    requires x.tags.Some?
  {
    var (k, a, t) := (KeyOf(x), AlbumIdOf(env, KeyOf(x)), TrackIdOf(env, x));
    var r := ArtistIdOf(env, k.0);
    && Consistent(b)
    && ReadyArtist(b.artistsByName, b.artists, k.0, r)
    && ReadyAlbum(b.albumsByKey, b.albums, k, a)
    && t !in b.tracks
    && Unlisted(b.albums, t)
  }

  predicate ReadyArtist(byName: map<string, Id>, artists: map<Id, Artist>, name: string, r: Id) {
    && (name in byName <==> r in artists)
    && (name in byName ==> byName[name] == r && artists[r].id == r && artists[r].name == name)
  }

  predicate ReadyAlbum(byKey: map<Key, Id>, albums: map<Id, Album>, k: Key, a: Id) {
    (k in byKey <==> a in albums) && (k in byKey ==> byKey[k] == a)
  }

  /** No album lists the track. */
  predicate Unlisted(albums: map<Id, Album>, t: Id) {
    forall id :: id in albums ==> t !in albums[id].trackIds
  }

  function ArtistFor(artists: map<Id, Artist>, r: Id, name: string): Artist {
    if r in artists then artists[r] else Artist(r, name, [])
  }

  function AlbumFor(albums: map<Id, Album>, a: Id, k: Key): Album {
    if a in albums then albums[a] else NewAlbum(a, k)
  }

  function AddedArtists(artists: map<Id, Artist>, r: Id, name: string, a: Id): map<Id, Artist> {
    var artist := ArtistFor(artists, r, name);
    artists[r := artist.(albumIds := PushNew(artist.albumIds, a))]
  }

  function AddedAlbums(env: Env, albums: map<Id, Album>, a: Id, k: Key, t: Track): map<Id, Album> {
    albums[a := Extend(env, AlbumFor(albums, a, k), t)]
  }

  lemma WithArtistFields(env: Env, b: Builder, name: string, r: Id)
    requires Consistent(b) && r == ArtistIdOf(env, name)
    requires name in b.artistsByName <==> r in b.artists
    requires name in b.artistsByName ==> b.artistsByName[name] == r
    ensures WithArtist(env, b, name)
            == (r, b.(artistsByName := b.artistsByName[name := r],
                      artists := b.artists[r := ArtistFor(b.artists, r, name)]))
  {
    hide ArtistIdOf;
    if name in b.artistsByName {
      assert b.artistsByName == b.artistsByName[name := r];
      assert b.artists == b.artists[r := b.artists[r]];
    }
  }

  lemma WithAlbumFields(env: Env, b: Builder, k: Key, a: Id)
    requires Consistent(b) && a == AlbumIdOf(env, k)
    requires k in b.albumsByKey <==> a in b.albums
    requires k in b.albumsByKey ==> b.albumsByKey[k] == a
    ensures WithAlbum(env, b, k)
            == (a, b.(albumsByKey := b.albumsByKey[k := a], albums := b.albums[a := AlbumFor(b.albums, a, k)]))
  {
    hide AlbumIdOf;
    if k in b.albumsByKey {
      assert b.albumsByKey == b.albumsByKey[k := a];
      assert b.albums == b.albums[a := b.albums[a]];
    }
  }

  /** Adding, field by field, for a track the builder is ready for. */
  lemma AddFields(env: Env, b: Builder, x: Scanned)
    requires x.tags.Some? && Ready(env, b, x)
    ensures var (k, a, t) := (KeyOf(x), AlbumIdOf(env, KeyOf(x)), TrackOf(env, x));
            var r := ArtistIdOf(env, k.0);
            Add(env, b, x) == Builder(
              b.artistsByName[k.0 := r], b.albumsByKey[k := a],
              AddedArtists(b.artists, r, k.0, a), AddedAlbums(env, b.albums, a, k, t), b.tracks[t.id := t])
  {
    hide StableId, Extend, PushNew, ArtistIdOf, AlbumIdOf, TrackOf, KeyOf, WithArtist, WithAlbum, ArtistFor, AlbumFor,
      Unlisted;
    var (k, a, t) := (KeyOf(x), AlbumIdOf(env, KeyOf(x)), TrackOf(env, x));
    var r := ArtistIdOf(env, k.0);
    WithArtistFields(env, b, k.0, r);
    var b1 := WithArtist(env, b, k.0).1;
    WithAlbumFields(env, b1, k, a);
    var b2 := WithAlbum(env, b1, k).1;
    var artist := b2.artists[r];
    assert b2.artists[r := artist.(albumIds := PushNew(artist.albumIds, a))] == AddedArtists(b.artists, r, k.0, a);
    assert b2.albums[a := Extend(env, b2.albums[a], t)] == AddedAlbums(env, b.albums, a, k, t);
  }

  lemma {:induction false} PushAllContains(ids: seq<Id>, more: seq<Id>, id: Id)
    ensures id in PushAllNew(ids, more) <==> id in ids || id in more
    decreases |more|
  {
    if more != [] {
      var (rest, last) := (more[..|more| - 1], more[|more| - 1]);
      assert more == rest + [last];
      PushAllContains(ids, rest, id);
    }
  }

  lemma PushCommutes(ids: seq<Id>, more: seq<Id>, id: Id)
    ensures PushAllNew(ids, PushNew(more, id)) == PushNew(PushAllNew(ids, more), id)
  {
    PushAllContains(ids, more, id);
    if id !in more {
      assert (more + [id])[..|more|] == more;
    }
  }

  lemma {:induction false} AbsorbTracks(env: Env, album: Album, ids: seq<Id>, tracks: map<Id, Track>)
    ensures var r := Absorb(env, album, ids, tracks);
            && (forall id :: id in r.trackIds ==> id in album.trackIds || id in ids)
            && (forall id :: id in album.trackIds ==> id in r.trackIds)
            && r.id == album.id && r.title == album.title && r.artist == album.artist
            && |r.trackIds| <= |album.trackIds| + |ids|
    decreases |ids|
  {
    if ids != [] {
      var (rest, last) := (ids[..|ids| - 1], ids[|ids| - 1]);
      assert ids == rest + [last];
      AbsorbTracks(env, album, rest, tracks);
    }
  }

  lemma {:induction false} AbsorbSame(env: Env, album: Album, ids: seq<Id>, tracks: map<Id, Track>, t: Track)
    requires t.id !in ids
    ensures Absorb(env, album, ids, tracks[t.id := t]) == Absorb(env, album, ids, tracks)
    decreases |ids|
  {
    if ids != [] {
      AbsorbSame(env, album, ids[..|ids| - 1], tracks, t);
    }
  }

  /** Absorbing an album that has one more new track at its end. */
  lemma AbsorbOneMore(env: Env, mine: Album, ids: seq<Id>, tracks: map<Id, Track>, t: Track)
    requires t.id !in ids && t.id !in mine.trackIds
    ensures Absorb(env, mine, ids + [t.id], tracks[t.id := t]) == Extend(env, Absorb(env, mine, ids, tracks), t)
  {
    assert (ids + [t.id])[..|ids|] == ids;
    AbsorbSame(env, mine, ids, tracks, t);
    AbsorbTracks(env, mine, ids, tracks);
  }

  lemma ExtendedTracks(env: Env, album: Album, t: Track)
    ensures Extend(env, album, t).trackIds == album.trackIds + [t.id]
  {
  }

  /** Merging leaves a builder ready for a track that both sides were ready for. */
  lemma MergedReady(env: Env, b: Builder, o: Builder, x: Scanned)
    requires x.tags.Some? && Ready(env, b, x) && Ready(env, o, x)
    ensures Ready(env, Merge(env, b, o), x)
  {
    hide StableId, TrackIdOf, ArtistIdOf, AlbumIdOf, MergedArtists, MergedAlbums, ReadyArtist, ReadyAlbum, Unlisted;
    var (k, t) := (KeyOf(x), TrackIdOf(env, x));
    MergedReadyArtist(b, o, k.0, ArtistIdOf(env, k.0));
    MergedReadyAlbum(env, b, o, k, AlbumIdOf(env, k));
    MergedUnlisted(env, b, o, t);
  }

  lemma MergedReadyArtist(b: Builder, o: Builder, name: string, r: Id)
    requires ReadyArtist(b.artistsByName, b.artists, name, r) && ReadyArtist(o.artistsByName, o.artists, name, r)
    ensures ReadyArtist(o.artistsByName + b.artistsByName, MergedArtists(b.artists, o.artists, o.artists.Keys), name, r)
  {
    hide PushAllNew;
  }

  lemma MergedReadyAlbum(env: Env, b: Builder, o: Builder, k: Key, a: Id)
    requires ReadyAlbum(b.albumsByKey, b.albums, k, a) && ReadyAlbum(o.albumsByKey, o.albums, k, a)
    ensures ReadyAlbum(o.albumsByKey + b.albumsByKey,
                       MergedAlbums(env, b.albums, o.albums, o.tracks, o.albums.Keys), k, a)
  {
    hide MergedAlbum;
  }

  lemma MergedUnlisted(env: Env, b: Builder, o: Builder, t: Id)
    requires Unlisted(b.albums, t) && Unlisted(o.albums, t)
    ensures Unlisted(MergedAlbums(env, b.albums, o.albums, o.tracks, o.albums.Keys), t)
  {
    hide MergedAlbums, MergedAlbum;
    MergedAlbumsAt(env, b.albums, o.albums, o.tracks);
    var m := MergedAlbums(env, b.albums, o.albums, o.tracks, o.albums.Keys);
    forall id | id in m ensures t !in m[id].trackIds {
      MergedLists(env, b.albums, o.albums, o.tracks, id, t);
    }
  }

  lemma MergedLists(env: Env, mine: map<Id, Album>, theirs: map<Id, Album>, tracks: map<Id, Track>, id: Id, t: Id)
    requires id in mine || id in theirs
    requires (id in mine ==> t !in mine[id].trackIds) && (id in theirs ==> t !in theirs[id].trackIds)
    ensures t !in MergedAlbum(env, mine, theirs, tracks, id).trackIds
  {
    if id in mine && id in theirs {
      AbsorbTracks(env, mine[id], theirs[id].trackIds, tracks);
    }
  }

  lemma PushNothing(ids: seq<Id>)
    ensures PushAllNew(ids, []) == ids
  {
  }

  lemma MergedArtistsAt(mine: map<Id, Artist>, theirs: map<Id, Artist>)
    ensures var m := MergedArtists(mine, theirs, theirs.Keys);
            m.Keys == mine.Keys + theirs.Keys && (forall id :: id in m ==> m[id] == MergedArtist(mine, theirs, id))
  {
    hide PushAllNew;
  }

  /** The artist of the new album gets it last on both ways. */
  lemma OwnArtist(mine: map<Id, Artist>, theirs: map<Id, Artist>, added: map<Id, Artist>, merged: map<Id, Artist>,
                  r: Id,
                  name: string, a: Id)
    requires r in mine ==> mine[r].id == r && mine[r].name == name
    requires r in theirs ==> theirs[r].id == r && theirs[r].name == name
    requires var artist := ArtistFor(theirs, r, name);
             r in added && added[r] == artist.(albumIds := PushNew(artist.albumIds, a))
    requires r in merged <==> r in mine || r in theirs
    requires r in merged ==> merged[r] == MergedArtist(mine, theirs, r)
    ensures var artist := ArtistFor(merged, r, name);
            MergedArtist(mine, added, r) == artist.(albumIds := PushNew(artist.albumIds, a))
  {
    hide PushNew, PushAllNew;
    PushCommutes(ArtistFor(mine, r, name).albumIds, ArtistFor(theirs, r, name).albumIds, a);
    PushNothing(ArtistFor(mine, r, name).albumIds);
  }

  lemma AddedArtistsAt(artists: map<Id, Artist>, r: Id, name: string, a: Id)
    ensures var added := AddedArtists(artists, r, name, a);
            var artist := ArtistFor(artists, r, name);
            && added.Keys == artists.Keys + {r} && added[r] == artist.(albumIds := PushNew(artist.albumIds, a))
            && (forall id :: id in artists && id != r ==> added[id] == artists[id])
  {
    hide PushNew, ArtistFor;
  }

  lemma OtherArtist(mine: map<Id, Artist>, theirs: map<Id, Artist>, added: map<Id, Artist>, id: Id)
    requires id in mine || id in theirs
    requires id in added <==> id in theirs
    requires id in theirs ==> added[id] == theirs[id]
    ensures MergedArtist(mine, added, id) == MergedArtist(mine, theirs, id)
  {
    hide PushAllNew;
  }

  lemma ArtistsCommute(mine: map<Id, Artist>, theirs: map<Id, Artist>, r: Id, name: string, a: Id)
    requires r in mine ==> mine[r].id == r && mine[r].name == name
    requires r in theirs ==> theirs[r].id == r && theirs[r].name == name
    ensures var added := AddedArtists(theirs, r, name, a);
            MergedArtists(mine, added, added.Keys) == AddedArtists(MergedArtists(mine, theirs, theirs.Keys), r, name, a)
  {
    hide *;
    var (added, merged) := (AddedArtists(theirs, r, name, a), MergedArtists(mine, theirs, theirs.Keys));
    var left, right := MergedArtists(mine, added, added.Keys), AddedArtists(merged, r, name, a);
    MergedArtistsAt(mine, theirs);
    MergedArtistsAt(mine, added);
    AddedArtistsAt(theirs, r, name, a);
    AddedArtistsAt(merged, r, name, a);
    OwnArtist(mine, theirs, added, merged, r, name, a);
    forall id | id in left ensures id in right && left[id] == right[id] {
      if id != r {
        OtherArtist(mine, theirs, added, id);
      }
    }
    SameMap(left, right);
  }

  lemma MergedAlbumsAt(env: Env, mine: map<Id, Album>, theirs: map<Id, Album>, tracks: map<Id, Track>)
    ensures var m := MergedAlbums(env, mine, theirs, tracks, theirs.Keys);
            && m.Keys == mine.Keys + theirs.Keys
            && (forall id :: id in m ==> m[id] == MergedAlbum(env, mine, theirs, tracks, id))
  {
    hide Absorb;
  }

  lemma AddedAlbumsAt(env: Env, albums: map<Id, Album>, a: Id, k: Key, t: Track)
    ensures var added := AddedAlbums(env, albums, a, k, t);
            && added.Keys == albums.Keys + {a} && added[a] == Extend(env, AlbumFor(albums, a, k), t)
            && (forall id :: id in albums && id != a ==> added[id] == albums[id])
  {
    hide Extend, AlbumFor;
  }

  /** An album the new track is not on merges as it did before. */
  lemma OtherAlbum(env: Env, mine: map<Id, Album>, theirs: map<Id, Album>, added: map<Id, Album>,
                   tracks: map<Id, Track>,
                   t: Track, id: Id)
    requires id in mine || id in theirs
    requires id in added <==> id in theirs
    requires id in theirs ==> added[id] == theirs[id] && t.id !in theirs[id].trackIds
    ensures MergedAlbum(env, mine, added, tracks[t.id := t], id) == MergedAlbum(env, mine, theirs, tracks, id)
  {
    hide Absorb;
    if id in mine && id in theirs {
      AbsorbSame(env, mine[id], theirs[id].trackIds, tracks, t);
    }
  }

  /** The new track's own album gets it last on both ways. */
  lemma OwnAlbum(env: Env, mine: map<Id, Album>, theirs: map<Id, Album>, added: map<Id, Album>, merged: map<Id, Album>,
                 tracks: map<Id, Track>, a: Id, k: Key, t: Track)
    requires a in mine ==> t.id !in mine[a].trackIds
    requires a in theirs ==> t.id !in theirs[a].trackIds
    requires a in added && added[a] == Extend(env, AlbumFor(theirs, a, k), t)
    requires a in merged <==> a in mine || a in theirs
    requires a in merged ==> merged[a] == MergedAlbum(env, mine, theirs, tracks, a)
    ensures MergedAlbum(env, mine, added, tracks[t.id := t], a) == Extend(env, AlbumFor(merged, a, k), t)
  {
    hide Extend, Absorb;
    NewAlbumTracks(a, k);
    ExtendedTracks(env, AlbumFor(theirs, a, k), t);
    if a in mine {
      AbsorbOneMore(env, mine[a], AlbumFor(theirs, a, k).trackIds, tracks, t);
      AbsorbNothing(env, mine[a], tracks);
    }
  }

  lemma NewAlbumTracks(a: Id, k: Key)
    ensures NewAlbum(a, k).trackIds == []
  {
  }

  lemma AlbumKeysCommute(env: Env, mine: map<Id, Album>, theirs: map<Id, Album>, tracks: map<Id, Track>, a: Id, k: Key,
                         t: Track)
    ensures var added := AddedAlbums(env, theirs, a, k, t);
            MergedAlbums(env, mine, added, tracks[t.id := t], added.Keys).Keys
            == AddedAlbums(env, MergedAlbums(env, mine, theirs, tracks, theirs.Keys), a, k, t).Keys
            == mine.Keys + theirs.Keys + {a}
  {
    hide *;
    var added := AddedAlbums(env, theirs, a, k, t);
    MergedAlbumsAt(env, mine, theirs, tracks);
    MergedAlbumsAt(env, mine, added, tracks[t.id := t]);
    AddedAlbumsAt(env, theirs, a, k, t);
    AddedAlbumsAt(env, MergedAlbums(env, mine, theirs, tracks, theirs.Keys), a, k, t);
  }

  lemma AlbumCommutes(env: Env, mine: map<Id, Album>, theirs: map<Id, Album>, tracks: map<Id, Track>, a: Id, k: Key,
                      t: Track,
                      id: Id)
    requires id in mine || id in theirs || id == a
    requires id in mine ==> t.id !in mine[id].trackIds
    requires id in theirs ==> t.id !in theirs[id].trackIds
    ensures var added := AddedAlbums(env, theirs, a, k, t);
            var left := MergedAlbums(env, mine, added, tracks[t.id := t], added.Keys);
            var right := AddedAlbums(env, MergedAlbums(env, mine, theirs, tracks, theirs.Keys), a, k, t);
            id in left && id in right && left[id] == right[id]
  {
    hide *;
    var added := AddedAlbums(env, theirs, a, k, t);
    var merged := MergedAlbums(env, mine, theirs, tracks, theirs.Keys);
    MergedAlbumsAt(env, mine, theirs, tracks);
    MergedAlbumsAt(env, mine, added, tracks[t.id := t]);
    AddedAlbumsAt(env, theirs, a, k, t);
    AddedAlbumsAt(env, merged, a, k, t);
    if id == a {
      OwnAlbum(env, mine, theirs, added, merged, tracks, a, k, t);
    } else {
      OtherAlbum(env, mine, theirs, added, tracks, t, id);
    }
  }

  lemma AlbumsCommute(env: Env, mine: map<Id, Album>, theirs: map<Id, Album>, tracks: map<Id, Track>, a: Id, k: Key,
                      t: Track)
    requires forall id :: id in mine ==> t.id !in mine[id].trackIds
    requires forall id :: id in theirs ==> t.id !in theirs[id].trackIds
    ensures var added := AddedAlbums(env, theirs, a, k, t);
            MergedAlbums(env, mine, added, tracks[t.id := t], added.Keys)
            == AddedAlbums(env, MergedAlbums(env, mine, theirs, tracks, theirs.Keys), a, k, t)
  {
    hide *;
    var added := AddedAlbums(env, theirs, a, k, t);
    var left := MergedAlbums(env, mine, added, tracks[t.id := t], added.Keys);
    var right := AddedAlbums(env, MergedAlbums(env, mine, theirs, tracks, theirs.Keys), a, k, t);
    AlbumKeysCommute(env, mine, theirs, tracks, a, k, t);
    forall id | id in left ensures left[id] == right[id] {
      AlbumCommutes(env, mine, theirs, tracks, a, k, t, id);
    }
    SameMap(left, right);
  }

  lemma SameMap<K, V>(a: map<K, V>, b: map<K, V>)
    requires a.Keys == b.Keys && forall k :: k in a ==> a[k] == b[k]
    ensures a == b
  {
  }

  lemma AbsorbNothing(env: Env, album: Album, tracks: map<Id, Track>)
    ensures Absorb(env, album, [], tracks) == album
  {
  }

  lemma MapCommute<K, V>(theirs: map<K, V>, mine: map<K, V>, k: K, v: V)
    requires k in mine ==> mine[k] == v
    ensures theirs[k := v] + mine == (theirs + mine)[k := v]
  {
  }

  lemma ReadyParts(env: Env, b: Builder, x: Scanned)
    requires x.tags.Some? && Ready(env, b, x)
    ensures var (k, a, t) := (KeyOf(x), AlbumIdOf(env, KeyOf(x)), TrackOf(env, x));
            var r := ArtistIdOf(env, k.0);
            && Consistent(b)
            && (r in b.artists ==> b.artists[r].id == r && b.artists[r].name == k.0)
            && (k.0 in b.artistsByName ==> b.artistsByName[k.0] == r) && (k in b.albumsByKey ==> b.albumsByKey[k] == a)
            && t.id !in b.tracks && (forall id :: id in b.albums ==> t.id !in b.albums[id].trackIds)
  {
    hide StableId;
  }

  lemma MergeFields(env: Env, b: Builder, o: Builder)
    requires Consistent(b) && Consistent(o)
    ensures Merge(env, b, o) == Builder(
      o.artistsByName + b.artistsByName, o.albumsByKey + b.albumsByKey,
      MergedArtists(b.artists, o.artists, o.artists.Keys),
      MergedAlbums(env, b.albums, o.albums, o.tracks, o.albums.Keys),
      o.tracks + b.tracks)
  {
  }

  /** The heart of it: adding a track to the right builder and then merging is merging and then adding it. */
  lemma MergeAdd(env: Env, b: Builder, o: Builder, x: Scanned)
    requires x.tags.Some? && Ready(env, b, x) && Ready(env, o, x)
    ensures Merge(env, b, Add(env, o, x)) == Add(env, Merge(env, b, o), x)
  {
    hide *;
    var (k, a, t) := (KeyOf(x), AlbumIdOf(env, KeyOf(x)), TrackOf(env, x));
    var r := ArtistIdOf(env, k.0);
    ReadyParts(env, b, x);
    ReadyParts(env, o, x);
    MergedReady(env, b, o, x);
    AddFields(env, o, x);
    AddFields(env, Merge(env, b, o), x);
    MergeFields(env, b, o);
    MergeFields(env, b, Add(env, o, x));
    ArtistsCommute(b.artists, o.artists, r, k.0, a);
    AlbumsCommute(env, b.albums, o.albums, o.tracks, a, k, t);
    MapCommute(o.tracks, b.tracks, t.id, t);
    MapCommute(o.artistsByName, b.artistsByName, k.0, r);
    MapCommute(o.albumsByKey, b.albumsByKey, k, a);
  }

  // ---- What a sequentially built index holds ----

  function Names(xs: seq<Scanned>): set<string>
    requires AllTagged(xs)
  {
    set i | 0 <= i < |xs| :: KeyOf(xs[i]).0
  }

  function Keys(xs: seq<Scanned>): set<Key>
    requires AllTagged(xs)
  {
    set i | 0 <= i < |xs| :: KeyOf(xs[i])
  }

  function Ids(env: Env, xs: seq<Scanned>): set<Id>
    requires AllTagged(xs)
  {
    set i | 0 <= i < |xs| :: TrackIdOf(env, xs[i])
  }

  predicate ArtistFacts(env: Env, byName: map<string, Id>, artists: map<Id, Artist>, names: set<string>) {
    && byName.Keys == names
    && (forall n :: n in byName ==> byName[n] == ArtistIdOf(env, n))
    && (forall r :: r in artists ==>
        artists[r].id == r && artists[r].name in names && ArtistIdOf(env, artists[r].name) == r)
  }

  function KeyOfAlbum(album: Album): Key {
    (album.artist, album.title)
  }

  predicate AlbumFacts(env: Env, byKey: map<Key, Id>, albums: map<Id, Album>, keys: set<Key>) {
    && byKey.Keys == keys
    && (forall k :: k in byKey ==> byKey[k] == AlbumIdOf(env, k))
    && (forall a :: a in albums ==> KeyOfAlbum(albums[a]) in keys && AlbumIdOf(env, KeyOfAlbum(albums[a])) == a)
  }

  predicate TrackFacts(albums: map<Id, Album>, tracks: map<Id, Track>, ids: set<Id>) {
    && tracks.Keys == ids
    && (forall a, t :: a in albums && t in albums[a].trackIds ==> t in ids)
  }

  /** Adding, in terms of the builder with the artist and the album entered. */
  lemma AddParts(env: Env, b: Builder, x: Scanned)
    requires x.tags.Some? && Consistent(b)
    ensures var (r, b1) := WithArtist(env, b, KeyOf(x).0);
            var (a, b2) := WithAlbum(env, b1, KeyOf(x));
            var t := TrackOf(env, x);
            && b2.artists == b1.artists && b2.artistsByName == b1.artistsByName && b2.tracks == b1.tracks == b.tracks
            && Add(env, b, x) == Builder(
                 b1.artistsByName, b2.albumsByKey,
                 b1.artists[r := b1.artists[r].(albumIds := PushNew(b1.artists[r].albumIds, a))],
                 b2.albums[a := Extend(env, b2.albums[a], t)],
                 b.tracks[t.id := t])
  {
    hide ArtistIdOf, AlbumIdOf, TrackIdOf, Extend, PushNew;
  }

  lemma WithArtistFacts(env: Env, b: Builder, name: string, names: set<string>)
    requires Consistent(b) && ArtistFacts(env, b.artistsByName, b.artists, names)
    ensures var b1 := WithArtist(env, b, name).1;
            ArtistFacts(env, b1.artistsByName, b1.artists, names + {name})
  {
    hide ArtistIdOf;
  }

  lemma TouchedArtistFacts(env: Env, byName: map<string, Id>, artists: map<Id, Artist>, names: set<string>, r: Id,
                           ids: seq<Id>)
    requires ArtistFacts(env, byName, artists, names) && r in artists
    ensures ArtistFacts(env, byName, artists[r := artists[r].(albumIds := ids)], names)
  {
    hide ArtistIdOf;
  }

  lemma WithAlbumFacts(env: Env, b: Builder, k: Key, keys: set<Key>)
    requires Consistent(b) && AlbumFacts(env, b.albumsByKey, b.albums, keys)
    ensures var b1 := WithAlbum(env, b, k).1;
            AlbumFacts(env, b1.albumsByKey, b1.albums, keys + {k})
  {
    hide AlbumIdOf;
  }

  lemma TouchedAlbumFacts(env: Env, byKey: map<Key, Id>, albums: map<Id, Album>, keys: set<Key>, a: Id, album: Album)
    requires AlbumFacts(env, byKey, albums, keys) && a in albums && KeyOfAlbum(album) == KeyOfAlbum(albums[a])
    ensures AlbumFacts(env, byKey, albums[a := album], keys)
  {
    hide AlbumIdOf;
  }

  lemma WithAlbumTracks(env: Env, b: Builder, k: Key, ids: set<Id>)
    requires Consistent(b) && TrackFacts(b.albums, b.tracks, ids)
    ensures TrackFacts(WithAlbum(env, b, k).1.albums, b.tracks, ids)
  {
    hide AlbumIdOf;
  }

  lemma TouchedTracks(albums: map<Id, Album>, tracks: map<Id, Track>, ids: set<Id>, a: Id, album: Album, t: Track)
    requires TrackFacts(albums, tracks, ids) && a in albums && album.trackIds == albums[a].trackIds + [t.id]
    ensures TrackFacts(albums[a := album], tracks[t.id := t], ids + {t.id})
  {
  }

  lemma ExtendKeeps(env: Env, album: Album, t: Track)
    ensures var r := Extend(env, album, t);
            r.id == album.id && KeyOfAlbum(r) == KeyOfAlbum(album) && r.trackIds == album.trackIds + [t.id]
  {
  }

  predicate BuilderFacts(env: Env, b: Builder, names: set<string>, keys: set<Key>, ids: set<Id>) {
    && ArtistFacts(env, b.artistsByName, b.artists, names) && AlbumFacts(env, b.albumsByKey, b.albums, keys)
    && TrackFacts(b.albums, b.tracks, ids)
  }

  lemma AddFacts(env: Env, b: Builder, x: Scanned, names: set<string>, keys: set<Key>, ids: set<Id>)
    requires x.tags.Some? && Consistent(b) && BuilderFacts(env, b, names, keys, ids)
    ensures BuilderFacts(env, Add(env, b, x), names + {KeyOf(x).0}, keys + {KeyOf(x)}, ids + {TrackIdOf(env, x)})
  {
    hide ArtistFacts, AlbumFacts, TrackFacts, WithArtist, WithAlbum, Extend, Consistent, KeyOf, TrackIdOf, KeyOfAlbum,
      Add, PushNew;
    var k, t := KeyOf(x), TrackOf(env, x);
    var (r, b1) := WithArtist(env, b, k.0);
    var (a, b2) := WithAlbum(env, b1, k);
    AddParts(env, b, x);
    WithArtistFacts(env, b, k.0, names);
    TouchedArtistFacts(env, b1.artistsByName, b1.artists, names + {k.0}, r, PushNew(b1.artists[r].albumIds, a));
    WithAlbumFacts(env, b1, k, keys);
    WithAlbumTracks(env, b1, k, ids);
    ExtendKeeps(env, b2.albums[a], t);
    TouchedAlbumFacts(env, b2.albumsByKey, b2.albums, keys + {k}, a, Extend(env, b2.albums[a], t));
    TouchedTracks(b2.albums, b.tracks, ids, a, Extend(env, b2.albums[a], t), t);
  }

  /** After any tagged tracks, colliding or not. */
  lemma {:induction false} Facts(env: Env, xs: seq<Scanned>)
    requires AllTagged(xs)
    ensures BuilderFacts(env, Sequential(env, xs), Names(xs), Keys(xs), Ids(env, xs))
  {
    if xs != [] {
      var (rest, last) := (xs[..|xs| - 1], xs[|xs| - 1]);
      Facts(env, rest);
      LastAdded(env, xs);
      hide BuilderFacts, Names, Keys, Ids, Add;
      AddFacts(env, Sequential(env, rest), last, Names(rest), Keys(rest), Ids(env, rest));
    }
  }

  lemma LastAdded(env: Env, xs: seq<Scanned>)
    requires AllTagged(xs) && xs != []
    ensures var (rest, last) := (xs[..|xs| - 1], xs[|xs| - 1]);
            && Names(xs) == Names(rest) + {KeyOf(last).0} && Keys(xs) == Keys(rest) + {KeyOf(last)}
            && Ids(env, xs) == Ids(env, rest) + {TrackIdOf(env, last)}
  {
    hide KeyOf, TrackIdOf;
  }

  /** A track whose ids are apart from those of the tracks already added. */
  predicate ApartFrom(env: Env, xs: seq<Scanned>, x: Scanned)
    requires AllTagged(xs) && x.tags.Some?
  {
    forall i :: 0 <= i < |xs| ==>
      && (ArtistIdOf(env, KeyOf(xs[i]).0) == ArtistIdOf(env, KeyOf(x).0) ==> KeyOf(xs[i]).0 == KeyOf(x).0)
      && (AlbumIdOf(env, KeyOf(xs[i])) == AlbumIdOf(env, KeyOf(x)) ==> KeyOf(xs[i]) == KeyOf(x))
      && TrackIdOf(env, xs[i]) != TrackIdOf(env, x)
  }

  lemma ReadyFor(env: Env, b: Builder, x: Scanned, names: set<string>, keys: set<Key>, ids: set<Id>)
    requires x.tags.Some? && Consistent(b) && BuilderFacts(env, b, names, keys, ids)
    requires forall n :: n in names && ArtistIdOf(env, n) == ArtistIdOf(env, KeyOf(x).0) ==> n == KeyOf(x).0
    requires forall k :: k in keys && AlbumIdOf(env, k) == AlbumIdOf(env, KeyOf(x)) ==> k == KeyOf(x)
    requires TrackIdOf(env, x) !in ids
    ensures Ready(env, b, x)
  {
    hide ArtistIdOf, AlbumIdOf, TrackIdOf, KeyOf;
  }

  lemma SequentialReady(env: Env, xs: seq<Scanned>, x: Scanned)
    requires AllTagged(xs) && x.tags.Some? && ApartFrom(env, xs, x)
    ensures Ready(env, Sequential(env, xs), x)
  {
    Facts(env, xs);
    hide ArtistIdOf, AlbumIdOf, TrackIdOf, Sequential, KeyOf, BuilderFacts, Ready;
    ReadyFor(env, Sequential(env, xs), x, Names(xs), Keys(xs), Ids(env, xs));
  }

  // ---- Chunks that do not collide ----

  /** Two adjacent chunks. */
  lemma {:induction false} MergeIsAppend(env: Env, xs: seq<Scanned>, ys: seq<Scanned>)
    requires AllTagged(xs + ys) && AllTagged(xs) && AllTagged(ys) && Apart(env, xs + ys)
    ensures Merge(env, Sequential(env, xs), Sequential(env, ys)) == Sequential(env, xs + ys)
    decreases |ys|
  {
    if ys == [] {
      assert xs + ys == xs;
      MergeEmpty(env, Sequential(env, xs));
    } else {
      var (rest, y) := (ys[..|ys| - 1], ys[|ys| - 1]);
      assert (xs + ys)[..|xs + ys| - 1] == xs + rest && (xs + ys)[|xs + ys| - 1] == y;
      assert xs + (rest + [y]) == xs + ys;
      ApartPrefix(env, xs, rest, y);
      MergeIsAppend(env, xs, rest);
      SequentialReady(env, xs, y);
      SequentialReady(env, rest, y);
      hide Apart, ApartFrom, Ready, Merge, Add;
      MergeAdd(env, Sequential(env, xs), Sequential(env, rest), y);
    }
  }

  lemma MergeEmpty(env: Env, b: Builder)
    requires Consistent(b)
    ensures Merge(env, b, Empty()) == b
  {
  }

  lemma ApartPrefix(env: Env, xs: seq<Scanned>, rest: seq<Scanned>, y: Scanned)
    requires AllTagged(xs) && AllTagged(rest) && y.tags.Some? && AllTagged(xs + (rest + [y]))
    requires Apart(env, xs + (rest + [y]))
    ensures AllTagged(xs + rest) && Apart(env, xs + rest)
    ensures ApartFrom(env, xs, y) && ApartFrom(env, rest, y)
  {
    hide StableId, ArtistIdOf, AlbumIdOf, TrackIdOf, KeyOf;
    var all := xs + (rest + [y]);
    assert forall i :: 0 <= i < |xs| ==> all[i] == xs[i];
    assert forall i :: 0 <= i < |rest| ==> all[|xs| + i] == rest[i];
    assert all[|xs| + |rest|] == y;
    assert forall i :: 0 <= i < |xs + rest| ==> (xs + rest)[i] == all[i];
  }

  lemma ApartTake(env: Env, xs: seq<Scanned>, ys: seq<Scanned>)
    requires AllTagged(xs + ys) && Apart(env, xs + ys)
    ensures AllTagged(xs) && AllTagged(ys) && Apart(env, xs)
  {
    hide StableId, ArtistIdOf, AlbumIdOf, TrackIdOf, KeyOf;
    assert forall i :: 0 <= i < |xs| ==> (xs + ys)[i] == xs[i];
    assert forall i :: 0 <= i < |ys| ==> (xs + ys)[|xs| + i] == ys[i];
  }

  /** Building in chunks, however they are cut, gives the sequential index when no ids collide. */
  lemma {:induction false} ChunkedIsSequential(env: Env, chunks: seq<seq<Scanned>>)
    requires AllTagged(Flatten(chunks)) && Apart(env, Flatten(chunks))
    ensures Parallel(env, chunks) == Sequential(env, Flatten(chunks))
  {
    if chunks != [] {
      var (rest, last) := (chunks[..|chunks| - 1], chunks[|chunks| - 1]);
      ApartTake(env, Flatten(rest), last);
      ChunkedIsSequential(env, rest);
      hide Apart, Merge, Sequential;
      MergeIsAppend(env, Flatten(rest), last);
    }
  }

  lemma {:induction false} ChunksFlatten(xs: seq<Scanned>, size: nat)
    requires size > 0
    ensures Flatten(ChunksOf(xs, size)) == xs
    decreases |xs|
  {
    hide *;
    ChunksStep(xs, size);
    if |xs| <= size {
      FlattenFew(xs);
    } else {
      ChunksFlatten(xs[size..], size);
      FlattenCons(xs[..size], ChunksOf(xs[size..], size));
    }
  }

  lemma ChunksStep(xs: seq<Scanned>, size: nat)
    requires size > 0
    ensures ChunksOf(xs, size)
            == if xs == [] then [] else if |xs| <= size then [xs] else [xs[..size]] + ChunksOf(xs[size..], size)
  {
  }

  lemma FlattenFew(xs: seq<Scanned>)
    ensures Flatten([]) == [] && Flatten([xs]) == xs
  {
    assert [xs][..0] == [];
    assert Flatten([]) + xs == xs;
  }

  lemma {:induction false} FlattenCons(x: seq<Scanned>, chunks: seq<seq<Scanned>>)
    ensures Flatten([x] + chunks) == x + Flatten(chunks)
  {
    if chunks == [] {
      assert ([x] + chunks)[..0] == [];
      assert Flatten([x] + chunks) == Flatten([]) + x;
    } else {
      var (rest, last) := (chunks[..|chunks| - 1], chunks[|chunks| - 1]);
      FlattenCons(x, rest);
      assert ([x] + chunks)[..|chunks|] == [x] + rest && ([x] + chunks)[|chunks|] == last;
      assert x + (Flatten(rest) + last) == (x + Flatten(rest)) + last;
    }
  }

  /** The source's chunks: every chunk size gives the same index. */
  lemma ChunkSizeIrrelevant(env: Env, xs: seq<Scanned>, size: nat)
    requires size > 0 && AllTagged(xs) && Apart(env, xs)
    ensures Flatten(ChunksOf(xs, size)) == xs && Parallel(env, ChunksOf(xs, size)) == Sequential(env, xs)
  {
    ChunksFlatten(xs, size);
    ChunkedIsSequential(env, ChunksOf(xs, size));
  }
}
