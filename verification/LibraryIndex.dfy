/** The library index of the scanner (scanner.rs, struct LibraryBuilder): tracks are added one by one, in chunks
    on several threads, and the chunks' builders are merged in order. */
module LibraryIndex {
  // Builders are values here, with `LibraryBuilder` the object that changes; an MD5 digest and the year of a date
  // are parameters. Cover art is resolved after the merge and is not part of the builder.

  import opened Wrappers

  type Id = string

  /** Album artist and album title. */
  type Key = (string, string)

  datatype Tags = Tags(
    title: string,
    artist: string,
    album: string,
    albumArtist: Option<string>,
    discNumber: Option<nat>,
    durationSeconds: Option<nat>,
    genres: seq<string>,
    date: Option<string>,
    musicbrainzAlbumId: Option<string>,
    musicbrainzReleaseGroupId: Option<string>)

  datatype Scanned = Scanned(relativePath: string, tags: Option<Tags>, fileSize: nat, modifiedAt: int)

  datatype Track = Track(id: Id, tags: Tags, relativePath: string, fileSize: nat, modifiedAt: int)

  datatype Artist = Artist(id: Id, name: string, albumIds: seq<Id>)

  datatype Album = Album(
    id: Id,
    title: string,
    artist: string,
    albumArtist: Option<string>,
    trackIds: seq<Id>,
    date: Option<string>,
    year: Option<int>,
    genres: seq<string>,
    musicbrainzAlbumId: Option<string>,
    musicbrainzReleaseGroupId: Option<string>,
    discCount: Option<nat>,
    durationSeconds: Option<nat>,
    sizeBytes: nat)

  datatype Builder = Builder(
    artistsByName: map<string, Id>,
    albumsByKey: map<Key, Id>,
    artists: map<Id, Artist>,
    albums: map<Id, Album>,
    tracks: map<Id, Track>)

  /** The functions the scanner takes from elsewhere. */
  datatype Env = Env(digest: string -> string, year: string -> Option<int>)

  const U32_MAX: nat := 0xffff_ffff
  const U64_MAX: nat := 0xffff_ffff_ffff_ffff

  function SaturatingAdd(a: nat, b: nat, max: nat): nat {
    if a + b <= max then a + b else max
  }

  // ---- Derived ids ----

  function Lower(c: char): char {
    if 'A' <= c <= 'Z' then (c as int + 32) as char else c
  }

  predicate IsAlphanumeric(c: char) {
    'a' <= c <= 'z' || '0' <= c <= '9'
  }

  function SlugPushed(slug: string, c: char): string {
    if IsAlphanumeric(Lower(c)) then slug + [Lower(c)]
    else if slug != "" && slug[|slug| - 1] == '-' then slug
    else slug + "-"
  }

  function SlugFrom(slug: string, input: string): string
    decreases |input|
  {
    if input == "" then slug else SlugFrom(SlugPushed(slug, input[0]), input[1..])
  }

  function TrimLeft(s: string): string {
    if s != "" && s[0] == '-' then TrimLeft(s[1..]) else s
  }

  function TrimRight(s: string): string {
    if s != "" && s[|s| - 1] == '-' then TrimRight(s[..|s| - 1]) else s
  }

  function Slugify(input: string): string {
    TrimRight(TrimLeft(SlugFrom("", input)))
  }

  predicate IsAscii(s: string) {
    forall i :: 0 <= i < |s| ==> s[i] < 128 as char
  }

  function StableId(env: Env, prefix: string, input: string): Id {
    var slug := Slugify(input);
    if slug != "" && IsAscii(input) then slug
    else if slug == "" then prefix + "-" + env.digest(input)
    else slug + "-" + env.digest(input)
  }

  function ArtistIdOf(env: Env, name: string): Id {
    StableId(env, "artist", name)
  }

  function AlbumIdOf(env: Env, k: Key): Id {
    StableId(env, "album", k.0 + ":" + k.1)
  }

  function AlbumArtistOf(tags: Tags): string {
    if tags.albumArtist.Some? then tags.albumArtist.value else tags.artist
  }

  function KeyOf(x: Scanned): Key
    requires x.tags.Some?
  {
    (AlbumArtistOf(x.tags.value), x.tags.value.album)
  }

  function TrackIdOf(env: Env, x: Scanned): Id
    requires x.tags.Some?
  {
    StableId(env, "track", KeyOf(x).0 + ":" + KeyOf(x).1 + ":" + x.relativePath)
  }

  function TrackOf(env: Env, x: Scanned): Track
    requires x.tags.Some?
  {
    Track(TrackIdOf(env, x), x.tags.value, x.relativePath, x.fileSize, x.modifiedAt)
  }

  // ---- Album metadata ----

  predicate SameIgnoringCase(a: string, b: string) {
    |a| == |b| && forall i :: 0 <= i < |a| ==> Lower(a[i]) == Lower(b[i])
  }

  predicate HasGenre(genres: seq<string>, genre: string) {
    exists i :: 0 <= i < |genres| && SameIgnoringCase(genres[i], genre)
  }

  function AddGenres(genres: seq<string>, more: seq<string>): seq<string>
    decreases |more|
  {
    if more == [] then genres
    else AddGenres(if HasGenre(genres, more[0]) then genres else genres + [more[0]], more[1..])
  }

  function FirstOf<T>(a: Option<T>, b: Option<T>): Option<T> {
    if a.Some? then a else b
  }

  function OrZero(a: Option<nat>): nat {
    if a.Some? then a.value else 0
  }

  function AddedDuration(album: Option<nat>, track: Option<nat>): Option<nat> {
    if track.Some? then Some(SaturatingAdd(OrZero(album), track.value, U32_MAX)) else album
  }

  function LargerDisc(album: Option<nat>, track: Option<nat>): Option<nat> {
    if track.Some? then Some(Max(OrZero(album), track.value)) else album
  }

  function MergeMetadata(env: Env, album: Album, track: Track): Album {
    var tags := track.tags;
    album.(
      sizeBytes := SaturatingAdd(album.sizeBytes, track.fileSize, U64_MAX),
      durationSeconds := AddedDuration(album.durationSeconds, tags.durationSeconds),
      discCount := LargerDisc(album.discCount, tags.discNumber),
      albumArtist := FirstOf(album.albumArtist, Some(AlbumArtistOf(tags))),
      date := FirstOf(album.date, tags.date),
      year := FirstOf(album.year, if tags.date.Some? then env.year(tags.date.value) else None),
      musicbrainzAlbumId := FirstOf(album.musicbrainzAlbumId, tags.musicbrainzAlbumId),
      musicbrainzReleaseGroupId := FirstOf(album.musicbrainzReleaseGroupId, tags.musicbrainzReleaseGroupId),
      genres := AddGenres(album.genres, tags.genres))
  }

  function NewAlbum(id: Id, k: Key): Album {
    Album(id, k.1, k.0, Some(k.0), [], None, None, [], None, None, None, None, 0)
  }

  /** The track at the end of the album. */
  function Extend(env: Env, album: Album, track: Track): Album {
    MergeMetadata(env, album.(trackIds := album.trackIds + [track.id]), track)
  }

  // ---- Adding a track ----

  /** Every id that is handed out has its entry. */
  predicate Consistent(b: Builder) {
    && (forall n :: n in b.artistsByName ==> b.artistsByName[n] in b.artists)
    && (forall k :: k in b.albumsByKey ==> b.albumsByKey[k] in b.albums)
  }

  function Empty(): (r: Builder)
    ensures Consistent(r)
  {
    Builder(map[], map[], map[], map[], map[])
  }

  function WithArtist(env: Env, b: Builder, name: string): (r: (Id, Builder))
    requires Consistent(b)
    ensures Consistent(r.1) && r.0 in r.1.artists && r.1.albums == b.albums && r.1.albumsByKey == b.albumsByKey
  {
    if name in b.artistsByName then (b.artistsByName[name], b)
    else
      var id := ArtistIdOf(env, name);
      (id, b.(artistsByName := b.artistsByName[name := id], artists := b.artists[id := Artist(id, name, [])]))
  }

  function WithAlbum(env: Env, b: Builder, k: Key): (r: (Id, Builder))
    requires Consistent(b)
    ensures Consistent(r.1) && r.0 in r.1.albums && r.1.artists == b.artists
  {
    if k in b.albumsByKey then (b.albumsByKey[k], b)
    else
      var id := AlbumIdOf(env, k);
      (id, b.(albumsByKey := b.albumsByKey[k := id], albums := b.albums[id := NewAlbum(id, k)]))
  }

  function PushNew(ids: seq<Id>, id: Id): seq<Id> {
    if id in ids then ids else ids + [id]
  }

  function Add(env: Env, b: Builder, x: Scanned): (r: Builder)
    requires Consistent(b) && x.tags.Some?
    ensures Consistent(r)
  {
    var (artistId, b1) := WithArtist(env, b, KeyOf(x).0);
    var (albumId, b2) := WithAlbum(env, b1, KeyOf(x));
    var track := TrackOf(env, x);
    var artist := b2.artists[artistId];
    b2.(artists := b2.artists[artistId := artist.(albumIds := PushNew(artist.albumIds, albumId))],
        albums := b2.albums[albumId := Extend(env, b2.albums[albumId], track)],
        tracks := b2.tracks[track.id := track])
  }

  predicate AllTagged(xs: seq<Scanned>) {
    forall i :: 0 <= i < |xs| ==> xs[i].tags.Some?
  }

  /** The tracks added one after the other. */
  function Sequential(env: Env, xs: seq<Scanned>): (r: Builder)
    requires AllTagged(xs)
    ensures Consistent(r)
  {
    if xs == [] then Empty() else Add(env, Sequential(env, xs[..|xs| - 1]), xs[|xs| - 1])
  }

  // ---- Merging ----

  function PushAllNew(ids: seq<Id>, more: seq<Id>): seq<Id>
    decreases |more|
  {
    if more == [] then ids else PushNew(PushAllNew(ids, more[..|more| - 1]), more[|more| - 1])
  }

  /** The tracks of another builder's album that the album does not list yet, in order. */
  function Absorb(env: Env, album: Album, ids: seq<Id>, tracks: map<Id, Track>): Album
    decreases |ids|
  {
    if ids == [] then album
    else
      var done := Absorb(env, album, ids[..|ids| - 1], tracks);
      var id := ids[|ids| - 1];
      if id !in tracks || id in done.trackIds then done
      else MergeMetadata(env, done.(trackIds := done.trackIds + [id]), tracks[id])
  }

  function MergedArtist(mine: map<Id, Artist>, theirs: map<Id, Artist>, id: Id): Artist
    requires id in mine || id in theirs
  {
    if id !in theirs then mine[id]
    else
      var target := if id in mine then mine[id] else Artist(id, theirs[id].name, []);
      target.(albumIds := PushAllNew(target.albumIds, theirs[id].albumIds))
  }

  function MergedArtists(mine: map<Id, Artist>, theirs: map<Id, Artist>, done: set<Id>): map<Id, Artist>
    requires done <= theirs.Keys
  {
    map id | id in mine.Keys + done :: if id in done then MergedArtist(mine, theirs, id) else mine[id]
  }

  function MergedAlbum(env: Env, mine: map<Id, Album>, theirs: map<Id, Album>, tracks: map<Id, Track>, id: Id): Album
    requires id in mine || id in theirs
  {
    if id !in theirs then mine[id]
    else if id !in mine then theirs[id]
    else Absorb(env, mine[id], theirs[id].trackIds, tracks)
  }

  function MergedAlbums(env: Env, mine: map<Id, Album>, theirs: map<Id, Album>, tracks: map<Id, Track>,
                        done: set<Id>): map<Id, Album>
    requires done <= theirs.Keys
  {
    map id | id in mine.Keys + done :: if id in done then MergedAlbum(env, mine, theirs, tracks, id) else mine[id]
  }

  function Merge(env: Env, b: Builder, other: Builder): (r: Builder)
    requires Consistent(b) && Consistent(other)
    ensures Consistent(r)
  {
    Builder(
      other.artistsByName + b.artistsByName,
      other.albumsByKey + b.albumsByKey,
      MergedArtists(b.artists, other.artists, other.artists.Keys),
      MergedAlbums(env, b.albums, other.albums, other.tracks, other.albums.Keys),
      other.tracks + b.tracks)
  }

  function Flatten(chunks: seq<seq<Scanned>>): seq<Scanned> {
    if chunks == [] then [] else Flatten(chunks[..|chunks| - 1]) + chunks[|chunks| - 1]
  }

  /** The chunks' builders merged in order. */
  function Parallel(env: Env, chunks: seq<seq<Scanned>>): (r: Builder)
    requires AllTagged(Flatten(chunks))
    ensures Consistent(r)
  {
    if chunks == [] then Empty()
    else
      var (rest, last) := (chunks[..|chunks| - 1], chunks[|chunks| - 1]);
      assert forall i :: 0 <= i < |Flatten(rest)| ==> Flatten(chunks)[i] == Flatten(rest)[i];
      assert forall i :: 0 <= i < |last| ==> Flatten(chunks)[|Flatten(rest)| + i] == last[i];
      Merge(env, Parallel(env, rest), Sequential(env, last))
  }

  /** The size of the chunks: the tracks shared among the threads, but at least 256. */
  function ChunkSize(tracks: nat, threads: nat): (size: nat)
    requires threads > 0
    ensures size >= 256
  {
    if tracks / threads >= 256 then tracks / threads else 256
  }

  /** `par_chunks`: all chunks of the given size, the last one possibly shorter. */
  function ChunksOf(xs: seq<Scanned>, size: nat): seq<seq<Scanned>>
    requires size > 0
    decreases |xs|
  {
    if xs == [] then []
    else if |xs| <= size then [xs]
    else [xs[..size]] + ChunksOf(xs[size..], size)
  }
}
