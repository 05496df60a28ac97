/** What an album, an artist and a track of the index say, in terms of the scanned tracks alone: the first track that
    knows a date wins, sizes and durations add up, genres are listed once each. */
module LibraryAlbums {
  import opened Wrappers
  import opened Lists
  import opened LibraryIndex
  import opened LibraryMerge
  import opened LibraryCollisions

  // ---- References ----

  /** The first of these that is known. */
  predicate FirstKnown<T(==)>(said: seq<Option<T>>, r: Option<T>) {
    if r.None? then forall i :: 0 <= i < |said| ==> said[i].None?
    else exists i :: 0 <= i < |said| && said[i] == r && forall j :: 0 <= j < i ==> said[j].None?
  }

  function SumKnown(said: seq<Option<nat>>): nat {
    if said == [] then 0
    else SumKnown(said[..|said| - 1]) + if said[|said| - 1].Some? then said[|said| - 1].value else 0
  }

  /** The sum of those that are known, as far as `max`; unknown when none is. */
  predicate SummedUp(said: seq<Option<nat>>, max: nat, r: Option<nat>) {
    if r.None? then forall i :: 0 <= i < |said| ==> said[i].None?
    else r.value == Min(SumKnown(said), max) && exists i :: 0 <= i < |said| && said[i].Some?
  }

  predicate Greatest(said: seq<Option<nat>>, r: Option<nat>) {
    if r.None? then forall i :: 0 <= i < |said| ==> said[i].None?
    else
      && (exists i :: 0 <= i < |said| && said[i] == r)
      && forall i :: 0 <= i < |said| && said[i].Some? ==> said[i].value <= r.value
  }

  /** The same text but for the case of ASCII letters. */
  predicate Alike(a: string, b: string) {
    |a| == |b| && forall i :: 0 <= i < |a| ==>
      a[i] == b[i] || ('A' <= a[i] <= 'Z' && b[i] as int == a[i] as int + 32) ||
        ('A' <= b[i] <= 'Z' && a[i] as int == b[i] as int + 32)
  }

  // ---- One more ----

  lemma FirstKnownMore<T>(said: seq<Option<T>>, r: Option<T>, s: Option<T>)
    requires FirstKnown(said, r)
    ensures FirstKnown(said + [s], if r.Some? then r else s)
  {
    var all := said + [s];
    if r.Some? {
      var i :| 0 <= i < |said| && said[i] == r && forall j :: 0 <= j < i ==> said[j].None?;
      assert all[i] == r && forall j :: 0 <= j < i ==> all[j].None?;
    } else if s.Some? {
      assert all[|said|] == s && forall j :: 0 <= j < |said| ==> all[j].None?;
    }
  }

  lemma SummedUpMore(said: seq<Option<nat>>, max: nat, r: Option<nat>, s: Option<nat>)
    requires SummedUp(said, max, r)
    ensures SummedUp(said + [s], max, if s.Some? then Some(Min((if r.Some? then r.value else 0) + s.value, max)) else r)
  {
    var all := said + [s];
    assert all[..|all| - 1] == said && all[|said|] == s;
    if r.Some? {
      var i :| 0 <= i < |said| && said[i].Some?;
      assert all[i].Some?;
    } else {
      NoneKnown(said);
    }
  }

  lemma {:induction false} NoneKnown(said: seq<Option<nat>>)
    requires forall i :: 0 <= i < |said| ==> said[i].None?
    ensures SumKnown(said) == 0
  {
    if said != [] {
      NoneKnown(said[..|said| - 1]);
    }
  }

  lemma GreatestMore(said: seq<Option<nat>>, r: Option<nat>, s: Option<nat>)
    requires Greatest(said, r)
    ensures Greatest(said + [s], if s.Some? then Some(Max(if r.Some? then r.value else 0, s.value)) else r)
  {
    var all := said + [s];
    assert all[|said|] == s && forall i :: 0 <= i < |said| ==> all[i] == said[i];
    if r.Some? {
      var i :| 0 <= i < |said| && said[i] == r;
      assert all[i] == r;
    }
  }

  lemma AlikeIs(a: string, b: string)
    ensures SameIgnoringCase(a, b) <==> Alike(a, b)
  {
  }

  lemma {:induction false} GenresListed(all: seq<string>, listed: seq<string>, more: seq<string>)
    requires ListsFirsts(all, listed, Alike)
    ensures ListsFirsts(all + more, AddGenres(listed, more), Alike)
    decreases |more|
  {
    hide *;
    AddGenresStep(listed, more);
    if more == [] {
      assert all + more == all;
    } else {
      HasGenreIs(listed, more[0]);
      AlikeItself(more[0]);
      FirstsMore(all, listed, more[0], Alike);
      GenresListed(all + [more[0]], if HasGenre(listed, more[0]) then listed else listed + [more[0]], more[1..]);
      assert all + [more[0]] + more[1..] == all + more;
    }
  }

  lemma AddGenresStep(listed: seq<string>, more: seq<string>)
    ensures AddGenres(listed, more)
            == if more == [] then listed
               else AddGenres(if HasGenre(listed, more[0]) then listed else listed + [more[0]], more[1..])
  {
  }

  lemma AlikeItself(a: string)
    ensures Alike(a, a)
  {
  }

  lemma HasGenreIs(listed: seq<string>, genre: string)
    ensures HasGenre(listed, genre) <==> exists i :: 0 <= i < |listed| && Alike(listed[i], genre)
  {
    hide SameIgnoringCase, Alike;
    forall i | 0 <= i < |listed| ensures SameIgnoringCase(listed[i], genre) <==> Alike(listed[i], genre) {
      AlikeIs(listed[i], genre);
    }
  }

  lemma {:induction false} PushesListed(ids: seq<Id>)
    ensures ListsFirsts(ids, PushAllNew([], ids), Same)
  {
    hide Firsts;
    if ids == [] {
      FirstsNone<Id>(Same);
    } else {
      var (rest, id) := (ids[..|ids| - 1], ids[|ids| - 1]);
      PushesListed(rest);
      FirstsMore(rest, PushAllNew([], rest), id, Same);
      assert rest + [id] == ids;
    }
  }

  // ---- The tracks of an album and of an artist ----

  /** The album artist of a track, the artist when it has none. */
  predicate By(x: Scanned, artist: string)
    requires x.tags.Some?
  {
    artist == if x.tags.value.albumArtist.Some? then x.tags.value.albumArtist.value else x.tags.value.artist
  }

  /** The tracks with this album artist and title, in order. */
  function OfAlbum(xs: seq<Scanned>, artist: string, title: string): (r: seq<Scanned>)
    requires AllTagged(xs)
    ensures AllTagged(r)
  {
    if xs == [] then []
    else
      var x := xs[|xs| - 1];
      OfAlbum(xs[..|xs| - 1], artist, title) + if By(x, artist) && x.tags.value.album == title then [x] else []
  }

  /** The tracks with this album artist, in order. */
  function OfArtist(xs: seq<Scanned>, artist: string): (r: seq<Scanned>)
    requires AllTagged(xs)
    ensures AllTagged(r)
  {
    if xs == [] then []
    else
      var x := xs[|xs| - 1];
      OfArtist(xs[..|xs| - 1], artist) + if By(x, artist) then [x] else []
  }

  lemma KeyIs(x: Scanned, artist: string, title: string)
    requires x.tags.Some?
    ensures KeyOf(x) == (artist, title) <==> By(x, artist) && x.tags.value.album == title
    ensures KeyOf(x).0 == artist <==> By(x, artist)
    ensures KeyOf(x).1 == x.tags.value.album
  {
  }

  // ---- An album, track by track ----

  function Dates(xs: seq<Scanned>): seq<Option<string>>
    requires AllTagged(xs)
  {
    seq(|xs|, i requires 0 <= i < |xs| => xs[i].tags.value.date)
  }

  /** The years that the tracks' dates have. */
  function Years(env: Env, xs: seq<Scanned>): seq<Option<int>>
    requires AllTagged(xs)
  {
    seq(|xs|, i requires 0 <= i < |xs| =>
      if xs[i].tags.value.date.Some? then env.year(xs[i].tags.value.date.value) else None)
  }

  function AlbumMbids(xs: seq<Scanned>): seq<Option<string>>
    requires AllTagged(xs)
  {
    seq(|xs|, i requires 0 <= i < |xs| => xs[i].tags.value.musicbrainzAlbumId)
  }

  function GroupMbids(xs: seq<Scanned>): seq<Option<string>>
    requires AllTagged(xs)
  {
    seq(|xs|, i requires 0 <= i < |xs| => xs[i].tags.value.musicbrainzReleaseGroupId)
  }

  function Durations(xs: seq<Scanned>): seq<Option<nat>>
    requires AllTagged(xs)
  {
    seq(|xs|, i requires 0 <= i < |xs| => xs[i].tags.value.durationSeconds)
  }

  function Discs(xs: seq<Scanned>): seq<Option<nat>>
    requires AllTagged(xs)
  {
    seq(|xs|, i requires 0 <= i < |xs| => xs[i].tags.value.discNumber)
  }

  function Sizes(xs: seq<Scanned>): seq<Option<nat>> {
    seq(|xs|, i requires 0 <= i < |xs| => Some(xs[i].fileSize))
  }

  function Genres(xs: seq<Scanned>): seq<string>
    requires AllTagged(xs)
  {
    if xs == [] then [] else Genres(xs[..|xs| - 1]) + xs[|xs| - 1].tags.value.genres
  }

  function TrackIdsIn(env: Env, artist: string, title: string, xs: seq<Scanned>): seq<Id> {
    seq(|xs|, i requires 0 <= i < |xs| => StableId(env, "track", artist + ":" + title + ":" + xs[i].relativePath))
  }

  /** An album of this id, artist and title says what its tracks say. */
  ghost predicate Says(env: Env, album: Album, id: Id, artist: string, title: string, xs: seq<Scanned>)
    requires AllTagged(xs)
  {
    && album.id == id && album.artist == artist && album.title == title && album.albumArtist == Some(artist)
    && album.trackIds == TrackIdsIn(env, artist, title, xs)
    && FirstKnown(Dates(xs), album.date) && FirstKnown(Years(env, xs), album.year)
    && FirstKnown(AlbumMbids(xs), album.musicbrainzAlbumId)
    && FirstKnown(GroupMbids(xs), album.musicbrainzReleaseGroupId)
    && SummedUp(Durations(xs), 4_294_967_295, album.durationSeconds)
    && album.sizeBytes == Min(SumKnown(Sizes(xs)), 18_446_744_073_709_551_615)
    && Greatest(Discs(xs), album.discCount)
    && ListsFirsts(Genres(xs), album.genres, Alike)
  }

  lemma NewSays(env: Env, id: Id, artist: string, title: string)
    ensures Says(env, NewAlbum(id, (artist, title)), id, artist, title, [])
  {
    FirstsNone(Alike);
  }

  /** What one more track makes of the fields. */
  lemma ExtendFields(env: Env, album: Album, t: Track)
    ensures var r := Extend(env, album, t);
            && r.id == album.id && r.artist == album.artist && r.title == album.title
            && r.albumArtist
               == (if album.albumArtist.Some? then album.albumArtist
                   else if t.tags.albumArtist.Some? then t.tags.albumArtist else Some(t.tags.artist))
            && r.trackIds == album.trackIds + [t.id]
            && r.date == (if album.date.Some? then album.date else t.tags.date)
            && r.year == (if album.year.Some? then album.year
                          else if t.tags.date.Some? then env.year(t.tags.date.value) else None)
    ensures var r := Extend(env, album, t);
            && r.musicbrainzAlbumId
               == (if album.musicbrainzAlbumId.Some? then album.musicbrainzAlbumId else t.tags.musicbrainzAlbumId)
            && r.musicbrainzReleaseGroupId
               == (if album.musicbrainzReleaseGroupId.Some? then album.musicbrainzReleaseGroupId
                   else t.tags.musicbrainzReleaseGroupId)
            && r.genres == AddGenres(album.genres, t.tags.genres)
    ensures var (r, d, n) := (Extend(env, album, t), t.tags.durationSeconds, t.tags.discNumber);
            && r.sizeBytes == Min(album.sizeBytes + t.fileSize, 18_446_744_073_709_551_615)
            && r.durationSeconds
               == (if d.Some? then
                     Some(Min((if album.durationSeconds.Some? then album.durationSeconds.value else 0) + d.value,
                              4_294_967_295))
                   else album.durationSeconds)
            && r.discCount
               == (if n.Some? then Some(Max(if album.discCount.Some? then album.discCount.value else 0, n.value))
                   else album.discCount)
  {
    hide AddGenres;
  }

  lemma SaidMore(env: Env, xs: seq<Scanned>, x: Scanned)
    requires AllTagged(xs) && x.tags.Some?
    ensures AllTagged(xs + [x])
    ensures var tags := x.tags.value;
            && Dates(xs + [x]) == Dates(xs) + [tags.date]
            && Years(env, xs + [x]) == Years(env, xs) + [if tags.date.Some? then env.year(tags.date.value) else None]
            && AlbumMbids(xs + [x]) == AlbumMbids(xs) + [tags.musicbrainzAlbumId]
            && GroupMbids(xs + [x]) == GroupMbids(xs) + [tags.musicbrainzReleaseGroupId]
    ensures var tags := x.tags.value;
            && Durations(xs + [x]) == Durations(xs) + [tags.durationSeconds]
            && Discs(xs + [x]) == Discs(xs) + [tags.discNumber]
            && Sizes(xs + [x]) == Sizes(xs) + [Some(x.fileSize)]
            && Genres(xs + [x]) == Genres(xs) + tags.genres
  {
    assert (xs + [x])[..|xs|] == xs;
  }

  lemma TrackIdMore(env: Env, artist: string, title: string, xs: seq<Scanned>, x: Scanned)
    requires x.tags.Some? && By(x, artist) && x.tags.value.album == title
    ensures TrackIdsIn(env, artist, title, xs + [x]) == TrackIdsIn(env, artist, title, xs) + [TrackOf(env, x).id]
    ensures TrackOf(env, x).tags == x.tags.value && TrackOf(env, x).fileSize == x.fileSize
  {
    hide StableId;
  }

  lemma SizesMore(xs: seq<Scanned>, x: Scanned)
    ensures SumKnown(Sizes(xs) + [Some(x.fileSize)]) == SumKnown(Sizes(xs)) + x.fileSize
  {
    var all := Sizes(xs) + [Some(x.fileSize)];
    assert all[..|all| - 1] == Sizes(xs);
  }

  lemma ExtendSays(env: Env, album: Album, id: Id, artist: string, title: string, xs: seq<Scanned>, x: Scanned)
    requires AllTagged(xs) && Says(env, album, id, artist, title, xs)
    requires x.tags.Some? && By(x, artist) && x.tags.value.album == title
    ensures AllTagged(xs + [x]) && Says(env, Extend(env, album, TrackOf(env, x)), id, artist, title, xs + [x])
  {
    hide FirstKnown, SummedUp, Greatest, ListsFirsts, Extend, TrackOf, Dates, Years, AlbumMbids, GroupMbids, Durations,
      Discs, Sizes, Genres, TrackIdsIn, AddGenres, SumKnown, AllTagged, By;
    var tags := x.tags.value;
    ExtendFields(env, album, TrackOf(env, x));
    SaidMore(env, xs, x);
    TrackIdMore(env, artist, title, xs, x);
    SizesMore(xs, x);
    FirstKnownMore(Dates(xs), album.date, tags.date);
    FirstKnownMore(Years(env, xs), album.year, if tags.date.Some? then env.year(tags.date.value) else None);
    FirstKnownMore(AlbumMbids(xs), album.musicbrainzAlbumId, tags.musicbrainzAlbumId);
    FirstKnownMore(GroupMbids(xs), album.musicbrainzReleaseGroupId, tags.musicbrainzReleaseGroupId);
    SummedUpMore(Durations(xs), 4_294_967_295, album.durationSeconds, tags.durationSeconds);
    GreatestMore(Discs(xs), album.discCount, tags.discNumber);
    GenresListed(Genres(xs), album.genres, tags.genres);
  }

  function TracksIn(env: Env, xs: seq<Scanned>): seq<Track>
    requires AllTagged(xs)
  {
    seq(|xs|, i requires 0 <= i < |xs| => TrackOf(env, xs[i]))
  }

  lemma {:induction false} FilledSays(env: Env, id: Id, artist: string, title: string, xs: seq<Scanned>)
    requires AllTagged(xs) && forall i :: 0 <= i < |xs| ==> By(xs[i], artist) && xs[i].tags.value.album == title
    ensures Says(env, Filled(env, NewAlbum(id, (artist, title)), TracksIn(env, xs)), id, artist, title, xs)
  {
    hide Says, Extend, NewAlbum, TrackOf, By;
    if xs == [] {
      NewSays(env, id, artist, title);
    } else {
      var (rest, x) := (xs[..|xs| - 1], xs[|xs| - 1]);
      FilledSays(env, id, artist, title, rest);
      ExtendSays(env, Filled(env, NewAlbum(id, (artist, title)), TracksIn(env, rest)), id, artist, title, rest, x);
      assert rest + [x] == xs;
      assert TracksIn(env, xs)[..|rest|] == TracksIn(env, rest);
    }
  }

  // ---- The albums of a scan ----

  lemma {:induction false} AlbumFacts(xs: seq<Scanned>, artist: string, title: string)
    requires AllTagged(xs)
    ensures var ys := OfAlbum(xs, artist, title);
            && (forall i :: 0 <= i < |ys| ==> By(ys[i], artist) && ys[i].tags.value.album == title)
            && (ys != [] <==> (artist, title) in Keys(xs))
  {
    hide By, KeyOf;
    if xs != [] {
      var (rest, x) := (xs[..|xs| - 1], xs[|xs| - 1]);
      AlbumFacts(rest, artist, title);
      KeyIs(x, artist, title);
      assert forall i :: 0 <= i < |rest| ==> rest[i] == xs[i];
    }
  }

  lemma {:induction false} EventsOfAlbum(env: Env, xs: seq<Scanned>, artist: string, title: string)
    requires AllTagged(xs)
    requires forall k :: k in Keys(xs) && AlbumIdOf(env, k) == AlbumIdOf(env, (artist, title)) ==> k == (artist, title)
    ensures var es := AlbumEvents(env, xs, AlbumIdOf(env, (artist, title)));
            Values(es) == TracksIn(env, OfAlbum(xs, artist, title)) && forall i :: 0 <= i < |es| ==>
              es[i].0 == (artist, title)
  {
    hide AlbumIdOf, KeyOf, TrackOf, By, Keys, Values, AlbumEvents;
    if xs == [] {
      NoAlbumEvents(env, AlbumIdOf(env, (artist, title)));
    } else {
      var (k, rest, x) := ((artist, title), xs[..|xs| - 1], xs[|xs| - 1]);
      KeysLast(xs);
      KeyIs(x, artist, title);
      EventsOfAlbum(env, rest, artist, title);
      AlbumGrows(env, xs, AlbumIdOf(env, k));
      ValuesMore(AlbumEvents(env, rest, AlbumIdOf(env, k)), (k, TrackOf(env, x)));
    }
  }

  lemma NoAlbumEvents(env: Env, a: Id)
    ensures AlbumEvents(env, [], a) == [] && Values(AlbumEvents(env, [], a)) == []
  {
  }

  lemma KeysLast(xs: seq<Scanned>)
    requires AllTagged(xs) && xs != []
    ensures AllTagged(xs[..|xs| - 1]) && Keys(xs) == Keys(xs[..|xs| - 1]) + {KeyOf(xs[|xs| - 1])}
  {
    hide KeyOf;
    var rest := xs[..|xs| - 1];
    assert forall i :: 0 <= i < |rest| ==> rest[i] == xs[i];
  }

  lemma ValuesMore<L, V>(es: seq<(L, V)>, e: (L, V))
    ensures Values(es + [e]) == Values(es) + [e.1]
  {
    assert (es + [e])[..|es|] == es;
  }

  /** With ids that do not collide: an album is in the index exactly when the scan has tracks of it, and it says what
      all of them say. */
  lemma AlbumSays(env: Env, xs: seq<Scanned>, artist: string, title: string)
    requires AllTagged(xs) && AlbumsApart(env, xs) && OfAlbum(xs, artist, title) != []
    ensures var (albums, id) := (Sequential(env, xs).albums, StableId(env, "album", artist + ":" + title));
            id in albums && Says(env, albums[id], id, artist, title, OfAlbum(xs, artist, title))
  {
    hide Says, AlbumsApart, Sequential, StableId, NewAlbum, By, OfAlbum, AlbumEvents, Kept, Values, Filled, TracksIn;
    var (k, ys) := ((artist, title), OfAlbum(xs, artist, title));
    var a := AlbumIdOf(env, k);
    AlbumFacts(xs, artist, title);
    OneKey(env, xs, k);
    EventsOfAlbum(env, xs, artist, title);
    AlbumBuilt(env, xs, a);
    KeptAll(AlbumEvents(env, xs, a));
    TracksSome(env, ys, AlbumEvents(env, xs, a));
    FilledSays(env, a, artist, title, ys);
  }

  lemma TracksSome(env: Env, ys: seq<Scanned>, es: seq<(Key, Track)>)
    requires AllTagged(ys) && ys != [] && Values(es) == TracksIn(env, ys)
    ensures es != []
  {
  }

  lemma OneKey(env: Env, xs: seq<Scanned>, k: Key)
    requires AllTagged(xs) && AlbumsApart(env, xs) && k in Keys(xs)
    ensures forall l :: l in Keys(xs) && AlbumIdOf(env, l) == AlbumIdOf(env, k) ==> l == k
  {
    hide AlbumIdOf, KeyOf;
  }

  /** Nothing else is in the index. */
  lemma OnlyAlbums(env: Env, xs: seq<Scanned>, id: Id)
    requires AllTagged(xs) && id in Sequential(env, xs).albums
    ensures exists i :: 0 <= i < |xs|
                        && exists artist ::
                             By(xs[i], artist) && id == StableId(env, "album", artist + ":" + xs[i].tags.value.album)
  {
    hide Sequential, StableId, Keys, By, KeyOf;
    AlbumBuilt(env, xs, id);
    AlbumLabels(env, xs, id);
    LabelsSome(AlbumEvents(env, xs, id));
    var k :| k in Keys(xs) && AlbumIdOf(env, k) == id;
    var i := KeyAt(xs, k);
    KeyIs(xs[i], k.0, k.1);
  }

  lemma KeyAt(xs: seq<Scanned>, k: Key) returns (i: nat)
    requires AllTagged(xs) && k in Keys(xs)
    ensures i < |xs| && KeyOf(xs[i]) == k
  {
    i :| 0 <= i < |xs| && KeyOf(xs[i]) == k;
  }

  lemma LabelsSome<L, V>(es: seq<(L, V)>)
    ensures Labels(es) == {} <==> es == []
  {
  }

  // ---- Artists ----

  function AlbumIdsIn(env: Env, artist: string, xs: seq<Scanned>): seq<Id>
    requires AllTagged(xs)
  {
    seq(|xs|, i requires 0 <= i < |xs| => StableId(env, "album", artist + ":" + xs[i].tags.value.album))
  }

  lemma {:induction false} EventsOfArtist(env: Env, xs: seq<Scanned>, artist: string)
    requires AllTagged(xs)
    requires forall n :: n in Names(xs) && ArtistIdOf(env, n) == ArtistIdOf(env, artist) ==> n == artist
    ensures var es := ArtistEvents(env, xs, ArtistIdOf(env, artist));
            Values(es) == AlbumIdsIn(env, artist, OfArtist(xs, artist)) && forall i :: 0 <= i < |es| ==>
              es[i].0 == artist
  {
    hide ArtistIdOf, KeyOf, By, Names, Values, ArtistEvents, StableId;
    if xs == [] {
      NoArtistEvents(env, ArtistIdOf(env, artist));
    } else {
      var (rest, x) := (xs[..|xs| - 1], xs[|xs| - 1]);
      NamesLast(xs);
      KeyIs(x, artist, x.tags.value.album);
      EventsOfArtist(env, rest, artist);
      ArtistGrows(env, xs, ArtistIdOf(env, artist));
      ValuesMore(ArtistEvents(env, rest, ArtistIdOf(env, artist)), (artist, AlbumIdOf(env, KeyOf(x))));
    }
  }

  lemma NoArtistEvents(env: Env, r: Id)
    ensures ArtistEvents(env, [], r) == [] && Values(ArtistEvents(env, [], r)) == []
  {
  }

  lemma NamesLast(xs: seq<Scanned>)
    requires AllTagged(xs) && xs != []
    ensures AllTagged(xs[..|xs| - 1]) && Names(xs) == Names(xs[..|xs| - 1]) + {KeyOf(xs[|xs| - 1]).0}
  {
    hide KeyOf;
    var rest := xs[..|xs| - 1];
    assert forall i :: 0 <= i < |rest| ==> rest[i] == xs[i];
  }

  lemma {:induction false} ArtistFacts(xs: seq<Scanned>, artist: string)
    requires AllTagged(xs)
    ensures OfArtist(xs, artist) != [] <==> artist in Names(xs)
  {
    hide By, KeyOf;
    if xs != [] {
      NamesLast(xs);
      ArtistFacts(xs[..|xs| - 1], artist);
      KeyIs(xs[|xs| - 1], artist, xs[|xs| - 1].tags.value.album);
      hide Names;
    }
  }

  lemma OneName(env: Env, xs: seq<Scanned>, artist: string)
    requires AllTagged(xs) && ArtistsApart(env, xs) && artist in Names(xs)
    ensures forall n :: n in Names(xs) && ArtistIdOf(env, n) == ArtistIdOf(env, artist) ==> n == artist
  {
    hide ArtistIdOf, KeyOf;
  }

  /** With ids that do not collide: an artist lists the albums of its tracks, each once, in the order of their first
      tracks. */
  lemma ArtistSays(env: Env, xs: seq<Scanned>, artist: string)
    requires AllTagged(xs) && ArtistsApart(env, xs) && OfArtist(xs, artist) != []
    ensures var (artists, id) := (Sequential(env, xs).artists, StableId(env, "artist", artist));
            && id in artists && artists[id].id == id && artists[id].name == artist
            && ListsFirsts(AlbumIdsIn(env, artist, OfArtist(xs, artist)), artists[id].albumIds, Same)
  {
    hide ArtistsApart, Sequential, StableId, By, OfArtist, ArtistEvents, Kept, Values, AlbumIdsIn, ListsFirsts,
      PushAllNew;
    var r := ArtistIdOf(env, artist);
    ArtistFacts(xs, artist);
    OneName(env, xs, artist);
    EventsOfArtist(env, xs, artist);
    ArtistBuilt(env, xs, r);
    KeptAll(ArtistEvents(env, xs, r));
    AlbumsSome(env, artist, OfArtist(xs, artist), ArtistEvents(env, xs, r));
    PushesListed(AlbumIdsIn(env, artist, OfArtist(xs, artist)));
  }

  lemma AlbumsSome(env: Env, artist: string, ys: seq<Scanned>, es: seq<(string, Id)>)
    requires AllTagged(ys) && ys != [] && Values(es) == AlbumIdsIn(env, artist, ys)
    ensures es != []
  {
  }

  lemma OnlyArtists(env: Env, xs: seq<Scanned>, id: Id)
    requires AllTagged(xs) && id in Sequential(env, xs).artists
    ensures exists i :: 0 <= i < |xs| && exists artist :: By(xs[i], artist) && id == StableId(env, "artist", artist)
  {
    hide Sequential, StableId, Names, By, KeyOf, Labels;
    ArtistBuilt(env, xs, id);
    ArtistLabels(env, xs, id);
    LabelsSome(ArtistEvents(env, xs, id));
    var n :| n in Names(xs) && ArtistIdOf(env, n) == id;
    var i := NameAt(xs, n);
    KeyIs(xs[i], n, xs[i].tags.value.album);
  }

  lemma NameAt(xs: seq<Scanned>, n: string) returns (i: nat)
    requires AllTagged(xs) && n in Names(xs)
    ensures i < |xs| && KeyOf(xs[i]).0 == n
  {
    i :| 0 <= i < |xs| && KeyOf(xs[i]).0 == n;
  }

  // ---- Tracks ----

  /** A track's id, whatever its name. */
  ghost predicate HasId(env: Env, x: Scanned, id: Id)
    requires x.tags.Some?
  {
    exists artist ::
      By(x, artist) && id == StableId(env, "track", artist + ":" + x.tags.value.album + ":" + x.relativePath)
  }

  lemma HasIdIs(env: Env, x: Scanned, id: Id)
    requires x.tags.Some?
    ensures HasId(env, x, id) <==> TrackIdOf(env, x) == id
  {
    hide StableId;
    assert By(x, KeyOf(x).0);
  }

  lemma {:induction false} LastTrackAt(env: Env, xs: seq<Scanned>, id: Id)
    requires AllTagged(xs)
    ensures LastTrack(env, xs, id).None? <==> forall i :: 0 <= i < |xs| ==> TrackIdOf(env, xs[i]) != id
    ensures forall i {:trigger xs[i]} ::
              0 <= i < |xs| && TrackIdOf(env, xs[i]) == id &&
                (forall j :: i < j < |xs| ==> TrackIdOf(env, xs[j]) != id) ==>
                LastTrack(env, xs, id) == Some(TrackOf(env, xs[i]))
  {
    hide TrackIdOf, TrackOf;
    if xs != [] {
      var (rest, x) := (xs[..|xs| - 1], xs[|xs| - 1]);
      LastTrackAt(env, rest, id);
      assert forall i :: 0 <= i < |rest| ==> rest[i] == xs[i];
    }
  }

  /** A track of the index is the last one of the scan with its id, whatever ids collide. */
  lemma TrackSays(env: Env, xs: seq<Scanned>, id: Id, i: nat)
    requires AllTagged(xs) && i < |xs| && HasId(env, xs[i], id)
    requires forall j :: i < j < |xs| ==> !HasId(env, xs[j], id)
    ensures var tracks := Sequential(env, xs).tracks;
            && id in tracks && tracks[id].id == id && tracks[id].tags == xs[i].tags.value
            && tracks[id].relativePath == xs[i].relativePath
            && tracks[id].fileSize == xs[i].fileSize && tracks[id].modifiedAt == xs[i].modifiedAt
  {
    hide HasId, Sequential, LastTrack, TrackIdOf;
    forall j | i <= j < |xs| ensures HasId(env, xs[j], id) <==> TrackIdOf(env, xs[j]) == id {
      HasIdIs(env, xs[j], id);
    }
    TracksBuilt(env, xs, id);
    LastTrackAt(env, xs, id);
  }

  lemma OnlyTracks(env: Env, xs: seq<Scanned>, id: Id)
    requires AllTagged(xs) && id in Sequential(env, xs).tracks
    ensures exists i :: 0 <= i < |xs| && HasId(env, xs[i], id)
  {
    hide HasId, Sequential, LastTrack, TrackIdOf;
    TracksBuilt(env, xs, id);
    LastTrackAt(env, xs, id);
    var i :| 0 <= i < |xs| && TrackIdOf(env, xs[i]) == id;
    HasIdIs(env, xs[i], id);
  }
}
