/** Playlists with their tracks (server.rs, routes.rs): the stored tables, the operations on them as an object, and the
    edit of a track list by index.

    The tables are the rows of `Playlists` and, for each playlist, its track rows in the order they were inserted. Every
    operation is a function on the tables; the object does the statements one by one and ends in that function's tables.
    The library is the set of tracks it has at the time of an operation. New ids are fresh, and names and comments are
    trimmed before they get here.  */
module PlaylistStore {
  import opened Wrappers
  import opened Playlists

  /** The two tables; the tracks of a playlist are the rows with its id. */
  datatype Tables = Tables(rows: seq<Row>, tracks: map<Id, seq<TrackRow>>)

  // ---- Tracks ----

  /** The ids without their later repetitions. */
  function Unique(ids: seq<Id>): (r: seq<Id>)
    ensures forall id :: id in r <==> id in ids
  {
    if ids == [] then []
    else
      var (rest, last) := (ids[..|ids| - 1], ids[|ids| - 1]);
      assert ids == rest + [last];
      if last in rest then Unique(rest) else Unique(rest) + [last]
  }

  lemma UniqueLast(rest: seq<Id>, last: Id)
    ensures Unique(rest + [last]) == if last in rest then Unique(rest) else Unique(rest) + [last]
  {
    assert (rest + [last])[..|rest|] == rest;
  }

  lemma DistinctLast(ids: seq<Id>, last: Id)
    ensures DistinctList(ids + [last]) <==> DistinctList(ids) && last !in ids
  {
    var all := ids + [last];
    if DistinctList(all) {
      assert forall i :: 0 <= i < |ids| ==> all[i] == ids[i];
      assert forall i :: 0 <= i < |ids| ==> all[i] != all[|ids|];
    }
  }

  lemma NothingTwice()
    ensures Unique([]) == [] && DistinctList([])
  {
  }

  lemma {:induction false} UniqueDistinct(ids: seq<Id>)
    ensures DistinctList(Unique(ids))
    ensures DistinctList(ids) ==> Unique(ids) == ids
  {
    hide *;
    if ids == [] {
      NothingTwice();
    } else {
      var (rest, last) := (ids[..|ids| - 1], ids[|ids| - 1]);
      assert ids == rest + [last];
      UniqueDistinct(rest);
      UniqueLast(rest, last);
      DistinctLast(rest, last);
      DistinctLast(Unique(rest), last);
    }
  }

  predicate AllKnown(library: set<Id>, ids: seq<Id>) {
    forall i :: 0 <= i < |ids| ==> ids[i] in library
  }

  /** The rows a replacement inserts. */
  function Numbered(ids: seq<Id>): (r: seq<TrackRow>)
    ensures |r| == |ids|
  {
    seq(|ids|, i requires 0 <= i < |ids| => TrackRow(ids[i], i))
  }

  function InsertByPosition(x: TrackRow, rows: seq<TrackRow>): seq<TrackRow> {
    if rows == [] || x.position <= rows[0].position then [x] + rows else [rows[0]] + InsertByPosition(x, rows[1..])
  }

  function ByPosition(rows: seq<TrackRow>): seq<TrackRow> {
    if rows == [] then [] else InsertByPosition(rows[0], ByPosition(rows[1..]))
  }

  function TrackIds(rows: seq<TrackRow>): (r: seq<Id>)
    ensures |r| == |rows|
  {
    seq(|rows|, i requires 0 <= i < |rows| => rows[i].track)
  }

  /** SELECT track_id FROM playlist_tracks WHERE playlist_id = ? ORDER BY position. */
  function Stored(t: Tables, id: Id): seq<Id> {
    if id in t.tracks then TrackIds(ByPosition(t.tracks[id])) else []
  }

  predicate Ordered(rows: seq<TrackRow>) {
    forall i, j :: 0 <= i < j < |rows| ==> rows[i].position < rows[j].position
  }

  lemma {:induction false} OrderedStays(rows: seq<TrackRow>)
    requires Ordered(rows)
    ensures ByPosition(rows) == rows
  {
    if rows != [] {
      OrderedStays(rows[1..]);
    }
  }

  /** Numbered rows are selected as they were inserted. */
  lemma NumberedSelect(ids: seq<Id>)
    ensures TrackIds(ByPosition(Numbered(ids))) == ids
  {
    OrderedStays(Numbered(ids));
  }

  function Kept(ids: seq<Id>, library: set<Id>): (r: seq<Id>)
    ensures |r| <= |ids| && forall id :: id in r <==> id in ids && id in library
  {
    if ids == [] then []
    else
      var (rest, last) := (ids[..|ids| - 1], ids[|ids| - 1]);
      assert ids == rest + [last];
      if last in library then Kept(rest, library) + [last] else Kept(rest, library)
  }

  lemma {:induction false} KeptAll(ids: seq<Id>, library: set<Id>)
    ensures |Kept(ids, library)| == |ids| <==> AllKnown(library, ids)
    ensures AllKnown(library, ids) ==> Kept(ids, library) == ids
    ensures AllKnown(library, Kept(ids, library))
  {
    if ids != [] {
      KeptAll(ids[..|ids| - 1], library);
    }
  }

  lemma {:induction false} KeptDistinct(ids: seq<Id>, library: set<Id>)
    requires DistinctList(ids)
    ensures DistinctList(Kept(ids, library))
  {
    if ids != [] {
      var (rest, last) := (ids[..|ids| - 1], ids[|ids| - 1]);
      KeptDistinct(rest, library);
      assert last !in rest;
      assert forall i :: 0 <= i < |Kept(rest, library)| ==> Kept(rest, library)[i] in rest;
    }
  }

  // ---- The operations ----

  function Replaced(t: Tables, id: Id, ids: seq<Id>): Tables {
    t.(tracks := t.tracks[id := Numbered(ids)])
  }

  function CreatePlaylist(t: Tables, library: set<Id>, scope: string, name: string, ids: seq<Id>, id: Id,
                          now: int): (bool, Tables) {
    if name == "" || !AllKnown(library, ids) then (false, t)
    else (true, Replaced(t.(rows := Create(t.rows, scope, id, name, now)), id, Unique(ids)))
  }

  function DeletePlaylist(t: Tables, scope: string, id: Id): (bool, Tables) {
    if FindRow(t.rows, scope, id) == |t.rows| then (false, t)
    else (true, Tables(Delete(t.rows, scope, id), t.tracks - {id}))
  }

  function Edited(row: Row, name: Option<string>, comment: Option<Option<string>>, now: int): Row {
    row.(name := if name.Some? then name.value else row.name,
         comment := if comment.Some? then comment.value else row.comment,
         changed := now)
  }

  /** Trimmed arguments; an empty name and an unknown track are refused, an empty comment clears it. */
  function UpdatePlaylist(t: Tables, library: set<Id>, scope: string, id: Id, name: Option<string>,
                          comment: Option<string>,
                          ids: Option<seq<Id>>, now: int): (bool, Tables)
  {
    var i := FindRow(t.rows, scope, id);
    if name == Some("") || (ids.Some? && !AllKnown(library, ids.value)) || i == |t.rows| then (false, t)
    else
      var cleared := if comment.Some? then Some(if comment.value == "" then None else comment) else None;
      var edited := t.(rows := t.rows[i := Edited(t.rows[i], name, cleared, now)]);
      (true, if ids.Some? then Replaced(edited, id, Unique(ids.value)) else edited)
  }

  /** Loading prunes the tracks the library no longer has. */
  function LoadPlaylist(t: Tables, library: set<Id>, scope: string, id: Id, now: int): (Option<seq<Id>>, Tables) {
    var i := FindRow(t.rows, scope, id);
    if i == |t.rows| then (None, t)
    else
      var stored := Stored(t, id);
      var kept := Kept(stored, library);
      (Some(kept), if |kept| != |stored| then Replaced(t.(rows := t.rows[i := t.rows[i].(changed := now)]), id, kept)
                   else t)
  }

  function ReorderPlaylists(t: Tables, scope: string, ids: seq<Id>): (bool, Tables) {
    var (ok, rows) := Reorder(t.rows, scope, ids);
    (ok, t.(rows := rows))
  }

  // ---- What every history keeps ----

  predicate TracksOk(rows: seq<TrackRow>) {
    rows == Numbered(TrackIds(rows)) && DistinctList(TrackIds(rows))
  }

  /** Playlists have distinct ids and positions; every playlist's tracks are without repetition at positions 0 to
      n - 1; there are no tracks of playlists that are not there. */
  predicate Inv(t: Tables) {
    && Valid(t.rows)
    && (forall id :: id in t.tracks ==> TracksOk(t.tracks[id]) && id in Ids(t.rows))
  }

  lemma NumberedOk(ids: seq<Id>)
    requires DistinctList(ids)
    ensures TracksOk(Numbered(ids)) && TrackIds(Numbered(ids)) == ids
  {
    assert TrackIds(Numbered(ids)) == ids;
  }

  lemma StoredIs(t: Tables, id: Id)
    requires Inv(t)
    ensures Stored(t, id) == (if id in t.tracks then TrackIds(t.tracks[id]) else []) && DistinctList(Stored(t, id))
  {
    if id in t.tracks {
      NumberedSelect(TrackIds(t.tracks[id]));
    }
  }

  lemma ReplacedKeeps(t: Tables, id: Id, ids: seq<Id>)
    requires Inv(t) && id in Ids(t.rows) && DistinctList(ids)
    ensures Inv(Replaced(t, id, ids)) && Stored(Replaced(t, id, ids), id) == ids
    ensures forall other :: other != id ==> Stored(Replaced(t, id, ids), other) == Stored(t, other)
  {
    NumberedOk(ids);
    NumberedSelect(ids);
  }

  lemma RowsKeep(t: Tables, rows: seq<Row>)
    requires Inv(t) && SamePlaces(t.rows, rows)
    ensures Inv(t.(rows := rows)) && Ids(rows) == Ids(t.rows)
  {
    UpdateKeepsListing(t.rows, rows, "");
    assert Ids(rows) == Ids(t.rows);
  }

  lemma FoundId(rows: seq<Row>, i: nat)
    requires i < |rows|
    ensures rows[i].id in Ids(rows)
  {
    assert Ids(rows)[i] == rows[i].id;
  }

  lemma GrowKeeps(t: Tables, rows: seq<Row>)
    requires Inv(t) && Valid(rows) && forall k :: k in Ids(t.rows) ==> k in Ids(rows)
    ensures Inv(t.(rows := rows)) && forall id :: Stored(t.(rows := rows), id) == Stored(t, id)
  {
    hide Valid, TracksOk, Ids, ByPosition;
  }

  lemma CreatesOk(t: Tables, scope: string, name: string, ids: seq<Id>, id: Id, now: int, other: string, otherId: Id)
    requires Inv(t) && id !in Ids(t.rows)
    ensures var t' := Replaced(t.(rows := Create(t.rows, scope, id, name, now)), id, Unique(ids));
            && Inv(t') && Listing(t'.rows, scope) == Listing(t.rows, scope) + [id] && Stored(t', id) == Unique(ids)
            && (other != scope ==> Listing(t'.rows, other) == Listing(t.rows, other))
            && (otherId != id ==> Stored(t', otherId) == Stored(t, otherId))
  {
    var rows := Create(t.rows, scope, id, name, now);
    hide Valid, TracksOk, Ids, ByPosition, Listing, Create, Unique, DistinctList, Stored, Numbered;
    CreateAppends(t.rows, scope, id, name, now, other);
    CreateIds(t.rows, scope, id, name, now);
    UniqueDistinct(ids);
    GrowKeeps(t, rows);
    ReplacedKeeps(t.(rows := rows), id, Unique(ids));
  }

  /** Creating: the new playlist is last in its scope with the given tracks without repetitions; nothing else
      changes. */
  lemma Creates(t: Tables, library: set<Id>, scope: string, name: string, ids: seq<Id>, id: Id, now: int,
                other: string, otherId: Id)
    requires Inv(t) && id !in Ids(t.rows)
    ensures var (ok, t') := CreatePlaylist(t, library, scope, name, ids, id, now);
            && Inv(t') && (ok <==> name != "" && forall k :: k in ids ==> k in library) && (!ok ==> t' == t)
            && (ok ==> Listing(t'.rows, scope) == Listing(t.rows, scope) + [id] && Stored(t', id) == Unique(ids))
            && (other != scope ==> Listing(t'.rows, other) == Listing(t.rows, other))
            && (otherId != id ==> Stored(t', otherId) == Stored(t, otherId))
  {
    CreatesOk(t, scope, name, ids, id, now, other, otherId);
    hide Inv, Ids, Listing, Create, Unique, Stored, Replaced;
  }

  lemma CreateIds(rows: seq<Row>, scope: string, id: Id, name: string, now: int)
    ensures id in Ids(Create(rows, scope, id, name, now))
    ensures forall k :: k in Ids(rows) ==> k in Ids(Create(rows, scope, id, name, now))
  {
    var rows' := Create(rows, scope, id, name, now);
    assert Ids(rows')[|rows|] == id;
    forall k | k in Ids(rows) ensures k in Ids(rows') {
      var i :| 0 <= i < |rows| && Ids(rows)[i] == k;
      assert Ids(rows')[i] == k;
    }
  }

  lemma RemainingIds(rows: seq<Row>, i: nat, k: Id)
    requires i < |rows| && k in Ids(rows) && k != rows[i].id
    ensures k in Ids(RemoveAt(rows, i))
  {
    var j :| 0 <= j < |rows| && Ids(rows)[j] == k;
    assert Ids(RemoveAt(rows, i))[if j < i then j else j - 1] == k;
  }

  lemma ShrinkKeeps(t: Tables, i: nat)
    requires Inv(t) && i < |t.rows|
    ensures var t' := Tables(RemoveAt(t.rows, i), t.tracks - {t.rows[i].id});
            Inv(t') && Stored(t', t.rows[i].id) == [] && forall k :: k != t.rows[i].id ==> Stored(t', k) == Stored(t, k)
  {
    RemoveValid(t.rows, i);
    forall k | k in t.tracks && k != t.rows[i].id ensures k in Ids(RemoveAt(t.rows, i)) {
      RemainingIds(t.rows, i, k);
    }
    hide Valid, TracksOk, Ids, ByPosition;
  }

  /** Deleting: the playlist and its tracks are gone, the rest of the scope keeps its order, nothing else changes. */
  lemma Deletes(t: Tables, scope: string, id: Id, other: string, otherId: Id)
    requires Inv(t)
    ensures var (ok, t') := DeletePlaylist(t, scope, id);
            && Inv(t') && (ok <==> id in Listing(t.rows, scope)) && (!ok ==> t' == t)
            && Listing(t'.rows, scope) == Except(Listing(t.rows, scope), id)
            && (ok ==> Stored(t', id) == [])
            && (other != scope ==> Listing(t'.rows, other) == Listing(t.rows, other))
            && (otherId != id ==> Stored(t', otherId) == Stored(t, otherId))
  {
    var i := FindRow(t.rows, scope, id);
    assert Valid(t.rows);
    hide Inv, Listing, Except, Valid, Stored, Ids;
    DeleteKeepsOrder(t.rows, scope, id, other);
    if i < |t.rows| {
      ShrinkKeeps(t, i);
      assert |RemoveAt(t.rows, i)| == |t.rows| - 1;
    }
  }

  lemma FoundListed(rows: seq<Row>, scope: string, id: Id)
    requires Valid(rows)
    ensures FindRow(rows, scope, id) < |rows| <==> id in Listing(rows, scope)
  {
    hide Valid, Listing;
    DeleteKeepsOrder(rows, scope, id, scope);
    var i := FindRow(rows, scope, id);
    if i < |rows| {
      assert |RemoveAt(rows, i)| == |rows| - 1;
    }
  }

  /** Loading: the stored tracks the library has, in order; what is stored afterwards is what was returned, so
      loading again changes nothing; nothing else changes. */
  lemma Loads(t: Tables, library: set<Id>, scope: string, id: Id, now: int, later: int, other: string, otherId: Id)
    requires Inv(t)
    ensures var (loaded, t') := LoadPlaylist(t, library, scope, id, now);
            && Inv(t') && (loaded.Some? <==> id in Listing(t.rows, scope))
            && (loaded.None? ==> t' == t)
            && (loaded.Some? ==>
                  && loaded.value == Kept(Stored(t, id), library) && Stored(t', id) == loaded.value
                  && LoadPlaylist(t', library, scope, id, later) == (loaded, t'))
            && (AllKnown(library, Stored(t, id)) ==> t' == t)
            && Listing(t'.rows, other) == Listing(t.rows, other)
            && (otherId != id ==> Stored(t', otherId) == Stored(t, otherId))
  {
    hide *;
    var i := FindRow(t.rows, scope, id);
    InvValid(t);
    FoundListed(t.rows, scope, id);
    StoredIs(t, id);
    KeptAll(Stored(t, id), library);
    LoadCases(t, library, scope, id, now);
    LoadCases(t, library, scope, id, later);
    KnownAll(library, Stored(t, id));
    var kept := Kept(Stored(t, id), library);
    if i < |t.rows| && |kept| != |Stored(t, id)| {
      LoadPrunes(t, library, scope, id, now, later, other, otherId);
    }
  }

  lemma InvValid(t: Tables)
    requires Inv(t)
    ensures Valid(t.rows)
  {
  }

  lemma KnownAll(library: set<Id>, ids: seq<Id>)
    ensures AllKnown(library, ids) ==> forall k :: k in ids ==> k in library
  {
  }

  lemma LoadCases(t: Tables, library: set<Id>, scope: string, id: Id, now: int)
    ensures var i := FindRow(t.rows, scope, id);
            var kept := Kept(Stored(t, id), library);
            LoadPlaylist(t, library, scope, id, now)
            == if i == |t.rows| then (None, t)
               else (Some(kept), if |kept| == |Stored(t, id)| then t
                                 else Replaced(t.(rows := t.rows[i := t.rows[i].(changed := now)]), id, kept))
  {
  }

  lemma LoadPrunes(t: Tables, library: set<Id>, scope: string, id: Id, now: int, later: int, other: string, otherId: Id)
    requires Inv(t)
    requires FindRow(t.rows, scope, id) < |t.rows| && |Kept(Stored(t, id), library)| != |Stored(t, id)|
    ensures var (loaded, t') := LoadPlaylist(t, library, scope, id, now);
            && Inv(t') && Stored(t', id) == Kept(Stored(t, id), library)
            && LoadPlaylist(t', library, scope, id, later) == (loaded, t')
            && Listing(t'.rows, other) == Listing(t.rows, other)
            && (otherId != id ==> Stored(t', otherId) == Stored(t, otherId))
  {
    hide *;
    var i := FindRow(t.rows, scope, id);
    var kept := Kept(Stored(t, id), library);
    var rows := t.rows[i := t.rows[i].(changed := now)];
    var t' := Replaced(t.(rows := rows), id, kept);
    LoadCases(t, library, scope, id, now);
    LoadCases(t', library, scope, id, later);
    StoredIs(t, id);
    KeptDistinct(Stored(t, id), library);
    KeptAll(Stored(t, id), library);
    KeptAll(kept, library);
    SamePlaced(t.rows, i, now);
    RowsKeep(t, rows);
    SameStored(t, rows);
    UpdateKeepsListing(t.rows, rows, other);
    FoundId(t.rows, i);
    SameFind(t.rows, rows, scope, id);
    ReplacedKeeps(t.(rows := rows), id, kept);
    ReplacedRows(t.(rows := rows), id, kept);
  }

  lemma SamePlaced(rows: seq<Row>, i: nat, now: int)
    requires i < |rows|
    ensures SamePlaces(rows, rows[i := rows[i].(changed := now)])
  {
  }

  lemma SameStored(t: Tables, rows: seq<Row>)
    ensures forall id :: Stored(t.(rows := rows), id) == Stored(t, id)
  {
  }

  lemma {:induction false} SameFind(a: seq<Row>, b: seq<Row>, scope: string, id: Id)
    requires SamePlaces(a, b)
    ensures FindRow(a, scope, id) == FindRow(b, scope, id)
  {
    if a != [] {
      SameFind(a[1..], b[1..], scope, id);
    }
  }

  /** Updating: no listing changes; given tracks replace the stored ones, without repetitions. */
  lemma Updates(t: Tables, library: set<Id>, scope: string, id: Id, name: Option<string>, comment: Option<string>,
                ids: Option<seq<Id>>,
                now: int, other: string, otherId: Id)
    requires Inv(t)
    ensures var (ok, t') := UpdatePlaylist(t, library, scope, id, name, comment, ids, now);
            && Inv(t') && (!ok ==> t' == t)
            && (ok <==>
                && name != Some("") && (ids.Some? ==> AllKnown(library, ids.value))
                && id in Listing(t.rows, scope))
            && Listing(t'.rows, other) == Listing(t.rows, other)
            && (ok ==> Stored(t', id) == if ids.Some? then Unique(ids.value) else Stored(t, id))
            && (otherId != id ==> Stored(t', otherId) == Stored(t, otherId))
  {
    var i := FindRow(t.rows, scope, id);
    FoundListed(t.rows, scope, id);
    UpdateCases(t, library, scope, id, name, comment, ids, now);
    if i < |t.rows| {
      var cleared := if comment.Some? then Some(if comment.value == "" then None else comment) else None;
      EditKeeps(t, i, Edited(t.rows[i], name, cleared, now), other, otherId);
      var edited := t.(rows := t.rows[i := Edited(t.rows[i], name, cleared, now)]);
      hide *;
      if ids.Some? {
        UniqueDistinct(ids.value);
        ReplacedKeeps(edited, id, Unique(ids.value));
        ReplacedRows(edited, id, Unique(ids.value));
      }
    }
  }

  lemma UpdateCases(t: Tables, library: set<Id>, scope: string, id: Id, name: Option<string>, comment: Option<string>,
                    ids: Option<seq<Id>>, now: int)
    ensures var r := UpdatePlaylist(t, library, scope, id, name, comment, ids, now);
            var i := FindRow(t.rows, scope, id);
            && (!r.0 ==> r.1 == t)
            && (r.0 <==> name != Some("") && (ids.Some? ==> AllKnown(library, ids.value)) && i < |t.rows|)
            && (r.0 ==>
                  && i < |t.rows| && t.rows[i].id == id
                  && var cleared := if comment.Some? then Some(if comment.value == "" then None else comment) else None;
                     var edited := t.(rows := t.rows[i := Edited(t.rows[i], name, cleared, now)]);
                     r.1 == if ids.Some? then Replaced(edited, id, Unique(ids.value)) else edited)
  {
  }

  lemma EditKeeps(t: Tables, i: nat, row: Row, other: string, otherId: Id)
    requires Inv(t) && i < |t.rows| && row.id == t.rows[i].id && row.scope == t.rows[i].scope
    requires row.position == t.rows[i].position
    ensures var t' := t.(rows := t.rows[i := row]);
            && Inv(t') && row.id in Ids(t'.rows) && Listing(t'.rows, other) == Listing(t.rows, other)
            && forall k :: Stored(t', k) == Stored(t, k)
  {
    var rows := t.rows[i := row];
    RowsKeep(t, rows);
    UpdateKeepsListing(t.rows, rows, other);
    FoundId(t.rows, i);
    hide Inv, Valid, Listing, Ids;
  }

  lemma ReplacedRows(t: Tables, id: Id, ids: seq<Id>)
    ensures Replaced(t, id, ids).rows == t.rows
  {
  }

  /** Reordering touches no tracks. */
  lemma Reorders(t: Tables, scope: string, ids: seq<Id>, id: Id)
    requires Inv(t)
    ensures var (ok, t') := ReorderPlaylists(t, scope, ids);
            Inv(t') && Stored(t', id) == Stored(t, id) && (!ok ==> t' == t) && (ok ==> Listing(t'.rows, scope) == ids)
  {
    ReorderLists(t.rows, scope, ids, scope);
    var (ok, rows) := Reorder(t.rows, scope, ids);
    if ok {
      forall k | k in t.tracks ensures k in Ids(rows) {
        SetSize(ids);
        RepositionedIds(t.rows, scope, ids);
      }
    }
    hide Reorder, Listing, Valid, Ids, TracksOk;
  }

  lemma RepositionedIds(rows: seq<Row>, scope: string, ids: seq<Id>)
    requires DistinctList(ids)
    ensures Ids(Repositioned(rows, scope, ids, |ids|)) == Ids(rows)
  {
    forall j | 0 <= j < |rows| ensures Repositioned(rows, scope, ids, |ids|)[j].id == rows[j].id {
      RepositionedAt(rows, scope, ids, |ids|, j, 0);
    }
    hide Repositioned;
  }

  // ---- Any history ----

  datatype Op =
    | CreateOp(scope: string, name: string, ids: seq<Id>, id: Id)
    | UpdateOp(scope: string, id: Id, newName: Option<string>, newComment: Option<string>, newIds: Option<seq<Id>>)
    | DeleteOp(scope: string, id: Id)
    | ReorderOp(scope: string, ids: seq<Id>)
    | LoadOp(scope: string, id: Id)

  /** An operation happens at some time, with the library of that moment; a new id is fresh. */
  datatype Event = Event(op: Op, library: set<Id>, now: int)

  function Apply(t: Tables, e: Event): Tables {
    match e.op
    case CreateOp(scope, name, ids, id) => CreatePlaylist(t, e.library, scope, name, ids, id, e.now).1
    case UpdateOp(scope, id, name, comment, ids) => UpdatePlaylist(t, e.library, scope, id, name, comment, ids, e.now).1
    case DeleteOp(scope, id) => DeletePlaylist(t, scope, id).1
    case ReorderOp(scope, ids) => ReorderPlaylists(t, scope, ids).1
    case LoadOp(scope, id) => LoadPlaylist(t, e.library, scope, id, e.now).1
  }

  function After(t: Tables, events: seq<Event>): Tables {
    if events == [] then t else Apply(After(t, events[..|events| - 1]), events[|events| - 1])
  }

  predicate FreshIds(t: Tables, events: seq<Event>) {
    events == [] ||
    (FreshIds(t, events[..|events| - 1]) &&
     (events[|events| - 1].op.CreateOp? ==> events[|events| - 1].op.id !in Ids(After(t, events[..|events| - 1]).rows)))
  }

  /** After any history: distinct ids, distinct positions per scope, and tracks without repetition at positions 0 to
      n - 1 that belong to a stored playlist. */
  lemma {:induction false} HistoryKeeps(events: seq<Event>)
    requires FreshIds(Tables([], map[]), events)
    ensures Inv(After(Tables([], map[]), events))
  {
    if events != [] {
      var (rest, e) := (events[..|events| - 1], events[|events| - 1]);
      HistoryKeeps(rest);
      hide Inv, Listing, Stored;
      ApplyKeeps(After(Tables([], map[]), rest), e);
    }
  }

  lemma ApplyKeeps(t: Tables, e: Event)
    requires Inv(t) && (e.op.CreateOp? ==> e.op.id !in Ids(t.rows))
    ensures Inv(Apply(t, e))
  {
    hide Inv, Listing, Stored, CreatePlaylist, UpdatePlaylist, DeletePlaylist, ReorderPlaylists, LoadPlaylist;
    match e.op
    case CreateOp(scope, name, ids, id) => Creates(t, e.library, scope, name, ids, id, e.now, scope, id);
    case UpdateOp(scope, id, name, comment, ids) =>
      Updates(t, e.library, scope, id, name, comment, ids, e.now, scope, id);
    case DeleteOp(scope, id) => Deletes(t, scope, id, scope, id);
    case ReorderOp(scope, ids) => Reorders(t, scope, ids, "");
    case LoadOp(scope, id) => Loads(t, e.library, scope, id, e.now, e.now, scope, id);
  }

  lemma ValidateNone(library: set<Id>, ids: seq<Id>)
    ensures AllKnown(library, ids[..0]) && SetOf(ids[..0]) == {} && Unique(ids[..0]) == []
  {
  }

  /** One more id of the list that is checked. */
  lemma ValidateOne(library: set<Id>, ids: seq<Id>, i: nat)
    requires i < |ids|
    ensures AllKnown(library, ids[..i]) && ids[i] in library ==> AllKnown(library, ids[..i + 1])
    ensures ids[i] !in library ==> !AllKnown(library, ids)
    ensures SetOf(ids[..i + 1]) == SetOf(ids[..i]) + {ids[i]}
    ensures Unique(ids[..i + 1]) == if ids[i] in SetOf(ids[..i]) then Unique(ids[..i]) else Unique(ids[..i]) + [ids[i]]
  {
    assert ids[..i + 1][..i] == ids[..i];
  }

  // ---- The object ----

  class Database {
    var rows: seq<Row>
    var tracks: map<Id, seq<TrackRow>>

    function View(): Tables
      reads this
    {
      Tables(rows, tracks)
    }

    constructor ()
      ensures View() == Tables([], map[])
    {
      rows, tracks := [], map[];
    }

    /** None is the error of a track the library does not have. */
    static method ValidateTracks(library: set<Id>, ids: seq<Id>) returns (unique: Option<seq<Id>>)
      ensures unique == if AllKnown(library, ids) then Some(Unique(ids)) else None
    {
      hide *;
      var seen: set<Id> := {};
      var result: seq<Id> := [];
      ValidateNone(library, ids);
      for i := 0 to |ids|
        invariant AllKnown(library, ids[..i]) && seen == SetOf(ids[..i]) && result == Unique(ids[..i])
      {
        hide *;
        ValidateOne(library, ids, i);
        if ids[i] !in library {
          return None;
        }
        if ids[i] !in seen {
          seen := seen + {ids[i]};
          result := result + [ids[i]];
        }
      }
      assert ids[..|ids|] == ids;
      unique := Some(result);
    }

    method ReplaceTracks(id: Id, ids: seq<Id>)
      modifies this`tracks
      ensures View() == Replaced(old(View()), id, ids)
    {
      var inserted: seq<TrackRow> := [];
      for position := 0 to |ids|
        invariant inserted == Numbered(ids[..position])
      {
        inserted := inserted + [TrackRow(ids[position], position)];
      }
      assert ids[..|ids|] == ids;
      tracks := tracks[id := inserted];
    }

    method Create(library: set<Id>, scope: string, name: string, ids: seq<Id>, id: Id, now: int) returns (ok: bool)
      modifies this
      ensures (ok, View()) == CreatePlaylist(old(View()), library, scope, name, ids, id, now)
    {
      if name == "" {
        return false;
      }
      var unique := ValidateTracks(library, ids);
      if unique.None? {
        return false;
      }
      rows := rows + [Row(id, scope, name, None, NextPosition(rows, scope), now, now)];
      ReplaceTracks(id, unique.value);
      ok := true;
    }

    method Load(library: set<Id>, scope: string, id: Id, now: int) returns (loaded: Option<seq<Id>>)
      modifies this
      ensures (loaded, View()) == LoadPlaylist(old(View()), library, scope, id, now)
    {
      var i := FindRow(rows, scope, id);
      if i == |rows| {
        return None;
      }
      var stored := Stored(View(), id);
      var kept: seq<Id> := [];
      for k := 0 to |stored|
        invariant kept == Kept(stored[..k], library)
      {
        assert stored[..k + 1][..k] == stored[..k];
        if stored[k] in library {
          kept := kept + [stored[k]];
        }
      }
      assert stored[..|stored|] == stored;
      if |kept| != |stored| {
        rows := rows[i := rows[i].(changed := now)];
        ReplaceTracks(id, kept);
      }
      loaded := Some(kept);
    }

    /** An accepted update is followed by a load; None is the error of an empty name, an unknown track or playlist. */
    method Update(library: set<Id>, scope: string, id: Id, name: Option<string>, comment: Option<string>,
                  ids: Option<seq<Id>>,
                  now: int, later: int) returns (loaded: Option<seq<Id>>)
      modifies this
      ensures var (ok, t) := UpdatePlaylist(old(View()), library, scope, id, name, comment, ids, now);
              (loaded, View()) == if ok then LoadPlaylist(t, library, scope, id, later) else (None, t)
    {
      if name == Some("") {
        return None;
      }
      var unique: Option<seq<Id>> := None;
      if ids.Some? {
        unique := ValidateTracks(library, ids.value);
        if unique.None? {
          return None;
        }
      }
      var i := FindRow(rows, scope, id);
      if i == |rows| {
        return None;
      }
      if name.Some? {
        rows := rows[i := rows[i].(name := name.value)];
      }
      if comment.Some? {
        rows := rows[i := rows[i].(comment := if comment.value == "" then None else comment)];
      }
      if unique.Some? {
        ReplaceTracks(id, unique.value);
      }
      rows := rows[i := rows[i].(changed := now)];
      ghost var updated := UpdatePlaylist(old(View()), library, scope, id, name, comment, ids, now).1;
      assert rows == updated.rows;
      loaded := Load(library, scope, id, later);
    }

    /** All playlists of a scope in their order, each with the tracks the library has; nothing but pruning happens. */
    method ListPlaylists(library: set<Id>, scope: string, now: int) returns (lists: seq<(Id, seq<Id>)>)
      requires Inv(View())
      modifies this
      ensures Inv(View()) && Listing(rows, scope) == old(Listing(rows, scope)) && |lists| == |Listing(rows, scope)|
      ensures forall i :: 0 <= i < |lists| ==>
                lists[i] == (Listing(rows, scope)[i], Kept(old(Stored(View(), Listing(rows, scope)[i])), library))
    {
      hide *;
      var ids := Listing(rows, scope);
      ghost var before := View();
      InvRows();
      OwnIds(rows, scope);
      EachOnce(ids);
      lists := [];
      for i := 0 to |ids|
        invariant Inv(View()) && Listing(rows, scope) == ids && |lists| == i
        invariant forall k :: 0 <= k < i ==> lists[k] == (ids[k], Kept(Stored(before, ids[k]), library))
        invariant forall k :: i <= k < |ids| ==> Stored(View(), ids[k]) == Stored(before, ids[k])
      {
        hide *;
        ghost var t := View();
        ViewIs();
        forall k | i < k < |ids|
          ensures Stored(LoadPlaylist(t, library, scope, ids[i], now).1, ids[k]) == Stored(t, ids[k])
        {
          Loads(t, library, scope, ids[i], now, now, scope, ids[k]);
        }
        Loads(t, library, scope, ids[i], now, now, scope, ids[i]);
        var loaded := Load(library, scope, ids[i], now);
        ViewIs();
        lists := lists + [(ids[i], loaded.value)];
      }
    }

    lemma InvRows()
      requires Inv(View())
      ensures Valid(rows)
    {
    }

    lemma ViewIs()
      ensures View() == Tables(rows, tracks)
    {
    }

    method Delete(scope: string, id: Id) returns (ok: bool)
      modifies this
      ensures (ok, View()) == DeletePlaylist(old(View()), scope, id)
    {
      var i := FindRow(rows, scope, id);
      if i == |rows| {
        return false;
      }
      rows := RemoveAt(rows, i);
      tracks := tracks - {id};
      ok := true;
    }

    method Reorder(scope: string, ids: seq<Id>) returns (ok: bool)
      modifies this`rows
      ensures (ok, View()) == ReorderPlaylists(old(View()), scope, ids)
    {
      var supplied := SetOf(ids);
      if |supplied| != |ids| {
        return false;
      }
      var stored := SetOf(Ids(InScope(rows, scope)));
      if |stored| != |supplied| || !(stored <= supplied) {
        return false;
      }
      ghost var before := rows;
      for position := 0 to |ids|
        invariant rows == Repositioned(before, scope, ids, position) && tracks == old(tracks)
      {
        rows := SetPosition(rows, scope, ids[position], position);
      }
      ok := true;
    }
  }

  lemma EachOnce(ids: seq<Id>)
    requires DistinctList(ids)
    ensures forall i, k :: 0 <= i < k < |ids| ==> ids[i] != ids[k]
  {
  }

  // ---- A client's edit of a track list ----

  /** The elements whose index, counted from `base`, is not listed. */
  function WithoutIndexes(ids: seq<Id>, indexes: set<nat>, base: nat): seq<Id>
    decreases |ids|
  {
    if ids == [] then []
    else if base in indexes then WithoutIndexes(ids[1..], indexes, base + 1)
    else [ids[0]] + WithoutIndexes(ids[1..], indexes, base + 1)
  }

  predicate Increasing(indexes: seq<nat>) {
    forall i, j :: 0 <= i < j < |indexes| ==> indexes[i] < indexes[j]
  }

  lemma {:induction false} WithoutJoin(a: seq<Id>, b: seq<Id>, indexes: set<nat>, base: nat)
    ensures WithoutIndexes(a + b, indexes, base)
            == WithoutIndexes(a, indexes, base) + WithoutIndexes(b, indexes, base + |a|)
    decreases |a|
  {
    if a == [] {
      assert a + b == b;
    } else {
      assert (a + b)[0] == a[0] && (a + b)[1..] == a[1..] + b;
      WithoutJoin(a[1..], b, indexes, base + 1);
    }
  }

  lemma {:induction false} WithoutSame(ids: seq<Id>, a: set<nat>, b: set<nat>, base: nat)
    requires forall k :: base <= k < base + |ids| ==> (k in a <==> k in b)
    ensures WithoutIndexes(ids, a, base) == WithoutIndexes(ids, b, base)
    decreases |ids|
  {
    if ids != [] {
      WithoutSame(ids[1..], a, b, base + 1);
    }
  }

  lemma {:induction false} WithoutNone(ids: seq<Id>, a: set<nat>, base: nat)
    requires forall k :: base <= k < base + |ids| ==> k !in a
    ensures WithoutIndexes(ids, a, base) == ids
    decreases |ids|
  {
    if ids != [] {
      WithoutNone(ids[1..], a, base + 1);
    }
  }

  /** Removing one more index, below all those removed before, shifts none of them. */
  lemma RemoveNext(ids: seq<Id>, removed: set<nat>, index: nat)
    requires forall k :: k in removed ==> index < k
    ensures var now := WithoutIndexes(ids, removed, 0);
            index < |ids| <==> index < |now|
    ensures var now := WithoutIndexes(ids, removed, 0);
            index < |now| ==> WithoutIndexes(ids, removed + {index}, 0) == now[..index] + now[index + 1..]
    ensures index >= |ids| ==> WithoutIndexes(ids, removed + {index}, 0) == WithoutIndexes(ids, removed, 0)
  {
    if index < |ids| {
      var (head, tail) := (ids[..index], ids[index + 1..]);
      assert ids == head + ([ids[index]] + tail);
      WithoutJoin(head, [ids[index]] + tail, removed, 0);
      WithoutJoin(head, [ids[index]] + tail, removed + {index}, 0);
      WithoutNone(head, removed, 0);
      WithoutNone(head, removed + {index}, 0);
      assert ([ids[index]] + tail)[1..] == tail;
      WithoutSame(tail, removed, removed + {index}, index + 1);
      var now := WithoutIndexes(ids, removed, 0);
      assert now == head + ([ids[index]] + WithoutIndexes(tail, removed, index + 1));
    } else {
      WithoutSame(ids, removed, removed + {index}, 0);
      WithoutNone(ids, removed, 0);
    }
  }

  function IndexSet(indexes: seq<nat>, from: nat): set<nat>
    requires from <= |indexes|
  {
    set k | from <= k < |indexes| :: indexes[k]
  }

  lemma IndexSetMembers(indexes: seq<nat>)
    ensures forall x :: x in IndexSet(indexes, 0) <==> x in indexes
  {
  }

  function InsertIndex(x: nat, indexes: seq<nat>): seq<nat> {
    if indexes == [] || x < indexes[0] then [x] + indexes
    else if x == indexes[0] then indexes
    else [indexes[0]] + InsertIndex(x, indexes[1..])
  }

  /** Sorted, each once. */
  function SortedOnce(indexes: seq<nat>): seq<nat> {
    if indexes == [] then [] else InsertIndex(indexes[0], SortedOnce(indexes[1..]))
  }

  lemma {:induction false} InsertIndexMembers(x: nat, indexes: seq<nat>)
    ensures forall k :: k in InsertIndex(x, indexes) <==> k == x || k in indexes
  {
    if indexes != [] && x > indexes[0] {
      InsertIndexMembers(x, indexes[1..]);
      assert forall k :: k in indexes <==> k == indexes[0] || k in indexes[1..];
    }
  }

  lemma IncreasingCons(first: nat, rest: seq<nat>)
    requires Increasing(rest) && forall k :: k in rest ==> first < k
    ensures Increasing([first] + rest)
  {
    var whole := [first] + rest;
    forall i, j | 0 <= i < j < |whole| ensures whole[i] < whole[j] {
      assert whole[j] == rest[j - 1] && rest[j - 1] in rest;
      if i > 0 {
        assert whole[i] == rest[i - 1];
      }
    }
  }

  lemma IncreasingTail(indexes: seq<nat>)
    requires indexes != [] && Increasing(indexes)
    ensures Increasing(indexes[1..]) && forall k :: k in indexes[1..] ==> indexes[0] < k
  {
  }

  lemma {:induction false} InsertIndexFacts(x: nat, indexes: seq<nat>)
    requires Increasing(indexes)
    ensures Increasing(InsertIndex(x, indexes)) && forall k :: k in InsertIndex(x, indexes) <==> k == x || k in indexes
  {
    hide Increasing;
    InsertIndexMembers(x, indexes);
    if indexes == [] {
      IncreasingCons(x, indexes);
    } else {
      IncreasingTail(indexes);
      if x < indexes[0] {
        assert forall k :: k in indexes <==> k == indexes[0] || k in indexes[1..];
        IncreasingCons(x, indexes);
      } else if x > indexes[0] {
        InsertIndexFacts(x, indexes[1..]);
        IncreasingCons(indexes[0], InsertIndex(x, indexes[1..]));
      }
    }
  }

  lemma {:induction false} SortedOnceFacts(indexes: seq<nat>)
    ensures Increasing(SortedOnce(indexes)) && forall k :: k in SortedOnce(indexes) <==> k in indexes
  {
    if indexes != [] {
      SortedOnceFacts(indexes[1..]);
      InsertIndexFacts(indexes[0], SortedOnce(indexes[1..]));
    }
  }

  /** The removals from the highest index down are the removal of all listed places of the list as it was. */
  method RemoveIndexes(ids: seq<Id>, indexes: seq<nat>) returns (r: seq<Id>)
    requires Increasing(indexes)
    ensures r == WithoutIndexes(ids, IndexSet(indexes, 0), 0)
  {
    r := ids;
    WithoutNone(ids, {}, 0);
    var k := |indexes|;
    assert IndexSet(indexes, k) == {};
    while k > 0
      invariant 0 <= k <= |indexes|
      invariant r == WithoutIndexes(ids, IndexSet(indexes, k), 0)
    {
      k := k - 1;
      var index := indexes[k];
      assert IndexSet(indexes, k) == IndexSet(indexes, k + 1) + {index};
      RemoveNext(ids, IndexSet(indexes, k + 1), index);
      if index < |r| {
        r := r[..index] + r[index + 1..];
      }
    }
  }

  /** The additions that are not there yet, in order. */
  function WithNew(ids: seq<Id>, additions: seq<Id>): seq<Id>
    decreases |additions|
  {
    if additions == [] then ids else WithNew(if additions[0] in ids then ids else ids + [additions[0]], additions[1..])
  }

  lemma {:induction false} WithNewFacts(ids: seq<Id>, additions: seq<Id>)
    ensures forall id :: id in WithNew(ids, additions) <==> id in ids || id in additions
    ensures DistinctList(ids) ==> DistinctList(WithNew(ids, additions))
    ensures |WithNew(ids, additions)| >= |ids| && WithNew(ids, additions)[..|ids|] == ids
    decreases |additions|
  {
    if additions != [] {
      WithNewFacts(if additions[0] in ids then ids else ids + [additions[0]], additions[1..]);
    }
  }

  /** An edit removes the listed places, whatever their order and repetitions, and then appends what is new. */
  method EditTracks(ids: seq<Id>, removals: seq<nat>, additions: seq<Id>) returns (r: seq<Id>)
    ensures r == WithNew(WithoutIndexes(ids, IndexSet(removals, 0), 0), additions)
  {
    SortedOnceFacts(removals);
    var indexes := SortedOnce(removals);
    r := RemoveIndexes(ids, indexes);
    IndexSetMembers(indexes);
    IndexSetMembers(removals);
    assert IndexSet(indexes, 0) == IndexSet(removals, 0);
    ghost var kept := r;
    var seen := SetOf(r);
    assert additions[0..] == additions;
    for i := 0 to |additions|
      invariant seen == SetOf(r)
      invariant WithNew(r, additions[i..]) == WithNew(kept, additions)
    {
      assert additions[i..][0] == additions[i] && additions[i..][1..] == additions[i + 1..];
      if additions[i] !in seen {
        seen := seen + {additions[i]};
        r := r + [additions[i]];
      }
    }
  }
}
