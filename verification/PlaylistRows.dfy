/** What the operations on playlists do to the stored rows and lists, field by field and place by place. */
module PlaylistRows {
  import opened Wrappers
  import opened Lists
  import opened Playlists
  import opened PlaylistStore

  // ---- Lists of tracks ----

  /** Each id once, where it first occurs. */
  lemma {:induction false} UniqueFirsts(ids: seq<Id>)
    ensures ListsFirsts(ids, Unique(ids), Same)
  {
    hide *;
    if ids == [] {
      NothingTwice();
      FirstsNone<Id>(Same);
    } else {
      var (rest, last) := (ids[..|ids| - 1], ids[|ids| - 1]);
      assert ids == rest + [last];
      UniqueFirsts(rest);
      UniqueLast(rest, last);
      SameIs(Unique(rest), last);
      FirstsMore(rest, Unique(rest), last, Same);
    }
  }

  lemma SameIs(ids: seq<Id>, id: Id)
    ensures Same(id, id) && ((exists i :: 0 <= i < |ids| && Same(ids[i], id)) <==> id in ids)
  {
  }

  function PlacesIn(ids: seq<Id>, library: set<Id>): set<nat> {
    set p | 0 <= p < |ids| && ids[p] in library
  }

  lemma PlacesInMore(ids: seq<Id>, library: set<Id>, last: Id)
    ensures PlacesIn(ids + [last], library)
            == if last in library then PlacesIn(ids, library) + {|ids|} else PlacesIn(ids, library)
  {
  }

  lemma PlacesInNone(library: set<Id>)
    ensures PlacesIn([], library) == {} && Kept([], library) == []
  {
  }

  /** The ids the library has, at their places. */
  lemma {:induction false} KeptPlaces(ids: seq<Id>, library: set<Id>)
    ensures ListsPlaces(ids, Kept(ids, library), PlacesIn(ids, library))
  {
    hide ListsPlaces;
    if ids == [] {
      PlacesNone<Id>();
      PlacesInNone(library);
    } else {
      hide PlacesIn;
      var (rest, last) := (ids[..|ids| - 1], ids[|ids| - 1]);
      assert ids == rest + [last];
      KeptPlaces(rest, library);
      PlacesMore(rest, Kept(rest, library), PlacesIn(rest, library), last, last in library);
      PlacesInMore(rest, library, last);
    }
  }

  /** Whatever rows are stored: they are selected in the order of their positions. */
  lemma {:induction false} SelectedByPosition(rows: seq<TrackRow>)
    ensures multiset(ByPosition(rows)) == multiset(rows)
    ensures forall i, j :: 0 <= i < j < |rows| ==>
              |ByPosition(rows)| == |rows| && ByPosition(rows)[i].position <= ByPosition(rows)[j].position
  {
    if rows != [] {
      SelectedByPosition(rows[1..]);
      assert rows == [rows[0]] + rows[1..];
      assert |multiset(ByPosition(rows[1..]))| == |ByPosition(rows[1..])|;
      InsertedByPosition(rows[0], ByPosition(rows[1..]));
      InsertedHolds(rows[0], ByPosition(rows[1..]));
    }
  }

  predicate Ascending(rows: seq<TrackRow>) {
    forall i, j :: 0 <= i < j < |rows| ==> rows[i].position <= rows[j].position
  }

  lemma AscendingCons(first: TrackRow, rest: seq<TrackRow>)
    requires Ascending(rest) && forall r :: r in rest ==> first.position <= r.position
    ensures Ascending([first] + rest)
  {
    assert forall j :: 0 <= j < |rest| ==> rest[j] in rest;
  }

  lemma AscendingRest(rows: seq<TrackRow>)
    requires Ascending(rows) && rows != []
    ensures Ascending(rows[1..]) && forall r :: r in rows ==> rows[0].position <= r.position
  {
  }

  lemma {:induction false} InsertedHolds(x: TrackRow, rows: seq<TrackRow>)
    ensures multiset(InsertByPosition(x, rows)) == multiset{x} + multiset(rows)
    ensures |InsertByPosition(x, rows)| == |rows| + 1
    ensures forall r :: r in InsertByPosition(x, rows) ==> r == x || r in rows
  {
    if rows != [] && x.position > rows[0].position {
      InsertedHolds(x, rows[1..]);
      assert rows == [rows[0]] + rows[1..];
    }
  }

  lemma {:induction false} InsertedByPosition(x: TrackRow, rows: seq<TrackRow>)
    requires Ascending(rows)
    ensures Ascending(InsertByPosition(x, rows))
  {
    hide Ascending;
    if rows == [] {
      AscendingCons(x, rows);
    } else {
      AscendingRest(rows);
      if x.position <= rows[0].position {
        AscendingCons(x, rows);
      } else {
        InsertedByPosition(x, rows[1..]);
        InsertedHolds(x, rows[1..]);
        AscendingCons(rows[0], InsertByPosition(x, rows[1..]));
      }
    }
  }

  /** A track list after additions: what was there, then what is new, each once. */
  lemma {:induction false} WithNewFirsts(ids: seq<Id>, additions: seq<Id>, said: seq<Id>)
    requires ListsFirsts(said, ids, Same)
    ensures ListsFirsts(said + additions, WithNew(ids, additions), Same)
    decreases |additions|
  {
    hide ListsFirsts, Same;
    if additions == [] {
      assert said + additions == said;
    } else {
      var first := additions[0];
      SameIs(ids, first);
      FirstsMore(said, ids, first, Same);
      WithNewFirsts(if first in ids then ids else ids + [first], additions[1..], said + [first]);
      assert said + [first] + additions[1..] == said + additions;
    }
  }

  function PlacesOutside(ids: seq<Id>, indexes: set<nat>): set<nat> {
    set p | 0 <= p < |ids| && p !in indexes
  }

  lemma PlacesOutsideMore(ids: seq<Id>, indexes: set<nat>, last: Id)
    ensures PlacesOutside(ids + [last], indexes)
            == if |ids| !in indexes then PlacesOutside(ids, indexes) + {|ids|} else PlacesOutside(ids, indexes)
  {
  }

  lemma WithoutMore(ids: seq<Id>, indexes: set<nat>, last: Id)
    ensures WithoutIndexes(ids + [last], indexes, 0)
            == if |ids| !in indexes then WithoutIndexes(ids, indexes, 0) + [last] else WithoutIndexes(ids, indexes, 0)
  {
    WithoutJoin(ids, [last], indexes, 0);
    assert [last][1..] == [];
  }

  lemma PlacesOutsideNone(indexes: set<nat>)
    ensures PlacesOutside([], indexes) == {} && WithoutIndexes([], indexes, 0) == []
  {
  }

  /** A track list without some indexes has what stands at the others. */
  lemma {:induction false} WithoutPlaces(ids: seq<Id>, indexes: set<nat>)
    ensures ListsPlaces(ids, WithoutIndexes(ids, indexes, 0), PlacesOutside(ids, indexes))
  {
    hide *;
    if ids == [] {
      PlacesNone<Id>();
      PlacesOutsideNone(indexes);
    } else {
      var (rest, last) := (ids[..|ids| - 1], ids[|ids| - 1]);
      assert ids == rest + [last];
      WithoutPlaces(rest, indexes);
      PlacesMore(rest, WithoutIndexes(rest, indexes, 0), PlacesOutside(rest, indexes), last, |rest| !in indexes);
      PlacesOutsideMore(rest, indexes, last);
      WithoutMore(rest, indexes, last);
    }
  }

  // ---- Rows ----

  /** A new playlist's row: no comment yet, and a position after all of its scope, 0 for the first one. */
  lemma NewRow(rows: seq<Row>, scope: string, id: Id, name: string, now: int)
    ensures var rows' := Create(rows, scope, id, name, now);
            && |rows'| == |rows| + 1 && rows'[..|rows|] == rows
            && var row := rows'[|rows|];
               && row == Row(id, scope, name, None, row.position, now, now)
               && (forall i :: 0 <= i < |rows| && rows[i].scope == scope ==> rows[i].position < row.position)
               && (if forall i :: 0 <= i < |rows| ==> rows[i].scope != scope then row.position == 0
                   else exists i :: 0 <= i < |rows| && rows[i].scope == scope && rows[i].position + 1 == row.position)
  {
    NextPositionAbove(rows, scope);
    NextPositionTaken(rows, scope);
    assert forall i :: 0 <= i < |rows| ==> rows[i] in rows;
    hide NextPosition;
  }

  lemma {:induction false} NextPositionTaken(rows: seq<Row>, scope: string)
    ensures InScope(rows, scope) == [] <==> forall i :: 0 <= i < |rows| ==> rows[i].scope != scope
    ensures if InScope(rows, scope) == [] then NextPosition(rows, scope) == 0
            else
              exists i ::
                0 <= i < |rows| && rows[i].scope == scope && rows[i].position + 1 == NextPosition(rows, scope)
  {
    if rows != [] {
      var rest := rows[1..];
      NextPositionTaken(rest, scope);
      assert forall i :: 0 <= i < |rest| ==> rest[i] == rows[i + 1];
      if i :| 0 <= i < |rest| && rest[i].scope == scope && rest[i].position + 1 == NextPosition(rest, scope) {
        assert rows[i + 1].position + 1 == NextPosition(rest, scope);
      }
    }
  }

  /** One text before another: by the first character that differs, and a text before what it begins. */
  predicate TextBefore(a: string, b: string) {
    exists n :: 0 <= n <= |a| && n < |b| && a[..n] == b[..n] && (n == |a| || a[n] < b[n])
  }

  lemma TextBeforeRest(a: string, b: string)
    requires a != "" && b != "" && TextBefore(a, b)
    ensures a[0] < b[0] || (a[0] == b[0] && TextBefore(a[1..], b[1..]))
  {
    var (c, d) := (a[1..], b[1..]);
    var n :| 0 <= n <= |a| && n < |b| && a[..n] == b[..n] && (n == |a| || a[n] < b[n]);
    if n > 0 {
      assert a[..n][0] == b[..n][0] && c[..n - 1] == a[..n][1..] == b[..n][1..] == d[..n - 1];
    }
  }

  lemma TextBeforeCons(a: string, b: string)
    requires a != "" && b != "" && (a[0] < b[0] || (a[0] == b[0] && TextBefore(a[1..], b[1..])))
    ensures TextBefore(a, b)
  {
    if a[0] < b[0] {
      assert a[..0] == b[..0];
    } else {
      var (c, d) := (a[1..], b[1..]);
      var n :| 0 <= n <= |c| && n < |d| && c[..n] == d[..n] && (n == |c| || c[n] < d[n]);
      assert a[..n + 1] == [a[0]] + c[..n] == b[..n + 1];
    }
  }

  lemma TextBeforeEmpty(a: string, b: string)
    ensures b == "" ==> !TextBefore(a, b)
    ensures a == "" && b != "" ==> TextBefore(a, b)
  {
    assert a[..0] == b[..0];
  }

  lemma {:induction false} LessIdIs(a: Id, b: Id)
    ensures LessId(a, b) <==> TextBefore(a, b)
    decreases |a|
  {
    hide TextBefore;
    TextBeforeEmpty(a, b);
    if a != "" && b != "" {
      LessIdIs(a[1..], b[1..]);
      if TextBefore(a, b) {
        TextBeforeRest(a, b);
      }
      if a[0] < b[0] || (a[0] == b[0] && TextBefore(a[1..], b[1..])) {
        TextBeforeCons(a, b);
      }
    }
  }

  predicate InOrder(a: Row, b: Row) {
    a.position < b.position || (a.position == b.position && (a.id == b.id || TextBefore(a.id, b.id)))
  }

  lemma {:induction false} LessIdTotal(a: Id, b: Id)
    ensures LessId(a, b) || LessId(b, a) || a == b
    decreases |a|
  {
    if a != "" && b != "" {
      LessIdTotal(a[1..], b[1..]);
      assert a == [a[0]] + a[1..] && b == [b[0]] + b[1..];
    }
  }

  lemma {:induction false} LessIdTransitive(a: Id, b: Id, c: Id)
    requires LessId(a, b) && LessId(b, c)
    ensures LessId(a, c)
    decreases |a|
  {
    if a != "" && a[0] == b[0] == c[0] {
      LessIdTransitive(a[1..], b[1..], c[1..]);
    }
  }

  lemma PrecedesIs(a: Row, b: Row)
    ensures Precedes(a, b) ==> InOrder(a, b)
    ensures !Precedes(a, b) ==> InOrder(b, a)
  {
    LessIdIs(a.id, b.id);
    LessIdIs(b.id, a.id);
    LessIdTotal(a.id, b.id);
    hide TextBefore, LessId;
  }

  lemma InOrderTransitive(a: Row, b: Row, c: Row)
    requires InOrder(a, b) && InOrder(b, c)
    ensures InOrder(a, c)
  {
    hide TextBefore, LessId;
    LessIdIs(a.id, b.id);
    LessIdIs(b.id, c.id);
    LessIdIs(a.id, c.id);
    if LessId(a.id, b.id) && LessId(b.id, c.id) {
      LessIdTransitive(a.id, b.id, c.id);
    }
  }

  predicate AllInOrder(rows: seq<Row>) {
    forall i, j :: 0 <= i < j < |rows| ==> InOrder(rows[i], rows[j])
  }

  lemma {:induction false} InsertInOrder(x: Row, rows: seq<Row>)
    requires AllInOrder(rows)
    ensures AllInOrder(InsertSorted(x, rows))
  {
    hide InOrder, Precedes;
    if rows != [] {
      PrecedesIs(x, rows[0]);
      if Precedes(x, rows[0]) {
        forall i | 0 <= i < |rows| ensures InOrder(x, rows[i]) {
          if i > 0 {
            InOrderTransitive(x, rows[0], rows[i]);
          }
        }
      } else {
        var tail := InsertSorted(x, rows[1..]);
        InsertInOrder(x, rows[1..]);
        forall j | 0 <= j < |tail| ensures InOrder(rows[0], tail[j]) {
          assert tail[j] in multiset(tail);
          assert tail[j] == x || tail[j] in rows[1..];
        }
      }
    }
  }

  /** Whatever rows are stored: a scope's playlists are listed by position, and by id where positions are the same. */
  lemma {:induction false} SortedInOrder(rows: seq<Row>)
    ensures AllInOrder(Sorted(rows)) && multiset(Sorted(rows)) == multiset(rows)
  {
    hide AllInOrder;
    if rows == [] {
      assert AllInOrder([]) by {
        NoneInOrder();
      }
    } else {
      SortedInOrder(rows[1..]);
      InsertInOrder(rows[0], Sorted(rows[1..]));
    }
  }

  lemma NoneInOrder()
    ensures AllInOrder([])
  {
  }

  /** An edit changes the one row: the name and the comment that are given, an empty comment to none, and the time. */
  lemma EditedRow(t: Tables, library: set<Id>, scope: string, id: Id, name: Option<string>, comment: Option<string>,
                  ids: Option<seq<Id>>, now: int, j: nat)
    requires Inv(t) && j < |t.rows| && UpdatePlaylist(t, library, scope, id, name, comment, ids, now).0
    ensures var (rows, rows') := (t.rows, UpdatePlaylist(t, library, scope, id, name, comment, ids, now).1.rows);
            && |rows'| == |rows|
            && rows'[j] == if rows[j].id != id then rows[j]
                           else Row(id, scope, if name.Some? then name.value else rows[j].name,
                                    if comment.None? then rows[j].comment
                                    else if comment.value == "" then None
                                    else comment,
                                    rows[j].position, rows[j].created, now)
  {
    var i := FindRow(t.rows, scope, id);
    UpdateCases(t, library, scope, id, name, comment, ids, now);
    InvValid(t);
    hide Inv, UpdatePlaylist, FindRow, TracksOk;
  }

  /** Loading changes a row only to note when tracks were dropped. */
  lemma LoadedRow(t: Tables, library: set<Id>, scope: string, id: Id, now: int, j: nat)
    requires Inv(t) && j < |t.rows|
    ensures var (rows, rows') := (t.rows, LoadPlaylist(t, library, scope, id, now).1.rows);
            var dropped := exists k :: k in Stored(t, id) && k !in library;
            && |rows'| == |rows|
            && rows'[j] == if rows[j].id == id && rows[j].scope == scope && dropped then rows[j].(changed := now)
                           else rows[j]
  {
    LoadCases(t, library, scope, id, now);
    KeptAll(Stored(t, id), library);
    InvValid(t);
    assert AllKnown(library, Stored(t, id)) <==> forall k :: k in Stored(t, id) ==> k in library;
    hide Inv, LoadPlaylist, Stored, Kept, AllKnown;
  }

  /** Deleting takes one row out; the others stay as they are. */
  lemma DeletedRow(rows: seq<Row>, scope: string, id: Id, i: nat)
    requires Valid(rows) && i < |rows|
    ensures rows[i].id == id && rows[i].scope == scope ==> Delete(rows, scope, id) == rows[..i] + rows[i + 1..]
    ensures (forall j :: 0 <= j < |rows| && rows[j].id == id ==> rows[j].scope != scope) ==>
              Delete(rows, scope, id) == rows
  {
    hide FindRow, DistinctPositions;
  }

  /** An accepted order gives every row of the scope its place in that order, and changes nothing else. */
  lemma ReorderedRow(rows: seq<Row>, scope: string, ids: seq<Id>, j: nat)
    requires Valid(rows) && j < |rows| && Reorder(rows, scope, ids).0
    ensures var rows' := Reorder(rows, scope, ids).1;
            && |rows'| == |rows|
            && (rows[j].scope != scope ==> rows'[j] == rows[j])
            && (rows[j].scope == scope ==>
                  && 0 <= rows'[j].position < |ids| && ids[rows'[j].position] == rows[j].id
                  && rows'[j] == rows[j].(position := rows'[j].position))
  {
    AcceptsPermutations(rows, scope, ids);
    hide Valid, Listing, InScope, Repositioned, DistinctList, Accepts;
    RepositionedPlaced(rows, scope, ids);
    RepositionedAt(rows, scope, ids, |ids|, j, 0);
  }
}
