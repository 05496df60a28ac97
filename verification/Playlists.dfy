/** The stored playlists (server.rs): rows with a scope and a position, and the tracks of each. Listing orders by
    position; creating, deleting and reordering keep positions distinct in every scope.

    Trimming of names, the clock and new ids are parameters; new ids are fresh. */
module Playlists {
  import opened Wrappers

  type Id = string

  datatype Row = Row(id: Id, scope: string, name: string, comment: Option<string>, position: int, created: int,
                     changed: int)

  datatype TrackRow = TrackRow(track: Id, position: int)

  // ---- Selecting rows ----

  function InScope(rows: seq<Row>, scope: string): seq<Row> {
    if rows == [] then [] else (if rows[0].scope == scope then [rows[0]] else []) + InScope(rows[1..], scope)
  }

  predicate LessId(a: Id, b: Id)
    decreases |a|
  {
    b != "" && (a == "" || a[0] < b[0] || (a[0] == b[0] && LessId(a[1..], b[1..])))
  }

  /** ORDER BY position, id. */
  predicate Precedes(a: Row, b: Row) {
    a.position < b.position || (a.position == b.position && LessId(a.id, b.id))
  }

  function InsertSorted(x: Row, rows: seq<Row>): (r: seq<Row>)
    ensures multiset(r) == multiset{x} + multiset(rows)
  {
    if rows == [] || Precedes(x, rows[0]) then [x] + rows
    else
      assert rows == [rows[0]] + rows[1..];
      [rows[0]] + InsertSorted(x, rows[1..])
  }

  function Sorted(rows: seq<Row>): (r: seq<Row>)
    ensures multiset(r) == multiset(rows)
  {
    if rows == [] then []
    else
      assert rows == [rows[0]] + rows[1..];
      InsertSorted(rows[0], Sorted(rows[1..]))
  }

  function Ids(rows: seq<Row>): (ids: seq<Id>)
    ensures |ids| == |rows|
  {
    seq(|rows|, i requires 0 <= i < |rows| => rows[i].id)
  }

  /** SELECT id FROM playlists WHERE scope = ? ORDER BY position, id. */
  function Listing(rows: seq<Row>, scope: string): seq<Id> {
    Ids(Sorted(InScope(rows, scope)))
  }

  // ---- Distinct positions make the listing ----

  predicate DistinctIds(rows: seq<Row>) {
    forall i, j :: 0 <= i < j < |rows| ==> rows[i].id != rows[j].id
  }

  predicate DistinctPositions(rows: seq<Row>) {
    forall i, j :: 0 <= i < j < |rows| && rows[i].scope == rows[j].scope ==> rows[i].position != rows[j].position
  }

  predicate Valid(rows: seq<Row>) {
    DistinctIds(rows) && DistinctPositions(rows)
  }

  predicate Rising(rows: seq<Row>) {
    forall i, j :: 0 <= i < j < |rows| ==> rows[i].position < rows[j].position
  }

  lemma InMultiset<T>(x: T, xs: seq<T>, ys: seq<T>)
    requires multiset(xs) == multiset(ys)
    ensures x in xs <==> x in ys
  {
    assert x in xs <==> x in multiset(xs);
    assert x in ys <==> x in multiset(ys);
  }

  lemma {:induction false} InScopeFacts(rows: seq<Row>, scope: string)
    ensures forall r :: r in InScope(rows, scope) <==> r in rows && r.scope == scope
    ensures Valid(rows) ==> Valid(InScope(rows, scope))
    ensures |InScope(rows, scope)| <= |rows|
  {
    if rows != [] {
      InScopeFacts(rows[1..], scope);
      if Valid(rows) {
        assert Valid(rows[1..]);
        var tail := InScope(rows[1..], scope);
        forall j | 0 <= j < |tail| ensures tail[j] in rows[1..] && tail[j].id != rows[0].id {
          assert tail[j] in tail;
        }
      }
    }
  }

  lemma {:induction false} InsertRising(x: Row, rows: seq<Row>)
    requires Rising(rows) && forall i :: 0 <= i < |rows| ==> rows[i].position != x.position
    ensures Rising(InsertSorted(x, rows))
  {
    if rows != [] && !Precedes(x, rows[0]) {
      InsertRising(x, rows[1..]);
      var tail := InsertSorted(x, rows[1..]);
      forall j | 0 <= j < |tail| ensures rows[0].position < tail[j].position {
        assert tail[j] in multiset(tail);
      }
    }
  }

  predicate OneScope(rows: seq<Row>, scope: string) {
    forall i :: 0 <= i < |rows| ==> rows[i].scope == scope
  }

  lemma {:induction false} SortedRising(rows: seq<Row>, scope: string)
    requires DistinctPositions(rows) && OneScope(rows, scope)
    ensures Rising(Sorted(rows))
  {
    if rows != [] {
      SortedRising(rows[1..], scope);
      var tail := Sorted(rows[1..]);
      forall i | 0 <= i < |tail| ensures tail[i].position != rows[0].position {
        InMultiset(tail[i], tail, rows[1..]);
      }
      InsertRising(rows[0], tail);
    }
  }

  lemma HeadsEqual(a: seq<Row>, b: seq<Row>)
    requires Rising(a) && Rising(b) && multiset(a) == multiset(b) && a != [] && b != []
    ensures a[0] == b[0]
  {
    InMultiset(a[0], a, b);
    InMultiset(b[0], a, b);
  }

  lemma TailsEqual(a: seq<Row>, b: seq<Row>)
    requires Rising(a) && Rising(b) && multiset(a) == multiset(b) && a != [] && b != [] && a[0] == b[0]
    ensures Rising(a[1..]) && Rising(b[1..]) && multiset(a[1..]) == multiset(b[1..])
    ensures a == [a[0]] + a[1..] && b == [b[0]] + b[1..]
  {
    assert a == [a[0]] + a[1..] && b == [b[0]] + b[1..];
    assert multiset(a) == multiset{a[0]} + multiset(a[1..]) && multiset(b) == multiset{b[0]} + multiset(b[1..]);
    Cancel(multiset(a[1..]), multiset(b[1..]), a[0]);
  }

  lemma Cancel<T>(a: multiset<T>, b: multiset<T>, x: T)
    requires multiset{x} + a == multiset{x} + b
    ensures a == b
  {
    assert a == (multiset{x} + a) - multiset{x} && b == (multiset{x} + b) - multiset{x};
  }

  /** Rows in rising order are determined by which they are. */
  lemma {:induction false} RisingUnique(a: seq<Row>, b: seq<Row>)
    requires Rising(a) && Rising(b) && multiset(a) == multiset(b)
    ensures a == b
  {
    assert |multiset(a)| == |a| && |multiset(b)| == |b|;
    if a != [] {
      hide Rising;
      HeadsEqual(a, b);
      TailsEqual(a, b);
      RisingUnique(a[1..], b[1..]);
    }
  }

  /** Rows of a scope in rising order are what the listing selects. */
  lemma SelectedIs(rows: seq<Row>, scope: string, expected: seq<Row>)
    requires Valid(rows) && Rising(expected) && multiset(expected) == multiset(InScope(rows, scope))
    ensures Sorted(InScope(rows, scope)) == expected
  {
    ScopeRising(rows, scope);
    RisingUnique(Sorted(InScope(rows, scope)), expected);
  }

  lemma ScopeRising(rows: seq<Row>, scope: string)
    requires Valid(rows)
    ensures Rising(Sorted(InScope(rows, scope)))
  {
    InScopeFacts(rows, scope);
    var own := InScope(rows, scope);
    forall i | 0 <= i < |own| ensures own[i].scope == scope {
      assert own[i] in own;
    }
    SortedRising(own, scope);
  }

  lemma {:induction false} InScopeJoin(a: seq<Row>, b: seq<Row>, scope: string)
    ensures InScope(a + b, scope) == InScope(a, scope) + InScope(b, scope)
    decreases |a|
  {
    if a == [] {
      assert a + b == b;
    } else {
      assert (a + b)[0] == a[0] && (a + b)[1..] == a[1..] + b;
      InScopeJoin(a[1..], b, scope);
    }
  }

  // ---- Creating ----

  /** SELECT COALESCE(MAX(position) + 1, 0). */
  function NextPosition(rows: seq<Row>, scope: string): int {
    if rows == [] then 0
    else
      var rest := NextPosition(rows[1..], scope);
      if rows[0].scope != scope then rest
      else if InScope(rows[1..], scope) == [] || rows[0].position + 1 > rest then rows[0].position + 1
      else rest
  }

  lemma {:induction false} NextPositionAbove(rows: seq<Row>, scope: string)
    ensures forall r :: r in rows && r.scope == scope ==> r.position < NextPosition(rows, scope)
  {
    if rows != [] {
      NextPositionAbove(rows[1..], scope);
      InScopeFacts(rows[1..], scope);
    }
  }

  function Create(rows: seq<Row>, scope: string, id: Id, name: string, now: int): seq<Row> {
    rows + [Row(id, scope, name, None, NextPosition(rows, scope), now, now)]
  }

  lemma CreateValid(rows: seq<Row>, scope: string, id: Id, name: string, now: int)
    requires Valid(rows) && id !in Ids(rows)
    ensures Valid(Create(rows, scope, id, name, now))
  {
    NextPositionAbove(rows, scope);
    forall i | 0 <= i < |rows|
      ensures rows[i].id != id && (rows[i].scope == scope ==> rows[i].position < NextPosition(rows, scope))
    {
      assert Ids(rows)[i] == rows[i].id;
      assert rows[i] in rows;
    }
  }

  lemma CreateSelects(rows: seq<Row>, row: Row, scope: string)
    ensures InScope(rows + [row], scope) == if row.scope == scope then InScope(rows, scope) + [row]
                                            else InScope(rows, scope)
  {
    InScopeJoin(rows, [row], scope);
    assert [row][1..] == [];
  }

  lemma LastRises(rows: seq<Row>, scope: string, row: Row)
    requires Valid(rows) && row.position == NextPosition(rows, scope)
    ensures Rising(Sorted(InScope(rows, scope)) + [row])
  {
    ScopeRising(rows, scope);
    var before := Sorted(InScope(rows, scope));
    NextPositionAbove(rows, scope);
    InScopeFacts(rows, scope);
    forall i | 0 <= i < |before| ensures before[i].position < row.position {
      InMultiset(before[i], before, InScope(rows, scope));
    }
  }

  /** A new playlist comes last in its scope; other scopes are untouched. */
  lemma CreateAppends(rows: seq<Row>, scope: string, id: Id, name: string, now: int, other: string)
    requires Valid(rows) && id !in Ids(rows)
    ensures var rows' := Create(rows, scope, id, name, now);
            && Valid(rows') && Listing(rows', scope) == Listing(rows, scope) + [id]
            && (other != scope ==> Listing(rows', other) == Listing(rows, other))
  {
    hide Valid, InScope, Sorted, Rising, NextPosition;
    CreateValid(rows, scope, id, name, now);
    var row := Row(id, scope, name, None, NextPosition(rows, scope), now, now);
    CreateSelects(rows, row, scope);
    CreateSelects(rows, row, other);
    LastRises(rows, scope, row);
    var before := Sorted(InScope(rows, scope));
    SelectedIs(rows + [row], scope, before + [row]);
    assert Ids(before + [row]) == Ids(before) + [id];
  }

  // ---- Deleting ----

  /** The row of an id in a scope, or the length. */
  function FindRow(rows: seq<Row>, scope: string, id: Id): (i: nat)
    ensures i <= |rows| && (i < |rows| ==> rows[i].id == id && rows[i].scope == scope)
    ensures forall j :: 0 <= j < i ==> !(rows[j].id == id && rows[j].scope == scope)
  {
    if rows == [] || (rows[0].id == id && rows[0].scope == scope) then 0 else 1 + FindRow(rows[1..], scope, id)
  }

  function RemoveAt<T>(s: seq<T>, i: nat): (r: seq<T>)
    requires i < |s|
    ensures |r| == |s| - 1
  {
    s[..i] + s[i + 1..]
  }

  /** DELETE FROM playlists WHERE id = ? AND scope = ?. */
  function Delete(rows: seq<Row>, scope: string, id: Id): seq<Row> {
    var i := FindRow(rows, scope, id);
    if i < |rows| then RemoveAt(rows, i) else rows
  }

  /** The list without an id, the rest in its order. */
  function Except(ids: seq<Id>, id: Id): seq<Id> {
    if ids == [] then [] else (if ids[0] == id then [] else [ids[0]]) + Except(ids[1..], id)
  }

  lemma RemoveValid(rows: seq<Row>, i: nat)
    requires Valid(rows) && i < |rows|
    ensures Valid(RemoveAt(rows, i))
  {
  }

  lemma RemoveSelects(rows: seq<Row>, i: nat, scope: string)
    requires i < |rows|
    ensures rows[i].scope == scope ==>
              multiset{rows[i]} + multiset(InScope(RemoveAt(rows, i), scope)) == multiset(InScope(rows, scope))
    ensures rows[i].scope != scope ==> InScope(RemoveAt(rows, i), scope) == InScope(rows, scope)
  {
    assert rows == rows[..i] + [rows[i]] + rows[i + 1..];
    CreateSelects(rows[..i], rows[i], scope);
    InScopeJoin(rows[..i] + [rows[i]], rows[i + 1..], scope);
    InScopeJoin(rows[..i], rows[i + 1..], scope);
    hide InScope;
    Middle(InScope(rows[..i], scope), rows[i], InScope(rows[i + 1..], scope));
  }

  lemma Middle<T>(a: seq<T>, x: T, b: seq<T>)
    ensures multiset(a + [x] + b) == multiset{x} + multiset(a + b)
  {
  }

  lemma {:induction false} ExceptOnce(rows: seq<Row>, k: nat)
    requires DistinctIds(rows) && k < |rows|
    ensures Except(Ids(rows), rows[k].id) == Ids(RemoveAt(rows, k))
    decreases |rows|
  {
    assert Ids(rows)[1..] == Ids(rows[1..]);
    if k == 0 {
      ExceptNone(rows[1..], rows[0].id);
      assert RemoveAt(rows, 0) == rows[1..];
    } else {
      ExceptOnce(rows[1..], k - 1);
      assert RemoveAt(rows, k) == [rows[0]] + RemoveAt(rows[1..], k - 1);
      assert Ids(RemoveAt(rows, k)) == [rows[0].id] + Ids(RemoveAt(rows[1..], k - 1));
    }
  }

  lemma {:induction false} ExceptNone(rows: seq<Row>, id: Id)
    requires forall i :: 0 <= i < |rows| ==> rows[i].id != id
    ensures Except(Ids(rows), id) == Ids(rows)
    decreases |rows|
  {
    if rows != [] {
      assert Ids(rows)[1..] == Ids(rows[1..]);
      ExceptNone(rows[1..], id);
      assert Ids(rows) == [rows[0].id] + Ids(rows[1..]);
    }
  }

  lemma SortedDistinct(rows: seq<Row>, scope: string)
    requires Valid(rows)
    ensures DistinctIds(Sorted(InScope(rows, scope)))
    ensures forall r :: r in Sorted(InScope(rows, scope)) <==> r in rows && r.scope == scope
  {
    InScopeFacts(rows, scope);
    ScopeRising(rows, scope);
    var own, sorted := InScope(rows, scope), Sorted(InScope(rows, scope));
    forall r ensures r in sorted <==> r in rows && r.scope == scope {
      InMultiset(r, sorted, own);
    }
    forall i, j | 0 <= i < j < |sorted| ensures sorted[i].id != sorted[j].id {
      assert sorted[i] in sorted && sorted[j] in sorted && sorted[i] != sorted[j];
    }
  }

  lemma Removed<T>(s: seq<T>, k: nat)
    requires k < |s|
    ensures multiset(s) == multiset{s[k]} + multiset(RemoveAt(s, k))
  {
    assert s == s[..k] + [s[k]] + s[k + 1..];
    Middle(s[..k], s[k], s[k + 1..]);
  }

  lemma SortedWithout(rows: seq<Row>, i: nat, scope: string, k: nat)
    requires Valid(rows) && i < |rows| && rows[i].scope == scope
    requires var sorted := Sorted(InScope(rows, scope)); k < |sorted| && sorted[k] == rows[i]
    ensures Sorted(InScope(RemoveAt(rows, i), scope)) == RemoveAt(Sorted(InScope(rows, scope)), k)
  {
    hide *;
    var sorted := Sorted(InScope(rows, scope));
    RemoveValid(rows, i);
    RemoveSelects(rows, i, scope);
    ScopeRising(rows, scope);
    RemoveRising(sorted, k);
    Removed(sorted, k);
    Cancel(multiset(RemoveAt(sorted, k)), multiset(InScope(RemoveAt(rows, i), scope)), rows[i]);
    SelectedIs(RemoveAt(rows, i), scope, RemoveAt(sorted, k));
  }

  lemma RemoveRising(rows: seq<Row>, k: nat)
    requires Rising(rows) && k < |rows|
    ensures Rising(RemoveAt(rows, k))
  {
  }

  lemma DeleteFound(rows: seq<Row>, scope: string, i: nat, other: string)
    requires Valid(rows) && i < |rows| && rows[i].scope == scope
    ensures var rows' := RemoveAt(rows, i);
            && Valid(rows') && Listing(rows', scope) == Except(Listing(rows, scope), rows[i].id)
            && (other != scope ==> Listing(rows', other) == Listing(rows, other)) && rows[i].id in Listing(rows, scope)
  {
    hide *;
    SortedDistinct(rows, scope);
    var (sorted, rows') := (Sorted(InScope(rows, scope)), RemoveAt(rows, i));
    RemoveValid(rows, i);
    RemoveSelects(rows, i, other);
    ListingIs(rows, scope);
    ListingIs(rows', scope);
    ListingIs(rows, other);
    ListingIs(rows', other);
    assert rows[i] in sorted;
    IdListed(sorted, rows[i]);
    var k: nat :| k < |sorted| && sorted[k] == rows[i];
    SortedWithout(rows, i, scope, k);
    ExceptOnce(sorted, k);
  }

  /** Deleting keeps the order of the rest and leaves other scopes alone; what is not in the scope is not deleted. */
  lemma DeleteKeepsOrder(rows: seq<Row>, scope: string, id: Id, other: string)
    requires Valid(rows)
    ensures var rows' := Delete(rows, scope, id);
            && Valid(rows') && Listing(rows', scope) == Except(Listing(rows, scope), id)
            && (other != scope ==> Listing(rows', other) == Listing(rows, other))
            && (rows' != rows <==> id in Listing(rows, scope))
  {
    var i := FindRow(rows, scope, id);
    if i < |rows| {
      hide InScope, Sorted, Valid, Except;
      DeleteFound(rows, scope, i, other);
    } else {
      SortedDistinct(rows, scope);
      var sorted := Sorted(InScope(rows, scope));
      hide InScope, Sorted, Valid;
      forall k | 0 <= k < |sorted| ensures sorted[k].id != id {
        assert sorted[k] in sorted;
      }
      ExceptNone(sorted, id);
    }
  }

  // ---- Reordering ----

  /** UPDATE playlists SET position = ? WHERE id = ? AND scope = ?. */
  function SetPosition(rows: seq<Row>, scope: string, id: Id, position: int): (r: seq<Row>)
    ensures |r| == |rows|
  {
    seq(|rows|, i requires 0 <= i < |rows| =>
      if rows[i].id == id && rows[i].scope == scope then rows[i].(position := position) else rows[i])
  }

  /** The updates for the first k ids. */
  function Repositioned(rows: seq<Row>, scope: string, ids: seq<Id>, k: nat): (r: seq<Row>)
    requires k <= |ids|
    ensures |r| == |rows|
  {
    if k == 0 then rows else SetPosition(Repositioned(rows, scope, ids, k - 1), scope, ids[k - 1], k - 1)
  }

  function SetOf(ids: seq<Id>): set<Id> {
    set id | id in ids
  }

  /** The check before a reordering: no id twice, as many as are stored, and every stored one. */
  predicate Accepts(rows: seq<Row>, scope: string, ids: seq<Id>) {
    var stored := SetOf(Ids(InScope(rows, scope)));
    |SetOf(ids)| == |ids| && |stored| == |SetOf(ids)| && stored <= SetOf(ids)
  }

  function Reorder(rows: seq<Row>, scope: string, ids: seq<Id>): (bool, seq<Row>) {
    if Accepts(rows, scope, ids) then (true, Repositioned(rows, scope, ids, |ids|)) else (false, rows)
  }

  predicate DistinctList(ids: seq<Id>) {
    forall i, j :: 0 <= i < j < |ids| ==> ids[i] != ids[j]
  }

  lemma {:induction false} SetSize(ids: seq<Id>)
    ensures |SetOf(ids)| <= |ids| && (|SetOf(ids)| == |ids| <==> DistinctList(ids))
  {
    if ids != [] {
      var (rest, last) := (ids[..|ids| - 1], ids[|ids| - 1]);
      SetSize(rest);
      assert SetOf(ids) == SetOf(rest) + {last};
      if last in rest {
        assert SetOf(ids) == SetOf(rest);
        var j :| 0 <= j < |rest| && rest[j] == last;
        assert ids[j] == ids[|ids| - 1];
      } else {
        assert |SetOf(ids)| == |SetOf(rest)| + 1;
        assert forall i :: 0 <= i < |rest| ==> ids[i] != last;
      }
    }
  }

  lemma SameIds(a: seq<Row>, b: seq<Row>)
    requires forall r :: r in a ==> r in b
    ensures forall id :: id in Ids(a) ==> id in Ids(b)
  {
    forall id | id in Ids(a) ensures id in Ids(b) {
      var i :| 0 <= i < |a| && Ids(a)[i] == id;
      assert a[i] in a;
      IdListed(b, a[i]);
    }
  }

  lemma IdsDistinct(rows: seq<Row>)
    requires DistinctIds(rows)
    ensures DistinctList(Ids(rows))
  {
  }

  lemma OwnIds(rows: seq<Row>, scope: string)
    requires Valid(rows)
    ensures DistinctList(Ids(InScope(rows, scope)))
    ensures forall id :: id in Ids(InScope(rows, scope)) <==> id in Listing(rows, scope)
    ensures |Listing(rows, scope)| == |InScope(rows, scope)|
    ensures DistinctList(Listing(rows, scope))
  {
    InScopeFacts(rows, scope);
    SortedDistinct(rows, scope);
    var own, sorted := InScope(rows, scope), Sorted(InScope(rows, scope));
    assert |multiset(own)| == |own| && |multiset(sorted)| == |sorted|;
    hide InScope, Sorted, Ids, DistinctList;
    IdsDistinct(own);
    IdsDistinct(sorted);
    SameIds(own, sorted);
    SameIds(sorted, own);
  }

  /** A reordering is accepted exactly for lists without repetition that hold the listed ids and no others. */
  lemma AcceptsPermutations(rows: seq<Row>, scope: string, ids: seq<Id>)
    requires Valid(rows)
    ensures Accepts(rows, scope, ids) <==>
              && DistinctList(ids) && |ids| == |Listing(rows, scope)|
              && forall id :: id in ids <==> id in Listing(rows, scope)
  {
    OwnIds(rows, scope);
    SetSize(ids);
    SetSize(Ids(InScope(rows, scope)));
    var stored, supplied := SetOf(Ids(InScope(rows, scope))), SetOf(ids);
    hide InScope, Listing, DistinctList;
    if stored <= supplied && |stored| == |supplied| {
      SameSet(stored, supplied);
      assert forall id :: id in ids <==> id in supplied;
      assert forall id :: id in Ids(InScope(rows, scope)) <==> id in stored;
    }
    if forall id :: id in ids <==> id in Listing(rows, scope) {
      assert stored == supplied;
    }
  }

  lemma SameSet<T>(a: set<T>, b: set<T>)
    requires a <= b && |a| == |b|
    ensures a == b
  {
    if a != b {
      var x :| x in b && x !in a;
      assert |a + {x}| == |a| + 1 && a + {x} <= b;
      Subset(a + {x}, b);
    }
  }

  lemma Subset<T>(a: set<T>, b: set<T>)
    requires a <= b
    ensures |a| <= |b|
  {
    assert b == a + (b - a);
    assert |a + (b - a)| == |a| + |b - a|;
  }

  /** What the updates leave of row j. */
  lemma {:induction false} RepositionedAt(rows: seq<Row>, scope: string, ids: seq<Id>, k: nat, j: nat, m: nat)
    requires k <= |ids| && j < |rows| && DistinctList(ids)
    ensures var r := Repositioned(rows, scope, ids, k)[j];
            && r == rows[j].(position := r.position)
            && (rows[j].scope != scope ==> r == rows[j])
            && (rows[j].scope == scope && m < k && ids[m] == rows[j].id ==> r.position == m)
  {
    if k > 0 {
      RepositionedAt(rows, scope, ids, k - 1, j, m);
    }
  }

  lemma RepositionedOthers(rows: seq<Row>, scope: string, ids: seq<Id>, other: string)
    requires DistinctList(ids) && other != scope
    ensures InScope(Repositioned(rows, scope, ids, |ids|), other) == InScope(rows, other)
  {
    var after := Repositioned(rows, scope, ids, |ids|);
    forall j | 0 <= j < |rows|
      ensures after[j].scope == rows[j].scope && (rows[j].scope != scope ==> after[j] == rows[j])
    {
      RepositionedAt(rows, scope, ids, |ids|, j, 0);
    }
    SameOthers(rows, after, scope, other);
  }

  lemma {:induction false} SameOthers(a: seq<Row>, b: seq<Row>, scope: string, other: string)
    requires |a| == |b| && other != scope
    requires forall j :: 0 <= j < |a| ==> b[j].scope == a[j].scope && (a[j].scope != scope ==> b[j] == a[j])
    ensures InScope(b, other) == InScope(a, other)
    ensures |InScope(b, scope)| == |InScope(a, scope)|
  {
    if a != [] {
      SameOthers(a[1..], b[1..], scope, other);
    }
  }

  lemma {:induction false} SameCount(a: seq<Row>, b: seq<Row>, scope: string)
    requires |a| == |b| && forall j :: 0 <= j < |a| ==> b[j].scope == a[j].scope
    ensures |InScope(b, scope)| == |InScope(a, scope)|
  {
    if a != [] {
      SameCount(a[1..], b[1..], scope);
    }
  }

  /** Every row of the scope is at the place of its id. */
  predicate Placed(rows: seq<Row>, scope: string, ids: seq<Id>) {
    forall j :: 0 <= j < |rows| && rows[j].scope == scope ==>
      0 <= rows[j].position < |ids| && ids[rows[j].position] == rows[j].id
  }

  lemma RepositionedPlaced(rows: seq<Row>, scope: string, ids: seq<Id>)
    requires Valid(rows) && DistinctList(ids) && forall id :: id in ids <==> id in Listing(rows, scope)
    ensures var after := Repositioned(rows, scope, ids, |ids|);
            && Placed(after, scope, ids) && Valid(after) && |InScope(after, scope)| == |InScope(rows, scope)|
  {
    hide Repositioned, InScope, Listing;
    var after := Repositioned(rows, scope, ids, |ids|);
    OwnIds(rows, scope);
    InScopeFacts(rows, scope);
    forall j | 0 <= j < |rows|
      ensures after[j].id == rows[j].id && after[j].scope == rows[j].scope
      ensures (rows[j].scope != scope ==> after[j] == rows[j])
      ensures rows[j].scope == scope ==> 0 <= after[j].position < |ids| && ids[after[j].position] == rows[j].id
    {
      RepositionedAt(rows, scope, ids, |ids|, j, 0);
      if rows[j].scope == scope {
        assert rows[j] in InScope(rows, scope);
        IdListed(InScope(rows, scope), rows[j]);
        var m: nat :| m < |ids| && ids[m] == rows[j].id;
        RepositionedAt(rows, scope, ids, |ids|, j, m);
      }
    }
    SameCount(rows, after, scope);
  }

  lemma IdListed(rows: seq<Row>, r: Row)
    requires r in rows
    ensures r.id in Ids(rows)
  {
    var i :| 0 <= i < |rows| && rows[i] == r;
    assert Ids(rows)[i] == r.id;
  }

  lemma {:induction false} RisingIsCounting(rows: seq<Row>, i: nat)
    requires Rising(rows) && i < |rows| && forall j :: 0 <= j < |rows| ==> 0 <= rows[j].position < |rows|
    ensures rows[i].position == i
  {
    AtLeast(rows, i);
    AtMost(rows, i);
  }

  lemma AtLeast(rows: seq<Row>, i: nat)
    requires Rising(rows) && i < |rows| && forall j :: 0 <= j < |rows| ==> 0 <= rows[j].position
    ensures rows[i].position >= i
  {
    if i > 0 {
      AtLeast(rows, i - 1);
    }
  }

  lemma AtMost(rows: seq<Row>, i: nat)
    requires Rising(rows) && i < |rows| && forall j :: 0 <= j < |rows| ==> rows[j].position < |rows|
    ensures rows[i].position <= i
    decreases |rows| - i
  {
    if i + 1 < |rows| {
      AtMost(rows, i + 1);
    }
  }

  lemma PlacedListing(rows: seq<Row>, scope: string, ids: seq<Id>)
    requires Valid(rows) && Placed(rows, scope, ids) && |InScope(rows, scope)| == |ids|
    ensures Listing(rows, scope) == ids
  {
    ScopeRising(rows, scope);
    SortedDistinct(rows, scope);
    var sorted := Sorted(InScope(rows, scope));
    assert |multiset(sorted)| == |sorted| == |multiset(InScope(rows, scope))|;
    hide Sorted, InScope, Valid;
    forall i | 0 <= i < |sorted| ensures 0 <= sorted[i].position < |sorted| && ids[sorted[i].position] == sorted[i].id {
      assert sorted[i] in sorted;
      var j :| 0 <= j < |rows| && rows[j] == sorted[i];
    }
    forall i | 0 <= i < |sorted| ensures Ids(sorted)[i] == ids[i] {
      RisingIsCounting(sorted, i);
    }
  }

  /** A reordering succeeds exactly for the permutations of the scope's ids; it then lists exactly that order and
      leaves other scopes alone, and changes nothing otherwise. */
  lemma ReorderLists(rows: seq<Row>, scope: string, ids: seq<Id>, other: string)
    requires Valid(rows)
    ensures var (ok, rows') := Reorder(rows, scope, ids);
            && (ok <==>
                && DistinctList(ids) && |ids| == |Listing(rows, scope)|
                && forall id :: id in ids <==> id in Listing(rows, scope))
            && (ok ==>
                  && Valid(rows') && Listing(rows', scope) == ids
                  && (other != scope ==> Listing(rows', other) == Listing(rows, other)))
            && (!ok ==> rows' == rows)
  {
    AcceptsPermutations(rows, scope, ids);
    OwnIds(rows, scope);
    hide Valid, InScope, Sorted, Repositioned, DistinctList, Accepts;
    if Accepts(rows, scope, ids) {
      hide Listing;
      RepositionedPlaced(rows, scope, ids);
      PlacedListing(Repositioned(rows, scope, ids, |ids|), scope, ids);
      if other != scope {
        RepositionedOthers(rows, scope, ids, other);
        ListingIs(rows, other);
        ListingIs(Repositioned(rows, scope, ids, |ids|), other);
      }
    }
  }

  lemma ListingIs(rows: seq<Row>, scope: string)
    ensures Listing(rows, scope) == Ids(Sorted(InScope(rows, scope)))
  {
  }

  // ---- Updating ----

  /** Rows that differ at most in names, comments and times. */
  predicate SamePlace(x: Row, y: Row) {
    x.id == y.id && x.scope == y.scope && x.position == y.position
  }

  predicate SamePlaces(a: seq<Row>, b: seq<Row>) {
    |a| == |b| && forall i :: 0 <= i < |a| ==> SamePlace(a[i], b[i])
  }

  lemma {:induction false} SameInScope(a: seq<Row>, b: seq<Row>, scope: string)
    requires SamePlaces(a, b)
    ensures SamePlaces(InScope(a, scope), InScope(b, scope))
  {
    if a != [] {
      SameInScope(a[1..], b[1..], scope);
    }
  }

  lemma SameRest(a: seq<Row>, b: seq<Row>)
    requires SamePlaces(a, b) && a != []
    ensures b != [] && SamePlace(a[0], b[0]) && SamePlaces(a[1..], b[1..])
  {
  }

  lemma SameFirst(x: Row, y: Row, a: seq<Row>, b: seq<Row>)
    requires SamePlace(x, y) && SamePlaces(a, b)
    ensures SamePlaces([x] + a, [y] + b)
  {
  }

  lemma SamePrecedes(x: Row, y: Row, a: Row, b: Row)
    requires SamePlace(x, y) && SamePlace(a, b)
    ensures Precedes(x, a) == Precedes(y, b)
  {
  }

  lemma InsertStep(x: Row, rows: seq<Row>)
    ensures InsertSorted(x, rows)
            == if rows == [] || Precedes(x, rows[0]) then [x] + rows else [rows[0]] + InsertSorted(x, rows[1..])
  {
  }

  lemma {:induction false} SameInsert(x: Row, y: Row, a: seq<Row>, b: seq<Row>)
    requires SamePlace(x, y) && SamePlaces(a, b)
    ensures SamePlaces(InsertSorted(x, a), InsertSorted(y, b))
    decreases |a|
  {
    hide *;
    InsertStep(x, a);
    InsertStep(y, b);
    SameFirst(x, y, a, b);
    if a == [] {
      SameLength(a, b);
    } else {
      SameRest(a, b);
      SamePrecedes(x, y, a[0], b[0]);
      SameInsert(x, y, a[1..], b[1..]);
      SameFirst(a[0], b[0], InsertSorted(x, a[1..]), InsertSorted(y, b[1..]));
    }
  }

  lemma SameLength(a: seq<Row>, b: seq<Row>)
    requires SamePlaces(a, b)
    ensures |a| == |b|
  {
  }

  lemma {:induction false} SameSorted(a: seq<Row>, b: seq<Row>)
    requires SamePlaces(a, b)
    ensures SamePlaces(Sorted(a), Sorted(b))
  {
    if a != [] {
      SameSorted(a[1..], b[1..]);
      SameInsert(a[0], b[0], Sorted(a[1..]), Sorted(b[1..]));
    }
  }

  /** Changing names, comments and times changes no listing. */
  lemma UpdateKeepsListing(a: seq<Row>, b: seq<Row>, scope: string)
    requires SamePlaces(a, b)
    ensures Listing(a, scope) == Listing(b, scope) && (Valid(a) ==> Valid(b))
  {
    SameInScope(a, b, scope);
    SameSorted(InScope(a, scope), InScope(b, scope));
  }
}
