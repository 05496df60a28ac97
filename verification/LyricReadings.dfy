/** The index of reading spans and its range lookup (lyrics.js, indexReadings and rangeReadings): a binary search
    with an early stop finds exactly what a filter of all readings would, in input order. */
module LyricReadings {
  import opened Wrappers
  import opened Lists
  import opened LyricSpans

  datatype Span = Span(start: int, end: int, reading: Text, dictionary: Option<int>)

  datatype Indexed = Indexed(span: Span, order: nat)

  predicate ValidSpan(source: Text, s: Span) {
    s.start >= 0 && s.end <= |source| && s.start < s.end && s.reading != []
  }

  /** The valid ones of the first k readings, with their places in the input. */
  function Valids(source: Text, readings: seq<Span>, k: nat): seq<Indexed>
    requires k <= |readings|
  {
    if k == 0 then []
    else
      Valids(source, readings, k - 1)
      + if ValidSpan(source, readings[k - 1]) then [Indexed(readings[k - 1], k - 1)] else []
  }

  // ---- Sorting, by what a sort promises ----

  predicate Precedes(a: Indexed, b: Indexed) {
    a.span.start < b.span.start || (a.span.start == b.span.start && a.order < b.order)
  }

  predicate ByStart(xs: seq<Indexed>) {
    forall i, j :: 0 <= i < j < |xs| ==> xs[i].span.start <= xs[j].span.start
  }

  predicate ByOrder(xs: seq<Indexed>) {
    forall i, j :: 0 <= i < j < |xs| ==> xs[i].order < xs[j].order
  }

  function InsertByStart(x: Indexed, xs: seq<Indexed>): (r: seq<Indexed>)
    ensures multiset(r) == multiset{x} + multiset(xs)
  {
    if xs == [] || Precedes(x, xs[0]) then [x] + xs
    else
      assert xs == [xs[0]] + xs[1..];
      [xs[0]] + InsertByStart(x, xs[1..])
  }

  function SortByStart(xs: seq<Indexed>): (r: seq<Indexed>)
    ensures multiset(r) == multiset(xs)
  {
    if xs == [] then []
    else
      assert xs == [xs[0]] + xs[1..];
      InsertByStart(xs[0], SortByStart(xs[1..]))
  }

  function InsertByOrder(x: Indexed, xs: seq<Indexed>): (r: seq<Indexed>)
    ensures multiset(r) == multiset{x} + multiset(xs)
  {
    if xs == [] || x.order < xs[0].order then [x] + xs
    else
      assert xs == [xs[0]] + xs[1..];
      [xs[0]] + InsertByOrder(x, xs[1..])
  }

  function SortByOrder(xs: seq<Indexed>): (r: seq<Indexed>)
    ensures multiset(r) == multiset(xs)
  {
    if xs == [] then []
    else
      assert xs == [xs[0]] + xs[1..];
      InsertByOrder(xs[0], SortByOrder(xs[1..]))
  }

  lemma InMultiset<T>(x: T, xs: seq<T>, ys: seq<T>)
    requires multiset(xs) == multiset(ys)
    ensures x in xs <==> x in ys
  {
    assert x in xs <==> x in multiset(xs);
    assert x in ys <==> x in multiset(ys);
  }

  lemma {:induction false} InsertByStartSorts(x: Indexed, xs: seq<Indexed>)
    requires ByStart(xs)
    ensures ByStart(InsertByStart(x, xs))
  {
    if xs != [] && !Precedes(x, xs[0]) {
      InsertByStartSorts(x, xs[1..]);
      var tail := InsertByStart(x, xs[1..]);
      forall j | 0 <= j < |tail| ensures xs[0].span.start <= tail[j].span.start {
        assert tail[j] in multiset(tail);
      }
    }
  }

  lemma {:induction false} SortByStartSorts(xs: seq<Indexed>)
    ensures ByStart(SortByStart(xs))
  {
    if xs != [] {
      SortByStartSorts(xs[1..]);
      InsertByStartSorts(xs[0], SortByStart(xs[1..]));
    }
  }

  /** All places in the input are different. */
  predicate DistinctOrders(xs: seq<Indexed>) {
    forall i, j :: 0 <= i < j < |xs| ==> xs[i].order != xs[j].order
  }

  lemma {:induction false} InsertByOrderSorts(x: Indexed, xs: seq<Indexed>)
    requires ByOrder(xs) && forall i :: 0 <= i < |xs| ==> xs[i].order != x.order
    ensures ByOrder(InsertByOrder(x, xs))
  {
    if xs != [] && xs[0].order < x.order {
      InsertByOrderSorts(x, xs[1..]);
      var tail := InsertByOrder(x, xs[1..]);
      forall j | 0 <= j < |tail| ensures xs[0].order < tail[j].order {
        assert tail[j] in multiset(tail);
      }
    }
  }

  lemma {:induction false} SortByOrderSorts(xs: seq<Indexed>)
    requires DistinctOrders(xs)
    ensures ByOrder(SortByOrder(xs))
  {
    if xs != [] {
      SortByOrderSorts(xs[1..]);
      var tail := SortByOrder(xs[1..]);
      forall i | 0 <= i < |tail| ensures tail[i].order != xs[0].order {
        InMultiset(tail[i], tail, xs[1..]);
      }
      InsertByOrderSorts(xs[0], tail);
    }
  }

  /** A list sorted by distinct places is determined by its elements. */
  lemma {:induction false} SortedUnique(a: seq<Indexed>, b: seq<Indexed>)
    requires ByOrder(a) && ByOrder(b) && multiset(a) == multiset(b)
    ensures a == b
  {
    assert |multiset(a)| == |a| && |multiset(b)| == |b|;
    if a != [] {
      HeadsEqual(a, b);
      assert a == [a[0]] + a[1..] && b == [b[0]] + b[1..];
      assert multiset(a[1..]) == multiset(a) - multiset{a[0]} == multiset(b[1..]);
      SortedUnique(a[1..], b[1..]);
    }
  }

  lemma HeadsEqual(a: seq<Indexed>, b: seq<Indexed>)
    requires ByOrder(a) && ByOrder(b) && multiset(a) == multiset(b) && a != [] && b != []
    ensures a[0] == b[0]
  {
    InMultiset(a[0], a, b);
    InMultiset(b[0], a, b);
  }

  // ---- The spans inside a range ----

  predicate Inside(x: Indexed, start: int, end: int) {
    start <= x.span.start && x.span.end <= end
  }

  function Filter(xs: seq<Indexed>, start: int, end: int): seq<Indexed> {
    if xs == [] then []
    else Filter(xs[..|xs| - 1], start, end) + if Inside(xs[|xs| - 1], start, end) then [xs[|xs| - 1]] else []
  }

  lemma {:induction false} FilterCount(xs: seq<Indexed>, start: int, end: int, x: Indexed)
    ensures multiset(Filter(xs, start, end))[x] == if Inside(x, start, end) then multiset(xs)[x] else 0
  {
    if xs != [] {
      FilterCount(xs[..|xs| - 1], start, end, x);
      assert xs == xs[..|xs| - 1] + [xs[|xs| - 1]];
    }
  }

  lemma FilterMultiset(xs: seq<Indexed>, ys: seq<Indexed>, start: int, end: int)
    requires multiset(xs) == multiset(ys)
    ensures multiset(Filter(xs, start, end)) == multiset(Filter(ys, start, end))
  {
    forall x ensures multiset(Filter(xs, start, end))[x] == multiset(Filter(ys, start, end))[x] {
      FilterCount(xs, start, end, x);
      FilterCount(ys, start, end, x);
    }
  }

  lemma {:induction false} FilterSorted(xs: seq<Indexed>, start: int, end: int)
    requires ByOrder(xs)
    ensures ByOrder(Filter(xs, start, end))
    ensures forall x :: x in Filter(xs, start, end) ==> x in xs
  {
    if xs != [] {
      var (rest, last) := (xs[..|xs| - 1], xs[|xs| - 1]);
      FilterSorted(rest, start, end);
      var kept := Filter(rest, start, end);
      forall i | 0 <= i < |kept| ensures kept[i] in rest && kept[i].order < last.order {
        assert kept[i] in kept;
        var j :| 0 <= j < |rest| && rest[j] == kept[i];
      }
    }
  }

  lemma {:induction false} FilterJoin(xs: seq<Indexed>, ys: seq<Indexed>, start: int, end: int)
    ensures Filter(xs + ys, start, end) == Filter(xs, start, end) + Filter(ys, start, end)
    decreases |ys|
  {
    if ys == [] {
      assert xs + ys == xs;
    } else {
      assert (xs + ys)[..|xs + ys| - 1] == xs + ys[..|ys| - 1];
      FilterJoin(xs, ys[..|ys| - 1], start, end);
    }
  }

  lemma {:induction false} FilterNone(xs: seq<Indexed>, start: int, end: int)
    requires forall i :: 0 <= i < |xs| ==> !Inside(xs[i], start, end)
    ensures Filter(xs, start, end) == []
  {
    if xs != [] {
      FilterNone(xs[..|xs| - 1], start, end);
    }
  }

  // ---- The loops ----

  method IndexReadings(source: Text, readings: seq<Span>) returns (index: seq<Indexed>)
    ensures index == SortByStart(Valids(source, readings, |readings|))
  {
    index := [];
    for order := 0 to |readings|
      invariant index == Valids(source, readings, order)
    {
      var span := readings[order];
      if span.start >= 0 && span.end <= |source| && span.start < span.end && span.reading != [] {
        index := index + [Indexed(span, order)];
      }
    }
    index := SortByStart(index);
  }

  predicate Indexable(index: seq<Indexed>) {
    ByStart(index) && forall i :: 0 <= i < |index| ==> index[i].span.start < index[i].span.end
  }

  /** The first span that begins at or after `start`. */
  method LowerBound(index: seq<Indexed>, start: int) returns (low: nat)
    requires ByStart(index)
    ensures low <= |index|
    ensures forall i :: 0 <= i < low ==> index[i].span.start < start
    ensures forall i :: low <= i < |index| ==> start <= index[i].span.start
  {
    var high;
    low, high := 0, |index|;
    while low < high
      invariant 0 <= low <= high <= |index|
      invariant forall i :: 0 <= i < low ==> index[i].span.start < start
      invariant forall i :: high <= i < |index| ==> start <= index[i].span.start
    {
      var middle := (low + high) / 2;
      if index[middle].span.start < start {
        low := middle + 1;
      } else {
        high := middle;
      }
    }
  }

  lemma FilterTake(index: seq<Indexed>, start: int, end: int, k: nat)
    requires k < |index|
    ensures Filter(index[..k + 1], start, end)
            == Filter(index[..k], start, end) + if Inside(index[k], start, end) then [index[k]] else []
  {
    assert index[..k + 1][..k] == index[..k];
  }

  /** Nothing before the first or after the last span visited is inside. */
  lemma FilterStops(index: seq<Indexed>, start: int, end: int, last: nat)
    requires Indexable(index) && last <= |index| && (last < |index| ==> end <= index[last].span.start)
    ensures Filter(index, start, end) == Filter(index[..last], start, end)
  {
    assert index == index[..last] + index[last..];
    FilterJoin(index[..last], index[last..], start, end);
    FilterNone(index[last..], start, end);
  }

  method RangeReadings(index: seq<Indexed>, start: int, end: int) returns (spans: seq<Indexed>)
    requires Indexable(index)
    ensures spans == SortByOrder(Filter(index, start, end))
  {
    var low := LowerBound(index, start);
    ghost var first := low;
    spans := [];
    FilterNone(index[..first], start, end);
    while low < |index| && index[low].span.start < end
      invariant first <= low <= |index|
      invariant spans == Filter(index[..low], start, end)
    {
      FilterTake(index, start, end, low);
      hide Filter;
      if index[low].span.end <= end {
        spans := spans + [index[low]];
      }
      low := low + 1;
    }
    FilterStops(index, start, end, low);
    spans := SortByOrder(spans);
  }

  // ---- The fast lookup is the filter ----

  lemma {:induction false} ValidsFacts(source: Text, readings: seq<Span>, k: nat)
    requires k <= |readings|
    ensures var v := Valids(source, readings, k);
            ByOrder(v) && forall i :: 0 <= i < |v| ==>
              v[i].order < k && v[i].span == readings[v[i].order] && ValidSpan(source, v[i].span)
  {
    if k > 0 {
      ValidsFacts(source, readings, k - 1);
    }
  }

  lemma IndexIsIndexable(source: Text, readings: seq<Span>)
    ensures Indexable(SortByStart(Valids(source, readings, |readings|)))
  {
    var v := Valids(source, readings, |readings|);
    ValidsFacts(source, readings, |readings|);
    SortByStartSorts(v);
    var index := SortByStart(v);
    forall i | 0 <= i < |index| ensures index[i].span.start < index[i].span.end {
      InMultiset(index[i], index, v);
    }
  }

  lemma PermutedOrders(xs: seq<Indexed>, ys: seq<Indexed>)
    requires ByOrder(xs) && multiset(xs) == multiset(ys)
    ensures DistinctOrders(ys)
  {
    forall i, j | 0 <= i < j < |ys| ensures ys[i].order != ys[j].order {
      InMultiset(ys[i], xs, ys);
      InMultiset(ys[j], xs, ys);
      if ys[i].order == ys[j].order {
        assert ys[i] == ys[j];
        assert ys == ys[..i] + [ys[i]] + ys[i + 1..j] + [ys[j]] + ys[j + 1..];
        assert multiset(ys)[ys[i]] >= 2;
        OnceOnly(xs, ys[i]);
      }
    }
  }

  lemma {:induction false} OnceOnly(xs: seq<Indexed>, x: Indexed)
    requires ByOrder(xs)
    ensures multiset(xs)[x] <= 1
  {
    if xs != [] {
      OnceOnly(xs[1..], x);
      assert xs == [xs[0]] + xs[1..];
      if x == xs[0] {
        assert x !in xs[1..];
      }
    }
  }

  /** What the lookup finds in the index is what a filter of all valid readings finds, in input order: the sorts,
      the binary search and the early stop change nothing, for unsorted and overlapping spans too. */
  lemma LookupIsFilter(source: Text, readings: seq<Span>, start: int, end: int)
    ensures var v := Valids(source, readings, |readings|);
            SortByOrder(Filter(SortByStart(v), start, end)) == Filter(v, start, end)
  {
    var v := Valids(source, readings, |readings|);
    ValidsFacts(source, readings, |readings|);
    FilterMultiset(SortByStart(v), v, start, end);
    FilterSorted(v, start, end);
    PermutedOrders(Filter(v, start, end), Filter(SortByStart(v), start, end));
    SortByOrderSorts(Filter(SortByStart(v), start, end));
    SortedUnique(SortByOrder(Filter(SortByStart(v), start, end)), Filter(v, start, end));
  }

  /** The index holds exactly the readings that name a text inside the source, and say something. */
  lemma IndexHolds(source: Text, readings: seq<Span>, x: Indexed)
    ensures x in SortByStart(Valids(source, readings, |readings|))
            <==>
            && x.order < |readings| && x.span == readings[x.order]
            && 0 <= x.span.start < x.span.end <= |source| && x.span.reading != []
  {
    InMultiset(x, SortByStart(Valids(source, readings, |readings|)), Valids(source, readings, |readings|));
    ValidsHold(source, readings, |readings|, x);
    hide SortByStart, Valids;
  }

  lemma {:induction false} ValidsHold(source: Text, readings: seq<Span>, k: nat, x: Indexed)
    requires k <= |readings|
    ensures x in Valids(source, readings, k)
            <==>
            && x.order < k && x.span == readings[x.order]
            && 0 <= x.span.start < x.span.end <= |source| && x.span.reading != []
  {
    if k > 0 {
      ValidsHold(source, readings, k - 1, x);
    }
  }

  predicate Before(a: Indexed, b: Indexed) {
    a.span.start < b.span.start || (a.span.start == b.span.start && a.order < b.order)
  }

  predicate AllBefore(xs: seq<Indexed>) {
    forall i, j :: 0 <= i < j < |xs| ==> Before(xs[i], xs[j])
  }

  lemma {:induction false} InsertOrdered(x: Indexed, xs: seq<Indexed>)
    requires AllBefore(xs) && forall i :: 0 <= i < |xs| ==> xs[i].order != x.order
    ensures AllBefore(InsertByStart(x, xs))
  {
    if xs != [] {
      var (rest, tail) := (xs[1..], InsertByStart(x, xs[1..]));
      assert forall i :: 0 <= i < |rest| ==> rest[i] == xs[i + 1];
      if !Precedes(x, xs[0]) {
        InsertOrdered(x, rest);
        forall j | 0 <= j < |tail| ensures Before(xs[0], tail[j]) {
          assert tail[j] in multiset(tail);
          assert tail[j] == x || tail[j] in rest;
        }
      }
    }
  }

  lemma {:induction false} SortOrdered(xs: seq<Indexed>)
    requires DistinctOrders(xs)
    ensures AllBefore(SortByStart(xs))
  {
    hide AllBefore;
    if xs == [] {
      NoneBefore();
    } else {
      var tail := SortByStart(xs[1..]);
      SortOrdered(xs[1..]);
      forall i | 0 <= i < |tail| ensures tail[i].order != xs[0].order {
        InMultiset(tail[i], tail, xs[1..]);
      }
      InsertOrdered(xs[0], tail);
    }
  }

  lemma NoneBefore()
    ensures AllBefore([])
  {
  }

  /** It is ordered by where the readings start, and those that start together by their places in the input. */
  lemma IndexOrdered(source: Text, readings: seq<Span>, i: nat, j: nat)
    requires i < j < |SortByStart(Valids(source, readings, |readings|))|
    ensures var index := SortByStart(Valids(source, readings, |readings|));
            || index[i].span.start < index[j].span.start
            || (index[i].span.start == index[j].span.start && index[i].order < index[j].order)
  {
    var v := Valids(source, readings, |readings|);
    ValidsFacts(source, readings, |readings|);
    PermutedOrders(v, v);
    SortOrdered(v);
    hide SortByStart, Valids, DistinctOrders, ByOrder;
  }

  function PlacesInside(xs: seq<Indexed>, start: int, end: int): set<nat> {
    set p | 0 <= p < |xs| && start <= xs[p].span.start && xs[p].span.end <= end
  }

  lemma PlacesInsideMore(xs: seq<Indexed>, x: Indexed, start: int, end: int)
    ensures PlacesInside(xs + [x], start, end)
            == if start <= x.span.start && x.span.end <= end then PlacesInside(xs, start, end) + {|xs|}
               else PlacesInside(xs, start, end)
    ensures Inside(x, start, end) <==> start <= x.span.start && x.span.end <= end
  {
  }

  lemma PlacesInsideNone(start: int, end: int)
    ensures PlacesInside([], start, end) == {} && Filter([], start, end) == []
  {
  }

  /** The filter takes exactly the readings inside the range, in their order. */
  lemma {:induction false} FilterPlaces(xs: seq<Indexed>, start: int, end: int)
    ensures ListsPlaces(xs, Filter(xs, start, end), PlacesInside(xs, start, end))
  {
    hide ListsPlaces, PlacesInside, Inside;
    if xs == [] {
      PlacesNone<Indexed>();
      PlacesInsideNone(start, end);
    } else {
      var (rest, x) := (xs[..|xs| - 1], xs[|xs| - 1]);
      assert xs == rest + [x];
      FilterPlaces(rest, start, end);
      assert Filter(rest, start, end) + [] == Filter(rest, start, end);
      PlacesInsideMore(rest, x, start, end);
      PlacesMore(rest, Filter(rest, start, end), PlacesInside(rest, start, end), x, Inside(x, start, end));
    }
  }
}
