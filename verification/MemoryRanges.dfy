/** The byte ranges a partial track has received (NativeAudioCache.kt, addMemoryRange). */
module MemoryRanges {
  // The list is kept canonical: sorted, disjoint and with a gap between neighbours.
  // `Insert` is the specification of one recorded range; the lemmas say what it means in terms of the bytes covered,
  // and the passes of the source's loop are related to it at the end. The method is PartialMemoryTrack.AddMemoryRange.

  import opened Wrappers

  datatype Range = Range(start: int, end: int)

  predicate Covers(r: Range, p: int) {
    r.start <= p < r.end
  }

  /** Some range of the list holds byte `p`. */
  predicate InRanges(rs: seq<Range>, p: int) {
    exists i :: 0 <= i < |rs| && Covers(rs[i], p)
  }

  /** Sorted, disjoint, not even touching, and inside [0, size). */
  predicate Canonical(rs: seq<Range>, size: int) {
    && (forall i :: 0 <= i < |rs| ==> 0 <= rs[i].start < rs[i].end <= size)
    && (forall i, j :: 0 <= i < j < |rs| ==> rs[i].end < rs[j].start)
  }

  /** Record [s, e) in a canonical list. */
  function Insert(rs: seq<Range>, s: int, e: int): (r: seq<Range>)
    ensures r != []
  {
    if rs == [] then [Range(s, e)]
    else if rs[0].end < s then [rs[0]] + Insert(rs[1..], s, e)
    else if rs[0].start > e then [Range(s, e)] + rs
    else Insert(rs[1..], Min(s, rs[0].start), Max(e, rs[0].end))
  }

  /** Sum of the lengths. */
  function Total(rs: seq<Range>): int {
    if rs == [] then 0 else rs[0].end - rs[0].start + Total(rs[1..])
  }

  /** How many bytes of [s, e) the list already holds. */
  function Overlap(rs: seq<Range>, s: int, e: int): int {
    if rs == [] then 0
    else Max(0, Min(rs[0].end, e) - Max(rs[0].start, s)) + Overlap(rs[1..], s, e)
  }

  // ---- Insert keeps the list canonical and covers exactly the union ----

  lemma CanonicalTail(rs: seq<Range>, size: int)
    requires Canonical(rs, size) && rs != []
    ensures Canonical(rs[1..], size)
    ensures forall i :: 0 <= i < |rs[1..]| ==> rs[0].end < rs[1..][i].start
  {
  }

  lemma CanonicalCons(r: Range, rs: seq<Range>, size: int)
    requires Canonical(rs, size) && 0 <= r.start < r.end <= size
    requires forall i :: 0 <= i < |rs| ==> r.end < rs[i].start
    ensures Canonical([r] + rs, size)
  {
  }

  lemma {:induction false} InsertBounds(rs: seq<Range>, s: int, e: int, size: int, low: int)
    requires Canonical(rs, size) && 0 <= low <= s < e <= size
    requires forall i :: 0 <= i < |rs| ==> low <= rs[i].start
    ensures Canonical(Insert(rs, s, e), size)
    ensures forall i :: 0 <= i < |Insert(rs, s, e)| ==> low <= Insert(rs, s, e)[i].start
  {
    if rs != [] {
      CanonicalTail(rs, size);
      if rs[0].end < s {
        InsertBounds(rs[1..], s, e, size, rs[0].end + 1);
        CanonicalCons(rs[0], Insert(rs[1..], s, e), size);
      } else if rs[0].start <= e {
        InsertBounds(rs[1..], Min(s, rs[0].start), Max(e, rs[0].end), size, low);
      } else {
        CanonicalCons(Range(s, e), rs, size);
      }
    }
  }

  lemma InRangesSplit(rs: seq<Range>, p: int)
    requires rs != []
    ensures InRanges(rs, p) <==> Covers(rs[0], p) || InRanges(rs[1..], p)
  {
    if InRanges(rs[1..], p) {
      var i :| 0 <= i < |rs[1..]| && Covers(rs[1..][i], p);
      assert Covers(rs[i + 1], p);
    }
    if InRanges(rs, p) && !Covers(rs[0], p) {
      var i :| 0 <= i < |rs| && Covers(rs[i], p);
      assert Covers(rs[1..][i - 1], p);
    }
  }

  lemma {:induction false} InsertCovers(rs: seq<Range>, s: int, e: int, size: int, p: int)
    requires Canonical(rs, size) && s < e
    ensures InRanges(Insert(rs, s, e), p) <==> InRanges(rs, p) || s <= p < e
  {
    InRangesSplit(Insert(rs, s, e), p);
    if rs == [] {
    } else {
      CanonicalTail(rs, size);
      InRangesSplit(rs, p);
      if rs[0].end < s {
        InsertCovers(rs[1..], s, e, size, p);
        assert Insert(rs, s, e)[1..] == Insert(rs[1..], s, e);
      } else if rs[0].start > e {
        assert Insert(rs, s, e)[1..] == rs;
      } else {
        InsertCovers(rs[1..], Min(s, rs[0].start), Max(e, rs[0].end), size, p);
      }
    }
  }

  /** One recorded range: the list stays canonical and covers the union, nothing else. */
  lemma InsertCorrect(rs: seq<Range>, s: int, e: int, size: int)
    requires Canonical(rs, size) && 0 <= s < e <= size
    ensures Canonical(Insert(rs, s, e), size)
    ensures forall p :: InRanges(Insert(rs, s, e), p) <==> InRanges(rs, p) || s <= p < e
  {
    InsertBounds(rs, s, e, size, 0);
    forall p ensures InRanges(Insert(rs, s, e), p) <==> InRanges(rs, p) || s <= p < e {
      InsertCovers(rs, s, e, size, p);
    }
  }

  // ---- The counter: Total is the number of covered bytes ----

  lemma {:induction false} OverlapNone(rs: seq<Range>, s: int, e: int)
    requires forall i :: 0 <= i < |rs| ==> e <= rs[i].start
    ensures Overlap(rs, s, e) == 0
  {
    if rs != [] { OverlapNone(rs[1..], s, e); }
  }

  /** Widening [s, e) to the left of every range, or up to a point no range starts before, adds no overlap. */
  lemma {:induction false} OverlapWiden(rs: seq<Range>, s: int, e: int, s': int, e': int)
    requires s' <= s && e <= e'
    requires forall i :: 0 <= i < |rs| ==> e' < rs[i].start || (e == e' && s <= rs[i].start)
    ensures Overlap(rs, s, e) == Overlap(rs, s', e')
  {
    if rs != [] { OverlapWiden(rs[1..], s, e, s', e'); }
  }

  lemma {:induction false} OverlapBound(rs: seq<Range>, s: int, e: int, size: int, low: int)
    requires Canonical(rs, size)
    requires forall i :: 0 <= i < |rs| ==> low <= rs[i].start
    ensures 0 <= Overlap(rs, s, e) <= Max(0, e - Max(s, low))
  {
    if rs != [] {
      CanonicalTail(rs, size);
      OverlapBound(rs[1..], s, e, size, rs[0].end);
    }
  }

  lemma {:induction false} InsertTotal(rs: seq<Range>, s: int, e: int, size: int)
    requires Canonical(rs, size) && s < e
    ensures Total(Insert(rs, s, e)) == Total(rs) + (e - s) - Overlap(rs, s, e)
    ensures 0 <= Overlap(rs, s, e) <= e - s
  {
    if rs != [] {
      OverlapBound(rs, s, e, size, Min(s, rs[0].start));
      CanonicalTail(rs, size);
      var rest := rs[1..];
      if rs[0].end < s {
        InsertTotal(rest, s, e, size);
        assert Insert(rs, s, e)[1..] == Insert(rest, s, e);
      } else if rs[0].start > e {
        OverlapNone(rs, s, e);
        assert Insert(rs, s, e)[1..] == rs;
      } else {
        var s', e' := Min(s, rs[0].start), Max(e, rs[0].end);
        InsertTotal(rest, s', e', size);
        InsertTotal(rest, s, e, size);
        OverlapWiden(rest, s, e, s', e');
      }
    }
  }

  /** The set of covered bytes. */
  function CoveredSet(rs: seq<Range>, size: int): set<int> {
    set p | 0 <= p < size && InRanges(rs, p)
  }

  function Span(a: int, b: int): set<int> {
    set p | a <= p < b && Covers(Range(a, b), p)
  }

  lemma SpanSize(a: int, b: int)
    requires a <= b
    ensures |Span(a, b)| == b - a
    decreases b - a
  {
    if a < b {
      SpanSize(a, b - 1);
      assert Span(a, b) == Span(a, b - 1) + {b - 1};
    } else {
      assert Span(a, b) == {};
    }
  }

  lemma CoveredSetSplit(rs: seq<Range>, size: int)
    requires Canonical(rs, size) && rs != []
    ensures CoveredSet(rs, size) == Span(rs[0].start, rs[0].end) + CoveredSet(rs[1..], size)
    ensures Span(rs[0].start, rs[0].end) !! CoveredSet(rs[1..], size)
  {
    forall p ensures InRanges(rs, p) <==> Covers(rs[0], p) || InRanges(rs[1..], p) { InRangesSplit(rs, p); }
    CanonicalTail(rs, size);
    hide Canonical;
  }

  lemma {:induction false} TotalIsCardinality(rs: seq<Range>, size: int)
    requires Canonical(rs, size)
    ensures Total(rs) == |CoveredSet(rs, size)|
  {
    if rs == [] {
      assert CoveredSet(rs, size) == {};
    } else {
      CanonicalTail(rs, size);
      TotalIsCardinality(rs[1..], size);
      SpanSize(rs[0].start, rs[0].end);
      CoveredSetSplit(rs, size);
    }
  }

  /** The completeness test `coveredBytes >= totalBytes`: it holds exactly for the single range [0, size). */
  lemma CompleteIffWhole(rs: seq<Range>, size: int)
    requires Canonical(rs, size) && size > 0
    ensures Total(rs) <= size
    ensures Total(rs) >= size <==> rs == [Range(0, size)]
    ensures Total(rs) >= size <==> forall p :: 0 <= p < size ==> InRanges(rs, p)
  {
    var whole := Span(0, size);
    SpanSize(0, size);
    TotalIsCardinality(rs, size);
    SubsetSize(CoveredSet(rs, size), whole);
    if Total(rs) >= size {
      SubsetEqual(CoveredSet(rs, size), whole);
      forall p | 0 <= p < size ensures InRanges(rs, p) { assert p in CoveredSet(rs, size); }
      forall p ensures InRanges(rs, p) <==> InRanges([Range(0, size)], p) {
        assert InRanges([Range(0, size)], p) <==> Covers([Range(0, size)][0], p);
      }
      CanonicalUnique(rs, [Range(0, size)], size);
    }
    if forall p :: 0 <= p < size ==> InRanges(rs, p) {
      assert CoveredSet(rs, size) == whole;
    }
  }

  lemma SubsetSize(a: set<int>, b: set<int>)
    requires a <= b
    ensures |a| <= |b|
  {
    assert b == a + (b - a);
  }

  lemma SubsetEqual(a: set<int>, b: set<int>)
    requires a <= b && |a| >= |b|
    ensures a == b
  {
    assert b == a + (b - a);
    assert |b - a| == 0;
  }

  // ---- Order does not matter ----

  lemma FirstCovered(a: seq<Range>, size: int)
    requires Canonical(a, size) && a != []
    ensures InRanges(a, a[0].start)
  {
    assert Covers(a[0], a[0].start);
  }

  lemma FirstStart(a: seq<Range>, b: seq<Range>, size: int)
    requires Canonical(a, size) && Canonical(b, size) && a != [] && b != []
    requires forall p :: InRanges(a, p) <==> InRanges(b, p)
    ensures b[0].start <= a[0].start
  {
    assert Covers(a[0], a[0].start);
    assert InRanges(b, a[0].start);
    var i :| 0 <= i < |b| && Covers(b[i], a[0].start);
  }

  lemma GapAfterFirst(b: seq<Range>, size: int)
    requires Canonical(b, size) && b != []
    ensures !InRanges(b, b[0].end)
  {
  }

  lemma FirstEnd(a: seq<Range>, b: seq<Range>, size: int)
    requires Canonical(a, size) && Canonical(b, size) && a != [] && b != []
    requires forall p :: InRanges(a, p) <==> InRanges(b, p)
    requires a[0].start == b[0].start
    ensures a[0].end <= b[0].end
  {
    GapAfterFirst(b, size);
    assert !Covers(a[0], b[0].end);
  }

  lemma FirstAgrees(a: seq<Range>, b: seq<Range>, size: int)
    requires Canonical(a, size) && Canonical(b, size) && a != [] && b != []
    requires forall p :: InRanges(a, p) <==> InRanges(b, p)
    ensures a[0] == b[0]
  {
    FirstStart(a, b, size);
    FirstStart(b, a, size);
    FirstEnd(a, b, size);
    FirstEnd(b, a, size);
  }

  lemma TailsAgree(a: seq<Range>, b: seq<Range>, size: int)
    requires Canonical(a, size) && Canonical(b, size) && a != [] && b != [] && a[0] == b[0]
    requires forall p :: InRanges(a, p) <==> InRanges(b, p)
    ensures forall p :: InRanges(a[1..], p) <==> InRanges(b[1..], p)
  {
    forall p ensures InRanges(a[1..], p) <==> InRanges(b[1..], p) {
      InRangesSplit(a, p);
      InRangesSplit(b, p);
    }
  }

  /** A canonical list is determined by the bytes it covers. */
  lemma {:induction false} CanonicalUnique(a: seq<Range>, b: seq<Range>, size: int)
    requires Canonical(a, size) && Canonical(b, size)
    requires forall p :: InRanges(a, p) <==> InRanges(b, p)
    ensures a == b
  {
    if a == [] {
      if b != [] { FirstCovered(b, size); }
    } else if b == [] {
      FirstCovered(a, size);
    } else {
      hide InRanges;
      FirstAgrees(a, b, size);
      TailsAgree(a, b, size);
      CanonicalTail(a, size);
      CanonicalTail(b, size);
      CanonicalUnique(a[1..], b[1..], size);
      assert a == [a[0]] + a[1..] && b == [b[0]] + b[1..];
    }
  }

  /** Fold of a whole history of recorded ranges. */
  function InsertAll(rs: seq<Range>, history: seq<Range>): seq<Range>
    decreases |history|
  {
    if history == [] then rs else InsertAll(Insert(rs, history[0].start, history[0].end), history[1..])
  }

  ghost predicate WellFormed(history: seq<Range>, size: int) {
    forall i :: 0 <= i < |history| ==> 0 <= history[i].start < history[i].end <= size
  }

  lemma {:induction false} HistoryFrom(rs: seq<Range>, history: seq<Range>, size: int)
    requires Canonical(rs, size) && WellFormed(history, size)
    ensures Canonical(InsertAll(rs, history), size)
    ensures forall p :: InRanges(InsertAll(rs, history), p) <==> InRanges(rs, p) || InRanges(history, p)
    decreases |history|
  {
    if history != [] {
      var first := history[0];
      InsertCorrect(rs, first.start, first.end, size);
      var next := Insert(rs, first.start, first.end);
      HistoryFrom(next, history[1..], size);
      forall p ensures InRanges(InsertAll(rs, history), p) <==> InRanges(rs, p) || InRanges(history, p) {
        InRangesSplit(history, p);
      }
    }
  }

  /** Any history, in any order and with any overlap: the list is canonical, its union is exactly the bytes
      recorded and the covered count is the size of that union. */
  lemma HistoryCorrect(history: seq<Range>, size: int)
    requires WellFormed(history, size)
    ensures Canonical(InsertAll([], history), size)
    ensures forall p :: InRanges(InsertAll([], history), p) <==> InRanges(history, p)
    ensures Total(InsertAll([], history)) == |CoveredSet(history, size)|
  {
    HistoryFrom([], history, size);
    TotalIsCardinality(InsertAll([], history), size);
    assert CoveredSet(InsertAll([], history), size) == CoveredSet(history, size);
  }

  /** Two histories that cover the same bytes leave the same list. */
  lemma OrderIrrelevant(a: seq<Range>, b: seq<Range>, size: int)
    requires WellFormed(a, size) && WellFormed(b, size)
    requires forall p :: InRanges(a, p) <==> InRanges(b, p)
    ensures InsertAll([], a) == InsertAll([], b)
  {
    HistoryCorrect(a, size);
    HistoryCorrect(b, size);
    CanonicalUnique(InsertAll([], a), InsertAll([], b), size);
  }

  // ---- The loop of the source ----

  /** Stable insertion sort by start, standing for the library's sortBy. */
  function SortByStart(rs: seq<Range>): seq<Range> {
    if rs == [] then [] else InsertSorted(rs[0], SortByStart(rs[1..]))
  }

  function InsertSorted(r: Range, rs: seq<Range>): seq<Range> {
    if rs == [] || r.start <= rs[0].start then [r] + rs else [rs[0]] + InsertSorted(r, rs[1..])
  }

  predicate Ascending(rs: seq<Range>) {
    forall i, j :: 0 <= i < j < |rs| ==> rs[i].start < rs[j].start
  }

  /** Appending the merged range and sorting puts it at its place. */
  lemma {:induction false} SortAppended(left: seq<Range>, m: Range, right: seq<Range>)
    requires Ascending(left + [m] + right)
    ensures SortByStart(left + right + [m]) == left + [m] + right
  {
    var all := left + [m] + right;
    if left != [] {
      assert all[1..] == left[1..] + [m] + right;
      assert (left + right + [m])[1..] == left[1..] + right + [m];
      SortAppended(left[1..], m, right);
      assert all == [left[0]] + all[1..];
      assert all[1..] != [] && left[0] == all[0] && all[1..][0] == all[1];
    } else if right != [] {
      assert all[1..] == right;
      assert left + [m] + right[1..] == [m] + right[1..];
      assert Ascending([m] + right[1..]) by {
        assert forall i :: 0 < i < |[m] + right[1..]| ==> ([m] + right[1..])[i] == all[i + 1];
      }
      SortAppended([], m, right[1..]);
      assert (left + right + [m])[1..] == [] + right[1..] + [m];
      var r := right[0];
      assert all[1] == r && all[0] == m;
      assert right[1..] != [] ==> right[1..][0] == all[2];
      assert InsertSorted(r, right[1..]) == [r] + right[1..] == right;
      assert ([m] + right[1..])[1..] == right[1..];
    } else {
      assert left + right + [m] == [m] == all;
    }
  }

  /** The variables of the loop, and one pass of it. */
  datatype Loop = Loop(remaining: seq<Range>, mergedStart: int, mergedEnd: int, newlyCovered: int)

  function Pass(l: Loop, range: Range, start: int, end: int): Loop {
    if range.end < l.mergedStart || range.start > l.mergedEnd then l.(remaining := l.remaining + [range])
    else Loop(l.remaining, Min(l.mergedStart, range.start), Max(l.mergedEnd, range.end),
              l.newlyCovered - Max(0, Min(range.end, end) - Max(range.start, start)))
  }

  function Passes(ranges: seq<Range>, start: int, end: int, k: nat): Loop
    requires k <= |ranges|
  {
    if k == 0 then Loop([], start, end, end - start)
    else Pass(Passes(ranges, start, end, k - 1), ranges[k - 1], start, end)
  }

  /** After k passes: `left` was set aside before the growing range, `right` after it. */
  ghost predicate Progress(ranges: seq<Range>, start: int, end: int, k: nat, left: seq<Range>, right: seq<Range>,
                           l: Loop)
    requires k <= |ranges|
  {
    && l.remaining == left + right
    && l.mergedStart <= start < end <= l.mergedEnd
    && l.newlyCovered == end - start - (Overlap(ranges, start, end) - Overlap(ranges[k..], start, end))
    && (right == [] ==> Insert(ranges, start, end) == left + Insert(ranges[k..], l.mergedStart, l.mergedEnd))
    && (right != [] ==> Insert(ranges, start, end) == left + [Range(l.mergedStart, l.mergedEnd)] + right + ranges[k..])
    && (right != [] || l.mergedEnd != end ==> forall i :: k <= i < |ranges| ==> ranges[i].start > l.mergedEnd)
  }

  lemma PassLeft(ranges: seq<Range>, size: int, start: int, end: int, k: nat, left: seq<Range>, right: seq<Range>,
                 l: Loop)
    requires Canonical(ranges, size) && k < |ranges| && Progress(ranges, start, end, k, left, right, l)
    requires ranges[k].end < l.mergedStart
    ensures right == [] && Progress(ranges, start, end, k + 1, left + [ranges[k]], [], Pass(l, ranges[k], start, end))
  {
    var rest := ranges[k..];
    assert rest[0] == ranges[k] && rest[1..] == ranges[k + 1..];
    assert Insert(rest, l.mergedStart, l.mergedEnd)
           == [ranges[k]] + Insert(ranges[k + 1..], l.mergedStart, l.mergedEnd);
  }

  lemma Regroup(left: seq<Range>, right: seq<Range>, r: Range)
    ensures left + right + [r] == left + (right + [r])
  {
  }

  lemma PassRight(ranges: seq<Range>, size: int, start: int, end: int, k: nat, left: seq<Range>, right: seq<Range>,
                  l: Loop)
    requires Canonical(ranges, size) && k < |ranges| && Progress(ranges, start, end, k, left, right, l)
    requires ranges[k].end >= l.mergedStart && ranges[k].start > l.mergedEnd
    ensures Progress(ranges, start, end, k + 1, left, right + [ranges[k]], Pass(l, ranges[k], start, end))
  {
    var rest, m := ranges[k..], [Range(l.mergedStart, l.mergedEnd)];
    assert rest[0] == ranges[k] && rest[1..] == ranges[k + 1..];
    assert rest == [ranges[k]] + ranges[k + 1..];
    assert Insert(rest, l.mergedStart, l.mergedEnd) == m + rest;
    if right == [] {
      assert left + (m + rest) == left + m + right + rest;
    }
    Regroup(left, right, ranges[k]);
    Regroup(left + m + right, [], ranges[k]);
    assert left + m + (right + [ranges[k]]) + ranges[k + 1..] == left + m + right + rest;
  }

  lemma PassMerge(ranges: seq<Range>, size: int, start: int, end: int, k: nat, left: seq<Range>, right: seq<Range>,
                  l: Loop)
    requires Canonical(ranges, size) && k < |ranges| && Progress(ranges, start, end, k, left, right, l)
    requires ranges[k].end >= l.mergedStart && ranges[k].start <= l.mergedEnd
    ensures right == [] && Progress(ranges, start, end, k + 1, left, [], Pass(l, ranges[k], start, end))
  {
    var rest := ranges[k..];
    assert rest[0] == ranges[k] && rest[1..] == ranges[k + 1..];
  }

  lemma {:induction false} PassesProgress(ranges: seq<Range>, size: int, start: int, end: int, k: nat)
    returns (left: seq<Range>, right: seq<Range>)
    requires Canonical(ranges, size) && start < end && k <= |ranges|
    ensures Progress(ranges, start, end, k, left, right, Passes(ranges, start, end, k))
  {
    if k == 0 {
      left, right := [], [];
      assert ranges[0..] == ranges;
    } else {
      left, right := PassesProgress(ranges, size, start, end, k - 1);
      hide Progress;
      var l, range := Passes(ranges, start, end, k - 1), ranges[k - 1];
      if range.end < l.mergedStart {
        PassLeft(ranges, size, start, end, k - 1, left, right, l);
        left := left + [range];
      } else if range.start > l.mergedEnd {
        PassRight(ranges, size, start, end, k - 1, left, right, l);
        right := right + [range];
      } else {
        PassMerge(ranges, size, start, end, k - 1, left, right, l);
      }
    }
  }

  lemma LoopResult(ranges: seq<Range>, size: int, start: int, end: int)
    requires Canonical(ranges, size) && 0 <= start < end <= size
    ensures var l := Passes(ranges, start, end, |ranges|);
            && SortByStart(l.remaining + [Range(l.mergedStart, l.mergedEnd)]) == Insert(ranges, start, end)
            && l.newlyCovered == Total(Insert(ranges, start, end)) - Total(ranges) >= 0
  {
    var left, right := PassesProgress(ranges, size, start, end, |ranges|);
    var l := Passes(ranges, start, end, |ranges|);
    var m := Range(l.mergedStart, l.mergedEnd);
    var none := ranges[|ranges|..];
    assert none == [];
    assert Insert(none, m.start, m.end) == [m];
    assert left + [m] + right + none == left + [m] + right;
    assert right == [] ==> left + [m] + right == left + [m];
    InsertCorrect(ranges, start, end, size);
    InsertTotal(ranges, start, end, size);
    SortAppended(left, m, right);
  }
}
