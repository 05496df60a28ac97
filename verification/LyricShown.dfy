/** What a row of lyrics shows: which characters are outside its tags, which readings become words, and what trimming
    leaves. */
module LyricShown {
  import opened LyricSpans
  import opened LyricReadings
  import opened LyricParts
  import opened LyricExport
  import opened Lists
  import T = LyricTimes

  // ---- Outside the tags ----

  predicate InTag(tag: Tag, p: nat) {
    tag.index <= p < tag.index + tag.length
  }

  predicate InRange(r: Range, p: nat) {
    r.start <= p < r.end
  }

  lemma {:induction false} TagsAfter(tags: seq<Tag>, cursor: nat, size: nat)
    requires TagsFrom(tags, cursor, size)
    ensures forall i :: 0 <= i < |tags| ==> cursor <= tags[i].index
    decreases |tags|
  {
    if tags != [] {
      TagsAfter(tags[1..], tags[0].index + tags[0].length, size);
      assert forall i :: 0 < i < |tags| ==> tags[i] == tags[1..][i - 1];
    }
  }

  lemma {:induction false} RangesAfter(tags: seq<Tag>, cursor: nat, size: nat)
    requires TagsFrom(tags, cursor, size)
    ensures var ranges := RangesFrom(tags, cursor, size);
            && |ranges| == |tags| + 1 && (forall g :: 0 <= g < |ranges| ==> cursor <= ranges[g].start <= ranges[g].end)
            && (forall g, h :: 0 <= g < h < |ranges| ==> ranges[g].end <= ranges[h].start)
    decreases |tags|
  {
    if tags != [] {
      RangesAfter(tags[1..], tags[0].index + tags[0].length, size);
      var (ranges, rest) :=
        (RangesFrom(tags, cursor, size), RangesFrom(tags[1..], tags[0].index + tags[0].length, size));
      assert forall g :: 0 < g < |ranges| ==> ranges[g] == rest[g - 1];
    }
  }

  /** The ranges that are retained follow one another and hold exactly the places outside all tags. */
  lemma {:induction false} RangesAreOutside(tags: seq<Tag>, cursor: nat, size: nat, p: nat)
    requires TagsFrom(tags, cursor, size) && cursor <= p < size
    ensures var ranges := RangesFrom(tags, cursor, size);
            && (forall g, h :: 0 <= g < h < |ranges| ==> ranges[g].end <= ranges[h].start)
            && ((exists g :: 0 <= g < |ranges| && InRange(ranges[g], p))
                <==> !exists i :: 0 <= i < |tags| && InTag(tags[i], p))
    decreases |tags|
  {
    RangesAfter(tags, cursor, size);
    var ranges := RangesFrom(tags, cursor, size);
    if tags == [] {
      assert InRange(ranges[0], p);
    } else {
      var (end, rest) := (tags[0].index + tags[0].length, RangesFrom(tags[1..], tags[0].index + tags[0].length, size));
      assert ranges == [Range(cursor, tags[0].index)] + rest;
      RangesAfter(tags[1..], end, size);
      TagsAfter(tags[1..], end, size);
      assert forall i :: 0 < i < |tags| ==> tags[i] == tags[1..][i - 1];
      if p < end {
        assert InRange(ranges[0], p) || InTag(tags[0], p);
      } else {
        RangesAreOutside(tags[1..], end, size, p);
        if g :| 0 <= g < |rest| && InRange(rest[g], p) {
          assert InRange(ranges[g + 1], p);
        }
        if i :| 0 <= i < |tags[1..]| && InTag(tags[1..][i], p) {
          assert InTag(tags[i + 1], p);
        }
      }
    }
  }

  // ---- Words ----

  /** Of the readings inside a range, taken in input order, each becomes a word unless it begins before the end of an
      earlier one that did. */
  lemma {:induction false} UsedGreedily(offset: nat, spans: seq<Indexed>, position: nat, end: nat, i: nat)
    returns (j: nat)
    requires SpansIn(spans, offset, 0, end) && i < |spans|
    ensures || spans[i] in Used(offset, spans, position)
            || spans[i].span.start < offset + position
            || (j < i && spans[j] in Used(offset, spans, position) && spans[i].span.start < spans[j].span.end)
    decreases |spans|
  {
    j := 0;
    var s := spans[0].span;
    var rest := spans[1..];
    if i > 0 {
      assert spans[i] == rest[i - 1];
      if s.start < offset + position {
        j := UsedGreedily(offset, rest, position, end, i - 1);
        j := j + 1;
      } else {
        j := UsedGreedily(offset, rest, s.end - offset, end, i - 1);
        assert Used(offset, spans, position) == [spans[0]] + Used(offset, rest, s.end - offset);
        j := if spans[i].span.start < s.end then 0 else j + 1;
      }
    }
  }

  /** Every valid reading inside a retained range of a row is one of its words, unless it begins before the end of a
      word that comes earlier in the input. */
  lemma ReadingIsWord(source: Text, readings: seq<Span>, offset: nat, r: Range, m: nat) returns (other: Indexed)
    requires m < |readings| && 0 <= readings[m].start < readings[m].end <= |source| && readings[m].reading != []
    requires offset + r.start <= readings[m].start && readings[m].end <= offset + r.end
    ensures var words := Used(offset, SpansOf(Index(source, readings), offset, r), r.start);
            || Indexed(readings[m], m) in words
            || (other in words && other.order < m && readings[m].start < other.span.end)
  {
    var (index, x) := (Index(source, readings), Indexed(readings[m], m));
    var spans := SpansOf(index, offset, r);
    assert Inside(x, offset + r.start, offset + r.end);
    hide *;
    LyricParts.IndexIs(source, readings);
    IndexHolds(source, readings, x);
    InSpans(index, offset, r, x);
    var i :| 0 <= i < |spans| && spans[i] == x;
    SpansOrdered(source, readings, offset, r);
    var j := UsedGreedily(offset, spans, r.start, r.end, i);
    other := spans[if j < |spans| then j else i];
    if j < i {
      SpansBefore(spans, j, i);
    }
  }

  lemma SpansOfIs(index: seq<Indexed>, offset: nat, r: Range)
    requires Indexable(index)
    ensures SpansOf(index, offset, r) == SortByOrder(Filter(index, offset + r.start, offset + r.end))
    ensures SpansIn(SpansOf(index, offset, r), offset, 0, r.end)
  {
    hide Filter, SortByOrder, Indexable, SpansIn;
  }

  lemma {:induction false} InFilter(xs: seq<Indexed>, start: int, end: int, x: Indexed)
    requires x in xs && Inside(x, start, end)
    ensures x in Filter(xs, start, end)
  {
    hide Inside;
    var n := |xs| - 1;
    if xs[n] != x {
      assert xs == xs[..n] + [xs[n]];
      InFilter(xs[..n], start, end, x);
    }
  }

  lemma InSorted(xs: seq<Indexed>, x: Indexed)
    requires x in xs
    ensures x in SortByOrder(xs)
  {
    hide SortByOrder;
    InMultiset(x, SortByOrder(xs), xs);
  }

  lemma InSpans(index: seq<Indexed>, offset: nat, r: Range, x: Indexed)
    requires Indexable(index) && x in index && Inside(x, offset + r.start, offset + r.end)
    ensures x in SpansOf(index, offset, r)
  {
    hide *;
    InFilter(index, offset + r.start, offset + r.end, x);
    InSorted(Filter(index, offset + r.start, offset + r.end), x);
    SpansOfIs(index, offset, r);
  }

  lemma SpansOrdered(source: Text, readings: seq<Span>, offset: nat, r: Range)
    ensures ByOrder(SpansOf(Index(source, readings), offset, r))
    ensures SpansIn(SpansOf(Index(source, readings), offset, r), offset, 0, r.end)
  {
    hide *;
    LyricParts.IndexIs(source, readings);
    SpansOfIs(Index(source, readings), offset, r);
    LookupIsFilter(source, readings, offset + r.start, offset + r.end);
    ValidsOrdered(source, readings);
    FilterSorted(Valids(source, readings, |readings|), offset + r.start, offset + r.end);
  }

  lemma ValidsOrdered(source: Text, readings: seq<Span>)
    ensures ByOrder(Valids(source, readings, |readings|))
  {
    ValidsFacts(source, readings, |readings|);
    hide Valids, ByOrder;
  }

  lemma SpansBefore(spans: seq<Indexed>, j: nat, i: nat)
    requires ByOrder(spans) && j < i < |spans|
    ensures spans[j].order < spans[i].order
  {
  }

  // ---- Trimming ----

  /** Trimming drops the white space at one end, all of it and nothing else. */
  lemma {:induction false} TrimStartIs(text: Text, space: Space) returns (n: nat)
    ensures n <= |text| && TrimStart(text, space) == text[n..] && forall i :: 0 <= i < n ==> space(text[i])
    ensures n < |text| ==> !space(text[n])
    decreases |text|
  {
    n := 0;
    if text != [] && space(text[0]) {
      n := TrimStartIs(text[1..], space);
      assert text[1..][n..] == text[n + 1..];
      assert forall i :: 0 < i <= n ==> text[i] == text[1..][i - 1];
      n := n + 1;
    }
  }

  lemma {:induction false} TrimEndIs(text: Text, space: Space) returns (n: nat)
    ensures n <= |text| && TrimEnd(text, space) == text[..n] && forall i :: n <= i < |text| ==> space(text[i])
    ensures n > 0 ==> !space(text[n - 1])
    decreases |text|
  {
    n := |text|;
    if text != [] && space(text[|text| - 1]) {
      n := TrimEndIs(text[..|text| - 1], space);
    }
  }

  // ---- The rows of an export ----

  function PlacesWithText(rows: seq<Row>, space: Space): set<nat> {
    set p | 0 <= p < |rows| && exists i :: 0 <= i < |rows[p].row| && !space(rows[p].row[i])
  }

  lemma PlacesWithTextMore(rows: seq<Row>, r: Row, space: Space)
    ensures PlacesWithText(rows + [r], space)
            == if exists i :: 0 <= i < |r.row| && !space(r.row[i]) then PlacesWithText(rows, space) + {|rows|}
               else PlacesWithText(rows, space)
    ensures BlankText(r.row, space) <==> !exists i :: 0 <= i < |r.row| && !space(r.row[i])
  {
  }

  lemma PlacesWithTextNone(space: Space)
    ensures PlacesWithText([], space) == {} && Nonempty([], space) == []
  {
  }

  lemma {:induction false} NonemptyMore(rows: seq<Row>, r: Row, space: Space)
    ensures Nonempty(rows + [r], space) == if BlankText(r.row, space) then Nonempty(rows, space)
                                           else Nonempty(rows, space) + [r]
  {
    hide BlankText;
    if rows == [] {
      assert [] + [r] == [r] && [r][1..] == [];
    } else {
      assert (rows + [r])[0] == rows[0] && (rows + [r])[1..] == rows[1..] + [r];
      NonemptyMore(rows[1..], r, space);
    }
  }

  /** Of plain lyrics exactly the rows with a character that is no white space are exported, in order. */
  lemma {:induction false} NonemptyPlaces(rows: seq<Row>, space: Space)
    ensures ListsPlaces(rows, Nonempty(rows, space), PlacesWithText(rows, space))
  {
    hide *;
    if rows == [] {
      PlacesNone<Row>();
      PlacesWithTextNone(space);
    } else {
      var (rest, r) := (rows[..|rows| - 1], rows[|rows| - 1]);
      assert rows == rest + [r];
      NonemptyPlaces(rest, space);
      PlacesMore(rest, Nonempty(rest, space), PlacesWithText(rest, space), r, !BlankText(r.row, space));
      PlacesWithTextMore(rest, r, space);
      NonemptyMore(rest, r, space);
    }
  }

  /** What row k of an export shows: of synced lyrics what the parser finds in it, clear of its tags; of plain lyrics
      one line at the row's share of the duration, without tags. */
  lemma RowShows(source: Text, plain: bool, duration: T.Position, parsing: Parsing, k: nat)
    requires k < |ExportRows(source, plain, parsing.space)|
    ensures var rows := ExportRows(source, plain, parsing.space);
            var display := DisplayOf(rows, k, plain, duration, parsing);
            && (!plain ==>
                  && rows == RowsFrom(source, BomLength(source))
                  && TagsOf(rows[k], plain, parsing) == parsing.tags(rows[k].row)
                  && display == parsing.lines(rows[k].row))
            && (plain ==>
                  && rows == Nonempty(RowsFrom(source, BomLength(source)), parsing.space)
                  && TagsOf(rows[k], plain, parsing) == [] && |display| == 1
                  && display[0].text == TrimEnd(TrimStart(rows[k].row, parsing.space), parsing.space)
                  && display[0].time == (if duration.Finite? && duration.seconds > 0.0
                                         then T.At((k as real) * duration.seconds / (|rows| as real))
                                         else T.Infinite))
  {
    hide RowsFrom, Nonempty, TrimStart, TrimEnd;
  }

  lemma {:induction false} LineInLines(source: Text, readings: seq<Span>, plain: bool, duration: T.Position,
                                       parsing: Parsing, k: nat, g: nat, i: nat)
    requires g < k <= |ExportRows(source, plain, parsing.space)|
    requires i < |DisplayOf(ExportRows(source, plain, parsing.space), g, plain, duration, parsing)|
    ensures var rows := ExportRows(source, plain, parsing.space);
            var shown := DisplayOf(rows, g, plain, duration, parsing)[i];
            Line(rows[g].offset, rows[g].offset + |rows[g].row|, shown.text, shown.time,
                 WordsOf(source, readings, rows[g], TagsOf(rows[g], plain, parsing)))
            in LinesTo(source, readings, plain, duration, parsing, k)
  {
    hide ExportRows, IndexOf, Scan, TagsOf, DisplayOf, Worded, WithinSource, WordsOf;
    var rows := ExportRows(source, plain, parsing.space);
    if g < k - 1 {
      LineInLines(source, readings, plain, duration, parsing, k - 1, g, i);
    } else {
      var shown := DisplayOf(rows, g, plain, duration, parsing)[i];
      var own := RowLines(rows[g], DisplayOf(rows, g, plain, duration, parsing),
                          WordsOf(source, readings, rows[g], TagsOf(rows[g], plain, parsing)));
      assert own[i].text == shown.text;
      assert own[i] in own;
    }
  }

  /** And every line that a row shows is exported, with the row's place and words. */
  lemma LineExported(source: Text, readings: seq<Span>, plain: bool, duration: T.Position, parsing: Parsing, g: nat,
                     i: nat)
    requires g < |ExportRows(source, plain, parsing.space)|
    requires i < |DisplayOf(ExportRows(source, plain, parsing.space), g, plain, duration, parsing)|
    ensures var rows := ExportRows(source, plain, parsing.space);
            var shown := DisplayOf(rows, g, plain, duration, parsing)[i];
            Line(rows[g].offset, rows[g].offset + |rows[g].row|, shown.text, shown.time,
                 WordsOf(source, readings, rows[g], TagsOf(rows[g], plain, parsing)))
            in SortByTime(LinesTo(source, readings, plain, duration, parsing, |rows|))
  {
    hide *;
    var rows := ExportRows(source, plain, parsing.space);
    var all := LinesTo(source, readings, plain, duration, parsing, |rows|);
    var shown := DisplayOf(rows, g, plain, duration, parsing)[i];
    var x := Line(rows[g].offset, rows[g].offset + |rows[g].row|, shown.text, shown.time,
                  WordsOf(source, readings, rows[g], TagsOf(rows[g], plain, parsing)));
    LineInLines(source, readings, plain, duration, parsing, |rows|, g, i);
    SortedByTime(all, x.time);
    AtTimeMembers(all, x);
    AtTimeMembers(SortByTime(all), x);
  }
}
