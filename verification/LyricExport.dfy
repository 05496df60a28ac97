/** Exported lyric lines (lyric-export.js, exportLines): one cursor for all rows gives each row the words a scan of all
    readings would, and the lines of all rows are sorted by their times. */
module LyricExport {
  import opened LyricSpans
  import opened LyricReadings
  import opened LyricParts
  import T = LyricTimes

  function End(r: Row): nat {
    r.offset + |r.row|
  }

  /** No tag of the row touches the span. */
  predicate Clear(tags: seq<Tag>, offset: nat, s: Span) {
    forall i :: 0 <= i < |tags| ==>
      !(s.start < offset + tags[i].index + tags[i].length && s.end > offset + tags[i].index)
  }

  predicate InRowClear(x: Indexed, r: Row, tags: seq<Tag>) {
    r.offset <= x.span.start && x.span.end <= End(r) && Clear(tags, r.offset, x.span)
  }

  /** The per-row scan of all readings. */
  function Scan(xs: seq<Indexed>, r: Row, tags: seq<Tag>): seq<Indexed> {
    if xs == [] then []
    else Scan(xs[..|xs| - 1], r, tags) + if InRowClear(xs[|xs| - 1], r, tags) then [xs[|xs| - 1]] else []
  }

  lemma {:induction false} ScanJoin(xs: seq<Indexed>, ys: seq<Indexed>, r: Row, tags: seq<Tag>)
    ensures Scan(xs + ys, r, tags) == Scan(xs, r, tags) + Scan(ys, r, tags)
    decreases |ys|
  {
    if ys == [] {
      assert xs + ys == xs;
    } else {
      assert (xs + ys)[..|xs + ys| - 1] == xs + ys[..|ys| - 1];
      ScanJoin(xs, ys[..|ys| - 1], r, tags);
    }
  }

  lemma {:induction false} ScanNone(xs: seq<Indexed>, r: Row, tags: seq<Tag>)
    requires forall i :: 0 <= i < |xs| ==> !InRowClear(xs[i], r, tags)
    ensures Scan(xs, r, tags) == []
  {
    if xs != [] {
      ScanNone(xs[..|xs| - 1], r, tags);
    }
  }

  /** Only the readings that begin in the row matter to its scan. */
  lemma ScanWindow(index: seq<Indexed>, low: nat, high: nat, r: Row, tags: seq<Tag>)
    requires low <= high <= |index| && Indexable(index)
    requires forall i :: 0 <= i < low ==> index[i].span.start < r.offset
    requires high < |index| ==> End(r) <= index[high].span.start
    ensures Scan(index, r, tags) == Scan(index[low..high], r, tags)
  {
    hide Scan, Clear;
    var before, window, after := index[..low], index[low..high], index[high..];
    assert index == before + window + after;
    ScanNone(before, r, tags);
    assert forall i :: 0 <= i < |after| ==> after[i].span.start >= End(r);
    ScanNone(after, r, tags);
    ScanJoin(before + window, after, r, tags);
    ScanJoin(before, window, r, tags);
  }

  predicate Ascending(rows: seq<Row>) {
    forall i, j :: 0 <= i < j < |rows| ==> End(rows[i]) <= rows[j].offset
  }

  /** `some` of the collection loop of the source. */
  method TouchesTag(tags: seq<Tag>, offset: nat, s: Span) returns (touches: bool)
    ensures touches == !Clear(tags, offset, s)
  {
    for i := 0 to |tags|
      invariant forall k :: 0 <= k < i ==>
                  !(s.start < offset + tags[k].index + tags[k].length && s.end > offset + tags[k].index)
    {
      if s.start < offset + tags[i].index + tags[i].length && s.end > offset + tags[i].index {
        return true;
      }
    }
    touches := false;
  }

  method RowWords(rowReadings: seq<Indexed>, r: Row, tags: seq<Tag>) returns (words: seq<Indexed>)
    requires forall i :: 0 <= i < |rowReadings| ==> r.offset <= rowReadings[i].span.start
    ensures words == Scan(rowReadings, r, tags)
  {
    words := [];
    for i := 0 to |rowReadings|
      invariant words == Scan(rowReadings[..i], r, tags)
    {
      assert rowReadings[..i + 1][..i] == rowReadings[..i];
      var touches := TouchesTag(tags, r.offset, rowReadings[i].span);
      if rowReadings[i].span.end <= End(r) && !touches {
        words := words + [rowReadings[i]];
      }
    }
    assert rowReadings[..|rowReadings|] == rowReadings;
  }

  /** The loop over the rows with its cursor. */
  method ExportWords(index: seq<Indexed>, rows: seq<Row>, tags: seq<seq<Tag>>) returns (words: seq<seq<Indexed>>)
    requires Indexable(index) && Ascending(rows) && |tags| == |rows|
    ensures |words| == |rows| && forall i :: 0 <= i < |rows| ==> words[i] == Scan(index, rows[i], tags[i])
  {
    var cursor := 0;
    words := [];
    for k := 0 to |rows|
      invariant |words| == k && 0 <= cursor <= |index|
      invariant forall i :: 0 <= i < k ==> words[i] == Scan(index, rows[i], tags[i])
      invariant k > 0 ==> forall j :: 0 <= j < cursor ==> index[j].span.start < End(rows[k - 1])
      invariant k == 0 ==> cursor == 0
    {
      var r := rows[k];
      cursor := SkipTo(index, cursor, r.offset);
      var low := cursor;
      cursor := SkipTo(index, cursor, End(r));
      ScanWindow(index, low, cursor, r, tags[k]);
      hide Scan;
      var found := RowWords(index[low..cursor], r, tags[k]);
      words := words + [found];
    }
  }

  /** Moves the cursor past the readings that begin before `limit`. */
  method SkipTo(index: seq<Indexed>, from: nat, limit: int) returns (cursor: nat)
    requires from <= |index| && ByStart(index) && forall j :: 0 <= j < from ==> index[j].span.start < limit
    ensures from <= cursor <= |index|
    ensures forall j :: 0 <= j < cursor ==> index[j].span.start < limit
    ensures forall j :: cursor <= j < |index| ==> limit <= index[j].span.start
  {
    cursor := from;
    while cursor < |index| && index[cursor].span.start < limit
      invariant from <= cursor <= |index|
      invariant forall j :: 0 <= j < cursor ==> index[j].span.start < limit
    {
      cursor := cursor + 1;
    }
  }

  // ---- The rows of a source ----

  /** The rows of a text follow one another. */
  lemma {:induction false} RowsAscend(text: Text, offset: nat)
    requires offset <= |text|
    ensures Ascending(RowsFrom(text, offset))
    ensures forall i :: 0 <= i < |RowsFrom(text, offset)| ==>
              offset <= RowsFrom(text, offset)[i].offset && End(RowsFrom(text, offset)[i]) <= |text|
    decreases |text| - offset
  {
    RowsStep(text, offset);
    var rows := RowsFrom(text, offset);
    var next := NextOffset(text, RowEnd(text, offset));
    hide RowsFrom, RowEnd, NextOffset, RowEnds;
    if next <= |text| {
      RowsAscend(text, next);
      var rest := RowsFrom(text, next);
      assert forall i :: 0 < i < |rows| ==> rows[i] == rest[i - 1];
    }
  }

  predicate BlankText(text: Text, space: Space) {
    forall i :: 0 <= i < |text| ==> space(text[i])
  }

  /** The rows that are not blank. */
  function Nonempty(rows: seq<Row>, space: Space): seq<Row> {
    if rows == [] then [] else (if BlankText(rows[0].row, space) then [] else [rows[0]]) + Nonempty(rows[1..], space)
  }

  lemma {:induction false} NonemptyAscend(rows: seq<Row>, space: Space)
    requires Ascending(rows)
    ensures Ascending(Nonempty(rows, space)) && forall r :: r in Nonempty(rows, space) ==> r in rows
  {
    if rows != [] {
      NonemptyAscend(rows[1..], space);
      var rest := Nonempty(rows[1..], space);
      forall j | 0 <= j < |rest| ensures End(rows[0]) <= rest[j].offset {
        assert rest[j] in rest && rest[j] in rows[1..];
      }
    }
  }

  lemma {:induction false} ScanMembers(xs: seq<Indexed>, r: Row, tags: seq<Tag>, x: Indexed)
    ensures x in Scan(xs, r, tags) <==> x in xs && InRowClear(x, r, tags)
  {
    if xs != [] {
      ScanMembers(xs[..|xs| - 1], r, tags, x);
      assert xs == xs[..|xs| - 1] + [xs[|xs| - 1]];
    }
  }

  lemma {:induction false} ValidMembers(source: Text, readings: seq<Span>, k: nat, n: nat)
    requires k <= |readings| && n < |readings|
    ensures Indexed(readings[n], n) in Valids(source, readings, k) <==> n < k && ValidSpan(source, readings[n])
  {
    if k > 0 {
      ValidMembers(source, readings, k - 1, n);
    }
  }

  /** A tag has a character of the span, or is empty and stands inside it. */
  predicate Touches(tag: Tag, offset: nat, s: Span) {
    offset + tag.index < s.end && s.start < offset + tag.index + tag.length
  }

  /** Reading n of the input is a word of a row exactly when it is valid, inside the row and clear of its tags. */
  lemma WordsOfRow(source: Text, readings: seq<Span>, r: Row, tags: seq<Tag>, n: nat)
    requires n < |readings|
    ensures var x := Indexed(readings[n], n);
            x in Scan(SortByStart(Valids(source, readings, |readings|)), r, tags)
            <==>
            && 0 <= readings[n].start < readings[n].end <= |source| && readings[n].reading != []
            && r.offset <= readings[n].start && readings[n].end <= r.offset + |r.row|
            && !exists i :: 0 <= i < |tags| && Touches(tags[i], r.offset, readings[n])
  {
    var v := Valids(source, readings, |readings|);
    var x := Indexed(readings[n], n);
    ScanMembers(SortByStart(v), r, tags, x);
    InMultiset(x, SortByStart(v), v);
    ValidMembers(source, readings, |readings|, n);
  }

  // ---- The lines of the rows ----

  /** What a line shows. An infinite time is exported as none. */
  datatype Display = Display(text: Text, time: T.Time)

  datatype Word = Word(span: Span, surface: Text)

  datatype Line = Line(start: nat, end: nat, text: Text, time: T.Time, words: seq<Word>)

  /** What the parser of timed lyrics and the pattern of tags, both taken from elsewhere, find in a row. */
  datatype Parsing = Parsing(tags: Text -> seq<Tag>, lines: Text -> seq<Display>, space: Space)

  predicate WithinSource(xs: seq<Indexed>, source: Text) {
    forall i :: 0 <= i < |xs| ==> 0 <= xs[i].span.start <= xs[i].span.end <= |source|
  }

  /** The readings with the text they stand on. */
  function Worded(source: Text, xs: seq<Indexed>): seq<Word>
    requires WithinSource(xs, source)
  {
    seq(|xs|, i requires 0 <= i < |xs| => Word(xs[i].span, source[xs[i].span.start..xs[i].span.end]))
  }

  function RowLines(r: Row, display: seq<Display>, words: seq<Word>): seq<Line> {
    seq(|display|, i requires 0 <= i < |display| => Line(r.offset, End(r), display[i].text, display[i].time, words))
  }

  /** All rows of synced lyrics, the nonempty ones of plain lyrics. */
  function ExportRows(source: Text, plain: bool, space: Space): seq<Row> {
    if plain then Nonempty(RowsFrom(source, BomLength(source)), space) else RowsFrom(source, BomLength(source))
  }

  function TagsOf(r: Row, plain: bool, parsing: Parsing): seq<Tag> {
    if plain then [] else parsing.tags(r.row)
  }

  /** What row k shows: plain rows their trimmed text at an estimated time, synced ones what the parser finds. */
  function DisplayOf(rows: seq<Row>, k: nat, plain: bool, duration: T.Position, parsing: Parsing): seq<Display>
    requires k < |rows|
  {
    if plain then
      [Display(TrimEnd(TrimStart(rows[k].row, parsing.space), parsing.space), T.Estimated(|rows|, duration)[k])]
    else parsing.lines(rows[k].row)
  }

  function IndexOf(source: Text, readings: seq<Span>): seq<Indexed> {
    SortByStart(Valids(source, readings, |readings|))
  }

  lemma ScanWithin(source: Text, readings: seq<Span>, r: Row, tags: seq<Tag>)
    ensures WithinSource(Scan(IndexOf(source, readings), r, tags), source)
  {
    hide Scan, SortByStart, Valids, ValidSpan;
    var found := Scan(IndexOf(source, readings), r, tags);
    forall i | 0 <= i < |found| ensures 0 <= found[i].span.start <= found[i].span.end <= |source| {
      var n := ScanReading(source, readings, r, tags, i);
      ValidWithin(source, readings[n]);
    }
  }

  lemma ValidWithin(source: Text, s: Span)
    requires ValidSpan(source, s)
    ensures 0 <= s.start < s.end <= |source|
  {
  }

  /** What a scan finds is a valid reading of the input. */
  lemma ScanReading(source: Text, readings: seq<Span>, r: Row, tags: seq<Tag>, i: nat) returns (n: nat)
    requires i < |Scan(SortByStart(Valids(source, readings, |readings|)), r, tags)|
    ensures var x := Scan(SortByStart(Valids(source, readings, |readings|)), r, tags)[i];
            && n < |readings| && x == Indexed(readings[n], n) && ValidSpan(source, readings[n])
            && InRowClear(x, r, tags)
  {
    hide Scan, SortByStart, Valids, InRowClear, ValidSpan;
    var v := Valids(source, readings, |readings|);
    var x := Scan(SortByStart(v), r, tags)[i];
    ScanMembers(SortByStart(v), r, tags, x);
    InMultiset(x, SortByStart(v), v);
    ValidsFacts(source, readings, |readings|);
    var j :| 0 <= j < |v| && v[j] == x;
    n := x.order;
  }

  function WordsOf(source: Text, readings: seq<Span>, r: Row, tags: seq<Tag>): seq<Word> {
    ScanWithin(source, readings, r, tags);
    Worded(source, Scan(IndexOf(source, readings), r, tags))
  }

  /** The lines of the first k rows, in source order. */
  function LinesTo(source: Text, readings: seq<Span>, plain: bool, duration: T.Position, parsing: Parsing,
                   k: nat): seq<Line>
    requires k <= |ExportRows(source, plain, parsing.space)|
  {
    if k == 0 then []
    else
      var rows := ExportRows(source, plain, parsing.space);
      var r := rows[k - 1];
      LinesTo(source, readings, plain, duration, parsing, k - 1)
      + RowLines(r, DisplayOf(rows, k - 1, plain, duration, parsing),
                 WordsOf(source, readings, r, TagsOf(r, plain, parsing)))
  }

  // ---- Sorting by time ----

  function InsertByTime(x: Line, xs: seq<Line>): seq<Line> {
    if xs == [] || T.Before(x.time, xs[0].time) then [x] + xs else [xs[0]] + InsertByTime(x, xs[1..])
  }

  function SortByTime(xs: seq<Line>): seq<Line> {
    if xs == [] then [] else InsertByTime(xs[0], SortByTime(xs[1..]))
  }

  /** Lines without a time come last. */
  predicate ByTime(xs: seq<Line>) {
    forall i, j :: 0 <= i < j < |xs| ==> T.Before(xs[i].time, xs[j].time)
  }

  /** The lines of one time, in order. */
  function AtTime(xs: seq<Line>, time: T.Time): seq<Line> {
    if xs == [] then [] else (if xs[0].time == time then [xs[0]] else []) + AtTime(xs[1..], time)
  }

  lemma AtTimeFirst(x: Line, xs: seq<Line>, time: T.Time)
    ensures AtTime([x] + xs, time) == (if x.time == time then [x] else []) + AtTime(xs, time)
  {
    assert ([x] + xs)[1..] == xs;
  }

  lemma ByTimeFirst(x: Line, xs: seq<Line>)
    ensures ByTime([x] + xs) <==> ByTime(xs) && forall j :: 0 <= j < |xs| ==> T.Before(x.time, xs[j].time)
  {
    if ByTime([x] + xs) {
      forall i, j | 0 <= i < j < |xs| ensures T.Before(xs[i].time, xs[j].time) {
        assert ([x] + xs)[i + 1] == xs[i] && ([x] + xs)[j + 1] == xs[j];
      }
      forall j | 0 <= j < |xs| ensures T.Before(x.time, xs[j].time) {
        assert ([x] + xs)[0] == x && ([x] + xs)[j + 1] == xs[j];
      }
    }
  }

  lemma {:induction false} InsertByTimeSorts(x: Line, xs: seq<Line>)
    requires ByTime(xs)
    ensures ByTime(InsertByTime(x, xs))
    ensures forall j :: 0 <= j < |InsertByTime(x, xs)| ==> InsertByTime(x, xs)[j] == x || InsertByTime(x, xs)[j] in xs
  {
    hide ByTime;
    ByTimeFirst(x, xs);
    if xs != [] {
      assert xs == [xs[0]] + xs[1..];
      ByTimeFirst(xs[0], xs[1..]);
      if !T.Before(x.time, xs[0].time) {
        InsertByTimeSorts(x, xs[1..]);
        ByTimeFirst(xs[0], InsertByTime(x, xs[1..]));
      }
    }
  }

  lemma {:induction false} InsertByTimeStable(x: Line, xs: seq<Line>, time: T.Time)
    requires ByTime(xs)
    ensures AtTime(InsertByTime(x, xs), time) == (if x.time == time then [x] else []) + AtTime(xs, time)
  {
    hide ByTime;
    AtTimeFirst(x, xs, time);
    if xs != [] && !T.Before(x.time, xs[0].time) {
      assert xs == [xs[0]] + xs[1..];
      ByTimeFirst(xs[0], xs[1..]);
      InsertByTimeStable(x, xs[1..], time);
      AtTimeFirst(xs[0], xs[1..], time);
      AtTimeFirst(xs[0], InsertByTime(x, xs[1..]), time);
    }
  }

  /** The exported lines are sorted by time, and lines of one time stay in source order. */
  lemma {:induction false} SortedByTime(xs: seq<Line>, time: T.Time)
    ensures ByTime(SortByTime(xs)) && AtTime(SortByTime(xs), time) == AtTime(xs, time)
  {
    hide ByTime, InsertByTime;
    if xs == [] {
      NoLines();
    } else {
      SortedByTime(xs[1..], time);
      InsertByTimeSorts(xs[0], SortByTime(xs[1..]));
      InsertByTimeStable(xs[0], SortByTime(xs[1..]), time);
    }
  }

  lemma NoLines()
    ensures ByTime([])
  {
  }

  lemma {:induction false} AtTimeMembers(xs: seq<Line>, x: Line)
    ensures x in AtTime(xs, x.time) <==> x in xs
  {
    if xs != [] {
      AtTimeMembers(xs[1..], x);
      assert xs == [xs[0]] + xs[1..];
    }
  }

  lemma EarliestFirst(a: seq<Line>, b: seq<Line>)
    requires ByTime(a) && ByTime(b) && a != [] && a[0] in b
    ensures T.Before(b[0].time, a[0].time)
  {
    var j :| 0 <= j < |b| && b[j] == a[0];
  }

  /** That is all a sort promises: it determines the list. */
  lemma {:induction false} SortUnique(a: seq<Line>, b: seq<Line>)
    requires ByTime(a) && ByTime(b) && forall time :: AtTime(a, time) == AtTime(b, time)
    ensures a == b
    decreases |a|
  {
    NoneOrSome(a, b);
    NoneOrSome(b, a);
    if a != [] {
      FirstsEqual(a, b);
      assert a == [a[0]] + a[1..] && b == [b[0]] + b[1..];
      forall time ensures AtTime(a[1..], time) == AtTime(b[1..], time) {
        assert AtTime(a, time) == AtTime(b, time);
        AtTimeRest(a, time);
        AtTimeRest(b, time);
      }
      SortUnique(a[1..], b[1..]);
    }
  }

  lemma NoneOrSome(a: seq<Line>, b: seq<Line>)
    requires forall time :: AtTime(a, time) == AtTime(b, time)
    ensures a != [] ==> b != []
  {
    if a != [] {
      assert AtTime(a, a[0].time) == AtTime(b, a[0].time);
    }
  }

  lemma AtTimeRest(xs: seq<Line>, time: T.Time)
    requires xs != []
    ensures AtTime(xs[1..], time) == if xs[0].time == time then AtTime(xs, time)[1..] else AtTime(xs, time)
    ensures xs[0].time == time ==> AtTime(xs, time) != [] && AtTime(xs, time)[0] == xs[0]
  {
  }

  lemma FirstsEqual(a: seq<Line>, b: seq<Line>)
    requires ByTime(a) && ByTime(b) && a != [] && b != []
    requires forall time :: AtTime(a, time) == AtTime(b, time)
    ensures a[0] == b[0]
  {
    hide ByTime, AtTime;
    var (s, t) := (a[0].time, b[0].time);
    assert AtTime(a, s) == AtTime(b, s) && AtTime(a, t) == AtTime(b, t);
    AtTimeMembers(a, a[0]);
    AtTimeMembers(b, a[0]);
    AtTimeMembers(b, b[0]);
    AtTimeMembers(a, b[0]);
    EarliestFirst(a, b);
    EarliestFirst(b, a);
    AtTimeRest(a, s);
    AtTimeRest(b, t);
  }

  // ---- The whole export ----

  /** The exported lines: row by row the displayed lines with the row's words, sorted by time. */
  method ExportLines(source: Text, readings: seq<Span>, plain: bool, duration: T.Position, parsing: Parsing)
    returns (lines: seq<Line>)
    ensures lines == SortByTime(LinesTo(source, readings, plain, duration, parsing,
                                        |ExportRows(source, plain, parsing.space)|))
  {
    hide *;
    var index := IndexReadings(source, readings);
    IndexIsIndexable(source, readings);
    var rows := SourceRows(source);
    BomFits(source);
    RowsAscend(source, BomLength(source));
    if plain {
      NonemptyAscend(rows, parsing.space);
      rows := Nonempty(rows, parsing.space);
    }
    ExportRowsAre(source, plain, parsing.space);
    var tags: seq<seq<Tag>> := seq(|rows|, i requires 0 <= i < |rows| => TagsOf(rows[i], plain, parsing));
    var found := ExportWords(index, rows, tags);
    IndexIs(source, readings);
    lines := [];
    LinesNone(source, readings, plain, duration, parsing);
    for k := 0 to |rows|
      invariant lines == LinesTo(source, readings, plain, duration, parsing, k)
    {
      hide *;
      LinesStep(source, readings, plain, duration, parsing, k);
      var words := Worded(source, found[k]);
      lines := lines + RowLines(rows[k], DisplayOf(rows, k, plain, duration, parsing), words);
    }
    lines := SortByTime(lines);
  }

  lemma ExportRowsAre(source: Text, plain: bool, space: Space)
    ensures ExportRows(source, plain, space)
            == if plain then Nonempty(RowsFrom(source, BomLength(source)), space)
               else RowsFrom(source, BomLength(source))
  {
  }

  lemma IndexIs(source: Text, readings: seq<Span>)
    ensures IndexOf(source, readings) == SortByStart(Valids(source, readings, |readings|))
  {
    hide SortByStart, Valids;
  }

  lemma LinesNone(source: Text, readings: seq<Span>, plain: bool, duration: T.Position, parsing: Parsing)
    ensures LinesTo(source, readings, plain, duration, parsing, 0) == []
  {
  }

  lemma LinesStep(source: Text, readings: seq<Span>, plain: bool, duration: T.Position, parsing: Parsing, k: nat)
    requires k < |ExportRows(source, plain, parsing.space)|
    ensures var rows := ExportRows(source, plain, parsing.space);
            var found := Scan(IndexOf(source, readings), rows[k], TagsOf(rows[k], plain, parsing));
            && WithinSource(found, source)
            && LinesTo(source, readings, plain, duration, parsing, k + 1)
               == LinesTo(source, readings, plain, duration, parsing, k)
                  + RowLines(rows[k], DisplayOf(rows, k, plain, duration, parsing), Worded(source, found))
  {
    hide ExportRows, IndexOf, Scan, TagsOf, DisplayOf, RowLines, Worded, WithinSource;
    var r := ExportRows(source, plain, parsing.space)[k];
    ScanWithin(source, readings, r, TagsOf(r, plain, parsing));
  }

  /** Every exported line is one that its row shows, with the row's place and the row's words. */
  lemma {:induction false} LineOfRow(source: Text, readings: seq<Span>, plain: bool, duration: T.Position,
                                     parsing: Parsing, k: nat, x: Line) returns (g: nat, i: nat)
    requires k <= |ExportRows(source, plain, parsing.space)|
    requires x in SortByTime(LinesTo(source, readings, plain, duration, parsing, k))
    ensures var rows := ExportRows(source, plain, parsing.space);
            && g < k && i < |DisplayOf(rows, g, plain, duration, parsing)|
            && var (r, shown) := (rows[g], DisplayOf(rows, g, plain, duration, parsing)[i]);
               x == Line(r.offset, End(r), shown.text, shown.time,
                         WordsOf(source, readings, r, TagsOf(r, plain, parsing)))
  {
    hide *;
    var all := LinesTo(source, readings, plain, duration, parsing, k);
    SortedByTime(all, x.time);
    AtTimeMembers(all, x);
    AtTimeMembers(SortByTime(all), x);
    g, i := LineOfRowTo(source, readings, plain, duration, parsing, k, x);
  }

  lemma {:induction false} LineOfRowTo(source: Text, readings: seq<Span>, plain: bool, duration: T.Position,
                                       parsing: Parsing, k: nat, x: Line) returns (g: nat, i: nat)
    requires k <= |ExportRows(source, plain, parsing.space)|
    requires x in LinesTo(source, readings, plain, duration, parsing, k)
    ensures var rows := ExportRows(source, plain, parsing.space);
            && g < k && i < |DisplayOf(rows, g, plain, duration, parsing)|
            && var (r, shown) := (rows[g], DisplayOf(rows, g, plain, duration, parsing)[i]);
               x == Line(r.offset, End(r), shown.text, shown.time,
                         WordsOf(source, readings, r, TagsOf(r, plain, parsing)))
  {
    hide ExportRows, IndexOf, Scan, TagsOf, DisplayOf, Worded, WithinSource, WordsOf;
    g, i := 0, 0;
    var rows := ExportRows(source, plain, parsing.space);
    if x in LinesTo(source, readings, plain, duration, parsing, k - 1) {
      g, i := LineOfRowTo(source, readings, plain, duration, parsing, k - 1, x);
    } else {
      g := k - 1;
      var own := RowLines(rows[g], DisplayOf(rows, g, plain, duration, parsing),
                          WordsOf(source, readings, rows[g], TagsOf(rows[g], plain, parsing)));
      assert x in own;
      i :| 0 <= i < |own| && own[i] == x;
    }
  }

  /** Every word of a line is a valid reading inside the line's row and clear of its tags, with the source text it
      stands on; and every such reading is a word of it. */
  lemma WordsAreReadings(source: Text, readings: seq<Span>, r: Row, tags: seq<Tag>, w: Word)
    ensures w in WordsOf(source, readings, r, tags)
            <==> exists n :: 0 <= n < |readings| && IsWord(source, readings[n], r, tags, w)
  {
    hide Scan, IsWord;
    IndexIs(source, readings);
    ScanWithin(source, readings, r, tags);
    var found := Scan(IndexOf(source, readings), r, tags);
    if w in WordsOf(source, readings, r, tags) {
      var i := WordAt(source, found, w);
      var n := ScanReading(source, readings, r, tags, i);
      WordIs(source, readings[n], r, tags, w);
    }
    forall n | 0 <= n < |readings| && IsWord(source, readings[n], r, tags, w)
      ensures w in WordsOf(source, readings, r, tags)
    {
      WordIs(source, readings[n], r, tags, w);
      WordsOfRow(source, readings, r, tags, n);
      var i :| 0 <= i < |found| && found[i] == Indexed(readings[n], n);
      assert Worded(source, found)[i] == w;
    }
  }

  predicate IsWord(source: Text, s: Span, r: Row, tags: seq<Tag>, w: Word) {
    && 0 <= s.start < s.end <= |source| && s.reading != [] && r.offset <= s.start && s.end <= r.offset + |r.row|
    && (!exists i :: 0 <= i < |tags| && Touches(tags[i], r.offset, s))
    && w == Word(s, source[s.start..s.end])
  }

  lemma WordIs(source: Text, s: Span, r: Row, tags: seq<Tag>, w: Word)
    ensures IsWord(source, s, r, tags, w)
            <==>
            && 0 <= s.start < s.end <= |source| && s.reading != [] && r.offset <= s.start && s.end <= r.offset + |r.row|
            && (!exists i :: 0 <= i < |tags| && Touches(tags[i], r.offset, s))
            && w == Word(s, source[s.start..s.end])
  {
  }

  lemma WordAt(source: Text, xs: seq<Indexed>, w: Word) returns (i: nat)
    requires WithinSource(xs, source) && w in Worded(source, xs)
    ensures i < |xs| && w == Word(xs[i].span, source[xs[i].span.start..xs[i].span.end])
  {
    i :| 0 <= i < |xs| && Worded(source, xs)[i] == w;
  }
}
