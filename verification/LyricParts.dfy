/** The parts of a lyric row (lyrics.js, rowParts): the row without its time tags, cut into plain pieces and words
    with readings, and trimmed for display without moving a span. */
module LyricParts {
  import opened Wrappers
  import opened LyricSpans
  import opened LyricReadings

  datatype Part = Part(text: Text, reading: Option<Text>, dictionary: Option<int>)

  /** A tag the regular expression found: matches are ordered and do not overlap. */
  datatype Tag = Tag(index: nat, length: nat)

  predicate TagsFrom(tags: seq<Tag>, cursor: nat, size: nat) {
    if tags == [] then cursor <= size
    else cursor <= tags[0].index && TagsFrom(tags[1..], tags[0].index + tags[0].length, size)
  }

  type Space = int -> bool

  // ---- The retained ranges ----

  datatype Range = Range(start: nat, end: nat)

  function RangesFrom(tags: seq<Tag>, cursor: nat, size: nat): seq<Range>
    requires TagsFrom(tags, cursor, size)
  {
    if tags == [] then [Range(cursor, size)]
    else [Range(cursor, tags[0].index)] + RangesFrom(tags[1..], tags[0].index + tags[0].length, size)
  }

  predicate InRow(ranges: seq<Range>, size: nat) {
    forall i :: 0 <= i < |ranges| ==> ranges[i].start <= ranges[i].end <= size
  }

  lemma {:induction false} TagsFit(tags: seq<Tag>, cursor: nat, size: nat)
    requires TagsFrom(tags, cursor, size)
    ensures cursor <= size
    decreases |tags|
  {
    if tags != [] {
      TagsFit(tags[1..], tags[0].index + tags[0].length, size);
    }
  }

  lemma {:induction false} RangesInRow(tags: seq<Tag>, cursor: nat, size: nat)
    requires TagsFrom(tags, cursor, size)
    ensures InRow(RangesFrom(tags, cursor, size), size)
    decreases |tags|
  {
    if tags != [] {
      TagsFit(tags[1..], tags[0].index + tags[0].length, size);
      RangesInRow(tags[1..], tags[0].index + tags[0].length, size);
    }
  }

  /** The text of the first n ranges; of all of them, the row without its tags. */
  function Untagged(row: Text, ranges: seq<Range>, n: nat): Text
    requires InRow(ranges, |row|) && n <= |ranges|
  {
    if n == 0 then [] else Untagged(row, ranges, n - 1) + row[ranges[n - 1].start..ranges[n - 1].end]
  }

  // ---- The parts of one range ----

  predicate SpansIn(spans: seq<Indexed>, offset: nat, start: nat, end: nat) {
    forall i :: 0 <= i < |spans| ==>
      Inside(spans[i], offset + start, offset + end) && spans[i].span.start < spans[i].span.end
  }

  function Plain(text: Text): Part {
    Part(text, None, None)
  }

  /** The word of a span. */
  function Ruby(row: Text, offset: nat, s: Span): Part
    requires offset <= s.start <= s.end <= offset + |row|
  {
    Part(row[s.start - offset..s.end - offset], Some(s.reading), s.dictionary)
  }

  /** The parts from `position` on: spans that begin before the last word's end are passed over. */
  function PartsFrom(row: Text, offset: nat, spans: seq<Indexed>, position: nat, end: nat): seq<Part>
    requires position <= end <= |row| && SpansIn(spans, offset, 0, end)
    decreases |spans|
  {
    if spans == [] then (if position < end then [Plain(row[position..end])] else [])
    else
      var s := spans[0].span;
      if s.start < offset + position then PartsFrom(row, offset, spans[1..], position, end)
      else
        (if s.start - offset > position then [Plain(row[position..s.start - offset])] else [])
        + [Ruby(row, offset, s)] + PartsFrom(row, offset, spans[1..], s.end - offset, end)
  }

  function Concat(parts: seq<Part>): Text {
    if parts == [] then [] else parts[0].text + Concat(parts[1..])
  }

  lemma {:induction false} ConcatJoin(a: seq<Part>, b: seq<Part>)
    ensures Concat(a + b) == Concat(a) + Concat(b)
    decreases |a|
  {
    if a == [] {
      assert a + b == b;
    } else {
      assert (a + b)[1..] == a[1..] + b;
      ConcatJoin(a[1..], b);
    }
  }

  lemma ConcatOne(p: Part)
    ensures Concat([p]) == p.text
  {
    assert [p][1..] == [];
  }

  lemma ConcatThree(a: seq<Part>, b: Part, rest: seq<Part>)
    ensures Concat(a + [b] + rest) == Concat(a) + b.text + Concat(rest)
  {
    ConcatJoin(a + [b], rest);
    ConcatJoin(a, [b]);
    ConcatOne(b);
  }

  function Before(row: Text, position: nat, left: nat): (r: seq<Part>)
    requires position <= left <= |row|
    ensures Concat(r) == row[position..left] && Rubies(r) == []
  {
    if left > position then
      ConcatOne(Plain(row[position..left]));
      [Plain(row[position..left])]
    else []
  }

  lemma Slices(row: Text, a: nat, b: nat, c: nat, d: nat)
    requires a <= b <= c <= d <= |row|
    ensures row[a..b] + row[b..c] + row[c..d] == row[a..d]
  {
  }

  lemma PartsStep(row: Text, offset: nat, spans: seq<Indexed>, position: nat, end: nat)
    requires position <= end <= |row| && SpansIn(spans, offset, 0, end) && spans != []
    ensures SpansIn(spans[1..], offset, 0, end)
    ensures var s := spans[0].span;
            && offset <= s.start < s.end <= offset + end
            && PartsFrom(row, offset, spans, position, end) ==
                 if s.start < offset + position then PartsFrom(row, offset, spans[1..], position, end)
                 else Before(row, position, s.start - offset) + [Ruby(row, offset, s)]
                      + PartsFrom(row, offset, spans[1..], s.end - offset, end)
  {
  }

  lemma LastPart(row: Text, offset: nat, position: nat, end: nat)
    requires position <= end <= |row|
    ensures SpansIn([], offset, 0, end)
    ensures PartsFrom(row, offset, [], position, end) == if position < end then [Plain(row[position..end])] else []
    ensures PartsFrom(row, offset, [], position, end) == Before(row, position, end)
  {
  }

  /** The parts of a range are the range. */
  lemma {:induction false} PartsAreRange(row: Text, offset: nat, spans: seq<Indexed>, position: nat, end: nat)
    requires position <= end <= |row| && SpansIn(spans, offset, 0, end)
    ensures Concat(PartsFrom(row, offset, spans, position, end)) == row[position..end]
    decreases |spans|
  {
    hide *;
    if spans == [] {
      LastPart(row, offset, position, end);
    } else {
      PartsStep(row, offset, spans, position, end);
      var s := spans[0].span;
      if s.start < offset + position {
        PartsAreRange(row, offset, spans[1..], position, end);
      } else {
        var (left, right) := (s.start - offset, s.end - offset);
        PartsAreRange(row, offset, spans[1..], right, end);
        ConcatThree(Before(row, position, left), Ruby(row, offset, s), PartsFrom(row, offset, spans[1..], right, end));
        Slices(row, position, left, right, end);
        RubyText(row, offset, s);
      }
    }
  }

  lemma RubyText(row: Text, offset: nat, s: Span)
    requires offset <= s.start <= s.end <= offset + |row|
    ensures Ruby(row, offset, s).text == row[s.start - offset..s.end - offset]
  {
  }

  /** The spans that become words. */
  function Used(offset: nat, spans: seq<Indexed>, position: nat): seq<Indexed>
    decreases |spans|
  {
    if spans == [] then []
    else if spans[0].span.start < offset + position || spans[0].span.end < offset
         then Used(offset, spans[1..], position)
    else [spans[0]] + Used(offset, spans[1..], spans[0].span.end - offset)
  }

  function Rubies(parts: seq<Part>): seq<Part> {
    if parts == [] then [] else if parts[0].reading.Some? then [parts[0]] + Rubies(parts[1..]) else Rubies(parts[1..])
  }

  lemma {:induction false} RubiesJoin(a: seq<Part>, b: seq<Part>)
    ensures Rubies(a + b) == Rubies(a) + Rubies(b)
    decreases |a|
  {
    if a == [] {
      assert a + b == b;
    } else {
      assert (a + b)[0] == a[0] && (a + b)[1..] == a[1..] + b;
      RubiesJoin(a[1..], b);
    }
  }

  function RubyAll(row: Text, offset: nat, used: seq<Indexed>): seq<Part>
    requires SpansIn(used, offset, 0, |row|)
  {
    if used == [] then [] else [Ruby(row, offset, used[0].span)] + RubyAll(row, offset, used[1..])
  }

  /** The used spans are spans of the range that follow one another without overlap. */
  lemma {:induction false} UsedFollow(offset: nat, spans: seq<Indexed>, position: nat, end: nat)
    requires SpansIn(spans, offset, 0, end)
    ensures var used := Used(offset, spans, position);
            && SpansIn(used, offset, position, end)
            && (forall i :: 0 <= i < |used| ==> used[i] in spans)
            && (forall i, j :: 0 <= i < j < |used| ==> used[i].span.end <= used[j].span.start)
    decreases |spans|
  {
    if spans != [] {
      var s := spans[0].span;
      if s.start < offset + position {
        UsedFollow(offset, spans[1..], position, end);
      } else {
        UsedFollow(offset, spans[1..], s.end - offset, end);
        assert Used(offset, spans, position) == [spans[0]] + Used(offset, spans[1..], s.end - offset);
      }
    }
  }

  lemma RubiesThree(a: seq<Part>, b: Part, rest: seq<Part>)
    requires b.reading.Some?
    ensures Rubies(a + [b] + rest) == Rubies(a) + [b] + Rubies(rest)
  {
    RubiesJoin(a + [b], rest);
    RubiesJoin(a, [b]);
    assert Rubies([b]) == [b];
  }

  /** The words of a range are those of the used spans, in order. */
  lemma {:induction false} WordsAreUsed(row: Text, offset: nat, spans: seq<Indexed>, position: nat, end: nat)
    requires position <= end <= |row| && SpansIn(spans, offset, 0, end)
    ensures SpansIn(Used(offset, spans, position), offset, 0, |row|)
    ensures Rubies(PartsFrom(row, offset, spans, position, end)) == RubyAll(row, offset, Used(offset, spans, position))
    decreases |spans|
  {
    UsedFollow(offset, spans, position, end);
    assert SpansIn(Used(offset, spans, position), offset, 0, |row|);
    if spans != [] {
      hide PartsFrom, Before, SpansIn, Rubies;
      PartsStep(row, offset, spans, position, end);
      var s := spans[0].span;
      if s.start < offset + position {
        WordsAreUsed(row, offset, spans[1..], position, end);
      } else {
        var (left, right) := (s.start - offset, s.end - offset);
        WordsAreUsed(row, offset, spans[1..], right, end);
        RubiesThree(Before(row, position, left), Ruby(row, offset, s), PartsFrom(row, offset, spans[1..], right, end));
        assert Used(offset, spans, position) == [spans[0]] + Used(offset, spans[1..], right);
        assert Used(offset, spans, position)[1..] == Used(offset, spans[1..], right);
      }
    }
  }

  // ---- All parts of a row ----

  /** What the lookup finds for a range of the row. */
  function SpansOf(index: seq<Indexed>, offset: nat, r: Range): (spans: seq<Indexed>)
    requires Indexable(index)
    ensures SpansIn(spans, offset, r.start, r.end) && SpansIn(spans, offset, 0, r.end)
  {
    FoundIn(index, offset, r.start, r.end);
    SortByOrder(Filter(index, offset + r.start, offset + r.end))
  }

  function RangeParts(row: Text, offset: nat, index: seq<Indexed>, r: Range): seq<Part>
    requires r.start <= r.end <= |row| && Indexable(index)
  {
    PartsFrom(row, offset, SpansOf(index, offset, r), r.start, r.end)
  }

  /** The parts of the first n ranges. */
  function AllParts(row: Text, offset: nat, index: seq<Indexed>, ranges: seq<Range>, n: nat): seq<Part>
    requires n <= |ranges| && InRow(ranges, |row|) && Indexable(index)
  {
    if n == 0 then [] else AllParts(row, offset, index, ranges, n - 1) + RangeParts(row, offset, index, ranges[n - 1])
  }

  /** The lookup gives spans of the range. */
  lemma FoundIn(index: seq<Indexed>, offset: nat, start: nat, end: nat)
    requires Indexable(index)
    ensures SpansIn(SortByOrder(Filter(index, offset + start, offset + end)), offset, start, end)
    ensures SpansIn(SortByOrder(Filter(index, offset + start, offset + end)), offset, 0, end)
  {
    var found := Filter(index, offset + start, offset + end);
    var sorted := SortByOrder(found);
    FilterMembers(index, offset + start, offset + end);
    forall i | 0 <= i < |sorted| ensures Inside(sorted[i], offset + start, offset + end) && sorted[i] in index {
      InMultiset(sorted[i], sorted, found);
    }
  }

  lemma {:induction false} FilterMembers(xs: seq<Indexed>, start: int, end: int)
    ensures forall x :: x in Filter(xs, start, end) ==> x in xs && Inside(x, start, end)
  {
    if xs != [] {
      FilterMembers(xs[..|xs| - 1], start, end);
    }
  }

  lemma RangePartsText(row: Text, offset: nat, index: seq<Indexed>, r: Range)
    requires r.start <= r.end <= |row| && Indexable(index)
    ensures Concat(RangeParts(row, offset, index, r)) == row[r.start..r.end]
  {
    hide Concat, PartsFrom, SpansOf, SpansIn, Indexable;
    PartsAreRange(row, offset, SpansOf(index, offset, r), r.start, r.end);
  }

  lemma NoParts(row: Text, offset: nat, index: seq<Indexed>, ranges: seq<Range>)
    requires InRow(ranges, |row|) && Indexable(index)
    ensures Concat(AllParts(row, offset, index, ranges, 0)) == Untagged(row, ranges, 0)
  {
  }

  lemma AllPartsStep(row: Text, offset: nat, index: seq<Indexed>, ranges: seq<Range>, n: nat)
    requires 0 < n <= |ranges| && InRow(ranges, |row|) && Indexable(index)
    ensures ranges[n - 1].start <= ranges[n - 1].end <= |row|
    ensures AllParts(row, offset, index, ranges, n)
            == AllParts(row, offset, index, ranges, n - 1) + RangeParts(row, offset, index, ranges[n - 1])
    ensures Untagged(row, ranges, n) == Untagged(row, ranges, n - 1) + row[ranges[n - 1].start..ranges[n - 1].end]
  {
    hide RangeParts, Indexable;
  }

  /** Together the parts are the row without its tags. */
  lemma {:induction false} AllPartsText(row: Text, offset: nat, index: seq<Indexed>, ranges: seq<Range>, n: nat)
    requires n <= |ranges| && InRow(ranges, |row|) && Indexable(index)
    ensures Concat(AllParts(row, offset, index, ranges, n)) == Untagged(row, ranges, n)
  {
    hide *;
    if n == 0 {
      NoParts(row, offset, index, ranges);
    } else {
      AllPartsStep(row, offset, index, ranges, n);
      AllPartsText(row, offset, index, ranges, n - 1);
      RangePartsText(row, offset, index, ranges[n - 1]);
      ConcatJoin(AllParts(row, offset, index, ranges, n - 1), RangeParts(row, offset, index, ranges[n - 1]));
    }
  }

  // ---- Trimming for display ----

  function TrimStart(text: Text, space: Space): Text {
    if text != [] && space(text[0]) then TrimStart(text[1..], space) else text
  }

  function TrimEnd(text: Text, space: Space): Text {
    if text != [] && space(text[|text| - 1]) then TrimEnd(text[..|text| - 1], space) else text
  }

  function DropLeading(parts: seq<Part>, space: Space): seq<Part> {
    if parts == [] then []
    else
      var text := TrimStart(parts[0].text, space);
      if text != [] then [parts[0].(text := text)] + parts[1..] else DropLeading(parts[1..], space)
  }

  function DropTrailing(parts: seq<Part>, space: Space): seq<Part> {
    if parts == [] then []
    else
      var last := parts[|parts| - 1];
      var text := TrimEnd(last.text, space);
      if text != [] then parts[..|parts| - 1] + [last.(text := text)] else DropTrailing(parts[..|parts| - 1], space)
  }

  lemma {:induction false} TrimStartJoin(a: Text, b: Text, space: Space)
    ensures TrimStart(a + b, space) == if TrimStart(a, space) != [] then TrimStart(a, space) + b
                                       else TrimStart(b, space)
    decreases |a|
  {
    if a == [] {
      assert a + b == b;
    } else if space(a[0]) {
      assert (a + b)[1..] == a[1..] + b;
      TrimStartJoin(a[1..], b, space);
    }
  }

  lemma {:induction false} TrimEndJoin(a: Text, b: Text, space: Space)
    ensures TrimEnd(a + b, space) == if TrimEnd(b, space) != [] then a + TrimEnd(b, space) else TrimEnd(a, space)
    decreases |b|
  {
    if b == [] {
      assert a + b == a;
    } else if space(b[|b| - 1]) {
      assert (a + b)[..|a + b| - 1] == a + b[..|b| - 1];
      TrimEndJoin(a, b[..|b| - 1], space);
    }
  }

  lemma {:induction false} DropLeadingText(parts: seq<Part>, space: Space)
    ensures Concat(DropLeading(parts, space)) == TrimStart(Concat(parts), space)
    decreases |parts|
  {
    if parts != [] {
      TrimStartJoin(parts[0].text, Concat(parts[1..]), space);
      var text := TrimStart(parts[0].text, space);
      if text == [] {
        DropLeadingText(parts[1..], space);
      } else {
        assert ([parts[0].(text := text)] + parts[1..])[1..] == parts[1..];
      }
    }
  }

  lemma {:induction false} DropTrailingText(parts: seq<Part>, space: Space)
    ensures Concat(DropTrailing(parts, space)) == TrimEnd(Concat(parts), space)
    decreases |parts|
  {
    if parts != [] {
      var (rest, last) := (parts[..|parts| - 1], parts[|parts| - 1]);
      assert parts == rest + [last];
      ConcatJoin(rest, [last]);
      ConcatOne(last);
      TrimEndJoin(Concat(rest), last.text, space);
      var text := TrimEnd(last.text, space);
      if text == [] {
        DropTrailingText(rest, space);
      } else {
        ConcatJoin(rest, [last.(text := text)]);
        ConcatOne(last.(text := text));
      }
    }
  }

  /** How many parts at the start are blank. */
  function Blank(parts: seq<Part>, space: Space): (k: nat)
    ensures k <= |parts|
  {
    if parts == [] || TrimStart(parts[0].text, space) != [] then 0 else 1 + Blank(parts[1..], space)
  }

  lemma {:induction false} DropLeadingShape(parts: seq<Part>, space: Space, i: nat)
    requires i < |DropLeading(parts, space)|
    ensures var (k, out) := (Blank(parts, space), DropLeading(parts, space));
            |out| == |parts| - k && out[i] == if i == 0 then parts[k].(text := TrimStart(parts[k].text, space))
                                              else parts[k + i]
    decreases |parts|
  {
    if TrimStart(parts[0].text, space) == [] {
      DropLeadingShape(parts[1..], space, i);
    }
  }

  lemma {:induction false} DropTrailingShape(parts: seq<Part>, space: Space, i: nat)
    requires i < |DropTrailing(parts, space)|
    ensures var out := DropTrailing(parts, space);
            |out| <= |parts| && out[i] == if i == |out| - 1 then parts[i].(text := TrimEnd(parts[i].text, space))
                                          else parts[i]
    decreases |parts|
  {
    if TrimEnd(parts[|parts| - 1].text, space) == [] {
      DropTrailingShape(parts[..|parts| - 1], space, i);
    }
  }

  /** The parts of a row as they are shown. */
  function Shown(row: Text, offset: nat, index: seq<Indexed>, tags: seq<Tag>, space: Space): seq<Part>
    requires Indexable(index) && TagsFrom(tags, 0, |row|)
  {
    RangesInRow(tags, 0, |row|);
    var ranges := RangesFrom(tags, 0, |row|);
    DropTrailing(DropLeading(AllParts(row, offset, index, ranges, |ranges|), space), space)
  }

  // ---- The method ----

  method RowParts(row: Text, offset: nat, index: seq<Indexed>, tags: seq<Tag>, space: Space) returns (parts: seq<Part>)
    requires Indexable(index) && TagsFrom(tags, 0, |row|)
    ensures parts == Shown(row, offset, index, tags, space)
  {
    RangesInRow(tags, 0, |row|);
    var ranges := RetainedRanges(tags, |row|);
    hide RangeParts, RangesFrom, Indexable, TagsFrom;
    parts := [];
    for n := 0 to |ranges|
      invariant parts == AllParts(row, offset, index, ranges, n)
    {
      var more := PartsOfRange(row, offset, index, ranges[n]);
      parts := parts + more;
    }
    parts := TrimParts(parts, space);
  }

  method RetainedRanges(tags: seq<Tag>, size: nat) returns (ranges: seq<Range>)
    requires TagsFrom(tags, 0, size)
    ensures ranges == RangesFrom(tags, 0, size)
  {
    ranges := [];
    var cursor: nat := 0;
    for i := 0 to |tags|
      invariant TagsFrom(tags[i..], cursor, size)
      invariant ranges + RangesFrom(tags[i..], cursor, size) == RangesFrom(tags, 0, size)
    {
      assert tags[i..][1..] == tags[i + 1..];
      ranges := ranges + [Range(cursor, tags[i].index)];
      cursor := tags[i].index + tags[i].length;
    }
    ranges := ranges + [Range(cursor, size)];
  }

  method PartsOfRange(row: Text, offset: nat, index: seq<Indexed>, range: Range) returns (parts: seq<Part>)
    requires range.start <= range.end <= |row| && Indexable(index)
    ensures parts == RangeParts(row, offset, index, range)
  {
    hide *;
    var spans := RangeReadings(index, offset + range.start, offset + range.end);
    SpansFound(row, offset, index, range, spans);
    parts := [];
    var position := range.start;
    ghost var rest := PartsFrom(row, offset, spans, position, range.end);
    for i := 0 to |spans|
      invariant range.start <= position <= range.end && SpansIn(spans[i..], offset, 0, range.end)
      invariant rest == PartsFrom(row, offset, spans[i..], position, range.end)
      invariant parts + rest == RangeParts(row, offset, index, range)
    {
      assert spans[i..][0] == spans[i] && spans[i..][1..] == spans[i + 1..];
      PartsStep(row, offset, spans[i..], position, range.end);
      var span := spans[i].span;
      if span.start >= offset + position {
        var left, right := span.start - offset, span.end - offset;
        BeforeIs(row, position, left);
        var before := if left > position then [Plain(row[position..left])] else [];
        rest := PartsFrom(row, offset, spans[i + 1..], right, range.end);
        JoinParts(parts, before, Ruby(row, offset, span), rest);
        parts := parts + before + [Ruby(row, offset, span)];
        position := right;
      }
    }
    LastPart(row, offset, position, range.end);
    assert spans[|spans|..] == [];
    if position < range.end {
      parts := parts + [Plain(row[position..range.end])];
    }
  }

  lemma SpansFound(row: Text, offset: nat, index: seq<Indexed>, r: Range, spans: seq<Indexed>)
    requires r.start <= r.end <= |row| && Indexable(index)
    requires spans == SortByOrder(Filter(index, offset + r.start, offset + r.end))
    ensures spans[0..] == spans && SpansIn(spans, offset, 0, r.end)
    ensures RangeParts(row, offset, index, r) == [] + PartsFrom(row, offset, spans, r.start, r.end)
  {
    hide PartsFrom, SortByOrder, Filter, Indexable;
    assert spans == SpansOf(index, offset, r);
  }

  lemma JoinParts(done: seq<Part>, a: seq<Part>, b: Part, rest: seq<Part>)
    ensures done + (a + [b] + rest) == done + a + [b] + rest
  {
  }

  lemma BeforeIs(row: Text, position: nat, left: nat)
    requires position <= left <= |row|
    ensures Before(row, position, left) == if left > position then [Plain(row[position..left])] else []
  {
  }

  method TrimParts(source: seq<Part>, space: Space) returns (parts: seq<Part>)
    ensures parts == DropTrailing(DropLeading(source, space), space)
  {
    parts := source;
    while parts != []
      invariant DropLeading(parts, space) == DropLeading(source, space)
      decreases |parts|
    {
      var text := TrimStart(parts[0].text, space);
      if text != [] {
        parts := [parts[0].(text := text)] + parts[1..];
        break;
      }
      parts := parts[1..];
    }
    ghost var middle := parts;
    while parts != []
      invariant DropTrailing(parts, space) == DropTrailing(middle, space)
      decreases |parts|
    {
      var last := parts[|parts| - 1];
      var text := TrimEnd(last.text, space);
      if text != [] {
        parts := parts[..|parts| - 1] + [last.(text := text)];
        break;
      }
      parts := parts[..|parts| - 1];
    }
  }

  /** The text of the parts is the row without its tags, trimmed, whatever the spans. */
  lemma PartsKeepText(row: Text, offset: nat, index: seq<Indexed>, tags: seq<Tag>, space: Space)
    requires Indexable(index) && TagsFrom(tags, 0, |row|)
    ensures InRow(RangesFrom(tags, 0, |row|), |row|)
    ensures var ranges := RangesFrom(tags, 0, |row|);
            Concat(Shown(row, offset, index, tags, space))
              == TrimEnd(TrimStart(Untagged(row, ranges, |ranges|), space), space)
  {
    RangesInRow(tags, 0, |row|);
    var ranges := RangesFrom(tags, 0, |row|);
    AllPartsText(row, offset, index, ranges, |ranges|);
    DropLeadingText(AllParts(row, offset, index, ranges, |ranges|), space);
    DropTrailingText(DropLeading(AllParts(row, offset, index, ranges, |ranges|), space), space);
  }

  /** The spans that become words in the first n ranges. */
  function UsedIn(offset: nat, index: seq<Indexed>, ranges: seq<Range>, n: nat): seq<Indexed>
    requires n <= |ranges| && Indexable(index)
  {
    if n == 0 then []
    else UsedIn(offset, index, ranges, n - 1) + Used(offset, SpansOf(index, offset, ranges[n - 1]), ranges[n - 1].start)
  }

  /** Before trimming, the words of a row are those of the used spans of its ranges, each of them and in order. */
  lemma {:induction false} AllWordsAreUsed(row: Text, offset: nat, index: seq<Indexed>, ranges: seq<Range>, n: nat)
    requires n <= |ranges| && InRow(ranges, |row|) && Indexable(index)
    ensures SpansIn(UsedIn(offset, index, ranges, n), offset, 0, |row|)
    ensures Rubies(AllParts(row, offset, index, ranges, n)) == RubyAll(row, offset, UsedIn(offset, index, ranges, n))
  {
    hide *;
    NoWordsYet(row, offset, index, ranges);
    if n > 0 {
      var r := ranges[n - 1];
      AllPartsStep(row, offset, index, ranges, n);
      AllWordsAreUsed(row, offset, index, ranges, n - 1);
      UsedInStep(row, offset, index, ranges, n);
      WordsAreUsed(row, offset, SpansOf(index, offset, r), r.start, r.end);
      RubiesJoin(AllParts(row, offset, index, ranges, n - 1), RangeParts(row, offset, index, r));
      RubyAllJoin(row, offset, UsedIn(offset, index, ranges, n - 1), Used(offset, SpansOf(index, offset, r), r.start));
    }
  }

  lemma NoWordsYet(row: Text, offset: nat, index: seq<Indexed>, ranges: seq<Range>)
    requires InRow(ranges, |row|) && Indexable(index)
    ensures UsedIn(offset, index, ranges, 0) == [] && SpansIn([], offset, 0, |row|) && RubyAll(row, offset, []) == []
    ensures Rubies(AllParts(row, offset, index, ranges, 0)) == []
  {
  }

  lemma UsedInStep(row: Text, offset: nat, index: seq<Indexed>, ranges: seq<Range>, n: nat)
    requires 0 < n <= |ranges| && InRow(ranges, |row|) && Indexable(index)
    ensures var r := ranges[n - 1];
            && r.start <= r.end <= |row| && SpansIn(SpansOf(index, offset, r), offset, 0, r.end)
            && UsedIn(offset, index, ranges, n)
                 == UsedIn(offset, index, ranges, n - 1) + Used(offset, SpansOf(index, offset, r), r.start)
            && RangeParts(row, offset, index, r) == PartsFrom(row, offset, SpansOf(index, offset, r), r.start, r.end)
  {
    hide Used, PartsFrom, SpansIn, Indexable, SpansOf;
  }

  lemma SpansInJoin(a: seq<Indexed>, b: seq<Indexed>, offset: nat, end: nat)
    requires SpansIn(a, offset, 0, end) && SpansIn(b, offset, 0, end)
    ensures SpansIn(a + b, offset, 0, end)
    ensures a != [] ==> SpansIn(a[1..], offset, 0, end)
  {
  }

  lemma RubyAllStep(row: Text, offset: nat, used: seq<Indexed>)
    requires SpansIn(used, offset, 0, |row|) && used != []
    ensures SpansIn(used[1..], offset, 0, |row|) && offset <= used[0].span.start <= used[0].span.end <= offset + |row|
    ensures RubyAll(row, offset, used) == [Ruby(row, offset, used[0].span)] + RubyAll(row, offset, used[1..])
  {
  }

  lemma RubyAllNone(row: Text, offset: nat)
    ensures SpansIn([], offset, 0, |row|) && RubyAll(row, offset, []) == []
  {
  }

  lemma {:induction false} RubyAllJoin(row: Text, offset: nat, a: seq<Indexed>, b: seq<Indexed>)
    requires SpansIn(a, offset, 0, |row|) && SpansIn(b, offset, 0, |row|)
    ensures SpansIn(a + b, offset, 0, |row|)
    ensures RubyAll(row, offset, a + b) == RubyAll(row, offset, a) + RubyAll(row, offset, b)
    decreases |a|
  {
    hide *;
    SpansInJoin(a, b, offset, |row|);
    if a == [] {
      RubyAllNone(row, offset);
      assert a + b == b;
    } else {
      assert (a + b)[0] == a[0] && (a + b)[1..] == a[1..] + b;
      RubyAllStep(row, offset, a);
      RubyAllStep(row, offset, a + b);
      RubyAllJoin(row, offset, a[1..], b);
    }
  }

  // ---- Every word shown is a reading of the source ----

  lemma {:induction false} RubyOfSpan(row: Text, offset: nat, spans: seq<Indexed>, position: nat, end: nat, j: nat)
    returns (i: nat)
    requires position <= end <= |row| && SpansIn(spans, offset, 0, end)
    requires j < |PartsFrom(row, offset, spans, position, end)|
    requires PartsFrom(row, offset, spans, position, end)[j].reading.Some?
    ensures i < |spans| && offset <= spans[i].span.start <= spans[i].span.end <= offset + |row|
    ensures PartsFrom(row, offset, spans, position, end)[j] == Ruby(row, offset, spans[i].span)
    decreases |spans|
  {
    hide *;
    i := 0;
    if spans == [] {
      LastPart(row, offset, position, end);
      PlainBefore(row, position, end);
      assert false;
    } else {
      PartsStep(row, offset, spans, position, end);
      var s := spans[0].span;
      if s.start < offset + position {
        i := RubyOfSpan(row, offset, spans[1..], position, end, j);
        i := i + 1;
      } else {
        var before := Before(row, position, s.start - offset);
        PlainBefore(row, position, s.start - offset);
        if j > |before| {
          i := RubyOfSpan(row, offset, spans[1..], s.end - offset, end, j - |before| - 1);
          i := i + 1;
        }
      }
    }
  }

  lemma PlainBefore(row: Text, position: nat, left: nat)
    requires position <= left <= |row|
    ensures forall j :: 0 <= j < |Before(row, position, left)| ==> Before(row, position, left)[j].reading.None?
  {
  }

  lemma RubyOfRange(row: Text, offset: nat, index: seq<Indexed>, r: Range, j: nat) returns (x: Indexed)
    requires r.start <= r.end <= |row| && Indexable(index)
    requires j < |RangeParts(row, offset, index, r)| && RangeParts(row, offset, index, r)[j].reading.Some?
    ensures x in index && offset + r.start <= x.span.start <= x.span.end <= offset + r.end
    ensures RangeParts(row, offset, index, r)[j] == Ruby(row, offset, x.span)
  {
    var spans := SpansOf(index, offset, r);
    hide PartsFrom;
    var i := RubyOfSpan(row, offset, spans, r.start, r.end, j);
    x := spans[i];
    FilterMembers(index, offset + r.start, offset + r.end);
    InMultiset(x, spans, Filter(index, offset + r.start, offset + r.end));
    hide Filter, SortByOrder;
    assert x in spans;
  }

  lemma NoPartsYet(row: Text, offset: nat, index: seq<Indexed>, ranges: seq<Range>)
    requires InRow(ranges, |row|) && Indexable(index)
    ensures AllParts(row, offset, index, ranges, 0) == []
  {
  }

  lemma {:induction false} RubyOfAll(row: Text, offset: nat, index: seq<Indexed>, ranges: seq<Range>, n: nat, j: nat)
    returns (x: Indexed, g: nat)
    requires 0 < n <= |ranges| && InRow(ranges, |row|) && Indexable(index)
    requires j < |AllParts(row, offset, index, ranges, n)| && AllParts(row, offset, index, ranges, n)[j].reading.Some?
    ensures x in index && g < n
    ensures offset + ranges[g].start <= x.span.start <= x.span.end <= offset + ranges[g].end <= offset + |row|
    ensures AllParts(row, offset, index, ranges, n)[j] == Ruby(row, offset, x.span)
  {
    hide *;
    NoPartsYet(row, offset, index, ranges);
    AllPartsStep(row, offset, index, ranges, n);
    var before := AllParts(row, offset, index, ranges, n - 1);
    if j < |before| {
      x, g := RubyOfAll(row, offset, index, ranges, n - 1, j);
    } else {
      g := n - 1;
      x := RubyOfRange(row, offset, index, ranges[g], j - |before|);
    }
  }

  function Index(source: Text, readings: seq<Span>): (index: seq<Indexed>)
    ensures Indexable(index)
  {
    IndexIsIndexable(source, readings);
    SortByStart(Valids(source, readings, |readings|))
  }

  lemma IndexSorted(source: Text, readings: seq<Span>)
    ensures Indexable(SortByStart(Valids(source, readings, |readings|)))
    ensures forall x :: x in SortByStart(Valids(source, readings, |readings|)) ==>
              x.order < |readings| && x.span == readings[x.order] && ValidSpan(source, x.span)
  {
    var v := Valids(source, readings, |readings|);
    IndexIsIndexable(source, readings);
    ValidsFacts(source, readings, |readings|);
    var index := SortByStart(v);
    forall x | x in index ensures x.order < |readings| && x.span == readings[x.order] && ValidSpan(source, x.span) {
      InMultiset(x, index, v);
      var i :| 0 <= i < |v| && v[i] == x;
    }
    hide SortByStart, Valids, Indexable;
  }

  function RowOf(source: Text, i: nat): Row
    requires i < |RowsFrom(source, BomLength(source))|
  {
    RowsFrom(source, BomLength(source))[i]
  }

  /** What trimming has done to the text of the part at k of n. */
  function TrimmedAt(text: Text, k: nat, n: nat, space: Space): Text {
    var started := if k == 0 then TrimStart(text, space) else text;
    if k == n - 1 then TrimEnd(started, space) else started
  }

  /** Every word of a shown row is the source text of one valid reading that lies wholly inside one retained range of
      the row, with that reading; only the first and the last part of the row are trimmed. */
  lemma WordsAreReadings(source: Text, readings: seq<Span>, i: nat, tags: seq<Tag>, space: Space, k: nat)
    returns (m: nat, g: nat)
    requires i < |RowsFrom(source, BomLength(source))| && TagsFrom(tags, 0, |RowOf(source, i).row|)
    requires var r := RowOf(source, i);
             k < |Shown(r.row, r.offset, Index(source, readings), tags, space)|
             && Shown(r.row, r.offset, Index(source, readings), tags, space)[k].reading.Some?
    ensures var r := RowOf(source, i);
            var (parts, ranges) :=
              (Shown(r.row, r.offset, Index(source, readings), tags, space), RangesFrom(tags, 0, |r.row|));
            && m < |readings| && g < |ranges|
            && 0 <= readings[m].start < readings[m].end <= |source| && readings[m].reading != []
            && r.offset + ranges[g].start <= readings[m].start <= readings[m].end <= r.offset + ranges[g].end
            && parts[k].reading == Some(readings[m].reading) && parts[k].dictionary == readings[m].dictionary
            && parts[k].text == TrimmedAt(source[readings[m].start..readings[m].end], k, |parts|, space)
  {
    hide *;
    var r, index := RowOf(source, i), Index(source, readings);
    var ranges := RangesFrom(tags, 0, |r.row|);
    RangesInRow(tags, 0, |r.row|);
    SomeRange(tags, 0, |r.row|);
    RowOfIs(source, i);
    IndexSorted(source, readings);
    IndexIs(source, readings);
    ShownIs(r.row, r.offset, index, tags, space);
    var all := AllParts(r.row, r.offset, index, ranges, |ranges|);
    ShownAt(all, space, k);
    var x;
    x, g := RubyOfAll(r.row, r.offset, index, ranges, |ranges|, Blank(all, space) + k);
    m := x.order;
    RubyIsSource(source, r, x.span);
    ValidIs(source, x.span);
  }

  lemma ValidIs(source: Text, s: Span)
    ensures ValidSpan(source, s) <==> 0 <= s.start < s.end <= |source| && s.reading != []
  {
  }

  lemma RowOfIs(source: Text, i: nat)
    requires i < |RowsFrom(source, BomLength(source))|
    ensures var r := RowOf(source, i); r.offset + |r.row| <= |source| && r.row == source[r.offset..r.offset + |r.row|]
  {
    RowAt(source, BomLength(source), i);
    hide RowsFrom;
  }

  lemma SomeRange(tags: seq<Tag>, cursor: nat, size: nat)
    requires TagsFrom(tags, cursor, size)
    ensures RangesFrom(tags, cursor, size) != []
  {
  }

  lemma IndexIs(source: Text, readings: seq<Span>)
    ensures Index(source, readings) == SortByStart(Valids(source, readings, |readings|))
  {
    hide SortByStart, Valids;
  }

  lemma ShownIs(row: Text, offset: nat, index: seq<Indexed>, tags: seq<Tag>, space: Space)
    requires Indexable(index) && TagsFrom(tags, 0, |row|)
    ensures InRow(RangesFrom(tags, 0, |row|), |row|)
    ensures var ranges := RangesFrom(tags, 0, |row|);
            Shown(row, offset, index, tags, space)
              == DropTrailing(DropLeading(AllParts(row, offset, index, ranges, |ranges|), space), space)
  {
    RangesInRow(tags, 0, |row|);
    hide DropTrailing, DropLeading, AllParts, RangesFrom, Indexable, TagsFrom;
  }

  /** Trimming only drops blank parts at both ends and trims the outermost ones left. */
  lemma ShownAt(parts: seq<Part>, space: Space, k: nat)
    requires k < |DropTrailing(DropLeading(parts, space), space)|
    ensures var (out, from) := (DropTrailing(DropLeading(parts, space), space), Blank(parts, space) + k);
            && from < |parts| && out[k] == parts[from].(text := TrimmedAt(parts[from].text, k, |out|, space))
  {
    hide DropLeading, DropTrailing, TrimStart, TrimEnd, Blank;
    DropTrailingShape(DropLeading(parts, space), space, k);
    DropLeadingShape(parts, space, k);
  }

  /** A word of a row is the source text of its span, when the row is the slice of the source at its offset. */
  lemma RubyIsSource(source: Text, r: Row, s: Span)
    requires r.offset + |r.row| <= |source| && r.row == source[r.offset..r.offset + |r.row|]
    requires r.offset <= s.start <= s.end <= r.offset + |r.row|
    ensures Ruby(r.row, r.offset, s) == Part(source[s.start..s.end], Some(s.reading), s.dictionary)
  {
  }
}
