/** Lyric rows and their reading spans (lyrics.js): rows are exact slices of the source, spans are found by
    binary search, and the words of a row, put together, are the row without its tags. */
module LyricSpans {
  // Texts are UTF-16 code units. White space and the tags of a row, found by a regular expression, are
  // parameters; so is the order-preserving sort of the library, by what it promises.

  type Text = seq<int>

  const LF := 10
  const CR := 13
  const BOM := 0xFEFF

  // ---- Rows ----

  datatype Row = Row(row: Text, offset: nat)

  /** The first line feed at or after `from`, or the length. */
  function FindLf(text: Text, from: nat): (i: nat)
    requires from <= |text|
    ensures from <= i <= |text| && (i < |text| ==> text[i] == LF) && forall j :: from <= j < i ==> text[j] != LF
    decreases |text| - from
  {
    if from == |text| || text[from] == LF then from else FindLf(text, from + 1)
  }

  function RowEnd(text: Text, offset: nat): (e: nat)
    requires offset <= |text|
    ensures offset <= e <= |text|
  {
    var i := FindLf(text, offset);
    if i < |text| && i > offset && text[i - 1] == CR then i - 1 else i
  }

  /** The rows of the text from `offset` on, cut at every CR LF or LF, where they stand. */
  function RowsFrom(text: Text, offset: nat): (rows: seq<Row>)
    requires offset <= |text|
    ensures rows != [] && rows[0].offset == offset
    decreases |text| - offset
  {
    var i := FindLf(text, offset);
    [Row(text[offset..RowEnd(text, offset)], offset)] + if i < |text| then RowsFrom(text, i + 1) else []
  }

  function Lines(rows: seq<Row>): (lines: seq<Text>)
    ensures |lines| == |rows|
  {
    seq(|rows|, i requires 0 <= i < |rows| => rows[i].row)
  }

  function BomLength(text: Text): nat {
    if text != [] && text[0] == BOM then 1 else 0
  }

  /** The split of the text after its byte order mark: rows without their positions. */
  function Split(text: Text): seq<Text> {
    Lines(RowsFrom(text, BomLength(text)))
  }

  /** Where the map over the rows finds the next row. */
  function NextOffset(text: Text, end: nat): nat {
    end + if end < |text| && text[end] == CR then 2 else 1
  }

  /** A row ends at the end of the text, or at a separator, LF or CR LF, after which the next row begins. */
  predicate RowEnds(text: Text, row: Text, end: nat, next: nat) {
    || (end == |text| && next > |text|)
    || (end < |text| && text[end] == 10 && next == end + 1 && (row == [] || row[|row| - 1] != 13))
    || (end + 1 < |text| && text[end] == 13 && text[end + 1] == 10 && next == end + 2)
  }

  lemma EndIsEnd(text: Text, offset: nat)
    requires offset <= |text|
    ensures var (i, e) := (FindLf(text, offset), RowEnd(text, offset));
            && NextOffset(text, e) == i + 1 > e && RowEnds(text, text[offset..e], e, i + 1) && 10 !in text[offset..e]
  {
    var (i, e) := (FindLf(text, offset), RowEnd(text, offset));
    assert forall j :: offset <= j < i ==> text[j] != LF;
    if e == i && i < |text| && i > offset {
      assert text[offset..e][|text[offset..e]| - 1] == text[i - 1];
    }
    hide FindLf;
  }

  lemma RowsUnfold(text: Text, offset: nat)
    requires offset <= |text|
    ensures var i := FindLf(text, offset);
            RowsFrom(text, offset)
            == [Row(text[offset..RowEnd(text, offset)], offset)] + if i < |text| then RowsFrom(text, i + 1) else []
  {
    hide FindLf, RowEnd;
  }

  lemma RestFits(text: Text, offset: nat)
    requires offset <= |text|
    ensures offset <= FindLf(text, offset) <= |text| && offset <= RowEnd(text, offset) <= |text|
  {
  }

  lemma ConsTail<T>(x: T, rest: seq<T>)
    ensures ([x] + rest)[0] == x && ([x] + rest)[1..] == rest && [x] + rest != []
  {
  }

  lemma RowsStep(text: Text, offset: nat)
    requires offset <= |text|
    ensures var rows := RowsFrom(text, offset);
            var end := RowEnd(text, offset);
            var next := NextOffset(text, end);
            && end < next && rows[0] == Row(text[offset..end], offset) && |rows[0].row| == end - offset
            && 10 !in rows[0].row
            && rows == [rows[0]] + (if next <= |text| then RowsFrom(text, next) else [])
            && rows[1..] == (if next <= |text| then RowsFrom(text, next) else [])
            && RowEnds(text, rows[0].row, end, next)
  {
    hide *;
    EndIsEnd(text, offset);
    RowsUnfold(text, offset);
    RestFits(text, offset);
    ConsTail(Row(text[offset..RowEnd(text, offset)], offset),
             if FindLf(text, offset) < |text| then RowsFrom(text, FindLf(text, offset) + 1) else []);
  }

  /** A pass of the map over the lines. */
  lemma RowPass(text: Text, lines: seq<Text>, i: nat, rest: seq<Row>, rows: seq<Row>, offset: nat)
    requires i < |lines| == i + |rest| && lines[i..] == Lines(rest) && rest == Rest(text, offset)
    ensures lines[i + 1..] == Lines(rest[1..]) && rest[1..] == Rest(text, NextOffset(text, offset + |lines[i]|))
    ensures rows + rest == rows + [Row(lines[i], offset)] + rest[1..]
  {
    hide *;
    RestIs(text, offset);
    RowsStep(text, offset);
    RestIs(text, NextOffset(text, RowEnd(text, offset)));
    LinesStep(lines, i, rest);
  }

  method SourceRows(text: Text) returns (rows: seq<Row>)
    ensures rows == RowsFrom(text, BomLength(text))
  {
    hide *;
    BomFits(text);
    var offset: nat := BomLength(text);
    var lines := Split(text);
    rows := [];
    ghost var rest := RowsFrom(text, offset);
    for i := 0 to |lines|
      invariant i + |rest| == |lines| && lines[i..] == Lines(rest)
      invariant rows + rest == RowsFrom(text, BomLength(text))
      invariant rest == Rest(text, offset)
    {
      hide *;
      RowPass(text, lines, i, rest, rows, offset);
      rows := rows + [Row(lines[i], offset)];
      rest := rest[1..];
      offset := NextOffset(text, offset + |lines[i]|);
    }
  }

  lemma BomFits(text: Text)
    ensures BomLength(text) <= |text|
    ensures Split(text) == Lines(RowsFrom(text, BomLength(text)))
    ensures Rest(text, BomLength(text)) == RowsFrom(text, BomLength(text))
  {
  }

  lemma RestIs(text: Text, offset: nat)
    ensures Rest(text, offset) == if offset <= |text| then RowsFrom(text, offset) else []
  {
  }

  function Rest(text: Text, offset: nat): seq<Row> {
    if offset <= |text| then RowsFrom(text, offset) else []
  }

  lemma LinesStep(lines: seq<Text>, i: nat, rest: seq<Row>)
    requires i < |lines| && lines[i..] == Lines(rest) && rest != []
    ensures lines[i] == rest[0].row && lines[i + 1..] == Lines(rest[1..])
  {
    assert lines[i] == lines[i..][0];
    assert lines[i + 1..] == lines[i..][1..];
  }

  /** Each row is the slice at its offset, without line feeds, and ends at one separator before the next row. */
  lemma {:induction false} RowAt(text: Text, offset: nat, i: nat)
    requires offset <= |text| && i < |RowsFrom(text, offset)|
    ensures var rows := RowsFrom(text, offset);
            var r := rows[i];
            var end := r.offset + |r.row|;
            && offset <= r.offset && end <= |text| && r.row == text[r.offset..end] && 10 !in r.row
            && RowEnds(text, r.row, end, if i + 1 < |rows| then rows[i + 1].offset else |text| + 1)
    decreases i
  {
    hide *;
    RowsStep(text, offset);
    var next := NextOffset(text, RowEnd(text, offset));
    if i > 0 {
      RowAt(text, next, i - 1);
    } else if next > |text| {
      RowEndsMore(text, RowsFrom(text, offset)[0].row, RowEnd(text, offset), next);
    }
  }

  lemma RowEndsMore(text: Text, row: Text, end: nat, next: nat)
    requires RowEnds(text, row, end, next) && next > |text|
    ensures RowEnds(text, row, end, |text| + 1)
  {
  }

  /** What stands between the end of a row and the next one. */
  function Between(text: Text, r: Row, next: nat): Text {
    if r.offset + |r.row| <= next <= |text| then text[r.offset + |r.row|..next] else []
  }

  /** The rows with what stands between them. */
  function Joined(text: Text, rows: seq<Row>): Text
    decreases |rows|
  {
    if rows == [] then []
    else if |rows| == 1 then rows[0].row
    else rows[0].row + Between(text, rows[0], rows[1].offset) + Joined(text, rows[1..])
  }

  /** The rows and their separators rebuild the text after its byte order mark. */
  lemma {:induction false} RowsRebuild(text: Text, offset: nat)
    requires offset <= |text|
    ensures Joined(text, RowsFrom(text, offset)) == text[offset..]
    decreases |text| - offset
  {
    hide *;
    RowsStep(text, offset);
    var (end, rows) := (RowEnd(text, offset), RowsFrom(text, offset));
    var next := NextOffset(text, end);
    JoinStep(text, rows);
    if next <= |text| {
      RowsRebuild(text, next);
      TextParts(text, offset, end, next);
    } else {
      AtEnd(text, text[offset..end], end, next);
    }
  }

  /** So the rows rebuild a whole text, but for a byte order mark at its start. */
  lemma TextRebuilt(text: Text)
    ensures BomLength(text) <= |text|
    ensures Joined(text, RowsFrom(text, BomLength(text))) == if text != [] && text[0] == 0xFEFF then text[1..] else text
  {
    RowsRebuild(text, BomLength(text));
    hide RowsFrom, Joined;
  }

  lemma AtEnd(text: Text, row: Text, end: nat, next: nat)
    requires RowEnds(text, row, end, next) && next > |text|
    ensures end == |text|
  {
  }

  lemma TextParts(text: Text, offset: nat, end: nat, next: nat)
    requires offset <= end <= next <= |text|
    ensures text[offset..end] + text[end..next] + text[next..] == text[offset..]
  {
  }

  lemma JoinStep(text: Text, rows: seq<Row>)
    requires rows != []
    ensures |rows| == 1 ==> Joined(text, rows) == rows[0].row
    ensures |rows| > 1 && rows[0].offset + |rows[0].row| <= rows[1].offset <= |text| ==>
              Joined(text, rows) == rows[0].row + text[rows[0].offset + |rows[0].row|..rows[1].offset]
                + Joined(text, rows[1..])
  {
  }

  lemma SeparatorIs(text: Text, r: Row, next: nat)
    requires RowEnds(text, r.row, r.offset + |r.row|, next) && next <= |text|
    ensures Between(text, r, next) == [10] || Between(text, r, next) == [13, 10]
  {
  }

  /** A separator is LF or CR LF. */
  lemma Separators(text: Text, offset: nat, i: nat)
    requires offset <= |text| && i + 1 < |RowsFrom(text, offset)|
    ensures var rows := RowsFrom(text, offset);
            Between(text, rows[i], rows[i + 1].offset) == [10] || Between(text, rows[i], rows[i + 1].offset) == [13, 10]
  {
    hide *;
    RowAt(text, offset, i);
    RowAt(text, offset, i + 1);
    SeparatorIs(text, RowsFrom(text, offset)[i], RowsFrom(text, offset)[i + 1].offset);
  }
}
