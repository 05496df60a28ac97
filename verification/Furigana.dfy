/** Word readings of a lyric source (furigana.rs, readings): UTF-16 offsets are accumulated from token to token,
    and dictionary meanings are attached until a byte budget is used up. */
module Furigana {
  // A source is a sequence of Unicode scalar values. The tokenizer's tokens, their dictionary details and the
  // size of a serialized meaning are parameters; tokens come in source order, at character boundaries.

  import opened Wrappers

  type Chars = seq<int>

  const MEANING_BUDGET: nat := 128 * 1024

  /** The cast `as u32`. */
  function AsU32(n: nat): nat {
    n % 0x1_0000_0000
  }

  // ---- Encodings ----

  function Width8(c: int): nat {
    if c < 0x80 then 1 else if c < 0x800 then 2 else if c < 0x1_0000 then 3 else 4
  }

  function Bytes(s: Chars): nat {
    if s == [] then 0 else Width8(s[0]) + Bytes(s[1..])
  }

  function Units(c: int): (r: seq<int>)
    ensures |r| == if c < 0x1_0000 then 1 else 2
  {
    if c < 0x1_0000 then [c] else [0xD800 + (c - 0x1_0000) / 0x400, 0xDC00 + (c - 0x1_0000) % 0x400]
  }

  /** The UTF-16 code units. */
  function Utf16(s: Chars): seq<int> {
    if s == [] then [] else Units(s[0]) + Utf16(s[1..])
  }

  /** `encode_utf16().count()`. */
  function Count16(s: Chars): (n: nat)
    ensures n == |Utf16(s)|
  {
    if s == [] then 0 else (if s[0] < 0x1_0000 then 1 else 2) + Count16(s[1..])
  }

  lemma {:induction false} Utf16Join(a: Chars, b: Chars)
    ensures Utf16(a + b) == Utf16(a) + Utf16(b) && Bytes(a + b) == Bytes(a) + Bytes(b)
    decreases |a|
  {
    if a == [] {
      assert a + b == b;
    } else {
      assert (a + b)[1..] == a[1..] + b;
      Utf16Join(a[1..], b);
    }
  }

  /** The units of a scalar value decode to it: one unit below 2^16, else a high and a low surrogate. */
  lemma UnitsDecode(c: int)
    requires 0 <= c < 0x11_0000
    ensures var u := Units(c);
            if c < 65_536 then u == [c]
            else
              && |u| == 2 && 0xD800 <= u[0] < 0xDC00 <= u[1] < 0xE000
              && (u[0] - 0xD800) * 1024 + (u[1] - 0xDC00) + 65_536 == c
  {
  }

  /** A scalar value takes the fewest bytes of UTF-8 that hold its bits: 7, 11, 16 or 21. */
  lemma WidthBits(c: int)
    requires 0 <= c < 0x11_0000
    ensures 1 <= Width8(c) <= 4
    ensures (Width8(c) == 1 <==> c < 128) && (Width8(c) <= 2 <==> c < 2048) && (Width8(c) <= 3 <==> c < 65_536)
  {
  }

  // ---- Byte offsets ----

  /** The byte offset of a character. */
  function ByteAt(s: Chars, i: nat): nat
    requires i <= |s|
  {
    Bytes(s[..i])
  }

  predicate Boundary(s: Chars, byte: nat) {
    exists i :: 0 <= i <= |s| && ByteAt(s, i) == byte
  }

  /** The character at a byte offset that is a boundary. */
  ghost function CharAt(s: Chars, byte: nat): (i: nat)
    requires Boundary(s, byte)
    ensures i <= |s| && ByteAt(s, i) == byte
  {
    var i: nat :| i <= |s| && ByteAt(s, i) == byte;
    i
  }

  lemma BytesGrow(s: Chars, i: nat, j: nat)
    requires i < j <= |s|
    ensures ByteAt(s, i) + (j - i) <= ByteAt(s, j)
  {
    BytesStep(s, j - 1);
    if i + 1 < j {
      BytesGrow(s, i, j - 1);
    }
  }

  lemma BytesStep(s: Chars, i: nat)
    requires i < |s|
    ensures ByteAt(s, i + 1) == ByteAt(s, i) + Width8(s[i])
  {
    assert s[..i + 1] == s[..i] + [s[i]];
    Utf16Join(s[..i], [s[i]]);
    assert [s[i]][1..] == [];
  }

  /** Boundaries are ordered as the characters they stand for. */
  lemma CharOrder(s: Chars, a: nat, b: nat)
    requires Boundary(s, a) && Boundary(s, b) && a <= b
    ensures CharAt(s, a) <= CharAt(s, b)
  {
    if CharAt(s, b) < CharAt(s, a) {
      BytesGrow(s, CharAt(s, b), CharAt(s, a));
    }
  }

  /** The slice of the source between two byte offsets. */
  ghost function Slice(s: Chars, a: nat, b: nat): Chars
    requires Boundary(s, a) && Boundary(s, b) && a <= b
  {
    CharOrder(s, a, b);
    s[CharAt(s, a)..CharAt(s, b)]
  }

  /** UTF-16 units before a byte offset. */
  ghost function Offset16(s: Chars, byte: nat): nat
    requires Boundary(s, byte)
  {
    Count16(s[..CharAt(s, byte)])
  }

  /** One step of the accumulation. */
  lemma Accumulate(s: Chars, a: nat, b: nat)
    requires Boundary(s, a) && Boundary(s, b) && a <= b
    ensures Offset16(s, b) == Offset16(s, a) + Count16(Slice(s, a, b))
  {
    CharOrder(s, a, b);
    var (i, j) := (CharAt(s, a), CharAt(s, b));
    assert s[..j] == s[..i] + s[i..j];
    Utf16Join(s[..i], s[i..j]);
  }

  /** The units between the offsets of two boundaries are those of the slice between them. */
  lemma UnitsOfSlice(s: Chars, a: nat, b: nat)
    requires Boundary(s, a) && Boundary(s, b) && a <= b
    ensures Offset16(s, a) <= Offset16(s, b) <= |Utf16(s)|
    ensures Utf16(s)[Offset16(s, a)..Offset16(s, b)] == Utf16(Slice(s, a, b))
  {
    Accumulate(s, a, b);
    CharOrder(s, a, b);
    hide Boundary, Utf16, CharAt;
    UnitsOfChars(s, CharAt(s, a), CharAt(s, b));
  }

  lemma UnitsOfChars(s: Chars, i: nat, j: nat)
    requires i <= j <= |s|
    ensures Count16(s[..i]) + Count16(s[i..j]) <= |Utf16(s)|
    ensures Utf16(s)[Count16(s[..i])..Count16(s[..i]) + Count16(s[i..j])] == Utf16(s[i..j])
  {
    assert s == s[..i] + (s[i..j] + s[j..]);
    hide *;
    Utf16Join(s[..i], s[i..j] + s[j..]);
    Utf16Join(s[i..j], s[j..]);
    MidSlice(Utf16(s[..i]), Utf16(s[i..j]), Utf16(s[j..]));
  }

  lemma MidSlice(a: seq<int>, b: seq<int>, c: seq<int>)
    ensures |a + (b + c)| >= |a| + |b| && (a + (b + c))[|a|..|a| + |b|] == b
  {
  }

  // ---- Which tokens become readings ----

  predicate IsKanji(c: int) {
    0x3400 <= c <= 0x4dbf || 0x4e00 <= c <= 0x9fff || 0xf900 <= c <= 0xfaff || 0x2_0000 <= c <= 0x2_ffff
    || 0x3_0000 <= c <= 0x3_23af || c == 0x3005
  }

  predicate ContainsKanji(s: Chars) {
    exists i :: 0 <= i < |s| && IsKanji(s[i])
  }

  predicate IsKana(c: int) {
    0x30a1 <= c <= 0x30f6 || 0x3041 <= c <= 0x3096 || c == 0x30fc || c == 0x30fb || c == 0x3099 || c == 0x309a
  }

  function ToHiragana(c: int): int {
    if 0x30a1 <= c <= 0x30f6 then c - 0x60 else c
  }

  function Hiragana(s: Chars): (r: Option<Chars>)
    ensures r.Some? <==> s != [] && forall i :: 0 <= i < |s| ==> IsKana(s[i])
  {
    if s == [] || exists i :: 0 <= i < |s| && !IsKana(s[i]) then None
    else Some(seq(|s|, i requires 0 <= i < |s| => ToHiragana(s[i])))
  }

  /** The conversion leaves kana without katakana letters, and is stable. */
  lemma HiraganaStable(s: Chars)
    requires Hiragana(s).Some?
    ensures var r := Hiragana(s).value;
            && |r| == |s| && Hiragana(r) == Some(r) && forall i :: 0 <= i < |r| ==> !(0x30a1 <= r[i] <= 0x30f6)
  {
    var r := Hiragana(s).value;
    assert forall i :: 0 <= i < |r| ==> IsKana(s[i]) && IsKana(r[i]) && ToHiragana(r[i]) == r[i];
    assert Hiragana(r).Some?;
    assert Hiragana(r).value == r;
  }

  /** A token with its reading detail, and its dictionary entry with the size of its serialized form. */
  datatype Token = Token(start: nat, end: nat, unknown: bool, detail: Option<Chars>, dictionary: int, size: nat)

  datatype Reading = Reading(start: nat, end: nat, reading: Chars, dictionary: Option<int>)

  ghost predicate InOrder(s: Chars, tokens: seq<Token>) {
    && (forall i :: 0 <= i < |tokens| ==>
          Boundary(s, tokens[i].start) && Boundary(s, tokens[i].end) && tokens[i].start <= tokens[i].end &&
            tokens[i].size > 0)
    && (forall i, j :: 0 <= i < j < |tokens| ==> tokens[i].end <= tokens[j].start)
  }

  ghost predicate Kept(s: Chars, t: Token)
    requires Boundary(s, t.start) && Boundary(s, t.end) && t.start <= t.end
  {
    ContainsKanji(Slice(s, t.start, t.end)) && !t.unknown && t.detail.Some? && Hiragana(t.detail.value).Some?
  }

  /** Sizes of the meanings of the kept tokens among the first k. */
  ghost function Sizes(s: Chars, tokens: seq<Token>, k: nat): nat
    requires k <= |tokens| && InOrder(s, tokens)
  {
    if k == 0 then 0 else Sizes(s, tokens, k - 1) + if Kept(s, tokens[k - 1]) then tokens[k - 1].size else 0
  }

  /** The reading of a token, computed for itself: offsets counted from the start of the source, the meaning there
      exactly when all meanings up to it fit the budget. */
  ghost function Direct(s: Chars, tokens: seq<Token>, k: nat): Reading
    requires k < |tokens| && InOrder(s, tokens) && Kept(s, tokens[k])
  {
    Reading(AsU32(Offset16(s, tokens[k].start)), AsU32(Offset16(s, tokens[k].end)),
            Hiragana(tokens[k].detail.value).value,
            if Sizes(s, tokens, k + 1) <= MEANING_BUDGET then Some(tokens[k].dictionary) else None)
  }

  ghost function DirectAll(s: Chars, tokens: seq<Token>, k: nat): seq<Reading>
    requires k <= |tokens| && InOrder(s, tokens)
  {
    if k == 0 then []
    else DirectAll(s, tokens, k - 1) + if Kept(s, tokens[k - 1]) then [Direct(s, tokens, k - 1)] else []
  }

  // ---- The loop ----

  /** The source between two byte offsets that are boundaries. */
  method TextSlice(s: Chars, a: nat, b: nat) returns (r: Chars)
    requires Boundary(s, a) && Boundary(s, b) && a <= b
    ensures r == Slice(s, a, b)
  {
    CharOrder(s, a, b);
    var i := SeekByte(s, a);
    var j := SeekByte(s, b);
    r := s[i..j];
  }

  method SeekByte(s: Chars, byte: nat) returns (i: nat)
    requires Boundary(s, byte)
    ensures i == CharAt(s, byte)
  {
    i := 0;
    var at := 0;
    ghost var target := CharAt(s, byte);
    while at < byte
      invariant i <= target && at == ByteAt(s, i) <= byte
      decreases byte - at
    {
      if i == target {
        assert false;
      }
      BytesStep(s, i);
      if i + 1 < target {
        BytesGrow(s, i + 1, target);
      }
      at := at + Width8(s[i]);
      i := i + 1;
    }
    if i < target {
      BytesGrow(s, i, target);
      assert false;
    }
  }

  lemma TokenFacts(s: Chars, tokens: seq<Token>, k: nat)
    requires k < |tokens| && InOrder(s, tokens)
    ensures var t := tokens[k];
            && Boundary(s, t.start) && Boundary(s, t.end) && t.start <= t.end && t.size > 0
            && (Kept(s, t) <==>
                && ContainsKanji(Slice(s, t.start, t.end)) && !t.unknown
                && t.detail.Some? && Hiragana(t.detail.value).Some?)
    ensures forall j :: k < j < |tokens| ==> tokens[k].end <= tokens[j].start
    ensures DirectAll(s, tokens, k + 1)
            == DirectAll(s, tokens, k) + if Kept(s, tokens[k]) then [Direct(s, tokens, k)] else []
    ensures Sizes(s, tokens, k + 1) == Sizes(s, tokens, k) + if Kept(s, tokens[k]) then tokens[k].size else 0
  {
    hide Boundary, Slice, Direct;
  }

  lemma DirectIs(s: Chars, tokens: seq<Token>, k: nat, start: nat, end: nat, dictionary: Option<int>)
    requires k < |tokens| && InOrder(s, tokens) && Kept(s, tokens[k])
    requires start == Offset16(s, tokens[k].start) && end == Offset16(s, tokens[k].end)
    requires dictionary == if Sizes(s, tokens, k + 1) <= MEANING_BUDGET then Some(tokens[k].dictionary) else None
    ensures Direct(s, tokens, k)
            == Reading(AsU32(start), AsU32(end), Hiragana(tokens[k].detail.value).value, dictionary)
  {
    hide Boundary, Slice, Offset16, Sizes;
  }

  /** The budget: the counter is the sum of the sizes, or the budget once that is exceeded. */
  function Charged(total: nat): nat {
    if total <= MEANING_BUDGET then total else MEANING_BUDGET
  }

  method Charge(meaningBytes: nat, size: nat, dictionary: int, ghost total: nat)
    returns (charged: nat, entry: Option<int>)
    requires meaningBytes == Charged(total) && size > 0
    ensures charged == Charged(total + size)
    ensures entry == if total + size <= MEANING_BUDGET then Some(dictionary) else None
  {
    charged, entry := meaningBytes, None;
    if meaningBytes < MEANING_BUDGET {
      if meaningBytes + size <= MEANING_BUDGET {
        charged := meaningBytes + size;
        entry := Some(dictionary);
      } else {
        charged := MEANING_BUDGET;
      }
    }
  }

  lemma NoReadingsYet(s: Chars, tokens: seq<Token>)
    requires InOrder(s, tokens)
    ensures DirectAll(s, tokens, 0) == [] && Charged(Sizes(s, tokens, 0)) == 0
    ensures forall j :: 0 <= j < |tokens| ==> 0 <= tokens[j].start
  {
  }

  method Readings(s: Chars, tokens: seq<Token>) returns (result: seq<Reading>)
    requires InOrder(s, tokens)
    ensures result == DirectAll(s, tokens, |tokens|)
  {
    hide *;
    result := [];
    if !ContainsKanji(s) {
      NoKanjiNoReadings(s, tokens, |tokens|);
      return;
    }
    var previousByte: nat, previousUtf16: nat, meaningBytes: nat := 0, 0, 0;
    StartIsBoundary(s);
    NoReadingsYet(s, tokens);
    for k := 0 to |tokens|
      invariant Boundary(s, previousByte) && previousUtf16 == Offset16(s, previousByte)
      invariant forall j :: k <= j < |tokens| ==> previousByte <= tokens[j].start
      invariant meaningBytes == Charged(Sizes(s, tokens, k))
      invariant result == DirectAll(s, tokens, k)
    {
      var token := tokens[k];
      TokenFacts(s, tokens, k);
      var surface := TextSlice(s, token.start, token.end);
      if ContainsKanji(surface) && !token.unknown && token.detail.Some? && Hiragana(token.detail.value).Some? {
        var dictionary;
        meaningBytes, dictionary := Charge(meaningBytes, token.size, token.dictionary, Sizes(s, tokens, k));
        var gap := TextSlice(s, previousByte, token.start);
        Accumulate(s, previousByte, token.start);
        Accumulate(s, token.start, token.end);
        var utf16Start := previousUtf16 + Count16(gap);
        var utf16End := utf16Start + Count16(surface);
        DirectIs(s, tokens, k, utf16Start, utf16End, dictionary);
        result := result + [Reading(AsU32(utf16Start), AsU32(utf16End), Hiragana(token.detail.value).value,
                                    dictionary)];
        previousByte := token.end;
        previousUtf16 := utf16End;
      }
    }
  }

  lemma StartIsBoundary(s: Chars)
    ensures Boundary(s, 0) && Offset16(s, 0) == 0
  {
    assert ByteAt(s, 0) == 0;
    if CharAt(s, 0) > 0 {
      BytesGrow(s, 0, CharAt(s, 0));
    }
  }

  lemma NoKanjiInSlice(s: Chars, a: nat, b: nat)
    requires Boundary(s, a) && Boundary(s, b) && a <= b && !ContainsKanji(s)
    ensures !ContainsKanji(Slice(s, a, b))
  {
    CharOrder(s, a, b);
    assert forall i :: 0 <= i < |Slice(s, a, b)| ==> Slice(s, a, b)[i] == s[CharAt(s, a) + i];
  }

  lemma {:induction false} NoKanjiNoReadings(s: Chars, tokens: seq<Token>, k: nat)
    requires k <= |tokens| && InOrder(s, tokens) && !ContainsKanji(s)
    ensures DirectAll(s, tokens, k) == []
  {
    hide *;
    NoReadingsYet(s, tokens);
    if k > 0 {
      NoKanjiNoReadings(s, tokens, k - 1);
      TokenFacts(s, tokens, k - 1);
      NoKanjiInSlice(s, tokens[k - 1].start, tokens[k - 1].end);
    }
  }

  // ---- What the readings are ----

  lemma {:induction false} DirectMember(s: Chars, tokens: seq<Token>, k: nat, i: nat) returns (n: nat)
    requires k <= |tokens| && InOrder(s, tokens) && i < |DirectAll(s, tokens, k)|
    ensures n < k && Kept(s, tokens[n]) && DirectAll(s, tokens, k)[i] == Direct(s, tokens, n)
    ensures |DirectAll(s, tokens, n)| == i
  {
    hide Boundary, Kept, Direct;
    TokenFacts(s, tokens, k - 1);
    if i < |DirectAll(s, tokens, k - 1)| {
      n := DirectMember(s, tokens, k - 1, i);
    } else {
      n := k - 1;
    }
  }

  /** Every kept token yields its reading, after those of the kept tokens before it. */
  lemma {:induction false} KeptMember(s: Chars, tokens: seq<Token>, k: nat, n: nat)
    requires n < k <= |tokens| && InOrder(s, tokens) && Kept(s, tokens[n])
    ensures var (i, all) := (|DirectAll(s, tokens, n)|, DirectAll(s, tokens, k));
            i < |all| && all[i] == Direct(s, tokens, n)
  {
    hide Boundary, Kept, Direct;
    TokenFacts(s, tokens, k - 1);
    if n < k - 1 {
      KeptMember(s, tokens, k - 1, n);
    }
  }

  /** A token is kept for a surface with a kanji, when it is known and its detail is kana. */
  lemma KeptIs(s: Chars, t: Token)
    requires Boundary(s, t.start) && Boundary(s, t.end) && t.start <= t.end
    ensures Kept(s, t)
            <==>
            && (exists i :: 0 <= i < |Slice(s, t.start, t.end)| && Kanji(Slice(s, t.start, t.end)[i]))
            && !t.unknown && t.detail.Some? && t.detail.value != []
            && forall i :: 0 <= i < |t.detail.value| ==> Kana(t.detail.value[i])
  {
    hide Boundary, Slice;
    assert forall i :: 0 <= i < |Slice(s, t.start, t.end)| ==>
        (IsKanji(Slice(s, t.start, t.end)[i]) <==> Kanji(Slice(s, t.start, t.end)[i]));
  }

  /** CJK ideographs with their extensions A to H and the compatibility block, and the iteration mark. */
  predicate Kanji(c: int) {
    13312 <= c < 19904 || 19968 <= c < 40960 || 63744 <= c < 64256 || 131_072 <= c < 205_744 || c == 12293
  }

  /** Hiragana and katakana letters, the long vowel mark, the middle dot and the two combining sound marks. */
  predicate Kana(c: int) {
    12353 <= c <= 12438 || 12449 <= c <= 12534 || c in {12539, 12540, 12441, 12442}
  }

  /** The reading's text is the detail with katakana letters 96 places lower, among the hiragana. */
  lemma ReadingIs(s: Chars, tokens: seq<Token>, n: nat, i: nat)
    requires n < |tokens| && InOrder(s, tokens) && Kept(s, tokens[n]) && i < |tokens[n].detail.value|
    ensures var (c, text) := (tokens[n].detail.value[i], Direct(s, tokens, n).reading);
            && |text| == |tokens[n].detail.value|
            && text[i] == if 12449 <= c <= 12534 then c - 96 else c
  {
    hide Boundary, Slice, Offset16, Sizes;
  }

  /** For sources of fewer than 2^32 units: every reading names exactly its token's surface in the UTF-16 source. */
  lemma ReadingsNameSurfaces(s: Chars, tokens: seq<Token>, n: nat)
    requires InOrder(s, tokens) && n < |tokens| && Kept(s, tokens[n]) && |Utf16(s)| < 0x1_0000_0000
    ensures var (r, t) := (Direct(s, tokens, n), tokens[n]);
            && r.start == Offset16(s, t.start) && r.end == Offset16(s, t.end) && r.start <= r.end <= |Utf16(s)|
            && Utf16(s)[r.start..r.end] == Utf16(Slice(s, t.start, t.end))
  {
    hide Slice, Utf16, Offset16, Kept, Boundary, Sizes, Hiragana;
    UnitsOfSlice(s, tokens[n].start, tokens[n].end);
  }

  /** And each reading ends before the next one begins. */
  lemma ReadingsFollow(s: Chars, tokens: seq<Token>, n: nat, m: nat)
    requires InOrder(s, tokens) && n < m < |tokens| && Kept(s, tokens[n]) && Kept(s, tokens[m])
    requires |Utf16(s)| < 0x1_0000_0000
    ensures Direct(s, tokens, n).end <= Direct(s, tokens, m).start
  {
    hide *;
    TokenFacts(s, tokens, n);
    TokenFacts(s, tokens, m);
    ReadingsNameSurfaces(s, tokens, n);
    ReadingsNameSurfaces(s, tokens, m);
    UnitsOfSlice(s, tokens[n].end, tokens[m].start);
  }

  /** The readings that carry a meaning are a prefix of the kept ones, and their meanings fit the budget together:
      a later meaning implies every earlier one, and the sizes up to it are within the budget. */
  lemma MeaningsArePrefix(s: Chars, tokens: seq<Token>, n: nat, m: nat)
    requires InOrder(s, tokens) && n <= m < |tokens| && Kept(s, tokens[n]) && Kept(s, tokens[m])
    ensures Direct(s, tokens, m).dictionary.Some? ==>
              Direct(s, tokens, n).dictionary.Some? && Sizes(s, tokens, m + 1) <= 131_072
    ensures Direct(s, tokens, m).dictionary.None? ==> Sizes(s, tokens, m + 1) > 131_072
  {
    hide Slice, Offset16, Kept, Boundary;
    SizesGrow(s, tokens, n + 1, m + 1);
  }

  lemma {:induction false} SizesGrow(s: Chars, tokens: seq<Token>, a: nat, b: nat)
    requires a <= b <= |tokens| && InOrder(s, tokens)
    ensures Sizes(s, tokens, a) <= Sizes(s, tokens, b)
  {
    if a < b {
      SizesGrow(s, tokens, a, b - 1);
    }
  }
}
