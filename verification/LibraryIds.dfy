/** The ids the scanner derives from names (scanner.rs, slugify and stable_id), by what they keep of a name. */
module LibraryIds {
  import opened LibraryIndex

  /** An ASCII letter or digit. */
  predicate Wordly(c: char) {
    'a' <= c <= 'z' || 'A' <= c <= 'Z' || '0' <= c <= '9'
  }

  predicate AllWordly(s: string) {
    forall i :: 0 <= i < |s| ==> Wordly(s[i])
  }

  /** Words are the same but for their case, and `r` has no upper-case letter. */
  predicate Lowered(s: string, r: string) {
    |r| == |s| && forall i :: 0 <= i < |s| ==>
      !('A' <= r[i] <= 'Z') && (r[i] == s[i] || ('A' <= s[i] <= 'Z' && r[i] as int == s[i] as int + 32))
  }

  // ---- Pushing characters ----

  /** No two dashes in a row. */
  predicate Single(s: string) {
    forall i :: 0 <= i < |s| - 1 ==> !(s[i] == '-' && s[i + 1] == '-')
  }

  predicate Dashed(s: string) {
    s != "" && s[|s| - 1] == '-'
  }

  lemma {:induction false} SingleFrom(slug: string, s: string)
    requires Single(slug)
    ensures Single(SlugFrom(slug, s))
    decreases |s|
  {
    if s != "" {
      SingleFrom(SlugPushed(slug, s[0]), s[1..]);
    }
  }

  lemma {:induction false} FromJoin(slug: string, a: string, b: string)
    ensures SlugFrom(slug, a + b) == SlugFrom(SlugFrom(slug, a), b)
    decreases |a|
  {
    if a == "" {
      assert a + b == b;
    } else {
      FromJoin(SlugPushed(slug, a[0]), a[1..], b);
      assert (a + b)[1..] == a[1..] + b;
    }
  }

  /** Only the last character of the slug matters to what comes next. */
  lemma {:induction false} FromPlain(p: string, slug: string, s: string)
    requires slug != ""
    ensures SlugFrom(p + slug, s) == p + SlugFrom(slug, s)
    decreases |s|
  {
    if s != "" {
      assert SlugPushed(p + slug, s[0]) == p + SlugPushed(slug, s[0]) by {
        assert p + slug + "-" == p + (slug + "-");
        assert p + slug + [Lower(s[0])] == p + (slug + [Lower(s[0])]);
      }
      FromPlain(p, SlugPushed(slug, s[0]), s[1..]);
    }
  }

  /** After a dash a text leaves what it leaves on its own, less its first dash. */
  lemma {:induction false} FromDash(s: string)
    ensures SlugFrom("-", s) == "-" + TrimLeft(SlugFrom("", s))
    decreases |s|
  {
    if s != "" {
      var (c, rest) := (Lower(s[0]), s[1..]);
      if IsAlphanumeric(c) {
        FromPlain("-", [c], rest);
        FromPlain("", [c], rest);
        FromHead([c], rest);
        assert "-" + [c] == ['-', c] && "" + [c] == [c];
      } else {
        FromDash(rest);
        assert "" + "-" == "-";
        TrimDash(SlugFrom("", rest));
      }
    }
  }

  lemma TrimDash(s: string)
    ensures TrimLeft("-" + TrimLeft(s)) == TrimLeft(s)
  {
    TrimLeftFirst(s);
    assert ("-" + TrimLeft(s))[1..] == TrimLeft(s);
  }

  lemma {:induction false} TrimLeftFirst(s: string)
    ensures TrimLeft(s) == "" || TrimLeft(s)[0] != '-'
    ensures TrimLeft(TrimLeft(s)) == TrimLeft(s)
  {
    if s != "" && s[0] == '-' {
      TrimLeftFirst(s[1..]);
    }
  }

  lemma {:induction false} FromHead(slug: string, s: string)
    requires slug != "" && slug[0] != '-'
    ensures SlugFrom(slug, s) != "" && SlugFrom(slug, s)[0] != '-'
    decreases |s|
  {
    if s != "" {
      FromHead(SlugPushed(slug, s[0]), s[1..]);
    }
  }

  // ---- Trimming ----

  lemma {:induction false} TrimLeftJoin(a: string, b: string)
    ensures TrimLeft(a + b) == if TrimLeft(a) == "" then TrimLeft(b) else TrimLeft(a) + b
  {
    if a == "" {
      assert a + b == b;
    } else {
      assert (a + b)[1..] == a[1..] + b;
      if a[0] == '-' {
        TrimLeftJoin(a[1..], b);
      }
    }
  }

  lemma {:induction false} TrimRightJoin(a: string, b: string)
    ensures TrimRight(a + b) == if TrimRight(b) == "" then TrimRight(a) else a + TrimRight(b)
    decreases |b|
  {
    if b == "" {
      assert a + b == a;
    } else {
      assert (a + b)[..|a + b| - 1] == a + b[..|b| - 1];
      if b[|b| - 1] == '-' {
        TrimRightJoin(a, b[..|b| - 1]);
      }
    }
  }

  lemma {:induction false} TrimsCommute(s: string)
    ensures TrimLeft(TrimRight(s)) == TrimRight(TrimLeft(s))
  {
    hide *;
    TrimsEmpty();
    if s != "" {
      var (c, rest) := (s[0], s[1..]);
      assert s == [c] + rest;
      TrimOne(c);
      TrimRightJoin([c], rest);
      TrimLeftJoin([c], rest);
      TrimLeftJoin([c], TrimRight(rest));
      if c == '-' {
        TrimsCommute(rest);
      }
    }
  }

  lemma TrimsEmpty()
    ensures TrimLeft("") == "" && TrimRight("") == ""
  {
  }

  lemma TrimOne(c: char)
    ensures TrimLeft([c]) == TrimRight([c]) == if c == '-' then "" else [c]
  {
    assert [c][1..] == "" && [c][..0] == "";
  }

  lemma {:induction false} TrimRightTwice(s: string)
    ensures TrimRight(TrimRight(s)) == TrimRight(s)
  {
    if s != "" && s[|s| - 1] == '-' {
      TrimRightTwice(s[..|s| - 1]);
    }
  }

  // ---- Words and what is between them ----

  lemma {:induction false} FromWord(slug: string, s: string)
    requires AllWordly(s)
    ensures var r := SlugFrom(slug, s);
            |r| == |slug| + |s| && r[..|slug|] == slug && Lowered(s, r[|slug|..]) && AllWordly(r[|slug|..])
    decreases |s|
  {
    if s != "" {
      var (pushed, r) := (SlugPushed(slug, s[0]), SlugFrom(slug, s));
      assert pushed == slug + [Lower(s[0])];
      FromWord(pushed, s[1..]);
      assert r[|slug|] == r[..|pushed|][|slug|] == Lower(s[0]);
      assert r[|slug|..] == [r[|slug|]] + r[|pushed|..];
      assert r[..|slug|] == r[..|pushed|][..|slug|];
    }
  }

  lemma WordUntrimmed(s: string)
    requires AllWordly(s)
    ensures TrimRight(TrimLeft(s)) == s
  {
  }

  /** A word is put in lower case. */
  lemma SlugOfWord(s: string)
    requires AllWordly(s)
    ensures Lowered(s, Slugify(s))
  {
    FromWord("", s);
    var r := SlugFrom("", s);
    assert r[0..] == r;
    WordUntrimmed(r);
  }

  lemma NotDashed(rest: string)
    requires Single(rest + "-")
    ensures !Dashed(rest)
  {
    var (slug, n) := (rest + "-", |rest|);
    if rest != "" {
      assert slug[n - 1] == rest[n - 1] && slug[n - 1 + 1] == '-';
    }
  }

  lemma PushedDash(slug: string, c: char)
    requires Single(slug) && !Wordly(c)
    ensures SlugPushed(slug, c) == TrimRight(slug) + "-"
  {
    if Dashed(slug) {
      var rest := slug[..|slug| - 1];
      assert slug == rest + "-";
      NotDashed(rest);
    }
  }

  lemma PartsFrom(a: string, c: char, b: string)
    requires !Wordly(c)
    ensures SlugFrom("", a + [c] + b) == TrimRight(SlugFrom("", a)) + ("-" + TrimLeft(SlugFrom("", b)))
  {
    hide TrimLeft, TrimRight, Single;
    var front := SlugFrom("", a);
    SingleNone();
    SingleFrom("", a);
    FromJoin("", a + [c], b);
    FromJoin("", a, [c]);
    assert [c][1..] == "" && [c][0] == c;
    assert SlugFrom(front, [c]) == SlugPushed(front, c);
    PushedDash(front, c);
    FromPlain(TrimRight(front), "-", b);
    FromDash(b);
  }

  lemma SingleNone()
    ensures Single("")
  {
  }

  /** What is between two parts becomes one dash, and nothing at the ends. */
  lemma SlugOfParts(a: string, c: char, b: string)
    requires !Wordly(c)
    ensures Slugify(a + [c] + b)
            == if Slugify(a) == "" then Slugify(b)
               else if Slugify(b) == "" then Slugify(a)
               else Slugify(a) + "-" + Slugify(b)
  {
    hide SlugFrom, TrimLeft, TrimRight, Wordly;
    var (front, back) := (TrimRight(SlugFrom("", a)), TrimLeft(SlugFrom("", b)));
    PartsFrom(a, c, b);
    TrimsCommute(SlugFrom("", a));
    TrimRightTwice(TrimLeft(SlugFrom("", a)));
    TrimLeftJoin(front, "-" + back);
    TrimDash(SlugFrom("", b));
    TrimRightJoin(TrimLeft(front), "-" + back);
    TrimRightJoin("-", back);
    TrimOne('-');
    assert TrimLeft(front) + ("-" + TrimRight(back)) == TrimLeft(front) + "-" + TrimRight(back);
  }

  /** There is a slug exactly for names with a letter or a digit. */
  lemma {:induction false} SlugSome(s: string)
    ensures Slugify(s) == "" <==> forall i :: 0 <= i < |s| ==> !Wordly(s[i])
    decreases |s|
  {
    if AllWordly(s) {
      SlugOfWord(s);
      hide Slugify;
    } else {
      hide Slugify, Wordly;
      var i :| 0 <= i < |s| && !Wordly(s[i]);
      var (a, b) := (s[..i], s[i + 1..]);
      assert s == a + [s[i]] + b;
      SlugOfParts(a, s[i], b);
      SlugSome(a);
      SlugSome(b);
      assert forall j :: i < j < |s| ==> s[j] == b[j - i - 1];
      assert forall j :: 0 <= j < i ==> s[j] == a[j];
    }
  }

  // ---- Ids ----

  /** Some character is not ASCII, or none is a letter or a digit. */
  predicate Digested(name: string) {
    (exists i :: 0 <= i < |name| && name[i] as int >= 128) || forall i :: 0 <= i < |name| ==> !Wordly(name[i])
  }

  /** The id of a name is its slug when that is all ASCII; otherwise it ends in the name's digest, after the slug if
      there is one. */
  lemma StableIds(env: Env, prefix: string, name: string)
    ensures !Digested(name) ==> StableId(env, prefix, name) == Slugify(name)
    ensures Digested(name) && (exists i :: 0 <= i < |name| && Wordly(name[i])) ==>
              StableId(env, prefix, name) == Slugify(name) + "-" + env.digest(name)
    ensures (forall i :: 0 <= i < |name| ==> !Wordly(name[i])) ==>
              StableId(env, prefix, name) == prefix + "-" + env.digest(name)
  {
    hide Slugify, Wordly;
    SlugSome(name);
  }

  /** Such names share an id only if their digests are the same. */
  lemma DigestsApart(env: Env, prefix: string, a: string, b: string)
    requires Digested(a) && Digested(b) && |env.digest(a)| == |env.digest(b)| && env.digest(a) != env.digest(b)
    ensures StableId(env, prefix, a) != StableId(env, prefix, b)
  {
    var (i, j) := (StableId(env, prefix, a), StableId(env, prefix, b));
    assert i[|i| - |env.digest(a)|..] == env.digest(a) && j[|j| - |env.digest(b)|..] == env.digest(b) by {
      StableIds(env, prefix, a);
      StableIds(env, prefix, b);
      hide StableId, Digested, Wordly, Slugify;
    }
  }
}
