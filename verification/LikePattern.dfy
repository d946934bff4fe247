/** The translation search of internal/repo/word_repo.go: EscapeLike, and what SQLite's LIKE
    with ESCAPE '\' makes of the escaped pattern.  LIKE reads its operands as C strings and
    ignores the case of ASCII letters only. */
module LikePattern {
  import PrefixRange
  import opened Text

  function FoldAscii(c: char): char {
    if 'A' <= c <= 'Z' then (c as int + 32) as char else c
  }

  predicate SameChar(c: char, d: char) {
    FoldAscii(c) == FoldAscii(d)
  }

  lemma SameCharMeans(c: char, d: char)
    ensures SameChar(c, d) <==>
      c == d || ('A' <= c <= 'Z' && d as int == c as int + 32) || ('A' <= d <= 'Z' && c as int == d as int + 32)
  {
  }

  predicate SameText(s: string, t: string) {
    |s| == |t| && forall i :: 0 <= i < |s| ==> SameChar(s[i], t[i])
  }

  /** The part of a text before its first NUL. */
  function CString(s: string): string {
    if s == [] || s[0] == '\0' then [] else [s[0]] + CString(s[1..])
  }

  /** The matcher, on texts without NUL. */
  predicate Matches(pat: string, s: string)
    decreases |pat| + |s|
  {
    if pat == [] then s == []
    else if pat[0] == '%' then Matches(pat[1..], s) || (s != [] && Matches(pat, s[1..]))
    else if pat[0] == '\\' then |pat| > 1 && s != [] && SameChar(pat[1], s[0]) && Matches(pat[2..], s[1..])
    else s != [] && (pat[0] == '_' || SameChar(pat[0], s[0])) && Matches(pat[1..], s[1..])
  }

  /** `s LIKE pat ESCAPE '\'`. */
  predicate Like(pat: string, s: string) {
    Matches(CString(pat), CString(s))
  }

  function EscapeChar(c: char): string {
    if c == '\\' || c == '%' || c == '_' then ['\\', c] else [c]
  }

  function EscapeLike(s: string): string {
    if s == [] then [] else EscapeChar(s[0]) + EscapeLike(s[1..])
  }

  /** The pattern the search binds. */
  function ContainsPattern(q: string): string {
    "%" + EscapeLike(q) + "%"
  }

  predicate OccursAt(q: string, s: string, i: nat) {
    i + |q| <= |s| && SameText(q, s[i..i + |q|])
  }

  /** `q` is a substring of `s`, up to the case of ASCII letters. */
  ghost predicate Occurs(q: string, s: string) {
    exists i :: OccursAt(q, s, i)
  }

  // ---------------------------------------------------------------------------
  // The pattern means "contains"

  lemma {:induction false} EscapedIsLiteral(q: string, rest: string, s: string)
    ensures Matches(EscapeLike(q) + rest, s) <==>
            |q| <= |s| && SameText(q, s[..|q|]) && Matches(rest, s[|q|..])
  {
    var pat := EscapeLike(q) + rest;
    if q == [] {
      assert pat == rest && s[0..] == s;
    } else {
      var tail := EscapeLike(q[1..]) + rest;
      assert pat == EscapeChar(q[0]) + tail;
      assert if |EscapeChar(q[0])| == 2 then pat[0] == '\\' && pat[1] == q[0] && pat[2..] == tail
             else pat[0] == q[0] && pat[1..] == tail;
      if s != [] {
        EscapedIsLiteral(q[1..], rest, s[1..]);
        if |q| <= |s| {
          assert s[1..][|q| - 1..] == s[|q|..] && s[1..][..|q| - 1] == s[..|q|][1..];
          assert SameText(q, s[..|q|]) <==> SameChar(q[0], s[0]) && SameText(q[1..], s[..|q|][1..]) by {
            SameTextByFront(q, s[..|q|]);
          }
        }
      }
    }
  }

  lemma SameTextByFront(q: string, t: string)
    requires q != [] && |q| == |t|
    ensures SameText(q, t) <==> SameChar(q[0], t[0]) && SameText(q[1..], t[1..])
  {
    if SameChar(q[0], t[0]) && SameText(q[1..], t[1..]) {
      forall i | 0 <= i < |q|
        ensures SameChar(q[i], t[i])
      {
        assert i > 0 ==> q[i] == q[1..][i - 1] && t[i] == t[1..][i - 1];
      }
    }
  }

  lemma {:induction false} PercentMatchesAnything(s: string)
    ensures Matches("%", s)
  {
    assert "%"[1..] == "";
    if s != [] {
      PercentMatchesAnything(s[1..]);
    }
  }

  /** A leading `%` skips any number of characters. */
  lemma {:induction false} PercentSkips(pat: string, s: string)
    ensures Matches("%" + pat, s) <==> exists i :: 0 <= i <= |s| && Matches(pat, s[i..])
  {
    var all := "%" + pat;
    assert all[1..] == pat && s[0..] == s;
    if s != [] {
      PercentSkips(pat, s[1..]);
      if i :| 0 <= i <= |s| && Matches(pat, s[i..]) {
        assert i > 0 ==> s[1..][i - 1..] == s[i..];
      }
      if i :| 0 <= i <= |s[1..]| && Matches(pat, s[1..][i..]) {
        assert s[1..][i..] == s[i + 1..];
      }
    }
  }

  lemma MatchesContains(q: string, s: string)
    ensures Matches(ContainsPattern(q), s) <==> Occurs(q, s)
  {
    var inner := EscapeLike(q) + "%";
    assert ContainsPattern(q) == "%" + inner;
    PercentSkips(inner, s);
    forall i | 0 <= i <= |s|
      ensures Matches(inner, s[i..]) <==> OccursAt(q, s, i)
    {
      EscapedIsLiteral(q, "%", s[i..]);
      if i + |q| <= |s| {
        PercentMatchesAnything(s[i..][|q|..]);
        assert s[i..][..|q|] == s[i..i + |q|];
      }
    }
  }

  lemma {:induction false} CStringId(s: string)
    requires '\0' !in s
    ensures CString(s) == s
  {
    if s != [] {
      assert s[0] in s;
      CStringId(s[1..]);
    }
  }

  lemma {:induction false} EscapeAddsNoNul(q: string)
    ensures '\0' in EscapeLike(q) <==> '\0' in q
  {
    if q != [] {
      EscapeAddsNoNul(q[1..]);
      assert q == [q[0]] + q[1..];
    }
  }

  /** For texts without NUL, LIKE accepts exactly the texts the query occurs in: `\`, `%` and
      `_` in the query are plain characters. */
  lemma LikeContains(q: string, s: string)
    requires '\0' !in q && '\0' !in s
    ensures Like(ContainsPattern(q), s) <==> Occurs(q, s)
  {
    EscapeAddsNoNul(q);
    CStringId(ContainsPattern(q));
    CStringId(s);
    MatchesContains(q, s);
  }

  lemma CStringOfEscapedChar(c: char, tail: string)
    requires c != '\0'
    ensures CString(EscapeChar(c) + tail) == EscapeChar(c) + CString(tail)
  {
    var pat := EscapeChar(c) + tail;
    if |EscapeChar(c)| == 2 {
      assert pat[1..] == [c] + tail && ([c] + tail)[1..] == tail;
      assert CString(pat) == ['\\'] + ([c] + CString(tail));
    } else {
      assert pat[1..] == tail;
    }
  }

  lemma {:induction false} CStringOfEscaped(q: string, rest: string)
    requires '\0' in q
    ensures CString(EscapeLike(q) + rest) == EscapeLike(CString(q)) && '\0' !in CString(q)
  {
    var tail := EscapeLike(q[1..]) + rest;
    assert EscapeLike(q) + rest == EscapeChar(q[0]) + tail;
    if q[0] == '\0' {
      assert (EscapeLike(q) + rest)[0] == '\0';
    } else {
      assert q == [q[0]] + q[1..];
      CStringOfEscaped(q[1..], rest);
      CStringOfEscapedChar(q[0], tail);
      assert CString(q)[1..] == CString(q[1..]);
    }
  }

  /** A NUL cuts the pattern short and loses its closing `%`: the text before the NUL then
      matches although it does not contain the query. */
  lemma NulBreaksLike(q: string)
    requires '\0' in q
    ensures '\0' !in CString(q) && Like(ContainsPattern(q), CString(q)) && !Occurs(q, CString(q))
  {
    var head := CString(q);
    CStringOfEscaped(q, "%");
    assert ContainsPattern(q)[1..] == EscapeLike(q) + "%";
    assert CString(ContainsPattern(q)) == "%" + EscapeLike(head);
    CStringId(head);
    PercentSkips(EscapeLike(head), head);
    EscapedIsLiteral(head, "", head);
    assert EscapeLike(head) + "" == EscapeLike(head) && head[0..] == head && head[..|head|] == head;
    assert Matches("", head[|head|..]);
    assert Matches(EscapeLike(head), head[0..]);
    CStringIsShorter(q);
  }

  lemma {:induction false} CStringIsShorter(q: string)
    requires '\0' in q
    ensures |CString(q)| < |q|
  {
    if q[0] != '\0' {
      assert q == [q[0]] + q[1..];
      CStringIsShorter(q[1..]);
    }
  }

  /** The search means "contains" on all stored texts exactly for queries without NUL. */
  lemma LikeContainsIffNulFree(q: string)
    ensures (forall s :: '\0' !in s ==> (Like(ContainsPattern(q), s) <==> Occurs(q, s))) <==> '\0' !in q
  {
    if '\0' in q {
      NulBreaksLike(q);
    } else {
      forall s | '\0' !in s
        ensures Like(ContainsPattern(q), s) <==> Occurs(q, s)
      {
        LikeContains(q, s);
      }
    }
  }

  // ---------------------------------------------------------------------------
  // searchPrefix

  datatype WordRow = WordRow(wordLower: string, translation: string)

  /** The WHERE clause of searchPrefix, for a query and its lower-cased form. */
  predicate Selected(keyword: string, q: string, row: WordRow) {
    || PrefixRange.Accepts(PrefixRange.PrefixToRange(keyword), Utf8(row.wordLower))
    || Like(ContainsPattern(q), row.translation)
  }

  /** It selects exactly the words with the prefix and those with the query in the translation. */
  lemma SearchPrefixSelects(keyword: string, q: string, row: WordRow)
    requires '\0' !in q && '\0' !in row.translation
    ensures Selected(keyword, q, row) <==> keyword <= row.wordLower || Occurs(q, row.translation)
  {
    PrefixRange.RangeIsPrefix(keyword, row.wordLower);
    LikeContains(q, row.translation);
  }
}
