/** Texts as Go sees them: TrimSpace and Fields of the `strings` package, and UTF-8.  A Dafny
    `char` is a Unicode scalar value, so a `string` is a valid UTF-8 text. */
module Text {

  /** unicode.IsSpace. */
  predicate IsSpace(c: char) {
    || '\t' <= c <= '\r' || c == ' '
    || c == '\U{85}' || c == '\U{A0}' || c == '\U{1680}'
    || '\U{2000}' <= c <= '\U{200A}' || c == '\U{2028}' || c == '\U{2029}'
    || c == '\U{202F}' || c == '\U{205F}' || c == '\U{3000}'
  }

  /** The characters with the property White_Space. */
  lemma SpacesAre(c: char)
    ensures IsSpace(c) <==> c in {
      '\U{9}', '\U{A}', '\U{B}', '\U{C}', '\U{D}', '\U{20}', '\U{85}', '\U{A0}', '\U{1680}',
      '\U{2000}', '\U{2001}', '\U{2002}', '\U{2003}', '\U{2004}', '\U{2005}', '\U{2006}', '\U{2007}',
      '\U{2008}', '\U{2009}', '\U{200A}', '\U{2028}', '\U{2029}', '\U{202F}', '\U{205F}', '\U{3000}'}
  {
  }

  predicate AllSpace(s: string) {
    forall i :: 0 <= i < |s| ==> IsSpace(s[i])
  }

  predicate NoSpace(s: string) {
    forall i :: 0 <= i < |s| ==> !IsSpace(s[i])
  }

  function TrimLeft(s: string): string {
    if s != [] && IsSpace(s[0]) then TrimLeft(s[1..]) else s
  }

  function TrimRight(s: string): string {
    if s != [] && IsSpace(s[|s| - 1]) then TrimRight(s[..|s| - 1]) else s
  }

  function TrimSpace(s: string): string {
    TrimRight(TrimLeft(s))
  }

  /** Neither end is white space. */
  predicate Trimmed(s: string) {
    s != [] ==> !IsSpace(s[0]) && !IsSpace(s[|s| - 1])
  }

  lemma TrimmedStays(s: string)
    requires Trimmed(s)
    ensures TrimSpace(s) == s
  {
  }

  lemma {:induction false} TrimRightTrims(s: string)
    requires s != [] ==> !IsSpace(s[0])
    ensures Trimmed(TrimRight(s))
  {
    if s != [] && IsSpace(s[|s| - 1]) {
      TrimRightTrims(s[..|s| - 1]);
    }
  }

  lemma {:induction false} TrimLeftTrims(s: string)
    ensures TrimLeft(s) != [] ==> !IsSpace(TrimLeft(s)[0])
  {
    if s != [] && IsSpace(s[0]) {
      TrimLeftTrims(s[1..]);
    }
  }

  lemma TrimIdempotent(s: string)
    ensures Trimmed(TrimSpace(s)) && TrimSpace(TrimSpace(s)) == TrimSpace(s)
  {
    TrimLeftTrims(s);
    TrimRightTrims(TrimLeft(s));
    TrimmedStays(TrimSpace(s));
  }

  lemma {:induction false} TrimLeftDrops(a: string, s: string)
    requires AllSpace(a) && (s != [] ==> !IsSpace(s[0]))
    ensures TrimLeft(a + s) == s
  {
    if a == [] {
      assert a + s == s;
    } else {
      assert (a + s)[1..] == a[1..] + s;
      TrimLeftDrops(a[1..], s);
    }
  }

  lemma {:induction false} TrimRightDrops(s: string, b: string)
    requires AllSpace(b) && (s != [] ==> !IsSpace(s[|s| - 1]))
    ensures TrimRight(s + b) == s
  {
    if b == [] {
      assert s + b == s;
    } else {
      assert (s + b)[..|s + b| - 1] == s + b[..|b| - 1];
      TrimRightDrops(s, b[..|b| - 1]);
    }
  }

  lemma {:induction false} TrimLeftOfSpace(a: string)
    requires AllSpace(a)
    ensures TrimLeft(a) == []
  {
    if a != [] {
      TrimLeftOfSpace(a[1..]);
    }
  }

  /** TrimSpace undoes white space around a text that neither starts nor ends with any. */
  lemma TrimSpaceCuts(a: string, t: string, b: string)
    requires AllSpace(a) && AllSpace(b) && Trimmed(t)
    ensures TrimSpace(a + t + b) == t
  {
    if t == [] {
      assert a + t + b == a + b && AllSpace(a + b);
      TrimLeftOfSpace(a + b);
    } else {
      assert a + t + b == a + (t + b);
      TrimLeftDrops(a, t + b);
      TrimRightDrops(t, b);
    }
  }

  /** And every text is of that kind. */
  lemma EveryTextIsPadded(s: string) returns (a: string, b: string)
    ensures AllSpace(a) && AllSpace(b) && Trimmed(TrimSpace(s)) && s == a + TrimSpace(s) + b
  {
    var t, u: string;
    a, t := SplitLeft(s);
    u, b := SplitRight(t);
    TrimSpaceCuts(a, u, b);
    assert s == a + u + b;
  }

  lemma {:induction false} SplitLeft(s: string) returns (a: string, t: string)
    ensures s == a + t && AllSpace(a) && (t != [] ==> !IsSpace(t[0]))
  {
    if s != [] && IsSpace(s[0]) {
      a, t := SplitLeft(s[1..]);
      a := [s[0]] + a;
      assert s == a + t;
    } else {
      a, t := [], s;
    }
  }

  lemma {:induction false} SplitRight(t: string) returns (u: string, b: string)
    requires t != [] ==> !IsSpace(t[0])
    ensures t == u + b && AllSpace(b) && Trimmed(u)
  {
    if t != [] && IsSpace(t[|t| - 1]) {
      u, b := SplitRight(t[..|t| - 1]);
      b := b + [t[|t| - 1]];
      assert t == u + b;
    } else {
      u, b := t, [];
    }
  }

  // ---------------------------------------------------------------------------
  // Fields

  /** The length of the leading run without white space. */
  function WordLength(s: string): (n: nat)
    ensures n <= |s| && NoSpace(s[..n]) && (n < |s| ==> IsSpace(s[n]))
  {
    if s == [] || IsSpace(s[0]) then 0
    else
      var n := WordLength(s[1..]);
      assert s[..n + 1] == [s[0]] + s[1..][..n];
      n + 1
  }

  /** The maximal runs without white space, in order. */
  function Fields(s: string): (terms: seq<string>)
    ensures forall i :: 0 <= i < |terms| ==> terms[i] != [] && NoSpace(terms[i])
    decreases |s|
  {
    if s == [] then []
    else if IsSpace(s[0]) then Fields(s[1..])
    else
      var n := WordLength(s);
      [s[..n]] + Fields(s[n..])
  }

  /** `terms` laid out with white space before, between and after: `gaps[i]` comes before
      `terms[i]`, the last gap closes the text. */
  function Layout(gaps: seq<string>, terms: seq<string>): string
    requires |gaps| == |terms| + 1
  {
    if terms == [] then gaps[0] else gaps[0] + terms[0] + Layout(gaps[1..], terms[1..])
  }

  ghost predicate IsLayout(gaps: seq<string>, terms: seq<string>) {
    && |gaps| == |terms| + 1
    && (forall i :: 0 <= i < |gaps| ==> AllSpace(gaps[i]))
    && (forall i :: 0 < i < |terms| ==> gaps[i] != [])
    && (forall i :: 0 <= i < |terms| ==> terms[i] != [] && NoSpace(terms[i]))
  }

  lemma {:induction false} SkipGap(gap: string, s: string)
    requires AllSpace(gap)
    ensures Fields(gap + s) == Fields(s)
  {
    if gap == [] {
      assert gap + s == s;
    } else {
      assert (gap + s)[1..] == gap[1..] + s;
      SkipGap(gap[1..], s);
    }
  }

  lemma {:induction false} WordRuns(t: string, s: string)
    requires NoSpace(t) && (s != [] ==> IsSpace(s[0]))
    ensures WordLength(t + s) == |t|
  {
    if t == [] {
      assert t + s == s;
    } else {
      assert (t + s)[1..] == t[1..] + s;
      WordRuns(t[1..], s);
    }
  }

  /** Fields recovers the terms from any layout of them. */
  lemma {:induction false} FieldsOfLayout(gaps: seq<string>, terms: seq<string>)
    requires IsLayout(gaps, terms)
    ensures Fields(Layout(gaps, terms)) == terms
    decreases |terms|
  {
    if terms == [] {
      SkipGap(gaps[0], []);
      assert gaps[0] + [] == gaps[0];
    } else {
      var rest := Layout(gaps[1..], terms[1..]);
      assert Layout(gaps, terms) == gaps[0] + (terms[0] + rest);
      SkipGap(gaps[0], terms[0] + rest);
      assert |terms| > 1 ==> rest[0] == gaps[1][0];
      assert |terms| == 1 ==> rest == gaps[1];
      WordRuns(terms[0], rest);
      assert (terms[0] + rest)[..|terms[0]|] == terms[0] && (terms[0] + rest)[|terms[0]|..] == rest;
      FieldsOfLayout(gaps[1..], terms[1..]);
    }
  }

  lemma WidenFirstGap(c: char, gaps: seq<string>, terms: seq<string>) returns (wider: seq<string>)
    requires IsLayout(gaps, terms) && IsSpace(c)
    ensures IsLayout(wider, terms) && Layout(wider, terms) == [c] + Layout(gaps, terms)
    ensures wider[0] != []
  {
    wider := gaps[0 := [c] + gaps[0]];
    assert wider[1..] == gaps[1..];
    if terms != [] {
      assert [c] + gaps[0] + terms[0] + Layout(gaps[1..], terms[1..])
          == [c] + (gaps[0] + terms[0] + Layout(gaps[1..], terms[1..]));
    }
  }

  lemma PushTerm(t: string, gaps: seq<string>, terms: seq<string>) returns (more: seq<string>)
    requires IsLayout(gaps, terms) && t != [] && NoSpace(t)
    requires terms != [] ==> gaps[0] != []
    ensures IsLayout(more, [t] + terms) && Layout(more, [t] + terms) == t + Layout(gaps, terms)
    ensures more[0] == []
  {
    more := [[]] + gaps;
    assert more[1..] == gaps && ([t] + terms)[1..] == terms;
    assert [] + t + Layout(gaps, terms) == t + Layout(gaps, terms);
  }

  /** Every text is a layout of its fields, so FieldsOfLayout says all there is to say. */
  lemma {:induction false} EveryTextIsALayout(s: string) returns (gaps: seq<string>)
    ensures IsLayout(gaps, Fields(s)) && Layout(gaps, Fields(s)) == s
    ensures s != [] && IsSpace(s[0]) ==> gaps[0] != []
    decreases |s|
  {
    if s == [] {
      gaps := [[]];
    } else if IsSpace(s[0]) {
      var inner := EveryTextIsALayout(s[1..]);
      gaps := WidenFirstGap(s[0], inner, Fields(s[1..]));
      assert s == [s[0]] + s[1..];
    } else {
      var n := WordLength(s);
      var inner := EveryTextIsALayout(s[n..]);
      assert Fields(s[n..]) != [] ==> s[n..] != [];
      gaps := PushTerm(s[..n], inner, Fields(s[n..]));
      assert s == s[..n] + s[n..];
    }
  }

  // ---------------------------------------------------------------------------
  // UTF-8

  /** The octets of one character, by the table in section 3 of RFC 3629. */
  function Octets(c: char): (o: seq<int>)
    ensures o != [] && forall i :: 0 <= i < |o| ==> 0 <= o[i] < 256
  {
    var n := c as int;
    if n < 0x80 then [n]
    else if n < 0x800 then [0xC0 + n / 64, 0x80 + n % 64]
    else if n < 0x10000 then [0xE0 + n / 64 / 64, 0x80 + n / 64 % 64, 0x80 + n % 64]
    else [0xF0 + n / 64 / 64 / 64, 0x80 + n / 64 / 64 % 64, 0x80 + n / 64 % 64, 0x80 + n % 64]
  }

  function Utf8(s: string): seq<int> {
    if s == [] then [] else Octets(s[0]) + Utf8(s[1..])
  }

  /** The character that a well-formed sequence of octets stands for: the leading octet says how
      many follow, each of the others holds six bits. */
  function CodePoint(o: seq<int>): int
    requires o != []
  {
    if |o| == 1 then o[0]
    else if |o| == 2 then (o[0] - 192) * 64 + (o[1] - 128)
    else if |o| == 3 then ((o[0] - 224) * 64 + (o[1] - 128)) * 64 + (o[2] - 128)
    else if |o| == 4 then (((o[0] - 240) * 64 + (o[1] - 128)) * 64 + (o[2] - 128)) * 64 + (o[3] - 128)
    else -1
  }

  /** The leading octet tells the length, all others are continuation octets, and what they
      encode is the character, in the shortest form. */
  lemma OctetsDecode(c: char)
    ensures var o := Octets(c);
      && CodePoint(o) == c as int && 1 <= |o| <= 4
      && (forall i :: 1 <= i < |o| ==> 128 <= o[i] < 192)
      && (|o| == 1 <==> o[0] < 128) && (|o| == 2 <==> 192 <= o[0] < 224)
      && (|o| == 3 <==> 224 <= o[0] < 240) && (|o| == 4 <==> 240 <= o[0] < 248)
      && (|o| > 1 ==> c as int >= 128) && (|o| > 2 ==> c as int >= 2048) && (|o| > 3 ==> c as int >= 65536)
  {
  }

  lemma {:induction false} Utf8Concatenates(s: string, t: string)
    ensures Utf8(s + t) == Utf8(s) + Utf8(t)
  {
    if s == [] {
      assert s + t == t;
    } else {
      assert (s + t)[1..] == s[1..] + t;
      Utf8Concatenates(s[1..], t);
      assert Octets(s[0]) + (Utf8(s[1..]) + Utf8(t)) == Octets(s[0]) + Utf8(s[1..]) + Utf8(t);
    }
  }
}
