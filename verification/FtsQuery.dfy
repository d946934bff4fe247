/** The fuzzy search of internal/repo/word_repo.go: FTSMatch writes an FTS5 query, and the
    FTS5 tokenizer and the phrase/prefix/AND part of its grammar read it back. */
module FtsQuery {
  import opened Options
  import opened Text

  // ---------------------------------------------------------------------------
  // Writing

  function Doubled(t: string): string {
    if t == [] then [] else (if t[0] == '"' then "\"\"" else [t[0]]) + Doubled(t[1..])
  }

  /** A term as a quoted prefix phrase. */
  function Wrap(t: string): string {
    "\"" + Doubled(t) + "\"*"
  }

  function WrapAll(terms: seq<string>): seq<string> {
    seq(|terms|, i requires 0 <= i < |terms| => Wrap(terms[i]))
  }

  /** strings.Join(parts, " AND "). */
  function JoinAnd(parts: seq<string>): string {
    if parts == [] then [] else if |parts| == 1 then parts[0] else parts[0] + " AND " + JoinAnd(parts[1..])
  }

  /** The query for a text; `lower` stands for strings.ToLower. */
  function Query(q: string, lower: string -> string): string {
    JoinAnd(WrapAll(Fields(lower(q))))
  }

  method FTSMatch(q: string, lower: string -> string) returns (match_: string)
    ensures match_ == Query(q, lower)
  {
    var fields := Fields(lower(q));
    var terms := new string[|fields|](i requires 0 <= i < |fields| => fields[i]);
    for i := 0 to terms.Length
      invariant forall k :: 0 <= k < i ==> terms[k] == Wrap(fields[k])
      invariant forall k :: i <= k < terms.Length ==> terms[k] == fields[k]
    {
      terms[i] := Wrap(terms[i]);
    }
    assert terms[..] == WrapAll(fields);
    match_ := JoinAnd(terms[..]);
  }

  // ---------------------------------------------------------------------------
  // Reading

  datatype Token = Str(text: string) | Star | And | Or | Not | Word(text: string) | Punct(c: char)

  predicate IsBlank(c: char) {
    c == ' ' || c == '\t' || c == '\n' || c == '\r'
  }

  predicate IsPunct(c: char) {
    || c == '(' || c == ')' || c == '{' || c == '}' || c == ':'
    || c == ',' || c == '+' || c == '-' || c == '^'
  }

  predicate IsBareword(c: char) {
    || 'a' <= c <= 'z' || 'A' <= c <= 'Z' || '0' <= c <= '9'
    || c == '_' || c == '\U{1A}' || c as int >= 0x80
  }

  /** The rest of a string literal after its opening quote: its text and what follows it. */
  function Literal(s: string): (r: Option<(string, string)>)
    ensures r.Some? ==> |r.value.1| < |s|
  {
    if s == [] || s[0] == '\0' then None  // unterminated string
    else if s[0] == '"' then
      if |s| > 1 && s[1] == '"' then
        (match Literal(s[2..]) case None => None case Some((text, rest)) => Some(("\"" + text, rest)))
      else Some(("", s[1..]))
    else
      match Literal(s[1..]) case None => None case Some((text, rest)) => Some(([s[0]] + text, rest))
  }

  function BarewordLength(s: string): (n: nat)
    ensures n <= |s|
  {
    if s != [] && IsBareword(s[0]) then 1 + BarewordLength(s[1..]) else 0
  }

  function Keyword(w: string): Token {
    if w == "AND" then And else if w == "OR" then Or else if w == "NOT" then Not else Word(w)
  }

  function Prepend(t: Token, ts: Option<seq<Token>>): Option<seq<Token>> {
    if ts.Some? then Some([t] + ts.value) else None
  }

  /** The tokenizer; the query is a C string, so a NUL ends it. */
  function Tokens(s: string): Option<seq<Token>>
    decreases |s|
  {
    if s == [] || s[0] == '\0' then Some([])
    else if IsBlank(s[0]) then Tokens(s[1..])
    else if s[0] == '"' then
      (match Literal(s[1..]) case None => None case Some((text, rest)) => Prepend(Str(text), Tokens(rest)))
    else if s[0] == '*' then Prepend(Star, Tokens(s[1..]))
    else if IsPunct(s[0]) then Prepend(Punct(s[0]), Tokens(s[1..]))
    else if IsBareword(s[0]) then
      var n := BarewordLength(s);
      Prepend(Keyword(s[..n]), Tokens(s[n..]))
    else None
  }

  datatype Phrase = Phrase(text: string, prefix: bool)

  /** phrase ( AND phrase )*, where a phrase is a string with an optional star.  Anything else
      in the grammar is not part of this model and reads as None. */
  function Conjunction(ts: seq<Token>): Option<seq<Phrase>>
    decreases |ts|
  {
    if ts == [] || !ts[0].Str? then None
    else
      var starred := |ts| > 1 && ts[1] == Star;
      var rest := if starred then ts[2..] else ts[1..];
      var phrase := Phrase(ts[0].text, starred);
      if rest == [] then Some([phrase])
      else if rest[0] != And then None
      else match Conjunction(rest[1..]) case None => None case Some(more) => Some([phrase] + more)
  }

  function Parse(query: string): Option<seq<Phrase>> {
    match Tokens(query) case None => None case Some(ts) => Conjunction(ts)
  }

  // ---------------------------------------------------------------------------
  // The round trip

  function PrefixPhrases(terms: seq<string>): seq<Phrase> {
    seq(|terms|, i requires 0 <= i < |terms| => Phrase(terms[i], true))
  }

  /** What the tokenizer must see: user text in string literals only. */
  function QuotedTokens(terms: seq<string>): seq<Token> {
    if terms == [] then []
    else if |terms| == 1 then [Str(terms[0]), Star]
    else [Str(terms[0]), Star, And] + QuotedTokens(terms[1..])
  }

  lemma {:induction false} LiteralRoundTrip(t: string, rest: string)
    requires rest != [] ==> rest[0] != '"'
    ensures Literal(Doubled(t) + "\"" + rest) == if '\0' in t then None else Some((t, rest))
  {
    var s := Doubled(t) + "\"" + rest;
    if t == [] {
      assert s == "\"" + rest && s[1..] == rest;
    } else {
      var tail := Doubled(t[1..]) + "\"" + rest;
      LiteralRoundTrip(t[1..], rest);
      assert t == [t[0]] + t[1..];
      if t[0] == '"' {
        assert s == "\"\"" + tail && s[2..] == tail;
      } else {
        assert s == [t[0]] + tail && s[1..] == tail;
      }
    }
  }

  lemma AndIsAWord(rest: string)
    ensures BarewordLength("AND " + rest) == 3
  {
    var w := "AND " + rest;
    assert w[1..] == "ND " + rest && w[1..][1..] == "D " + rest && w[1..][1..][1..] == " " + rest;
    assert BarewordLength(" " + rest) == 0;
    assert BarewordLength("D " + rest) == 1;
    assert BarewordLength("ND " + rest) == 2;
  }

  lemma AndIsKeyword(rest: string)
    requires rest != [] && rest[0] == '"'
    ensures Tokens(" AND " + rest) == Prepend(And, Tokens(rest))
  {
    var w := "AND " + rest;
    AndIsAWord(rest);
    assert (" AND " + rest)[1..] == w;
    assert w[..3] == "AND" && w[3..] == " " + rest && (" " + rest)[1..] == rest;
    assert Tokens(" " + rest) == Tokens(rest);
    assert Tokens(w) == Prepend(Keyword(w[..3]), Tokens(w[3..]));
  }

  ghost predicate AnyNul(terms: seq<string>) {
    exists i :: 0 <= i < |terms| && '\0' in terms[i]
  }

  lemma AnyNulByFront(terms: seq<string>)
    requires terms != []
    ensures AnyNul(terms) <==> '\0' in terms[0] || AnyNul(terms[1..])
  {
    if i :| 0 <= i < |terms| && '\0' in terms[i] {
      assert i > 0 ==> terms[1..][i - 1] == terms[i];
    }
    if i :| 0 <= i < |terms[1..]| && '\0' in terms[1..][i] {
      assert terms[1..][i] == terms[i + 1];
    }
  }

  ghost function Expected(terms: seq<string>): Option<seq<Token>> {
    if AnyNul(terms) then None else Some(QuotedTokens(terms))
  }

  lemma OneTermTokens(t: string)
    ensures Tokens(Wrap(t)) == if '\0' in t then None else Some([Str(t), Star])
  {
    FirstTermTokens(t, "");
    assert Wrap(t) + "" == Wrap(t);
    assert [Str(t)] + ([Star] + []) == [Str(t), Star];
  }

  lemma {:induction false} QueryTokens(terms: seq<string>)
    requires terms != []
    ensures Tokens(JoinAnd(WrapAll(terms))) == Expected(terms)
    decreases |terms|
  {
    AnyNulByFront(terms);
    JoinByFront(terms);
    if |terms| == 1 {
      OneTermTokens(terms[0]);
    } else {
      var rest := JoinAnd(WrapAll(terms[1..]));
      QueryTokens(terms[1..]);
      assert Tokens(rest) == Expected(terms[1..]);
      NextTermTokens(terms[0], rest);
    }
  }

  lemma JoinByFront(terms: seq<string>)
    requires terms != []
    ensures |terms| == 1 ==> JoinAnd(WrapAll(terms)) == Wrap(terms[0])
    ensures |terms| > 1 ==>
      var rest := JoinAnd(WrapAll(terms[1..]));
      rest != [] && rest[0] == '"' && JoinAnd(WrapAll(terms)) == Wrap(terms[0]) + (" AND " + rest)
  {
    var parts := WrapAll(terms);
    assert parts[1..] == WrapAll(terms[1..]);
    if |terms| > 1 {
      var rest := JoinAnd(parts[1..]);
      assert parts[1] == Wrap(terms[1]);
      assert Wrap(terms[0]) + " AND " + rest == Wrap(terms[0]) + (" AND " + rest);
    }
  }

  lemma ThreeInFront(a: Token, b: Token, c: Token, ts: seq<Token>)
    ensures Prepend(a, Prepend(b, Prepend(c, Some(ts)))) == Some([a, b, c] + ts)
  {
    assert [a] + ([b] + ([c] + ts)) == [a, b, c] + ts;
  }

  lemma NextTermTokens(t: string, rest: string)
    requires rest != [] && rest[0] == '"'
    ensures Tokens(Wrap(t) + (" AND " + rest)) ==
            if '\0' in t || Tokens(rest).None? then None else Some([Str(t), Star, And] + Tokens(rest).value)
  {
    FirstTermTokens(t, " AND " + rest);
    AndIsKeyword(rest);
    if Tokens(rest).Some? {
      ThreeInFront(Str(t), Star, And, Tokens(rest).value);
    }
  }

  lemma FirstTermTokens(t: string, after: string)
    ensures Tokens(Wrap(t) + after) ==
            if '\0' in t then None else Prepend(Str(t), Prepend(Star, Tokens(after)))
  {
    var s := Wrap(t) + after;
    assert s[1..] == Doubled(t) + "\"" + ("*" + after);
    LiteralRoundTrip(t, "*" + after);
    assert ("*" + after)[1..] == after;
  }

  lemma {:induction false} QuotedTokensParse(terms: seq<string>)
    requires terms != []
    ensures Conjunction(QuotedTokens(terms)) == Some(PrefixPhrases(terms))
    decreases |terms|
  {
    var ts := QuotedTokens(terms);
    if |terms| == 1 {
      assert ts == [Str(terms[0]), Star];
      assert PrefixPhrases(terms) == [Phrase(terms[0], true)];
    } else {
      assert ts == [Str(terms[0]), Star, And] + QuotedTokens(terms[1..]);
      assert ts[2..] == [And] + QuotedTokens(terms[1..]) && ts[2..][1..] == QuotedTokens(terms[1..]);
      QuotedTokensParse(terms[1..]);
      assert PrefixPhrases(terms) == [Phrase(terms[0], true)] + PrefixPhrases(terms[1..]);
    }
  }

  lemma {:induction false} NulIsInAField(s: string)
    ensures '\0' in s <==> AnyNul(Fields(s))
    decreases |s|
  {
    if s != [] {
      if IsSpace(s[0]) {
        assert s == [s[0]] + s[1..] && s[0] != '\0';
        NulIsInAField(s[1..]);
      } else {
        var n := WordLength(s);
        assert s == s[..n] + s[n..];
        assert Fields(s)[1..] == Fields(s[n..]);
        NulIsInAField(s[n..]);
        AnyNulByFront(Fields(s));
      }
    }
  }

  lemma {:induction false} BlankHasNoFields(s: string)
    ensures Fields(s) == [] <==> AllSpace(s)
    decreases |s|
  {
    if s != [] && IsSpace(s[0]) {
      BlankHasNoFields(s[1..]);
      assert forall i :: 0 < i < |s| ==> s[i] == s[1..][i - 1];
    }
  }

  /** The query is empty exactly for blank text.  Otherwise it tokenizes exactly when the
      text has no NUL, and then the user's text is in string literals only and the query means
      the lower-cased white-space separated terms, in order, each as a prefix phrase. */
  lemma QueryMeansTerms(q: string, lower: string -> string)
    ensures Query(q, lower) == "" <==> AllSpace(lower(q))
    ensures !AllSpace(lower(q)) ==>
      var terms := Fields(lower(q));
      && (Parse(Query(q, lower)).Some? <==> '\0' !in lower(q))
      && ('\0' !in lower(q) ==>
            && Tokens(Query(q, lower)) == Some(QuotedTokens(terms))
            && Parse(Query(q, lower)) == Some(PrefixPhrases(terms)))
  {
    var terms := Fields(lower(q));
    BlankHasNoFields(lower(q));
    NulIsInAField(lower(q));
    if terms != [] {
      QueryTokens(terms);
      assert WrapAll(terms)[0] == Wrap(terms[0]);
      QuotedTokensParse(terms);
    }
  }
}
