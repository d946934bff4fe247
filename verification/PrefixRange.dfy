/** The prefix search of internal/repo/word_repo.go: prefixRange and PrefixUpperBound turn
    "starts with" into a scan of a byte range of the BINARY index.  The range works because
    the byte order of UTF-8 is the order of code points (RFC 3629, sections 1 and 3). */
module PrefixRange {
  import opened Options
  import opened Text

  const MAX_RUNE: char := '\U{10FFFF}'

  // ---------------------------------------------------------------------------
  // The two orders

  /** SQLite's BINARY collation: memcmp, then the shorter text first. */
  predicate BytesLess(a: seq<int>, b: seq<int>) {
    b != [] && (a == [] || a[0] < b[0] || (a[0] == b[0] && BytesLess(a[1..], b[1..])))
  }

  predicate Less(s: string, t: string) {
    t != [] && (s == [] || s[0] < t[0] || (s[0] == t[0] && Less(s[1..], t[1..])))
  }

  lemma {:induction false} FirstDifference(a: seq<int>, b: seq<int>, i: nat)
    requires i < |a| && i < |b| && a[..i] == b[..i] && a[i] < b[i]
    ensures BytesLess(a, b) && !BytesLess(b, a)
    decreases i
  {
    if i > 0 {
      assert a[0] == a[..i][0] == b[..i][0] == b[0];
      assert a[1..][..i - 1] == a[..i][1..] && b[1..][..i - 1] == b[..i][1..];
      FirstDifference(a[1..], b[1..], i - 1);
    }
  }

  /** Where the octets of a smaller character first differ, and that they are smaller there. */
  lemma OctetsDiffer(c: char, d: char) returns (i: nat)
    requires c < d
    ensures i < |Octets(c)| && i < |Octets(d)|
    ensures Octets(c)[..i] == Octets(d)[..i] && Octets(c)[i] < Octets(d)[i]
  {
    var m, n := c as int, d as int;
    SixBits(m, n);
    SixBits(m / 64, n / 64);
    SixBits(m / 64 / 64, n / 64 / 64);
    if |Octets(c)| != |Octets(d)| || Octets(c)[0] != Octets(d)[0] {
      i := 0;
    } else if Octets(c)[1] != Octets(d)[1] {
      i := 1;
    } else if Octets(c)[2] != Octets(d)[2] {
      i := 2;
    } else {
      i := 3;
    }
  }

  lemma SixBits(m: int, n: int)
    requires 0 <= m <= n
    ensures 0 <= m / 64 <= n / 64 && (m / 64 == n / 64 ==> n % 64 - m % 64 == n - m)
  {
  }

  lemma SmallerFirst(c: char, d: char, x: seq<int>, y: seq<int>)
    requires c < d
    ensures BytesLess(Octets(c) + x, Octets(d) + y) && !BytesLess(Octets(d) + y, Octets(c) + x)
  {
    var i := OctetsDiffer(c, d);
    assert (Octets(c) + x)[..i] == Octets(c)[..i] && (Octets(d) + y)[..i] == Octets(d)[..i];
    FirstDifference(Octets(c) + x, Octets(d) + y, i);
  }

  lemma {:induction false} CommonOctets(o: seq<int>, x: seq<int>, y: seq<int>)
    ensures BytesLess(o + x, o + y) <==> BytesLess(x, y)
  {
    if o == [] {
      assert o + x == x && o + y == y;
    } else {
      assert (o + x)[1..] == o[1..] + x && (o + y)[1..] == o[1..] + y;
      CommonOctets(o[1..], x, y);
    }
  }

  /** The byte order of UTF-8 is the code-point order. */
  lemma {:induction false} Utf8PreservesOrder(s: string, t: string)
    ensures BytesLess(Utf8(s), Utf8(t)) <==> Less(s, t)
  {
    if s != [] && t != [] {
      if s[0] < t[0] {
        SmallerFirst(s[0], t[0], Utf8(s[1..]), Utf8(t[1..]));
      } else if t[0] < s[0] {
        SmallerFirst(t[0], s[0], Utf8(t[1..]), Utf8(s[1..]));
      } else {
        CommonOctets(Octets(s[0]), Utf8(s[1..]), Utf8(t[1..]));
        Utf8PreservesOrder(s[1..], t[1..]);
      }
    }
  }

  // ---------------------------------------------------------------------------
  // The upper bound

  /** The next character, jumping over the surrogates; none after the last. */
  function Next(c: char): Option<char> {
    var n := c as int + 1;
    var n := if 0xD800 <= n <= 0xDFFF then 0xE000 else n;
    if n <= 0x10FFFF then Some(n as char) else None
  }

  lemma NextIsNext(c: char, d: char)
    ensures Next(c).Some? ==> (c < d <==> Next(c).value <= d)
    ensures Next(c).None? <==> c == MAX_RUNE
    ensures Next(c).None? ==> d <= c
  {
  }

  function UpperBound(p: string): Option<string> {
    if p == [] then None else
      match Next(p[|p| - 1])
      case Some(c) => Some(p[..|p| - 1] + [c])
      case None => UpperBound(p[..|p| - 1])
  }

  method PrefixUpperBound(prefix: string) returns (upper: string, ok: bool)
    ensures UpperBound(prefix) == if ok then Some(upper) else None
  {
    var runes := new char[|prefix|](i requires 0 <= i < |prefix| => prefix[i]);
    assert runes[..] == prefix;
    var i := |prefix| - 1;
    assert prefix[..|prefix|] == prefix;
    while i >= 0
      invariant -1 <= i < |prefix| && runes[..] == prefix
      invariant UpperBound(prefix) == UpperBound(prefix[..i + 1])
    {
      var next := runes[i] as int + 1;
      if 0xD800 <= next && next <= 0xDFFF {
        next := 0xE000;
      }
      assert prefix[..i + 1][..i] == prefix[..i] && prefix[..i + 1][i] == prefix[i];
      if next <= 0x10FFFF {
        runes[i] := next as char;
        assert runes[..i + 1] == prefix[..i] + [next as char];
        return runes[..i + 1], true;
      }
      i := i - 1;
    }
    return "", false;
  }

  lemma {:induction false} UpperBoundByFront(p: string)
    requires p != []
    ensures UpperBound(p) ==
            match UpperBound(p[1..])
            case Some(u) => Some([p[0]] + u)
            case None => (match Next(p[0]) case Some(c) => Some([c]) case None => None)
  {
    var n := |p| - 1;
    if n > 0 {
      assert p[1..][n - 1] == p[n] && p[1..][..n - 1] == p[..n][1..];
      UpperBoundByFront(p[..n]);
      if c :| Next(p[n]) == Some(c) {
        assert p[..n] + [c] == [p[0]] + (p[1..][..n - 1] + [c]);
      }
    } else {
      assert p[1..] == [] && p[..0] == [];
      if Next(p[0]).Some? {
        assert p[..0] + [Next(p[0]).value] == [Next(p[0]).value];
      }
    }
  }

  /** prefixRange: the scan starts at the prefix and stops before its upper bound, if any. */
  datatype Range = Range(low: string, high: Option<string>)

  function PrefixToRange(prefix: string): Range {
    Range(prefix, UpperBound(prefix))
  }

  /** What the WHERE clause compares: the bytes of `word_lower` with the bytes of the bounds. */
  predicate Accepts(range: Range, word: seq<int>) {
    !BytesLess(word, Utf8(range.low)) && (range.high.Some? ==> BytesLess(word, Utf8(range.high.value)))
  }

  predicate Within(p: string, s: string) {
    !Less(s, p) && (UpperBound(p).Some? ==> Less(s, UpperBound(p).value))
  }

  lemma {:induction false} WithinIffPrefix(p: string, s: string)
    ensures Within(p, s) <==> p <= s
    decreases |p|
  {
    if p != [] {
      UpperBoundByFront(p);
      if s != [] {
        NextIsNext(p[0], s[0]);
        WithinIffPrefix(p[1..], s[1..]);
        assert p <= s <==> p[0] == s[0] && p[1..] <= s[1..];
        var u := UpperBound(p);
        if UpperBound(p[1..]).Some? {
          assert u.value[1..] == UpperBound(p[1..]).value;
        } else if u.Some? {
          assert u.value[1..] == [];
          assert Less(s, u.value) <==> s[0] < u.value[0];
        }
      }
    }
  }

  /** The byte range contains the encoding of a text exactly when the text starts with the
      prefix, whatever the prefix: empty, next to the surrogates, or ending in U+10FFFF. */
  lemma RangeIsPrefix(p: string, s: string)
    ensures Accepts(PrefixToRange(p), Utf8(s)) <==> p <= s
  {
    WithinIffPrefix(p, s);
    Utf8PreservesOrder(s, p);
    if UpperBound(p).Some? {
      Utf8PreservesOrder(s, UpperBound(p).value);
    }
  }

  // ---------------------------------------------------------------------------
  // The bound is the least one

  lemma {:induction false} LessIsStrict(s: string, t: string)
    ensures !Less(s, s)
    ensures Less(s, t) || s == t || Less(t, s)
    ensures !(Less(s, t) && Less(t, s))
    decreases |s| + |t|
  {
    if s != [] {
      LessIsStrict(s[1..], if t == [] then [] else t[1..]);
      assert t != [] && s[0] == t[0] && s[1..] == t[1..] ==> s == [s[0]] + s[1..] == t;
    }
  }

  /** `u` is greater than every text that starts with `p`. */
  ghost predicate Bounds(p: string, u: string) {
    forall e :: p <= e ==> Less(e, u)
  }

  lemma BoundIsNotBelow(p: string, v: string)
    requires Bounds(p, v)
    ensures UpperBound(p).Some? && !Less(v, UpperBound(p).value)
  {
    assert Less(p, v);
    LessIsStrict(p, v);
    WithinIffPrefix(p, v);
    LessIsStrict(v, v);
  }

  /** PrefixUpperBound returns the least text greater than every extension of the prefix; it
      returns none exactly when the prefix is empty or all U+10FFFF, and then there is none. */
  lemma UpperBoundIsLeast(p: string)
    ensures UpperBound(p).Some? ==>
      && Bounds(p, UpperBound(p).value)
      && (forall v :: Bounds(p, v) ==> v == UpperBound(p).value || Less(UpperBound(p).value, v))
    ensures UpperBound(p).None? <==> (forall i :: 0 <= i < |p| ==> p[i] == MAX_RUNE)
    ensures UpperBound(p).None? ==> forall v :: !Bounds(p, v)
  {
    NoneIffAllMax(p);
    forall v | Bounds(p, v)
      ensures UpperBound(p).Some? && (v == UpperBound(p).value || Less(UpperBound(p).value, v))
    {
      BoundIsNotBelow(p, v);
      LessIsStrict(v, UpperBound(p).value);
    }
    if UpperBound(p).Some? {
      forall e | p <= e
        ensures Less(e, UpperBound(p).value)
      {
        WithinIffPrefix(p, e);
      }
    }
  }

  lemma {:induction false} NoneIffAllMax(p: string)
    ensures UpperBound(p).None? <==> (forall i :: 0 <= i < |p| ==> p[i] == MAX_RUNE)
  {
    if p != [] {
      NextIsNext(p[|p| - 1], MAX_RUNE);
      NoneIffAllMax(p[..|p| - 1]);
    }
  }
}
