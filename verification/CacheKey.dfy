/** The front of Synthesize in internal/tts/service.go, which validates and normalizes a
    request, and the key behind cachePath: "resource|speaker|rate|text".  SHA-256 is taken to
    be injective, so two requests share a cache file exactly when they share this string. */
module CacheKey {
  import opened Text

  const SLOWEST: int := -50
  const FASTEST: int := 100

  datatype Request = Request(text: string, speaker: string, rate: int)

  /** The allowlisted speakers, and how long a text may be to be spoken and to be cached. */
  datatype Limits = Limits(speakers: set<string>, maxText: nat, maxCached: nat)

  datatype Plan =
    | InvalidText
    | SpeakerNotAllowed
    | Direct(req: Request)  // spoken, but not cached
    | Keyed(req: Request)   // cached under the key of the normalized request

  function Clamp(n: int): int {
    if n < SLOWEST then SLOWEST else if n > FASTEST then FASTEST else n
  }

  function PlanOf(l: Limits, req: Request): Plan {
    var text := TrimSpace(req.text);
    if text == "" || |text| > l.maxText then InvalidText
    else if req.speaker !in l.speakers then SpeakerNotAllowed
    else
      var req' := Request(text, req.speaker, Clamp(req.rate));
      if |text| > l.maxCached then Direct(req') else Keyed(req')
  }

  /** The nearest rate that the upstream takes, between -50 and 100. */
  lemma ClampIsNearest(n: int, r: int)
    ensures -50 <= Clamp(n) <= 100
    ensures -50 <= r <= 100 && n <= r ==> Clamp(n) <= r
    ensures -50 <= r <= 100 && n >= r ==> Clamp(n) >= r
    ensures -50 <= n <= 100 ==> Clamp(n) == n
  {
  }

  /** Case by case: what becomes of a request. */
  lemma PlanDecides(l: Limits, req: Request)
    ensures var text, plan := TrimSpace(req.text), PlanOf(l, req);
      var valid := text != "" && |text| <= l.maxText;
      && (plan == InvalidText <==> !valid)
      && (plan == SpeakerNotAllowed <==> valid && req.speaker !in l.speakers)
      && (plan.Direct? <==> valid && req.speaker in l.speakers && |text| > l.maxCached)
      && (plan.Keyed? <==> valid && req.speaker in l.speakers && |text| <= l.maxCached)
      && (plan.Direct? || plan.Keyed? ==>
            && plan.req.text == text && plan.req.speaker == req.speaker
            && plan.req.rate == if req.rate < -50 then -50 else if req.rate > 100 then 100 else req.rate)
  {
  }

  /** The longest text that is cached. */
  function Longest(l: Limits): nat {
    if l.maxText < l.maxCached then l.maxText else l.maxCached
  }

  /** The normalized requests that are cached. */
  predicate IsKeyed(l: Limits, req: Request) {
    && req.text != "" && Trimmed(req.text) && |req.text| <= Longest(l)
    && req.speaker in l.speakers && SLOWEST <= req.rate <= FASTEST
  }

  /** Planning a normalized request again changes nothing, and the requests planned for the
      cache are exactly the IsKeyed ones. */
  lemma PlanNormalizes(l: Limits, req: Request)
    ensures PlanOf(l, req).Keyed? ==>
      IsKeyed(l, PlanOf(l, req).req) && PlanOf(l, PlanOf(l, req).req) == PlanOf(l, req)
    ensures IsKeyed(l, req) ==> PlanOf(l, req) == Keyed(req)
  {
    TrimIdempotent(req.text);
    TrimmedStays(TrimSpace(req.text));
    if Trimmed(req.text) {
      TrimmedStays(req.text);
    }
  }

  function Digit(d: nat): char
    requires d < 10
  {
    (d + '0' as int) as char
  }

  function Digits(n: nat): (s: string)
    ensures s != [] && forall i :: 0 <= i < |s| ==> '0' <= s[i] <= '9'
  {
    if n < 10 then [Digit(n)] else Digits(n / 10) + [Digit(n % 10)]
  }

  /** The %d verb. */
  function Decimal(n: int): (s: string)
    ensures s != [] && '|' !in s
  {
    if n < 0 then "-" + Digits(-n) else Digits(n)
  }

  function Key(resource: string, speaker: string, rate: int, text: string): string {
    resource + "|" + speaker + "|" + Decimal(rate) + "|" + text
  }

  function KeyOf(resource: string, req: Request): string {
    Key(resource, req.speaker, req.rate, req.text)
  }

  function Value(s: string): int {
    if s == [] then 0 else 10 * Value(s[..|s| - 1]) + (s[|s| - 1] as int - '0' as int)
  }

  lemma {:induction false} DigitsRoundTrip(n: nat)
    ensures Value(Digits(n)) == n && (Digits(n)[0] == '0' ==> n == 0)
  {
    if n >= 10 {
      DigitsRoundTrip(n / 10);
      assert Digits(n)[..|Digits(n)| - 1] == Digits(n / 10);
    } else {
      assert [Digit(n)][..0] == [];
    }
  }

  lemma DecimalInjective(m: int, n: int)
    ensures Decimal(m) == Decimal(n) ==> m == n
  {
    DigitsRoundTrip(if m < 0 then -m else m);
    DigitsRoundTrip(if n < 0 then -n else n);
    SignShows(m);
    SignShows(n);
  }

  lemma SignShows(n: int)
    ensures n < 0 <==> Decimal(n)[0] == '-'
    ensures n < 0 ==> Decimal(n)[1..] == Digits(-n)
  {
  }

  /** A field without bars and what follows it can be told apart. */
  lemma FieldSplits(f: string, x: string, g: string, y: string)
    requires '|' !in f && '|' !in g && f + "|" + x == g + "|" + y
    ensures f == g && x == y
  {
    var all := f + "|" + x;
    NoBarBefore(f, x);
    NoBarBefore(g, y);
    assert |f| == |g|;
    assert f == all[..|f|] && g == (g + "|" + y)[..|g|];
    assert x == all[|f| + 1..] && y == (g + "|" + y)[|g| + 1..];
  }

  lemma NoBarBefore(f: string, x: string)
    requires '|' !in f
    ensures forall i :: 0 <= i < |f| ==> (f + "|" + x)[i] != '|'
    ensures (f + "|" + x)[|f|] == '|'
  {
    forall i | 0 <= i < |f|
      ensures (f + "|" + x)[i] != '|'
    {
      assert f[i] in f;
    }
  }

  /** What starts the longer speaker name: the shorter one and a rate field. */
  function Head(short: string, rate: int): string {
    short + "|" + Decimal(rate) + "|"
  }

  /** The longer speaker name continues the shorter one with a rate field. */
  predicate Continues(short: string, rate: int, long: string) {
    Head(short, rate) <= long + "|"
  }

  /** What the confused text of the shorter speaker starts with. */
  function Rest(short: string, rate: int, long: string): string
    requires Continues(short, rate, long)
  {
    (long + "|")[|Head(short, rate)|..]
  }

  /** The longer speaker name continues the shorter one, and a cached text can start with what
      is left of it: it starts without white space and leaves room for "0|x". */
  predicate Clashes(l: Limits, short: string, rate: int, long: string) {
    && SLOWEST <= rate <= FASTEST && Continues(short, rate, long)
    && var rest := Rest(short, rate, long);
      (rest == "" || !IsSpace(rest[0])) && |rest| + 3 <= Longest(l)
  }

  /** Two speakers that some pair of requests confuses. */
  ghost predicate Confusable(l: Limits, s: string, t: string) {
    && s in l.speakers && t in l.speakers
    && exists rate :: Clashes(l, s, rate, t) || Clashes(l, t, rate, s)
  }

  /** Two requests for these speakers that are different once normalized share a cache file. */
  ghost predicate Collide(l: Limits, resource: string, s: string, t: string) {
    exists a: Request, b: Request ::
      && a.speaker == s && b.speaker == t && PlanOf(l, a).Keyed? && PlanOf(l, b).Keyed?
      && PlanOf(l, a).req != PlanOf(l, b).req
      && KeyOf(resource, PlanOf(l, a).req) == KeyOf(resource, PlanOf(l, b).req)
  }

  /** The key with the resource stripped off. */
  function Tail(speaker: string, rate: int, text: string): string {
    speaker + "|" + (Decimal(rate) + "|" + text)
  }

  lemma Regroup(a: string, b: string, c: string)
    ensures a + b + c == a + (b + c)
  {
  }

  lemma KeyIsTail(resource: string, speaker: string, rate: int, text: string)
    ensures Key(resource, speaker, rate, text) == resource + "|" + Tail(speaker, rate, text)
    ensures Key(resource, speaker, rate, text)[|resource| + 1..] == Tail(speaker, rate, text)
  {
    var head, middle := resource + "|", speaker + "|";
    Regroup(head, speaker, "|");
    Regroup(head + middle, Decimal(rate), "|");
    Regroup(head + middle, Decimal(rate) + "|", text);
    Regroup(head, middle, Decimal(rate) + "|" + text);
    assert Key(resource, speaker, rate, text) == head + Tail(speaker, rate, text);
  }

  lemma SpeakerEnds(speaker: string, rate: int, text: string)
    ensures var all := Tail(speaker, rate, text);
      |speaker| < |all| && all[|speaker|] == '|' && all[..|speaker| + 1] == speaker + "|"
  {
  }

  lemma RateEnds(speaker: string, rate: int, text: string)
    ensures var all, head := Tail(speaker, rate, text), speaker + "|" + Decimal(rate) + "|";
      |head| <= |all| && all[..|head|] == head
  {
    assert Tail(speaker, rate, text) == speaker + "|" + Decimal(rate) + "|" + text;
  }

  lemma NoBarInRate(speaker: string, rate: int, text: string, k: nat)
    requires |speaker| < k <= |speaker| + |Decimal(rate)|
    ensures k < |Tail(speaker, rate, text)|
    ensures Tail(speaker, rate, text)[k] != '|'
  {
    assert Tail(speaker, rate, text)[k] == Decimal(rate)[k - |speaker| - 1];
    assert Decimal(rate)[k - |speaker| - 1] in Decimal(rate);
  }

  lemma ShorterSpeaker(s: string, r: int, x: string, t: string, q: int, y: string)
    requires |s| < |t| && Tail(s, r, x) == Tail(t, q, y)
    ensures Continues(s, r, t) && x == Rest(s, r, t) + (Decimal(q) + "|" + y)
  {
    var all, head := Tail(s, r, x), Head(s, r);
    SpeakerEnds(t, q, y);
    RateEnds(s, r, x);
    assert |head| == |s| + |Decimal(r)| + 2;
    assert |t| > |s| + |Decimal(r)| by {
      forall k | |s| < k <= |s| + |Decimal(r)|
        ensures all[k] != '|'
      {
        NoBarInRate(s, r, x, k);
      }
    }
    assert all[..|t| + 1][..|head|] == all[..|head|];
    TextStarts(s, r, x, t, q, y);
  }

  lemma TextStarts(s: string, r: int, x: string, t: string, q: int, y: string)
    requires Tail(s, r, x) == Tail(t, q, y) && Continues(s, r, t)
    ensures x == Rest(s, r, t) + (Decimal(q) + "|" + y)
  {
    var head, rest, last := Head(s, r), Rest(s, r, t), Decimal(q) + "|" + y;
    Regroup(s + "|", Decimal(r), "|");
    Regroup(s + "|", Decimal(r) + "|", x);
    assert head + x == Tail(s, r, x);
    assert head + rest == t + "|";
    Regroup(head, rest, last);
    assert (head + x)[|head|..] == x && (head + (rest + last))[|head|..] == rest + last;
  }

  /** A collision with the shorter speaker needs a clash. */
  lemma CollisionClashes(l: Limits, resource: string, a: Request, b: Request)
    requires IsKeyed(l, a) && IsKeyed(l, b) && |a.speaker| < |b.speaker|
    requires KeyOf(resource, a) == KeyOf(resource, b)
    ensures Clashes(l, a.speaker, a.rate, b.speaker)
  {
    KeyIsTail(resource, a.speaker, a.rate, a.text);
    KeyIsTail(resource, b.speaker, b.rate, b.text);
    ShorterSpeaker(a.speaker, a.rate, a.text, b.speaker, b.rate, b.text);
    var rest := Rest(a.speaker, a.rate, b.speaker);
    assert |a.text| >= |rest| + 3;
    assert rest != "" ==> a.text[0] == rest[0];
  }

  /** A clash gives a collision: the longer speaker reads "x" at rate 0. */
  lemma ClashCollides(l: Limits, resource: string, s: string, rate: int, t: string)
    requires s in l.speakers && t in l.speakers && Clashes(l, s, rate, t)
    ensures var a, b := Request(Rest(s, rate, t) + "0|x", s, rate), Request("x", t, 0);
      IsKeyed(l, a) && IsKeyed(l, b) && a != b && KeyOf(resource, a) == KeyOf(resource, b)
  {
    var rest := Rest(s, rate, t);
    assert |s| < |t| && t + "|" == Head(s, rate) + rest;
    KeyIsTail(resource, s, rate, rest + "0|x");
    KeyIsTail(resource, t, 0, "x");
    ContinuedTail(s, rate, rest, t);
    var text := rest + "0|x";
    assert text[|text| - 1] == 'x' && text[0] == (if rest == "" then '0' else rest[0]);
  }

  lemma ContinuedTail(s: string, rate: int, rest: string, t: string)
    requires t + "|" == Head(s, rate) + rest
    ensures Tail(s, rate, rest + "0|x") == Tail(t, 0, "x")
  {
    var speaker, middle := s + "|", Decimal(rate) + "|";
    Regroup(speaker, Decimal(rate), "|");
    Regroup(speaker, middle, rest);
    Regroup(speaker, middle + rest, "0|x");
    Regroup(middle, rest, "0|x");
    assert t + "|" + "0|x" == Tail(s, rate, rest + "0|x");
    assert Decimal(0) == "0" && Decimal(0) + "|" + "x" == "0|x";
  }

  lemma SameLengthSpeakers(s: string, r: int, x: string, t: string, q: int, y: string)
    requires |s| == |t| && Tail(s, r, x) == Tail(t, q, y)
    ensures s == t && r == q && x == y
  {
    assert s == Tail(s, r, x)[..|s|] && t == Tail(t, q, y)[..|t|];
    assert Tail(s, r, x)[|s| + 1..] == Decimal(r) + "|" + x;
    assert Tail(t, q, y)[|t| + 1..] == Decimal(q) + "|" + y;
    FieldSplits(Decimal(r), x, Decimal(q), y);
    DecimalInjective(r, q);
  }

  lemma SameLengthRequests(resource: string, a: Request, b: Request)
    requires |a.speaker| == |b.speaker| && KeyOf(resource, a) == KeyOf(resource, b)
    ensures a == b
  {
    KeyIsTail(resource, a.speaker, a.rate, a.text);
    KeyIsTail(resource, b.speaker, b.rate, b.text);
    SameLengthSpeakers(a.speaker, a.rate, a.text, b.speaker, b.rate, b.text);
  }

  /** Exactly which pairs of speakers share a cache file for different requests. */
  lemma CollisionsCharacterized(l: Limits, resource: string, s: string, t: string)
    ensures Collide(l, resource, s, t) <==> Confusable(l, s, t)
  {
    if Collide(l, resource, s, t) {
      var a: Request, b: Request :|
        && a.speaker == s && b.speaker == t && PlanOf(l, a).Keyed? && PlanOf(l, b).Keyed?
        && PlanOf(l, a).req != PlanOf(l, b).req
        && KeyOf(resource, PlanOf(l, a).req) == KeyOf(resource, PlanOf(l, b).req);
      CollisionIsConfusion(l, resource, a, b);
    }
    if Confusable(l, s, t) {
      var rate :| Clashes(l, s, rate, t) || Clashes(l, t, rate, s);
      if Clashes(l, s, rate, t) {
        ConfusionCollides(l, resource, s, rate, t);
      } else {
        ConfusionCollides(l, resource, t, rate, s);
      }
    }
  }

  lemma CollisionIsConfusion(l: Limits, resource: string, a: Request, b: Request)
    requires PlanOf(l, a).Keyed? && PlanOf(l, b).Keyed? && PlanOf(l, a).req != PlanOf(l, b).req
    requires KeyOf(resource, PlanOf(l, a).req) == KeyOf(resource, PlanOf(l, b).req)
    ensures Confusable(l, a.speaker, b.speaker)
  {
    var a', b' := PlanOf(l, a).req, PlanOf(l, b).req;
    PlanNormalizes(l, a);
    PlanNormalizes(l, b);
    if |a.speaker| < |b.speaker| {
      CollisionClashes(l, resource, a', b');
    } else if |b.speaker| < |a.speaker| {
      CollisionClashes(l, resource, b', a');
    } else {
      SameLengthRequests(resource, a', b');
      assert false;
    }
  }

  lemma ConfusionCollides(l: Limits, resource: string, s: string, rate: int, t: string)
    requires s in l.speakers && t in l.speakers && Clashes(l, s, rate, t)
    ensures Collide(l, resource, s, t) && Collide(l, resource, t, s)
  {
    ClashCollides(l, resource, s, rate, t);
    var a, b := Request(Rest(s, rate, t) + "0|x", s, rate), Request("x", t, 0);
    PlanNormalizes(l, a);
    PlanNormalizes(l, b);
  }

  /** With bar-free speakers, as the defaults are, requests share a file only if they agree
      on speaker, rate and text. */
  lemma BarFreeSpeakersNeverCollide(l: Limits, resource: string, s: string, t: string)
    requires '|' !in s && '|' !in t
    ensures !Collide(l, resource, s, t)
  {
    CollisionsCharacterized(l, resource, s, t);
    forall rate
      ensures !Continues(s, rate, t) && !Continues(t, rate, s)
    {
      BarFreeNeverContinues(s, rate, t);
      BarFreeNeverContinues(t, rate, s);
    }
  }

  /** Resources without bars have keys of their own. */
  lemma ResourcesApart(r1: string, a: Request, r2: string, b: Request)
    requires '|' !in r1 && '|' !in r2 && KeyOf(r1, a) == KeyOf(r2, b)
    ensures r1 == r2
  {
    KeyIsTail(r1, a.speaker, a.rate, a.text);
    KeyIsTail(r2, b.speaker, b.rate, b.text);
    FieldSplits(r1, Tail(a.speaker, a.rate, a.text), r2, Tail(b.speaker, b.rate, b.text));
  }

  /** So with bar-free speakers the key determines the request. */
  lemma SameKeySameRequest(l: Limits, resource: string, a: Request, b: Request)
    requires IsKeyed(l, a) && IsKeyed(l, b) && '|' !in a.speaker && '|' !in b.speaker
    requires KeyOf(resource, a) == KeyOf(resource, b)
    ensures a == b
  {
    PlanNormalizes(l, a);
    PlanNormalizes(l, b);
    BarFreeSpeakersNeverCollide(l, resource, a.speaker, b.speaker);
  }

  lemma BarFreeNeverContinues(s: string, rate: int, t: string)
    requires '|' !in t
    ensures !Continues(s, rate, t)
  {
    var head := Head(s, rate);
    assert head[|s|] == '|' && |s| + 1 < |head|;
    forall k | 0 <= k < |t|
      ensures (t + "|")[k] != '|'
    {
      assert t[k] in t;
    }
  }

  /** Two allowlisted speakers that share a file: "a" reading "0|x" at rate 5, and "a|5"
      reading "x" at rate 0. */
  lemma BarsCanCollide(l: Limits, resource: string)
    requires "a" in l.speakers && "a|5" in l.speakers && Longest(l) >= 3
    ensures Collide(l, resource, "a", "a|5")
  {
    assert Decimal(5) == "5";
    assert Head("a", 5) == "a|5" + "|" && Rest("a", 5, "a|5") == "";
    ConfusionCollides(l, resource, "a", 5, "a|5");
  }

  lemma NoBarInHead(s: string, rate: int, k: nat)
    requires |s| < k <= |s| + |Decimal(rate)|
    ensures k < |Head(s, rate)| && Head(s, rate)[k] != '|'
  {
    assert Head(s, rate)[k] == Decimal(rate)[k - |s| - 1];
    assert Decimal(rate)[k - |s| - 1] in Decimal(rate);
  }

  /** A head that ends at the bar of "a|5| b" leaves a text that starts with a blank. */
  lemma BlankIsLeft(rate: int)
    requires Continues("a", rate, "a|5| b")
    ensures Rest("a", rate, "a|5| b") == " b|"
  {
    var head, all := Head("a", rate), "a|5| b" + "|";
    forall k | 1 < k <= 1 + |Decimal(rate)|
      ensures head[k] != '|'
    {
      NoBarInHead("a", rate, k);
    }
    assert head[3] == all[3];
    assert |head| == 4;
  }

  lemma BlankNeverClashes(l: Limits, rate: int)
    ensures !Clashes(l, "a", rate, "a|5| b") && !Clashes(l, "a|5| b", rate, "a")
  {
    if Continues("a", rate, "a|5| b") {
      BlankIsLeft(rate);
    }
  }

  /** A bar is not enough: no text "a" can be cached with starts with a blank, so "a|5| b"
      shares no file with it. */
  lemma BlankAfterBarsIsSafe(l: Limits, resource: string)
    ensures !Collide(l, resource, "a", "a|5| b")
  {
    CollisionsCharacterized(l, resource, "a", "a|5| b");
    forall rate
      ensures !Clashes(l, "a", rate, "a|5| b") && !Clashes(l, "a|5| b", rate, "a")
    {
      BlankNeverClashes(l, rate);
    }
  }
}
