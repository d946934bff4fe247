/** One bucket of internal/ratelimit/ratelimit.go in float64: every operation of Check rounds.
    How exact the announced wait still is, and that Retry-After is enough with two nanoseconds more.

    Readings do not go back here, so elapsed times and token counts are not negative. */
module RateLimitRounding {
  import opened RateLimit
  import opened RateLimitExact
  import opened Float64

  // ---------------------------------------------------------------------------
  // Check on one bucket

  datatype Cell = Cell(tokens: real, last: int)

  /** The intermediate results of a refill: perSecond, elapsed.Seconds(), their product, the sum. */
  datatype Refill = Refill(perSecond: real, fraction: real, seconds: real, product: real, sum: real)

  /** Those of a wait: what is missing, in seconds, in nanoseconds. */
  datatype Waiting = Waiting(missing: real, seconds: real, nanos: real)

  datatype Visit = Visit(now: int, refill: Refill, waiting: Waiting, outcome: Outcome, after: Cell)

  /** How the results of operations are rounded: which results an exact value may have. */
  type Rounding = (real, real) -> bool

  /** As good as float64 at least. */
  ghost predicate AsGood(op: Rounding) {
    forall x, y :: op(x, y) ==> Near(x, y)
  }

  predicate IsRefill(op: Rounding, perMinute: int, tokens: real, elapsed: int, r: Refill) {
    && op(perMinute as real / 60.0, r.perSecond)
    && op((elapsed % SECOND) as real / 1000000000.0, r.fraction)
    && op((elapsed / SECOND) as real + r.fraction, r.seconds)
    && op(r.seconds * r.perSecond, r.product)
    && op(tokens + r.product, r.sum)
  }

  predicate IsWait(op: Rounding, tokens: real, perSecond: real, w: Waiting, wait: int) {
    && perSecond != 0.0
    && op(1.0 - tokens, w.missing)
    && op(w.missing / perSecond, w.seconds)
    && op(w.seconds * 1000000000.0, w.nanos)
    && wait == w.nanos.Floor
  }

  function Least(a: real, b: real): real { if a < b then a else b }

  /** One call of Check that finds the key's bucket. */
  predicate IsVisit(op: Rounding, perMinute: int, b: Cell, v: Visit) {
    && v.now >= b.last && IsRefill(op, perMinute, b.tokens, v.now - b.last, v.refill)
    && v.after.last == v.now
    && var t := Least(perMinute as real, v.refill.sum);
      if t < 1.0 then
        v.after.tokens == t && v.outcome.Denied?
        && IsWait(op, t, v.refill.perSecond, v.waiting, v.outcome.wait)
      else
        v.outcome == Granted && op(t - 1.0, v.after.tokens)
  }

  predicate IsRun(op: Rounding, perMinute: int, b: Cell, visits: seq<Visit>)
    decreases |visits|
  {
    visits == [] || (IsVisit(op, perMinute, b, visits[0]) && IsRun(op, perMinute, visits[0].after, visits[1..]))
  }

  // ---------------------------------------------------------------------------
  // How far a refill is from the exact one

  /** Tokens per nanosecond. */
  function Rate(perMinute: int): real { perMinute as real / 60000000000.0 }

  /** Bounds on the error of one refill and of one wait. */
  const REFILL_ERROR: real := 16.0 * U

  lemma Magnify(x: real, y: real, hi: real)
    requires Near(x, y) && 0.0 <= x <= hi
    ensures 0.0 <= y <= (1.0 + U) * hi
  {
  }

  lemma Diminish(x: real, y: real, lo: real)
    requires Near(x, y) && 0.0 <= lo <= x
    ensures y >= (1.0 - U) * lo
  {
  }

  lemma ProductWithin(a: real, b: real, x: real, y: real, lo: real, hi: real)
    requires 0.0 <= lo <= 1.0 <= hi && x >= 0.0 && y >= 0.0
    requires lo * x <= a <= hi * x && (1.0 - U) * y <= b <= (1.0 + U) * y
    ensures lo * (1.0 - U) * (x * y) <= a * b <= hi * (1.0 + U) * (x * y)
  {
    TimesMonotone(lo * x, a, (1.0 - U) * y, b);
    TimesMonotone(a, hi * x, b, (1.0 + U) * y);
  }

  lemma TimesMonotone(a: real, a': real, b: real, b': real)
    requires 0.0 <= a <= a' && 0.0 <= b <= b'
    ensures a * b <= a' * b'
  {
    assert a' * b' - a * b == a' * (b' - b) + (a' - a) * b;
  }

  lemma WholeAndRest(elapsed: int)
    requires elapsed >= 0
    ensures (elapsed / SECOND) as real + (elapsed % SECOND) as real / 1000000000.0 == elapsed as real / 1000000000.0
    ensures elapsed / SECOND >= 0
  {
    assert elapsed == SECOND * (elapsed / SECOND) + elapsed % SECOND;
  }

  lemma SecondsWithin(elapsed: int, fraction: real, seconds: real)
    requires elapsed >= 0
    requires Near((elapsed % SECOND) as real / 1000000000.0, fraction)
    requires Near((elapsed / SECOND) as real + fraction, seconds)
    ensures var x := elapsed as real / 1000000000.0;
      (1.0 - 3.0 * U) * x <= seconds <= (1.0 + 3.0 * U) * x
  {
    WholeAndRest(elapsed);
    var x, whole := elapsed as real / 1000000000.0, (elapsed / SECOND) as real;
    var part := (elapsed % SECOND) as real / 1000000000.0;
    Magnify(part, fraction, part);
    Diminish(part, fraction, part);
    Magnify(whole + fraction, seconds, (1.0 + U) * x);
    Diminish(whole + fraction, seconds, (1.0 - U) * x);
    assert (1.0 + U) * (1.0 + U) <= 1.0 + 3.0 * U && (1.0 - U) * (1.0 - U) >= 1.0 - 3.0 * U;
    ScaleMonotone((1.0 + U) * (1.0 + U), 1.0 + 3.0 * U, x);
    ScaleMonotone(1.0 - 3.0 * U, (1.0 - U) * (1.0 - U), x);
  }

  lemma NearWithin(x: real, y: real, lo: real, hi: real, p: real)
    requires Near(x, y) && 0.0 <= lo && 0.0 <= lo * p <= x <= hi * p && p >= 0.0
    ensures (1.0 - U) * (lo * p) <= y <= (1.0 + U) * (hi * p)
  {
    Magnify(x, y, hi * p);
    Diminish(x, y, lo * p);
  }

  lemma RateOfElapsed(perMinute: int, elapsed: int)
    ensures Rate(perMinute) * elapsed as real == (elapsed as real / 1000000000.0) * (perMinute as real / 60.0)
  {
  }

  lemma SixRoundings(p: real, x: real, y: real)
    requires Near(x, y) && p >= 0.0
    requires (1.0 - 3.0 * U) * (1.0 - U) * p <= x <= (1.0 + 3.0 * U) * (1.0 + U) * p
    ensures (1.0 - 6.0 * U) * p <= y <= (1.0 + 6.0 * U) * p
  {
    var lo, hi := (1.0 - 3.0 * U) * (1.0 - U), (1.0 + 3.0 * U) * (1.0 + U);
    ScaleMonotone(0.0, lo, p);
    NearWithin(x, y, lo, hi, p);
    ScaleMonotone((1.0 + U) * hi, 1.0 + 6.0 * U, p);
    ScaleMonotone(1.0 - 6.0 * U, (1.0 - U) * lo, p);
  }

  lemma PerSecondWithin(perMinute: int, perSecond: real)
    requires perMinute > 0 && Near(perMinute as real / 60.0, perSecond)
    ensures var y := perMinute as real / 60.0;
      y > 0.0 && (1.0 - U) * y <= perSecond <= (1.0 + U) * y
  {
    var y := perMinute as real / 60.0;
    Magnify(y, perSecond, y);
    Diminish(y, perSecond, y);
  }

  lemma ProductIsNear(perMinute: int, elapsed: int, perSecond: real, seconds: real, product: real, p: real)
    requires perMinute > 0 && elapsed >= 0 && p == Rate(perMinute) * elapsed as real
    requires Near(perMinute as real / 60.0, perSecond) && Near(seconds * perSecond, product)
    requires var x := elapsed as real / 1000000000.0; (1.0 - 3.0 * U) * x <= seconds <= (1.0 + 3.0 * U) * x
    ensures (1.0 - 6.0 * U) * p <= product <= (1.0 + 6.0 * U) * p && p >= 0.0
  {
    RateOfElapsed(perMinute, elapsed);
    PerSecondWithin(perMinute, perSecond);
    ProductOf(elapsed as real / 1000000000.0, perMinute as real / 60.0, seconds, perSecond, product, p);
  }

  lemma ProductOf(x: real, y: real, seconds: real, perSecond: real, product: real, p: real)
    requires x >= 0.0 && y >= 0.0 && p == x * y && Near(seconds * perSecond, product)
    requires (1.0 - 3.0 * U) * x <= seconds <= (1.0 + 3.0 * U) * x
    requires (1.0 - U) * y <= perSecond <= (1.0 + U) * y
    ensures (1.0 - 6.0 * U) * p <= product <= (1.0 + 6.0 * U) * p && p >= 0.0
  {
    ProductWithin(seconds, perSecond, x, y, 1.0 - 3.0 * U, 1.0 + 3.0 * U);
    TimesMonotone(0.0, x, 0.0, y);
    SixRoundings(p, seconds * perSecond, product);
  }

  lemma NearLarge(x: real, y: real)
    requires Near(x, y) && x >= 1.2
    ensures y >= 1.0
  {
    ScaleMonotone(0.5, 1.0 - U, x - 1.2);
    assert (1.0 - U) * x == (1.0 - U) * (x - 1.2) + (1.0 - U) * 1.2;
  }

  lemma NearSmall(x: real, y: real, hi: real)
    requires Near(x, y) && 0.0 <= x <= hi
    ensures -(hi * U) <= y - x <= hi * U
  {
    ScaleMonotone(x, hi, U);
  }

  lemma SumIsNear(tokens: real, p: real, product: real, sum: real)
    requires 0.0 <= tokens < 1.0 && p >= 0.0 && Near(tokens + product, sum)
    requires (1.0 - 6.0 * U) * p <= product <= (1.0 + 6.0 * U) * p
    ensures sum >= 0.0
    ensures p <= 1.5 ==> -REFILL_ERROR <= sum - (tokens + p) <= REFILL_ERROR
    ensures p > 1.5 ==> sum >= 1.0
  {
    ScaleMonotone(0.9, 1.0 - 6.0 * U, p);
    Magnify(tokens + product, sum, tokens + product);
    if p <= 1.5 {
      ScaleMonotone(p, 1.5, 6.0 * U);
      assert -9.0 * U <= product - p <= 9.0 * U;
      NearSmall(tokens + product, sum, 3.0);
    } else {
      NearLarge(tokens + product, sum);
    }
  }

  /** The sum is that of exact arithmetic up to REFILL_ERROR, or makes a token for sure. */
  predicate CloseRefill(perMinute: int, tokens: real, elapsed: int, sum: real) {
    var p := Rate(perMinute) * elapsed as real;
    && sum >= 0.0
    && (p <= 1.5 ==> -REFILL_ERROR <= sum - (tokens + p) <= REFILL_ERROR)
    && (p > 1.5 ==> sum >= 1.0)
  }

  lemma ElapsedProduct(perMinute: int, elapsed: int, perSecond: real, fraction: real, seconds: real, product: real,
                       p: real)
    requires perMinute > 0 && elapsed >= 0 && Near(perMinute as real / 60.0, perSecond)
    requires Near((elapsed % SECOND) as real / 1000000000.0, fraction)
    requires Near((elapsed / SECOND) as real + fraction, seconds) && Near(seconds * perSecond, product)
    requires p == Rate(perMinute) * elapsed as real
    ensures (1.0 - 6.0 * U) * p <= product <= (1.0 + 6.0 * U) * p && p >= 0.0
  {
    SecondsWithin(elapsed, fraction, seconds);
    ProductIsNear(perMinute, elapsed, perSecond, seconds, product, p);
  }

  lemma RefillProduct(perMinute: int, tokens: real, elapsed: int, r: Refill) returns (p: real)
    requires perMinute > 0 && elapsed >= 0 && IsRefill(Near, perMinute, tokens, elapsed, r)
    ensures p == Rate(perMinute) * elapsed as real && p >= 0.0 && Near(tokens + r.product, r.sum)
    ensures (1.0 - 6.0 * U) * p <= r.product <= (1.0 + 6.0 * U) * p
  {
    p := Rate(perMinute) * elapsed as real;
    ElapsedProduct(perMinute, elapsed, r.perSecond, r.fraction, r.seconds, r.product, p);
  }

  lemma RoundedRefill(perMinute: int, tokens: real, elapsed: int, r: Refill)
    requires perMinute > 0 && elapsed >= 0 && 0.0 <= tokens < 1.0 && IsRefill(Near, perMinute, tokens, elapsed, r)
    ensures CloseRefill(perMinute, tokens, elapsed, r.sum)
  {
    var p := RefillProduct(perMinute, tokens, elapsed, r);
    SumIsNear(tokens, p, r.product, r.sum);
  }

  lemma RefillIsNear(op: Rounding, perMinute: int, tokens: real, elapsed: int, r: Refill)
    requires AsGood(op) && IsRefill(op, perMinute, tokens, elapsed, r)
    ensures IsRefill(Near, perMinute, tokens, elapsed, r)
  {
  }

  // ---------------------------------------------------------------------------
  // The announced wait

  /** The wait in nanoseconds without rounding. */
  function ExactWait(perMinute: int, tokens: real): real
    requires perMinute > 0
  {
    (1.0 - tokens) / Rate(perMinute)
  }

  lemma QuotientAtMost(a: real, b: real, c: real)
    requires b > 0.0 && a <= c * b
    ensures a / b <= c && (a / b) * b == a
  {
    CancelFactor(a / b, c, b);
  }

  lemma ExactWaitRefills(perMinute: int, tokens: real)
    requires perMinute > 0 && 0.0 <= tokens < 1.0
    ensures Rate(perMinute) >= 1.0 / 60000000000.0
    ensures Rate(perMinute) * ExactWait(perMinute, tokens) == 1.0 - tokens
    ensures ExactWait(perMinute, tokens) <= 60000000000.0
  {
    assert 60000000000.0 * Rate(perMinute) == perMinute as real;
    QuotientAtMost(1.0 - tokens, Rate(perMinute), 60000000000.0);
  }

  lemma QuotientBetween(a: real, b: real, c: real, lo: real, hi: real)
    requires b > 0.0 && c > 0.0 && a >= 0.0 && lo > 0.0 && lo * b <= c <= hi * b
    ensures (a / c) * lo <= a / b <= (a / c) * hi && a / c >= 0.0
  {
    var e, q := a / b, a / c;
    QuotientAtMost(a, b, e);
    QuotientAtMost(a, c, q);
    NonnegativeQuotient(a, c);
    TimesMonotone(0.0, lo, 0.0, b);
    TimesMonotone(q, q, lo * b, c);
    TimesMonotone(q, q, c, hi * b);
    Regroup(q, lo, b);
    Regroup(q, hi, b);
    CancelFactor(q * lo, e, b);
    CancelFactor(e, q * hi, b);
  }

  lemma QuotientWithin(a: real, b: real, c: real)
    requires b > 0.0 && a >= 0.0 && (1.0 - U) * b <= c <= (1.0 + U) * b
    ensures c > 0.0
    ensures (1.0 - 2.0 * U) * (a / b) <= a / c <= (1.0 + 2.0 * U) * (a / b)
  {
    ScaleMonotone(0.5, 1.0 - U, b);
    QuotientBetween(a, b, c, 1.0 - U, 1.0 + U);
    TwiceOff(a / b, a / c);
  }

  lemma NonnegativeQuotient(a: real, b: real)
    requires a >= 0.0 && b > 0.0
    ensures a / b >= 0.0
  {
  }

  lemma TwiceOff(e: real, q: real)
    requires q >= 0.0 && q * (1.0 - U) <= e <= q * (1.0 + U)
    ensures (1.0 - 2.0 * U) * e <= q <= (1.0 + 2.0 * U) * e
  {
  }

  /** The wait is the exact one, rounded down, give or take a thousandth of a nanosecond. */
  lemma WaitIsNear(perMinute: int, tokens: real, perSecond: real, w: Waiting, wait: int)
    requires perMinute > 0 && 0.0 <= tokens < 1.0 && Near(perMinute as real / 60.0, perSecond)
    requires IsWait(Near, tokens, perSecond, w, wait)
    ensures ExactWait(perMinute, tokens) - 1.001 < wait as real <= ExactWait(perMinute, tokens) + 0.001
    ensures wait >= 0
  {
    var z, y, missing := ExactWait(perMinute, tokens), perMinute as real / 60.0, 1.0 - tokens;
    ExactWaitRefills(perMinute, tokens);
    PerSecondWithin(perMinute, perSecond);
    Magnify(missing, w.missing, missing);
    Diminish(missing, w.missing, missing);
    QuotientWithin(w.missing, y, perSecond);
    SecondsOfWait(perMinute, tokens, w.missing);
    NanosWithin(z, w.missing / perSecond, w.seconds, w.nanos);
  }

  /** What is missing over the exact tokens per second is the exact wait, rounded once. */
  lemma SecondsOfWait(perMinute: int, tokens: real, missing: real)
    requires perMinute > 0 && 0.0 <= tokens < 1.0
    requires (1.0 - U) * (1.0 - tokens) <= missing <= (1.0 + U) * (1.0 - tokens)
    ensures var z := ExactWait(perMinute, tokens) / 1000000000.0;
      (1.0 - U) * z <= missing / (perMinute as real / 60.0) <= (1.0 + U) * z
  {
    var z, y := ExactWait(perMinute, tokens) / 1000000000.0, perMinute as real / 60.0;
    ExactWaitRefills(perMinute, tokens);
    assert Rate(perMinute) == y / 1000000000.0;
    assert z * y == 1.0 - tokens;
    Regroup(1.0 + U, z, y);
    Regroup(1.0 - U, z, y);
    QuotientAtMost(missing, y, (1.0 + U) * z);
    CancelFactor((1.0 - U) * z, missing / y, y);
  }

  lemma NanosWithin(z: real, b: real, seconds: real, nanos: real)
    requires 0.0 <= z <= 60000000000.0 && Near(b, seconds) && Near(seconds * 1000000000.0, nanos)
    requires var x := z / 1000000000.0;
      (1.0 - 2.0 * U) * ((1.0 - U) * x) <= b <= (1.0 + 2.0 * U) * ((1.0 + U) * x)
    ensures z - 0.001 < nanos <= z + 0.001 && nanos >= 0.0
  {
    var x := z / 1000000000.0;
    Magnify(b, seconds, (1.0 + 2.0 * U) * ((1.0 + U) * x));
    Diminish(b, seconds, (1.0 - 2.0 * U) * ((1.0 - U) * x));
    Magnify(seconds * 1000000000.0, nanos, seconds * 1000000000.0);
    Diminish(seconds * 1000000000.0, nanos, seconds * 1000000000.0);
  }

  // ---------------------------------------------------------------------------
  // Runs, close to exact ones

  /** A call whose numbers are those of exact arithmetic up to the errors above. */
  predicate CloseVisit(perMinute: int, b: Cell, v: Visit)
    requires perMinute > 0
  {
    && v.now >= b.last && v.after.last == v.now && v.after.tokens >= 0.0
    && (if v.refill.sum < 1.0 then v.outcome.Denied? else v.outcome == Granted)
    && (b.tokens < 1.0 ==> CloseRefill(perMinute, b.tokens, v.now - b.last, v.refill.sum))
    && (v.outcome.Denied? ==> v.after.tokens == v.refill.sum && CloseWait(perMinute, v.after.tokens, v.outcome.wait))
  }

  predicate CloseWait(perMinute: int, tokens: real, wait: int)
    requires perMinute > 0
  {
    var z := ExactWait(perMinute, tokens);
    wait >= 0 && z - 1.001 < wait as real <= z + 0.001
  }

  ghost predicate IsCloseRun(perMinute: int, b: Cell, visits: seq<Visit>)
    requires perMinute > 0
    decreases |visits|
  {
    visits == [] || (CloseVisit(perMinute, b, visits[0]) && IsCloseRun(perMinute, visits[0].after, visits[1..]))
  }

  lemma SumIsNonnegative(perMinute: int, tokens: real, elapsed: int, r: Refill)
    requires perMinute > 0 && elapsed >= 0 && tokens >= 0.0 && IsRefill(Near, perMinute, tokens, elapsed, r)
    ensures r.sum >= 0.0
  {
    var p := RefillProduct(perMinute, tokens, elapsed, r);
    ScaleMonotone(0.0, 1.0 - 6.0 * U, p);
    Magnify(tokens + r.product, r.sum, tokens + r.product);
  }

  lemma NearVisitIsClose(perMinute: int, b: Cell, v: Visit)
    requires perMinute > 0 && b.tokens >= 0.0 && IsVisit(Near, perMinute, b, v)
    ensures CloseVisit(perMinute, b, v)
  {
    var t := Least(perMinute as real, v.refill.sum);
    assert perMinute as real >= 1.0;
    SumIsNonnegative(perMinute, b.tokens, v.now - b.last, v.refill);
    if b.tokens < 1.0 {
      RoundedRefill(perMinute, b.tokens, v.now - b.last, v.refill);
    }
    if t < 1.0 {
      WaitIsNear(perMinute, t, v.refill.perSecond, v.waiting, v.outcome.wait);
    } else {
      Magnify(t - 1.0, v.after.tokens, t - 1.0);
    }
  }

  lemma VisitIsNear(op: Rounding, perMinute: int, b: Cell, v: Visit)
    requires AsGood(op) && IsVisit(op, perMinute, b, v)
    ensures IsVisit(Near, perMinute, b, v)
  {
    RefillIsNear(op, perMinute, b.tokens, v.now - b.last, v.refill);
  }

  lemma {:induction false} RunIsClose(op: Rounding, perMinute: int, b: Cell, visits: seq<Visit>)
    requires AsGood(op) && perMinute > 0 && b.tokens >= 0.0 && IsRun(op, perMinute, b, visits)
    ensures IsCloseRun(perMinute, b, visits)
    decreases |visits|
  {
    if visits != [] {
      VisitIsNear(op, perMinute, b, visits[0]);
      NearVisitIsClose(perMinute, b, visits[0]);
      RunIsClose(op, perMinute, visits[0].after, visits[1..]);
    }
  }

  ghost predicate AllDenied(visits: seq<Visit>) {
    forall i :: 0 <= i < |visits| ==> visits[i].outcome.Denied?
  }

  /** `end` lies on the refill line of `b`, give or take `error`. */
  predicate OnLine(perMinute: int, b: Cell, end: Cell, error: real) {
    -error <= end.tokens - (b.tokens + Rate(perMinute) * (end.last - b.last) as real) <= error
  }

  lemma LinesJoin(perMinute: int, a: Cell, b: Cell, c: Cell, e: real, f: real)
    requires OnLine(perMinute, a, b, e) && OnLine(perMinute, b, c, f)
    ensures OnLine(perMinute, a, c, e + f)
  {
    var x, y := b.last - a.last, c.last - b.last;
    assert x + y == c.last - a.last;
    LineContinues(Rate(perMinute), x, y);
  }

  lemma LineContinues(rate: real, a: int, b: int)
    ensures rate * (a + b) as real == rate * a as real + rate * b as real
  {
  }

  function After(b: Cell, visits: seq<Visit>): Cell
    decreases |visits|
  {
    if visits == [] then b else After(visits[0].after, visits[1..])
  }

  lemma DenialIsNear(perMinute: int, b: Cell, v: Visit)
    requires perMinute > 0 && 0.0 <= b.tokens < 1.0 && CloseVisit(perMinute, b, v) && v.outcome.Denied?
    ensures 0.0 <= v.after.tokens < 1.0 && OnLine(perMinute, b, v.after, REFILL_ERROR)
  {
  }

  /** Denied calls move the bucket along its refill line, each off by at most REFILL_ERROR. */
  lemma {:induction false} DenialsStayNear(perMinute: int, b: Cell, visits: seq<Visit>)
    requires perMinute > 0 && 0.0 <= b.tokens < 1.0 && IsCloseRun(perMinute, b, visits) && AllDenied(visits)
    ensures var end := After(b, visits);
      0.0 <= end.tokens < 1.0 && OnLine(perMinute, b, end, |visits| as real * REFILL_ERROR)
    decreases |visits|
  {
    if visits == [] {
      assert OnLine(perMinute, b, b, 0.0);
    } else {
      var v, n := visits[0], |visits| - 1;
      DenialIsNear(perMinute, b, v);
      RestDenied(visits);
      DenialsStayNear(perMinute, v.after, visits[1..]);
      LinesJoin(perMinute, b, v.after, After(b, visits), REFILL_ERROR, n as real * REFILL_ERROR);
      assert REFILL_ERROR + n as real * REFILL_ERROR == |visits| as real * REFILL_ERROR;
    }
  }

  lemma RestDenied(visits: seq<Visit>)
    requires visits != [] && AllDenied(visits)
    ensures AllDenied(visits[1..])
  {
    assert forall i :: 0 <= i < |visits[1..]| ==> visits[1..][i] == visits[i + 1];
  }

  lemma {:induction false} CloseRunSplits(perMinute: int, b: Cell, xs: seq<Visit>, ys: seq<Visit>)
    requires perMinute > 0 && IsCloseRun(perMinute, b, xs + ys)
    ensures IsCloseRun(perMinute, b, xs) && IsCloseRun(perMinute, After(b, xs), ys)
    decreases |xs|
  {
    if xs == [] {
      assert xs + ys == ys;
    } else {
      assert (xs + ys)[1..] == xs[1..] + ys;
      CloseRunSplits(perMinute, xs[0].after, xs[1..], ys);
    }
  }

  // ---------------------------------------------------------------------------
  // Coming back

  /** How many denied retries one nanosecond of slack makes up for. */
  const RETRIES_PER_NS: nat := 1000

  /** Outside of the slack, rounding does not matter: `margin` is what it refills, `line` where
      exact arithmetic would be, `before` and `p` what the last call finds and adds. */
  lemma Decided(line: real, margin: real, before: real, p: real, sum: real, error: real)
    requires error + REFILL_ERROR < margin && before >= 0.0
    requires -error <= before + p - line <= error
    requires p <= 1.5 ==> -REFILL_ERROR <= sum - (before + p) <= REFILL_ERROR
    requires p > 1.5 ==> sum >= 1.0
    ensures line >= 1.0 + margin ==> sum >= 1.0
    ensures line <= 1.0 - margin && error >= 0.0 ==> sum < 1.0
  {
  }

  /** Where exact arithmetic would be `time` after a denial that lacked `missing`. */
  lemma LineAt(rate: real, missing: real, z: real, time: int, wait: int, slack: nat)
    requires rate > 0.0 && rate * z == missing && z - 1.001 < wait as real <= z + 0.001
    ensures var line, margin := 1.0 - missing + rate * time as real, rate * (slack as real - 0.001);
      && (time >= wait + 1 + slack ==> line >= 1.0 + margin)
      && (time <= wait - slack ==> line <= 1.0 - margin)
  {
    var s := slack as real - 0.001;
    if time >= wait + 1 + slack {
      RateTimes(rate, z + s, time as real);
      assert rate * (z + s) == missing + rate * s;
    }
    if time <= wait - slack {
      RateTimes(rate, time as real, z - s);
      assert rate * (z - s) == missing - rate * s;
    }
  }

  lemma RateTimes(rate: real, a: real, b: real)
    requires rate > 0.0 && a <= b
    ensures rate * a <= rate * b
  {
  }

  lemma SlackCovers(rate: real, retries: nat, slack: nat)
    requires rate >= 1.0 / 60000000000.0 && slack >= 1 && retries < RETRIES_PER_NS * slack
    ensures (retries + 1) as real * REFILL_ERROR < rate * (slack as real - 0.001)
  {
    var s := slack as real - 0.001;
    assert (retries + 1) as real <= 1000.0 * slack as real <= 1002.0 * s;
    ScaleMonotone((retries + 1) as real, 1002.0 * s, REFILL_ERROR);
    ScaleMonotone(1.0 / 60000000000.0, rate, s);
    assert 1002.0 * REFILL_ERROR < 1.0 / 60000000000.0;
    StrictScale(1002.0 * REFILL_ERROR, 1.0 / 60000000000.0, s);
  }

  lemma StrictScale(a: real, b: real, x: real)
    requires a < b && x > 0.0
    ensures a * x < b * x
  {
  }

  /** The last of two refills after a denial that left `tokens`. */
  lemma LastRefill(rate: real, tokens: real, z: real, before: real, x: int, y: int, sum: real,
                   wait: int, retries: nat, slack: nat)
    requires rate >= 1.0 / 60000000000.0 && rate * z == 1.0 - tokens && z - 1.001 < wait as real <= z + 0.001
    requires slack >= 1 && retries < RETRIES_PER_NS * slack && before >= 0.0
    requires var error := retries as real * REFILL_ERROR; -error <= before - (tokens + rate * x as real) <= error
    requires var p := rate * y as real;
      (p <= 1.5 ==> -REFILL_ERROR <= sum - (before + p) <= REFILL_ERROR) && (p > 1.5 ==> sum >= 1.0)
    ensures x + y >= wait + 1 + slack ==> sum >= 1.0
    ensures x + y <= wait - slack ==> sum < 1.0
  {
    var error, margin := retries as real * REFILL_ERROR, rate * (slack as real - 0.001);
    LineContinues(rate, x, y);
    SlackCovers(rate, retries, slack);
    LineAt(rate, 1.0 - tokens, z, x + y, wait, slack);
    assert (retries + 1) as real * REFILL_ERROR == error + REFILL_ERROR;
    Decided(tokens + rate * (x + y) as real, margin, before, rate * y as real, sum, error);
  }

  /** A call after `retries` denials. */
  lemma LastVisit(perMinute: int, first: Cell, b: Cell, v: Visit, wait: int, retries: nat, slack: nat)
    requires perMinute > 0 && slack >= 1 && retries < RETRIES_PER_NS * slack
    requires 0.0 <= first.tokens < 1.0 && 0.0 <= b.tokens < 1.0 && CloseWait(perMinute, first.tokens, wait)
    requires OnLine(perMinute, first, b, retries as real * REFILL_ERROR) && CloseVisit(perMinute, b, v)
    ensures v.now - first.last >= wait + 1 + slack ==> v.outcome == Granted
    ensures v.now - first.last <= wait - slack ==> v.outcome.Denied?
  {
    ExactWaitRefills(perMinute, first.tokens);
    LastRefill(Rate(perMinute), first.tokens, ExactWait(perMinute, first.tokens), b.tokens,
               b.last - first.last, v.now - b.last, v.refill.sum, wait, retries, slack);
  }

  /** The bucket that the j-th call finds, after denials since the i-th. */
  lemma DeniedAt(perMinute: int, b0: Cell, visits: seq<Visit>, i: nat, j: nat) returns (b: Cell)
    requires perMinute > 0 && IsCloseRun(perMinute, b0, visits) && i < j < |visits| && AllDenied(visits[i..j])
    ensures CloseVisit(perMinute, b, visits[j]) && 0.0 <= b.tokens < 1.0
    ensures var v := visits[i];
      && v.outcome.Denied? && 0.0 <= v.after.tokens < 1.0 && v.after.last == v.now
      && CloseWait(perMinute, v.after.tokens, v.outcome.wait)
      && OnLine(perMinute, v.after, b, (j - i - 1) as real * REFILL_ERROR)
  {
    var mid := visits[i + 1..j];
    FindsDenied(perMinute, b0, visits, i, j);
    b := After(visits[i].after, mid);
    DenialsStayNear(perMinute, visits[i].after, mid);
  }

  lemma FindsDenied(perMinute: int, b0: Cell, visits: seq<Visit>, i: nat, j: nat)
    requires perMinute > 0 && IsCloseRun(perMinute, b0, visits) && i < j < |visits| && AllDenied(visits[i..j])
    ensures var v, mid := visits[i], visits[i + 1..j];
      && CloseVisit(perMinute, After(b0, visits[..i]), v) && v.outcome.Denied?
      && IsCloseRun(perMinute, v.after, mid) && AllDenied(mid)
      && CloseVisit(perMinute, After(v.after, mid), visits[j])
  {
    var v, mid, rest := visits[i], visits[i + 1..j], visits[j..];
    assert v == visits[i..j][0] && [v][1..] == [] && visits[i..j] == [v] + mid;
    assert visits == visits[..i] + ([v] + (mid + rest));
    CloseRunSplits(perMinute, b0, visits[..i], [v] + (mid + rest));
    CloseRunSplits(perMinute, After(b0, visits[..i]), [v], mid + rest);
    CloseRunSplits(perMinute, v.after, mid, rest);
    RestDenied([v] + mid);
    assert ([v] + mid)[1..] == mid && rest[0] == visits[j];
  }

  lemma CloseWaitIsTight(perMinute: int, b0: Cell, visits: seq<Visit>, i: nat, j: nat, slack: nat)
    requires perMinute > 0 && IsCloseRun(perMinute, b0, visits) && i < j < |visits| && AllDenied(visits[i..j])
    requires slack >= 1 && j - i - 1 < RETRIES_PER_NS * slack
    ensures visits[i].outcome.Denied? && TightWait(visits[i], visits[j], slack)
  {
    var b := DeniedAt(perMinute, b0, visits, i, j);
    LastVisit(perMinute, visits[i].after, b, visits[j], visits[i].outcome.wait, j - i - 1, slack);
  }

  /** The second call is decided by the wait of the first, outside of the slack. */
  predicate TightWait(first: Visit, second: Visit, slack: nat)
    requires first.outcome.Denied?
  {
    var wait, time := first.outcome.wait, second.now - first.now;
    && wait >= 0
    && (time >= wait + 1 + slack ==> second.outcome == Granted)
    && (time <= wait - slack ==> second.outcome.Denied?)
  }

  /** In float64, over any run of one bucket: after a denial and fewer than a thousand denied
      retries per nanosecond of slack, the next call is admitted from wait + 1 + slack on, and
      denied up to wait - slack. */
  lemma WaitIsTightInFloat64(op: Rounding, perMinute: int, start: int, visits: seq<Visit>, i: nat, j: nat, slack: nat)
    requires AsGood(op) && perMinute > 0 && IsRun(op, perMinute, Cell(perMinute as real, start), visits)
    requires i < j < |visits| && AllDenied(visits[i..j])
    requires slack >= 1 && j - i - 1 < RETRIES_PER_NS * slack
    ensures visits[i].outcome.Denied? && TightWait(visits[i], visits[j], slack)
  {
    RunIsClose(op, perMinute, Cell(perMinute as real, start), visits);
    CloseWaitIsTight(perMinute, Cell(perMinute as real, start), visits, i, j, slack);
  }

  /** So two nanoseconds after the seconds of Retry-After are always enough in float64, for every
      rate and up to a thousand calls since the denial. */
  lemma RetryAfterWithSlack(op: Rounding, perMinute: int, start: int, visits: seq<Visit>, i: nat, j: nat)
    requires AsGood(op) && perMinute > 0 && IsRun(op, perMinute, Cell(perMinute as real, start), visits)
    requires i < j <= i + RETRIES_PER_NS && j < |visits| && AllDenied(visits[i..j])
    ensures visits[i].outcome.Denied? && visits[i].outcome.wait >= 0
    ensures visits[j].now >= visits[i].now + RetryAfterSeconds(visits[i].outcome.wait) * SECOND + 2 ==>
      visits[j].outcome == Granted
  {
    WaitIsTightInFloat64(op, perMinute, start, visits, i, j, 1);
    SecondsCover(visits[i].outcome.wait);
  }

  /** Rounding to the nearest float64 is as good as all of the above asks for. */
  lemma NearestIsAsGood()
    ensures AsGood(Nearest)
  {
    forall x, y | Nearest(x, y)
      ensures Near(x, y)
    {
      NearestIsNear(x, y);
    }
  }
}
