/** One bucket of internal/ratelimit/ratelimit.go in float64, without slack: coming back exactly
    after the seconds of Retry-After is always enough if and only if the limit is more than sixty
    calls per minute. */
module RateLimitOnTime {
  import opened RateLimit
  import RateLimitTheory
  import opened RateLimitExact
  import opened Float64
  import opened RateLimitRounding

  /** A denied client comes back exactly the header's seconds later. */
  predicate ReturnsOnTime(first: Visit, second: Visit) {
    && first.outcome.Denied? && first.outcome.wait >= 0
    && second.now == first.now + RetryAfterSeconds(first.outcome.wait) * SECOND
  }

  predicate OnTimeAndDenied(first: Visit, second: Visit) {
    ReturnsOnTime(first, second) && second.outcome.Denied?
  }

  /** It does so in a run that starts with a full bucket, with any number of denied retries in
      between. */
  ghost predicate ComesBack(op: Rounding, perMinute: int, start: int, visits: seq<Visit>, i: nat, j: nat) {
    && IsRun(op, perMinute, Cell(perMinute as real, start), visits)
    && i < j < |visits| && AllDenied(visits[i..j]) && ReturnsOnTime(visits[i], visits[j])
  }

  /** Whether such a client is always let in. */
  ghost predicate OnTimeIsEnough(op: Rounding, perMinute: int) {
    forall start, visits: seq<Visit>, i: nat, j: nat :: ComesBack(op, perMinute, start, visits, i, j) ==>
      visits[j].outcome == Granted
  }

  lemma {:induction false} RunJoins(op: Rounding, perMinute: int, b: Cell, xs: seq<Visit>, ys: seq<Visit>)
    ensures IsRun(op, perMinute, b, xs + ys) <==>
      IsRun(op, perMinute, b, xs) && IsRun(op, perMinute, After(b, xs), ys)
    decreases |xs|
  {
    if xs == [] {
      assert xs + ys == ys;
    } else {
      assert (xs + ys)[1..] == xs[1..] + ys;
      RunJoins(op, perMinute, xs[0].after, xs[1..], ys);
    }
  }

  // ---------------------------------------------------------------------------
  // More than sixty per minute: rounding cannot eat up what a second refills

  /** What has been rounded is not rounded again. */
  ghost predicate IsStable(op: Rounding) {
    forall x, y, z :: op(x, y) && op(y, z) ==> z == y
  }

  ghost predicate IsRounded(op: Rounding, t: real) {
    exists x :: op(x, t)
  }

  /** A call at the time of the last one changes nothing. */
  lemma StandingVisit(op: Rounding, perMinute: int, b: Cell, v: Visit)
    requires AsGood(op) && IsStable(op)
    requires IsVisit(op, perMinute, b, v) && v.now == b.last && IsRounded(op, b.tokens)
    ensures v.refill.sum == b.tokens
  {
    StandingRefill(op, perMinute, b.tokens, v.refill);
    assert op(b.tokens, v.refill.sum);
  }

  lemma StandingRefill(op: Rounding, perMinute: int, tokens: real, r: Refill)
    requires AsGood(op) && IsRefill(op, perMinute, tokens, 0, r)
    ensures r.product == 0.0 && op(tokens, r.sum)
  {
    assert r.fraction == 0.0 by {
      assert op(0.0, r.fraction);
    }
    assert r.seconds == 0.0 by {
      assert op(0.0, r.seconds);
    }
    assert r.product == 0.0 by {
      assert op(0.0, r.product);
    }
    assert tokens + r.product == tokens;
  }

  /** What rounding adds up to in `elapsed` nanoseconds, however many calls come in. */
  function Drift(elapsed: int): real { elapsed as real * (16.0 / 9007199254740992.0) }

  /** `end` lies on the refill line of `b`, up to the drift. */
  predicate Drifted(perMinute: int, b: Cell, end: Cell) {
    end.last >= b.last && OnLine(perMinute, b, end, Drift(end.last - b.last))
  }

  lemma DriftsJoin(perMinute: int, a: Cell, b: Cell, c: Cell)
    requires Drifted(perMinute, a, b) && Drifted(perMinute, b, c)
    ensures Drifted(perMinute, a, c)
  {
    LinesJoin(perMinute, a, b, c, Drift(b.last - a.last), Drift(c.last - b.last));
  }

  predicate Lacking(b: Cell) { 0.0 <= b.tokens < 1.0 }

  lemma DeniedIsRounded(op: Rounding, perMinute: int, b: Cell, v: Visit)
    requires perMinute > 0 && IsVisit(op, perMinute, b, v) && v.outcome.Denied?
    ensures IsRounded(op, v.after.tokens) && v.after.tokens < 1.0 && v.after.last == v.now
  {
    assert op(b.tokens + v.refill.product, v.after.tokens);
  }

  lemma VisitIsClose(op: Rounding, perMinute: int, b: Cell, v: Visit)
    requires AsGood(op) && perMinute > 0 && b.tokens >= 0.0 && IsVisit(op, perMinute, b, v)
    ensures CloseVisit(perMinute, b, v)
  {
    VisitIsNear(op, perMinute, b, v);
    NearVisitIsClose(perMinute, b, v);
  }

  /** A denial at a later instant has an own rounding; one at the same instant changes nothing. */
  lemma DenialDrifts(perMinute: int, b: Cell, v: Visit)
    requires perMinute > 0 && Lacking(b) && CloseVisit(perMinute, b, v) && v.outcome.Denied?
    requires v.now == b.last ==> v.refill.sum == b.tokens
    ensures Lacking(v.after) && Drifted(perMinute, b, v.after)
  {
    DenialIsNear(perMinute, b, v);
    assert v.now > b.last ==> Drift(v.now - b.last) >= REFILL_ERROR;
  }

  lemma {:induction false} DenialsDrift(op: Rounding, perMinute: int, b: Cell, visits: seq<Visit>)
    requires AsGood(op) && IsStable(op) && perMinute > 0 && Lacking(b) && IsRounded(op, b.tokens)
    requires IsRun(op, perMinute, b, visits) && AllDenied(visits)
    ensures Lacking(After(b, visits)) && Drifted(perMinute, b, After(b, visits))
    decreases |visits|
  {
    if visits == [] {
      assert OnLine(perMinute, b, b, 0.0);
    } else {
      var v := visits[0];
      DeniedIsRounded(op, perMinute, b, v);
      VisitIsClose(op, perMinute, b, v);
      if v.now == b.last {
        StandingVisit(op, perMinute, b, v);
      }
      DenialDrifts(perMinute, b, v);
      RestDenied(visits);
      DenialsDrift(op, perMinute, v.after, visits[1..]);
      DriftsJoin(perMinute, b, v.after, After(b, visits));
    }
  }

  lemma RateAboveSixty(perMinute: int)
    requires perMinute > 60
    ensures Rate(perMinute) >= 61.0 / 60000000000.0
  {
  }

  /** A second or more after a denial, and only denials in between: a token is there. */
  lemma SecondRefills(rate: real, tokens: real, before: real, x: int, y: int, sum: real)
    requires rate >= 61.0 / 60000000000.0 && tokens >= 0.0 && before >= 0.0
    requires x >= 0 && y >= 0 && x + y >= SECOND
    requires -Drift(x) <= before - (tokens + rate * x as real)
    requires var p := rate * y as real; (p <= 1.5 ==> -REFILL_ERROR <= sum - (before + p)) && (p > 1.5 ==> sum >= 1.0)
    ensures sum >= 1.0
  {
    var t := (x + y) as real;
    LineContinues(rate, x, y);
    ScaleMonotone(61.0 / 60000000000.0, rate, t);
    assert Drift(x) <= t * (16.0 / 9007199254740992.0);
  }

  lemma GrantedAfterSecond(perMinute: int, first: Cell, b: Cell, v: Visit)
    requires perMinute > 60 && Lacking(first) && Lacking(b) && Drifted(perMinute, first, b)
    requires CloseVisit(perMinute, b, v) && v.now - first.last >= SECOND
    ensures v.outcome == Granted
  {
    RateAboveSixty(perMinute);
    SecondRefills(Rate(perMinute), first.tokens, b.tokens, b.last - first.last, v.now - b.last, v.refill.sum);
  }

  /** The runs around the i-th and the j-th call. */
  lemma RunParts(op: Rounding, perMinute: int, b0: Cell, visits: seq<Visit>, i: nat, j: nat)
    requires IsRun(op, perMinute, b0, visits) && i < j < |visits|
    ensures var b, v, mid := After(b0, visits[..i]), visits[i], visits[i + 1..j];
      && IsRun(op, perMinute, b0, visits[..i]) && IsVisit(op, perMinute, b, v)
      && IsRun(op, perMinute, v.after, mid) && IsVisit(op, perMinute, After(v.after, mid), visits[j])
  {
    var v, mid, rest := visits[i], visits[i + 1..j], visits[j..];
    assert visits == visits[..i] + ([v] + (mid + rest));
    RunJoins(op, perMinute, b0, visits[..i], [v] + (mid + rest));
    assert ([v] + (mid + rest))[1..] == mid + rest;
    RunJoins(op, perMinute, v.after, mid, rest);
  }

  lemma EnoughAboveSixty(op: Rounding, perMinute: int)
    requires AsGood(op) && IsStable(op) && perMinute > 60
    ensures OnTimeIsEnough(op, perMinute)
  {
    forall start, visits: seq<Visit>, i: nat, j: nat | ComesBack(op, perMinute, start, visits, i, j)
      ensures visits[j].outcome == Granted
    {
      GrantedOnTime(op, perMinute, start, visits, i, j);
    }
  }

  lemma GrantedOnTime(op: Rounding, perMinute: int, start: int, visits: seq<Visit>, i: nat, j: nat)
    requires AsGood(op) && IsStable(op) && perMinute > 60 && ComesBack(op, perMinute, start, visits, i, j)
    ensures visits[j].outcome == Granted
  {
    var b0, v, mid := Cell(perMinute as real, start), visits[i], visits[i + 1..j];
    RunParts(op, perMinute, b0, visits, i, j);
    RunIsClose(op, perMinute, b0, visits);
    FindsDenied(perMinute, b0, visits, i, j);
    DeniedIsRounded(op, perMinute, After(b0, visits[..i]), v);
    DenialsDrift(op, perMinute, v.after, mid);
    GrantedAfterSecond(perMinute, v.after, After(v.after, mid), visits[j]);
  }

  // ---------------------------------------------------------------------------
  // Sixty per minute or less: runs that fall short

  const EMPTY: Cell := Cell(0.0, 0)

  /** Denied calls on an empty bucket, the last exactly on time after the first. */
  ghost predicate FallsShort(op: Rounding, perMinute: int, tail: seq<Visit>) {
    && |tail| >= 2 && IsRun(op, perMinute, EMPTY, tail) && AllDenied(tail)
    && ReturnsOnTime(tail[0], tail[|tail| - 1])
  }

  /** Every number that is not negative is rounded, and not beyond zero. */
  ghost predicate IsTotal(op: Rounding) {
    forall x :: x >= 0.0 ==> HasRounding(op, x)
  }

  ghost predicate HasRounding(op: Rounding, x: real) {
    exists y :: op(x, y) && y >= 0.0 && (x > 0.0 ==> y > 0.0)
  }

  /** Token counts of a bucket that is full or less full by whole tokens are exact. */
  ghost predicate KeepsUpTo(op: Rounding, n: nat) {
    forall k: nat :: k <= n ==> Keeps(op, k)
  }

  predicate Keeps(op: Rounding, n: nat) {
    op(n as real, n as real)
  }

  /** A bucket of `n` tokens is emptied at once. */
  lemma Emptying(op: Rounding, perMinute: int, n: nat) returns (visits: seq<Visit>)
    requires IsTotal(op) && 0 < perMinute && n <= perMinute && KeepsUpTo(op, perMinute)
    ensures IsRun(op, perMinute, Cell(n as real, 0), visits) && After(Cell(n as real, 0), visits) == EMPTY
  {
    if n == 0 {
      return [];
    }
    var perSecond := PositiveRound(op, perMinute as real / 60.0);
    Grant(op, perMinute, perSecond, n);
    var rest := Emptying(op, perMinute, n - 1);
    visits := [Grants(perSecond, n)] + rest;
    assert visits[1..] == rest;
  }

  function Grants(perSecond: real, n: nat): Visit {
    Visit(0, Refill(perSecond, 0.0, 0.0, 0.0, n as real), Waiting(0.0, 0.0, 0.0), Granted, Cell((n - 1) as real, 0))
  }

  lemma Grant(op: Rounding, perMinute: int, perSecond: real, n: nat)
    requires 0 < n <= perMinute && op(perMinute as real / 60.0, perSecond)
    requires Keeps(op, 0) && Keeps(op, n - 1) && Keeps(op, n)
    ensures IsVisit(op, perMinute, Cell(n as real, 0), Grants(perSecond, n))
  {
    assert (n - 1) as real == n as real - 1.0 && 0.0 * perSecond == 0.0;
  }

  lemma NotEnough(op: Rounding, perMinute: int, tail: seq<Visit>)
    requires IsTotal(op) && 0 < perMinute && KeepsUpTo(op, perMinute) && FallsShort(op, perMinute, tail)
    ensures !OnTimeIsEnough(op, perMinute)
  {
    var grants := Emptying(op, perMinute, perMinute);
    RunJoins(op, perMinute, Cell(perMinute as real, 0), grants, tail);
    DeniedAfter(op, perMinute, grants, tail);
  }

  lemma DeniedAfter(op: Rounding, perMinute: int, grants: seq<Visit>, tail: seq<Visit>)
    requires IsRun(op, perMinute, Cell(perMinute as real, 0), grants + tail)
    requires |tail| >= 2 && AllDenied(tail) && ReturnsOnTime(tail[0], tail[|tail| - 1])
    ensures !OnTimeIsEnough(op, perMinute)
  {
    var visits, i, j := grants + tail, |grants|, |grants| + |tail| - 1;
    assert visits[i..j] == tail[..|tail| - 1];
    assert visits[i] == tail[0] && visits[j] == tail[|tail| - 1];
    assert ComesBack(op, perMinute, 0, visits, i, j);
  }

  // Rates that do not divide a minute of nanoseconds: the wait is truncated

  lemma RefillFor(op: Rounding, perMinute: int, tokens: real, elapsed: int) returns (r: Refill)
    requires IsTotal(op) && perMinute > 0 && tokens >= 0.0 && elapsed >= 0
    ensures IsRefill(op, perMinute, tokens, elapsed, r) && r.perSecond > 0.0
  {
    var perSecond := PositiveRound(op, perMinute as real / 60.0);
    var fraction := PositiveRound(op, (elapsed % SECOND) as real / 1000000000.0);
    var seconds := PositiveRound(op, (elapsed / SECOND) as real + fraction);
    var product := RoundedProduct(op, seconds, perSecond);
    var sum := PositiveRound(op, tokens + product);
    r := Refill(perSecond, fraction, seconds, product, sum);
    EqualProducts(seconds, perSecond, r.seconds, r.perSecond);
    assert op(r.seconds * r.perSecond, r.product);
  }

  lemma EqualProducts(a: real, b: real, a': real, b': real)
    requires a' == a && b' == b
    ensures a' * b' == a * b
  {
  }

  lemma RoundedProduct(op: Rounding, a: real, b: real) returns (y: real)
    requires IsTotal(op) && a >= 0.0 && b >= 0.0
    ensures op(a * b, y) && y >= 0.0
  {
    y := PositiveRound(op, a * b);
  }

  lemma PositiveRound(op: Rounding, x: real) returns (y: real)
    requires IsTotal(op) && x >= 0.0
    ensures op(x, y) && y >= 0.0 && (x > 0.0 ==> y > 0.0)
  {
    assert HasRounding(op, x);
    y :| op(x, y) && y >= 0.0 && (x > 0.0 ==> y > 0.0);
  }

  lemma WaitFor(op: Rounding, tokens: real, perSecond: real) returns (w: Waiting, wait: int)
    requires IsTotal(op) && tokens < 1.0 && perSecond > 0.0
    ensures IsWait(op, tokens, perSecond, w, wait)
  {
    var missing := PositiveRound(op, 1.0 - tokens);
    NonnegativeQuotient(missing, perSecond);
    var seconds := PositiveRound(op, missing / perSecond);
    var nanos := PositiveRound(op, seconds * 1000000000.0);
    w, wait := Waiting(missing, seconds, nanos), nanos.Floor;
  }

  /** Every bucket can be asked at every later time. */
  lemma VisitAt(op: Rounding, perMinute: int, b: Cell, now: int) returns (v: Visit)
    requires AsGood(op) && IsTotal(op) && perMinute > 0 && b.tokens >= 0.0 && now >= b.last
    ensures IsVisit(op, perMinute, b, v) && CloseVisit(perMinute, b, v) && v.now == now
  {
    var r := RefillFor(op, perMinute, b.tokens, now - b.last);
    var t := Least(perMinute as real, r.sum);
    if t < 1.0 {
      var w, wait := WaitFor(op, t, r.perSecond);
      v := Visit(now, r, w, Denied(wait), Cell(t, now));
    } else {
      var after := PositiveRound(op, t - 1.0);
      v := Visit(now, r, Waiting(0.0, 0.0, 0.0), Granted, Cell(after, now));
    }
    VisitIsClose(op, perMinute, b, v);
  }

  /** One second before the truncated instant of the next token. */
  function BeforeToken(perMinute: int): int
    requires perMinute > 0
  {
    TOKEN / perMinute - SECOND
  }

  lemma Truncating(perMinute: int)
    requires 0 < perMinute <= 60 && TOKEN % perMinute != 0
    ensures var t := perMinute * BeforeToken(perMinute);
      0 <= BeforeToken(perMinute) && TOKEN - perMinute * SECOND - perMinute < t < TOKEN - perMinute * SECOND
  {
  }

  lemma Refills(perMinute: int, elapsed: int)
    ensures Rate(perMinute) * elapsed as real == (perMinute * elapsed) as real / 60000000000.0
  {
  }

  /** A bucket as the first denial leaves it. */
  predicate BeforeTruncation(perMinute: int, b: Cell)
    requires perMinute > 0
  {
    Lacking(b) && b.last == BeforeToken(perMinute) && b.tokens <= Rate(perMinute) * b.last as real + REFILL_ERROR
  }

  lemma FirstIsDenied(perMinute: int, v: Visit)
    requires 0 < perMinute <= 60 && TOKEN % perMinute != 0
    requires CloseVisit(perMinute, EMPTY, v) && v.now == BeforeToken(perMinute)
    ensures v.outcome == Denied(SECOND) && BeforeTruncation(perMinute, v.after)
  {
    Truncating(perMinute);
    Refills(perMinute, v.now);
    assert v.outcome.Denied?;
    ExactWaitRefills(perMinute, v.after.tokens);
    WaitsOneSecond(perMinute, perMinute * v.now, v.after.tokens, ExactWait(perMinute, v.after.tokens),
                   v.outcome.wait);
  }

  /** `refill` is what has been refilled, in sixty billionths of a token. */
  lemma WaitsOneSecond(perMinute: int, refill: int, tokens: real, z: real, wait: int)
    requires 0 < perMinute <= 60
    requires TOKEN - perMinute * SECOND - perMinute < refill < TOKEN - perMinute * SECOND
    requires -REFILL_ERROR <= tokens - refill as real / 60000000000.0 <= REFILL_ERROR
    requires Rate(perMinute) * z == 1.0 - tokens && z - 1.001 < wait as real <= z + 0.001
    ensures wait == SECOND
  {
    var r, v := perMinute as real, 60000000000.0 * (1.0 - tokens);
    assert z * r == v by {
      assert Rate(perMinute) * 60000000000.0 == r;
      Regroup(z, Rate(perMinute), 60000000000.0);
    }
    Between(perMinute, refill, tokens, v, r);
    FactorBetween(z, r, v);
  }

  lemma FactorBetween(z: real, r: real, v: real)
    requires r > 0.0 && z * r == v && 1000000000.01 * r <= v <= 1000000000.99 * r
    ensures 1000000000.01 <= z <= 1000000000.99
  {
    CancelFactor(1000000000.01, z, r);
    CancelFactor(z, 1000000000.99, r);
  }

  lemma Between(perMinute: int, refill: int, tokens: real, v: real, r: real)
    requires 0 < perMinute <= 60 && r == perMinute as real
    requires TOKEN - perMinute * SECOND - perMinute < refill < TOKEN - perMinute * SECOND
    requires -REFILL_ERROR <= tokens - refill as real / 60000000000.0 <= REFILL_ERROR
    requires v == 60000000000.0 * (1.0 - tokens)
    ensures 1000000000.01 * r <= v <= 1000000000.99 * r
  {
  }

  lemma SecondIsDenied(perMinute: int, b: Cell, v: Visit)
    requires 0 < perMinute <= 60 && TOKEN % perMinute != 0
    requires BeforeTruncation(perMinute, b) && v.now == b.last + SECOND && CloseVisit(perMinute, b, v)
    ensures v.outcome.Denied?
  {
    Truncating(perMinute);
    Refills(perMinute, b.last);
    Refills(perMinute, SECOND);
    BelowOne(perMinute, perMinute * b.last, b.tokens, Rate(perMinute) * SECOND as real, v.refill.sum);
  }

  lemma BelowOne(perMinute: int, refill: int, tokens: real, p: real, sum: real)
    requires 0 < perMinute <= 60 && refill < TOKEN - perMinute * SECOND
    requires tokens <= refill as real / 60000000000.0 + REFILL_ERROR
    requires p == (perMinute * SECOND) as real / 60000000000.0
    requires p <= 1.5 ==> sum <= tokens + p + REFILL_ERROR
    ensures sum < 1.0
  {
  }

  lemma FirstShort(op: Rounding, perMinute: int) returns (first: Visit)
    requires AsGood(op) && IsTotal(op) && 0 < perMinute <= 60 && TOKEN % perMinute != 0
    ensures IsVisit(op, perMinute, EMPTY, first) && BeforeTruncation(perMinute, first.after)
    ensures first.outcome == Denied(SECOND) && first.now == first.after.last
  {
    Truncating(perMinute);
    first := VisitAt(op, perMinute, EMPTY, BeforeToken(perMinute));
    FirstIsDenied(perMinute, first);
  }

  lemma SecondShort(op: Rounding, perMinute: int, b: Cell) returns (second: Visit)
    requires AsGood(op) && IsTotal(op) && 0 < perMinute <= 60 && TOKEN % perMinute != 0
    requires BeforeTruncation(perMinute, b)
    ensures IsVisit(op, perMinute, b, second) && second.outcome.Denied? && second.now == b.last + SECOND
  {
    second := VisitAt(op, perMinute, b, b.last + SECOND);
    SecondIsDenied(perMinute, b, second);
  }

  lemma TruncatedFallsShort(op: Rounding, perMinute: int)
    requires AsGood(op) && IsTotal(op) && 0 < perMinute <= 60 && KeepsUpTo(op, perMinute)
    requires TOKEN % perMinute != 0
    ensures !OnTimeIsEnough(op, perMinute)
  {
    var first := FirstShort(op, perMinute);
    var second := SecondShort(op, perMinute, first.after);
    PairFallsShort(op, perMinute, first, second);
    NotEnough(op, perMinute, [first, second]);
  }

  lemma PairFallsShort(op: Rounding, perMinute: int, first: Visit, second: Visit)
    requires IsVisit(op, perMinute, EMPTY, first) && IsVisit(op, perMinute, first.after, second)
    requires OnTimeAndDenied(first, second)
    ensures FallsShort(op, perMinute, [first, second])
  {
    assert [first, second][1..] == [second] && [second][1..] == [];
    assert IsRun(op, perMinute, first.after, [second]);
  }

  // Rates that divide it: rounding falls short, in chains of denied calls

  /** A call `elapsed` nanoseconds after the last one. */
  datatype Step = Step(elapsed: int, refill: Refill)

  /** Denied calls on a bucket that holds `tokens`. */
  ghost predicate IsChain(op: Rounding, perMinute: int, tokens: real, steps: seq<Step>)
    decreases |steps|
  {
    steps == [] || (IsDeniedStep(op, perMinute, tokens, steps[0]) &&
                    IsChain(op, perMinute, steps[0].refill.sum, steps[1..]))
  }

  predicate IsDeniedStep(op: Rounding, perMinute: int, tokens: real, step: Step) {
    && step.elapsed >= 0 && step.refill.sum < 1.0 && step.refill.perSecond > 0.0
    && IsRefill(op, perMinute, tokens, step.elapsed, step.refill)
  }

  function Total(steps: seq<Step>): int
    decreases |steps|
  {
    if steps == [] then 0 else steps[0].elapsed + Total(steps[1..])
  }

  /** The waits of later calls do not matter. */
  lemma {:induction false} VisitsOf(op: Rounding, perMinute: int, b: Cell, steps: seq<Step>)
      returns (visits: seq<Visit>)
    requires IsTotal(op) && perMinute > 0 && IsChain(op, perMinute, b.tokens, steps)
    ensures |visits| == |steps| && IsRun(op, perMinute, b, visits) && AllDenied(visits)
    ensures visits != [] ==> visits[|visits| - 1].now == b.last + Total(steps)
    decreases |steps|
  {
    if steps == [] {
      return [];
    }
    var v := DeniedVisit(op, perMinute, b, steps[0]);
    var rest := VisitsOf(op, perMinute, v.after, steps[1..]);
    visits := [v] + rest;
    assert visits[1..] == rest;
  }

  lemma DeniedVisit(op: Rounding, perMinute: int, b: Cell, step: Step) returns (v: Visit)
    requires IsTotal(op) && perMinute > 0 && IsDeniedStep(op, perMinute, b.tokens, step)
    ensures IsVisit(op, perMinute, b, v) && v.outcome.Denied?
    ensures v.now == b.last + step.elapsed && v.after == Cell(step.refill.sum, v.now)
  {
    var w, wait := WaitFor(op, step.refill.sum, step.refill.perSecond);
    v := Visited(b, step, w, wait);
    StepIsVisit(op, perMinute, b, step, w, wait);
  }

  lemma StepIsVisit(op: Rounding, perMinute: int, b: Cell, step: Step, w: Waiting, wait: int)
    requires perMinute > 0 && IsDeniedStep(op, perMinute, b.tokens, step)
    requires IsWait(op, step.refill.sum, step.refill.perSecond, w, wait)
    ensures IsVisit(op, perMinute, b, Visited(b, step, w, wait))
  {
  }

  function Visited(b: Cell, step: Step, w: Waiting, wait: int): Visit {
    var now := b.last + step.elapsed;
    Visit(now, step.refill, w, Denied(wait), Cell(step.refill.sum, now))
  }

  /** A first call with its wait, and the rest of the chain the header's seconds long. */
  lemma ChainFallsShort(op: Rounding, perMinute: int, first: Step, w: Waiting, wait: int, rest: seq<Step>)
    requires IsTotal(op) && perMinute > 0 && KeepsUpTo(op, perMinute) && rest != []
    requires IsDeniedStep(op, perMinute, 0.0, first)
    requires IsWait(op, first.refill.sum, first.refill.perSecond, w, wait) && wait >= 0
    requires IsChain(op, perMinute, first.refill.sum, rest) && Total(rest) == RetryAfterSeconds(wait) * SECOND
    ensures !OnTimeIsEnough(op, perMinute)
  {
    var v := Visited(EMPTY, first, w, wait);
    StepIsVisit(op, perMinute, EMPTY, first, w, wait);
    var visits := VisitsOf(op, perMinute, v.after, rest);
    TailFallsShort(op, perMinute, v, visits);
    NotEnough(op, perMinute, [v] + visits);
  }

  lemma TailFallsShort(op: Rounding, perMinute: int, v: Visit, visits: seq<Visit>)
    requires IsVisit(op, perMinute, EMPTY, v) && IsRun(op, perMinute, v.after, visits) && AllDenied(visits)
    requires visits != [] && OnTimeAndDenied(v, visits[|visits| - 1])
    ensures FallsShort(op, perMinute, [v] + visits)
  {
    assert ([v] + visits)[1..] == visits;
  }

  // The same at a rate that is lower by a power of two

  predicate IsFraction(op: Rounding, elapsed: int, fraction: real, seconds: real) {
    && op((elapsed % SECOND) as real / 1000000000.0, fraction)
    && op((elapsed / SECOND) as real + fraction, seconds)
  }

  /** `seconds` is the rounded value of `elapsed`. */
  ghost predicate HasFraction(op: Rounding, elapsed: int, seconds: real) {
    exists fraction :: IsFraction(op, elapsed, fraction, seconds)
  }

  /** A time `f` times as long is rounded in the same way. */
  ghost predicate Scales(op: Rounding, f: nat, step: Step) {
    HasFraction(op, f * step.elapsed, step.refill.seconds * f as real)
  }

  ghost predicate AllScale(op: Rounding, f: nat, steps: seq<Step>) {
    forall k :: 0 <= k < |steps| ==> Scales(op, f, steps[k])
  }

  /** Rounding commutes with a factor. */
  predicate Rescales(op: Rounding, f: real, x: real, y: real, x': real, y': real) {
    x' == x * f && y' == y * f ==> (op(x, y) <==> op(x', y'))
  }

  ghost predicate Commutes(op: Rounding, f: real) {
    forall x, y, x', y' :: Rescales(op, f, x, y, x', y')
  }

  lemma NearestCommutes(f: real)
    requires PowerOfTwo(f)
    ensures Commutes(Nearest, f)
  {
    forall x, y, x', y'
      ensures Rescales(Nearest, f, x, y, x', y')
    {
      if x' == x * f && y' == y * f {
        if Nearest(x, y) {
          ScaledUp(x, y, f, x', y');
        }
        if Nearest(x', y') {
          ScaledDown(x, y, f, x', y');
        }
      }
    }
  }

  /** How a refill at a rate becomes one at an f-th of the rate in f times the time. */
  predicate IsSlower(f: real, r: Refill, r': Refill) {
    && r.perSecond == r'.perSecond * f && r'.seconds == r.seconds * f
    && r'.product == r.product && r'.sum == r.sum
  }

  lemma SlowerRefill(op: Rounding, f: real, fast: int, slow: int, tokens: real, elapsed: int, elapsed': int,
                     r: Refill, r': Refill)
    requires Commutes(op, f) && fast as real == slow as real * f && IsSlower(f, r, r')
    requires IsRefill(op, fast, tokens, elapsed, r) && IsFraction(op, elapsed', r'.fraction, r'.seconds)
    ensures IsRefill(op, slow, tokens, elapsed', r')
  {
    assert Rescales(op, f, slow as real / 60.0, r'.perSecond, fast as real / 60.0, r.perSecond);
    SameProduct(f, r.seconds, r.perSecond, r'.seconds, r'.perSecond);
    SameRefill(op, fast, slow, tokens, elapsed, elapsed', r, r');
  }

  lemma SameRefill(op: Rounding, fast: int, slow: int, tokens: real, elapsed: int, elapsed': int, r: Refill,
                   r': Refill)
    requires IsRefill(op, fast, tokens, elapsed, r) && op(slow as real / 60.0, r'.perSecond)
    requires IsFraction(op, elapsed', r'.fraction, r'.seconds)
    requires r'.seconds * r'.perSecond == r.seconds * r.perSecond && r'.product == r.product && r'.sum == r.sum
    ensures IsRefill(op, slow, tokens, elapsed', r')
  {
  }

  lemma SameProduct(f: real, a: real, b: real, a': real, b': real)
    requires a' == a * f && b == b' * f
    ensures a' * b' == a * b
  {
  }

  lemma SlowerStep(op: Rounding, f: nat, fast: int, slow: int, tokens: real, step: Step) returns (step': Step)
    requires f > 0 && Commutes(op, f as real) && fast as real == slow as real * f as real
    requires IsDeniedStep(op, fast, tokens, step) && Scales(op, f, step)
    ensures IsDeniedStep(op, slow, tokens, step')
    ensures step'.elapsed == f * step.elapsed && IsSlower(f as real, step.refill, step'.refill)
  {
    step' := StepOf(op, f as real, step.refill, f * step.elapsed, step.refill.seconds * f as real);
    SlowerRefill(op, f as real, fast, slow, tokens, step.elapsed, f * step.elapsed, step.refill, step'.refill);
    CancelFactor(0.0, step'.refill.perSecond, f as real);
  }

  lemma StepOf(op: Rounding, f: real, r: Refill, elapsed: int, seconds: real) returns (step: Step)
    requires f > 0.0 && HasFraction(op, elapsed, seconds) && seconds == r.seconds * f
    ensures step.elapsed == elapsed && IsSlower(f, r, step.refill)
    ensures IsFraction(op, elapsed, step.refill.fraction, step.refill.seconds)
  {
    var fraction :| IsFraction(op, elapsed, fraction, seconds);
    step := Step(elapsed, Refill(r.perSecond / f, fraction, seconds, r.product, r.sum));
  }

  lemma RestScales(op: Rounding, f: nat, steps: seq<Step>)
    requires steps != [] && AllScale(op, f, steps)
    ensures Scales(op, f, steps[0]) && AllScale(op, f, steps[1..])
  {
    assert forall k :: 0 <= k < |steps[1..]| ==> steps[1..][k] == steps[k + 1];
  }

  lemma {:induction false} SlowerChain(op: Rounding, f: nat, fast: int, slow: int, tokens: real, steps: seq<Step>)
      returns (steps': seq<Step>)
    requires f > 0 && Commutes(op, f as real) && fast as real == slow as real * f as real
    requires IsChain(op, fast, tokens, steps) && AllScale(op, f, steps)
    ensures IsChain(op, slow, tokens, steps') && Total(steps') == f * Total(steps) && |steps'| == |steps|
    decreases |steps|
  {
    if steps == [] {
      return [];
    }
    RestScales(op, f, steps);
    var step := SlowerStep(op, f, fast, slow, tokens, steps[0]);
    var rest := SlowerChain(op, f, fast, slow, steps[0].refill.sum, steps[1..]);
    steps' := [step] + rest;
    assert steps'[1..] == rest;
    RateLimitTheory.Distribute(f, steps[0].elapsed, Total(steps[1..]));
  }

  lemma SlowerWait(op: Rounding, f: real, tokens: real, perSecond: real, perSecond': real, w: Waiting, wait: int)
      returns (w': Waiting)
    requires Commutes(op, f) && f > 0.0 && perSecond > 0.0 && perSecond == perSecond' * f
    requires IsWait(op, tokens, perSecond, w, wait)
    ensures perSecond' > 0.0 && IsWait(op, tokens, perSecond', w', w'.nanos.Floor) && w'.nanos == w.nanos * f
  {
    SlowerQuotient(w.missing, perSecond, f, perSecond');
    w' := Waiting(w.missing, w.seconds * f, w.nanos * f);
    assert Rescales(op, f, w.missing / perSecond, w.seconds, w.missing / perSecond', w'.seconds);
    assert Rescales(op, f, w.seconds * 1000000000.0, w.nanos, w'.seconds * 1000000000.0, w'.nanos);
  }

  lemma SlowerQuotient(a: real, b: real, f: real, b': real)
    requires b > 0.0 && f > 0.0 && b == b' * f
    ensures b' > 0.0 && a / b' == (a / b) * f
  {
    CancelFactor(0.0, b', f);
    var q := a / b;
    assert q * b == a;
    Regroup(q, f, b');
    QuotientIs(a, b', q * f);
  }

  lemma QuotientIs(a: real, b: real, q: real)
    requires b > 0.0 && q * b == a
    ensures a / b == q
  {
  }

  /** A first denial that announces about `seconds` whole seconds, and calls up to exactly that
      much later. */
  datatype Shortfall = Shortfall(first: Step, waiting: Waiting, seconds: nat, rest: seq<Step>)

  ghost predicate IsShortfall(op: Rounding, perMinute: int, s: Shortfall) {
    && IsFirst(op, perMinute, s.first, s.waiting, s.seconds * SECOND, 0.01) && s.seconds > 0
    && s.rest != [] && IsChain(op, perMinute, s.first.refill.sum, s.rest) && Total(s.rest) == s.seconds * SECOND
  }

  predicate IsFirst(op: Rounding, perMinute: int, first: Step, w: Waiting, wait: int, error: real) {
    && IsDeniedStep(op, perMinute, 0.0, first)
    && -error <= w.nanos - wait as real <= error
    && IsWait(op, first.refill.sum, first.refill.perSecond, w, w.nanos.Floor)
  }

  lemma Announced(nanos: real, seconds: nat)
    requires -0.5 <= nanos - (seconds * SECOND) as real <= 0.5 && seconds > 0
    ensures nanos.Floor >= 0 && RetryAfterSeconds(nanos.Floor) == seconds
  {
    var wait := nanos.Floor;
    assert wait == seconds * SECOND || wait == seconds * SECOND - 1;
  }

  lemma AboutScaled(nanos: real, wait: int, f: nat, nanos': real)
    requires 0 < f <= 32 && -0.01 <= nanos - wait as real <= 0.01 && nanos' == nanos * f as real
    ensures -0.5 <= nanos' - (f * wait) as real <= 0.5
  {
    SmallProduct(nanos - wait as real, f as real);
    Distributes(nanos, wait as real, f as real);
    assert (f * wait) as real == wait as real * f as real;
  }

  lemma SmallProduct(d: real, q: real)
    requires -0.01 <= d <= 0.01 && 0.0 < q <= 32.0
    ensures -0.5 <= d * q <= 0.5
  {
    if d >= 0.0 {
      TimesMonotone(d, 0.01, q, 32.0);
    } else {
      TimesMonotone(-d, 0.01, q, 32.0);
    }
  }

  lemma Distributes(a: real, b: real, q: real)
    ensures (a - b) * q == a * q - b * q
  {
  }

  lemma SlowerFirst(op: Rounding, f: nat, fast: int, slow: int, first: Step, w: Waiting, wait: int)
      returns (first': Step, w': Waiting)
    requires 0 < f <= 32 && Commutes(op, f as real) && fast as real == slow as real * f as real
    requires IsFirst(op, fast, first, w, wait, 0.01) && Scales(op, f, first)
    ensures first'.refill.sum == first.refill.sum && IsFirst(op, slow, first', w', f * wait, 0.5)
  {
    first' := SlowerStep(op, f, fast, slow, 0.0, first);
    w' := SlowerWait(op, f as real, first.refill.sum, first.refill.perSecond, first'.refill.perSecond, w,
                     w.nanos.Floor);
    AboutScaled(w.nanos, wait, f, w'.nanos);
  }

  lemma FirstFallsShort(op: Rounding, perMinute: int, first: Step, w: Waiting, seconds: nat, rest: seq<Step>)
    requires IsTotal(op) && perMinute > 0 && KeepsUpTo(op, perMinute) && rest != []
    requires IsFirst(op, perMinute, first, w, seconds * SECOND, 0.5) && seconds > 0
    requires IsChain(op, perMinute, first.refill.sum, rest) && Total(rest) == seconds * SECOND
    ensures !OnTimeIsEnough(op, perMinute)
  {
    Announced(w.nanos, seconds);
    ChainFallsShort(op, perMinute, first, w, w.nanos.Floor, rest);
  }

  lemma ManySeconds(f: nat, seconds: nat) returns (n: nat)
    ensures n * SECOND == f * (seconds * SECOND) && (f > 0 && seconds > 0 ==> n > 0)
  {
    n := f * seconds;
  }

  /** It falls short at every rate that is lower by a factor that rounding commutes with. */
  lemma SlowerFallsShort(op: Rounding, f: nat, fast: int, slow: int, s: Shortfall)
    requires IsTotal(op) && slow > 0 && KeepsUpTo(op, slow)
    requires 0 < f <= 32 && Commutes(op, f as real) && fast as real == slow as real * f as real
    requires IsShortfall(op, fast, s) && Scales(op, f, s.first) && AllScale(op, f, s.rest)
    ensures !OnTimeIsEnough(op, slow)
  {
    var first, w := SlowerFirst(op, f, fast, slow, s.first, s.waiting, s.seconds * SECOND);
    var rest := SlowerChain(op, f, fast, slow, s.first.refill.sum, s.rest);
    var n := ManySeconds(f, s.seconds);
    FirstFallsShort(op, slow, first, w, n, rest);
  }

  /** Every shortfall at `fast` per minute whose times scale makes the seconds too few at `slow`. */
  ghost predicate Slows(op: Rounding, f: nat, fast: int, slow: int) {
    forall s :: IsShortfall(op, fast, s) && Scales(op, f, s.first) && AllScale(op, f, s.rest) ==>
      !OnTimeIsEnough(op, slow)
  }

  lemma ShortfallsSlow(op: Rounding, f: nat, fast: int, slow: int)
    requires IsTotal(op) && slow > 0 && KeepsUpTo(op, slow)
    requires 0 < f <= 32 && Commutes(op, f as real) && fast as real == slow as real * f as real
    ensures Slows(op, f, fast, slow)
  {
    forall s | IsShortfall(op, fast, s) && Scales(op, f, s.first) && AllScale(op, f, s.rest)
      ensures !OnTimeIsEnough(op, slow)
    {
      SlowerFallsShort(op, f, fast, slow, s);
    }
  }

  // Which times scale

  /** A sixty-fourth of a second. */
  const TICK: int := 15_625_000

  /** Whole numbers of ticks are exact. */
  lemma TicksAreExact(e: int)
    requires 0 <= e <= 2000 * SECOND && e % TICK == 0
    ensures Nearest(e as real / 1000000000.0, e as real / 1000000000.0)
  {
    var n, x := e / TICK, e as real / 1000000000.0;
    assert e == n * TICK;
    WholeRoundsToItself(n);
    IsPower(6, 64.0);
    ScaledDown(x, x, 64.0, n as real, n as real);
  }

  lemma TickScales(f: nat, step: Step)
    requires f <= 32 && 0 <= step.elapsed <= 60 * SECOND && step.elapsed % TICK == 0
    requires step.refill.seconds == step.elapsed as real / 1000000000.0
    ensures Scales(Nearest, f, step)
  {
    var e := f * step.elapsed;
    var x := e as real / 1000000000.0;
    ManyTicks(f, step.elapsed);
    TicksAreExact(e);
    TicksAreExact(e % SECOND);
    WholeAndRest(e);
    assert step.refill.seconds * f as real == x;
    assert IsFraction(Nearest, e, (e % SECOND) as real / 1000000000.0, x);
  }

  lemma ManyTicks(f: nat, e: int)
    requires f <= 32 && 0 <= e <= 60 * SECOND && e % TICK == 0
    ensures 0 <= f * e <= 2000 * SECOND && (f * e) % TICK == 0 && (f * e) % SECOND % TICK == 0
  {
    var n := e / TICK;
    assert e == n * TICK;
    TicksInSecond(f * n);
    assert f * e == (f * n) * TICK;
    AtMostTimes(f, 32, e);
  }

  lemma TicksInSecond(n: int)
    ensures (n * TICK) % TICK == 0 && (n * TICK) % SECOND % TICK == 0
  {
    assert n == 64 * (n / 64) + n % 64;
    assert n * TICK == SECOND * (n / 64) + (n % 64) * TICK;
  }

  lemma AtMostTimes(a: nat, b: nat, c: nat)
    requires a <= b
    ensures 0 <= a * c <= b * c
  {
  }

  predicate IsTicked(s: Step) {
    0 <= s.elapsed <= SECOND && s.elapsed % TICK == 0 && s.refill.seconds == s.elapsed as real / 1000000000.0
  }

  predicate AllTicked(s: Shortfall) {
    IsTicked(s.first) && forall k :: 0 <= k < |s.rest| ==> IsTicked(s.rest[k])
  }

  lemma AllTicksScale(f: nat, s: Shortfall)
    requires f <= 32 && AllTicked(s)
    ensures Scales(Nearest, f, s.first) && AllScale(Nearest, f, s.rest)
  {
    TickScales(f, s.first);
    forall k | 0 <= k < |s.rest|
      ensures Scales(Nearest, f, s.rest[k])
    {
      TickScales(f, s.rest[k]);
    }
  }

  lemma FractionScales(op: Rounding, f: nat, step: Step)
    requires Commutes(op, f as real) && step.elapsed >= 0 && 0 <= f * step.elapsed < SECOND && f > 0
    requires IsFraction(op, step.elapsed, step.refill.fraction, step.refill.seconds)
    ensures Scales(op, f, step)
  {
    assert step.elapsed <= f * step.elapsed;
    Casts(step.elapsed, f);
    LongerFraction(op, f as real, step.elapsed, f * step.elapsed, step.refill.fraction, step.refill.seconds,
                   step.refill.seconds * f as real);
  }

  lemma LongerFraction(op: Rounding, f: real, e: int, e': int, fraction: real, seconds: real, seconds': real)
    requires Commutes(op, f) && 0 <= e < SECOND && 0 <= e' < SECOND && e' as real == e as real * f
    requires IsFraction(op, e, fraction, seconds) && seconds' == seconds * f
    ensures HasFraction(op, e', seconds')
  {
    var x, x' := e as real / 1000000000.0, e' as real / 1000000000.0;
    assert x' == x * f;
    assert Rescales(op, f, x, fraction, x', fraction * f);
    assert Rescales(op, f, 0.0 + fraction, seconds, 0.0 + fraction * f, seconds');
    assert IsFraction(op, e', fraction * f, seconds');
  }
}
