/** Concrete float64 runs in which a client that comes back exactly on time is denied, one for
    each rate up to sixty per minute that divides a minute of nanoseconds; and with them the exact
    condition under which the seconds of Retry-After are enough.

    A run at a rate is one at half of it in twice the time when its times are rounded in the same
    way, so five runs and their halves are enough, beside those of the default rates. */
module RateLimitShortfalls {
  import opened RateLimit
  import opened Float64
  import opened RateLimitRounding
  import opened RateLimitOnTime

  /** A call less than a second after the last one. */
  function Part(elapsed: int, perSecond: real, seconds: real, product: real, sum: real): Step {
    Step(elapsed, Refill(perSecond, seconds, seconds, product, sum))
  }

  predicate IsPart(op: Rounding, perMinute: int, tokens: real, s: Step) {
    && 0 <= s.elapsed < SECOND && s.refill.fraction == s.refill.seconds && s.refill.sum < 1.0
    && s.refill.perSecond > 0.0
    && op(perMinute as real / 60.0, s.refill.perSecond) && op(s.elapsed as real / 1000000000.0, s.refill.seconds)
    && op(s.refill.seconds * s.refill.perSecond, s.refill.product) && op(tokens + s.refill.product, s.refill.sum)
  }

  lemma PartIsDenied(op: Rounding, perMinute: int, tokens: real, s: Step)
    requires IsStable(op) && IsTotal(op) && IsPart(op, perMinute, tokens, s) && s.refill.seconds >= 0.0
    ensures IsDeniedStep(op, perMinute, tokens, s)
  {
    var again := PositiveRound(op, s.refill.seconds);
    assert again == s.refill.seconds;
    assert s.elapsed % SECOND == s.elapsed && s.elapsed / SECOND == 0;
    assert op((s.elapsed % SECOND) as real / 1000000000.0, s.refill.fraction);
    assert op((s.elapsed / SECOND) as real + s.refill.fraction, s.refill.seconds);
    assert op(s.refill.seconds * s.refill.perSecond, s.refill.product);
    assert IsRefill(op, perMinute, tokens, s.elapsed, s.refill);
  }

  lemma ChainOf2(op: Rounding, perMinute: int, tokens: real, a: Step, b: Step)
    requires IsDeniedStep(op, perMinute, tokens, a) && IsDeniedStep(op, perMinute, a.refill.sum, b)
    ensures IsChain(op, perMinute, tokens, [a, b])
  {
    assert [a, b][1..] == [b] && [b][1..] == [];
    assert IsChain(op, perMinute, a.refill.sum, [b]);
  }

  lemma ChainOf3(op: Rounding, perMinute: int, tokens: real, a: Step, b: Step, c: Step)
    requires IsDeniedStep(op, perMinute, tokens, a) && IsDeniedStep(op, perMinute, a.refill.sum, b)
    requires IsDeniedStep(op, perMinute, b.refill.sum, c)
    ensures IsChain(op, perMinute, tokens, [a, b, c])
  {
    ChainOf2(op, perMinute, a.refill.sum, b, c);
    assert [a, b, c][1..] == [b, c];
  }

  lemma TotalOf2(a: Step, b: Step)
    ensures Total([a, b]) == a.elapsed + b.elapsed
  {
    assert [a, b][1..] == [b] && Total([b]) == b.elapsed;
  }

  lemma TotalOf3(a: Step, b: Step, c: Step)
    ensures Total([a, b, c]) == a.elapsed + b.elapsed + c.elapsed
  {
    TotalOf2(b, c);
    assert [a, b, c][1..] == [b, c];
  }

  lemma MakesShortfall(op: Rounding, perMinute: int, first: Step, w: Waiting, seconds: nat, rest: seq<Step>)
    requires IsFirst(op, perMinute, first, w, seconds * SECOND, 0.01) && seconds > 0 && rest != []
    requires IsChain(op, perMinute, first.refill.sum, rest) && Total(rest) == seconds * SECOND
    ensures IsShortfall(op, perMinute, Shortfall(first, w, seconds, rest))
  {
  }

  // ---------------------------------------------------------------------------
  // Rounding concrete numbers

  /** The powers of two that scale the numbers below to mantissas. */
  predicate IsScale(p: real) {
    || p == 4194304.0 || p == 8388608.0
    || p == 2251799813685248.0 || p == 4503599627370496.0
    || p == 9007199254740992.0 || p == 18014398509481984.0
    || p == 36028797018963968.0 || p == 72057594037927936.0
    || p == 144115188075855872.0 || p == 4722366482869645213696.0
    || p == 9444732965739290427392.0 || p == 5070602400912917605986812821504.0
    || p == 10141204801825835211973625643008.0 || p == 40564819207303340847894502572032.0
  }

  lemma ScaleIsPower(p: real)
    requires IsScale(p)
    ensures PowerOfTwo(p)
  {
    ExactPowers();
    LargePowers();
    if p == 4194304.0 {
      IsPower(22, p);
    } else if p == 8388608.0 {
      IsPower(23, p);
    } else if p == 2251799813685248.0 {
      IsPower(51, p);
    } else if p == 4503599627370496.0 {
      IsPower(52, p);
    } else if p == 9007199254740992.0 {
      IsPower(53, p);
    } else if p == 18014398509481984.0 {
      IsPower(54, p);
    } else if p == 36028797018963968.0 {
      IsPower(55, p);
    } else if p == 72057594037927936.0 {
      IsPower(56, p);
    } else if p == 144115188075855872.0 {
      IsPower(57, p);
    } else if p == 4722366482869645213696.0 {
      IsPower(72, p);
    } else if p == 9444732965739290427392.0 {
      IsPower(73, p);
    } else if p == 5070602400912917605986812821504.0 {
      IsPower(102, p);
    } else if p == 10141204801825835211973625643008.0 {
      IsPower(103, p);
    } else if p == 40564819207303340847894502572032.0 {
      IsPower(105, p);
    }
  }

  /** `y` is the mantissa `m` over `p`, and nearest to `x`. */
  lemma Rounds(x: real, y: real, p: real, m: nat)
    requires IsScale(p) && MANTISSA <= m <= 2 * MANTISSA && y * p == m as real
    requires IsMantissa(x * p) && WithinHalf(x * p, m)
    ensures Nearest(x, y)
  {
    ScaleIsPower(p);
    RoundsTo(x, y, p, m);
  }

  lemma ExactPowers()
    ensures Pow2(22) == 4194304
    ensures Pow2(23) == 8388608
    ensures Pow2(51) == 2251799813685248
    ensures Pow2(52) == 4503599627370496
    ensures Pow2(53) == 9007199254740992
    ensures Pow2(54) == 18014398509481984
    ensures Pow2(55) == 36028797018963968
    ensures Pow2(56) == 72057594037927936
    ensures Pow2(57) == 144115188075855872
  {
    Pow2Adds(8, 3);
    Pow2Adds(11, 11);
    Pow2Adds(22, 1);
    Pow2Adds(22, 22);
    Pow2Adds(44, 5);
    Pow2Adds(49, 1);
    Pow2Adds(50, 1);
    Pow2Adds(51, 1);
    Pow2Adds(52, 1);
    Pow2Adds(53, 1);
    Pow2Adds(54, 1);
    Pow2Adds(55, 1);
    Pow2Adds(56, 1);
  }

  lemma LargePowers()
    ensures Pow2(72) == 4722366482869645213696
    ensures Pow2(73) == 9444732965739290427392
    ensures Pow2(102) == 5070602400912917605986812821504
    ensures Pow2(103) == 10141204801825835211973625643008
    ensures Pow2(105) == 40564819207303340847894502572032
  {
    ExactPowers();
    Pow2Adds(50, 22);
    Pow2Adds(72, 1);
    Pow2Adds(53, 49);
    Pow2Adds(102, 1);
    Pow2Adds(103, 2);
  }

  // ---------------------------------------------------------------------------
  // Runs that fall short: two of the default rates, then the highest rate of each family of halves

  const SIXTH: real := 6004799503160661.0 / 36028797018963968.0
  const FIVE_SIXTHS: real := 7505999378950826.0 / 9007199254740992.0
  const BELOW_ONE: real := 9007199254740991.0 / 9007199254740992.0

  /** Ten per minute: 5 s after it was emptied the bucket lacks a little more than a sixth of a
      token, and the wait is announced as one second. */
  const FIRST_AT_TEN: Visit :=
    Visit(5 * SECOND, Refill(SIXTH, 0.0, 5.0, FIVE_SIXTHS, FIVE_SIXTHS),
          Waiting(6004799503160664.0 / 36028797018963968.0, 4503599627370498.0 / 4503599627370496.0,
                  8388608000000004.0 / 8388608.0),
          Denied(SECOND), Cell(FIVE_SIXTHS, 5 * SECOND))

  /** Exactly one second later it still lacks a rounding error. */
  const SECOND_AT_TEN: Visit :=
    Visit(6 * SECOND, Refill(SIXTH, 0.0, 1.0, SIXTH, BELOW_ONE),
          Waiting(4503599627370496.0 / 40564819207303340847894502572032.0,
                  6755399441055744.0 / 10141204801825835211973625643008.0,
                  6291456000000000.0 / 9444732965739290427392.0),
          Denied(0), Cell(BELOW_ONE, 6 * SECOND))

  const TWELFTH: real := 6004799503160661.0 / 72057594037927936.0

  /** Five per minute: 10 s after it was emptied, the wait is announced as two seconds. */
  const FIRST_AT_FIVE: Visit :=
    Visit(10 * SECOND, Refill(TWELFTH, 0.0, 10.0, FIVE_SIXTHS, FIVE_SIXTHS),
          Waiting(6004799503160664.0 / 36028797018963968.0, 4503599627370498.0 / 2251799813685248.0,
                  8388608000000004.0 / 4194304.0),
          Denied(2 * SECOND), Cell(FIVE_SIXTHS, 10 * SECOND))

  const SECOND_AT_FIVE: Visit :=
    Visit(12 * SECOND, Refill(TWELFTH, 0.0, 2.0, SIXTH, BELOW_ONE),
          Waiting(4503599627370496.0 / 40564819207303340847894502572032.0,
                  6755399441055744.0 / 5070602400912917605986812821504.0,
                  6291456000000000.0 / 4722366482869645213696.0),
          Denied(0), Cell(BELOW_ONE, 12 * SECOND))

  lemma SixthRounds()
    ensures Nearest(10.0 / 60.0, SIXTH)
  {
    Rounds(10.0 / 60.0, SIXTH, 36028797018963968.0, 6004799503160661);
  }

  lemma TwelfthRounds()
    ensures Nearest(5.0 / 60.0, TWELFTH)
  {
    Rounds(5.0 / 60.0, TWELFTH, 72057594037927936.0, 6004799503160661);
  }

  lemma WholeRefill(op: Rounding, perMinute: int, tokens: real, seconds: nat, r: Refill)
    requires op(0.0, 0.0) && r.fraction == 0.0 && op(seconds as real, r.seconds)
    requires op(perMinute as real / 60.0, r.perSecond) && op(r.seconds * r.perSecond, r.product)
    requires op(tokens + r.product, r.sum)
    ensures IsRefill(op, perMinute, tokens, seconds * SECOND, r)
  {
    var e := seconds * SECOND;
    assert e / SECOND == seconds && e % SECOND == 0;
    assert op((e % SECOND) as real / 1000000000.0, r.fraction) && op((e / SECOND) as real + r.fraction, r.seconds);
  }

  lemma FirstRefillAtTen()
    ensures IsRefill(Nearest, 10, 0.0, 5 * SECOND, FIRST_AT_TEN.refill)
  {
    SixthRounds();
    WholeRoundsToItself(5);
    Rounds(5.0 * SIXTH, FIVE_SIXTHS, 9007199254740992.0, 7505999378950826);
    Rounds(0.0 + FIVE_SIXTHS, FIVE_SIXTHS, 9007199254740992.0, 7505999378950826);
    WholeRefill(Nearest, 10, 0.0, 5, FIRST_AT_TEN.refill);
  }

  lemma FirstWaitAtTen()
    ensures IsWait(Nearest, FIVE_SIXTHS, SIXTH, FIRST_AT_TEN.waiting, SECOND)
  {
    var w := FIRST_AT_TEN.waiting;
    Rounds(1.0 - FIVE_SIXTHS, w.missing, 36028797018963968.0, 6004799503160664);
    Rounds(w.missing / SIXTH, w.seconds, 4503599627370496.0, 4503599627370498);
    Rounds(w.seconds * 1000000000.0, w.nanos, 8388608.0, 8388608000000004);
  }

  lemma FirstAtTen()
    ensures IsVisit(Nearest, 10, EMPTY, FIRST_AT_TEN)
  {
    FirstRefillAtTen();
    FirstWaitAtTen();
  }

  lemma SecondRefillAtTen()
    ensures IsRefill(Nearest, 10, FIVE_SIXTHS, SECOND, SECOND_AT_TEN.refill)
  {
    SixthRounds();
    WholeRoundsToItself(1);
    Rounds(1.0 * SIXTH, SIXTH, 36028797018963968.0, 6004799503160661);
    Rounds(FIVE_SIXTHS + SIXTH, BELOW_ONE, 9007199254740992.0, 9007199254740991);
    WholeRefill(Nearest, 10, FIVE_SIXTHS, 1, SECOND_AT_TEN.refill);
  }

  lemma SecondWaitAtTen()
    ensures IsWait(Nearest, BELOW_ONE, SIXTH, SECOND_AT_TEN.waiting, 0)
  {
    var w := SECOND_AT_TEN.waiting;
    Rounds(1.0 - BELOW_ONE, w.missing, 40564819207303340847894502572032.0, 4503599627370496);
    Rounds(w.missing / SIXTH, w.seconds, 10141204801825835211973625643008.0, 6755399441055744);
    Rounds(w.seconds * 1000000000.0, w.nanos, 9444732965739290427392.0, 6291456000000000);
  }

  /** In float64 a client that comes back exactly on time can be denied at ten per minute,
      although exact arithmetic would admit it. */
  lemma OnTimeIsDeniedAtTen()
    ensures IsVisit(Nearest, 10, FIRST_AT_TEN.after, SECOND_AT_TEN) && OnTimeAndDenied(FIRST_AT_TEN, SECOND_AT_TEN)
  {
    SecondRefillAtTen();
    SecondWaitAtTen();
  }

  lemma FirstRefillAtFive()
    ensures IsRefill(Nearest, 5, 0.0, 10 * SECOND, FIRST_AT_FIVE.refill)
  {
    TwelfthRounds();
    WholeRoundsToItself(10);
    Rounds(10.0 * TWELFTH, FIVE_SIXTHS, 9007199254740992.0, 7505999378950826);
    Rounds(0.0 + FIVE_SIXTHS, FIVE_SIXTHS, 9007199254740992.0, 7505999378950826);
    WholeRefill(Nearest, 5, 0.0, 10, FIRST_AT_FIVE.refill);
  }

  lemma FirstWaitAtFive()
    ensures IsWait(Nearest, FIVE_SIXTHS, TWELFTH, FIRST_AT_FIVE.waiting, 2 * SECOND)
  {
    var w := FIRST_AT_FIVE.waiting;
    Rounds(1.0 - FIVE_SIXTHS, w.missing, 36028797018963968.0, 6004799503160664);
    Rounds(w.missing / TWELFTH, w.seconds, 2251799813685248.0, 4503599627370498);
    Rounds(w.seconds * 1000000000.0, w.nanos, 4194304.0, 8388608000000004);
  }

  lemma FirstAtFive()
    ensures IsVisit(Nearest, 5, EMPTY, FIRST_AT_FIVE)
  {
    FirstRefillAtFive();
    FirstWaitAtFive();
  }

  lemma SecondRefillAtFive()
    ensures IsRefill(Nearest, 5, FIVE_SIXTHS, 2 * SECOND, SECOND_AT_FIVE.refill)
  {
    TwelfthRounds();
    WholeRoundsToItself(2);
    Rounds(2.0 * TWELFTH, SIXTH, 36028797018963968.0, 6004799503160661);
    Rounds(FIVE_SIXTHS + SIXTH, BELOW_ONE, 9007199254740992.0, 9007199254740991);
    WholeRefill(Nearest, 5, FIVE_SIXTHS, 2, SECOND_AT_FIVE.refill);
  }

  lemma SecondWaitAtFive()
    ensures IsWait(Nearest, BELOW_ONE, TWELFTH, SECOND_AT_FIVE.waiting, 0)
  {
    var w := SECOND_AT_FIVE.waiting;
    Rounds(1.0 - BELOW_ONE, w.missing, 40564819207303340847894502572032.0, 4503599627370496);
    Rounds(w.missing / TWELFTH, w.seconds, 5070602400912917605986812821504.0, 6755399441055744);
    Rounds(w.seconds * 1000000000.0, w.nanos, 4722366482869645213696.0, 6291456000000000);
  }

  /** And at five. */
  lemma OnTimeIsDeniedAtFive()
    ensures IsVisit(Nearest, 5, FIRST_AT_FIVE.after, SECOND_AT_FIVE) && OnTimeAndDenied(FIRST_AT_FIVE, SECOND_AT_FIVE)
  {
    SecondRefillAtFive();
    SecondWaitAtFive();
  }

  /** Thirty-two per minute: 0.875 s after the bucket was emptied one second is announced. */
  const RATE_32: real := 4803839602528529.0 / 9007199254740992.0

  const FIRST_AT_32: Step :=
    Part(875_000_000, RATE_32, 0.875,
         8406719304424926.0 / 18014398509481984.0, 8406719304424926.0 / 18014398509481984.0)

  const RETRY_AT_32: Step :=
    Part(687_500_000, RATE_32, 0.6875,
         6605279453476727.0 / 18014398509481984.0, 7505999378950826.0 / 9007199254740992.0)

  const LAST_AT_32: Step :=
    Part(312_500_000, RATE_32, 0.3125,
         6004799503160661.0 / 36028797018963968.0, 9007199254740991.0 / 9007199254740992.0)

  const WAIT_AT_32: Waiting :=
    Waiting(4803839602528529.0 / 9007199254740992.0, 1.0,
            1000000000.0)

  const SHORT_AT_32: Shortfall :=
    Shortfall(FIRST_AT_32, WAIT_AT_32, 1, [RETRY_AT_32, LAST_AT_32])

  lemma RateAt32()
    ensures Nearest(32.0 / 60.0, RATE_32)
  {
    Rounds(32.0 / 60.0, RATE_32, 9007199254740992.0, 4803839602528529);
  }

  lemma FirstAt32()
    ensures IsDeniedStep(Nearest, 32, 0.0, FIRST_AT_32)
  {
    RateAt32();
    var s := FIRST_AT_32;
    Rounds(0.875, s.refill.seconds, 9007199254740992.0, 7881299347898368);
    Rounds(s.refill.seconds * s.refill.perSecond, s.refill.product, 18014398509481984.0, 8406719304424926);
    Rounds(0.0 + s.refill.product, s.refill.sum, 18014398509481984.0, 8406719304424926);
    NearestIsStable();
    NearestIsTotal();
    PartIsDenied(Nearest, 32, 0.0, s);
  }

  lemma RetryAt32()
    ensures IsDeniedStep(Nearest, 32, FIRST_AT_32.refill.sum, RETRY_AT_32)
  {
    RateAt32();
    var s := RETRY_AT_32;
    Rounds(0.6875, s.refill.seconds, 9007199254740992.0, 6192449487634432);
    Rounds(s.refill.seconds * s.refill.perSecond, s.refill.product, 18014398509481984.0, 6605279453476727);
    Rounds(FIRST_AT_32.refill.sum + s.refill.product, s.refill.sum, 9007199254740992.0, 7505999378950826);
    NearestIsStable();
    NearestIsTotal();
    PartIsDenied(Nearest, 32, FIRST_AT_32.refill.sum, s);
  }

  lemma LastAt32()
    ensures IsDeniedStep(Nearest, 32, RETRY_AT_32.refill.sum, LAST_AT_32)
  {
    RateAt32();
    var s := LAST_AT_32;
    Rounds(0.3125, s.refill.seconds, 18014398509481984.0, 5629499534213120);
    Rounds(s.refill.seconds * s.refill.perSecond, s.refill.product, 36028797018963968.0, 6004799503160661);
    Rounds(RETRY_AT_32.refill.sum + s.refill.product, s.refill.sum, 9007199254740992.0, 9007199254740991);
    NearestIsStable();
    NearestIsTotal();
    PartIsDenied(Nearest, 32, RETRY_AT_32.refill.sum, s);
  }

  lemma WaitAt32()
    ensures IsWait(Nearest, FIRST_AT_32.refill.sum, RATE_32, WAIT_AT_32, WAIT_AT_32.nanos.Floor)
  {
    var w := WAIT_AT_32;
    Rounds(1.0 - FIRST_AT_32.refill.sum, w.missing, 9007199254740992.0, 4803839602528529);
    Rounds(w.missing / RATE_32, w.seconds, 4503599627370496.0, 4503599627370496);
    Rounds(w.seconds * 1000000000.0, w.nanos, 8388608.0, 8388608000000000);
  }

  lemma RestAt32()
    ensures IsChain(Nearest, 32, FIRST_AT_32.refill.sum, [RETRY_AT_32, LAST_AT_32])
  {
    RetryAt32();
    LastAt32();
    ChainOf2(Nearest, 32, FIRST_AT_32.refill.sum, RETRY_AT_32, LAST_AT_32);
  }

  lemma StartAt32()
    ensures IsFirst(Nearest, 32, FIRST_AT_32, WAIT_AT_32, 1 * SECOND, 0.01)
  {
    FirstAt32();
    WaitAt32();
  }

  lemma IsShortAt32()
    ensures IsShortfall(Nearest, 32, SHORT_AT_32)
  {
    StartAt32();
    RestAt32();
    TotalOf2(RETRY_AT_32, LAST_AT_32);
    MakesShortfall(Nearest, 32, FIRST_AT_32, WAIT_AT_32, 1, [RETRY_AT_32, LAST_AT_32]);
  }

  lemma TickedAt32()
    ensures AllTicked(SHORT_AT_32)
  {
  }

  lemma ShortAt32()
    ensures HasTickedShortfall(Nearest, 32)
  {
    IsShortAt32();
    TickedAt32();
  }

  /** Forty per minute: a call after 0.5 s, a retry, and one second later. */
  const RATE_40: real := 6004799503160661.0 / 9007199254740992.0

  const FIRST_AT_40: Step :=
    Part(500_000_000, RATE_40, 0.5,
         6004799503160661.0 / 18014398509481984.0, 6004799503160661.0 / 18014398509481984.0)

  const RETRY_AT_40: Step :=
    Part(750_000_000, RATE_40, 0.75,
         0.5, 7505999378950826.0 / 9007199254740992.0)

  const LAST_AT_40: Step :=
    Part(250_000_000, RATE_40, 0.25,
         6004799503160661.0 / 36028797018963968.0, 9007199254740991.0 / 9007199254740992.0)

  const WAIT_AT_40: Waiting :=
    Waiting(6004799503160662.0 / 9007199254740992.0, 4503599627370497.0 / 4503599627370496.0,
            8388608000000002.0 / 8388608.0)

  const SHORT_AT_40: Shortfall :=
    Shortfall(FIRST_AT_40, WAIT_AT_40, 1, [RETRY_AT_40, LAST_AT_40])

  lemma RateAt40()
    ensures Nearest(40.0 / 60.0, RATE_40)
  {
    Rounds(40.0 / 60.0, RATE_40, 9007199254740992.0, 6004799503160661);
  }

  lemma FirstAt40()
    ensures IsDeniedStep(Nearest, 40, 0.0, FIRST_AT_40)
  {
    RateAt40();
    var s := FIRST_AT_40;
    Rounds(0.5, s.refill.seconds, 9007199254740992.0, 4503599627370496);
    Rounds(s.refill.seconds * s.refill.perSecond, s.refill.product, 18014398509481984.0, 6004799503160661);
    Rounds(0.0 + s.refill.product, s.refill.sum, 18014398509481984.0, 6004799503160661);
    NearestIsStable();
    NearestIsTotal();
    PartIsDenied(Nearest, 40, 0.0, s);
  }

  lemma RetryAt40()
    ensures IsDeniedStep(Nearest, 40, FIRST_AT_40.refill.sum, RETRY_AT_40)
  {
    RateAt40();
    var s := RETRY_AT_40;
    Rounds(0.75, s.refill.seconds, 9007199254740992.0, 6755399441055744);
    Rounds(s.refill.seconds * s.refill.perSecond, s.refill.product, 18014398509481984.0, 9007199254740992);
    Rounds(FIRST_AT_40.refill.sum + s.refill.product, s.refill.sum, 9007199254740992.0, 7505999378950826);
    NearestIsStable();
    NearestIsTotal();
    PartIsDenied(Nearest, 40, FIRST_AT_40.refill.sum, s);
  }

  lemma LastAt40()
    ensures IsDeniedStep(Nearest, 40, RETRY_AT_40.refill.sum, LAST_AT_40)
  {
    RateAt40();
    var s := LAST_AT_40;
    Rounds(0.25, s.refill.seconds, 18014398509481984.0, 4503599627370496);
    Rounds(s.refill.seconds * s.refill.perSecond, s.refill.product, 36028797018963968.0, 6004799503160661);
    Rounds(RETRY_AT_40.refill.sum + s.refill.product, s.refill.sum, 9007199254740992.0, 9007199254740991);
    NearestIsStable();
    NearestIsTotal();
    PartIsDenied(Nearest, 40, RETRY_AT_40.refill.sum, s);
  }

  lemma WaitAt40()
    ensures IsWait(Nearest, FIRST_AT_40.refill.sum, RATE_40, WAIT_AT_40, WAIT_AT_40.nanos.Floor)
  {
    var w := WAIT_AT_40;
    Rounds(1.0 - FIRST_AT_40.refill.sum, w.missing, 9007199254740992.0, 6004799503160662);
    Rounds(w.missing / RATE_40, w.seconds, 4503599627370496.0, 4503599627370497);
    Rounds(w.seconds * 1000000000.0, w.nanos, 8388608.0, 8388608000000002);
  }

  lemma RestAt40()
    ensures IsChain(Nearest, 40, FIRST_AT_40.refill.sum, [RETRY_AT_40, LAST_AT_40])
  {
    RetryAt40();
    LastAt40();
    ChainOf2(Nearest, 40, FIRST_AT_40.refill.sum, RETRY_AT_40, LAST_AT_40);
  }

  lemma StartAt40()
    ensures IsFirst(Nearest, 40, FIRST_AT_40, WAIT_AT_40, 1 * SECOND, 0.01)
  {
    FirstAt40();
    WaitAt40();
  }

  lemma IsShortAt40()
    ensures IsShortfall(Nearest, 40, SHORT_AT_40)
  {
    StartAt40();
    RestAt40();
    TotalOf2(RETRY_AT_40, LAST_AT_40);
    MakesShortfall(Nearest, 40, FIRST_AT_40, WAIT_AT_40, 1, [RETRY_AT_40, LAST_AT_40]);
  }

  lemma TickedAt40()
    ensures AllTicked(SHORT_AT_40)
  {
  }

  lemma ShortAt40()
    ensures HasTickedShortfall(Nearest, 40)
  {
    IsShortAt40();
    TickedAt40();
  }

  /** Forty-eight per minute: a call after 0.25 s, two retries, and one second later. */
  const RATE_48: real := 7205759403792794.0 / 9007199254740992.0

  const FIRST_AT_48: Step :=
    Part(250_000_000, RATE_48, 0.25,
         7205759403792794.0 / 36028797018963968.0, 7205759403792794.0 / 36028797018963968.0)

  const RETRY_AT_48: Step :=
    Part(390_625_000, RATE_48, 0.390625,
         0.3125, 4616189618054758.0 / 9007199254740992.0)

  const AGAIN_AT_48: Step :=
    Part(328_125_000, RATE_48, 0.328125,
         4728779608739021.0 / 18014398509481984.0, 6980579422424268.0 / 9007199254740992.0)

  const LAST_AT_48: Step :=
    Part(281_250_000, RATE_48, 0.28125,
         8106479329266893.0 / 36028797018963968.0, 9007199254740991.0 / 9007199254740992.0)

  const WAIT_AT_48: Waiting :=
    Waiting(7205759403792794.0 / 9007199254740992.0, 1.0,
            1000000000.0)

  const SHORT_AT_48: Shortfall :=
    Shortfall(FIRST_AT_48, WAIT_AT_48, 1, [RETRY_AT_48, AGAIN_AT_48, LAST_AT_48])

  lemma RateAt48()
    ensures Nearest(48.0 / 60.0, RATE_48)
  {
    Rounds(48.0 / 60.0, RATE_48, 9007199254740992.0, 7205759403792794);
  }

  lemma FirstAt48()
    ensures IsDeniedStep(Nearest, 48, 0.0, FIRST_AT_48)
  {
    RateAt48();
    var s := FIRST_AT_48;
    Rounds(0.25, s.refill.seconds, 18014398509481984.0, 4503599627370496);
    Rounds(s.refill.seconds * s.refill.perSecond, s.refill.product, 36028797018963968.0, 7205759403792794);
    Rounds(0.0 + s.refill.product, s.refill.sum, 36028797018963968.0, 7205759403792794);
    NearestIsStable();
    NearestIsTotal();
    PartIsDenied(Nearest, 48, 0.0, s);
  }

  lemma RetryAt48()
    ensures IsDeniedStep(Nearest, 48, FIRST_AT_48.refill.sum, RETRY_AT_48)
  {
    RateAt48();
    var s := RETRY_AT_48;
    Rounds(0.390625, s.refill.seconds, 18014398509481984.0, 7036874417766400);
    Rounds(s.refill.seconds * s.refill.perSecond, s.refill.product, 18014398509481984.0, 5629499534213120);
    Rounds(FIRST_AT_48.refill.sum + s.refill.product, s.refill.sum, 9007199254740992.0, 4616189618054758);
    NearestIsStable();
    NearestIsTotal();
    PartIsDenied(Nearest, 48, FIRST_AT_48.refill.sum, s);
  }

  lemma AgainAt48()
    ensures IsDeniedStep(Nearest, 48, RETRY_AT_48.refill.sum, AGAIN_AT_48)
  {
    RateAt48();
    var s := AGAIN_AT_48;
    Rounds(0.328125, s.refill.seconds, 18014398509481984.0, 5910974510923776);
    Rounds(s.refill.seconds * s.refill.perSecond, s.refill.product, 18014398509481984.0, 4728779608739021);
    Rounds(RETRY_AT_48.refill.sum + s.refill.product, s.refill.sum, 9007199254740992.0, 6980579422424268);
    NearestIsStable();
    NearestIsTotal();
    PartIsDenied(Nearest, 48, RETRY_AT_48.refill.sum, s);
  }

  lemma LastAt48()
    ensures IsDeniedStep(Nearest, 48, AGAIN_AT_48.refill.sum, LAST_AT_48)
  {
    RateAt48();
    var s := LAST_AT_48;
    Rounds(0.28125, s.refill.seconds, 18014398509481984.0, 5066549580791808);
    Rounds(s.refill.seconds * s.refill.perSecond, s.refill.product, 36028797018963968.0, 8106479329266893);
    Rounds(AGAIN_AT_48.refill.sum + s.refill.product, s.refill.sum, 9007199254740992.0, 9007199254740991);
    NearestIsStable();
    NearestIsTotal();
    PartIsDenied(Nearest, 48, AGAIN_AT_48.refill.sum, s);
  }

  lemma WaitAt48()
    ensures IsWait(Nearest, FIRST_AT_48.refill.sum, RATE_48, WAIT_AT_48, WAIT_AT_48.nanos.Floor)
  {
    var w := WAIT_AT_48;
    Rounds(1.0 - FIRST_AT_48.refill.sum, w.missing, 9007199254740992.0, 7205759403792794);
    Rounds(w.missing / RATE_48, w.seconds, 4503599627370496.0, 4503599627370496);
    Rounds(w.seconds * 1000000000.0, w.nanos, 8388608.0, 8388608000000000);
  }

  lemma RestAt48()
    ensures IsChain(Nearest, 48, FIRST_AT_48.refill.sum, [RETRY_AT_48, AGAIN_AT_48, LAST_AT_48])
  {
    RetryAt48();
    AgainAt48();
    LastAt48();
    ChainOf3(Nearest, 48, FIRST_AT_48.refill.sum, RETRY_AT_48, AGAIN_AT_48, LAST_AT_48);
  }

  lemma StartAt48()
    ensures IsFirst(Nearest, 48, FIRST_AT_48, WAIT_AT_48, 1 * SECOND, 0.01)
  {
    FirstAt48();
    WaitAt48();
  }

  lemma IsShortAt48()
    ensures IsShortfall(Nearest, 48, SHORT_AT_48)
  {
    StartAt48();
    RestAt48();
    TotalOf3(RETRY_AT_48, AGAIN_AT_48, LAST_AT_48);
    MakesShortfall(Nearest, 48, FIRST_AT_48, WAIT_AT_48, 1, [RETRY_AT_48, AGAIN_AT_48, LAST_AT_48]);
  }

  lemma TickedAt48()
    ensures AllTicked(SHORT_AT_48)
  {
  }

  lemma ShortAt48()
    ensures HasTickedShortfall(Nearest, 48)
  {
    IsShortAt48();
    TickedAt48();
  }

  /** Fifty per minute: a call after 0.2 s, a retry, and one second later. */
  const RATE_50: real := 7505999378950827.0 / 9007199254740992.0

  const FIRST_AT_50: Step :=
    Part(200_000_000, RATE_50, 7205759403792794.0 / 36028797018963968.0,
         6004799503160662.0 / 36028797018963968.0, 6004799503160662.0 / 36028797018963968.0)

  const RETRY_AT_50: Step :=
    Part(950_000_000, RATE_50, 8556839292003942.0 / 9007199254740992.0,
         7130699410003285.0 / 9007199254740992.0, 8631899285793450.0 / 9007199254740992.0)

  const LAST_AT_50: Step :=
    Part(50_000_000, RATE_50, 7205759403792794.0 / 144115188075855872.0,
         6004799503160662.0 / 144115188075855872.0, 9007199254740991.0 / 9007199254740992.0)

  const WAIT_AT_50: Waiting :=
    Waiting(7505999378950826.0 / 9007199254740992.0, 9007199254740991.0 / 9007199254740992.0,
            8388607999999999.0 / 8388608.0)

  const SHORT_AT_50: Shortfall :=
    Shortfall(FIRST_AT_50, WAIT_AT_50, 1, [RETRY_AT_50, LAST_AT_50])

  lemma RateAt50()
    ensures Nearest(50.0 / 60.0, RATE_50)
  {
    Rounds(50.0 / 60.0, RATE_50, 9007199254740992.0, 7505999378950827);
  }

  lemma FirstAt50()
    ensures IsDeniedStep(Nearest, 50, 0.0, FIRST_AT_50)
  {
    RateAt50();
    var s := FIRST_AT_50;
    Rounds(0.2, s.refill.seconds, 36028797018963968.0, 7205759403792794);
    Rounds(s.refill.seconds * s.refill.perSecond, s.refill.product, 36028797018963968.0, 6004799503160662);
    Rounds(0.0 + s.refill.product, s.refill.sum, 36028797018963968.0, 6004799503160662);
    NearestIsStable();
    NearestIsTotal();
    PartIsDenied(Nearest, 50, 0.0, s);
  }

  lemma RetryAt50()
    ensures IsDeniedStep(Nearest, 50, FIRST_AT_50.refill.sum, RETRY_AT_50)
  {
    RateAt50();
    var s := RETRY_AT_50;
    Rounds(0.95, s.refill.seconds, 9007199254740992.0, 8556839292003942);
    Rounds(s.refill.seconds * s.refill.perSecond, s.refill.product, 9007199254740992.0, 7130699410003285);
    Rounds(FIRST_AT_50.refill.sum + s.refill.product, s.refill.sum, 9007199254740992.0, 8631899285793450);
    NearestIsStable();
    NearestIsTotal();
    PartIsDenied(Nearest, 50, FIRST_AT_50.refill.sum, s);
  }

  lemma LastAt50()
    ensures IsDeniedStep(Nearest, 50, RETRY_AT_50.refill.sum, LAST_AT_50)
  {
    RateAt50();
    var s := LAST_AT_50;
    Rounds(0.05, s.refill.seconds, 144115188075855872.0, 7205759403792794);
    Rounds(s.refill.seconds * s.refill.perSecond, s.refill.product, 144115188075855872.0, 6004799503160662);
    Rounds(RETRY_AT_50.refill.sum + s.refill.product, s.refill.sum, 9007199254740992.0, 9007199254740991);
    NearestIsStable();
    NearestIsTotal();
    PartIsDenied(Nearest, 50, RETRY_AT_50.refill.sum, s);
  }

  lemma WaitAt50()
    ensures IsWait(Nearest, FIRST_AT_50.refill.sum, RATE_50, WAIT_AT_50, WAIT_AT_50.nanos.Floor)
  {
    var w := WAIT_AT_50;
    Rounds(1.0 - FIRST_AT_50.refill.sum, w.missing, 9007199254740992.0, 7505999378950826);
    Rounds(w.missing / RATE_50, w.seconds, 9007199254740992.0, 9007199254740991);
    Rounds(w.seconds * 1000000000.0, w.nanos, 8388608.0, 8388607999999999);
  }

  lemma RestAt50()
    ensures IsChain(Nearest, 50, FIRST_AT_50.refill.sum, [RETRY_AT_50, LAST_AT_50])
  {
    RetryAt50();
    LastAt50();
    ChainOf2(Nearest, 50, FIRST_AT_50.refill.sum, RETRY_AT_50, LAST_AT_50);
  }

  lemma StartAt50()
    ensures IsFirst(Nearest, 50, FIRST_AT_50, WAIT_AT_50, 1 * SECOND, 0.01)
  {
    FirstAt50();
    WaitAt50();
  }

  lemma IsShortAt50()
    ensures IsShortfall(Nearest, 50, SHORT_AT_50)
  {
    StartAt50();
    RestAt50();
    TotalOf2(RETRY_AT_50, LAST_AT_50);
    MakesShortfall(Nearest, 50, FIRST_AT_50, WAIT_AT_50, 1, [RETRY_AT_50, LAST_AT_50]);
  }

  lemma ShortAt50(f: nat)
    requires f == 1 || f == 2
    ensures HasShortfall(Nearest, f, 50)
  {
    IsShortAt50();
    ScalesAt50(f);
  }

  /** Sixty per minute: a call on the empty bucket, two retries, and one second later. */
  const RATE_60: real := 1.0

  const FIRST_AT_60: Step :=
    Part(0, RATE_60, 0.0,
         0.0, 0.0)

  const RETRY_AT_60: Step :=
    Part(200_000_000, RATE_60, 7205759403792794.0 / 36028797018963968.0,
         7205759403792794.0 / 36028797018963968.0, 7205759403792794.0 / 36028797018963968.0)

  const AGAIN_AT_60: Step :=
    Part(700_000_000, RATE_60, 6305039478318694.0 / 9007199254740992.0,
         6305039478318694.0 / 9007199254740992.0, 8106479329266892.0 / 9007199254740992.0)

  const LAST_AT_60: Step :=
    Part(100_000_000, RATE_60, 7205759403792794.0 / 72057594037927936.0,
         7205759403792794.0 / 72057594037927936.0, 9007199254740991.0 / 9007199254740992.0)

  const WAIT_AT_60: Waiting :=
    Waiting(1.0, 1.0,
            1000000000.0)

  const SHORT_AT_60: Shortfall :=
    Shortfall(FIRST_AT_60, WAIT_AT_60, 1, [RETRY_AT_60, AGAIN_AT_60, LAST_AT_60])

  lemma RateAt60()
    ensures Nearest(60.0 / 60.0, RATE_60)
  {
    Rounds(60.0 / 60.0, RATE_60, 4503599627370496.0, 4503599627370496);
  }

  lemma FirstAt60()
    ensures IsDeniedStep(Nearest, 60, 0.0, FIRST_AT_60)
  {
    RateAt60();
    var s := FIRST_AT_60;
    NearestIsStable();
    NearestIsTotal();
    PartIsDenied(Nearest, 60, 0.0, s);
  }

  lemma RetryAt60()
    ensures IsDeniedStep(Nearest, 60, FIRST_AT_60.refill.sum, RETRY_AT_60)
  {
    RateAt60();
    var s := RETRY_AT_60;
    Rounds(0.2, s.refill.seconds, 36028797018963968.0, 7205759403792794);
    Rounds(s.refill.seconds * s.refill.perSecond, s.refill.product, 36028797018963968.0, 7205759403792794);
    Rounds(FIRST_AT_60.refill.sum + s.refill.product, s.refill.sum, 36028797018963968.0, 7205759403792794);
    NearestIsStable();
    NearestIsTotal();
    PartIsDenied(Nearest, 60, FIRST_AT_60.refill.sum, s);
  }

  lemma AgainAt60()
    ensures IsDeniedStep(Nearest, 60, RETRY_AT_60.refill.sum, AGAIN_AT_60)
  {
    RateAt60();
    var s := AGAIN_AT_60;
    Rounds(0.7, s.refill.seconds, 9007199254740992.0, 6305039478318694);
    Rounds(s.refill.seconds * s.refill.perSecond, s.refill.product, 9007199254740992.0, 6305039478318694);
    Rounds(RETRY_AT_60.refill.sum + s.refill.product, s.refill.sum, 9007199254740992.0, 8106479329266892);
    NearestIsStable();
    NearestIsTotal();
    PartIsDenied(Nearest, 60, RETRY_AT_60.refill.sum, s);
  }

  lemma LastAt60()
    ensures IsDeniedStep(Nearest, 60, AGAIN_AT_60.refill.sum, LAST_AT_60)
  {
    RateAt60();
    var s := LAST_AT_60;
    Rounds(0.1, s.refill.seconds, 72057594037927936.0, 7205759403792794);
    Rounds(s.refill.seconds * s.refill.perSecond, s.refill.product, 72057594037927936.0, 7205759403792794);
    Rounds(AGAIN_AT_60.refill.sum + s.refill.product, s.refill.sum, 9007199254740992.0, 9007199254740991);
    NearestIsStable();
    NearestIsTotal();
    PartIsDenied(Nearest, 60, AGAIN_AT_60.refill.sum, s);
  }

  lemma WaitAt60()
    ensures IsWait(Nearest, FIRST_AT_60.refill.sum, RATE_60, WAIT_AT_60, WAIT_AT_60.nanos.Floor)
  {
    var w := WAIT_AT_60;
    Rounds(1.0 - FIRST_AT_60.refill.sum, w.missing, 4503599627370496.0, 4503599627370496);
    Rounds(w.missing / RATE_60, w.seconds, 4503599627370496.0, 4503599627370496);
    Rounds(w.seconds * 1000000000.0, w.nanos, 8388608.0, 8388608000000000);
  }

  lemma RestAt60()
    ensures IsChain(Nearest, 60, FIRST_AT_60.refill.sum, [RETRY_AT_60, AGAIN_AT_60, LAST_AT_60])
  {
    RetryAt60();
    AgainAt60();
    LastAt60();
    ChainOf3(Nearest, 60, FIRST_AT_60.refill.sum, RETRY_AT_60, AGAIN_AT_60, LAST_AT_60);
  }

  lemma StartAt60()
    ensures IsFirst(Nearest, 60, FIRST_AT_60, WAIT_AT_60, 1 * SECOND, 0.01)
  {
    FirstAt60();
    WaitAt60();
  }

  lemma IsShortAt60()
    ensures IsShortfall(Nearest, 60, SHORT_AT_60)
  {
    StartAt60();
    RestAt60();
    TotalOf3(RETRY_AT_60, AGAIN_AT_60, LAST_AT_60);
    MakesShortfall(Nearest, 60, FIRST_AT_60, WAIT_AT_60, 1, [RETRY_AT_60, AGAIN_AT_60, LAST_AT_60]);
  }

  lemma ShortAt60(f: nat)
    requires f == 1 || f == 2 || f == 4
    ensures HasShortfall(Nearest, f, 60)
  {
    IsShortAt60();
    ScalesAt60(f);
  }

  // ---------------------------------------------------------------------------
  // What float64 has of the properties above

  lemma NearestIsTotal()
    ensures IsTotal(Nearest)
  {
    forall x | x >= 0.0
      ensures HasRounding(Nearest, x)
    {
      var y := RoundOf(x);
      NearestIsNear(x, y);
      assert Nearest(x, y);
    }
  }

  lemma NearestIsStable()
    ensures IsStable(Nearest)
  {
    forall x, y, z | Nearest(x, y) && Nearest(y, z)
      ensures z == y
    {
      RoundsOnce(x, y, z);
    }
  }

  lemma NearestKeeps(n: nat)
    requires n < 2 * MANTISSA
    ensures KeepsUpTo(Nearest, n)
  {
    forall k: nat | k <= n
      ensures Keeps(Nearest, k)
    {
      WholeRoundsToItself(k);
    }
  }

  /** The factors by which a run is slowed down. */
  predicate IsFactor(f: nat) {
    f == 1 || f == 2 || f == 4 || f == 8 || f == 16 || f == 32
  }

  lemma FactorIsPower(f: nat)
    requires IsFactor(f)
    ensures PowerOfTwo(f as real) && f <= 32
  {
    assert Pow2(0) == 1 && Pow2(1) == 2 && Pow2(2) == 4 && Pow2(3) == 8 && Pow2(4) == 16 && Pow2(5) == 32;
    if f == 1 {
      IsPower(0, f as real);
    } else if f == 2 {
      IsPower(1, f as real);
    } else if f == 4 {
      IsPower(2, f as real);
    } else if f == 8 {
      IsPower(3, f as real);
    } else if f == 16 {
      IsPower(4, f as real);
    } else {
      IsPower(5, f as real);
    }
  }

  lemma NearestSlows(f: nat, fast: int, slow: int)
    requires IsFactor(f) && 0 < slow <= 60 && fast == slow * f
    ensures Slows(Nearest, f, fast, slow)
  {
    FactorIsPower(f);
    NearestCommutes(f as real);
    NearestIsTotal();
    NearestKeeps(slow);
    ShortfallsSlow(Nearest, f, fast, slow);
  }

  ghost predicate HasTickedShortfall(op: Rounding, perMinute: int) {
    exists s :: IsShortfall(op, perMinute, s) && AllTicked(s)
  }

  ghost predicate HasShortfall(op: Rounding, f: nat, perMinute: int) {
    exists s :: IsShortfall(op, perMinute, s) && Scales(op, f, s.first) && AllScale(op, f, s.rest)
  }

  lemma TickedHasShortfall(f: nat, perMinute: int)
    requires f <= 32 && HasTickedShortfall(Nearest, perMinute)
    ensures HasShortfall(Nearest, f, perMinute)
  {
    var s :| IsShortfall(Nearest, perMinute, s) && AllTicked(s);
    AllTicksScale(f, s);
  }

  // ---------------------------------------------------------------------------
  // Times of fifty and of sixty per minute, which are no ticks

  lemma StepFraction(op: Rounding, perMinute: int, tokens: real, step: Step)
    requires IsDeniedStep(op, perMinute, tokens, step)
    ensures IsFraction(op, step.elapsed, step.refill.fraction, step.refill.seconds)
  {
  }

  lemma PartScales(f: nat, perMinute: int, tokens: real, step: Step)
    requires IsFactor(f) && IsDeniedStep(Nearest, perMinute, tokens, step) && f * step.elapsed < SECOND
    ensures Scales(Nearest, f, step)
  {
    FactorIsPower(f);
    NearestCommutes(f as real);
    StepFraction(Nearest, perMinute, tokens, step);
    FractionScales(Nearest, f, step);
  }

  lemma TwiceRetryAt50()
    ensures Scales(Nearest, 2, RETRY_AT_50)
  {
    var fraction := 8106479329266893.0 / 9007199254740992.0;
    Rounds(0.9, fraction, 9007199254740992.0, 8106479329266893);
    Rounds(1.0 + fraction, RETRY_AT_50.refill.seconds * 2.0, 4503599627370496.0, 8556839292003942);
    assert IsFraction(Nearest, 2 * RETRY_AT_50.elapsed, fraction, RETRY_AT_50.refill.seconds * 2.0);
  }

  lemma TwiceAgainAt60()
    ensures Scales(Nearest, 2, AGAIN_AT_60)
  {
    var fraction := 7205759403792794.0 / 18014398509481984.0;
    Rounds(0.4, fraction, 18014398509481984.0, 7205759403792794);
    Rounds(1.0 + fraction, AGAIN_AT_60.refill.seconds * 2.0, 4503599627370496.0, 6305039478318694);
    assert IsFraction(Nearest, 2 * AGAIN_AT_60.elapsed, fraction, AGAIN_AT_60.refill.seconds * 2.0);
  }

  lemma FourTimesAgainAt60()
    ensures Scales(Nearest, 4, AGAIN_AT_60)
  {
    var fraction := 7205759403792794.0 / 9007199254740992.0;
    Rounds(0.8, fraction, 9007199254740992.0, 7205759403792794);
    Rounds(2.0 + fraction, AGAIN_AT_60.refill.seconds * 4.0, 2251799813685248.0, 6305039478318694);
    assert IsFraction(Nearest, 4 * AGAIN_AT_60.elapsed, fraction, AGAIN_AT_60.refill.seconds * 4.0);
  }

  lemma ScalesAt50(f: nat)
    requires f == 1 || f == 2
    ensures Scales(Nearest, f, FIRST_AT_50) && AllScale(Nearest, f, [RETRY_AT_50, LAST_AT_50])
  {
    FirstScalesAt50(f);
    RetryScalesAt50(f);
    LastScalesAt50(f);
  }

  lemma FirstScalesAt50(f: nat)
    requires f == 1 || f == 2
    ensures Scales(Nearest, f, FIRST_AT_50)
  {
    FirstAt50();
    PartScales(f, 50, 0.0, FIRST_AT_50);
  }

  lemma RetryScalesAt50(f: nat)
    requires f == 1 || f == 2
    ensures Scales(Nearest, f, RETRY_AT_50)
  {
    if f == 1 {
      RetryAt50();
      PartScales(f, 50, FIRST_AT_50.refill.sum, RETRY_AT_50);
    } else {
      TwiceRetryAt50();
    }
  }

  lemma LastScalesAt50(f: nat)
    requires f == 1 || f == 2
    ensures Scales(Nearest, f, LAST_AT_50)
  {
    LastAt50();
    PartScales(f, 50, RETRY_AT_50.refill.sum, LAST_AT_50);
  }

  lemma ScalesAt60(f: nat)
    requires f == 1 || f == 2 || f == 4
    ensures Scales(Nearest, f, FIRST_AT_60) && AllScale(Nearest, f, [RETRY_AT_60, AGAIN_AT_60, LAST_AT_60])
  {
    FirstScalesAt60(f);
    RetryScalesAt60(f);
    AgainScalesAt60(f);
    LastScalesAt60(f);
  }

  lemma FirstScalesAt60(f: nat)
    requires f == 1 || f == 2 || f == 4
    ensures Scales(Nearest, f, FIRST_AT_60)
  {
    TickScales(f, FIRST_AT_60);
  }

  lemma RetryScalesAt60(f: nat)
    requires f == 1 || f == 2 || f == 4
    ensures Scales(Nearest, f, RETRY_AT_60)
  {
    RetryAt60();
    PartScales(f, 60, 0.0, RETRY_AT_60);
  }

  lemma AgainScalesAt60(f: nat)
    requires f == 1 || f == 2 || f == 4
    ensures Scales(Nearest, f, AGAIN_AT_60)
  {
    if f == 1 {
      AgainAt60();
      PartScales(f, 60, RETRY_AT_60.refill.sum, AGAIN_AT_60);
    } else if f == 2 {
      TwiceAgainAt60();
    } else {
      FourTimesAgainAt60();
    }
  }

  lemma LastScalesAt60(f: nat)
    requires f == 1 || f == 2 || f == 4
    ensures Scales(Nearest, f, LAST_AT_60)
  {
    LastAt60();
    PartScales(f, 60, AGAIN_AT_60.refill.sum, LAST_AT_60);
  }

  // ---------------------------------------------------------------------------
  // All rates

  lemma ThirtyTwoAndHalves(f: nat, perMinute: int)
    requires IsFactor(f) && perMinute * f == 32
    ensures !OnTimeIsEnough(Nearest, perMinute)
  {
    NearestSlows(f, 32, perMinute);
    ShortAt32();
    TickedHasShortfall(f, 32);
  }

  lemma FortyAndHalves(f: nat, perMinute: int)
    requires IsFactor(f) && perMinute * f == 40
    ensures !OnTimeIsEnough(Nearest, perMinute)
  {
    NearestSlows(f, 40, perMinute);
    ShortAt40();
    TickedHasShortfall(f, 40);
  }

  lemma FortyEightAndHalves(f: nat, perMinute: int)
    requires IsFactor(f) && perMinute * f == 48
    ensures !OnTimeIsEnough(Nearest, perMinute)
  {
    NearestSlows(f, 48, perMinute);
    ShortAt48();
    TickedHasShortfall(f, 48);
  }

  lemma FiftyAndHalf(f: nat, perMinute: int)
    requires (f == 1 && perMinute == 50) || (f == 2 && perMinute == 25)
    ensures !OnTimeIsEnough(Nearest, perMinute)
  {
    NearestSlows(f, 50, perMinute);
    ShortAt50(f);
  }

  lemma SixtyAndHalves(f: nat, perMinute: int)
    requires (f == 1 && perMinute == 60) || (f == 2 && perMinute == 30) || (f == 4 && perMinute == 15)
    ensures !OnTimeIsEnough(Nearest, perMinute)
  {
    NearestSlows(f, 60, perMinute);
    ShortAt60(f);
  }

  lemma Divisors(perMinute: int)
    requires 0 < perMinute <= 60 && TOKEN % perMinute == 0
    ensures perMinute in {1, 2, 3, 4, 5, 6, 8, 10, 12, 15, 16, 20, 24, 25, 30, 32, 40, 48, 50, 60}
  {
  }

  lemma TenFallsShort()
    ensures !OnTimeIsEnough(Nearest, 10)
  {
    FirstAtTen();
    OnTimeIsDeniedAtTen();
    PairFallsShort(Nearest, 10, FIRST_AT_TEN, SECOND_AT_TEN);
    NotEnoughAt(10, [FIRST_AT_TEN, SECOND_AT_TEN]);
  }

  lemma FiveFallsShort()
    ensures !OnTimeIsEnough(Nearest, 5)
  {
    FirstAtFive();
    OnTimeIsDeniedAtFive();
    PairFallsShort(Nearest, 5, FIRST_AT_FIVE, SECOND_AT_FIVE);
    NotEnoughAt(5, [FIRST_AT_FIVE, SECOND_AT_FIVE]);
  }

  lemma NotEnoughAt(perMinute: int, tail: seq<Visit>)
    requires 0 < perMinute <= 60 && FallsShort(Nearest, perMinute, tail)
    ensures !OnTimeIsEnough(Nearest, perMinute)
  {
    NearestIsTotal();
    NearestKeeps(perMinute);
    NotEnough(Nearest, perMinute, tail);
  }

  lemma DividingFallsShort(perMinute: int)
    requires 0 < perMinute <= 60 && TOKEN % perMinute == 0
    ensures !OnTimeIsEnough(Nearest, perMinute)
  {
    Divisors(perMinute);
    if perMinute in {1, 2, 4, 8, 16, 32} {
      ThirtyTwoAndHalves(32 / perMinute, perMinute);
    } else if perMinute in {3, 6, 12, 24, 48} {
      FortyEightAndHalves(48 / perMinute, perMinute);
    } else if perMinute in {20, 40} {
      FortyAndHalves(40 / perMinute, perMinute);
    } else if perMinute in {25, 50} {
      FiftyAndHalf(50 / perMinute, perMinute);
    } else if perMinute in {15, 30, 60} {
      SixtyAndHalves(60 / perMinute, perMinute);
    } else if perMinute == 10 {
      TenFallsShort();
    } else {
      FiveFallsShort();
    }
  }

  /** In float64, the seconds of Retry-After are always enough if and only if the limit is more
      than sixty per minute. */
  lemma OnTimeIsExact(perMinute: int)
    requires perMinute > 0
    ensures OnTimeIsEnough(Nearest, perMinute) <==> perMinute > 60
  {
    if perMinute > 60 {
      NearestIsAsGood();
      NearestIsStable();
      EnoughAboveSixty(Nearest, perMinute);
    } else if TOKEN % perMinute == 0 {
      DividingFallsShort(perMinute);
    } else {
      NearestIsAsGood();
      NearestIsTotal();
      NearestKeeps(perMinute);
      TruncatedFallsShort(Nearest, perMinute);
    }
  }
}
