/** Two conditions under which the limiter of internal/ratelimit/ratelimit.go keeps its word,
    shown to be exact for each limiter: how far readings may lag before an eviction shows, and
    when waiting for the seconds of Retry-After is always enough. */
module RateLimitExact {
  import opened RateLimit
  import opened RateLimitTheory
  import opened RateLimitRuns

  // ---------------------------------------------------------------------------
  // Draining a bucket

  /** `n` calls of one key at one reading. */
  function Burst(key: string, now: int, n: nat): seq<Call> {
    if n == 0 then [] else [Call(key, now)] + Burst(key, now, n - 1)
  }

  lemma {:induction false} BurstCalls(key: string, now: int, n: nat)
    ensures |Burst(key, now, n)| == n && forall i :: 0 <= i < n ==> Burst(key, now, n)[i] == Call(key, now)
  {
    if n > 0 {
      BurstCalls(key, now, n - 1);
    }
  }

  lemma TakeFromFull(rate: int, tokens: int, now: int)
    requires rate > 0 && TOKEN <= tokens <= Capacity(rate)
    ensures Take(rate, Bucket(tokens, now), now) == (Bucket(tokens - TOKEN, now), Granted)
  {
  }

  /** A call of a key that has a token, or of a new key with room in the table. */
  lemma CallSpendsToken(cfg: Config, s: State, key: string, tokens: int, now: int)
    requires cfg.perMinute > 0 && now - s.lastSweep <= SWEEP_EVERY && TOKEN <= tokens <= Capacity(cfg.perMinute)
    requires if key in s.buckets then s.buckets[key] == Bucket(tokens, now)
             else |s.buckets| < cfg.maxKeys && tokens == Capacity(cfg.perMinute)
    ensures CheckStep(cfg, s, Call(key, now)) ==
            (s.(buckets := s.buckets[key := Bucket(tokens - TOKEN, now)]), Granted)
  {
    TakeFromFull(cfg.perMinute, tokens, now);
  }

  /** A first call that is granted, and the burst after it. */
  lemma BurstGoesOn(cfg: Config, s: State, s': State, key: string, now: int, n: nat)
    requires CheckStep(cfg, s, Call(key, now)) == (s', Granted)
    ensures After(cfg, s, Burst(key, now, n + 1)) == After(cfg, s', Burst(key, now, n))
    ensures Admitted(Transcript(cfg, s, Burst(key, now, n + 1)), key, now, now) ==
            1 + Admitted(Transcript(cfg, s', Burst(key, now, n)), key, now, now)
  {
    assert Burst(key, now, n + 1)[1..] == Burst(key, now, n);
    assert Transcript(cfg, s, Burst(key, now, n + 1))[1..] == Transcript(cfg, s', Burst(key, now, n));
  }

  /** A burst that the bucket covers is granted whole. */
  lemma {:induction false} BurstDrains(cfg: Config, s: State, key: string, tokens: int, now: int, n: nat)
    requires cfg.perMinute > 0 && now - s.lastSweep <= SWEEP_EVERY
    requires key in s.buckets && s.buckets[key] == Bucket(tokens, now)
    requires n * TOKEN <= tokens <= Capacity(cfg.perMinute)
    ensures After(cfg, s, Burst(key, now, n)) == s.(buckets := s.buckets[key := Bucket(tokens - n * TOKEN, now)])
    ensures Admitted(Transcript(cfg, s, Burst(key, now, n)), key, now, now) == n
    decreases n
  {
    if n == 0 {
      assert s.buckets[key := Bucket(tokens, now)] == s.buckets;
    } else {
      var rest := s.(buckets := s.buckets[key := Bucket(tokens - TOKEN, now)]);
      CallSpendsToken(cfg, s, key, tokens, now);
      BurstGoesOn(cfg, s, rest, key, now, n - 1);
      BurstDrains(cfg, rest, key, tokens - TOKEN, now, n - 1);
      var last := Bucket(tokens - n * TOKEN, now);
      assert rest.buckets[key := last] == s.buckets[key := last];
    }
  }

  /** A new key may spend its whole capacity at once. */
  lemma NewKeyDrains(cfg: Config, s: State, key: string, now: int)
    requires cfg.perMinute > 0 && now - s.lastSweep <= SWEEP_EVERY
    requires key !in s.buckets && |s.buckets| < cfg.maxKeys
    ensures var burst := Burst(key, now, cfg.perMinute);
      && After(cfg, s, burst) == s.(buckets := s.buckets[key := Bucket(0, now)])
      && Admitted(Transcript(cfg, s, burst), key, now, now) == cfg.perMinute
  {
    var tokens, n := Capacity(cfg.perMinute), cfg.perMinute - 1;
    var rest := s.(buckets := s.buckets[key := Bucket(tokens - TOKEN, now)]);
    Distribute(TOKEN, cfg.perMinute, 1);
    Monotone(TOKEN, 0, n);
    CallSpendsToken(cfg, s, key, tokens, now);
    BurstGoesOn(cfg, s, rest, key, now, n);
    BurstDrains(cfg, rest, key, tokens - TOKEN, now, n);
    assert rest.buckets[key := Bucket(0, now)] == s.buckets[key := Bucket(0, now)];
  }

  lemma {:induction false} AdmittedSplits(xs: seq<Entry>, ys: seq<Entry>, key: string, from: int, to: int)
    ensures Admitted(xs + ys, key, from, to) == Admitted(xs, key, from, to) + Admitted(ys, key, from, to)
  {
    if xs == [] {
      assert xs + ys == ys;
    } else {
      assert (xs + ys)[1..] == xs[1..] + ys;
      AdmittedSplits(xs[1..], ys, key, from, to);
    }
  }

  lemma {:induction false} WiderWindowAdmitsMore(run: seq<Entry>, key: string, from: int, to: int, from': int, to': int)
    requires from' <= from && to <= to'
    ensures Admitted(run, key, from, to) <= Admitted(run, key, from', to')
  {
    if run != [] {
      WiderWindowAdmitsMore(run[1..], key, from, to, from', to');
    }
  }

  // ---------------------------------------------------------------------------
  // How far readings may lag

  const D: int := MAX_LAG + 1
  const DRAINED: int := SWEEP_EVERY
  const SWEPT: int := DRAINED - D + FULL + 1

  /** Key "a" spends its capacity, a late reading leaves it in debt, a sweep for "b" drops it,
      and it spends its capacity again at a reading at which the refill is not complete. */
  function LateCalls(rate: nat): seq<Call> {
    Burst("a", DRAINED, rate) + [Call("a", DRAINED - D)] + [Call("b", SWEPT)] + Burst("a", SWEPT - D, rate)
  }

  lemma LateCallsLag(rate: nat)
    ensures WithinLag(LateCalls(rate), D)
  {
    BurstCalls("a", DRAINED, rate);
    BurstCalls("a", SWEPT - D, rate);
    var calls := LateCalls(rate);
    assert forall k :: 0 <= k < rate ==> calls[k].now == DRAINED;
    assert calls[rate].now == DRAINED - D && calls[rate + 1].now == SWEPT;
    assert forall k :: rate + 2 <= k < |calls| ==> calls[k].now == SWEPT - D;
  }

  lemma DebtAndSweep(cfg: Config, s: State)
    requires cfg.perMinute > 0 && cfg.maxKeys >= 2
    requires s == State(map["a" := Bucket(0, DRAINED)], 0)
    ensures var s1 := CheckStep(cfg, s, Call("a", DRAINED - D)).0;
      && CheckStep(cfg, s, Call("a", DRAINED - D)).1.Denied?
      && CheckStep(cfg, s1, Call("b", SWEPT)) ==
           (State(map["b" := Bucket(Capacity(cfg.perMinute) - TOKEN, SWEPT)], SWEPT), Granted)
  {
    var rate := cfg.perMinute;
    var s1 := CheckStep(cfg, s, Call("a", DRAINED - D)).0;
    assert Swept(cfg, s, Call("a", DRAINED - D)) == s;
    assert s1.buckets.Keys == {"a"} && s1.buckets["a"].last == DRAINED - D && s1.lastSweep == 0;
    assert Swept(cfg, s1, Call("b", SWEPT)) == State(map[], SWEPT);
    TakeFromFull(rate, Capacity(rate), SWEPT);
  }

  /** The two bursts are granted whole. */
  lemma LateCallsAdmitted(cfg: Config)
    requires cfg.perMinute > 0 && cfg.maxKeys >= 2
    ensures Admitted(RunOf(cfg, 0, LateCalls(cfg.perMinute)), "a", DRAINED, SWEPT - D) >= 2 * cfg.perMinute
  {
    var rate, s0 := cfg.perMinute, State(map[], 0);
    var first, second := Burst("a", DRAINED, rate), Burst("a", SWEPT - D, rate);
    var s1 := State(map["a" := Bucket(0, DRAINED)], 0);
    NewKeyDrains(cfg, s0, "a", DRAINED);
    DebtAndSweep(cfg, s1);
    var s2 := CheckStep(cfg, s1, Call("a", DRAINED - D)).0;
    var s3 := CheckStep(cfg, s2, Call("b", SWEPT)).0;
    NewKeyDrains(cfg, s3, "a", SWEPT - D);
    RunSplits(cfg, s0, first + [Call("a", DRAINED - D)] + [Call("b", SWEPT)], second);
    RunSplits(cfg, s0, first + [Call("a", DRAINED - D)], [Call("b", SWEPT)]);
    RunSplits(cfg, s0, first, [Call("a", DRAINED - D)]);
    OneCall(cfg, s1, Call("a", DRAINED - D));
    OneCall(cfg, s2, Call("b", SWEPT));
    TwoBurstsAdmit(Transcript(cfg, s0, first), Transcript(cfg, s1, [Call("a", DRAINED - D)]),
                   Transcript(cfg, s2, [Call("b", SWEPT)]), Transcript(cfg, s3, second), rate);
  }

  lemma TwoBurstsAdmit(a: seq<Entry>, b: seq<Entry>, c: seq<Entry>, d: seq<Entry>, n: nat)
    requires Admitted(a, "a", DRAINED, DRAINED) == n && Admitted(d, "a", SWEPT - D, SWEPT - D) == n
    ensures Admitted(a + b + c + d, "a", DRAINED, SWEPT - D) >= 2 * n
  {
    AdmittedSplits(a + b + c, d, "a", DRAINED, SWEPT - D);
    AdmittedSplits(a + b, c, "a", DRAINED, SWEPT - D);
    AdmittedSplits(a, b, "a", DRAINED, SWEPT - D);
    WiderWindowAdmitsMore(a, "a", DRAINED, DRAINED, DRAINED, SWEPT - D);
    WiderWindowAdmitsMore(d, "a", SWEPT - D, SWEPT - D, DRAINED, SWEPT - D);
  }

  /** One nanosecond of lag beyond MAX_LAG, and an eviction admits more than the rate allows,
      so it shows. */
  lemma EvictionShowsBeyondMaxLag(cfg: Config)
    requires cfg.perMinute > 0 && cfg.maxKeys >= 2
    ensures var calls, from, to := LateCalls(cfg.perMinute), DRAINED, SWEPT - D;
      && WithinLag(calls, D)
      && TOKEN * Admitted(RunOf(cfg, 0, calls), "a", from, to) > Capacity(cfg.perMinute) + cfg.perMinute * (to - from)
      && !IsReferenceRun(cfg.perMinute, map[], RunOf(cfg, 0, calls))
  {
    var rate := cfg.perMinute;
    var run := RunOf(cfg, 0, LateCalls(rate));
    LateCallsLag(rate);
    LateCallsAdmitted(cfg);
    if IsReferenceRun(rate, map[], run) {
      AdmittedInWindow(rate, map[], run, "a", DRAINED, SWEPT - D);
    }
  }

  /** Whether every run of this limiter hides its evictions, when readings lag at most `lag`. */
  ghost predicate HidesEvictions(cfg: Config, lag: int) {
    forall start, calls :: WithinLag(calls, lag) ==> IsReferenceRun(cfg.perMinute, map[], RunOf(cfg, start, calls))
  }

  /** Whether every run of this limiter keeps to capacity plus refill in every window. */
  ghost predicate KeepsRate(cfg: Config, lag: int) {
    forall start, calls, key, from, to :: WithinLag(calls, lag) && from <= to ==>
      TOKEN * Admitted(RunOf(cfg, start, calls), key, from, to) <= Capacity(cfg.perMinute) + cfg.perMinute * (to - from)
  }

  /** For every limiter with room for two keys, both hold exactly up to half a second of lag. */
  lemma LagToleranceIsExact(cfg: Config, lag: int)
    requires cfg.perMinute > 0 && cfg.maxKeys >= 2 && lag >= 0
    ensures HidesEvictions(cfg, lag) <==> lag <= MAX_LAG
    ensures KeepsRate(cfg, lag) <==> lag <= MAX_LAG
  {
    if lag <= MAX_LAG {
      forall start, calls | WithinLag(calls, lag)
        ensures IsReferenceRun(cfg.perMinute, map[], RunOf(cfg, start, calls))
      {
        EvictionIsInvisible(cfg, start, calls, lag);
      }
      forall start, calls, key, from, to | WithinLag(calls, lag) && from <= to
        ensures TOKEN * Admitted(RunOf(cfg, start, calls), key, from, to)
                <= Capacity(cfg.perMinute) + cfg.perMinute * (to - from)
      {
        RateIsBounded(cfg, start, calls, lag, key, from, to);
      }
    } else {
      EvictionShowsBeyondMaxLag(cfg);
      var calls := LateCalls(cfg.perMinute);
      assert WithinLag(calls, lag);
      assert DRAINED <= SWEPT - D;
    }
  }

  // ---------------------------------------------------------------------------
  // Retry-After

  /** The Retry-After header: the wait in whole seconds, rounded up, at least one. */
  function RetryAfterSeconds(wait: int): int
    requires wait >= 0
  {
    Max(1, (wait + SECOND - 1) / SECOND)
  }

  /** The least whole number of seconds, at least one, that covers the wait. */
  lemma HeaderIsLeast(wait: int, n: int)
    requires wait >= 0
    ensures n >= RetryAfterSeconds(wait) <==> n >= 1 && n * 1_000_000_000 >= wait
  {
  }

  /** The wait was truncated to whole seconds, so the header says no more than the wait. */
  predicate Truncated(rate: int, missing: int)
    requires rate > 0
  {
    missing / rate > 0 && missing / rate % SECOND == 0 && missing % rate != 0
  }

  /** The header's seconds refill what is missing unless the wait was truncated to whole seconds. */
  lemma SecondsRefill(rate: int, missing: int)
    requires rate > 0 && missing > 0
    ensures missing / rate >= 0
    ensures rate * (RetryAfterSeconds(missing / rate) * SECOND) >= missing <==> !Truncated(rate, missing)
  {
    var wait := missing / rate;
    assert missing == rate * wait + missing % rate;
    var pause := RetryAfterSeconds(wait) * SECOND;
    if wait > 0 && wait % SECOND == 0 {
      assert wait == SECOND * (wait / SECOND);
      assert (wait + SECOND - 1) / SECOND == wait / SECOND;
      assert pause == wait;
    } else {
      assert pause >= wait + 1;
      QuotientBounds(missing, rate, pause);
    }
  }

  /** A client that was denied comes back exactly the header's seconds later, with only denials
      for its key in between. */
  ghost predicate ReturnsOnTime(cfg: Config, start: int, calls: seq<Call>, i: nat, j: nat) {
    && i < j < |calls| && calls[i].key == calls[j].key
    && OutcomeAt(cfg, start, calls, i).Denied? && OutcomeAt(cfg, start, calls, i).wait >= 0
    && NoGrant(cfg, start, calls, i + 1, j, calls[i].key)
    && calls[j].now == calls[i].now + RetryAfterSeconds(OutcomeAt(cfg, start, calls, i).wait) * SECOND
  }

  /** It is let in, unless the key cap refuses it, exactly if its wait was not truncated. */
  lemma RetryAfterSuffices(cfg: Config, start: int, calls: seq<Call>, lag: int, i: nat, j: nat)
    requires cfg.perMinute > 0 && 0 <= lag <= MAX_LAG && WithinLag(calls, lag)
    requires ReturnsOnTime(cfg, start, calls, i, j)
    ensures OutcomeAt(cfg, start, calls, j) == Granted <==>
      && OutcomeAt(cfg, start, calls, j) != TableFull
      && !Truncated(cfg.perMinute, Missing(cfg, start, calls, i))
  {
    WaitIsTight(cfg, start, calls, lag, i, j);
    SecondsRefill(cfg.perMinute, Missing(cfg, start, calls, i));
  }

  /** A client that comes back at any later instant is let in whatever the rate, unless the key
      cap refuses it. */
  lemma LaterIsAlwaysEnough(cfg: Config, start: int, calls: seq<Call>, lag: int, i: nat, j: nat)
    requires cfg.perMinute > 0 && 0 <= lag <= MAX_LAG && WithinLag(calls, lag) && i < j < |calls|
    requires OutcomeAt(cfg, start, calls, i).Denied? && calls[i].key == calls[j].key
    requires NoGrant(cfg, start, calls, i + 1, j, calls[i].key)
    ensures var wait := OutcomeAt(cfg, start, calls, i).wait;
      wait >= 0 && (calls[j].now > calls[i].now + RetryAfterSeconds(wait) * SECOND ==>
        OutcomeAt(cfg, start, calls, j) == Granted || OutcomeAt(cfg, start, calls, j) == TableFull)
  {
    WaitIsTight(cfg, start, calls, lag, i, j);
    SecondsRefill(cfg.perMinute, Missing(cfg, start, calls, i));
    SecondsCover(OutcomeAt(cfg, start, calls, i).wait);
  }

  lemma SecondsCover(wait: int)
    requires wait >= 0
    ensures RetryAfterSeconds(wait) * SECOND >= wait
  {
  }

  /** Whether the seconds of Retry-After are always enough when there is room in the table. */
  ghost predicate HonoursRetryAfter(cfg: Config, lag: int) {
    forall start, calls, i: nat, j: nat :: WithinLag(calls, lag) && ReturnsOnTime(cfg, start, calls, i, j) ==>
      OutcomeAt(cfg, start, calls, j) == Granted || OutcomeAt(cfg, start, calls, j) == TableFull
  }

  // Enough: either all token counts divide evenly, or no wait reaches a second

  ghost predicate TokensDivide(rate: int, s: State)
    requires rate > 0
  {
    forall k :: k in s.buckets ==> s.buckets[k].tokens % rate == 0
  }

  lemma MultiplesAdd(rate: int, a: int, b: int)
    requires rate > 0 && a % rate == 0
    ensures (a + rate * b) % rate == 0 && (rate * b) % rate == 0
  {
    var q := a / rate;
    assert a == rate * q;
    Distribute(rate, q, b);
    assert a + rate * b == rate * (q + b);
    MultipleDivides(rate, q + b);
    MultipleDivides(rate, b);
  }

  lemma MultipleDivides(rate: int, q: int)
    requires rate > 0
    ensures (rate * q) % rate == 0
  {
    var r := (rate * q) % rate;
    var p := (rate * q) / rate;
    assert rate * q == rate * p + r;
    Distribute(rate, q, p);
    if q > p {
      Monotone(rate, 1, q - p);
    } else if q < p {
      Monotone(rate, q - p, -1);
    }
  }

  lemma TakeDivides(rate: int, b: Bucket, now: int)
    requires rate > 0 && TOKEN % rate == 0 && b.tokens % rate == 0
    ensures Take(rate, b, now).0.tokens % rate == 0
  {
    MultiplesAdd(rate, b.tokens, now - b.last);
    MultiplesAdd(rate, 0, TOKEN);
    var t := Refilled(rate, b, now);
    assert t % rate == 0;
    MultiplesAdd(rate, t, -(TOKEN / rate));
  }

  lemma {:induction false} RunDivides(cfg: Config, start: int, calls: seq<Call>, n: nat)
    requires cfg.perMinute > 0 && TOKEN % cfg.perMinute == 0 && n <= |calls|
    ensures TokensDivide(cfg.perMinute, StateAt(cfg, start, calls, n))
  {
    if n > 0 {
      RunDivides(cfg, start, calls, n - 1);
      NextState(cfg, start, calls, n - 1);
      StepDivides(cfg, StateAt(cfg, start, calls, n - 1), calls[n - 1]);
    }
  }

  lemma StepDivides(cfg: Config, s: State, c: Call)
    requires cfg.perMinute > 0 && TOKEN % cfg.perMinute == 0 && TokensDivide(cfg.perMinute, s)
    ensures TokensDivide(cfg.perMinute, CheckStep(cfg, s, c).0)
  {
    var s2 := Swept(cfg, s, c);
    var b := if c.key in s2.buckets then s2.buckets[c.key] else Bucket(Capacity(cfg.perMinute), c.now);
    MultiplesAdd(cfg.perMinute, 0, TOKEN);
    TakeDivides(cfg.perMinute, b, c.now);
  }

  lemma DifferenceDivides(rate: int, a: int, b: int)
    requires rate > 0 && a % rate == 0 && b % rate == 0
    ensures (a - b) % rate == 0
  {
    var q := b / rate;
    assert b == rate * q;
    Distribute(rate, 0, q);
    assert a - b == a + rate * (0 - q);
    MultiplesAdd(rate, a, 0 - q);
  }

  lemma EvenlyMissing(cfg: Config, start: int, calls: seq<Call>, i: nat)
    requires cfg.perMinute > 0 && TOKEN % cfg.perMinute == 0
    requires i < |calls| && OutcomeAt(cfg, start, calls, i).Denied?
    ensures Missing(cfg, start, calls, i) % cfg.perMinute == 0
  {
    RunDivides(cfg, start, calls, i + 1);
    NextState(cfg, start, calls, i);
    DeniedLacks(cfg, start, calls, i);
    DifferenceDivides(cfg.perMinute, TOKEN, StateAt(cfg, start, calls, i + 1).buckets[calls[i].key].tokens);
  }

  lemma QuotientAtMost(rate: int, missing: int, lag: int)
    requires rate > 0 && missing <= TOKEN + rate * lag
    ensures missing / rate <= TOKEN / rate + lag
  {
    var q := TOKEN / rate + lag;
    assert TOKEN == rate * (TOKEN / rate) + TOKEN % rate;
    Distribute(rate, TOKEN / rate, lag);
    assert missing < rate * q + rate;
    assert missing == rate * (missing / rate) + missing % rate;
    Distribute(rate, q, 1);
    if missing / rate > q {
      Monotone(rate, q + 1, missing / rate);
    }
  }

  /** The debt of any bucket is at most the refill of the lag. */
  lemma MissingIsBounded(cfg: Config, start: int, calls: seq<Call>, lag: int, i: nat)
    requires cfg.perMinute > 0 && 0 <= lag <= MAX_LAG && WithinLag(calls, lag)
    requires i < |calls| && OutcomeAt(cfg, start, calls, i).Denied?
    ensures Missing(cfg, start, calls, i) <= TOKEN + cfg.perMinute * lag
  {
    var seen := RunSimulatesUpTo(cfg, start, calls, lag, i + 1);
    NextState(cfg, start, calls, i);
    DeniedLacks(cfg, start, calls, i);
  }

  /** Nobody is told to wait longer than a minute's share of one token plus the clock lag. */
  lemma WaitIsBounded(cfg: Config, start: int, calls: seq<Call>, lag: int, i: nat)
    requires cfg.perMinute > 0 && 0 <= lag <= MAX_LAG && WithinLag(calls, lag)
    requires i < |calls| && OutcomeAt(cfg, start, calls, i).Denied?
    ensures OutcomeAt(cfg, start, calls, i).wait <= TOKEN / cfg.perMinute + lag
  {
    MissingIsBounded(cfg, start, calls, lag, i);
    DeniedLacks(cfg, start, calls, i);
    QuotientAtMost(cfg.perMinute, Missing(cfg, start, calls, i), lag);
  }

  // Not enough: a run that falls short

  /** The capacity is spent, and the next call comes one second before the truncated instant of
      the next token; it is told one second. */
  function ShortCalls(rate: int): seq<Call>
    requires rate > 0
  {
    Burst("a", 0, rate) + [Call("a", TOKEN / rate - SECOND)] + [Call("a", TOKEN / rate)]
  }

  lemma ShortCallsLag(rate: int, lag: int)
    requires rate > 0 && lag >= 0 && TOKEN / rate + lag >= SECOND
    ensures WithinLag(ShortCalls(rate), lag)
  {
    BurstCalls("a", 0, rate);
    assert TOKEN / rate >= 0;
    assert forall k :: 0 <= k < rate ==> ShortCalls(rate)[k].now == 0;
  }

  lemma TokenShare(rate: int)
    requires rate > 0 && TOKEN % rate != 0
    ensures var q := TOKEN / rate;
      && 0 <= rate * q < TOKEN && (TOKEN - rate * (q - SECOND)) / rate == SECOND
      && rate * (q - SECOND) < TOKEN && TOKEN <= Capacity(rate)
  {
    var q, r := TOKEN / rate, TOKEN % rate;
    assert TOKEN == rate * q + r && 0 < r < rate;
    Distribute(rate, q, SECOND);
    Monotone(rate, 1, SECOND);
    assert TOKEN - rate * (q - SECOND) == rate * SECOND + r;
    DivideExactly(rate, SECOND, r);
    Monotone(TOKEN, 1, rate);
  }

  lemma DivideExactly(d: int, q: int, r: int)
    requires 0 <= r < d
    ensures (d * q + r) / d == q
  {
    var p := (d * q + r) / d;
    assert d * q + r == d * p + (d * q + r) % d;
    Distribute(d, q, p);
    if p > q {
      Monotone(d, q - p, -1);
    } else if p < q {
      Monotone(d, 1, q - p);
    }
  }

  /** Both calls after the burst are denied, the first with a wait of one second. */
  lemma FallsShort(cfg: Config)
    requires cfg.perMinute > 0 && cfg.maxKeys >= 1 && TOKEN % cfg.perMinute != 0
    ensures var calls, n := ShortCalls(cfg.perMinute), cfg.perMinute;
      && |calls| == n + 2 && calls[n] == Call("a", TOKEN / n - SECOND) && calls[n + 1] == Call("a", TOKEN / n)
      && OutcomeAt(cfg, 0, calls, n) == Denied(SECOND) && OutcomeAt(cfg, 0, calls, n + 1).Denied?
  {
    var rate := cfg.perMinute;
    var calls, q := ShortCalls(rate), TOKEN / rate;
    BurstCalls("a", 0, rate);
    assert calls[..rate] == Burst("a", 0, rate);
    NewKeyDrains(cfg, State(map[], 0), "a", 0);
    TokenShare(rate);
    var s1 := StateAt(cfg, 0, calls, rate);
    assert s1 == State(map["a" := Bucket(0, 0)], 0);
    NextState(cfg, 0, calls, rate);
    FirstDenied(cfg, s1);
    SecondDenied(cfg, StateAt(cfg, 0, calls, rate + 1));
  }

  lemma FirstDenied(cfg: Config, s: State)
    requires cfg.perMinute > 0 && TOKEN % cfg.perMinute != 0 && s == State(map["a" := Bucket(0, 0)], 0)
    ensures var rate, now := cfg.perMinute, TOKEN / cfg.perMinute - SECOND;
      CheckStep(cfg, s, Call("a", now)) == (State(map["a" := Bucket(rate * now, now)], 0), Denied(SECOND))
  {
    var rate, now := cfg.perMinute, TOKEN / cfg.perMinute - SECOND;
    TokenShare(rate);
    assert Swept(cfg, s, Call("a", now)) == s;
    assert Take(rate, Bucket(0, 0), now) == (Bucket(rate * now, now), Denied(SECOND));
    assert s.buckets["a" := Bucket(rate * now, now)] == map["a" := Bucket(rate * now, now)];
  }

  lemma SecondDenied(cfg: Config, s: State)
    requires cfg.perMinute > 0 && TOKEN % cfg.perMinute != 0
    requires var q := TOKEN / cfg.perMinute;
      s == State(map["a" := Bucket(cfg.perMinute * (q - SECOND), q - SECOND)], 0)
    ensures CheckStep(cfg, s, Call("a", TOKEN / cfg.perMinute)).1.Denied?
  {
    var rate, q := cfg.perMinute, TOKEN / cfg.perMinute;
    TokenShare(rate);
    Distribute(rate, q, SECOND);
    assert Swept(cfg, s, Call("a", q)) == s;
  }

  /** For every limiter, the seconds of Retry-After are always enough if and only if the rate
      divides sixty billion, or its share of a minute plus the clock lag is under a second. */
  lemma RetryAfterIsExact(cfg: Config, lag: int)
    requires cfg.perMinute > 0 && cfg.maxKeys >= 1 && 0 <= lag <= MAX_LAG
    ensures HonoursRetryAfter(cfg, lag) <==> TOKEN % cfg.perMinute == 0 || TOKEN / cfg.perMinute + lag < SECOND
  {
    var rate := cfg.perMinute;
    if TOKEN % rate == 0 || TOKEN / rate + lag < SECOND {
      forall start, calls, i: nat, j: nat | WithinLag(calls, lag) && ReturnsOnTime(cfg, start, calls, i, j)
        ensures OutcomeAt(cfg, start, calls, j) == Granted || OutcomeAt(cfg, start, calls, j) == TableFull
      {
        NotTruncated(cfg, start, calls, lag, i);
        RetryAfterSuffices(cfg, start, calls, lag, i, j);
      }
    } else {
      var calls := ShortCalls(rate);
      ShortCallsLag(rate, lag);
      FallsShort(cfg);
      assert ReturnsOnTime(cfg, 0, calls, rate, rate + 1);
    }
  }

  lemma NotTruncated(cfg: Config, start: int, calls: seq<Call>, lag: int, i: nat)
    requires cfg.perMinute > 0 && 0 <= lag <= MAX_LAG && WithinLag(calls, lag)
    requires TOKEN % cfg.perMinute == 0 || TOKEN / cfg.perMinute + lag < SECOND
    requires i < |calls| && OutcomeAt(cfg, start, calls, i).Denied?
    ensures !Truncated(cfg.perMinute, Missing(cfg, start, calls, i))
  {
    DeniedLacks(cfg, start, calls, i);
    if TOKEN % cfg.perMinute == 0 {
      EvenlyMissing(cfg, start, calls, i);
    } else {
      WaitIsBounded(cfg, start, calls, lag, i);
    }
  }

  /** Seven per minute: an empty bucket, a call 7.571428571 s later is told one second, and the
      call exactly one second after it is denied again. */
  lemma SevenPerMinuteFallsShort()
    ensures var (b, o) := Take(7, Bucket(0, 0), 7_571_428_571);
      o == Denied(SECOND) && RetryAfterSeconds(SECOND) == 1 && Take(7, b, 8_571_428_571).1.Denied?
  {
  }
}
