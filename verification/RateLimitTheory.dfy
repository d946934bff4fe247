/** What the limiter of internal/ratelimit/ratelimit.go promises over whole runs: eviction
    is invisible, admissions obey the rate, and a denial's wait is tight. */
module RateLimitTheory {
  import opened RateLimit

  // ---------------------------------------------------------------------------
  // The reference: a limiter that never evicts and has no key cap

  type Table = map<string, Bucket>

  function RefBucket(rate: int, ref: Table, c: Call): Bucket {
    if c.key in ref then ref[c.key] else Bucket(Capacity(rate), c.now)
  }

  function RefCheck(rate: int, ref: Table, c: Call): (Table, Outcome) {
    if rate <= 0 then (ref, Granted)
    else var (b, o) := Take(rate, RefBucket(rate, ref, c), c.now); (ref[c.key := b], o)
  }

  /** A served call and its answer. */
  datatype Entry = Entry(call: Call, outcome: Outcome)

  /** The transcript is the one the reference limiter produces for its calls. */
  ghost predicate IsReferenceRun(rate: int, ref: Table, run: seq<Entry>)
    decreases |run|
  {
    run == [] || (var (ref', o) := RefCheck(rate, ref, run[0].call);
      run[0].outcome == o && IsReferenceRun(rate, ref', run[1..]))
  }

  function RefAfter(rate: int, ref: Table, run: seq<Entry>): Table
    decreases |run|
  {
    if run == [] then ref else RefAfter(rate, RefCheck(rate, ref, run[0].call).0, run[1..])
  }

  // ---------------------------------------------------------------------------
  // Runs of the sweeping limiter

  function After(cfg: Config, s: State, calls: seq<Call>): State
    decreases |calls|
  {
    if calls == [] then s else After(cfg, CheckStep(cfg, s, calls[0]).0, calls[1..])
  }

  /** The calls of a run that the key cap does not refuse, with their answers, in order. */
  function Transcript(cfg: Config, s: State, calls: seq<Call>): seq<Entry>
    decreases |calls|
  {
    if calls == [] then [] else
      var (s', o) := CheckStep(cfg, s, calls[0]);
      (if o == TableFull then [] else [Entry(calls[0], o)]) + Transcript(cfg, s', calls[1..])
  }

  /** No reading is more than `lag` behind an earlier one; lag 0 is a nondecreasing clock. */
  ghost predicate WithinLag(calls: seq<Call>, lag: int) {
    forall i, j :: 0 <= i < j < |calls| ==> calls[i].now - lag <= calls[j].now
  }

  // ---------------------------------------------------------------------------
  // The simulation

  /** A bucket whose readings never exceeded `seen` and lagged at most `lag` behind. */
  ghost predicate Sound(rate: int, b: Bucket, seen: int, lag: int) {
    && b.last <= seen
    && b.tokens <= Capacity(rate)
    && b.tokens >= -(rate * (seen - b.last))
    && b.tokens >= -(rate * lag)
  }

  /** `ref` is what a limiter that never evicts holds when the sweeping one holds `s`:
      an absent key's reference bucket is missing, or full at every reading still to come. */
  ghost predicate Simulates(rate: int, s: State, ref: Table, seen: int, lag: int) {
    && (forall k :: k in s.buckets ==> k in ref && ref[k] == s.buckets[k])
    && (forall k :: k in ref ==> Sound(rate, ref[k], seen, lag))
    && (forall k :: k in ref && k !in s.buckets ==>
          ref[k].tokens + rate * (seen - lag - ref[k].last) >= Capacity(rate))
  }

  lemma Distribute(rate: int, a: int, b: int)
    ensures rate * (a + b) == rate * a + rate * b
    ensures rate * (a - b) == rate * a - rate * b
  {
  }

  lemma Monotone(rate: int, a: int, b: int)
    requires rate >= 0 && a <= b
    ensures rate * a <= rate * b
  {
  }

  /** A sound bucket that a sweep at `now` may drop is full at every later reading. */
  lemma EvictedIsFull(rate: int, b: Bucket, seen: int, lag: int, now: int)
    requires rate > 0 && 0 <= lag <= MAX_LAG && Sound(rate, b, seen, lag)
    requires now - b.last > FULL
    ensures b.tokens + rate * (Max(seen, now) - lag - b.last) >= Capacity(rate)
  {
    var spare := Max(seen, now) - lag - b.last;
    Monotone(rate, TOKEN + lag, spare);
    Distribute(rate, TOKEN, lag);
  }

  lemma TakeKeepsSound(rate: int, b: Bucket, seen: int, lag: int, now: int)
    requires rate > 0 && lag >= 0 && Sound(rate, b, seen, lag) && now >= seen - lag
    ensures Sound(rate, Take(rate, b, now).0, Max(seen, now), lag)
  {
    var top := Max(seen, now);
    Distribute(rate, seen, b.last);
    Distribute(rate, now, b.last);
    Distribute(rate, top, now);
    Monotone(rate, seen, top);
    Monotone(rate, now, top);
    Monotone(rate, top - now, lag);
    assert b.tokens + rate * (now - b.last) >= -(rate * (top - now));
  }

  lemma SoundLater(rate: int, b: Bucket, seen: int, later: int, lag: int)
    requires rate > 0 && Sound(rate, b, seen, lag) && seen <= later
    ensures Sound(rate, b, later, lag)
  {
    Monotone(rate, seen - b.last, later - b.last);
  }

  lemma SweepSimulates(rate: int, s: State, ref: Table, seen: int, lag: int, now: int)
    requires rate > 0 && 0 <= lag <= MAX_LAG
    requires Simulates(rate, s, ref, seen, lag)
    ensures Simulates(rate, Sweep(s, now), ref, Max(seen, now), lag)
  {
    var top := Max(seen, now);
    forall k | k in ref
      ensures Sound(rate, ref[k], top, lag)
      ensures k !in Sweep(s, now).buckets ==>
        ref[k].tokens + rate * (top - lag - ref[k].last) >= Capacity(rate)
    {
      SoundLater(rate, ref[k], seen, top, lag);
      if k in s.buckets {
        if now - ref[k].last > FULL {
          EvictedIsFull(rate, ref[k], seen, lag, now);
        }
      } else {
        Monotone(rate, seen - lag - ref[k].last, top - lag - ref[k].last);
      }
    }
  }

  lemma SimulatesLater(rate: int, s: State, ref: Table, seen: int, later: int, lag: int)
    requires rate > 0 && seen <= later && Simulates(rate, s, ref, seen, lag)
    ensures Simulates(rate, s, ref, later, lag)
  {
    forall k | k in ref
      ensures Sound(rate, ref[k], later, lag)
      ensures k !in s.buckets ==> ref[k].tokens + rate * (later - lag - ref[k].last) >= Capacity(rate)
    {
      SoundLater(rate, ref[k], seen, later, lag);
      Monotone(rate, seen - lag - ref[k].last, later - lag - ref[k].last);
    }
  }

  lemma SweptSimulates(cfg: Config, s: State, ref: Table, seen: int, lag: int, c: Call)
    requires cfg.perMinute > 0 && 0 <= lag <= MAX_LAG
    requires Simulates(cfg.perMinute, s, ref, seen, lag)
    ensures Simulates(cfg.perMinute, Swept(cfg, s, c), ref, Max(seen, c.now), lag)
  {
    var rate, top := cfg.perMinute, Max(seen, c.now);
    var s1 := PeriodicSweep(s, c.now);
    if s1 == s {
      SimulatesLater(rate, s, ref, seen, top, lag);
    } else {
      SweepSimulates(rate, s, ref, seen, lag, c.now);
    }
    SweepSimulates(rate, s1, ref, top, lag, c.now);
  }

  /** An evicted key restarts with exactly the tokens its old bucket would have had. */
  lemma FreshIsFull(rate: int, b: Bucket, now: int, from: int)
    requires rate > 0 && from <= now && b.tokens + rate * (from - b.last) >= Capacity(rate)
    ensures Take(rate, b, now) == Take(rate, Bucket(Capacity(rate), now), now)
  {
    Monotone(rate, from - b.last, now - b.last);
    assert Refilled(rate, b, now) == Capacity(rate);
    assert Refilled(rate, Bucket(Capacity(rate), now), now) == Capacity(rate);
  }

  /** Taking a token for a key that has a slot, at reading `c.now` no later than `top`. */
  lemma TakeSimulates(rate: int, s: State, ref: Table, top: int, lag: int, c: Call)
    requires rate > 0 && lag >= 0 && top - lag <= c.now <= top
    requires Simulates(rate, s, ref, top, lag)
    ensures var b := if c.key in s.buckets then s.buckets[c.key] else Bucket(Capacity(rate), c.now);
      var (b', o) := Take(rate, b, c.now);
      && RefCheck(rate, ref, c) == (ref[c.key := b'], o)
      && Simulates(rate, s.(buckets := s.buckets[c.key := b']), ref[c.key := b'], top, lag)
  {
    Monotone(rate, 0, top - c.now);
    Monotone(rate, 0, lag);
    TakeKeepsSound(rate, RefBucket(rate, ref, c), top, lag, c.now);
    if c.key in ref && c.key !in s.buckets {
      FreshIsFull(rate, ref[c.key], c.now, top - lag);
    }
  }

  lemma StepSimulates(cfg: Config, s: State, ref: Table, seen: int, lag: int, c: Call)
    requires 0 <= lag <= MAX_LAG && c.now >= seen - lag
    requires cfg.perMinute > 0 && Simulates(cfg.perMinute, s, ref, seen, lag)
    ensures var (s', o) := CheckStep(cfg, s, c);
      && (o == TableFull ==> Simulates(cfg.perMinute, s', ref, Max(seen, c.now), lag))
      && (o != TableFull ==> RefCheck(cfg.perMinute, ref, c).1 == o)
      && (o != TableFull ==> Simulates(cfg.perMinute, s', RefCheck(cfg.perMinute, ref, c).0, Max(seen, c.now), lag))
  {
    SweptSimulates(cfg, s, ref, seen, lag, c);
    TakeSimulates(cfg.perMinute, Swept(cfg, s, c), ref, Max(seen, c.now), lag, c);
  }

  // ---------------------------------------------------------------------------
  // Whole runs

  function Latest(seen: int, calls: seq<Call>): int
    decreases |calls|
  {
    if calls == [] then seen else Latest(Max(seen, calls[0].now), calls[1..])
  }

  /** The readings of `calls` respect the lag, also with respect to the earlier `seen`. */
  ghost predicate Timely(seen: int, calls: seq<Call>, lag: int) {
    WithinLag(calls, lag) && forall j :: 0 <= j < |calls| ==> calls[j].now >= seen - lag
  }

  lemma TimelyRest(seen: int, calls: seq<Call>, lag: int)
    requires calls != [] && Timely(seen, calls, lag)
    ensures Timely(Max(seen, calls[0].now), calls[1..], lag)
  {
    var rest := calls[1..];
    forall i, j | 0 <= i < j < |rest|
      ensures rest[i].now - lag <= rest[j].now
    {
      assert rest[i] == calls[i + 1] && rest[j] == calls[j + 1];
    }
    forall j | 0 <= j < |rest|
      ensures rest[j].now >= Max(seen, calls[0].now) - lag
    {
      assert rest[j] == calls[j + 1];
    }
  }

  lemma {:induction false} RunSimulates(cfg: Config, s: State, ref: Table, seen: int, lag: int, calls: seq<Call>)
    requires cfg.perMinute > 0 && 0 <= lag <= MAX_LAG
    requires Timely(seen, calls, lag) && Simulates(cfg.perMinute, s, ref, seen, lag)
    ensures IsReferenceRun(cfg.perMinute, ref, Transcript(cfg, s, calls))
    ensures Simulates(cfg.perMinute, After(cfg, s, calls),
                      RefAfter(cfg.perMinute, ref, Transcript(cfg, s, calls)), Latest(seen, calls), lag)
    decreases |calls|
  {
    if calls != [] {
      var c := calls[0];
      var (s', o) := CheckStep(cfg, s, c);
      var ref' := if o == TableFull then ref else RefCheck(cfg.perMinute, ref, c).0;
      StepSimulates(cfg, s, ref, seen, lag, c);
      TimelyRest(seen, calls, lag);
      RunSimulates(cfg, s', ref', Max(seen, c.now), lag, calls[1..]);
      var run, rest := Transcript(cfg, s, calls), Transcript(cfg, s', calls[1..]);
      assert if o == TableFull then run == rest else run[0] == Entry(c, o) && run[1..] == rest;
    }
  }

  lemma {:induction false} DisabledRun(cfg: Config, s: State, calls: seq<Call>)
    requires cfg.perMinute <= 0
    ensures IsReferenceRun(cfg.perMinute, map[], Transcript(cfg, s, calls))
    decreases |calls|
  {
    if calls != [] {
      DisabledRun(cfg, s, calls[1..]);
      assert Transcript(cfg, s, calls)[1..] == Transcript(cfg, s, calls[1..]);
    }
  }

  /** The transcript of a run of a new limiter. */
  function RunOf(cfg: Config, start: int, calls: seq<Call>): seq<Entry> {
    Transcript(cfg, State(map[], start), calls)
  }

  /** Eviction is invisible: the calls the key cap does not refuse are answered exactly as
      a limiter that never evicts answers those calls alone. */
  lemma EvictionIsInvisible(cfg: Config, start: int, calls: seq<Call>, lag: int)
    requires 0 <= lag <= MAX_LAG && WithinLag(calls, lag)
    ensures IsReferenceRun(cfg.perMinute, map[], RunOf(cfg, start, calls))
  {
    if cfg.perMinute <= 0 {
      DisabledRun(cfg, State(map[], start), calls);
    } else if calls != [] {
      RunSimulates(cfg, State(map[], start), map[], calls[0].now, lag, calls);
    }
  }

  // ---------------------------------------------------------------------------
  // The rate

  predicate InWindow(e: Entry, key: string, from: int, to: int) {
    e.outcome == Granted && e.call.key == key && from <= e.call.now <= to
  }

  /** How many calls for `key` with a reading in [from, to] were admitted. */
  function Admitted(run: seq<Entry>, key: string, from: int, to: int): nat {
    if run == [] then 0
    else (if InWindow(run[0], key, from, to) then 1 else 0) + Admitted(run[1..], key, from, to)
  }

  /** What a bucket can give up to reading `to`. */
  function Supply(rate: int, b: Bucket, to: int): int {
    b.tokens + rate * (to - b.last)
  }

  lemma TakeSpendsSupply(rate: int, b: Bucket, now: int, to: int)
    requires rate > 0
    ensures var (b', o) := Take(rate, b, now);
      && Supply(rate, b', to) <= Supply(rate, b, to) - (if o == Granted then TOKEN else 0)
      && (o == Granted && now <= to ==> Supply(rate, b', to) >= 0)
  {
    Distribute(rate, to, b.last);
    Distribute(rate, now, b.last);
    Distribute(rate, to, now);
    if now <= to {
      Monotone(rate, 0, to - now);
    }
  }

  lemma {:induction false} AdmittedFromSupply(rate: int, ref: Table, run: seq<Entry>, key: string, from: int, to: int)
    requires rate > 0 && IsReferenceRun(rate, ref, run) && key in ref
    ensures var n := Admitted(run, key, from, to);
      n > 0 ==> TOKEN * n <= Supply(rate, ref[key], to)
    decreases |run|
  {
    if run != [] {
      var c := run[0].call;
      AdmittedFromSupply(rate, RefCheck(rate, ref, c).0, run[1..], key, from, to);
      TakeSpendsSupply(rate, ref[key], c.now, to);
    }
  }

  lemma {:induction false} AdmittedInWindow(rate: int, ref: Table, run: seq<Entry>, key: string, from: int, to: int)
    requires rate > 0 && IsReferenceRun(rate, ref, run) && from <= to
    requires forall k :: k in ref ==> ref[k].tokens <= Capacity(rate)
    ensures TOKEN * Admitted(run, key, from, to) <= Capacity(rate) + rate * (to - from)
    decreases |run|
  {
    Monotone(rate, 0, to - from);
    if run != [] {
      var c := run[0].call;
      var ref' := RefCheck(rate, ref, c).0;
      if InWindow(run[0], key, from, to) {
        AdmittedFromSupply(rate, ref', run[1..], key, from, to);
        Monotone(rate, to - c.now, to - from);
      } else {
        AdmittedInWindow(rate, ref', run[1..], key, from, to);
      }
    }
  }

  /** For any key and window of readings, over any number of evictions and re-creations,
      admissions are at most the capacity plus the refill of the window. */
  lemma RateIsBounded(cfg: Config, start: int, calls: seq<Call>, lag: int, key: string, from: int, to: int)
    requires cfg.perMinute > 0 && from <= to
    requires 0 <= lag <= MAX_LAG && WithinLag(calls, lag)
    ensures TOKEN * Admitted(RunOf(cfg, start, calls), key, from, to)
            <= Capacity(cfg.perMinute) + cfg.perMinute * (to - from)
  {
    EvictionIsInvisible(cfg, start, calls, lag);
    AdmittedInWindow(cfg.perMinute, map[], RunOf(cfg, start, calls), key, from, to);
  }

  // ---------------------------------------------------------------------------
  // One bucket that is not evicted, under any clock

  ghost predicate NeverEvicted(cfg: Config, s: State, calls: seq<Call>, key: string)
    decreases |calls|
  {
    calls == [] || (key in Swept(cfg, s, calls[0]).buckets
                    && NeverEvicted(cfg, CheckStep(cfg, s, calls[0]).0, calls[1..], key))
  }

  function AdmittedTo(cfg: Config, s: State, calls: seq<Call>, key: string): nat
    decreases |calls|
  {
    if calls == [] then 0 else
      var (s', o) := CheckStep(cfg, s, calls[0]);
      (if o == Granted && calls[0].key == key then 1 else 0) + AdmittedTo(cfg, s', calls[1..], key)
  }

  /** A bucket's debt is at most the refill between its reading and the latest one. */
  ghost predicate DebtBounded(rate: int, b: Bucket, seen: int) {
    b.last <= seen && b.tokens >= -(rate * (seen - b.last))
  }

  lemma TakeBoundsDebt(rate: int, b: Bucket, now: int, seen: int)
    requires rate > 0 && DebtBounded(rate, b, seen)
    ensures DebtBounded(rate, Take(rate, b, now).0, Max(seen, now))
  {
    var top := Max(seen, now);
    Monotone(rate, seen - b.last, top - b.last);
    Distribute(rate, now, b.last);
    Distribute(rate, top, b.last);
    Distribute(rate, top, now);
    Monotone(rate, 0, top - now);
  }

  lemma KeptBucketStep(cfg: Config, s: State, c: Call, key: string)
    requires cfg.perMinute > 0 && key in s.buckets && key in Swept(cfg, s, c).buckets
    ensures var (s', o) := CheckStep(cfg, s, c);
      && key in s'.buckets
      && (c.key != key ==> s'.buckets[key] == s.buckets[key])
      && (c.key == key ==> (s'.buckets[key], o) == Take(cfg.perMinute, s.buckets[key], c.now))
  {
  }

  /** What one call costs a bucket that is kept, and its debt afterwards. */
  lemma KeptBucketPays(cfg: Config, s: State, c: Call, key: string, seen: int)
    requires cfg.perMinute > 0 && key in s.buckets && key in Swept(cfg, s, c).buckets
    requires DebtBounded(cfg.perMinute, s.buckets[key], seen)
    ensures var (s', o) := CheckStep(cfg, s, c);
      && key in s'.buckets && DebtBounded(cfg.perMinute, s'.buckets[key], Max(seen, c.now))
      && Supply(cfg.perMinute, s'.buckets[key], 0) + (if o == Granted && c.key == key then TOKEN else 0)
         <= Supply(cfg.perMinute, s.buckets[key], 0)
  {
    var rate, b := cfg.perMinute, s.buckets[key];
    KeptBucketStep(cfg, s, c, key);
    TakeSpendsSupply(rate, b, c.now, 0);
    TakeBoundsDebt(rate, b, c.now, seen);
    DebtLater(rate, b, seen, Max(seen, c.now));
  }

  lemma {:induction false} KeptBucketRun(cfg: Config, s: State, calls: seq<Call>, key: string, seen: int)
    requires cfg.perMinute > 0 && key in s.buckets && NeverEvicted(cfg, s, calls, key)
    requires DebtBounded(cfg.perMinute, s.buckets[key], seen)
    ensures key in After(cfg, s, calls).buckets
    ensures var b' := After(cfg, s, calls).buckets[key];
      && TOKEN * AdmittedTo(cfg, s, calls, key)
         <= Supply(cfg.perMinute, s.buckets[key], 0) - Supply(cfg.perMinute, b', 0)
      && DebtBounded(cfg.perMinute, b', Latest(seen, calls))
    decreases |calls|
  {
    if calls != [] {
      var c := calls[0];
      KeptBucketPays(cfg, s, c, key, seen);
      KeptBucketRun(cfg, CheckStep(cfg, s, c).0, calls[1..], key, Max(seen, c.now));
    }
  }

  lemma DebtLater(rate: int, b: Bucket, seen: int, later: int)
    requires rate > 0 && DebtBounded(rate, b, seen) && seen <= later
    ensures DebtBounded(rate, b, later)
  {
    Monotone(rate, seen - b.last, later - b.last);
  }

  /** Whatever order the readings arrive in, admissions are paid for by the drop in tokens
      and the advance of the bucket's own reading, and tokens never fall below the refill
      between the bucket's reading and the latest reading seen. */
  lemma AnyClockBound(cfg: Config, s: State, calls: seq<Call>, key: string, seen: int)
    requires cfg.perMinute > 0 && key in s.buckets && NeverEvicted(cfg, s, calls, key)
    requires DebtBounded(cfg.perMinute, s.buckets[key], seen)
    ensures key in After(cfg, s, calls).buckets
    ensures var b, b' := s.buckets[key], After(cfg, s, calls).buckets[key];
      && TOKEN * AdmittedTo(cfg, s, calls, key) <= b.tokens - b'.tokens + cfg.perMinute * (b'.last - b.last)
      && DebtBounded(cfg.perMinute, b', Latest(seen, calls))
  {
    KeptBucketRun(cfg, s, calls, key, seen);
    Distribute(cfg.perMinute, After(cfg, s, calls).buckets[key].last, s.buckets[key].last);
  }

  // ---------------------------------------------------------------------------
  // The wait

  /** A denial leaves the bucket's refill line where it was. */
  lemma DenialKeepsLine(rate: int, b: Bucket, now: int, t: int)
    requires rate > 0 && Take(rate, b, now).1 != Granted
    ensures Supply(rate, Take(rate, b, now).0, t) == Supply(rate, b, t)
  {
    Monotone(TOKEN, 1, rate);
    Distribute(rate, t, b.last);
    Distribute(rate, now, b.last);
    Distribute(rate, t, now);
  }

  ghost predicate NoneGranted(run: seq<Entry>, key: string) {
    forall i :: 0 <= i < |run| && run[i].call.key == key ==> run[i].outcome != Granted
  }

  lemma {:induction false} DenialsKeepLine(rate: int, ref: Table, run: seq<Entry>, key: string, t: int)
    requires rate > 0 && IsReferenceRun(rate, ref, run)
    requires key in ref && NoneGranted(run, key)
    ensures key in RefAfter(rate, ref, run)
    ensures Supply(rate, RefAfter(rate, ref, run)[key], t) == Supply(rate, ref[key], t)
    decreases |run|
  {
    if run != [] {
      var e := run[0];
      if e.call.key == key {
        DenialKeepsLine(rate, ref[key], e.call.now, t);
      }
      forall i | 0 <= i < |run[1..]| && run[1..][i].call.key == key
        ensures run[1..][i].outcome != Granted
      {
        assert run[1..][i] == run[i + 1];
      }
      DenialsKeepLine(rate, RefCheck(rate, ref, e.call).0, run[1..], key, t);
    }
  }

  lemma {:induction false} ReferenceSplit(rate: int, ref: Table, xs: seq<Entry>, ys: seq<Entry>)
    requires IsReferenceRun(rate, ref, xs + ys)
    ensures IsReferenceRun(rate, ref, xs) && IsReferenceRun(rate, RefAfter(rate, ref, xs), ys)
    decreases |xs|
  {
    if xs == [] {
      assert xs + ys == ys;
    } else {
      assert (xs + ys)[1..] == xs[1..] + ys;
      ReferenceSplit(rate, RefCheck(rate, ref, xs[0].call).0, xs[1..], ys);
    }
  }

  lemma QuotientBounds(n: int, d: int, x: int)
    requires d > 0 && n > 0
    ensures d * x >= n ==> x >= n / d
    ensures x >= n / d + 1 ==> d * x >= n
  {
    assert n == d * (n / d) + n % d;
    if x >= n / d + 1 {
      Monotone(d, n / d + 1, x);
      Distribute(d, n / d, 1);
    } else if x <= n / d - 1 {
      Monotone(d, x, n / d - 1);
      Distribute(d, n / d, 1);
    }
  }

  /** The refill line of a denied bucket decides the next admission. */
  lemma NextAdmission(rate: int, ref: Table, denied: Entry, mid: seq<Entry>, next: Entry)
    requires rate > 0 && IsReferenceRun(rate, ref, [denied] + mid + [next])
    requires denied.outcome.Denied? && next.call.key == denied.call.key
    requires NoneGranted(mid, next.call.key)
    ensures next.outcome == Granted <==>
            Supply(rate, RefCheck(rate, ref, denied.call).0[next.call.key], next.call.now) >= TOKEN
    ensures next.outcome != TableFull
  {
    var ref1 := RefCheck(rate, ref, denied.call).0;
    assert ([denied] + mid + [next])[1..] == mid + [next];
    ReferenceSplit(rate, ref1, mid, [next]);
    DenialsKeepLine(rate, ref1, mid, next.call.key, next.call.now);
    Monotone(TOKEN, 1, rate);
  }

  /** The bucket of the i-th served call's key right after that call. */
  function BucketAt(rate: int, run: seq<Entry>, i: nat): Bucket
    requires rate > 0 && i < |run|
  {
    RefCheck(rate, RefAfter(rate, map[], run[..i]), run[i].call).0[run[i].call.key]
  }

  /** With only denials in between, the next call of a key is admitted exactly if the refill
      since a denial covers what that denial's bucket lacked to one token. */
  lemma NextAdmissionInRun(rate: int, run: seq<Entry>, i: nat, j: nat)
    requires rate > 0 && IsReferenceRun(rate, map[], run) && i < j < |run|
    requires run[i].outcome.Denied? && run[i].call.key == run[j].call.key
    requires NoneGranted(run[i + 1..j], run[i].call.key)
    ensures var missing := TOKEN - BucketAt(rate, run, i).tokens;
      && missing > 0 && run[i].outcome.wait == missing / rate
      && run[j].outcome != TableFull
      && (run[j].outcome == Granted <==> rate * (run[j].call.now - run[i].call.now) >= missing)
  {
    var span := [run[i]] + run[i + 1..j] + [run[j]];
    assert run == run[..i] + (span + run[j + 1..]);
    ReferenceSplit(rate, map[], run[..i], span + run[j + 1..]);
    var ref := RefAfter(rate, map[], run[..i]);
    ReferenceSplit(rate, ref, span, run[j + 1..]);
    NextAdmission(rate, ref, run[i], run[i + 1..j], run[j]);
    assert span[0] == run[i];
  }
}
