/** Runs of the limiter of internal/ratelimit/ratelimit.go call by call: the key cap, and what
    a client that was denied gets when it comes back. */
module RateLimitRuns {
  import opened RateLimit
  import opened RateLimitTheory

  /** The limiter before the i-th call of a run of a new limiter. */
  function StateAt(cfg: Config, start: int, calls: seq<Call>, i: nat): State
    requires i <= |calls|
  {
    After(cfg, State(map[], start), calls[..i])
  }

  function OutcomeAt(cfg: Config, start: int, calls: seq<Call>, i: nat): Outcome
    requires i < |calls|
  {
    CheckStep(cfg, StateAt(cfg, start, calls, i), calls[i]).1
  }

  // ---------------------------------------------------------------------------
  // Splitting runs

  lemma {:induction false} RunSplits(cfg: Config, s: State, xs: seq<Call>, ys: seq<Call>)
    ensures After(cfg, s, xs + ys) == After(cfg, After(cfg, s, xs), ys)
    ensures Transcript(cfg, s, xs + ys) == Transcript(cfg, s, xs) + Transcript(cfg, After(cfg, s, xs), ys)
    decreases |xs|
  {
    if xs == [] {
      assert xs + ys == ys;
    } else {
      assert (xs + ys)[1..] == xs[1..] + ys;
      var (s', o) := CheckStep(cfg, s, xs[0]);
      RunSplits(cfg, s', xs[1..], ys);
      var first := if o == TableFull then [] else [Entry(xs[0], o)];
      EntriesRegroup(first, Transcript(cfg, s', xs[1..]), Transcript(cfg, After(cfg, s', xs[1..]), ys));
    }
  }

  lemma EntriesRegroup(a: seq<Entry>, b: seq<Entry>, c: seq<Entry>)
    ensures a + (b + c) == a + b + c
  {
  }

  lemma OneCall(cfg: Config, s: State, c: Call)
    ensures After(cfg, s, [c]) == CheckStep(cfg, s, c).0
    ensures var o := CheckStep(cfg, s, c).1;
      Transcript(cfg, s, [c]) == if o == TableFull then [] else [Entry(c, o)]
  {
    assert [c][1..] == [];
  }

  lemma NextState(cfg: Config, start: int, calls: seq<Call>, i: nat)
    requires i < |calls|
    ensures StateAt(cfg, start, calls, i + 1) == CheckStep(cfg, StateAt(cfg, start, calls, i), calls[i]).0
    ensures var o := OutcomeAt(cfg, start, calls, i);
      RunOf(cfg, start, calls[..i + 1]) ==
        RunOf(cfg, start, calls[..i]) + (if o == TableFull then [] else [Entry(calls[i], o)])
  {
    assert calls[..i + 1] == calls[..i] + [calls[i]];
    RunSplits(cfg, State(map[], start), calls[..i], [calls[i]]);
    OneCall(cfg, StateAt(cfg, start, calls, i), calls[i]);
  }

  /** How many calls before the i-th were served: the place of the i-th in the transcript. */
  function Place(cfg: Config, start: int, calls: seq<Call>, i: nat): nat
    requires i <= |calls|
  {
    |RunOf(cfg, start, calls[..i])|
  }

  lemma {:induction false} Prefixes(cfg: Config, start: int, calls: seq<Call>, i: nat, n: nat)
    requires i <= n <= |calls|
    ensures RunOf(cfg, start, calls[..i]) <= RunOf(cfg, start, calls[..n])
    decreases n - i
  {
    if i < n {
      Prefixes(cfg, start, calls, i, n - 1);
      NextState(cfg, start, calls, n - 1);
    }
  }

  /** A served call stands at its place. */
  lemma ServedStandsAtPlace(cfg: Config, start: int, calls: seq<Call>, i: nat, n: nat)
    requires i < n <= |calls| && OutcomeAt(cfg, start, calls, i) != TableFull
    ensures var run, p := RunOf(cfg, start, calls[..n]), Place(cfg, start, calls, i);
      p < |run| && run[..p] == RunOf(cfg, start, calls[..i])
      && run[p] == Entry(calls[i], OutcomeAt(cfg, start, calls, i))
  {
    NextState(cfg, start, calls, i);
    Prefixes(cfg, start, calls, i + 1, n);
  }

  /** None of the calls from i up to n is granted for `key`. */
  ghost predicate NoGrant(cfg: Config, start: int, calls: seq<Call>, i: nat, n: nat, key: string) {
    forall m :: i <= m < n && m < |calls| && calls[m].key == key ==> OutcomeAt(cfg, start, calls, m) != Granted
  }

  lemma NoneGrantedAppends(run: seq<Entry>, more: seq<Entry>, p: nat, key: string)
    requires p <= |run| && NoneGranted(run[p..], key) && NoneGranted(more, key)
    ensures NoneGranted((run + more)[p..], key)
  {
    assert (run + more)[p..] == run[p..] + more;
  }

  lemma {:induction false} NoGrantInTranscript(cfg: Config, start: int, calls: seq<Call>, i: nat, n: nat, key: string)
    requires i <= n <= |calls| && NoGrant(cfg, start, calls, i, n, key)
    ensures var run, p := RunOf(cfg, start, calls[..n]), Place(cfg, start, calls, i);
      p <= |run| && NoneGranted(run[p..], key)
    decreases n - i
  {
    if i < n {
      NoGrantInTranscript(cfg, start, calls, i, n - 1, key);
      NextState(cfg, start, calls, n - 1);
      var run := RunOf(cfg, start, calls[..n - 1]);
      NoneGrantedAppends(run, RunOf(cfg, start, calls[..n])[|run|..], Place(cfg, start, calls, i), key);
    }
  }

  // ---------------------------------------------------------------------------
  // The key cap

  lemma {:induction false} TableStaysWithinCap(cfg: Config, s: State, calls: seq<Call>)
    requires |s.buckets| <= cfg.maxKeys
    ensures |After(cfg, s, calls).buckets| <= cfg.maxKeys
    decreases |calls|
  {
    if calls != [] {
      StepStaysWithinCap(cfg, s, calls[0]);
      TableStaysWithinCap(cfg, CheckStep(cfg, s, calls[0]).0, calls[1..]);
    }
  }

  lemma SweepShrinks(s: State, now: int)
    ensures |Sweep(s, now).buckets| <= |s.buckets|
  {
    var small, large := Sweep(s, now).buckets.Keys, s.buckets.Keys;
    assert large == small + (large - small);
  }

  lemma StepStaysWithinCap(cfg: Config, s: State, c: Call)
    requires |s.buckets| <= cfg.maxKeys
    ensures |Swept(cfg, s, c).buckets| <= cfg.maxKeys
    ensures |CheckStep(cfg, s, c).0.buckets| <= cfg.maxKeys
  {
    SweepShrinks(s, c.now);
    SweepShrinks(PeriodicSweep(s, c.now), c.now);
    var s2 := Swept(cfg, s, c);
    var s' := CheckStep(cfg, s, c).0;
    if s'.buckets != s.buckets && s'.buckets != s2.buckets {
      assert s'.buckets.Keys == s2.buckets.Keys + {c.key};
    }
  }

  /** Every bucket's reading is that of a call for its key. */
  ghost predicate ReadingsFrom(s: State, calls: seq<Call>) {
    forall k :: k in s.buckets ==> Call(k, s.buckets[k].last) in calls
  }

  lemma StepReadsCall(cfg: Config, s: State, c: Call, before: seq<Call>)
    requires ReadingsFrom(s, before)
    ensures ReadingsFrom(CheckStep(cfg, s, c).0, before + [c])
  {
  }

  lemma {:induction false} ReadingsAreFromCalls(cfg: Config, start: int, calls: seq<Call>, n: nat)
    requires n <= |calls|
    ensures ReadingsFrom(StateAt(cfg, start, calls, n), calls[..n])
  {
    if n > 0 {
      ReadingsAreFromCalls(cfg, start, calls, n - 1);
      NextState(cfg, start, calls, n - 1);
      StepReadsCall(cfg, StateAt(cfg, start, calls, n - 1), calls[n - 1], calls[..n - 1]);
      assert calls[..n] == calls[..n - 1] + [calls[n - 1]];
    }
  }

  /** The table never holds more keys than the cap, and a call is refused for lack of room only
      when exactly the cap of other keys each made a call at most 61 s before it. */
  lemma CapIsKept(cfg: Config, start: int, calls: seq<Call>, i: nat)
    requires cfg.maxKeys >= 0 && i < |calls|
    ensures |StateAt(cfg, start, calls, i).buckets| <= cfg.maxKeys
    ensures OutcomeAt(cfg, start, calls, i) == TableFull ==>
      exists keys: set<string> :: |keys| == cfg.maxKeys && calls[i].key !in keys && RecentlySeen(keys, calls, i)
  {
    TableStaysWithinCap(cfg, State(map[], start), calls[..i]);
    var s, c := StateAt(cfg, start, calls, i), calls[i];
    if OutcomeAt(cfg, start, calls, i) == TableFull {
      var keys := Swept(cfg, s, c).buckets.Keys;
      StepStaysWithinCap(cfg, s, c);
      ReadingsAreFromCalls(cfg, start, calls, i);
      forall k | k in keys
        ensures exists l :: 0 <= l < i && calls[l].key == k && c.now - calls[l].now <= FULL
      {
        assert Call(k, s.buckets[k].last) in calls[..i];
        var l :| 0 <= l < i && calls[..i][l] == Call(k, s.buckets[k].last);
        assert calls[l].key == k;
      }
    }
  }

  ghost predicate RecentlySeen(keys: set<string>, calls: seq<Call>, i: nat)
    requires i < |calls|
  {
    forall k :: k in keys ==> exists l :: 0 <= l < i && calls[l].key == k && calls[i].now - calls[l].now <= FULL
  }

  // ---------------------------------------------------------------------------
  // Coming back after a denial

  /** What the key's bucket lacks to one token right after the i-th call. */
  function Missing(cfg: Config, start: int, calls: seq<Call>, i: nat): int
    requires i < |calls| && OutcomeAt(cfg, start, calls, i).Denied?
  {
    TOKEN - CheckStep(cfg, StateAt(cfg, start, calls, i), calls[i]).0.buckets[calls[i].key].tokens
  }

  lemma {:induction false} RunSimulatesUpTo(cfg: Config, start: int, calls: seq<Call>, lag: int, n: nat)
    returns (seen: int)
    requires cfg.perMinute > 0 && 0 <= lag <= MAX_LAG && WithinLag(calls, lag) && n <= |calls|
    ensures Simulates(cfg.perMinute, StateAt(cfg, start, calls, n),
                      RefAfter(cfg.perMinute, map[], RunOf(cfg, start, calls[..n])), seen, lag)
  {
    var prefix := calls[..n];
    assert forall i :: 0 <= i < n ==> prefix[i] == calls[i];
    var first := if n == 0 then 0 else prefix[0].now;
    RunSimulates(cfg, State(map[], start), map[], first, lag, prefix);
    seen := Latest(first, prefix);
  }

  /** The bucket the theory speaks of is the limiter's own. */
  lemma MissingIsReferences(cfg: Config, start: int, calls: seq<Call>, lag: int, i: nat)
    requires cfg.perMinute > 0 && 0 <= lag <= MAX_LAG && WithinLag(calls, lag) && i < |calls|
    requires OutcomeAt(cfg, start, calls, i).Denied?
    ensures Place(cfg, start, calls, i) < |RunOf(cfg, start, calls)|
    ensures Missing(cfg, start, calls, i) ==
            TOKEN - BucketAt(cfg.perMinute, RunOf(cfg, start, calls), Place(cfg, start, calls, i)).tokens
  {
    assert calls[..|calls|] == calls;
    ServedStandsAtPlace(cfg, start, calls, i, |calls|);
    NextState(cfg, start, calls, i);
    var seen := RunSimulatesUpTo(cfg, start, calls, lag, i + 1);
    var e := Entry(calls[i], OutcomeAt(cfg, start, calls, i));
    ReferenceAppends(cfg.perMinute, map[], RunOf(cfg, start, calls[..i]), e);
  }

  lemma {:induction false} ReferenceAppends(rate: int, ref: Table, run: seq<Entry>, e: Entry)
    ensures RefAfter(rate, ref, run + [e]) == RefCheck(rate, RefAfter(rate, ref, run), e.call).0
    decreases |run|
  {
    if run == [] {
      assert run + [e] == [e] && [e][1..] == [];
    } else {
      assert (run + [e])[1..] == run[1..] + [e];
      ReferenceAppends(rate, RefCheck(rate, ref, run[0].call).0, run[1..], e);
    }
  }

  /** The key has no bucket left, and the sweeps of the call make no room for one. */
  predicate NoRoom(cfg: Config, s: State, c: Call) {
    c.key !in Swept(cfg, s, c).buckets && |Swept(cfg, s, c).buckets| >= cfg.maxKeys
  }

  /** What a client gets that was denied and comes back, with only denials for its key in
      between: refused for lack of room exactly if its bucket is gone and the table is still
      full after the sweeps; otherwise admitted exactly if the refill covers what was missing,
      so denied before the wait is over and admitted from one nanosecond after it. */
  lemma WaitIsTight(cfg: Config, start: int, calls: seq<Call>, lag: int, i: nat, j: nat)
    requires cfg.perMinute > 0 && 0 <= lag <= MAX_LAG && WithinLag(calls, lag) && i < j < |calls|
    requires OutcomeAt(cfg, start, calls, i).Denied? && calls[i].key == calls[j].key
    requires NoGrant(cfg, start, calls, i + 1, j, calls[i].key)
    ensures var wait, missing := OutcomeAt(cfg, start, calls, i).wait, Missing(cfg, start, calls, i);
      var outcome, time := OutcomeAt(cfg, start, calls, j), calls[j].now - calls[i].now;
      && missing > 0 && wait == missing / cfg.perMinute
      && (outcome == TableFull <==> NoRoom(cfg, StateAt(cfg, start, calls, j), calls[j]))
      && (outcome == Granted <==> outcome != TableFull && cfg.perMinute * time >= missing)
      && (outcome != TableFull && time < wait ==> outcome.Denied?)
      && (outcome != TableFull && time > wait ==> outcome == Granted)
  {
    DeniedLacks(cfg, start, calls, i);
    if OutcomeAt(cfg, start, calls, j) != TableFull {
      ServedRetryIsTight(cfg, start, calls, lag, i, j);
      QuotientBounds(Missing(cfg, start, calls, i), cfg.perMinute, calls[j].now - calls[i].now);
    }
  }

  lemma ServedRetryIsTight(cfg: Config, start: int, calls: seq<Call>, lag: int, i: nat, j: nat)
    requires cfg.perMinute > 0 && 0 <= lag <= MAX_LAG && WithinLag(calls, lag) && i < j < |calls|
    requires OutcomeAt(cfg, start, calls, i).Denied? && calls[i].key == calls[j].key
    requires OutcomeAt(cfg, start, calls, j) != TableFull
    requires NoGrant(cfg, start, calls, i + 1, j, calls[i].key)
    ensures OutcomeAt(cfg, start, calls, j) == Granted <==>
            cfg.perMinute * (calls[j].now - calls[i].now) >= Missing(cfg, start, calls, i)
  {
    var run, p, q := RetryRun(cfg, start, calls, lag, i, j);
    NextAdmissionInRun(cfg.perMinute, run, p, q);
  }

  /** A run of the reference limiter with the denial, the retry and only denials in between. */
  lemma RetryRun(cfg: Config, start: int, calls: seq<Call>, lag: int, i: nat, j: nat)
    returns (run: seq<Entry>, p: nat, q: nat)
    requires cfg.perMinute > 0 && 0 <= lag <= MAX_LAG && WithinLag(calls, lag) && i < j < |calls|
    requires OutcomeAt(cfg, start, calls, i).Denied? && OutcomeAt(cfg, start, calls, j) != TableFull
    requires NoGrant(cfg, start, calls, i + 1, j, calls[i].key)
    ensures IsReferenceRun(cfg.perMinute, map[], run) && p < q < |run| && NoneGranted(run[p + 1..q], calls[i].key)
    ensures run[p] == Entry(calls[i], OutcomeAt(cfg, start, calls, i))
    ensures run[q] == Entry(calls[j], OutcomeAt(cfg, start, calls, j))
    ensures Missing(cfg, start, calls, i) == TOKEN - BucketAt(cfg.perMinute, run, p).tokens
  {
    RetryStands(cfg, start, calls, i, j);
    run, p, q := RunOf(cfg, start, calls[..j + 1]), Place(cfg, start, calls, i), Place(cfg, start, calls, j);
    PrefixIsReferenceRun(cfg, start, calls, lag, i, j + 1);
  }

  lemma DeniedLacks(cfg: Config, start: int, calls: seq<Call>, i: nat)
    requires cfg.perMinute > 0 && i < |calls| && OutcomeAt(cfg, start, calls, i).Denied?
    ensures calls[i].key in StateAt(cfg, start, calls, i + 1).buckets
    ensures var missing := Missing(cfg, start, calls, i);
      missing > 0 && OutcomeAt(cfg, start, calls, i).wait == missing / cfg.perMinute
  {
    NextState(cfg, start, calls, i);
  }

  lemma PrefixWithinLag(calls: seq<Call>, lag: int, n: nat)
    requires WithinLag(calls, lag) && n <= |calls|
    ensures WithinLag(calls[..n], lag)
  {
    assert forall i :: 0 <= i < n ==> calls[..n][i] == calls[i];
  }

  /** Both calls and what is between them, in the transcript up to the second. */
  lemma RetryStands(cfg: Config, start: int, calls: seq<Call>, i: nat, j: nat)
    requires i < j < |calls| && OutcomeAt(cfg, start, calls, i).Denied?
    requires OutcomeAt(cfg, start, calls, j) != TableFull
    requires NoGrant(cfg, start, calls, i + 1, j, calls[i].key)
    ensures var run, p, q :=
        RunOf(cfg, start, calls[..j + 1]), Place(cfg, start, calls, i), Place(cfg, start, calls, j);
      && p < q < |run| && NoneGranted(run[p + 1..q], calls[i].key)
      && run[p] == Entry(calls[i], OutcomeAt(cfg, start, calls, i))
      && run[q] == Entry(calls[j], OutcomeAt(cfg, start, calls, j))
  {
    ServedStandsAtPlace(cfg, start, calls, i, j + 1);
    ServedStandsAtPlace(cfg, start, calls, j, j + 1);
    NothingGrantedBetween(cfg, start, calls, i, j);
  }

  lemma NothingGrantedBetween(cfg: Config, start: int, calls: seq<Call>, i: nat, j: nat)
    requires i < j < |calls| && OutcomeAt(cfg, start, calls, i).Denied?
    requires NoGrant(cfg, start, calls, i + 1, j, calls[i].key)
    ensures var run, p := RunOf(cfg, start, calls[..j]), Place(cfg, start, calls, i);
      p < |run| && NoneGranted(run[p + 1..], calls[i].key)
    ensures var run, p, q :=
        RunOf(cfg, start, calls[..j + 1]), Place(cfg, start, calls, i), Place(cfg, start, calls, j);
      p < q <= |run| && run[p + 1..q] == RunOf(cfg, start, calls[..j])[p + 1..]
  {
    NextState(cfg, start, calls, i);
    NoGrantInTranscript(cfg, start, calls, i + 1, j, calls[i].key);
    Prefixes(cfg, start, calls, j, j + 1);
  }

  lemma PrefixIsReferenceRun(cfg: Config, start: int, calls: seq<Call>, lag: int, i: nat, n: nat)
    requires cfg.perMinute > 0 && 0 <= lag <= MAX_LAG && WithinLag(calls, lag) && i < n <= |calls|
    requires OutcomeAt(cfg, start, calls, i).Denied?
    ensures var run, p := RunOf(cfg, start, calls[..n]), Place(cfg, start, calls, i);
      && IsReferenceRun(cfg.perMinute, map[], run)
      && p < |run| && Missing(cfg, start, calls, i) == TOKEN - BucketAt(cfg.perMinute, run, p).tokens
  {
    var prefix := calls[..n];
    PrefixWithinLag(calls, lag, n);
    EvictionIsInvisible(cfg, start, prefix, lag);
    assert prefix[..i] == calls[..i] && prefix[..i + 1] == calls[..i + 1];
    MissingIsReferences(cfg, start, prefix, lag, i);
  }

  // ---------------------------------------------------------------------------
  // A key that keeps calling keeps its bucket

  /** The l-th call is the last one for `key` before the m-th. */
  ghost predicate LastCall(calls: seq<Call>, l: nat, m: nat, key: string) {
    l < m <= |calls| && calls[l].key == key && forall k :: l < k < m ==> calls[k].key != key
  }

  /** From the i-th call up to n, the key's last call is never more than 61 s back. */
  ghost predicate KeepsCalling(calls: seq<Call>, i: nat, n: nat, key: string) {
    forall l: nat, m: nat :: i <= l < m < n && m < |calls| && LastCall(calls, l, m, key) ==>
      calls[m].now - calls[l].now <= FULL
  }

  lemma StepKeepsBucket(cfg: Config, s: State, c: Call, key: string)
    requires cfg.perMinute > 0 && key in s.buckets && c.now - s.buckets[key].last <= FULL
    ensures key in Swept(cfg, s, c).buckets && key in CheckStep(cfg, s, c).0.buckets
    ensures CheckStep(cfg, s, c).0.buckets[key].last == if c.key == key then c.now else s.buckets[key].last
  {
  }

  /** The key's bucket is there, with the reading of its last call. */
  ghost predicate HoldsLastCall(cfg: Config, start: int, calls: seq<Call>, l: nat, n: nat, key: string)
    requires n <= |calls|
  {
    && LastCall(calls, l, n, key)
    && key in StateAt(cfg, start, calls, n).buckets
    && StateAt(cfg, start, calls, n).buckets[key].last == calls[l].now
  }

  lemma NextHoldsLastCall(cfg: Config, start: int, calls: seq<Call>, l: nat, n: nat, key: string)
    requires cfg.perMinute > 0 && n < |calls| && HoldsLastCall(cfg, start, calls, l, n, key)
    requires calls[n].now - calls[l].now <= FULL
    ensures HoldsLastCall(cfg, start, calls, if calls[n].key == key then n else l, n + 1, key)
  {
    NextState(cfg, start, calls, n);
    StepKeepsBucket(cfg, StateAt(cfg, start, calls, n), calls[n], key);
  }

  lemma {:induction false} BucketStays(cfg: Config, start: int, calls: seq<Call>, i: nat, n: nat) returns (l: nat)
    requires cfg.perMinute > 0 && i < n <= |calls| && OutcomeAt(cfg, start, calls, i).Denied?
    requires KeepsCalling(calls, i, n, calls[i].key)
    ensures i <= l < n && HoldsLastCall(cfg, start, calls, l, n, calls[i].key)
    decreases n
  {
    var key := calls[i].key;
    if n == i + 1 {
      NextState(cfg, start, calls, i);
      l := i;
    } else {
      l := BucketStays(cfg, start, calls, i, n - 1);
      NextHoldsLastCall(cfg, start, calls, l, n - 1, key);
      l := if calls[n - 1].key == key then n - 1 else l;
    }
  }

  /** A client whose last call is never more than 61 s back, however long it goes on, is not
      refused for lack of room after a denial, so its wait is a promise without exception. */
  lemma SteadyClientIsServed(cfg: Config, start: int, calls: seq<Call>, lag: int, i: nat, j: nat)
    requires cfg.perMinute > 0 && 0 <= lag <= MAX_LAG && WithinLag(calls, lag) && i < j < |calls|
    requires OutcomeAt(cfg, start, calls, i).Denied? && calls[i].key == calls[j].key
    requires NoGrant(cfg, start, calls, i + 1, j, calls[i].key)
    requires KeepsCalling(calls, i, j + 1, calls[i].key)
    ensures var wait := OutcomeAt(cfg, start, calls, i).wait;
      var outcome, time := OutcomeAt(cfg, start, calls, j), calls[j].now - calls[i].now;
      (time < wait ==> outcome.Denied?) && (time > wait ==> outcome == Granted)
  {
    var l := BucketStays(cfg, start, calls, i, j);
    StepKeepsBucket(cfg, StateAt(cfg, start, calls, j), calls[j], calls[i].key);
    WaitIsTight(cfg, start, calls, lag, i, j);
  }
}
