/** At-most-once acceptance across retention: purging forgets event ids, but only of events
    that the 30-day window already refuses. */
module AnalyticsTheory {
  import opened Options
  import opened Analytics
  import opened Text

  /** The atomic steps of a run: an insert transaction with the reading its batch took, and
      one batch of a purge with the reading its cutoff was computed from.  A purge may remove
      any of the stale rows, so stopped purges and writers between batches are included. */
  datatype Step = Insert(events: seq<Event>, now: int) | PurgeBatch(now: int, gone: set<string>)

  const TWO_TO_64: int := 0x1_0000_0000_0000_0000

  /** Arithmetic on time.Duration, a signed 64-bit count of nanoseconds. */
  function Wrapped(n: int): int {
    (n + TWO_TO_64 / 2) % TWO_TO_64 - TWO_TO_64 / 2
  }

  /** What a purge adds to its reading: the negated days as a Duration. */
  function Offset(retentionDays: int): int {
    Wrapped(-retentionDays * (DAY_MS * MS))
  }

  /** How far back the cutoff lies, in whole milliseconds; negative when it lies ahead. */
  function Keeping(retentionDays: int): int {
    Millis(-Offset(retentionDays))
  }

  function Cutoff(now: int, retentionDays: int): int {
    Millis(now + Offset(retentionDays))
  }

  predicate Allowed(rows: Rows, step: Step, retentionDays: int) {
    step.PurgeBatch? ==>
      retentionDays > 0 && forall id :: id in step.gone ==> Stale(rows, id, Cutoff(step.now, retentionDays))
  }

  function Next(rows: Rows, step: Step): Rows {
    match step
    case Insert(events, now) => StoreAll(rows, AdmissibleEvents(events, now), Millis(now))
    case PurgeBatch(_, gone) => rows - gone
  }

  function AcceptedBy(rows: Rows, step: Step): seq<Event> {
    match step
    case Insert(events, now) => NewEvents(rows, AdmissibleEvents(events, now), Millis(now))
    case PurgeBatch(_, _) => []
  }

  ghost predicate IsRun(rows: Rows, steps: seq<Step>, retentionDays: int)
    decreases |steps|
  {
    steps == [] || (Allowed(rows, steps[0], retentionDays) && IsRun(Next(rows, steps[0]), steps[1..], retentionDays))
  }

  /** Every event the run counts as accepted, in order. */
  function Accepted(rows: Rows, steps: seq<Step>): seq<Event>
    decreases |steps|
  {
    if steps == [] then [] else AcceptedBy(rows, steps[0]) + Accepted(Next(rows, steps[0]), steps[1..])
  }

  /** An insert's reading is at most `lagMs` behind the reading of any purge before it;
      lag 0 holds when readings are taken in lock order on a nondecreasing clock. */
  ghost predicate Timely(steps: seq<Step>, lagMs: int) {
    forall i, j :: 0 <= i < j < |steps| && steps[i].PurgeBatch? && steps[j].Insert? ==>
      steps[i].now - lagMs * MS <= steps[j].now
  }

  type Pair = (string, int)

  function PairOf(e: Event): Pair { (e.eventId, e.eventTimeMs) }

  function Pairs(es: seq<Event>): set<Pair> {
    set e | e in es :: PairOf(e)
  }

  /** No (event_id, event_time_ms) pair is accepted twice. */
  ghost predicate AtMostOnce(es: seq<Event>) {
    forall i, j :: 0 <= i < j < |es| ==> PairOf(es[i]) != PairOf(es[j])
  }

  // ---------------------------------------------------------------------------
  // The invariant

  /** `floor` bounds the readings still to come, in milliseconds. */
  ghost predicate Remembered(rows: Rows, past: set<Pair>, floor: int) {
    && (forall p :: p in past ==>
          (p.0 in rows && rows[p.0].event.eventTimeMs == p.1) || p.1 < floor - 30 * DAY_MS)
    && (forall id :: id in rows ==> rows[id].event.eventTimeMs <= rows[id].createdAtMs + DAY_MS)
  }

  ghost predicate NoRepeat(es: seq<Event>, past: set<Pair>) {
    es == [] || (PairOf(es[0]) !in past && NoRepeat(es[1..], past + {PairOf(es[0])}))
  }

  lemma PairsCons(e: Event, es: seq<Event>)
    ensures Pairs([e] + es) == {PairOf(e)} + Pairs(es)
  {
  }

  lemma {:induction false} NoRepeatAppends(xs: seq<Event>, ys: seq<Event>, past: set<Pair>)
    requires NoRepeat(xs, past) && NoRepeat(ys, past + Pairs(xs))
    ensures NoRepeat(xs + ys, past)
    decreases |xs|
  {
    if xs == [] {
      assert xs + ys == ys && past + Pairs(xs) == past;
    } else {
      assert xs == [xs[0]] + xs[1..];
      PairsCons(xs[0], xs[1..]);
      assert past + Pairs(xs) == past + {PairOf(xs[0])} + Pairs(xs[1..]);
      assert (xs + ys)[1..] == xs[1..] + ys;
      NoRepeatAppends(xs[1..], ys, past + {PairOf(xs[0])});
    }
  }

  lemma {:induction false} NoRepeatIsAtMostOnce(es: seq<Event>, past: set<Pair>)
    requires NoRepeat(es, past)
    ensures AtMostOnce(es) && forall e :: e in es ==> PairOf(e) !in past
    decreases |es|
  {
    if es != [] {
      NoRepeatIsAtMostOnce(es[1..], past + {PairOf(es[0])});
      forall i, j | 0 <= i < j < |es|
        ensures PairOf(es[i]) != PairOf(es[j])
      {
        assert es[j] == es[1..][j - 1] && es[j] in es[1..];
        assert i > 0 ==> es[i] == es[1..][i - 1];
      }
      assert es == [es[0]] + es[1..];
    }
  }

  lemma MillisShift(t: int, days: int)
    ensures Millis(t + days * (DAY_MS * MS)) == Millis(t) + days * DAY_MS
  {
    var k := days * DAY_MS;
    assert days * (DAY_MS * MS) == k * MS;
    assert (t + k * MS) / MS == t / MS + k;
  }

  ghost predicate FitWindow(es: seq<Event>, atMs: int) {
    forall e :: e in es ==> atMs - 30 * DAY_MS <= e.eventTimeMs <= atMs + DAY_MS
  }

  lemma {:induction false} CollectedFrom<A, B>(f: A -> Option<B>, xs: seq<A>)
    ensures forall y :: y in Collect(f, xs) ==> exists x :: f(x) == Some(y)
    decreases |xs|
  {
    if xs != [] {
      CollectedFrom(f, xs[1..]);
    }
  }

  lemma AdmissibleFit(events: seq<Event>, now: int)
    ensures FitWindow(AdmissibleEvents(events, now), Millis(now))
  {
    CollectedFrom(Admission(now), events);
    MillisShift(now, -30);
    MillisShift(now, 1);
  }

  lemma {:induction false} BatchIsFresh(rows: Rows, es: seq<Event>, atMs: int, past: set<Pair>, floor: int)
    requires Remembered(rows, past, floor) && floor <= atMs && FitWindow(es, atMs)
    ensures NoRepeat(NewEvents(rows, es, atMs), past)
    ensures Remembered(StoreAll(rows, es, atMs), past + Pairs(NewEvents(rows, es, atMs)), floor)
    decreases |es|
  {
    if es == [] {
      assert past + Pairs([]) == past;
    } else {
      var e, rest := es[0], es[1..];
      var rows' := StoreOne(rows, e, atMs);
      var added := NewEvents(rows', rest, atMs);
      if e.eventId in rows {
        BatchIsFresh(rows', rest, atMs, past, floor);
        assert NewEvents(rows, es, atMs) == added;
      } else {
        var past' := past + {PairOf(e)};
        BatchIsFresh(rows', rest, atMs, past', floor);
        PairsCons(e, added);
        assert past + Pairs([e] + added) == past' + Pairs(added);
        assert ([e] + added)[1..] == added;
      }
    }
  }

  /** Milliseconds rounded down add up to at most the rounded sum, and to at least one less. */
  lemma MillisAdd(a: int, b: int)
    ensures Millis(a) + Millis(b) <= Millis(a + b) <= Millis(a) + Millis(b) + 1
  {
  }

  function Later(a: int, b: int): int { if a > b then a else b }

  /** What a purge forgets is out of the window for every reading still to come. */
  lemma PurgeForgetsExpired(rows: Rows, step: Step, retentionDays: int, lagMs: int, past: set<Pair>, floor: int)
    requires step.PurgeBatch? && Allowed(rows, step, retentionDays) && Remembered(rows, past, floor)
    requires Keeping(retentionDays) >= 31 * DAY_MS + lagMs
    ensures Remembered(Next(rows, step), past, Later(Millis(step.now) - lagMs, floor))
  {
    MillisAdd(step.now + Offset(retentionDays), -Offset(retentionDays));
  }

  ghost predicate FloorHolds(steps: seq<Step>, floor: int) {
    forall j :: 0 <= j < |steps| && steps[j].Insert? ==> floor <= Millis(steps[j].now)
  }

  lemma PurgeRaisesFloor(steps: seq<Step>, lagMs: int)
    requires steps != [] && Timely(steps, lagMs) && steps[0].PurgeBatch?
    ensures FloorHolds(steps[1..], Millis(steps[0].now) - lagMs)
  {
    forall j | 0 <= j < |steps[1..]| && steps[1..][j].Insert?
      ensures Millis(steps[0].now) - lagMs <= Millis(steps[1..][j].now)
    {
      assert steps[1..][j] == steps[j + 1];
      assert (steps[0].now - lagMs * MS) / MS == steps[0].now / MS - lagMs;
    }
  }

  lemma TimelyRest(steps: seq<Step>, lagMs: int)
    requires steps != [] && Timely(steps, lagMs)
    ensures Timely(steps[1..], lagMs)
  {
    forall i, j | 0 <= i < j < |steps[1..]| && steps[1..][i].PurgeBatch? && steps[1..][j].Insert?
      ensures steps[1..][i].now - lagMs * MS <= steps[1..][j].now
    {
      assert steps[1..][i] == steps[i + 1] && steps[1..][j] == steps[j + 1];
    }
  }

  lemma {:induction false} RunIsFresh(rows: Rows, steps: seq<Step>, retentionDays: int, lagMs: int,
                                      past: set<Pair>, floor: int)
    requires IsRun(rows, steps, retentionDays) && Timely(steps, lagMs)
    requires retentionDays <= 0 || Keeping(retentionDays) >= 31 * DAY_MS + lagMs
    requires Remembered(rows, past, floor) && FloorHolds(steps, floor)
    ensures NoRepeat(Accepted(rows, steps), past)
    decreases |steps|
  {
    if steps != [] {
      var step, rest := steps[0], steps[1..];
      var rows', added := Next(rows, step), AcceptedBy(rows, step);
      TimelyRest(steps, lagMs);
      assert FloorHolds(rest, floor) by {
        assert forall j :: 0 <= j < |rest| ==> rest[j] == steps[j + 1];
      }
      match step {
        case Insert(events, now) =>
          AdmissibleFit(events, now);
          BatchIsFresh(rows, AdmissibleEvents(events, now), Millis(now), past, floor);
          RunIsFresh(rows', rest, retentionDays, lagMs, past + Pairs(added), floor);
        case PurgeBatch(now, _) =>
          PurgeForgetsExpired(rows, step, retentionDays, lagMs, past, floor);
          PurgeRaisesFloor(steps, lagMs);
          var floor' := Later(Millis(now) - lagMs, floor);
          RunIsFresh(rows', rest, retentionDays, lagMs, past, floor');
          assert past + Pairs(added) == past;
      }
      NoRepeatAppends(added, Accepted(rows', rest), past);
    }
  }

  lemma {:induction false} SomeFloor(steps: seq<Step>) returns (floor: int)
    ensures FloorHolds(steps, floor)
    decreases |steps|
  {
    if steps == [] {
      floor := 0;
    } else {
      floor := SomeFloor(steps[1..]);
      assert forall j :: 0 < j < |steps| ==> steps[j] == steps[1..][j - 1];
      if steps[0].Insert? && Millis(steps[0].now) < floor {
        floor := Millis(steps[0].now);
      }
    }
  }

  /** With retention disabled, or of at least 31 days plus the clock lag, no run accepts a
      pair twice, however inserts and purge batches interleave. */
  lemma AcceptedAtMostOnce(steps: seq<Step>, retentionDays: int, lagMs: int)
    requires IsRun(map[], steps, retentionDays) && Timely(steps, lagMs)
    requires retentionDays <= 0 || Keeping(retentionDays) >= 31 * DAY_MS + lagMs
    ensures AtMostOnce(Accepted(map[], steps))
  {
    var floor := SomeFloor(steps);
    RunIsFresh(map[], steps, retentionDays, lagMs, {}, floor);
    NoRepeatIsAtMostOnce(Accepted(map[], steps), {});
  }

  // ---------------------------------------------------------------------------
  // The bound is exact

  const SAMPLE: Event :=
    Event("a", "n", "u", "s", "p", "v", "b", "l", "o", "g", "", DAY_MS, None, Encoded("{}"))

  /** An event as far ahead of the clock as allowed, purged as early as possible, sent again. */
  function Resubmission(retentionDays: int, lagMs: int): seq<Step> {
    var purge := Later(0, MS - Offset(retentionDays));
    [Insert([SAMPLE], 0), PurgeBatch(purge, {"a"}), Insert([SAMPLE], Later(0, purge - lagMs * MS))]
  }

  lemma SampleIsNormal()
    ensures NormalizeEvent(SAMPLE) == Some(SAMPLE)
  {
    assert Stripped(SAMPLE) == SAMPLE;
    assert Octets('{') == [0x7B] && Octets('}') == [0x7D];
    assert "{}"[1..] == "}" && "}"[1..] == "";
    assert Utf8("}") == [0x7D] + Utf8("");
    assert Utf8("{}") == [0x7B] + Utf8("}");
    assert WellFormed(SAMPLE);
  }

  lemma SampleInWindow(now: int)
    requires 0 <= Millis(now) <= 31 * DAY_MS
    ensures InWindow(DAY_MS, now)
  {
    MillisShift(now, -30);
    MillisShift(now, 1);
  }

  lemma CollectsOne<A, B>(f: A -> Option<B>, x: A, y: B)
    requires f(x) == Some(y)
    ensures Collect(f, [x]) == [y]
  {
    assert [x][1..] == [] && [y] + [] == [y];
  }

  lemma StoresOne(e: Event, atMs: int)
    ensures NewEvents(map[], [e], atMs) == [e]
    ensures StoreAll(map[], [e], atMs) == map[e.eventId := Row(e, atMs)]
  {
    assert [e][1..] == [] && [e] + [] == [e];
  }

  lemma SampleAdmissible(now: int)
    requires 0 <= Millis(now) <= 31 * DAY_MS
    ensures AdmissibleEvents([SAMPLE], now) == [SAMPLE]
  {
    SampleIsNormal();
    SampleInWindow(now);
    CollectsOne(Admission(now), SAMPLE, SAMPLE);
  }

  lemma SampleIsAccepted(now: int)
    requires 0 <= Millis(now) <= 31 * DAY_MS
    ensures AcceptedBy(map[], Insert([SAMPLE], now)) == [SAMPLE]
    ensures Next(map[], Insert([SAMPLE], now)) == map["a" := Row(SAMPLE, Millis(now))]
  {
    SampleAdmissible(now);
    StoresOne(SAMPLE, Millis(now));
  }

  lemma ResubmissionFits(retentionDays: int, lagMs: int)
    requires retentionDays > 0 && lagMs >= 0 && Keeping(retentionDays) < 31 * DAY_MS + lagMs
    ensures var steps := Resubmission(retentionDays, lagMs);
      && Timely(steps, lagMs)
      && 0 <= steps[0].now <= steps[1].now
      && 0 <= Millis(steps[2].now) <= 31 * DAY_MS
      && Cutoff(steps[1].now, retentionDays) >= 1
  {
    var offset := Offset(retentionDays);
    assert (MS - offset) / MS == (-offset) / MS + 1;
    assert (MS - offset - lagMs * MS) / MS == (MS - offset) / MS - lagMs;
  }

  lemma StepsUnfold(rows: Rows, a: Step, b: Step, c: Step, retentionDays: int)
    requires Allowed(rows, a, retentionDays) && Allowed(Next(rows, a), b, retentionDays)
    requires Allowed(Next(Next(rows, a), b), c, retentionDays)
    ensures IsRun(rows, [a, b, c], retentionDays)
    ensures Accepted(rows, [a, b, c]) ==
      AcceptedBy(rows, a) + (AcceptedBy(Next(rows, a), b) + AcceptedBy(Next(Next(rows, a), b), c))
  {
    assert [a, b, c][1..] == [b, c] && [b, c][1..] == [c] && [c][1..] == [];
    var rows'' := Next(Next(rows, a), b);
    assert IsRun(rows'', [c], retentionDays) && IsRun(Next(rows, a), [b, c], retentionDays);
    assert Accepted(rows'', [c]) == AcceptedBy(rows'', c);
    assert Accepted(Next(rows, a), [b, c]) == AcceptedBy(Next(rows, a), b) + Accepted(rows'', [c]);
  }

  lemma ShortRetentionRepeats(retentionDays: int, lagMs: int)
    requires retentionDays > 0 && lagMs >= 0 && Keeping(retentionDays) < 31 * DAY_MS + lagMs
    ensures var steps := Resubmission(retentionDays, lagMs);
      IsRun(map[], steps, retentionDays) && Timely(steps, lagMs) && !AtMostOnce(Accepted(map[], steps))
  {
    var steps := Resubmission(retentionDays, lagMs);
    var kept: Rows := map["a" := Row(SAMPLE, 0)];
    ResubmissionFits(retentionDays, lagMs);
    SampleIsAccepted(0);
    SampleIsAccepted(steps[2].now);
    assert Next(kept, steps[1]) == map[] && AcceptedBy(kept, steps[1]) == [];
    StepsUnfold(map[], steps[0], steps[1], steps[2], retentionDays);
    assert Accepted(map[], steps) == [SAMPLE, SAMPLE];
    assert PairOf([SAMPLE, SAMPLE][0]) == PairOf([SAMPLE, SAMPLE][1]);
  }

  /** Whether a retention setting rules out double acceptance in every run. */
  ghost predicate NeverRepeats(retentionDays: int, lagMs: int) {
    forall steps :: IsRun(map[], steps, retentionDays) && Timely(steps, lagMs) ==> AtMostOnce(Accepted(map[], steps))
  }

  /** With the retention as the code computes it: exactly when it is disabled, or reaches back
      at least 31 days plus the clock lag. */
  lemma SafeRetentionIsExact(retentionDays: int, lagMs: int)
    requires lagMs >= 0
    ensures NeverRepeats(retentionDays, lagMs)
            <==> retentionDays <= 0 || Keeping(retentionDays) >= 31 * DAY_MS + lagMs
  {
    if retentionDays <= 0 || Keeping(retentionDays) >= 31 * DAY_MS + lagMs {
      forall steps | IsRun(map[], steps, retentionDays) && Timely(steps, lagMs)
        ensures AtMostOnce(Accepted(map[], steps))
      {
        AcceptedAtMostOnce(steps, retentionDays, lagMs);
      }
    } else {
      ShortRetentionRepeats(retentionDays, lagMs);
    }
  }

  // ---------------------------------------------------------------------------
  // Days that fit a Duration, and days that do not

  /** The most days whose nanoseconds fit 64 bits. */
  const MAX_DAYS: int := 106_751

  lemma FittingDays(days: int)
    requires 0 <= days <= MAX_DAYS
    ensures Offset(days) == -days * (DAY_MS * MS) && Keeping(days) == days * DAY_MS
  {
    assert (days * DAY_MS) * MS == days * (DAY_MS * MS);
  }

  /** The retention in days, as long as they fit. */
  lemma SafeDays(days: int, lagMs: int)
    requires days <= MAX_DAYS && lagMs >= 0
    ensures NeverRepeats(days, lagMs) <==> days <= 0 || days * DAY_MS >= 31 * DAY_MS + lagMs
  {
    SafeRetentionIsExact(days, lagMs);
    if days > 0 {
      FittingDays(days);
    }
  }

  /** From there on the offset wraps: the cutoff lies ahead of the clock for up to twice as
      many days, so every stored row is stale and every event can be accepted again. */
  lemma WrappedDaysRepeat(days: int, lagMs: int)
    requires MAX_DAYS < days <= 2 * MAX_DAYS && lagMs >= 0
    ensures Offset(days) > 0 && !NeverRepeats(days, lagMs)
    ensures forall rows: Rows, id, now :: id in rows && rows[id].createdAtMs < Millis(now) ==>
      Stale(rows, id, Cutoff(now, days))
  {
    var ns := days * (DAY_MS * MS);
    assert TWO_TO_64 / 2 < ns < TWO_TO_64;
    assert Offset(days) == TWO_TO_64 - ns;
    SafeRetentionIsExact(days, lagMs);
    forall now: int
      ensures Millis(now) <= Cutoff(now, days)
    {
      MillisAdd(now, Offset(days));
    }
  }
}
