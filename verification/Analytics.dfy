/** Event ingestion and retention of internal/analytics/service.go.  Readings of the clock are
    nanoseconds; what is stored are milliseconds, rounded down as UnixMilli does. */
module Analytics {
  import opened Options
  import opened Text

  const MAX_BATCH: nat := 100
  const MAX_ID: nat := 128
  const MAX_NAME: nat := 64
  const MAX_SHORT: nat := 32
  const MAX_PARAMS: nat := 16384
  const DAY_MS: int := 86_400_000
  const MS: int := 1_000_000  // nanoseconds

  /** The params map: absent, its JSON text, or a value json.Marshal refuses. */
  datatype Params = NoParams | Encoded(json: string) | Unencodable

  datatype Event = Event(
    eventId: string, eventName: string, userId: string, sessionId: string, platform: string,
    appVersion: string, build: string, systemLanguage: string, systemLocale: string,
    appLanguage: string, pageName: string,
    eventTimeMs: int, durationMs: Option<int>, params: Params)

  datatype Row = Row(event: Event, createdAtMs: int)

  /** The table by its unique event_id. */
  type Rows = map<string, Row>

  function Millis(t: int): int { t / MS }

  // ---------------------------------------------------------------------------
  // Validation

  function Stripped(e: Event): Event {
    e.(eventId := TrimSpace(e.eventId), eventName := TrimSpace(e.eventName), userId := TrimSpace(e.userId),
       sessionId := TrimSpace(e.sessionId), platform := TrimSpace(e.platform),
       appVersion := TrimSpace(e.appVersion), build := TrimSpace(e.build),
       systemLanguage := TrimSpace(e.systemLanguage), systemLocale := TrimSpace(e.systemLocale),
       appLanguage := TrimSpace(e.appLanguage), pageName := TrimSpace(e.pageName),
       params := if e.params.NoParams? then Encoded("{}") else e.params)
  }

  predicate Between(s: string, lo: nat, hi: nat) {
    lo <= |s| <= hi
  }

  /** The checks on a trimmed event: required fields, length limits in runes, ranges. */
  predicate WellFormed(e: Event) {
    && Between(e.eventId, 1, MAX_ID) && Between(e.userId, 1, MAX_ID) && Between(e.sessionId, 1, MAX_ID)
    && Between(e.eventName, 1, MAX_NAME) && Between(e.pageName, 0, MAX_NAME)
    && Between(e.platform, 1, MAX_SHORT) && Between(e.appVersion, 1, MAX_SHORT) && Between(e.build, 1, MAX_SHORT)
    && Between(e.systemLanguage, 1, MAX_SHORT) && Between(e.systemLocale, 1, MAX_SHORT)
    && Between(e.appLanguage, 1, MAX_SHORT)
    && e.eventTimeMs > 0
    && (e.durationMs.Some? ==> e.durationMs.value >= 0)
    && e.params.Encoded? && |Utf8(e.params.json)| <= MAX_PARAMS
  }

  function NormalizeEvent(e: Event): Option<Event> {
    if WellFormed(Stripped(e)) then Some(Stripped(e)) else None
  }

  /** A normalized event is a fixed point of normalization. */
  lemma NormalizeIdempotent(e: Event)
    ensures NormalizeEvent(e).Some? ==> NormalizeEvent(NormalizeEvent(e).value) == NormalizeEvent(e)
  {
    TrimIdempotent(e.eventId);
    TrimIdempotent(e.eventName);
    TrimIdempotent(e.userId);
    TrimIdempotent(e.sessionId);
    TrimIdempotent(e.platform);
    TrimIdempotent(e.appVersion);
    TrimIdempotent(e.build);
    TrimIdempotent(e.systemLanguage);
    TrimIdempotent(e.systemLocale);
    TrimIdempotent(e.appLanguage);
    TrimIdempotent(e.pageName);
  }

  /** A normalized event is the sender's, every text without outer white space, and an empty JSON
      object where no params were sent. */
  lemma NormalizedFields(e: Event)
    requires NormalizeEvent(e).Some?
    ensures var n := NormalizeEvent(e).value;
      && n.eventId == TrimSpace(e.eventId) && n.eventName == TrimSpace(e.eventName)
      && n.userId == TrimSpace(e.userId) && n.sessionId == TrimSpace(e.sessionId)
      && n.platform == TrimSpace(e.platform) && n.appVersion == TrimSpace(e.appVersion)
      && n.build == TrimSpace(e.build) && n.systemLanguage == TrimSpace(e.systemLanguage)
      && n.systemLocale == TrimSpace(e.systemLocale) && n.appLanguage == TrimSpace(e.appLanguage)
      && n.pageName == TrimSpace(e.pageName) && n.eventTimeMs == e.eventTimeMs && n.durationMs == e.durationMs
      && n.params == if e.params.NoParams? then Encoded("{}") else e.params
  {
  }

  /** Which events are refused: a required text that is blank, a text that is too long, a time
      that is not positive, a negative duration, params that cannot be encoded or are too large. */
  lemma RefusedEvents(e: Event)
    ensures NormalizeEvent(e).None? <==>
      || TrimSpace(e.eventId) == "" || TrimSpace(e.eventName) == "" || TrimSpace(e.userId) == ""
      || TrimSpace(e.sessionId) == "" || TrimSpace(e.platform) == "" || TrimSpace(e.appVersion) == ""
      || TrimSpace(e.build) == "" || TrimSpace(e.systemLanguage) == "" || TrimSpace(e.systemLocale) == ""
      || TrimSpace(e.appLanguage) == ""
      || |TrimSpace(e.eventId)| > 128 || |TrimSpace(e.userId)| > 128 || |TrimSpace(e.sessionId)| > 128
      || |TrimSpace(e.eventName)| > 64 || |TrimSpace(e.pageName)| > 64
      || |TrimSpace(e.platform)| > 32 || |TrimSpace(e.appVersion)| > 32 || |TrimSpace(e.build)| > 32
      || |TrimSpace(e.systemLanguage)| > 32 || |TrimSpace(e.systemLocale)| > 32 || |TrimSpace(e.appLanguage)| > 32
      || e.eventTimeMs <= 0 || (e.durationMs.Some? && e.durationMs.value < 0)
      || e.params.Unencodable? || (e.params.Encoded? && |Utf8(e.params.json)| > 16384)
  {
    assert Utf8("{}") == [123, 125] by {
      assert "{}"[1..] == "}" && "}"[1..] == "";
    }
  }

  /** Events no older than 30 days and no more than a day ahead of the server. */
  predicate InWindow(timeMs: int, now: int) {
    Millis(now - 30 * DAY_MS * MS) <= timeMs <= Millis(now + DAY_MS * MS)
  }

  // ---------------------------------------------------------------------------
  // Batches and purges

  /** The event as it is stored, when it is well formed and in the window. */
  function Admit(e: Event, now: int): Option<Event> {
    var normalized := NormalizeEvent(e);
    if normalized.Some? && InWindow(normalized.value.eventTimeMs, now) then normalized else None
  }

  /** The window in figures: in milliseconds, rounded down, from 30 days before to a day after. */
  lemma AdmitsWindow(e: Event, now: int)
    ensures Admit(e, now) ==
      if NormalizeEvent(e).Some? && (now - 2_592_000_000_000_000) / 1_000_000 <= e.eventTimeMs
         && e.eventTimeMs <= (now + 86_400_000_000_000) / 1_000_000 then NormalizeEvent(e) else None
  {
  }

  function Admission(now: int): Event -> Option<Event> {
    e => Admit(e, now)
  }

  function Collect<A, B>(f: A -> Option<B>, xs: seq<A>): seq<B> {
    if xs == [] then []
    else (if f(xs[0]).None? then [] else [f(xs[0]).value]) + Collect(f, xs[1..])
  }

  function AdmissibleEvents(events: seq<Event>, now: int): seq<Event> {
    Collect(Admission(now), events)
  }

  /** INSERT ... ON CONFLICT(event_id) DO NOTHING. */
  function StoreOne(rows: Rows, e: Event, createdAtMs: int): Rows {
    if e.eventId in rows then rows else rows[e.eventId := Row(e, createdAtMs)]
  }

  function StoreAll(rows: Rows, es: seq<Event>, createdAtMs: int): Rows
    decreases |es|
  {
    if es == [] then rows else StoreAll(StoreOne(rows, es[0], createdAtMs), es[1..], createdAtMs)
  }

  /** The events of a batch that are stored, in order: those whose id is new. */
  function NewEvents(rows: Rows, es: seq<Event>, createdAtMs: int): seq<Event>
    decreases |es|
  {
    if es == [] then []
    else (if es[0].eventId in rows then [] else [es[0]])
         + NewEvents(StoreOne(rows, es[0], createdAtMs), es[1..], createdAtMs)
  }

  predicate Stale(rows: Rows, id: string, cutoffMs: int) {
    id in rows && rows[id].createdAtMs < cutoffMs
  }

  function Kept(rows: Rows, cutoffMs: int): Rows {
    map id | id in rows && rows[id].createdAtMs >= cutoffMs :: rows[id]
  }

  lemma {:induction false} StoreAppends(rows: Rows, es: seq<Event>, e: Event, at: int)
    ensures StoreAll(rows, es + [e], at) == StoreOne(StoreAll(rows, es, at), e, at)
    ensures NewEvents(rows, es + [e], at) ==
            NewEvents(rows, es, at) + (if e.eventId in StoreAll(rows, es, at) then [] else [e])
    decreases |es|
  {
    if es == [] {
      assert es + [e] == [e] && [e][1..] == [];
    } else {
      assert (es + [e])[1..] == es[1..] + [e];
      StoreAppends(StoreOne(rows, es[0], at), es[1..], e, at);
    }
  }

  lemma {:induction false} CollectAppends<A, B>(f: A -> Option<B>, xs: seq<A>, x: A)
    ensures Collect(f, xs + [x]) == Collect(f, xs) + (if f(x).None? then [] else [f(x).value])
    ensures Collect(f, []) == []
    decreases |xs|
  {
    if xs == [] {
      assert xs + [x] == [x] && [x][1..] == [];
    } else {
      assert (xs + [x])[1..] == xs[1..] + [x];
      CollectAppends(f, xs[1..], x);
    }
  }

  /** What a transaction leaves under each id: the row that was there, or else the first event of
      the batch with that id; as many rows are added as events are new. */
  lemma {:induction false} StoredById(rows: Rows, es: seq<Event>, at: int, id: string, k: nat)
    ensures var after := StoreAll(rows, es, at);
      && (id in after <==> id in rows || exists i :: 0 <= i < |es| && es[i].eventId == id)
      && (id in rows ==> after[id] == rows[id])
      && (id !in rows && k < |es| && es[k].eventId == id && (forall i :: 0 <= i < k ==> es[i].eventId != id) ==>
            after[id] == Row(es[k], at))
      && |NewEvents(rows, es, at)| == |after| - |rows|
    decreases |es|
  {
    if es != [] {
      var n := |es| - 1;
      var rest, e := es[..n], es[n];
      StoredById(rows, rest, at, id, k);
      StoreAppends(rows, rest, e, at);
      assert es == rest + [e];
    }
  }

  datatype Result = Counted(accepted: nat, rejected: nat) | Invalid | Failed

  /** Whether a transaction of `inserts` inserts and a commit meets the failing statement. */
  predicate Strikes(failsAt: Option<nat>, inserts: nat) {
    failsAt.Some? && failsAt.value <= inserts
  }

  class Service {
    var rows: Rows

    constructor ()
      ensures rows == map[]
    {
      rows := map[];
    }

    /** One batch at reading `now`.  `failsAt` is the statement the database refuses, if any:
        statement i is the i-th insert, the one after the last insert is the commit. */
    method InsertBatch(events: seq<Event>, now: int, failsAt: Option<nat>) returns (res: Result)
      modifies this
      ensures res == Invalid <==> events == [] || |events| > 100
      ensures !res.Counted? ==> rows == old(rows)
      ensures res.Failed? <==>
        var es := AdmissibleEvents(events, now);
        events != [] && |events| <= 100 && es != [] && Strikes(failsAt, |es|)
      ensures res.Counted? ==>
        var es := AdmissibleEvents(events, now);
        && rows == StoreAll(old(rows), es, Millis(now))
        && res.accepted == |NewEvents(old(rows), es, Millis(now))| == |rows| - |old(rows)|
        && res.rejected == |events| - |es|
    {
      if |events| == 0 || |events| > MAX_BATCH {
        return Invalid;
      }
      var valid, rejected := Sift(events, Admission(now));
      StoredById(rows, valid, Millis(now), "", 0);
      if |valid| == 0 {
        return Counted(0, rejected);
      }
      var accepted, ok := StoreBatch(valid, Millis(now), failsAt);
      return if ok then Counted(accepted, rejected) else Failed;
    }

    /** The transaction: every statement, or none. */
    method StoreBatch(valid: seq<Event>, nowMs: int, failsAt: Option<nat>) returns (accepted: nat, ok: bool)
      modifies this
      ensures ok ==> rows == StoreAll(old(rows), valid, nowMs) && accepted == |NewEvents(old(rows), valid, nowMs)|
      ensures !ok ==> rows == old(rows)
      ensures ok <==> !Strikes(failsAt, |valid|)
    {
      var before := rows;
      accepted := 0;
      assert valid[..0] == [];
      for i := 0 to |valid|
        invariant rows == StoreAll(before, valid[..i], nowMs)
        invariant accepted == |NewEvents(before, valid[..i], nowMs)|
        invariant failsAt.Some? ==> failsAt.value >= i
      {
        if failsAt == Some(i) {
          rows := before;
          return 0, false;
        }
        StoreAppends(before, valid[..i], valid[i], nowMs);
        assert valid[..i + 1] == valid[..i] + [valid[i]];
        if valid[i].eventId !in rows {
          rows := rows[valid[i].eventId := Row(valid[i], nowMs)];
          accepted := accepted + 1;
        }
      }
      assert valid[..|valid|] == valid;
      if failsAt == Some(|valid|) {
        rows := before;
        return 0, false;
      }
      return accepted, true;
    }

    method Sift(events: seq<Event>, admit: Event -> Option<Event>) returns (valid: seq<Event>, rejected: nat)
      ensures valid == Collect(admit, events) && rejected + |valid| == |events|
    {
      valid, rejected := [], 0;
      assert events[..0] == [];
      for i := 0 to |events|
        invariant valid == Collect(admit, events[..i]) && rejected + |valid| == i
      {
        CollectAppends(admit, events[..i], events[i]);
        assert events[..i + 1] == events[..i] + [events[i]];
        var event := admit(events[i]);
        if event.None? {
          rejected := rejected + 1;
        } else {
          valid := valid + [event.value];
        }
      }
      assert events[..|events|] == events;
    }

    /** SELECT id ... WHERE created_at_ms < cutoff LIMIT size, in no particular order. */
    method Select(cutoffMs: int, size: nat) returns (ids: set<string>)
      ensures |ids| <= size && forall id :: id in ids ==> Stale(rows, id, cutoffMs)
      ensures |ids| < size ==> forall id :: Stale(rows, id, cutoffMs) ==> id in ids
    {
      ids := {};
      var todo := rows.Keys;
      while todo != {} && |ids| < size
        invariant todo <= rows.Keys && |ids| <= size
        invariant forall id :: id in ids ==> Stale(rows, id, cutoffMs)
        invariant forall id :: Stale(rows, id, cutoffMs) ==> id in ids || id in todo
        decreases todo
      {
        var id :| id in todo;
        if rows[id].createdAtMs < cutoffMs {
          ids := ids + {id};
        }
        todo := todo - {id};
      }
    }

    /** One DELETE statement. */
    method DeleteBatch(cutoffMs: int, size: nat) returns (n: nat)
      modifies this
      ensures PurgedFrom(old(rows), rows, cutoffMs) && n == |old(rows)| - |rows| <= size
      ensures n < size ==> rows == Kept(old(rows), cutoffMs)
    {
      var ids := Select(cutoffMs, size);
      CountWithout(rows, ids);
      n := |ids|;
      rows := rows - ids;
    }

    /** Batched purge.  `fails(i)` says that the statement of batch i fails, `cancelled(i)` that
        the pause after it ends in cancellation; an unstopped purge removes exactly the stale rows. */
    method PurgeOlderThan(cutoffMs: int, batchSize: int, fails: nat -> bool, cancelled: nat -> bool)
      returns (total: nat, done: bool)
      modifies this
      ensures PurgedFrom(old(rows), rows, cutoffMs) && total == |old(rows)| - |rows|
      ensures forall id :: id in rows ==> id in old(rows) && rows[id] == old(rows)[id]
      ensures forall id :: id in old(rows) && old(rows)[id].createdAtMs >= cutoffMs ==> id in rows
      ensures done ==> rows == Kept(old(rows), cutoffMs) && forall id :: id in rows ==> rows[id].createdAtMs >= cutoffMs
      ensures !done ==> exists i :: fails(i) || cancelled(i)
    {
      var size: nat := if batchSize <= 0 then 5000 else batchSize;
      ghost var before := rows;
      var batch := 0;
      total := 0;
      while true
        invariant PurgedFrom(before, rows, cutoffMs) && total == |before| - |rows|
        decreases |rows|
      {
        if fails(batch) {
          return total, false;
        }
        ghost var now := rows;
        var n := DeleteBatch(cutoffMs, size);
        PurgesCompose(before, now, rows, cutoffMs);
        total := total + n;
        if n < size {
          return total, true;
        }
        if cancelled(batch) {
          return total, false;
        }
        batch := batch + 1;
      }
    }
  }

  /** Only stale rows are gone and nothing else changed. */
  ghost predicate PurgedFrom(before: Rows, after: Rows, cutoffMs: int) {
    && after.Keys <= before.Keys
    && (forall id :: id in after ==> after[id] == before[id])
    && (forall id :: id in before && !Stale(before, id, cutoffMs) ==> id in after)
  }

  lemma PurgesCompose(a: Rows, b: Rows, c: Rows, cutoffMs: int)
    requires PurgedFrom(a, b, cutoffMs) && PurgedFrom(b, c, cutoffMs)
    ensures PurgedFrom(a, c, cutoffMs)
    ensures c == Kept(b, cutoffMs) ==> c == Kept(a, cutoffMs)
  {
  }

  lemma CountWithout(rows: Rows, ids: set<string>)
    requires ids <= rows.Keys
    ensures |rows - ids| == |rows| - |ids|
  {
    assert (rows - ids).Keys == rows.Keys - ids;
  }
}
