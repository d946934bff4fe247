/** The per-key token-bucket limiter of internal/ratelimit/ratelimit.go, in exact arithmetic.

    Time is a nanosecond count.  A token is TOKEN = 60 * 10^9 units, so a limiter of
    `perMinute` refills `perMinute` units per nanosecond and every quantity is an integer.
    The clock is read before the lock is taken, so readings may reach the limiter out of
    order; nothing below assumes an ordered clock unless it says so. */
module RateLimit {

  const SECOND: int := 1_000_000_000
  const TOKEN: int := 60 * SECOND
  const SWEEP_EVERY: int := 600 * SECOND
  // capacity / perSecond is 60 s whatever the rate; the sweep adds one second of slack
  const FULL: int := 61 * SECOND

  /** The largest clock lag for which eviction is invisible: half of the sweep's slack. */
  const MAX_LAG: int := 500_000_000

  datatype Bucket = Bucket(tokens: int, last: int)
  datatype Config = Config(perMinute: int, maxKeys: int)
  datatype State = State(buckets: map<string, Bucket>, lastSweep: int)
  datatype Call = Call(key: string, now: int)
  datatype Outcome = Granted | Denied(wait: int) | TableFull

  function Max(a: int, b: int): int { if a < b then b else a }

  function Capacity(rate: int): int { rate * TOKEN }

  function Refilled(rate: int, b: Bucket, now: int): int {
    var t := b.tokens + rate * (now - b.last);
    if t < Capacity(rate) then t else Capacity(rate)
  }

  function Take(rate: int, b: Bucket, now: int): (Bucket, Outcome)
    requires rate > 0
  {
    var t := Refilled(rate, b, now);
    if t < TOKEN then (Bucket(t, now), Denied((TOKEN - t) / rate)) else (Bucket(t - TOKEN, now), Granted)
  }

  function Sweep(s: State, now: int): State {
    State(map k | k in s.buckets && now - s.buckets[k].last <= FULL :: s.buckets[k], now)
  }

  function PeriodicSweep(s: State, now: int): State {
    if now - s.lastSweep > SWEEP_EVERY then Sweep(s, now) else s
  }

  predicate Crowded(cfg: Config, s: State, key: string) {
    key !in s.buckets && |s.buckets| >= cfg.maxKeys
  }

  /** The table after the sweeps one call performs: the periodic one, then one for room. */
  function Swept(cfg: Config, s: State, c: Call): State {
    var s1 := PeriodicSweep(s, c.now);
    if Crowded(cfg, s1, c.key) then Sweep(s1, c.now) else s1
  }

  /** What one call does after its sweeps. */
  function Serve(cfg: Config, s: State, c: Call): (State, Outcome)
    requires cfg.perMinute > 0
  {
    if Crowded(cfg, s, c.key) then (s, TableFull)
    else
      var b := if c.key in s.buckets then s.buckets[c.key] else Bucket(Capacity(cfg.perMinute), c.now);
      var (b', o) := Take(cfg.perMinute, b, c.now);
      (s.(buckets := s.buckets[c.key := b']), o)
  }

  /** One call of Check. */
  function CheckStep(cfg: Config, s: State, c: Call): (State, Outcome) {
    if cfg.perMinute <= 0 then (s, Granted) else Serve(cfg, Swept(cfg, s, c), c)
  }

  /** One call decided in figures.  A key keeps its bucket unless a sweep finds it idle for more
      than 61 s, and is then refilled for the time since its last call, up to the capacity; a
      token is 60 * 10^9 units.  Any other key gets a full bucket, if there is room for it. */
  lemma CheckDecides(cfg: Config, s: State, c: Call)
    requires cfg.perMinute > 0
    ensures var (s', o) := CheckStep(cfg, s, c);
      if c.key in s.buckets
         && (c.now - s.buckets[c.key].last <= 61_000_000_000 || c.now - s.lastSweep <= 600_000_000_000) then
        var refilled := s.buckets[c.key].tokens + cfg.perMinute * (c.now - s.buckets[c.key].last);
        var have := if refilled < cfg.perMinute * 60_000_000_000 then refilled else cfg.perMinute * 60_000_000_000;
        && c.key in s'.buckets && s'.buckets[c.key].last == c.now
        && if have >= 60_000_000_000 then o == Granted && s'.buckets[c.key].tokens == have - 60_000_000_000
           else o.Denied? && s'.buckets[c.key].tokens == have && o.wait >= 0
                && cfg.perMinute * o.wait <= 60_000_000_000 - have < cfg.perMinute * (o.wait + 1)
      else if o == Granted then
        && c.key in s'.buckets && |s'.buckets| <= cfg.maxKeys
        && s'.buckets[c.key] == Bucket((cfg.perMinute - 1) * 60_000_000_000, c.now)
      else o == TableFull && c.key !in s'.buckets && |s'.buckets| >= cfg.maxKeys
  {
    var (s', o) := CheckStep(cfg, s, c);
    var s2 := Swept(cfg, s, c);
    if c.key in s2.buckets {
      var t := Refilled(cfg.perMinute, s.buckets[c.key], c.now);
      if t < TOKEN {
        QuotientFits(TOKEN - t, cfg.perMinute);
      }
    } else if !Crowded(cfg, s2, c.key) {
      assert s'.buckets.Keys == s2.buckets.Keys + {c.key};
      assert |s'.buckets.Keys| == |s2.buckets.Keys| + 1;
      CapacityCovers(cfg.perMinute);
    }
  }

  /** The same of what the caller is told. */
  lemma AnswerDecided(cfg: Config, s: State, c: Call, s': State, ok: bool, wait: int)
    requires cfg.perMinute > 0 && s' == CheckStep(cfg, s, c).0
    requires var o := CheckStep(cfg, s, c).1;
      if o == Granted then ok && wait == 0
      else !ok && (o == Denied(wait) || (o == TableFull && wait == 60_000_000_000))
    ensures
      if c.key in s.buckets
         && (c.now - s.buckets[c.key].last <= 61_000_000_000 || c.now - s.lastSweep <= 600_000_000_000) then
        var refilled := s.buckets[c.key].tokens + cfg.perMinute * (c.now - s.buckets[c.key].last);
        var have := if refilled < cfg.perMinute * 60_000_000_000 then refilled else cfg.perMinute * 60_000_000_000;
        && c.key in s'.buckets && s'.buckets[c.key].last == c.now
        && (ok <==> have >= 60_000_000_000)
        && s'.buckets[c.key].tokens == (if ok then have - 60_000_000_000 else have)
        && if ok then wait == 0 else cfg.perMinute * wait <= 60_000_000_000 - have < cfg.perMinute * (wait + 1)
      else if ok then
        && wait == 0 && c.key in s'.buckets && |s'.buckets| <= cfg.maxKeys
        && s'.buckets[c.key] == Bucket((cfg.perMinute - 1) * 60_000_000_000, c.now)
      else wait == 60_000_000_000 && c.key !in s'.buckets && |s'.buckets| >= cfg.maxKeys
  {
    CheckDecides(cfg, s, c);
  }

  lemma QuotientFits(n: int, d: int)
    requires n > 0 && d > 0
    ensures n / d >= 0 && d * (n / d) <= n < d * (n / d + 1)
  {
    assert n == d * (n / d) + n % d;
  }

  lemma CapacityCovers(rate: int)
    requires rate > 0
    ensures Capacity(rate) >= TOKEN && Capacity(rate) - TOKEN == (rate - 1) * 60_000_000_000
  {
  }

  /** The other keys: a call sweeps after ten minutes without a sweep, or when a new key meets a
      full table; a sweep drops what was idle for more than 61 s, and nothing else is touched. */
  lemma CheckSparesOthers(cfg: Config, s: State, c: Call)
    requires cfg.perMinute > 0
    ensures var s' := CheckStep(cfg, s, c).0;
      var sweeps := c.now - s.lastSweep > 600_000_000_000 || (c.key !in s.buckets && |s.buckets| >= cfg.maxKeys);
      && s'.lastSweep == (if sweeps then c.now else s.lastSweep)
      && (forall k :: k in s'.buckets && k != c.key ==> k in s.buckets && s'.buckets[k] == s.buckets[k])
      && (forall k :: k in s.buckets && k != c.key ==>
            (k in s'.buckets <==> !(sweeps && c.now - s.buckets[k].last > 61_000_000_000)))
  {
  }

  // ---------------------------------------------------------------------------
  // The imperative limiter

  class BucketCell {
    var tokens: int
    var last: int

    constructor (tokens: int, last: int)
      ensures this.tokens == tokens && this.last == last
    {
      this.tokens, this.last := tokens, last;
    }
  }

  class Limiter {
    const perMinute: int
    var maxKeys: int
    var buckets: map<string, BucketCell>
    var lastSweep: int

    /** No two keys share a bucket. */
    ghost predicate Valid()
      reads this
    {
      forall k, l :: k in buckets && l in buckets && k != l ==> buckets[k] != buckets[l]
    }

    ghost function View(): State
      reads this, buckets.Values
    {
      State(map k | k in buckets :: Bucket(buckets[k].tokens, buckets[k].last), lastSweep)
    }

    ghost function Settings(): Config
      reads this
    {
      Config(perMinute, maxKeys)
    }

    constructor (perMinute: int, maxKeys: int, now: int)
      ensures Valid() && View() == State(map[], now) && Settings() == Config(perMinute, maxKeys)
      ensures buckets == map[] && lastSweep == now
    {
      this.perMinute, this.maxKeys := perMinute, maxKeys;
      buckets, lastSweep := map[], now;
    }

    method SweepLocked(now: int)
      requires Valid()
      modifies this`buckets, this`lastSweep
      ensures Valid() && buckets.Values <= old(buckets.Values)
      ensures View() == Sweep(old(View()), now)
    {
      ghost var before := buckets;
      var todo := buckets.Keys;
      while todo != {}
        invariant todo <= before.Keys
        invariant buckets.Keys <= before.Keys
        invariant forall k :: k in buckets ==> buckets[k] == before[k]
        invariant forall k :: k in before && k in todo ==> k in buckets
        invariant forall k :: k in before && k !in todo ==> (k in buckets <==> now - before[k].last <= FULL)
        decreases todo
      {
        var k :| k in todo;
        if now - buckets[k].last > FULL {
          buckets := buckets - {k};
        }
        todo := todo - {k};
      }
      lastSweep := now;
    }

    /** The sweeps of one call: the periodic one, then one to make room for a new key. */
    method MakeRoom(key: string, now: int)
      requires Valid()
      modifies this`buckets, this`lastSweep
      ensures Valid() && buckets.Values <= old(buckets.Values)
      ensures View() == Swept(Settings(), old(View()), Call(key, now))
    {
      if now - lastSweep > SWEEP_EVERY {
        SweepLocked(now);
      }
      ViewSize();
      if key !in buckets && |buckets| >= maxKeys {
        SweepLocked(now);
      }
    }

    /** Refill the bucket of a present key and take one token from it. */
    method TakeToken(key: string, now: int) returns (ok: bool, wait: int)
      requires Valid() && key in buckets && perMinute > 0
      modifies buckets[key]
      ensures var (b, o) := Take(perMinute, old(View()).buckets[key], now);
        && View() == old(View()).(buckets := old(View()).buckets[key := b])
        && if o == Granted then ok && wait == 0 else !ok && o == Denied(wait)
    {
      var b := buckets[key];
      var t := b.tokens + perMinute * (now - b.last);
      b.tokens := if t < Capacity(perMinute) then t else Capacity(perMinute);
      b.last := now;
      if b.tokens < TOKEN {
        ok, wait := false, (TOKEN - b.tokens) / perMinute;
      } else {
        b.tokens := b.tokens - TOKEN;
        ok, wait := true, 0;
      }
    }

    method Check(key: string, now: int) returns (ok: bool, wait: int)
      requires Valid()
      modifies this`buckets, this`lastSweep, buckets.Values
      ensures Valid() && fresh(buckets.Values - old(buckets.Values))
      ensures View() == CheckStep(Settings(), old(View()), Call(key, now)).0
      ensures var o := CheckStep(Settings(), old(View()), Call(key, now)).1;
        if o == Granted then ok && wait == 0
        else !ok && (o == Denied(wait) || (o == TableFull && wait == 60_000_000_000))
      ensures perMinute <= 0 ==> ok && wait == 0 && View() == old(View())
      ensures perMinute > 0 ==>
        if key in old(buckets)
           && (now - old(buckets[key].last) <= 61_000_000_000 || now - old(lastSweep) <= 600_000_000_000) then
          var refilled := old(buckets[key].tokens) + perMinute * (now - old(buckets[key].last));
          var have := if refilled < perMinute * 60_000_000_000 then refilled else perMinute * 60_000_000_000;
          && key in buckets && buckets[key].last == now
          && (ok <==> have >= 60_000_000_000)
          && buckets[key].tokens == (if ok then have - 60_000_000_000 else have)
          && if ok then wait == 0 else perMinute * wait <= 60_000_000_000 - have < perMinute * (wait + 1)
        else if ok then
          && wait == 0 && key in buckets && |buckets| <= maxKeys
          && buckets[key].tokens == (perMinute - 1) * 60_000_000_000 && buckets[key].last == now
        else wait == 60_000_000_000 && key !in buckets && |buckets| >= maxKeys
    {
      if perMinute <= 0 {
        return true, 0;
      }
      ghost var s := View();
      ok, wait := CheckLocked(key, now);
      AnswerDecided(Settings(), s, Call(key, now), View(), ok, wait);
      ViewSize();
    }

    /** The section under the lock. */
    method CheckLocked(key: string, now: int) returns (ok: bool, wait: int)
      requires Valid() && perMinute > 0
      modifies this`buckets, this`lastSweep, buckets.Values
      ensures Valid() && fresh(buckets.Values - old(buckets.Values))
      ensures View() == CheckStep(Settings(), old(View()), Call(key, now)).0
      ensures var o := CheckStep(Settings(), old(View()), Call(key, now)).1;
        if o == Granted then ok && wait == 0
        else !ok && (o == Denied(wait) || (o == TableFull && wait == 60_000_000_000))
    {
      MakeRoom(key, now);
      ok, wait := ServeSwept(key, now);
    }

    method ServeSwept(key: string, now: int) returns (ok: bool, wait: int)
      requires Valid() && perMinute > 0
      modifies this`buckets, buckets.Values
      ensures Valid() && fresh(buckets.Values - old(buckets.Values))
      ensures View() == Serve(Settings(), old(View()), Call(key, now)).0
      ensures var o := Serve(Settings(), old(View()), Call(key, now)).1;
        if o == Granted then ok && wait == 0
        else !ok && (o == Denied(wait) || (o == TableFull && wait == 60_000_000_000))
    {
      ViewSize();
      if key !in buckets {
        if |buckets| >= maxKeys {
          return false, 60 * SECOND;
        }
        OpenBucket(key, now);
      }
      ghost var b := View().buckets[key];
      ghost var b' := Take(perMinute, b, now).0;
      assert View().buckets[key := b'] == old(View()).buckets[key := b'];
      ok, wait := TakeToken(key, now);
    }

    method OpenBucket(key: string, now: int)
      requires Valid() && key !in buckets
      modifies this`buckets
      ensures Valid() && key in buckets && fresh(buckets[key])
      ensures buckets == old(buckets)[key := buckets[key]]
      ensures View() == old(View()).(buckets := old(View()).buckets[key := Bucket(Capacity(perMinute), now)])
    {
      var b := new BucketCell(Capacity(perMinute), now);
      buckets := buckets[key := b];
    }

    lemma ViewSize()
      ensures |View().buckets| == |buckets|
    {
      assert View().buckets.Keys == buckets.Keys;
      assert |View().buckets| == |View().buckets.Keys| && |buckets| == |buckets.Keys|;
    }
  }
}
