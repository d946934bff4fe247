/** Runs of the limiter of internal/ratelimit/ratelimit.go as its callers see them: calls of
    Check and the pairs it returns. */
module RateLimitAnswers {
  import opened RateLimit
  import opened RateLimitTheory
  import opened RateLimitRuns
  import opened RateLimitExact

  /** What Check returned. */
  datatype Answer = Answer(ok: bool, wait: int)

  predicate Tells(o: Outcome, a: Answer) {
    if o == Granted then a.ok && a.wait == 0
    else !a.ok && (o == Denied(a.wait) || (o == TableFull && a.wait == 60_000_000_000))
  }

  /** What a new limiter answers to the calls. */
  ghost predicate AreAnswers(cfg: Config, start: int, calls: seq<Call>, answers: seq<Answer>) {
    && |answers| == |calls|
    && forall i :: 0 <= i < |calls| ==> Tells(OutcomeAt(cfg, start, calls, i), answers[i])
  }

  /** The calls for `key` up to the n-th with a reading in the window that were let in. */
  ghost function LetIn(calls: seq<Call>, answers: seq<Answer>, n: nat, key: string, from: int, to: int): set<int>
    requires n <= |calls| == |answers|
  {
    set i | 0 <= i < n && answers[i].ok && calls[i].key == key && from <= calls[i].now <= to
  }

  lemma LetInGrows(calls: seq<Call>, answers: seq<Answer>, n: nat, key: string, from: int, to: int)
    requires n < |calls| == |answers|
    ensures |LetIn(calls, answers, n + 1, key, from, to)| == |LetIn(calls, answers, n, key, from, to)|
      + (if answers[n].ok && calls[n].key == key && from <= calls[n].now <= to then 1 else 0)
  {
    var before, after := LetIn(calls, answers, n, key, from, to), LetIn(calls, answers, n + 1, key, from, to);
    var more := if answers[n].ok && calls[n].key == key && from <= calls[n].now <= to then {n} else {};
    forall k
      ensures k in after <==> k in before + more
    {
    }
    assert after == before + more && before !! more;
  }

  lemma AdmittedGrows(cfg: Config, start: int, calls: seq<Call>, n: nat, key: string, from: int, to: int)
    requires n < |calls|
    ensures Admitted(RunOf(cfg, start, calls[..n + 1]), key, from, to) ==
      Admitted(RunOf(cfg, start, calls[..n]), key, from, to)
      + (if OutcomeAt(cfg, start, calls, n) == Granted && calls[n].key == key && from <= calls[n].now <= to
         then 1 else 0)
  {
    NextState(cfg, start, calls, n);
    var o := OutcomeAt(cfg, start, calls, n);
    var more := if o == TableFull then [] else [Entry(calls[n], o)];
    AdmittedSplits(RunOf(cfg, start, calls[..n]), more, key, from, to);
    assert more != [] ==> more[1..] == [];
  }

  lemma {:induction false} LetInAreAdmitted(cfg: Config, start: int, calls: seq<Call>, answers: seq<Answer>, n: nat,
                                            key: string, from: int, to: int)
    requires AreAnswers(cfg, start, calls, answers) && n <= |calls|
    ensures |LetIn(calls, answers, n, key, from, to)| == Admitted(RunOf(cfg, start, calls[..n]), key, from, to)
  {
    if n > 0 {
      LetInAreAdmitted(cfg, start, calls, answers, n - 1, key, from, to);
      LetInGrows(calls, answers, n - 1, key, from, to);
      AdmittedGrows(cfg, start, calls, n - 1, key, from, to);
      assert Tells(OutcomeAt(cfg, start, calls, n - 1), answers[n - 1]);
    }
  }

  /** In any window of readings a key is let in at most as often as the capacity and the refill
      of the window allow. */
  lemma AnswersKeepRate(cfg: Config, start: int, calls: seq<Call>, answers: seq<Answer>, lag: int,
                        key: string, from: int, to: int)
    requires AreAnswers(cfg, start, calls, answers) && cfg.perMinute > 0 && from <= to
    requires 0 <= lag <= 500_000_000 && WithinLag(calls, lag)
    ensures var n := |set i | 0 <= i < |calls| && answers[i].ok && calls[i].key == key && from <= calls[i].now <= to|;
      60_000_000_000 * n <= cfg.perMinute * 60_000_000_000 + cfg.perMinute * (to - from)
  {
    LetInAreAdmitted(cfg, start, calls, answers, |calls|, key, from, to);
    assert calls[..|calls|] == calls;
    RateIsBounded(cfg, start, calls, lag, key, from, to);
  }

  /** With no more keys than the table has room for, no call is refused for lack of room. */
  lemma RoomForAll(cfg: Config, start: int, calls: seq<Call>, i: nat)
    requires i < |calls| && |set c | c in calls :: c.key| <= cfg.maxKeys
    ensures OutcomeAt(cfg, start, calls, i) != TableFull
  {
    var all := set c | c in calls :: c.key;
    CapIsKept(cfg, start, calls, i);
    if OutcomeAt(cfg, start, calls, i) == TableFull {
      var keys: set<string> :| |keys| == cfg.maxKeys && calls[i].key !in keys && RecentlySeen(keys, calls, i);
      assert calls[i] in calls && calls[i].key in all;
      assert keys <= all;
      FewerKeys(keys, all, calls[i].key);
      assert false;
    }
  }

  lemma FewerKeys(small: set<string>, large: set<string>, key: string)
    requires small <= large && key in large && key !in small
    ensures |small| < |large|
  {
    assert large == small + (large - small);
    assert key in large - small;
  }

  /** A client that is refused is refused again before its wait is over, and let in from one
      nanosecond after it on, when it was not let in meanwhile. */
  lemma AnswersKeepWait(cfg: Config, start: int, calls: seq<Call>, answers: seq<Answer>, lag: int, i: nat, j: nat)
    requires AreAnswers(cfg, start, calls, answers) && cfg.perMinute > 0
    requires 0 <= lag <= 500_000_000 && WithinLag(calls, lag) && |set c | c in calls :: c.key| <= cfg.maxKeys
    requires i < j < |calls| && calls[i].key == calls[j].key && !answers[i].ok
    requires forall k :: i < k < j && calls[k].key == calls[i].key ==> !answers[k].ok
    ensures answers[i].wait >= 0
    ensures calls[j].now - calls[i].now < answers[i].wait ==> !answers[j].ok
    ensures calls[j].now - calls[i].now > answers[i].wait ==> answers[j].ok
  {
    RoomForAll(cfg, start, calls, i);
    RoomForAll(cfg, start, calls, j);
    assert Tells(OutcomeAt(cfg, start, calls, i), answers[i]) && Tells(OutcomeAt(cfg, start, calls, j), answers[j]);
    NoneLetIn(cfg, start, calls, answers, i + 1, j, calls[i].key);
    ServedWait(cfg, start, calls, lag, i, j);
  }

  lemma ServedWait(cfg: Config, start: int, calls: seq<Call>, lag: int, i: nat, j: nat)
    requires cfg.perMinute > 0 && 0 <= lag <= MAX_LAG && WithinLag(calls, lag) && i < j < |calls|
    requires OutcomeAt(cfg, start, calls, i).Denied? && OutcomeAt(cfg, start, calls, j) != TableFull
    requires calls[i].key == calls[j].key && NoGrant(cfg, start, calls, i + 1, j, calls[i].key)
    ensures var wait, time := OutcomeAt(cfg, start, calls, i).wait, calls[j].now - calls[i].now;
      wait >= 0 && (time < wait ==> OutcomeAt(cfg, start, calls, j).Denied?)
      && (time > wait ==> OutcomeAt(cfg, start, calls, j) == Granted)
  {
    WaitIsTight(cfg, start, calls, lag, i, j);
  }

  lemma NoneLetIn(cfg: Config, start: int, calls: seq<Call>, answers: seq<Answer>, i: nat, j: nat, key: string)
    requires AreAnswers(cfg, start, calls, answers) && j <= |calls|
    requires forall k :: i <= k < j && calls[k].key == key ==> !answers[k].ok
    ensures NoGrant(cfg, start, calls, i, j, key)
  {
    forall k | i <= k < j && calls[k].key == key
      ensures OutcomeAt(cfg, start, calls, k) != Granted
    {
      assert Tells(OutcomeAt(cfg, start, calls, k), answers[k]);
    }
  }

  /** Calls of a new limiter, one after the other, and what that means for any key and window. */
  method CheckAll(perMinute: int, maxKeys: int, start: int, calls: seq<Call>,
                  ghost lag: int, ghost key: string, ghost from: int, ghost to: int) returns (answers: seq<Answer>)
    ensures AreAnswers(Config(perMinute, maxKeys), start, calls, answers)
    ensures perMinute > 0 && 0 <= lag <= 500_000_000 && WithinLag(calls, lag) && from <= to ==>
      var n := |set i | 0 <= i < |calls| && answers[i].ok && calls[i].key == key && from <= calls[i].now <= to|;
      60_000_000_000 * n <= perMinute * 60_000_000_000 + perMinute * (to - from)
  {
    answers := CheckEach(perMinute, maxKeys, start, calls);
    if perMinute > 0 && 0 <= lag <= 500_000_000 && WithinLag(calls, lag) && from <= to {
      AnswersKeepRate(Config(perMinute, maxKeys), start, calls, answers, lag, key, from, to);
    }
  }

  method CheckEach(perMinute: int, maxKeys: int, start: int, calls: seq<Call>) returns (answers: seq<Answer>)
    ensures AreAnswers(Config(perMinute, maxKeys), start, calls, answers)
  {
    ghost var cfg := Config(perMinute, maxKeys);
    var limiter := new Limiter(perMinute, maxKeys, start);
    answers := [];
    assert calls[..0] == [];
    for i := 0 to |calls|
      invariant limiter.Valid() && fresh(limiter) && fresh(limiter.buckets.Values)
      invariant limiter.Settings() == cfg && limiter.View() == StateAt(cfg, start, calls, i)
      invariant |answers| == i && forall k :: 0 <= k < i ==> Tells(OutcomeAt(cfg, start, calls, k), answers[k])
    {
      NextState(cfg, start, calls, i);
      var answer := CheckOne(limiter, calls[i]);
      answers := answers + [answer];
    }
  }

  method CheckOne(limiter: Limiter, c: Call) returns (answer: Answer)
    requires limiter.Valid()
    modifies limiter, limiter.buckets.Values
    ensures limiter.Valid() && fresh(limiter.buckets.Values - old(limiter.buckets.Values))
    ensures limiter.Settings() == old(limiter.Settings())
    ensures limiter.View() == CheckStep(limiter.Settings(), old(limiter.View()), c).0
    ensures Tells(CheckStep(limiter.Settings(), old(limiter.View()), c).1, answer)
  {
    var ok, wait := limiter.Check(c.key, c.now);
    answer := Answer(ok, wait);
  }
}
