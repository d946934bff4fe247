/** Admission in internal/llmproxy/proxy.go: the slots of Forward and the daily budget of
    takeBudget.  Days are numbers; the day is read before the budget lock is taken, so days
    may reach the lock in any order. */
module Admission {
  import opened Options

  const DAY_NS: int := 86_400_000_000_000

  function Min(a: int, b: int): int { if a < b then a else b }

  // ---------------------------------------------------------------------------
  // The budget

  /** budgetDay and budgetN. */
  datatype Meter = Meter(day: Option<int>, spent: nat)

  const FRESH: Meter := Meter(None, 0)

  function TakeStep(budget: int, m: Meter, day: int): (Meter, bool) {
    if budget <= 0 then (m, true)
    else
      var m1 := if m.day == Some(day) then m else Meter(Some(day), 0);
      if m1.spent >= budget then (m1, false) else (m1.(spent := m1.spent + 1), true)
  }

  function MeterAfter(budget: int, days: seq<int>): Meter {
    if days == [] then FRESH else TakeStep(budget, MeterAfter(budget, days[..|days| - 1]), days[|days| - 1]).0
  }

  /** How many of the takes, in lock order, are granted with day `d`. */
  function Granted(budget: int, days: seq<int>, d: int): nat {
    if days == [] then 0
    else
      var rest, day := days[..|days| - 1], days[|days| - 1];
      Granted(budget, rest, d)
      + (if day == d && TakeStep(budget, MeterAfter(budget, rest), day).1 then 1 else 0)
  }

  function Count(days: seq<int>, d: int): nat {
    if days == [] then 0 else Count(days[..|days| - 1], d) + (if days[|days| - 1] == d then 1 else 0)
  }

  lemma {:induction false} CountIsHowMany(days: seq<int>, d: int)
    ensures Count(days, d) == |set i | 0 <= i < |days| && days[i] == d|
  {
    var all := set i | 0 <= i < |days| && days[i] == d;
    if days != [] {
      var n := |days| - 1;
      var rest := set i | 0 <= i < n && days[..n][i] == d;
      CountIsHowMany(days[..n], d);
      forall i
        ensures i in all <==> i in rest || (i == n && days[n] == d)
      {
      }
      assert all == rest + (if days[n] == d then {n} else {}) && n !in rest;
    }
  }

  /** Without a budget every take is granted. */
  lemma {:induction false} UnlimitedGrantsAll(budget: int, days: seq<int>, d: int)
    requires budget <= 0
    ensures Granted(budget, days, d) == Count(days, d)
    ensures forall m, day :: TakeStep(budget, m, day) == (m, true)
  {
    if days != [] {
      UnlimitedGrantsAll(budget, days[..|days| - 1], d);
    }
  }

  /** The length of the last block: how many of the last takes have the last day. */
  function LastBlock(days: seq<int>): (n: nat)
    ensures n <= |days| && (days != [] ==> n > 0)
  {
    if days == [] then 0
    else if |days| > 1 && days[|days| - 2] == days[|days| - 1] then LastBlock(days[..|days| - 1]) + 1
    else 1
  }

  /** Over the maximal blocks of takes with day `d`: the block length, capped by the budget. */
  function BlockSum(budget: int, days: seq<int>, d: int): int {
    if days == [] then 0
    else
      var rest := days[..|days| - LastBlock(days)];
      BlockSum(budget, rest, d) + (if days[|days| - 1] == d then Min(budget, LastBlock(days)) else 0)
  }

  lemma LastBlockGrows(days: seq<int>)
    requires |days| > 1 && days[|days| - 2] == days[|days| - 1]
    ensures var rest := days[..|days| - 1];
      && LastBlock(days) == LastBlock(rest) + 1
      && days[..|days| - LastBlock(days)] == rest[..|rest| - LastBlock(rest)]
  {
  }

  /** Whatever order the days come in: a day is granted, block by block, as many takes as the
      block asks for, up to the budget. */
  lemma {:induction false} GrantedIsBlockSum(budget: int, days: seq<int>, d: int)
    requires budget > 0
    ensures Granted(budget, days, d) == BlockSum(budget, days, d)
    ensures days != [] ==> MeterAfter(budget, days) == Meter(Some(days[|days| - 1]), Min(budget, LastBlock(days)))
    decreases |days|
  {
    if days != [] {
      var rest := days[..|days| - 1];
      GrantedIsBlockSum(budget, rest, d);
      if |days| > 1 && days[|days| - 2] == days[|days| - 1] {
        LastBlockGrows(days);
      }
    }
  }

  /** Day `d` does not come back after another day has come in between. */
  ghost predicate OneBlock(days: seq<int>, d: int) {
    forall i, j, k :: 0 <= i < j < k < |days| && days[i] == d && days[k] == d ==> days[j] == d
  }

  lemma {:induction false} LastBlockIsBlock(days: seq<int>)
    requires days != []
    ensures var m := |days| - LastBlock(days);
      && (forall i :: m <= i < |days| ==> days[i] == days[|days| - 1])
      && (m > 0 ==> days[m - 1] != days[|days| - 1])
  {
    if |days| > 1 && days[|days| - 2] == days[|days| - 1] {
      LastBlockIsBlock(days[..|days| - 1]);
    }
  }

  lemma {:induction false} CountSplits(days: seq<int>, m: nat, d: int)
    requires m <= |days| && forall i, j :: m <= i < |days| && m <= j < |days| ==> days[i] == days[j]
    ensures Count(days, d) == Count(days[..m], d) + (if m < |days| && days[m] == d then |days| - m else 0)
    decreases |days|
  {
    if m < |days| {
      CountSplits(days[..|days| - 1], m, d);
      assert days[..|days| - 1][..m] == days[..m];
    } else {
      assert days[..m] == days;
    }
  }

  lemma {:induction false} CountZero(days: seq<int>, d: int)
    ensures d !in days <==> Count(days, d) == 0
  {
    if days != [] {
      CountZero(days[..|days| - 1], d);
      assert days == days[..|days| - 1] + [days[|days| - 1]];
    }
  }

  lemma OneBlockByBlocks(days: seq<int>, d: int)
    requires days != []
    ensures var rest, last := days[..|days| - LastBlock(days)], days[|days| - 1];
      OneBlock(days, d) <==> if last == d then d !in rest else OneBlock(rest, d)
  {
    var m, last := |days| - LastBlock(days), days[|days| - 1];
    var rest := days[..m];
    LastBlockIsBlock(days);
    if last == d && d in rest {
      var i :| 0 <= i < m && rest[i] == d;
      assert days[i] == d && days[m - 1] != d && days[|days| - 1] == d;
    }
    if last != d && !OneBlock(rest, d) {
      var i, j, k :| 0 <= i < j < k < |rest| && rest[i] == d && rest[k] == d && rest[j] != d;
      assert days[i] == d && days[k] == d && days[j] != d;
    }
  }

  /** What a day gets is at most what it asks for and at least that up to the budget; it is
      more than the budget exactly if the day comes back and asks for more. */
  lemma {:induction false} BlockSumBounds(budget: int, days: seq<int>, d: int)
    requires budget > 0
    ensures Min(budget, Count(days, d)) <= BlockSum(budget, days, d) <= Count(days, d)
    ensures BlockSum(budget, days, d) <= budget <==> OneBlock(days, d) || Count(days, d) <= budget
    decreases |days|
  {
    if days != [] {
      var m := |days| - LastBlock(days);
      LastBlockIsBlock(days);
      CountSplits(days, m, d);
      CountZero(days[..m], d);
      OneBlockByBlocks(days, d);
      BlockSumBounds(budget, days[..m], d);
    }
  }

  /** The budget is kept for a day exactly if the day's takes come in one block, or there are
      no more of them than the budget. */
  lemma BudgetKeptIff(budget: int, days: seq<int>, d: int)
    requires budget > 0
    ensures Granted(budget, days, d) <= budget <==> OneBlock(days, d) || Count(days, d) <= budget
    ensures OneBlock(days, d) ==> Granted(budget, days, d) == Min(budget, Count(days, d))
  {
    GrantedIsBlockSum(budget, days, d);
    BlockSumBounds(budget, days, d);
  }

  /** Days that do not decrease come in one block each. */
  lemma NondecreasingIsOneBlock(days: seq<int>, d: int)
    requires forall i, j :: 0 <= i < j < |days| ==> days[i] <= days[j]
    ensures OneBlock(days, d)
  {
  }

  /** No day comes back after another day has come in between. */
  ghost predicate Contiguous(days: seq<int>) {
    forall d :: OneBlock(days, d)
  }

  lemma {:induction false} CountPositive(days: seq<int>, i: nat, k: nat, d: int)
    requires i < k < |days| && days[i] == d && days[k] == d
    ensures Count(days, d) >= 2
    decreases |days|
  {
    var rest := days[..|days| - 1];
    if k == |rest| {
      CountZero(rest, d);
      assert rest[i] == d;
    } else {
      CountPositive(rest, i, k, d);
    }
  }

  /** Every budget is kept for every day exactly when the days reach the lock contiguously,
      in particular when they do not decrease. */
  lemma BudgetKeptIffContiguous(days: seq<int>)
    ensures (forall budget, d :: budget > 0 ==> Granted(budget, days, d) <= budget) <==> Contiguous(days)
  {
    forall budget, d | budget > 0
      ensures Granted(budget, days, d) <= budget <==> OneBlock(days, d) || Count(days, d) <= budget
    {
      BudgetKeptIff(budget, days, d);
    }
    if d :| !OneBlock(days, d) {
      var i, j, k :| 0 <= i < j < k < |days| && days[i] == d && days[k] == d && days[j] != d;
      CountPositive(days, i, k, d);
      assert Granted(1, days, d) > 1;
    }
  }

  // ---------------------------------------------------------------------------
  // BudgetResetIn

  function DayOf(now: int): int { now / DAY_NS }

  /** The time to the next UTC midnight. */
  function BudgetResetIn(now: int): int {
    (DayOf(now) + 1) * DAY_NS - now
  }

  /** In figures: it ends the UTC day, which has 86400 * 10^9 ns, and is never longer than one. */
  lemma ResetIsMidnight(now: int)
    ensures 0 < BudgetResetIn(now) <= 86_400_000_000_000
    ensures (now + BudgetResetIn(now)) % 86_400_000_000_000 == 0
  {
  }

  /** Waiting that long, and no shorter, brings a new day, on which a take succeeds, unless
      some take with a later day has already been seen. */
  lemma ResetBringsBudget(budget: int, m: Meter, now: int, t: int)
    requires budget > 0 && now <= t
    requires m.day.Some? ==> m.day.value <= DayOf(now)
    ensures t < now + BudgetResetIn(now) <==> DayOf(t) == DayOf(now)
    ensures t >= now + BudgetResetIn(now) ==> TakeStep(budget, m, DayOf(t)).1
    ensures !TakeStep(budget, m, DayOf(now)).1 && t < now + BudgetResetIn(now) ==>
      !TakeStep(budget, m, DayOf(t)).1
  {
  }

  // ---------------------------------------------------------------------------
  // Forward, as a state machine

  type CallId = nat

  datatype Exit = Busy | Rejected | OverBudget(day: int) | Attempted(day: int, answered: bool)

  datatype Pc =
    | Arrived             // no slot yet
    | Admitted            // slot taken, body not accepted yet
    | Accepted            // body sanitized, the day not read yet
    | DayRead(day: int)   // before the budget lock
    | Forwarding(day: int)  // budget taken, upstream attempt running
    | Leaving(exit: Exit) // about to give the slot back
    | Left(exit: Exit)

  datatype Limits = Limits(slots: nat, budget: int)

  /** Slots in use, the meter, the days of all takes in lock order, and the calls. */
  datatype State = State(held: nat, meter: Meter, days: seq<int>, calls: map<CallId, Pc>)

  const START: State := State(0, FRESH, [], map[])

  datatype Action =
    | Arrive(c: CallId)
    | Acquire(c: CallId)
    | ReadBody(c: CallId, accepted: bool)
    | ReadDay(c: CallId, day: int)
    | Take(c: CallId)
    | Finish(c: CallId, answered: bool)
    | Release(c: CallId)

  predicate Enabled(s: State, a: Action) {
    match a
    case Arrive(c) => c !in s.calls
    case Acquire(c) => c in s.calls && s.calls[c].Arrived?
    case ReadBody(c, _) => c in s.calls && s.calls[c].Admitted?
    case ReadDay(c, _) => c in s.calls && s.calls[c].Accepted?
    case Take(c) => c in s.calls && s.calls[c].DayRead?
    case Finish(c, _) => c in s.calls && s.calls[c].Forwarding?
    case Release(c) => c in s.calls && s.calls[c].Leaving?
  }

  function Goto(s: State, c: CallId, pc: Pc): State {
    s.(calls := s.calls[c := pc])
  }

  function Apply(l: Limits, s: State, a: Action): State
    requires Enabled(s, a)
  {
    match a
    case Arrive(c) => Goto(s, c, Arrived)
    case Acquire(c) =>
      if s.held < l.slots then Goto(s, c, Admitted).(held := s.held + 1) else Goto(s, c, Left(Busy))
    case ReadBody(c, accepted) => Goto(s, c, if accepted then Accepted else Leaving(Rejected))
    case ReadDay(c, day) => Goto(s, c, DayRead(day))
    case Take(c) =>
      var day := s.calls[c].day;
      var (m, ok) := TakeStep(l.budget, s.meter, day);
      Goto(s, c, if ok then Forwarding(day) else Leaving(OverBudget(day))).(meter := m, days := s.days + [day])
    case Finish(c, answered) => Goto(s, c, Leaving(Attempted(s.calls[c].day, answered)))
    case Release(c) => Goto(s, c, Left(s.calls[c].exit)).(held := if s.held > 0 then s.held - 1 else 0)
  }

  datatype Trace = Trace(states: seq<State>, actions: seq<Action>)

  ghost predicate IsRun(l: Limits, t: Trace) {
    && |t.states| == |t.actions| + 1
    && t.states[0] == START
    && forall i :: 0 <= i < |t.actions| ==>
         Enabled(t.states[i], t.actions[i]) && t.states[i + 1] == Apply(l, t.states[i], t.actions[i])
  }

  /** Between taking and giving back a slot. */
  predicate InFlight(pc: Pc) {
    !pc.Arrived? && !pc.Left?
  }

  /** An upstream attempt was made, on a take with day `d`. */
  predicate AttemptOn(pc: Pc, d: int) {
    || pc == Forwarding(d)
    || ((pc.Leaving? || pc.Left?) && pc.exit.Attempted? && pc.exit.day == d)
  }

  ghost function InFlightCalls(s: State): set<CallId> {
    set c | c in s.calls && InFlight(s.calls[c])
  }

  ghost function AttemptsOn(s: State, d: int): set<CallId> {
    set c | c in s.calls && AttemptOn(s.calls[c], d)
  }

  /** The calls that asked for budget; a rejected body is not among them. */
  ghost function Takers(s: State): set<CallId> {
    set c | c in s.calls && TookBudget(s.calls[c])
  }

  ghost predicate SlotsMatch(l: Limits, s: State) {
    s.held == |InFlightCalls(s)| <= l.slots
  }

  ghost predicate BudgetMatches(l: Limits, s: State, d: int) {
    && s.meter == MeterAfter(l.budget, s.days)
    && |AttemptsOn(s, d)| == Granted(l.budget, s.days, d)
    && |Takers(s)| == |s.days|
  }

  ghost predicate Inv(l: Limits, s: State, d: int) {
    SlotsMatch(l, s) && BudgetMatches(l, s, d)
  }

  predicate TookBudget(pc: Pc) {
    pc.Forwarding? || ((pc.Leaving? || pc.Left?) && (pc.exit.OverBudget? || pc.exit.Attempted?))
  }

  /** How moving one call to `pc` changes a set of calls chosen by their position. */
  function Moved(calls: set<CallId>, c: CallId, belongs: bool): set<CallId> {
    if belongs then calls + {c} else calls - {c}
  }

  lemma MoveChangesSets(l: Limits, s: State, a: Action, d: int)
    requires Enabled(s, a)
    ensures var s' := Apply(l, s, a);
      && InFlightCalls(s') == Moved(InFlightCalls(s), a.c, InFlight(s'.calls[a.c]))
      && AttemptsOn(s', d) == Moved(AttemptsOn(s, d), a.c, AttemptOn(s'.calls[a.c], d))
      && Takers(s') == Moved(Takers(s), a.c, TookBudget(s'.calls[a.c]))
  {
    var s' := Apply(l, s, a);
    assert s'.calls == s.calls[a.c := s'.calls[a.c]];
  }

  lemma StepKeepsSlots(l: Limits, s: State, a: Action)
    requires SlotsMatch(l, s) && Enabled(s, a)
    ensures SlotsMatch(l, Apply(l, s, a))
  {
    MoveChangesSets(l, s, a, 0);
    assert a.c in InFlightCalls(s) <==> a.c in s.calls && InFlight(s.calls[a.c]);
  }

  /** A take adds the call to the takers and, if granted, to the attempts of its day. */
  lemma TakeChangesSets(l: Limits, s: State, c: CallId, d: int)
    requires Enabled(s, Take(c))
    ensures var s' := Apply(l, s, Take(c));
      var granted := TakeStep(l.budget, s.meter, s.calls[c].day).1;
      && c !in AttemptsOn(s, d) && c !in Takers(s) && Takers(s') == Takers(s) + {c}
      && AttemptsOn(s', d) == AttemptsOn(s, d) + (if granted && s.calls[c].day == d then {c} else {})
  {
    MoveChangesSets(l, s, Take(c), d);
  }

  lemma GrantedAppends(budget: int, days: seq<int>, day: int, d: int)
    ensures MeterAfter(budget, days + [day]) == TakeStep(budget, MeterAfter(budget, days), day).0
    ensures Granted(budget, days + [day], d) == Granted(budget, days, d)
      + (if day == d && TakeStep(budget, MeterAfter(budget, days), day).1 then 1 else 0)
  {
    assert (days + [day])[..|days|] == days;
  }

  lemma TakeKeepsBudget(l: Limits, s: State, c: CallId, d: int)
    requires BudgetMatches(l, s, d) && Enabled(s, Take(c))
    ensures BudgetMatches(l, Apply(l, s, Take(c)), d)
  {
    TakeChangesSets(l, s, c, d);
    GrantedAppends(l.budget, s.days, s.calls[c].day, d);
  }

  /** No other action changes who attempted or took, or the meter. */
  lemma OthersKeepSets(l: Limits, s: State, a: Action, d: int)
    requires Enabled(s, a) && !a.Take?
    ensures var s' := Apply(l, s, a);
      AttemptsOn(s', d) == AttemptsOn(s, d) && Takers(s') == Takers(s) && s'.meter == s.meter && s'.days == s.days
  {
    var s' := Apply(l, s, a);
    assert s'.calls == s.calls[a.c := s'.calls[a.c]];
    assert a.c in s.calls ==> (AttemptOn(s'.calls[a.c], d) <==> AttemptOn(s.calls[a.c], d));
    assert a.c in s.calls ==> (TookBudget(s'.calls[a.c]) <==> TookBudget(s.calls[a.c]));
  }

  lemma StepKeepsBudget(l: Limits, s: State, a: Action, d: int)
    requires BudgetMatches(l, s, d) && Enabled(s, a)
    ensures BudgetMatches(l, Apply(l, s, a), d)
  {
    if a.Take? {
      TakeKeepsBudget(l, s, a.c, d);
    } else {
      OthersKeepSets(l, s, a, d);
    }
  }

  lemma {:induction false} InvHolds(l: Limits, t: Trace, n: nat, d: int)
    requires IsRun(l, t) && n < |t.states|
    ensures Inv(l, t.states[n], d)
  {
    if n > 0 {
      InvHolds(l, t, n - 1, d);
      StepKeepsSlots(l, t.states[n - 1], t.actions[n - 1]);
      StepKeepsBudget(l, t.states[n - 1], t.actions[n - 1], d);
    }
  }

  /** In every interleaving the slots in use are exactly the calls in flight, at most the
      cap; a call that has left holds none. */
  lemma SlotsAreCallsInFlight(l: Limits, t: Trace, n: nat)
    requires IsRun(l, t) && n < |t.states|
    ensures t.states[n].held == |InFlightCalls(t.states[n])| <= l.slots
    ensures (forall c :: c in t.states[n].calls ==> t.states[n].calls[c].Left?) ==> t.states[n].held == 0
  {
    InvHolds(l, t, n, 0);
    if forall c :: c in t.states[n].calls ==> t.states[n].calls[c].Left? {
      assert InFlightCalls(t.states[n]) == {};
    }
  }

  /** A call is turned away as busy only when every slot is taken by another call. */
  lemma BusyOnlyWhenFull(l: Limits, t: Trace, n: nat, c: CallId)
    requires IsRun(l, t) && n < |t.actions| && t.actions[n] == Acquire(c)
    ensures t.states[n + 1].calls[c] == Left(Busy) <==> |InFlightCalls(t.states[n]) - {c}| == l.slots
  {
    InvHolds(l, t, n, 0);
    assert InFlightCalls(t.states[n]) - {c} == InFlightCalls(t.states[n]);
  }

  /** In every interleaving a day makes exactly the upstream attempts that its blocks of takes
      are granted.  They are within the budget exactly if the takes come in one block or are
      no more than the budget; only calls with an accepted body take. */
  lemma AttemptsStayInBudget(l: Limits, t: Trace, n: nat, d: int)
    requires IsRun(l, t) && n < |t.states| && l.budget > 0
    ensures var s := t.states[n];
      && |AttemptsOn(s, d)| == BlockSum(l.budget, s.days, d)
      && (|AttemptsOn(s, d)| <= l.budget <==> OneBlock(s.days, d) || Count(s.days, d) <= l.budget)
      && (OneBlock(s.days, d) ==> |AttemptsOn(s, d)| == Min(l.budget, Count(s.days, d)))
    ensures |Takers(t.states[n])| == |t.states[n].days|
    ensures forall c :: c in Takers(t.states[n]) ==>
      t.states[n].calls[c] != Left(Rejected) && t.states[n].calls[c] != Leaving(Rejected)
  {
    InvHolds(l, t, n, d);
    GrantedIsBlockSum(l.budget, t.states[n].days, d);
    BudgetKeptIff(l.budget, t.states[n].days, d);
  }

  /** Without a budget a day makes as many attempts as it has takes, and nobody is turned away
      over budget. */
  lemma UnlimitedAttempts(l: Limits, t: Trace, n: nat, d: int)
    requires IsRun(l, t) && n < |t.states| && l.budget <= 0
    ensures |AttemptsOn(t.states[n], d)| == Count(t.states[n].days, d)
    ensures forall c :: c in t.states[n].calls && (t.states[n].calls[c].Leaving? || t.states[n].calls[c].Left?) ==>
      !t.states[n].calls[c].exit.OverBudget?
  {
    InvHolds(l, t, n, d);
    UnlimitedGrantsAll(l.budget, t.states[n].days, d);
    NobodyOverBudget(l, t, n);
  }

  lemma {:induction false} NobodyOverBudget(l: Limits, t: Trace, n: nat)
    requires IsRun(l, t) && n < |t.states| && l.budget <= 0
    ensures forall c :: c in t.states[n].calls && (t.states[n].calls[c].Leaving? || t.states[n].calls[c].Left?) ==>
      !t.states[n].calls[c].exit.OverBudget?
  {
    if n > 0 {
      NobodyOverBudget(l, t, n - 1);
      assert t.states[n] == Apply(l, t.states[n - 1], t.actions[n - 1]);
    }
  }

  /** When days reach the lock in order, every day makes as many attempts as it has takes, up
      to the budget. */
  lemma OrderedDaysStayInBudget(l: Limits, t: Trace, n: nat, d: int)
    requires IsRun(l, t) && n < |t.states| && l.budget > 0
    requires var days := t.states[n].days; forall i, j :: 0 <= i < j < |days| ==> days[i] <= days[j]
    ensures |AttemptsOn(t.states[n], d)| == Min(l.budget, Count(t.states[n].days, d)) <= l.budget
  {
    NondecreasingIsOneBlock(t.states[n].days, d);
    AttemptsStayInBudget(l, t, n, d);
  }

  // ---------------------------------------------------------------------------
  // The proxy

  class Proxy {
    const slots: nat
    const budget: int
    var held: nat            // len(sem)
    var budgetDay: Option<int>
    var budgetN: nat

    constructor (slots: nat, budget: int)
      ensures this.slots == slots && this.budget == budget && held == 0 && Meter(budgetDay, budgetN) == FRESH
    {
      this.slots, this.budget := slots, budget;
      held, budgetDay, budgetN := 0, None, 0;
    }

    method TakeBudget(day: int) returns (ok: bool)
      modifies this`budgetDay, this`budgetN
      ensures (Meter(budgetDay, budgetN), ok) == TakeStep(budget, old(Meter(budgetDay, budgetN)), day)
      ensures budget <= 0 ==> ok && budgetDay == old(budgetDay) && budgetN == old(budgetN)
      ensures budget > 0 ==>
        var spent := if old(budgetDay) == Some(day) then old(budgetN) else 0;
        (ok <==> spent < budget) && budgetDay == Some(day) && budgetN == if ok then spent + 1 else spent
    {
      if budget <= 0 {
        return true;
      }
      if budgetDay != Some(day) {
        budgetDay, budgetN := Some(day), 0;
      }
      if budgetN >= budget {
        return false;
      }
      budgetN := budgetN + 1;
      return true;
    }

    /** One call that nothing interferes with: every exit gives its slot back, and the budget
        is asked only for an accepted body. */
    method Forward(accepted: bool, day: int, answered: bool) returns (exit: Exit)
      requires held <= slots
      modifies this
      ensures held == old(held)
      ensures exit == Busy <==> old(held) == slots
      ensures exit == Rejected <==> old(held) < slots && !accepted
      ensures exit == Attempted(day, answered) <==>
        && old(held) < slots && accepted
        && (budget <= 0 || old(budgetDay) != Some(day) || old(budgetN) < budget)
      ensures if exit.Busy? || exit.Rejected? then budgetDay == old(budgetDay) && budgetN == old(budgetN)
              else var (m, ok) := TakeStep(budget, old(Meter(budgetDay, budgetN)), day);
                   Meter(budgetDay, budgetN) == m && exit == if ok then Attempted(day, answered) else OverBudget(day)
    {
      if held == slots {
        return Busy;
      }
      held := held + 1;
      if !accepted {
        exit := Rejected;
      } else {
        var ok := TakeBudget(day);
        exit := if ok then Attempted(day, answered) else OverBudget(day);
      }
      held := held - 1;
    }
  }
}
