/** The claim protocol of Submit in internal/feedback/service.go: claim the client's feedback
    id in the database, forward, and give the claim back when forwarding fails.  Forwarding,
    database errors and failing deletes are actions with any outcome. */
module Feedback {

  type CallId = nat

  datatype Reply = Duplicate | Delivered | NotDelivered | ClaimFailed

  datatype Pc =
    | Begun               // nothing done yet
    | Unclaimed           // no database or no id: forwards without a claim
    | Holding             // its INSERT took the claim; forwarding
    | Releasing           // forwarding failed; about to delete the claim
    | Returned(reply: Reply)

  datatype Call = Call(id: string, pc: Pc)

  /** The table feedback_submissions and the calls, finished ones included. */
  datatype State = State(claims: set<string>, calls: map<CallId, Call>)

  datatype Action =
    | Begin(c: CallId, id: string)
    | Claim(c: CallId, dbOk: bool)
    | Forward(c: CallId, delivered: bool)
    | Release(c: CallId, deleted: bool)

  /** Deduplication applies when there is a database and the id is not empty. */
  predicate Guarded(hasDb: bool, id: string) {
    hasDb && id != ""
  }

  predicate At(s: State, c: CallId, pc: Pc) {
    c in s.calls && s.calls[c].pc == pc
  }

  predicate Enabled(s: State, a: Action) {
    match a
    case Begin(c, _) => c !in s.calls
    case Claim(c, _) => At(s, c, Begun)
    case Forward(c, _) => At(s, c, Holding) || At(s, c, Unclaimed)
    case Release(c, _) => At(s, c, Releasing)
  }

  function Goto(s: State, c: CallId, pc: Pc): State
    requires c in s.calls
  {
    s.(calls := s.calls[c := s.calls[c].(pc := pc)])
  }

  function Apply(hasDb: bool, s: State, a: Action): State
    requires Enabled(s, a)
  {
    match a
    case Begin(c, id) => s.(calls := s.calls[c := Call(id, Begun)])
    case Claim(c, dbOk) =>
      var id := s.calls[c].id;
      if !Guarded(hasDb, id) then Goto(s, c, Unclaimed)
      else if !dbOk then Goto(s, c, Returned(ClaimFailed))
      else if id in s.claims then Goto(s, c, Returned(Duplicate))
      else Goto(s, c, Holding).(claims := s.claims + {id})
    case Forward(c, delivered) =>
      if delivered then Goto(s, c, Returned(Delivered))
      else if s.calls[c].pc.Holding? then Goto(s, c, Releasing)
      else Goto(s, c, Returned(NotDelivered))
    case Release(c, deleted) =>
      var s' := Goto(s, c, Returned(NotDelivered));
      if deleted then s'.(claims := s.claims - {s.calls[c].id}) else s'
  }

  /** An execution over a table that already holds the ids `before` delivered earlier. */
  datatype Trace = Trace(hasDb: bool, before: set<string>, states: seq<State>, actions: seq<Action>)

  ghost predicate IsRun(t: Trace) {
    && |t.states| == |t.actions| + 1
    && t.states[0] == State(t.before, map[])
    && forall i :: 0 <= i < |t.actions| ==>
         Enabled(t.states[i], t.actions[i]) && t.states[i + 1] == Apply(t.hasDb, t.states[i], t.actions[i])
  }

  /** Every DELETE of the run succeeds. */
  ghost predicate DeletesWork(t: Trace) {
    forall i :: 0 <= i < |t.actions| && t.actions[i].Release? ==> t.actions[i].deleted
  }

  // ---------------------------------------------------------------------------
  // The service

  class Service {
    const hasDb: bool
    var claims: set<string>

    constructor (hasDb: bool, claims: set<string>)
      ensures this.hasDb == hasDb && this.claims == claims
    {
      this.hasDb, this.claims := hasDb, claims;
    }

    /** One call that nothing interferes with. */
    method Submit(id: string, dbOk: bool, delivered: bool, deleted: bool) returns (reply: Reply)
      modifies this
      ensures reply == Duplicate <==> hasDb && id != "" && dbOk && id in old(claims)
      ensures reply == ClaimFailed <==> hasDb && id != "" && !dbOk
      ensures reply == Delivered ==> delivered
      ensures reply == NotDelivered ==> !delivered
      ensures claims == if hasDb && id != "" && (reply == Delivered || (reply == NotDelivered && !deleted))
                        then old(claims) + {id} else old(claims)
    {
      if hasDb && id != "" {
        if !dbOk {
          return ClaimFailed;
        }
        if id in claims {
          return Duplicate;
        }
        claims := claims + {id};
      }
      reply := if delivered then Delivered else NotDelivered;
      if hasDb && id != "" && !delivered && deleted {
        claims := claims - {id};
      }
    }
  }

  /** The states a call passes through when nothing interleaves with it. */
  function RunAlone(hasDb: bool, s: State, c: CallId, id: string, dbOk: bool, delivered: bool, deleted: bool): State
    requires c !in s.calls
  {
    var s1 := Apply(hasDb, Apply(hasDb, s, Begin(c, id)), Claim(c, dbOk));
    if s1.calls[c].pc.Returned? then s1
    else
      var s2 := Apply(hasDb, s1, Forward(c, delivered));
      if s2.calls[c].pc.Releasing? then Apply(hasDb, s2, Release(c, deleted)) else s2
  }

  /** Submit does what the protocol's actions do for that call. */
  method SubmitAlone(svc: Service, s: State, c: CallId, id: string, dbOk: bool, delivered: bool, deleted: bool)
    returns (reply: Reply)
    requires c !in s.calls && s.claims == svc.claims
    modifies svc
    ensures var s' := RunAlone(svc.hasDb, s, c, id, dbOk, delivered, deleted);
      svc.claims == s'.claims && s'.calls == s.calls[c := Call(id, Returned(reply))]
  {
    reply := svc.Submit(id, dbOk, delivered, deleted);
  }

  // ---------------------------------------------------------------------------
  // Claims and owners

  predicate InFlight(s: State, c: CallId, id: string) {
    c in s.calls && s.calls[c].id == id && (s.calls[c].pc.Holding? || s.calls[c].pc.Releasing?)
  }

  predicate Succeeded(s: State, c: CallId, id: string) {
    c in s.calls && s.calls[c] == Call(id, Returned(Delivered))
  }

  predicate Owns(s: State, c: CallId, id: string) {
    InFlight(s, c, id) || Succeeded(s, c, id)
  }

  /** For guarded ids: one owner at most, and a claim exactly when there is one or the id is
      `taken` without an owner. */
  ghost predicate Inv(hasDb: bool, taken: set<string>, s: State) {
    && (forall id, c, d :: Guarded(hasDb, id) && Owns(s, c, id) && Owns(s, d, id) ==> c == d)
    && (forall id, c :: Guarded(hasDb, id) && Owns(s, c, id) ==> id in s.claims && id !in taken)
    && (forall id :: id in s.claims && id !in taken ==> exists c :: Owns(s, c, id))
    && taken <= s.claims
    && (forall c :: c in s.calls && (s.calls[c].pc.Holding? || s.calls[c].pc.Releasing?) ==>
          Guarded(hasDb, s.calls[c].id))
    && (forall c :: c in s.calls && s.calls[c].pc.Unclaimed? ==> !Guarded(hasDb, s.calls[c].id))
  }

  lemma OwnersElsewhere(hasDb: bool, s: State, a: Action, d: CallId, id: string)
    requires Enabled(s, a) && d != a.c
    ensures Owns(Apply(hasDb, s, a), d, id) <==> Owns(s, d, id)
  {
  }

  /** The acting call either owned the id already or has just claimed a free one. */
  lemma ActorOwns(hasDb: bool, taken: set<string>, s: State, a: Action, id: string)
    requires Inv(hasDb, taken, s) && Enabled(s, a)
    requires Guarded(hasDb, id) && Owns(Apply(hasDb, s, a), a.c, id)
    ensures Owns(s, a.c, id) || (a.Claim? && id !in s.claims && id in Apply(hasDb, s, a).claims)
  {
  }

  lemma StepKeepsInv(hasDb: bool, taken: set<string>, s: State, a: Action)
    requires Inv(hasDb, taken, s) && Enabled(s, a) && (a.Release? ==> a.deleted)
    ensures Inv(hasDb, taken, Apply(hasDb, s, a))
  {
    var s' := Apply(hasDb, s, a);
    forall d, id | d != a.c
      ensures Owns(s', d, id) <==> Owns(s, d, id)
    {
      OwnersElsewhere(hasDb, s, a, d, id);
    }
    forall id | Guarded(hasDb, id) && Owns(s', a.c, id)
      ensures Owns(s, a.c, id) || (a.Claim? && id !in s.claims && id in s'.claims)
    {
      ActorOwns(hasDb, taken, s, a, id);
    }
    if a.Release? {
      assert Owns(s, a.c, s.calls[a.c].id);
    }
    forall id | id in s'.claims && id !in taken
      ensures exists c :: Owns(s', c, id)
    {
      if id in s.claims {
        var c :| Owns(s, c, id);
        assert Owns(s', c, id);
      } else {
        assert Owns(s', a.c, id);
      }
    }
  }

  /** A release whose DELETE fails leaves the claim behind without an owner. */
  lemma FailedReleaseKeepsInv(hasDb: bool, taken: set<string>, s: State, c: CallId)
    requires Inv(hasDb, taken, s) && Enabled(s, Release(c, false))
    ensures Inv(hasDb, taken + {s.calls[c].id}, Apply(hasDb, s, Release(c, false)))
  {
    var a, id := Release(c, false), s.calls[c].id;
    var s' := Apply(hasDb, s, a);
    assert Owns(s, c, id);
    assert forall i :: !Owns(s', c, i);
    forall d, i | d != c
      ensures Owns(s', d, i) <==> Owns(s, d, i)
    {
      OwnersElsewhere(hasDb, s, a, d, i);
    }
    forall i | i in s'.claims && i !in taken + {id}
      ensures exists d :: Owns(s', d, i)
    {
      var d :| Owns(s, d, i);
      assert Owns(s', d, i);
    }
  }

  /** The ids that a failing DELETE has left behind before action `n`. */
  ghost function Stuck(t: Trace, n: nat): set<string>
    requires IsRun(t) && n < |t.states|
  {
    set i | 0 <= i < n && t.actions[i].Release? && !t.actions[i].deleted :: t.states[i].calls[t.actions[i].c].id
  }

  lemma StuckGrows(t: Trace, n: nat)
    requires IsRun(t) && n < |t.actions|
    ensures var a := t.actions[n];
      Stuck(t, n + 1) ==
        Stuck(t, n) + (if a.Release? && !a.deleted then {t.states[n].calls[a.c].id} else {})
  {
  }

  lemma NothingStuck(t: Trace, n: nat)
    requires IsRun(t) && DeletesWork(t) && n < |t.states|
    ensures Stuck(t, n) == {}
  {
  }

  lemma {:induction false} InvHolds(t: Trace, n: nat)
    requires IsRun(t) && n < |t.states|
    ensures Inv(t.hasDb, t.before + Stuck(t, n), t.states[n])
  {
    if n == 0 {
      assert t.before + Stuck(t, 0) == t.before;
    } else {
      var a, taken := t.actions[n - 1], t.before + Stuck(t, n - 1);
      InvHolds(t, n - 1);
      StuckGrows(t, n - 1);
      if a.Release? && !a.deleted {
        FailedReleaseKeepsInv(t.hasDb, taken, t.states[n - 1], a.c);
        assert t.before + Stuck(t, n) == taken + {t.states[n - 1].calls[a.c].id};
      } else {
        StepKeepsInv(t.hasDb, taken, t.states[n - 1], a);
        assert t.before + Stuck(t, n) == taken;
      }
    }
  }

  /** In every interleaving: the claim is there exactly while one call is in flight with it,
      after one succeeded, or after a DELETE failed; an id has one owner at most, and none once
      it was delivered before or is stuck, so no id is ever delivered twice. */
  lemma ClaimTracksOwner(t: Trace, n: nat, id: string)
    requires IsRun(t) && n < |t.states| && t.hasDb && id != ""
    ensures var s := t.states[n];
      && (id in s.claims <==> id in t.before || id in Stuck(t, n) || exists c :: Owns(s, c, id))
      && (forall c, d :: Owns(s, c, id) && Owns(s, d, id) ==> c == d)
      && (id in t.before || id in Stuck(t, n) ==> forall c :: !Owns(s, c, id))
  {
    InvHolds(t, n);
  }

  /** A failing call deletes only its own claim: it is in flight, so nobody else owns the id,
      and the id is neither stuck nor delivered before. */
  lemma ReleaseIsOwn(t: Trace, n: nat, c: CallId, d: CallId)
    requires IsRun(t) && n < |t.actions| && t.actions[n] == Release(c, true)
    requires Owns(t.states[n], d, t.states[n].calls[c].id)
    ensures c == d && t.states[n + 1].claims == t.states[n].claims - {t.states[n].calls[c].id}
    ensures var id := t.states[n].calls[c].id;
      id in t.states[n].claims && id !in t.before && id !in Stuck(t, n)
  {
    InvHolds(t, n);
    assert Owns(t.states[n], c, t.states[n].calls[c].id);
  }

  /** What a duplicate answer means at the moment it is given, in every run: the id was
      delivered before, a call is in flight with it, or a failing DELETE has left it behind. */
  lemma DuplicateMeaning(t: Trace, n: nat, c: CallId)
    requires IsRun(t) && n < |t.actions| && t.actions[n] == Claim(c, true)
    requires t.hasDb && t.states[n].calls[c].id != ""
    ensures var s, id := t.states[n], t.states[n].calls[c].id;
      At(t.states[n + 1], c, Returned(Duplicate)) <==>
      || id in t.before || (exists d :: Succeeded(s, d, id))
      || (exists d :: InFlight(s, d, id)) || id in Stuck(t, n)
  {
    InvHolds(t, n);
    var s, id := t.states[n], t.states[n].calls[c].id;
    assert t.states[n + 1] == Apply(t.hasDb, s, t.actions[n]);
    if id in s.claims && id !in t.before + Stuck(t, n) {
      var d :| Owns(s, d, id);
    }
    if d :| Succeeded(s, d, id) {
      assert Owns(s, d, id);
    }
    if d :| InFlight(s, d, id) {
      assert Owns(s, d, id);
    }
  }

  lemma {:induction false} StuckStays(t: Trace, i: nat, n: nat)
    requires IsRun(t) && i <= n < |t.states|
    ensures Stuck(t, i) <= Stuck(t, n)
    decreases n - i
  {
    if i < n {
      StuckStays(t, i, n - 1);
      StuckGrows(t, n - 1);
    }
  }

  /** An id that a failing DELETE left behind is blocked for good: nobody delivers it any more,
      nobody delivered it before, and everybody who asks is told "duplicate". */
  lemma StuckIdIsBlocked(t: Trace, i: nat, n: nat, id: string)
    requires IsRun(t) && i <= n < |t.states| && id in Stuck(t, i) && t.hasDb && id != ""
    ensures forall c :: !Owns(t.states[n], c, id)
    ensures n < |t.actions| && t.actions[n].Claim? && t.actions[n].dbOk
            && t.states[n].calls[t.actions[n].c].id == id ==>
      At(t.states[n + 1], t.actions[n].c, Returned(Duplicate))
  {
    StuckStays(t, i, n);
    ClaimTracksOwner(t, n, id);
    if n < |t.actions| && t.actions[n].Claim? && t.actions[n].dbOk && t.states[n].calls[t.actions[n].c].id == id {
      DuplicateMeaning(t, n, t.actions[n].c);
    }
  }

  /** Sequential use: whoever claims finds nobody else in the middle of a call. */
  ghost predicate Sequential(t: Trace)
    requires IsRun(t)
  {
    forall n, d :: 0 <= n < |t.actions| && t.actions[n].Claim? && d in t.states[n].calls && d != t.actions[n].c ==>
      t.states[n].calls[d].pc.Returned?
  }

  /** In sequential runs a duplicate answer means the id was delivered before, or that a
      failing DELETE has left it behind. */
  lemma SequentialDuplicateIsDelivered(t: Trace, n: nat, c: CallId)
    requires IsRun(t) && Sequential(t) && n < |t.actions| && t.actions[n] == Claim(c, true)
    requires t.hasDb && t.states[n].calls[c].id != ""
    ensures var id := t.states[n].calls[c].id;
      At(t.states[n + 1], c, Returned(Duplicate)) <==>
      id in t.before || (exists d :: Succeeded(t.states[n], d, id)) || id in Stuck(t, n)
    ensures DeletesWork(t) ==> Stuck(t, n) == {}
  {
    DuplicateMeaning(t, n, c);
    if DeletesWork(t) {
      NothingStuck(t, n);
    }
  }

  /** Concurrently it need not: a call is told "duplicate" while the first is in flight, the
      first then fails, and the id was delivered by nobody. */
  lemma DuplicateBeforeFailure() returns (t: Trace)
    ensures IsRun(t) && DeletesWork(t)
    ensures var end := t.states[|t.states| - 1];
      At(end, 1, Returned(Duplicate)) && end.claims == {} && forall d :: !Succeeded(end, d, "x")
  {
    var s0 := State({}, map[]);
    var a := [Begin(0, "x"), Begin(1, "x"), Claim(0, true), Claim(1, true), Forward(0, false), Release(0, true)];
    var s1 := Apply(true, s0, a[0]);
    var s2 := Apply(true, s1, a[1]);
    var s3 := Apply(true, s2, a[2]);
    var s4 := Apply(true, s3, a[3]);
    var s5 := Apply(true, s4, a[4]);
    var s6 := Apply(true, s5, a[5]);
    t := Trace(true, {}, [s0, s1, s2, s3, s4, s5, s6], a);
  }

  lemma Step(t: Trace, a: Action) returns (t': Trace)
    requires IsRun(t) && Enabled(t.states[|t.actions|], a)
    ensures IsRun(t')
    ensures t' == t.(states := t.states + [Apply(t.hasDb, t.states[|t.actions|], a)], actions := t.actions + [a])
  {
    t' := t.(states := t.states + [Apply(t.hasDb, t.states[|t.actions|], a)], actions := t.actions + [a]);
  }

  /** A first call that fails and whose DELETE fails. */
  lemma FailedAttempt() returns (t: Trace)
    ensures IsRun(t) && Sequential(t) && t.hasDb && t.before == {} && |t.actions| == 4
    ensures t.states[4] == State({"x"}, map[0 := Call("x", Returned(NotDelivered))]) && "x" in Stuck(t, 4)
  {
    t := Step(Trace(true, {}, [State({}, map[])], []), Begin(0, "x"));
    t := Step(t, Claim(0, true));
    t := Step(t, Forward(0, false));
    t := Step(t, Release(0, false));
    assert t.actions[3].Release? && !t.actions[3].deleted && t.states[3].calls[0].id == "x";
  }

  /** And a failing DELETE blocks an id that nobody delivered, even in sequential use. */
  lemma FailedDeleteBlocksId() returns (t: Trace)
    ensures IsRun(t) && Sequential(t) && t.before == {} && |t.actions| == 6
    ensures At(t.states[6], 1, Returned(Duplicate)) && forall d :: !Owns(t.states[6], d, "x")
  {
    t := FailedAttempt();
    t := Step(t, Begin(1, "x"));
    t := Step(t, Claim(1, true));
  }
}
