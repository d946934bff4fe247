/** What holds in every interleaving of the single-flight protocol. */
module SingleFlightTheory {
  import opened Options
  import opened SingleFlight
  import CacheKey
  import Upstream

  // ---------------------------------------------------------------------------
  // The invariant

  /** Between registering and deleting its flight. */
  predicate Leads(pc: Pc) {
    pc.Calling? || pc.Storing? || pc.Unregistering?
  }

  predicate IsLeader(s: State, r: Id, path: Path) {
    r in s.requests && s.requests[r].path == path && Leads(s.requests[r].pc)
  }

  predicate OwnsCell(pc: Pc) {
    Leads(pc) || pc.Closing? || (pc.Returned? && pc.reply.Led?)
  }

  /** The table of flights holds exactly the leaders' flights. */
  ghost predicate FlightsAreLeaders(s: State) {
    && (forall p :: p in s.flights ==> IsLeader(s, s.flights[p], p))
    && (forall r :: r in s.requests && Leads(s.requests[r].pc) ==>
          s.requests[r].path in s.flights && s.flights[s.requests[r].path] == r)
  }

  predicate CellMatches(req: Request, cell: Flight) {
    && cell.path == req.path
    && (cell.result.None? <==> req.pc.Calling?)
    && (req.pc.Storing? ==> cell.result.Some? && cell.result.value.Audio?)
    && (cell.result.Some? && cell.result.value.Audio? ==> |cell.result.value.bytes| > 0)
    && (req.pc.Returned? ==> cell.closes == 1 && req.pc.reply.Led? && cell.result == Some(req.pc.reply.result))
    && (!req.pc.Returned? ==> cell.closes == 0)
  }

  ghost predicate CellsAreOwned(s: State) {
    && (forall r :: r in s.requests && OwnsCell(s.requests[r].pc) ==> r in s.cells)
    && (forall r :: r in s.cells ==>
          r in s.requests && OwnsCell(s.requests[r].pc) && CellMatches(s.requests[r], s.cells[r]))
  }

  ghost predicate FollowersAreLinked(s: State) {
    forall r :: r in s.requests ==>
      var req := s.requests[r];
      && (req.pc.Following? ==> req.pc.leader in s.cells && s.cells[req.pc.leader].path == req.path)
      && (req.pc.Returned? && req.pc.reply.Followed? ==>
            At(s, req.pc.reply.leader, Returned(Led(req.pc.reply.result)))
            && s.requests[req.pc.reply.leader].path == req.path)
      && (req.pc.Returned? && req.pc.reply.Hit? ==> |req.pc.reply.audio| > 0)
  }

  ghost predicate Inv(s: State) {
    FlightsAreLeaders(s) && CellsAreOwned(s) && FollowersAreLinked(s)
  }

  /** What a request outside the flights may become. */
  ghost predicate QuietMove(s: State, r: Id, req: Request) {
    && (r in s.requests ==> !OwnsCell(s.requests[r].pc))
    && !OwnsCell(req.pc) && !req.pc.Following?
    && (req.pc.Returned? && req.pc.reply.Hit? ==> |req.pc.reply.audio| > 0)
    && (req.pc.Returned? && req.pc.reply.Followed? ==>
          At(s, req.pc.reply.leader, Returned(Led(req.pc.reply.result)))
          && s.requests[req.pc.reply.leader].path == req.path)
  }

  lemma QuietMoveKeepsFlights(s: State, r: Id, req: Request)
    requires Inv(s) && QuietMove(s, r, req)
    ensures FlightsAreLeaders(s.(requests := s.requests[r := req]))
  {
  }

  lemma QuietMoveKeepsCells(s: State, r: Id, req: Request)
    requires Inv(s) && QuietMove(s, r, req)
    ensures CellsAreOwned(s.(requests := s.requests[r := req]))
  {
  }

  lemma QuietMoveKeepsLinks(s: State, r: Id, req: Request)
    requires Inv(s) && QuietMove(s, r, req)
    ensures FollowersAreLinked(s.(requests := s.requests[r := req]))
  {
  }

  lemma QuietMoveKeeps(s: State, r: Id, req: Request)
    requires Inv(s) && QuietMove(s, r, req)
    ensures Inv(s.(requests := s.requests[r := req]))
  {
    QuietMoveKeepsFlights(s, r, req);
    QuietMoveKeepsCells(s, r, req);
    QuietMoveKeepsLinks(s, r, req);
  }

  lemma WakeFindsLeader(s: State, r: Id)
    requires Inv(s) && Enabled(s, Wake(r))
    ensures var leader := s.requests[r].pc.leader;
      At(s, leader, Returned(Led(s.cells[leader].result.value))) && s.requests[leader].path == s.requests[r].path
  {
  }

  lemma LeadingKeeps(s: State, r: Id)
    requires Inv(s) && At(s, r, Missed) && s.requests[r].path !in s.flights
    ensures FlightsAreLeaders(Apply(s, TakeLock(r)))
    ensures CellsAreOwned(Apply(s, TakeLock(r)))
  {
  }

  lemma LeadingLinks(s: State, r: Id)
    requires Inv(s) && At(s, r, Missed) && s.requests[r].path !in s.flights
    ensures FollowersAreLinked(Apply(s, TakeLock(r)))
  {
  }

  lemma JoiningKeeps(s: State, r: Id)
    requires Inv(s) && At(s, r, Missed) && s.requests[r].path in s.flights
    ensures FlightsAreLeaders(Apply(s, TakeLock(r)))
    ensures CellsAreOwned(Apply(s, TakeLock(r)))
  {
  }

  lemma JoiningLinks(s: State, r: Id)
    requires Inv(s) && At(s, r, Missed) && s.requests[r].path in s.flights
    ensures FollowersAreLinked(Apply(s, TakeLock(r)))
  {
  }

  lemma CallReturnsKeeps(s: State, r: Id, exchange: Upstream.Exchange)
    requires Inv(s) && Enabled(s, CallReturns(r, exchange))
    ensures FlightsAreLeaders(Apply(s, CallReturns(r, exchange)))
    ensures CellsAreOwned(Apply(s, CallReturns(r, exchange)))
  {
  }

  lemma CallReturnsLinks(s: State, r: Id, exchange: Upstream.Exchange)
    requires Inv(s) && Enabled(s, CallReturns(r, exchange))
    ensures FollowersAreLinked(Apply(s, CallReturns(r, exchange)))
  {
  }

  lemma StoreKeeps(s: State, r: Id)
    requires Inv(s) && At(s, r, Storing)
    ensures Inv(Goto(s, r, Unregistering))
  {
  }

  lemma FilesAreFree(s: State, files: map<Path, Bytes>)
    requires Inv(s)
    ensures Inv(s.(files := files))
  {
  }

  lemma UnregisterKeeps(s: State, r: Id)
    requires Inv(s) && Enabled(s, Unregister(r))
    ensures FlightsAreLeaders(Apply(s, Unregister(r)))
  {
  }

  lemma UnregisterLinks(s: State, r: Id)
    requires Inv(s) && Enabled(s, Unregister(r))
    ensures CellsAreOwned(Apply(s, Unregister(r)))
    ensures FollowersAreLinked(Apply(s, Unregister(r)))
  {
  }

  lemma CloseDoneKeeps(s: State, r: Id)
    requires Inv(s) && Enabled(s, CloseDone(r))
    ensures FlightsAreLeaders(Apply(s, CloseDone(r)))
  {
  }

  lemma CloseDoneOwns(s: State, r: Id)
    requires Inv(s) && Enabled(s, CloseDone(r))
    ensures CellsAreOwned(Apply(s, CloseDone(r)))
  {
  }

  lemma CloseDoneLinks(s: State, r: Id)
    requires Inv(s) && Enabled(s, CloseDone(r))
    ensures FollowersAreLinked(Apply(s, CloseDone(r)))
  {
  }

  lemma QuietStepKeeps(s: State, a: Action)
    requires Inv(s) && Enabled(s, a) && (a.Enter? || a.ReadCache? || a.Cancel?)
    ensures Inv(Apply(s, a))
  {
    QuietMoveKeeps(s, a.r, Apply(s, a).requests[a.r]);
  }

  lemma WakeKeeps(s: State, r: Id)
    requires Inv(s) && Enabled(s, Wake(r))
    ensures Inv(Apply(s, Wake(r)))
  {
    WakeFindsLeader(s, r);
    QuietMoveKeeps(s, r, Apply(s, Wake(r)).requests[r]);
  }

  lemma StepKeepsInv(s: State, a: Action)
    requires Inv(s) && Enabled(s, a)
    ensures Inv(Apply(s, a))
  {
    match a
    case TakeLock(r) =>
      if s.requests[r].path in s.flights {
        JoiningKeeps(s, r);
        JoiningLinks(s, r);
      } else {
        LeadingKeeps(s, r);
        LeadingLinks(s, r);
      }
    case CallReturns(r, exchange) =>
      CallReturnsKeeps(s, r, exchange);
      CallReturnsLinks(s, r, exchange);
    case Store(r, _) =>
      StoreKeeps(s, r);
      FilesAreFree(Goto(s, r, Unregistering), Apply(s, a).files);
    case Unregister(r) =>
      UnregisterKeeps(s, r);
      UnregisterLinks(s, r);
    case CloseDone(r) =>
      CloseDoneKeeps(s, r);
      CloseDoneOwns(s, r);
      CloseDoneLinks(s, r);
    case Remove(_) => FilesAreFree(s, Apply(s, a).files);
    case Wake(r) => WakeKeeps(s, r);
    case _ => QuietStepKeeps(s, a);
  }

  lemma {:induction false} InvHolds(t: Trace, n: nat)
    requires IsRun(t) && n < |t.states|
    ensures Inv(t.states[n])
  {
    if n > 0 {
      InvHolds(t, n - 1);
      StepKeepsInv(t.states[n - 1], t.actions[n - 1]);
    }
  }

  /** Every schedule of the service's sections is a run of the protocol, so what is proved of
      runs holds of its fields: the service tries the actions in order and skips those that
      are not enabled. */
  method Drive(svc: Service, schedule: seq<Action>) returns (ghost t: Trace)
    requires svc.View() == Init(svc.files)
    modifies svc
    ensures IsRun(t) && t.states[0] == old(svc.View()) && t.states[|t.actions|] == svc.View()
    ensures t.actions == Performed(old(svc.View()), schedule)
    ensures Inv(svc.View())
  {
    t := Trace([svc.View()], []);
    var rest := schedule;
    while rest != []
      invariant IsRun(t) && t.states[0] == old(svc.View()) && t.states[|t.actions|] == svc.View()
      invariant Performed(old(svc.View()), schedule) == t.actions + Performed(svc.View(), rest)
      decreases |rest|
    {
      if Enabled(svc.View(), rest[0]) {
        svc.Perform(rest[0]);
        PerformedRegroups(t.actions, rest[0], Performed(svc.View(), rest[1..]));
        t := Trace(t.states + [svc.View()], t.actions + [rest[0]]);
      }
      rest := rest[1..];
    }
    InvHolds(t, |t.actions|);
  }

  /** The actions of a schedule that are enabled when their turn comes. */
  function Performed(s: State, schedule: seq<Action>): seq<Action>
    decreases |schedule|
  {
    if schedule == [] then []
    else if Enabled(s, schedule[0]) then [schedule[0]] + Performed(Apply(s, schedule[0]), schedule[1..])
    else Performed(s, schedule[1..])
  }

  lemma PerformedRegroups(done: seq<Action>, a: Action, more: seq<Action>)
    ensures done + ([a] + more) == done + [a] + more
  {
  }

  // ---------------------------------------------------------------------------
  // Leaders, flights and followers

  /** At every instant a path has at most one leader, the table of flights holds exactly
      the leaders' flights, and a flight's `done` is closed once, when its leader returns. */
  lemma OneLeaderPerPath(t: Trace, n: nat)
    requires IsRun(t) && n < |t.states|
    ensures var s := t.states[n];
      && (forall r, r', p :: IsLeader(s, r, p) && IsLeader(s, r', p) ==> r == r')
      && (forall r, p :: IsLeader(s, r, p) <==> p in s.flights && s.flights[p] == r)
      && (forall r :: r in s.cells ==>
            s.cells[r].closes == (if r in s.requests && s.requests[r].pc.Returned? then 1 else 0))
  {
    InvHolds(t, n);
  }

  /** `done` is never closed a second time: a leader about to close it finds it open. */
  lemma DoneIsOpenWhenClosed(t: Trace, n: nat, r: Id)
    requires IsRun(t) && n < |t.actions| && t.actions[n] == CloseDone(r)
    ensures r in t.states[n].cells && t.states[n].cells[r].closes == 0
  {
    InvHolds(t, n);
  }

  /** A follower that was not cancelled returned exactly what its leader returned. */
  lemma FollowerReturnsLeadersResult(t: Trace, n: nat, r: Id, leader: Id, result: Result)
    requires IsRun(t) && n < |t.states| && At(t.states[n], r, Returned(Followed(leader, result)))
    ensures var s := t.states[n];
      At(s, leader, Returned(Led(result))) && s.requests[leader].path == s.requests[r].path && leader != r
  {
    InvHolds(t, n);
  }

  // ---------------------------------------------------------------------------
  // Every request finishes

  function Actor(a: Action): Option<Id> {
    match a
    case Enter(_, _) => None
    case Remove(_) => None
    case _ => Some(a.r)
  }

  function Rank(pc: Pc): nat {
    match pc
    case Ready => 6
    case Missed => 5
    case Calling => 4
    case Storing => 3
    case Unregistering => 2
    case Closing => 1
    case Following(_) => 1
    case Returned(_) => 0
  }

  /** No request is stuck: it can act itself, or it waits for a leader that can. */
  lemma SomeoneCanAct(t: Trace, n: nat, r: Id) returns (a: Action)
    requires IsRun(t) && n < |t.states|
    requires r in t.states[n].requests && !t.states[n].requests[r].pc.Returned?
    ensures !a.Cancel? && Enabled(t.states[n], a)
    ensures Actor(a) == Some(r)
         || (t.states[n].requests[r].pc.Following? && Actor(a) == Some(t.states[n].requests[r].pc.leader))
  {
    InvHolds(t, n);
    var s := t.states[n];
    var pc := s.requests[r].pc;
    if pc.Following? && s.cells[pc.leader].closes > 0 {
      a := Wake(r);
    } else {
      var who := if pc.Following? then pc.leader else r;
      match s.requests[who].pc
      case Ready => a := ReadCache(who);
      case Missed => a := TakeLock(who);
      case Calling => a := CallReturns(who, Upstream.Unanswered("timeout"));
      case Storing => a := Store(who, false);
      case Unregistering => a := Unregister(who);
      case Closing => a := CloseDone(who);
    }
  }

  function StepsOf(actions: seq<Action>, r: Id): nat {
    if actions == [] then 0
    else StepsOf(actions[..|actions| - 1], r) + (if Actor(actions[|actions| - 1]) == Some(r) then 1 else 0)
  }

  function RankOf(s: State, r: Id): nat {
    if r in s.requests then Rank(s.requests[r].pc) else 6
  }

  lemma StepLowersRank(s: State, a: Action, r: Id)
    requires Enabled(s, a)
    ensures RankOf(Apply(s, a), r) + (if Actor(a) == Some(r) then 1 else 0) <= RankOf(s, r)
  {
  }

  /** A request acts at most six times in any run, so with SomeoneCanAct it always returns. */
  lemma {:induction false} StepsAreBounded(t: Trace, n: nat, r: Id)
    requires IsRun(t) && n < |t.states|
    ensures StepsOf(t.actions[..n], r) + RankOf(t.states[n], r) <= 6
  {
    if n == 0 {
      assert t.actions[..0] == [];
    } else {
      StepsAreBounded(t, n - 1, r);
      StepLowersRank(t.states[n - 1], t.actions[n - 1], r);
      assert t.actions[..n][..n - 1] == t.actions[..n - 1];
    }
  }

  // ---------------------------------------------------------------------------
  // The disk cache

  /** The sweep leaves the file of `p` alone from action `i` up to action `n`. */
  ghost predicate NotSwept(t: Trace, i: nat, n: nat, p: Path) {
    forall m :: i <= m < n && m < |t.actions| ==> t.actions[m] != Remove(p)
  }

  lemma StepKeepsFile(s: State, a: Action, p: Path)
    requires Inv(s) && Enabled(s, a) && Cached(s, p) && a != Remove(p)
    ensures Cached(Apply(s, a), p)
  {
  }

  lemma {:induction false} OnceThenAlways(holds: seq<bool>, i: nat, n: nat)
    requires i <= n < |holds| && holds[i] && forall m :: 0 <= m < |holds| - 1 && holds[m] ==> holds[m + 1]
    ensures holds[n]
    decreases n - i
  {
    if i < n {
      OnceThenAlways(holds, i, n - 1);
      assert holds[n - 1 + 1];
    }
  }

  lemma RunKeepsFile(t: Trace, m: nat, p: Path)
    requires IsRun(t) && m < |t.actions| && t.actions[m] != Remove(p) && Cached(t.states[m], p)
    ensures Cached(t.states[m + 1], p)
  {
    InvHolds(t, m);
    StepKeepsFile(t.states[m], t.actions[m], p);
  }

  lemma FileStays(t: Trace, i: nat, n: nat, p: Path)
    requires IsRun(t) && i <= n < |t.states| && NotSwept(t, i, n, p)
    requires Cached(t.states[i], p)
    ensures Cached(t.states[n], p)
  {
    var cached := seq(n - i + 1, m requires 0 <= m <= n - i => Cached(t.states[i + m], p));
    forall m | 0 <= m < n - i && cached[m]
      ensures cached[m + 1]
    {
      RunKeepsFile(t, i + m, p);
    }
    OnceThenAlways(cached, 0, n - i);
  }

  /** The request has not read the cache yet. */
  predicate Unread(s: State, r: Id) {
    r in s.requests ==> s.requests[r].pc.Ready?
  }

  predicate HasHit(s: State, r: Id) {
    r in s.requests && s.requests[r].pc.Returned? && s.requests[r].pc.reply.Hit?
  }

  /** A request for `p` is still unread or was answered from the cache. */
  predicate NeedsNoCall(s: State, r: Id, p: Path) {
    r in s.requests && s.requests[r].path == p ==> s.requests[r].pc.Ready? || HasHit(s, r)
  }

  lemma StepSparesCalls(s: State, a: Action, r: Id, p: Path)
    requires Enabled(s, a) && Cached(s, p) && NeedsNoCall(s, r, p)
    ensures NeedsNoCall(Apply(s, a), r, p)
  {
  }

  lemma {:induction false} CacheSparesCalls(t: Trace, i: nat, n: nat, r: Id, p: Path)
    requires IsRun(t) && i <= n < |t.states| && NotSwept(t, i, n, p)
    requires Cached(t.states[i], p) && NeedsNoCall(t.states[i], r, p)
    ensures NeedsNoCall(t.states[n], r, p)
    decreases n - i
  {
    if i < n {
      CacheSparesCalls(t, i, n - 1, r, p);
      FileStays(t, i, n - 1, p);
      StepSparesCalls(t.states[n - 1], t.actions[n - 1], r, p);
    }
  }

  /** The hit was read from the cache in this state. */
  predicate HitFrom(s: State, r: Id, req: Request) {
    req.pc.Returned? && req.pc.reply.Hit? ==> Cached(s, req.path) && req.pc.reply.audio == s.files[req.path]
  }

  lemma FirstReadIsReadCache(s: State, a: Action, r: Id)
    requires Enabled(s, a) && Unread(s, r) && !Unread(Apply(s, a), r)
    ensures a == ReadCache(r) && HitFrom(s, r, Apply(s, a).requests[r])
  {
  }

  lemma HitStays(s: State, a: Action, r: Id)
    requires Enabled(s, a) && !Unread(s, r)
    ensures r in Apply(s, a).requests && (HasHit(Apply(s, a), r) ==> Apply(s, a).requests[r] == s.requests[r])
  {
  }

  /** A request that has read the cache did so at some action of the run. */
  lemma {:induction false} ReadHappened(t: Trace, k: nat, n: nat, r: Id) returns (m: nat)
    requires IsRun(t) && k <= n < |t.states|
    requires Unread(t.states[k], r) && !Unread(t.states[n], r)
    ensures k <= m < n && t.actions[m] == ReadCache(r)
    ensures HitFrom(t.states[m], r, t.states[n].requests[r])
    decreases n - k
  {
    var s, a := t.states[n - 1], t.actions[n - 1];
    if Unread(s, r) {
      m := n - 1;
      FirstReadIsReadCache(s, a, r);
    } else {
      m := ReadHappened(t, k, n - 1, r);
      HitStays(s, a, r);
    }
  }

  /** Request `r` for path `p` gets the flight lock at action `j`. */
  ghost predicate TakesLock(t: Trace, j: nat, r: Id, p: Path)
    requires IsRun(t)
  {
    j < |t.actions| && t.actions[j] == TakeLock(r) && t.states[j].requests[r].path == p
  }

  /** It then leads, that is, it starts an upstream call. */
  ghost predicate StartsCall(t: Trace, j: nat, r: Id, p: Path)
    requires IsRun(t)
  {
    TakesLock(t, j, r, p) && p !in t.states[j].flights
  }

  /** Once a write for a path has succeeded, whoever still gets to the flight lock read the
      cache before that write: there is no second read under the lock. */
  lemma LateCallersReadEarlier(t: Trace, i: nat, j: nat, writer: Id, r: Id, p: Path) returns (m: nat)
    requires IsRun(t) && i < j && TakesLock(t, j, r, p)
    requires t.actions[i] == Store(writer, true) && t.states[i].requests[writer].path == p
    requires NotSwept(t, i, j, p)
    ensures m < i && t.actions[m] == ReadCache(r)
  {
    InvHolds(t, i);
    assert t.states[i + 1] == Apply(t.states[i], t.actions[i]);
    assert Cached(t.states[i + 1], p);
    if NeedsNoCall(t.states[i + 1], r, p) {
      CacheSparesCalls(t, i + 1, j, r, p);
      assert false;
    }
    m := ReadHappened(t, 0, i + 1, r);
  }

  // ---------------------------------------------------------------------------
  // How many upstream calls a path gets

  lemma {:induction false} NeverRises(ranks: seq<nat>, i: nat, n: nat)
    requires i <= n < |ranks| && forall m :: 0 <= m < |ranks| - 1 ==> ranks[m + 1] <= ranks[m]
    ensures ranks[n] <= ranks[i]
    decreases n - i
  {
    if i < n {
      NeverRises(ranks, i, n - 1);
      assert ranks[n - 1 + 1] <= ranks[n - 1];
    }
  }

  lemma RankFalls(t: Trace, i: nat, n: nat, r: Id)
    requires IsRun(t) && i <= n < |t.states|
    ensures RankOf(t.states[n], r) <= RankOf(t.states[i], r)
  {
    var ranks := seq(|t.states|, m requires 0 <= m < |t.states| => RankOf(t.states[m], r));
    forall m | 0 <= m < |t.actions|
      ensures ranks[m + 1] <= ranks[m]
    {
      StepLowersRank(t.states[m], t.actions[m], r);
    }
    NeverRises(ranks, i, n);
  }

  predicate Holds(s: State, w: Id, p: Path) {
    p in s.flights && s.flights[p] == w
  }

  lemma StepHoldsFlight(s: State, a: Action, w: Id, p: Path)
    requires Inv(s) && Enabled(s, a) && Holds(s, w, p) && a != Unregister(w)
    ensures Holds(Apply(s, a), w, p)
  {
  }

  lemma StartHoldsFlight(s: State, w: Id)
    requires At(s, w, Missed) && s.requests[w].path !in s.flights
    ensures Holds(Apply(s, TakeLock(w)), w, s.requests[w].path)
  {
  }

  /** A leader holds its path's flight until it unregisters. */
  lemma {:induction false} LeaderHoldsFlight(t: Trace, i: nat, n: nat, w: Id, p: Path)
    requires IsRun(t) && StartsCall(t, i, w, p) && i < n < |t.states|
    requires forall u :: i < u < n ==> t.actions[u] != Unregister(w)
    ensures Holds(t.states[n], w, p)
    decreases n - i
  {
    if i == n - 1 {
      StartHoldsFlight(t.states[i], w);
    } else {
      LeaderHoldsFlight(t, i, n - 1, w, p);
      InvHolds(t, n - 1);
      StepHoldsFlight(t.states[n - 1], t.actions[n - 1], w, p);
    }
  }

  /** A flight that was not there was registered by a request that started a call. */
  lemma {:induction false} FlightWasRegistered(t: Trace, i: nat, n: nat, p: Path) returns (j: nat, r: Id)
    requires IsRun(t) && i <= n < |t.states| && p !in t.states[i].flights && p in t.states[n].flights
    ensures i <= j < n && StartsCall(t, j, r, p)
    decreases n - i
  {
    assert t.states[n] == Apply(t.states[n - 1], t.actions[n - 1]);
    if p in t.states[n - 1].flights {
      j, r := FlightWasRegistered(t, i, n - 1, p);
    } else {
      j, r := n - 1, t.actions[n - 1].r;
    }
  }

  lemma UnregisterFrees(t: Trace, i: nat, u: nat, w: Id, p: Path)
    requires IsRun(t) && StartsCall(t, i, w, p) && i < u < |t.actions| && t.actions[u] == Unregister(w)
    ensures p !in t.states[u + 1].flights
  {
    PathStays(t, i, u, w, p);
    assert t.states[u + 1] == Apply(t.states[u], t.actions[u]);
  }

  predicate Asks(s: State, r: Id, p: Path) {
    r in s.requests && s.requests[r].path == p
  }

  lemma StepKeepsPath(s: State, a: Action, r: Id, p: Path)
    requires Enabled(s, a) && Asks(s, r, p)
    ensures Asks(Apply(s, a), r, p)
  {
  }

  lemma PathStays(t: Trace, i: nat, n: nat, r: Id, p: Path)
    requires IsRun(t) && i <= n < |t.states| && Asks(t.states[i], r, p)
    ensures Asks(t.states[n], r, p)
  {
    var asks := seq(|t.states|, m requires 0 <= m < |t.states| => Asks(t.states[m], r, p));
    forall m | 0 <= m < |t.actions| && asks[m]
      ensures asks[m + 1]
    {
      StepKeepsPath(t.states[m], t.actions[m], r, p);
    }
    OnceThenAlways(asks, i, n);
  }

  /** After `w` started a call for `p`, another call for it is started. */
  ghost predicate CalledAgain(t: Trace, i: nat, p: Path)
    requires IsRun(t)
  {
    exists j: nat, r :: i < j && StartsCall(t, j, r, p)
  }

  /** Some request gets to the flight lock after `w` gave its flight up. */
  ghost predicate LockTakenLater(t: Trace, i: nat, w: Id, p: Path)
    requires IsRun(t)
  {
    exists u: nat, j: nat, r :: i < u < j && TakesLock(t, j, r, p) && t.actions[u] == Unregister(w)
  }

  /** One call of a path is followed by another exactly if a request for the path gets to the
      flight lock after the first leader gave its flight up. */
  lemma CalledAgainIffLockTaken(t: Trace, i: nat, w: Id, p: Path)
    requires IsRun(t) && StartsCall(t, i, w, p)
    ensures CalledAgain(t, i, p) <==> LockTakenLater(t, i, w, p)
  {
    if j: nat, r :| i < j && StartsCall(t, j, r, p) {
      if forall u :: i < u < j ==> t.actions[u] != Unregister(w) {
        LeaderHoldsFlight(t, i, j, w, p);
        assert false;
      }
    }
    if u: nat, j: nat, r :| i < u < j && TakesLock(t, j, r, p) && t.actions[u] == Unregister(w) {
      UnregisterFrees(t, i, u, w, p);
      if p in t.states[j].flights {
        var j', r' := FlightWasRegistered(t, u + 1, j, p);
      } else {
        assert StartsCall(t, j, r, p);
      }
    }
  }

  /** Some request read the cache before the write at `k` and gets to the flight lock after
      the writer gave its flight up. */
  ghost predicate MissedTooEarly(t: Trace, k: nat, w: Id, p: Path)
    requires IsRun(t)
  {
    exists m: nat, u: nat, j: nat, r ::
      m < k < u < j && TakesLock(t, j, r, p) && t.actions[m] == ReadCache(r) && t.actions[u] == Unregister(w)
  }

  /** When the call of `w` succeeds and is stored at `k`, and no sweep removes the file, the
      path is called upstream again exactly if some request read the cache before the write
      and got to the flight lock only after `w` gave its flight up; otherwise the call of `w`
      is the path's last. */
  lemma CalledAgainIffMissedTooEarly(t: Trace, i: nat, k: nat, w: Id, p: Path)
    requires IsRun(t) && StartsCall(t, i, w, p) && i < k < |t.actions| && t.actions[k] == Store(w, true)
    requires NotSwept(t, k, |t.actions|, p)
    ensures CalledAgain(t, i, p) <==> MissedTooEarly(t, k, w, p)
  {
    CalledAgainIffLockTaken(t, i, w, p);
    PathStays(t, i, k, w, p);
    if u: nat, j: nat, r :| i < u < j && TakesLock(t, j, r, p) && t.actions[u] == Unregister(w) {
      StoreBeforeUnregister(t, k, u, w);
      var m := LateCallersReadEarlier(t, k, j, w, r, p);
    }
  }

  lemma StoreBeforeUnregister(t: Trace, k: nat, u: nat, w: Id)
    requires IsRun(t) && k < |t.actions| && u < |t.actions|
    requires t.actions[k] == Store(w, true) && t.actions[u] == Unregister(w)
    ensures k < u
  {
    if u <= k {
      RankFalls(t, u, k, w);
      assert false;
    }
  }

  lemma Extends(t: Trace, a: Action, s: State)
    requires IsRun(t) && Enabled(t.states[|t.actions|], a) && Apply(t.states[|t.actions|], a) == s
    ensures IsRun(Trace(t.states + [s], t.actions + [a]))
  {
  }

  /** Requests 0 and 1 for "p" at these positions, over no other requests. */
  function Both(pc0: Pc, pc1: Pc, flights: map<Path, Id>, cells: map<Id, Flight>, files: map<Path, Bytes>): State {
    State(map[0 := Request("p", pc0), 1 := Request("p", pc1)], flights, cells, files)
  }

  lemma Step(t: Trace, a: Action, s: State) returns (t': Trace)
    requires IsRun(t) && Enabled(t.states[|t.actions|], a) && Apply(t.states[|t.actions|], a) == s
    ensures IsRun(t') && t' == Trace(t.states + [s], t.actions + [a])
  {
    Extends(t, a, s);
    t' := Trace(t.states + [s], t.actions + [a]);
  }

  lemma BothEntered() returns (t: Trace)
    ensures IsRun(t) && |t.actions| == 2 && NotSwept(t, 0, 2, "p")
    ensures t.states[0] == Init(map[]) && t.states[2] == Both(Ready, Ready, map[], map[], map[])
  {
    t := Trace([Init(map[])], []);
    t := Step(t, Enter(0, "p"), State(map[0 := Request("p", Ready)], map[], map[], map[]));
    t := Step(t, Enter(1, "p"), Both(Ready, Ready, map[], map[], map[]));
  }

  /** Two requests that have both missed an empty cache. */
  lemma BothMissed() returns (t: Trace)
    ensures IsRun(t) && |t.actions| == 4 && NotSwept(t, 0, 4, "p")
    ensures t.states[0] == Init(map[]) && t.states[4] == Both(Missed, Missed, map[], map[], map[])
  {
    t := BothEntered();
    t := Step(t, ReadCache(0), Both(Missed, Ready, map[], map[], map[]));
    t := Step(t, ReadCache(1), Both(Missed, Missed, map[], map[], map[]));
  }

  /** One chunk of audio and the completion marker. */
  function OneChunk(audio: Bytes): Upstream.Exchange {
    Upstream.Answered([Upstream.Chunk(Upstream.CODE_CHUNK, Upstream.Part(audio)),
                       Upstream.Chunk(Upstream.CODE_DONE, Upstream.Blank)])
  }

  lemma OneChunkArrives(audio: Bytes)
    requires |audio| > 0
    ensures Upstream.ResultOf(OneChunk(audio)) == Upstream.Audio(audio)
  {
    var items := OneChunk(audio).items;
    assert items[1..] == [Upstream.Chunk(Upstream.CODE_DONE, Upstream.Blank)] && [] + audio == audio;
    assert Upstream.Folded(items, []) == Upstream.Folded(items[1..], audio);
  }

  /** Request 0 leads and stores its audio. */
  lemma FirstStored(audio: Bytes) returns (t: Trace)
    requires |audio| > 0
    ensures IsRun(t) && |t.actions| == 7 && t.states[0] == Init(map[]) && NotSwept(t, 0, 7, "p")
    ensures StartsCall(t, 4, 0, "p") && t.actions[6] == Store(0, true)
    ensures var cell := Flight("p", Some(Upstream.Audio(audio)), 0);
      t.states[7] == Both(Unregistering, Missed, map["p" := 0], map[0 := cell], map["p" := audio])
  {
    var ok := Upstream.Audio(audio);
    t := BothMissed();
    t := Step(t, TakeLock(0), Both(Calling, Missed, map["p" := 0], map[0 := Flight("p", None, 0)], map[]));
    OneChunkArrives(audio);
    t := Step(t, CallReturns(0, OneChunk(audio)),
              Both(Storing, Missed, map["p" := 0], map[0 := Flight("p", Some(ok), 0)], map[]));
    t := Step(t, Store(0, true),
              Both(Unregistering, Missed, map["p" := 0], map[0 := Flight("p", Some(ok), 0)], map["p" := audio]));
  }

  lemma StepKeepsStarts(t: Trace, a: Action, s: State, j: nat, r: Id, p: Path) returns (t': Trace)
    requires IsRun(t) && Enabled(t.states[|t.actions|], a) && Apply(t.states[|t.actions|], a) == s
    requires StartsCall(t, j, r, p) && NotSwept(t, 0, |t.actions|, p) && a != Remove(p)
    ensures IsRun(t') && t' == Trace(t.states + [s], t.actions + [a])
    ensures StartsCall(t', j, r, p) && NotSwept(t', 0, |t'.actions|, p)
  {
    t' := Step(t, a, s);
  }

  lemma FirstUnregistered(audio: Bytes) returns (t: Trace)
    requires |audio| > 0
    ensures IsRun(t) && |t.actions| == 8 && t.states[0] == Init(map[]) && NotSwept(t, 0, 8, "p")
    ensures StartsCall(t, 4, 0, "p") && t.actions[6] == Store(0, true)
    ensures var cell := Flight("p", Some(Upstream.Audio(audio)), 0);
      t.states[8] == Both(Closing, Missed, map[], map[0 := cell], map["p" := audio])
  {
    t := FirstStored(audio);
    var s := Both(Closing, Missed, map[], t.states[7].cells, t.states[7].files);
    t := StepKeepsStarts(t, Unregister(0), s, 4, 0, "p");
  }

  lemma FirstReturned(audio: Bytes) returns (t: Trace)
    requires |audio| > 0
    ensures IsRun(t) && |t.actions| == 9 && t.states[0] == Init(map[]) && NotSwept(t, 0, 9, "p")
    ensures StartsCall(t, 4, 0, "p") && t.actions[6] == Store(0, true)
    ensures var ok := Upstream.Audio(audio);
      t.states[9] == Both(Returned(Led(ok)), Missed, map[], map[0 := Flight("p", Some(ok), 1)], map["p" := audio])
  {
    t := FirstUnregistered(audio);
    var ok := Upstream.Audio(audio);
    var s := Both(Returned(Led(ok)), Missed, map[], map[0 := Flight("p", Some(ok), 1)], t.states[8].files);
    t := StepKeepsStarts(t, CloseDone(0), s, 4, 0, "p");
  }

  /** Two calls for one path over an empty cache: request 1 misses before request 0 stores its
      audio, and takes the lock after it. */
  lemma SecondUpstreamCall(audio: Bytes) returns (t: Trace)
    requires |audio| > 0
    ensures IsRun(t) && |t.actions| == 10 && t.states[0] == Init(map[]) && NotSwept(t, 0, 10, "p")
    ensures StartsCall(t, 4, 0, "p") && t.actions[6] == Store(0, true) && StartsCall(t, 9, 1, "p")
  {
    t := FirstReturned(audio);
    var s := t.states[9];
    var calling := Both(s.requests[0].pc, Calling, map["p" := 1], s.cells[1 := Flight("p", None, 0)], s.files);
    t := StepKeepsStarts(t, TakeLock(1), calling, 4, 0, "p");
  }

  /** A request that has not read the cache when the file lands never calls upstream; once
      it returns, it returns the bytes the file held when it read it, which are not empty. */
  lemma LaterRequestsHit(t: Trace, i: nat, n: nat, r: Id, p: Path) returns (m: nat)
    requires IsRun(t) && i <= n < |t.states| && NotSwept(t, i, n, p)
    requires Cached(t.states[i], p) && Unread(t.states[i], r)
    requires r in t.states[n].requests && t.states[n].requests[r].path == p
    ensures t.states[n].requests[r].pc.Ready? || HasHit(t.states[n], r)
    ensures HasHit(t.states[n], r) ==>
      && i <= m < n && t.actions[m] == ReadCache(r) && p in t.states[m].files
      && t.states[n].requests[r].pc.reply == Hit(t.states[m].files[p]) && |t.states[m].files[p]| > 0
  {
    CacheSparesCalls(t, i, n, r, p);
    m := 0;
    if HasHit(t.states[n], r) {
      m := ReadHappened(t, i, n, r);
    }
  }

  // ---------------------------------------------------------------------------
  // Where the bytes come from

  /** Before action `n` an upstream call of `w`, which asked for `p`, answered these bytes. */
  ghost predicate CallGave(t: Trace, n: nat, w: Id, p: Path, bytes: Bytes)
    requires IsRun(t)
  {
    exists k: nat :: k < n && k < |t.actions| && t.actions[k].CallReturns? && t.actions[k].r == w
      && Upstream.ResultOf(t.actions[k].exchange) == Upstream.Audio(bytes) && Asks(t.states[k], w, p)
  }

  lemma CallGaveStays(t: Trace, n: nat, w: Id, p: Path, bytes: Bytes)
    requires IsRun(t) && CallGave(t, n, w, p, bytes)
    ensures CallGave(t, n + 1, w, p, bytes)
  {
  }

  predicate HasResult(s: State, w: Id, result: Result) {
    w in s.cells && s.cells[w].result == Some(result)
  }

  lemma ResultIsOldOrReturned(s: State, a: Action, w: Id, result: Result)
    requires Enabled(s, a) && HasResult(Apply(s, a), w, result)
    ensures HasResult(s, w, result) || (a.CallReturns? && a.r == w && Upstream.ResultOf(a.exchange) == result)
  {
  }

  /** The audio in a flight came from an upstream call of its leader. */
  lemma {:induction false} FlightAudioIsUpstreams(t: Trace, n: nat, w: Id, p: Path, bytes: Bytes)
    requires IsRun(t) && n < |t.states| && HasResult(t.states[n], w, Upstream.Audio(bytes)) && Asks(t.states[n], w, p)
    ensures CallGave(t, n, w, p, bytes)
  {
    if n > 0 {
      var s, a := t.states[n - 1], t.actions[n - 1];
      ResultIsOldOrReturned(s, a, w, Upstream.Audio(bytes));
      CellsHaveRequests(t, n - 1, w);
      if w in s.requests {
        PathStays(t, n - 1, n, w, s.requests[w].path);
      }
      if HasResult(s, w, Upstream.Audio(bytes)) {
        FlightAudioIsUpstreams(t, n - 1, w, p, bytes);
        CallGaveStays(t, n - 1, w, p, bytes);
      }
    }
  }

  lemma CellsHaveRequests(t: Trace, n: nat, w: Id)
    requires IsRun(t) && n < |t.states|
    ensures w in t.states[n].cells ==> w in t.states[n].requests
  {
    InvHolds(t, n);
  }

  lemma FileIsOldOrStored(s: State, a: Action, p: Path)
    requires Enabled(s, a) && p in Apply(s, a).files
    ensures (p in s.files && s.files[p] == Apply(s, a).files[p])
         || (a.Store? && HasResult(s, a.r, Upstream.Audio(Apply(s, a).files[p])) && Asks(s, a.r, p))
  {
  }

  /** In every run each cache file is one of those an earlier process left behind, or holds
      what an upstream call for its path answered. */
  lemma {:induction false} FilesAreUpstreams(t: Trace, n: nat, p: Path)
    requires IsRun(t) && n < |t.states| && p in t.states[n].files
    ensures (p in t.states[0].files && t.states[0].files[p] == t.states[n].files[p])
         || exists w :: CallGave(t, n, w, p, t.states[n].files[p])
  {
    if n > 0 {
      var s, a, bytes := t.states[n - 1], t.actions[n - 1], t.states[n].files[p];
      FileIsOldOrStored(s, a, p);
      if p in s.files && s.files[p] == bytes {
        var m := n - 1;
        FilesAreUpstreams(t, m, p);
        if w :| CallGave(t, m, w, p, bytes) {
          CallGaveStays(t, m, w, p, bytes);
        }
      } else {
        FlightAudioIsUpstreams(t, n - 1, a.r, p, bytes);
        CallGaveStays(t, n - 1, a.r, p, bytes);
      }
    }
  }

  /** The request was given these bytes, from the cache, by its own call or by its leader's. */
  predicate WasGiven(s: State, r: Id, bytes: Bytes) {
    && r in s.requests && s.requests[r].pc.Returned?
    && match s.requests[r].pc.reply
       case Hit(audio) => audio == bytes
       case Led(result) => result == Upstream.Audio(bytes)
       case Followed(_, result) => result == Upstream.Audio(bytes)
       case Cancelled => false
  }

  lemma {:induction false} CallGaveUpTo(t: Trace, m: nat, n: nat, w: Id, p: Path, bytes: Bytes)
    requires IsRun(t) && m <= n && CallGave(t, m, w, p, bytes)
    ensures CallGave(t, n, w, p, bytes)
  {
  }

  /** All audio a request is given is a file an earlier process left for its path, or the answer
      of an upstream call made for that path. */
  lemma AudioIsUpstreams(t: Trace, n: nat, r: Id, bytes: Bytes)
    requires IsRun(t) && n < |t.states| && WasGiven(t.states[n], r, bytes)
    ensures var p := t.states[n].requests[r].path;
      (p in t.states[0].files && t.states[0].files[p] == bytes) || exists w :: CallGave(t, n, w, p, bytes)
  {
    var p, reply := t.states[n].requests[r].path, t.states[n].requests[r].pc.reply;
    InvHolds(t, n);
    match reply
    case Hit(_) =>
      var m := ReadHappened(t, 0, n, r);
      FilesAreUpstreams(t, m, p);
      if w :| CallGave(t, m, w, p, bytes) {
        CallGaveUpTo(t, m, n, w, p, bytes);
      }
    case Led(_) => FlightAudioIsUpstreams(t, n, r, p, bytes);
    case Followed(leader, _) => FlightAudioIsUpstreams(t, n, leader, p, bytes);
    case Cancelled =>
  }

  /** With bar-free speakers and an empty cache at the start: whatever audio a request is given
      was synthesized upstream for the same speaker, rate and normalized text. */
  lemma AudioSpeaksTheRequest(t: Trace, n: nat, r: Id, bytes: Bytes, l: CacheKey.Limits, resource: string,
                              asked: map<Id, CacheKey.Request>)
    requires IsRun(t) && n < |t.states| && t.states[0].files == map[] && WasGiven(t.states[n], r, bytes)
    requires forall speaker :: speaker in l.speakers ==> '|' !in speaker
    requires forall id :: id in t.states[n].requests ==>
      && id in asked && CacheKey.IsKeyed(l, asked[id])
      && t.states[n].requests[id].path == CacheKey.KeyOf(resource, asked[id])
    ensures exists w :: w in asked && asked[w] == asked[r] && CallGave(t, n, w, t.states[n].requests[r].path, bytes)
  {
    var p := t.states[n].requests[r].path;
    AudioIsUpstreams(t, n, r, bytes);
    var w :| CallGave(t, n, w, p, bytes);
    var k: nat :| k < n && k < |t.actions| && t.actions[k].CallReturns? && t.actions[k].r == w
      && Upstream.ResultOf(t.actions[k].exchange) == Upstream.Audio(bytes) && Asks(t.states[k], w, p);
    PathStays(t, k, n, w, p);
    CacheKey.SameKeySameRequest(l, resource, asked[w], asked[r]);
  }
}
