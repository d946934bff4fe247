/** The single-flight protocol of Synthesize in internal/tts/service.go, as a state machine
    whose actions are the method's atomic sections.  A request is known by an identifier; the
    flight a leader allocates is known by its leader.  Upstream calls, failing cache writes,
    client cancellation and cache sweeps are actions with any outcome, in any order. */
module SingleFlight {
  import opened Options
  import CacheKey
  import Text
  import Upstream

  type Path = string
  type Id = nat
  type Bytes = seq<bv8>

  type Result = Upstream.Result

  datatype Reply =
    | Hit(audio: Bytes)                     // served from the disk cache
    | Led(result: Result)                   // made the upstream call itself
    | Followed(leader: Id, result: Result)  // waited for another request's flight
    | Cancelled                             // gave up waiting

  datatype Pc =
    | Ready                  // validated, cache not read yet
    | Missed                 // the cache read missed, the flight lock not taken yet
    | Following(leader: Id)  // waits for the leader's `done`
    | Calling                // flight registered, upstream call running
    | Storing                // upstream answered without error, cache file not written yet
    | Unregistering          // about to delete the flight
    | Closing                // about to close `done`
    | Returned(reply: Reply)

  datatype Request = Request(path: Path, pc: Pc)

  /** A flight: what its leader publishes, and how often `done` was closed. */
  datatype Flight = Flight(path: Path, result: Option<Result>, closes: nat)

  datatype State = State(
    requests: map<Id, Request>,
    flights: map<Path, Id>,
    cells: map<Id, Flight>,
    files: map<Path, Bytes>)

  datatype Action =
    | Enter(r: Id, path: Path)
    | ReadCache(r: Id)
    | TakeLock(r: Id)
    | CallReturns(r: Id, exchange: Upstream.Exchange)
    | Store(r: Id, written: bool)
    | Unregister(r: Id)
    | CloseDone(r: Id)
    | Wake(r: Id)
    | Cancel(r: Id)
    | Remove(path: Path)  // a cache sweep deletes one file

  predicate At(s: State, r: Id, pc: Pc) {
    r in s.requests && s.requests[r].pc == pc
  }

  /** A cache read that counts: the file exists and is not empty. */
  predicate Cached(s: State, path: Path) {
    path in s.files && |s.files[path]| > 0
  }

  predicate Enabled(s: State, a: Action) {
    match a
    case Enter(r, _) => r !in s.requests
    case ReadCache(r) => At(s, r, Ready)
    case TakeLock(r) => At(s, r, Missed)
    case CallReturns(r, _) => At(s, r, Calling) && r in s.cells
    case Store(r, _) => At(s, r, Storing) && r in s.cells && s.cells[r].result.Some? && s.cells[r].result.value.Audio?
    case Unregister(r) => At(s, r, Unregistering)
    case CloseDone(r) => At(s, r, Closing) && r in s.cells && s.cells[r].result.Some?
    case Wake(r) =>
      && r in s.requests && s.requests[r].pc.Following? && s.requests[r].pc.leader in s.cells
      && s.cells[s.requests[r].pc.leader].closes > 0 && s.cells[s.requests[r].pc.leader].result.Some?
    case Cancel(r) => r in s.requests && s.requests[r].pc.Following?
    case Remove(path) => path in s.files
  }

  function Goto(s: State, r: Id, pc: Pc): State
    requires r in s.requests
  {
    s.(requests := s.requests[r := s.requests[r].(pc := pc)])
  }

  function Apply(s: State, a: Action): State
    requires Enabled(s, a)
  {
    match a
    case Enter(r, path) => s.(requests := s.requests[r := Request(path, Ready)])
    case ReadCache(r) =>
      var path := s.requests[r].path;
      if Cached(s, path) then Goto(s, r, Returned(Hit(s.files[path]))) else Goto(s, r, Missed)
    case TakeLock(r) =>
      var path := s.requests[r].path;
      if path in s.flights then Goto(s, r, Following(s.flights[path]))
      else Goto(s, r, Calling).(flights := s.flights[path := r], cells := s.cells[r := Flight(path, None, 0)])
    case CallReturns(r, exchange) =>
      var result := Upstream.ResultOf(exchange);
      Goto(s, r, if result.Audio? then Storing else Unregistering)
        .(cells := s.cells[r := s.cells[r].(result := Some(result))])
    case Store(r, written) =>
      var s' := Goto(s, r, Unregistering);
      if written then s'.(files := s.files[s.requests[r].path := s.cells[r].result.value.bytes]) else s'
    case Unregister(r) => Goto(s, r, Closing).(flights := s.flights - {s.requests[r].path})
    case CloseDone(r) =>
      Goto(s, r, Returned(Led(s.cells[r].result.value)))
        .(cells := s.cells[r := s.cells[r].(closes := s.cells[r].closes + 1)])
    case Wake(r) =>
      var leader := s.requests[r].pc.leader;
      Goto(s, r, Returned(Followed(leader, s.cells[leader].result.value)))
    case Cancel(r) => Goto(s, r, Returned(Cancelled))
    case Remove(path) => s.(files := s.files - {path})
  }

  /** A service that starts over the files an earlier process left behind. */
  function Init(files: map<Path, Bytes>): State {
    State(map[], map[], map[], files)
  }

  /** An execution: `states[i]` is the state before `actions[i]`. */
  datatype Trace = Trace(states: seq<State>, actions: seq<Action>)

  ghost predicate IsRun(t: Trace) {
    && |t.states| == |t.actions| + 1
    && (exists files :: t.states[0] == Init(files))
    && forall i :: 0 <= i < |t.actions| ==>
         Enabled(t.states[i], t.actions[i]) && t.states[i + 1] == Apply(t.states[i], t.actions[i])
  }

  // ---------------------------------------------------------------------------
  // The service, section by section

  /** What a caller of Synthesize gets, or that it waits for another request's call. */
  datatype Answer =
    | InvalidText
    | SpeakerNotAllowed
    | Uncached(result: Result)
    | Replied(reply: Reply)
    | Waiting(leader: Id)

  /** A request for `path` that nothing interferes with: `upstream` is what a call would answer
      and `written` whether the cache write would succeed. */
  function Served(s: State, r: Id, path: Path, upstream: Result, written: bool): (State, Answer) {
    if Cached(s, path) then
      var reply := Hit(s.files[path]);
      (s.(requests := s.requests[r := Request(path, Returned(reply))]), Replied(reply))
    else if path in s.flights then
      (s.(requests := s.requests[r := Request(path, Following(s.flights[path]))]), Waiting(s.flights[path]))
    else
      var files := if upstream.Audio? && written then s.files[path := upstream.bytes] else s.files;
      (s.(requests := s.requests[r := Request(path, Returned(Led(upstream)))],
          cells := s.cells[r := Flight(path, Some(upstream), 1)], files := files),
       Replied(Led(upstream)))
  }

  class Service {
    const resource: string
    const limits: CacheKey.Limits
    var requests: map<Id, Request>
    var flights: map<Path, Id>
    var cells: map<Id, Flight>
    var files: map<Path, Bytes>

    function View(): State
      reads this
    {
      State(requests, flights, cells, files)
    }

    constructor (resource: string, limits: CacheKey.Limits, files: map<Path, Bytes>)
      ensures this.resource == resource && this.limits == limits && View() == Init(files)
    {
      this.resource, this.limits := resource, limits;
      requests, flights, cells, this.files := map[], map[], map[], files;
    }

    method ReadFile(r: Id) returns (hit: bool)
      requires Enabled(View(), ReadCache(r))
      modifies this
      ensures View() == Apply(old(View()), ReadCache(r))
      ensures hit <==> Cached(old(View()), requests[r].path)
    {
      var req := requests[r];
      hit := req.path in files && |files[req.path]| > 0;
      requests := requests[r := req.(pc := if hit then Returned(Hit(files[req.path])) else Missed)];
    }

    method JoinOrLead(r: Id) returns (leads: bool)
      requires Enabled(View(), TakeLock(r))
      modifies this
      ensures View() == Apply(old(View()), TakeLock(r))
      ensures leads <==> requests[r].path !in old(flights)
    {
      var req := requests[r];
      leads := req.path !in flights;
      if leads {
        flights := flights[req.path := r];
        cells := cells[r := Flight(req.path, None, 0)];
        requests := requests[r := req.(pc := Calling)];
      } else {
        requests := requests[r := req.(pc := Following(flights[req.path]))];
      }
    }

    /** The upstream call, and its result in the flight. */
    method Publish(r: Id, exchange: Upstream.Exchange)
      requires Enabled(View(), CallReturns(r, exchange))
      modifies this
      ensures View() == Apply(old(View()), CallReturns(r, exchange))
    {
      var result := Upstream.CallUpstream(exchange);
      cells := cells[r := cells[r].(result := Some(result))];
      requests := requests[r := requests[r].(pc := if result.Audio? then Storing else Unregistering)];
    }

    method WriteFile(r: Id, written: bool)
      requires Enabled(View(), Store(r, written))
      modifies this
      ensures View() == Apply(old(View()), Store(r, written))
    {
      if written {
        files := files[requests[r].path := cells[r].result.value.bytes];
      }
      requests := requests[r := requests[r].(pc := Unregistering)];
    }

    method DeleteFlight(r: Id)
      requires Enabled(View(), Unregister(r))
      modifies this
      ensures View() == Apply(old(View()), Unregister(r))
    {
      flights := flights - {requests[r].path};
      requests := requests[r := requests[r].(pc := Closing)];
    }

    method Close(r: Id) returns (result: Result)
      requires Enabled(View(), CloseDone(r))
      modifies this
      ensures View() == Apply(old(View()), CloseDone(r))
      ensures requests[r].pc == Returned(Led(result))
    {
      result := cells[r].result.value;
      cells := cells[r := cells[r].(closes := cells[r].closes + 1)];
      requests := requests[r := requests[r].(pc := Returned(Led(result)))];
    }

    /** The leader's part of Synthesize, from registering its flight to closing it. */
    method Lead(r: Id, exchange: Upstream.Exchange, written: bool) returns (upstream: Result)
      requires At(View(), r, Calling) && r in cells
      modifies this
      ensures upstream == Upstream.ResultOf(exchange)
      ensures requests == old(requests)[r := Request(old(requests)[r].path, Returned(Led(upstream)))]
      ensures flights == old(flights) - {old(requests)[r].path}
      ensures var cell := old(cells)[r];
        cells == old(cells)[r := cell.(result := Some(upstream), closes := cell.closes + 1)]
      ensures files ==
        if upstream.Audio? && written then old(files)[old(requests)[r].path := upstream.bytes] else old(files)
    {
      CallAndStore(r, exchange, written);
      DeleteFlight(r);
      upstream := Close(r);
    }

    /** Up to the cache write. */
    method CallAndStore(r: Id, exchange: Upstream.Exchange, written: bool)
      requires At(View(), r, Calling) && r in cells
      modifies this
      ensures requests == old(requests)[r := old(requests)[r].(pc := Unregistering)] && flights == old(flights)
      ensures cells == old(cells)[r := old(cells)[r].(result := Some(Upstream.ResultOf(exchange)))]
      ensures var upstream := Upstream.ResultOf(exchange);
        files == if upstream.Audio? && written then old(files)[old(requests)[r].path := upstream.bytes] else old(files)
    {
      Publish(r, exchange);
      if cells[r].result.value.Audio? {
        WriteFile(r, written);
      }
    }

    method Serve(r: Id, path: Path, exchange: Upstream.Exchange, written: bool) returns (answer: Answer)
      requires r !in requests
      modifies this
      ensures (View(), answer) == Served(old(View()), r, path, Upstream.ResultOf(exchange), written)
    {
      requests := requests[r := Request(path, Ready)];
      var hit := ReadFile(r);
      if hit {
        assert requests == old(requests)[r := Request(path, Returned(Hit(files[path])))];
        return Replied(Hit(files[path]));
      }
      assert requests == old(requests)[r := Request(path, Missed)];
      OwnEntryIsReplaced(old(View()), r, requests[r], Upstream.ResultOf(exchange), written);
      answer := Fetch(r, exchange, written);
    }

    lemma OwnEntryIsReplaced(s: State, r: Id, req: Request, upstream: Result, written: bool)
      ensures Served(s.(requests := s.requests[r := req]), r, req.path, upstream, written)
           == Served(s, r, req.path, upstream, written)
    {
      var last := Served(s, r, req.path, upstream, written).0.requests[r];
      assert s.requests[r := req][r := last] == s.requests[r := last];
    }

    /** What follows a miss: wait for the flight of the path, or lead. */
    method Fetch(r: Id, exchange: Upstream.Exchange, written: bool) returns (answer: Answer)
      requires At(View(), r, Missed) && !Cached(View(), requests[r].path)
      modifies this
      ensures (View(), answer) == Served(old(View()), r, old(requests)[r].path, Upstream.ResultOf(exchange), written)
    {
      var path := requests[r].path;
      var leads := JoinOrLead(r);
      if !leads {
        return Waiting(flights[path]);
      }
      var upstream := Lead(r, exchange, written);
      assert requests == old(requests)[r := Request(path, Returned(Led(upstream)))];
      assert flights == old(flights) && cells == old(cells)[r := Flight(path, Some(upstream), 1)];
      return Replied(Led(upstream));
    }

    /** A whole request: refused, spoken without the cache, or served under its key. */
    method Synthesize(r: Id, req: CacheKey.Request, exchange: Upstream.Exchange, written: bool) returns (answer: Answer)
      requires r !in requests
      modifies this
      ensures match CacheKey.PlanOf(limits, req)
        case InvalidText => answer == InvalidText && View() == old(View())
        case SpeakerNotAllowed => answer == SpeakerNotAllowed && View() == old(View())
        case Direct(_) => answer == Uncached(Upstream.ResultOf(exchange)) && View() == old(View())
        case Keyed(req') =>
          var path := CacheKey.KeyOf(resource, req');
          (View(), answer) == Served(old(View()), r, path, Upstream.ResultOf(exchange), written)
      ensures var text := Text.TrimSpace(req.text);
        var rate := if req.rate < -50 then -50 else if req.rate > 100 then 100 else req.rate;
        var path := resource + "|" + req.speaker + "|" + CacheKey.Decimal(rate) + "|" + text;
        var upstream := Upstream.ResultOf(exchange);
        if text == "" || |text| > limits.maxText then answer == InvalidText && View() == old(View())
        else if req.speaker !in limits.speakers then answer == SpeakerNotAllowed && View() == old(View())
        else if |text| > limits.maxCached then answer == Uncached(upstream) && View() == old(View())
        else if path in old(files) && |old(files)[path]| > 0 then
          answer == Replied(Hit(old(files)[path])) && files == old(files) && flights == old(flights)
        else if path in old(flights) then
          answer == Waiting(old(flights)[path]) && files == old(files) && flights == old(flights)
        else
          && answer == Replied(Led(upstream)) && flights == old(flights)
          && files == if upstream.Audio? && written then old(files)[path := upstream.bytes] else old(files)
    {
      var text := Text.TrimSpace(req.text);
      if text == "" || |text| > limits.maxText {
        return InvalidText;
      }
      if req.speaker !in limits.speakers {
        return SpeakerNotAllowed;
      }
      var rate := if req.rate < CacheKey.SLOWEST then CacheKey.SLOWEST else req.rate;
      rate := if rate > CacheKey.FASTEST then CacheKey.FASTEST else rate;
      if |text| > limits.maxCached {
        var result := Upstream.CallUpstream(exchange);
        return Uncached(result);
      }
      answer := Serve(r, CacheKey.Key(resource, req.speaker, rate, text), exchange, written);
    }

    /** Any action of the protocol, on the fields. */
    method Perform(a: Action)
      requires Enabled(View(), a)
      modifies this
      ensures View() == Apply(old(View()), a)
    {
      match a
      case Enter(r, path) => requests := requests[r := Request(path, Ready)];
      case ReadCache(r) => var hit := ReadFile(r);
      case TakeLock(r) => var leads := JoinOrLead(r);
      case CallReturns(r, exchange) => Publish(r, exchange);
      case Store(r, written) => WriteFile(r, written);
      case Unregister(r) => DeleteFlight(r);
      case CloseDone(r) => var result := Close(r);
      case Wake(r) =>
        var leader := requests[r].pc.leader;
        requests := requests[r := requests[r].(pc := Returned(Followed(leader, cells[leader].result.value)))];
      case Cancel(r) => requests := requests[r := requests[r].(pc := Returned(Cancelled))];
      case Remove(path) => files := files - {path};
    }
  }
}
