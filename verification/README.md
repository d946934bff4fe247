# Verified models of the dictionary API server

Dafny models of the stateful and translating parts of the server, with proofs about whole
runs. `dafny verify dfyconfig.toml` checks everything.

| module | component |
|---|---|
| `RateLimit`, `RateLimitTheory`, `RateLimitRuns`, `RateLimitExact`, `RateLimitAnswers` | the per-key token-bucket limiter: a `Limiter` class over bucket objects, what it promises over runs, the exact conditions of its promises, and what its callers see of them |
| `Float64`, `RateLimitRounding`, `RateLimitOnTime`, `RateLimitShortfalls` | rounding to the nearest float64, what it leaves of the limiter's wait, and the exact condition under which the seconds of Retry-After are enough |
| `SingleFlight`, `SingleFlightTheory` | the single-flight protocol and disk cache of `Synthesize`, as a state machine of the method's atomic sections; a `Service` class performs the same sections on fields |
| `Upstream`, `CacheKey`, `CacheSweep` | the chunked upstream answer, request normalization and the cache key, LRU eviction of the cache directory |
| `Text`, `PrefixRange`, `LikePattern`, `FtsQuery`, `FuzzySearch` | white space and UTF-8, the three search translations: prefix to byte range, text to LIKE pattern, text to FTS5 query, and fuzzy search end to end |
| `WordTable`, `Importer` | the words table with its full-text triggers, batched upserts, the CSV importer |
| `Analytics`, `AnalyticsTheory` | event ingestion, batched purging, and at-most-once acceptance across retention |
| `Feedback` | the claim / forward / un-claim protocol of feedback submission |
| `Admission`, `Sanitizer` | slots, daily budget and request sanitizer of the LLM proxy |
| `Options` | a datatype the others share |

A run is a sequence of atomic steps: what the source does under one lock, one SQL statement
or transaction, or one file operation. Outcomes the program does not decide (upstream
answers, database errors, client cancellation, which file removals fail, the order in which
goroutines reach a lock, clock readings) are step parameters, so a theorem about every run
covers all of them. Methods on classes follow the source's own in-place code and are proved
equal to the step functions the run theorems use. Each step function is also decided case by
case in figures and in the fields it reads (`CheckDecides`, `EachEnding`, `LookupFinds`,
`WordReadsItsColumns`, `SanitizeDecides`, `RefusedEvents`, `PlanDecides`).

## What the proofs found

Where a promise does not hold of the code as it stands, the exact condition is proved.

- **Swept buckets are "indistinguishable from new"** (`internal/ratelimit/ratelimit.go:194`):
  for each limiter with room for two keys, and in exact arithmetic, true exactly when clock
  readings reach the lock at most 500 ms out of order; one nanosecond more, and even the rate is
  exceeded (`LagToleranceIsExact`). The clock is read before the lock; the sweep's one second of
  slack is used up twice, once by the bucket's reading and once by the sweep's. (At some rates,
  23 and 31 among them but none of the defaults, float64 truncates the sweep's threshold to one
  nanosecond under 61 s; the model's is 61 s at every rate.)
- **Retry-After**: for a client that comes back exactly the announced seconds later, float64
  keeps the promise in all runs of a bucket if and only if the limit is more than sixty per
  minute (`OnTimeIsExact`); of the default rates 5, 10, 60 and 120 only the last does. At rates
  that do not divide 60·10^9 the wait is truncated to whole seconds; at the others, rounding
  leaves the bucket one unit in the last place under a token, which the runs of
  `RateLimitShortfalls` show number by number. Two nanoseconds more are enough at every rate, up
  to a thousand calls after the denial (`RetryAfterWithSlack`). In exact arithmetic any later
  instant is (`LaterIsAlwaysEnough`), and the announced seconds are exactly for rates that divide
  60·10^9 or whose share of a minute plus the clock lag is under a second (`RetryAfterIsExact`).
- **The wait of a denial** holds unless the key's bucket was evicted meanwhile and the table is
  still full after the sweeps (`WaitIsTight`); it cannot happen to a client whose last call is
  never more than 61 s back, however long it goes on (`SteadyClientIsServed`).
- **One upstream call per cache key** is not what the code gives (`SecondUpstreamCall`): there
  is no second cache read under the lock. With a stored, unswept first call, another call is
  made exactly if some request read the cache before that write and got to the flight lock
  after the leader deleted its flight (`CalledAgainIffMissedTooEarly`); whoever reads the cache
  later is served from the file (`LaterRequestsHit`). All audio that a request
  is given was in the cache at the start or answers an upstream call for its path
  (`AudioIsUpstreams`), which with bar-free speakers means its own speaker, rate and normalized
  text (`AudioSpeaksTheRequest`).
- **Cache keys** of different requests coincide for a pair of speakers exactly when one name,
  followed by a bar, starts with the other, a bar, a rate and a bar, and a cached text can
  begin with the remainder (`CollisionsCharacterized`); bar-free speaker names are safe.
- **LIKE and FTS5 escaping** mean what they should exactly for queries without a NUL character
  (`LikeContainsIffNulFree`, `QueryMeansTerms`).
- **Words are stored under an untrimmed key and looked up under a trimmed one**: a stored word
  is found under its own spelling exactly when trimming keeps its key (`StoredWordIsFound`).
  The importer only stores trimmed words.
- **Analytics retention** keeps acceptance at most once exactly when it is disabled or its
  cutoff lies at least 31 days plus the clock lag back (`SafeRetentionIsExact`). Up to 106751
  days that is a matter of the days (`SafeDays`): the default of 395 is safe, the configuration
  also admits 1 to 30. It sets no maximum either, and from 106752 days on the duration
  overflows: the cutoff moves into the future and a purge removes everything
  (`WrappedDaysRepeat`).
- **Feedback is "forwarded at most once"** (`migrations/schema.sql:78`): successful
  forwardings are at most one per id in every run (`ClaimTracksOwner`), but a failed one is
  retried. A duplicate answer means exactly that the id was delivered, that a call is in flight
  with it, or that a DELETE failed for it (`DuplicateMeaning`). So it may be given before the
  first call fails (`DuplicateBeforeFailure`), and a failing DELETE, whose error the code
  ignores, blocks for good an id that nobody delivered (`StuckIdIsBlocked`).
- **The daily budget** is kept for a day exactly when the day's takes reach the budget lock in
  one block or are no more than the budget (`BudgetKeptIff`); the day is read before the lock,
  so a day can come back after another one.
- **Sanitizing twice** is the same as once, except for an `input` array written with blanks
  between its brackets: it passes once, and its compacted form is refused
  (`SanitizeIdempotent`).

## Model

| member | source | states |
|---|---|---|
| RateLimit.Limiter.constructor | internal/ratelimit/ratelimit.go:133-146 | a new limiter has no buckets, and its last sweep is the construction time |
| RateLimit.Limiter.SweepLocked | internal/ratelimit/ratelimit.go:195-203 | deletes exactly the buckets last read more than 61 s ago, touches no other, remembers the sweep |
| RateLimit.Limiter.MakeRoom | internal/ratelimit/ratelimit.go:166-174 | the sweeps of one call: after ten minutes, and once more for a new key in a full table |
| RateLimit.Limiter.TakeToken | internal/ratelimit/ratelimit.go:184-191 | refill, then let in with one token less or refused with the wait; changes only that key's bucket |
| RateLimit.Limiter.ServeSwept | internal/ratelimit/ratelimit.go:170-191 | after the sweeps: refuse a new key in a full table with a wait of a minute, else open its bucket and take from it |
| RateLimit.Limiter.Check | internal/ratelimit/ratelimit.go:158-192 | the imperative call on shared bucket objects is one `CheckStep`; in figures: a key whose bucket no sweep dropped is let in exactly if its refilled tokens reach one, and is otherwise told what is missing over the rate, rounded down; any other key starts full, or is told a minute when the table is full |
| RateLimit.CheckDecides | internal/ratelimit/ratelimit.go:166-203 | the same of every state: which bucket is kept, what is refilled, who is let in, which wait is told |
| RateLimit.CheckSparesOthers | internal/ratelimit/ratelimit.go:166-203 | when a call sweeps, and that it drops exactly the other keys idle for more than 61 s and touches nothing else of theirs |
| RateLimitTheory.StepSimulates | internal/ratelimit/ratelimit.go:158-203 | one call keeps the simulation with a limiter that never evicts, and answers the same; a call refused at the key cap changes neither |
| RateLimitTheory.RunSimulates | internal/ratelimit/ratelimit.go:158-203 | the simulation over a whole run: an absent key's reference bucket is missing, or full at every later reading |
| RateLimitTheory.EvictionIsInvisible | internal/ratelimit/ratelimit.go:194-203 | every run whose readings lag at most 500 ms (so every nondecreasing clock) is answered exactly as by a limiter without eviction |
| RateLimitTheory.RateIsBounded | internal/ratelimit/ratelimit.go:166-191 | for any key and window, admissions are at most capacity plus rate times the window, across evictions and re-creations |
| RateLimitTheory.AnyClockBound | internal/ratelimit/ratelimit.go:162-191 | readings in any order on an unevicted bucket: admissions are at most the drop in tokens plus rate times the advance of `last`, and debt is bounded by the latest reading |
| RateLimitTheory.DenialsKeepLine | internal/ratelimit/ratelimit.go:184-188 | any number of denied calls leaves the instant of the next token where it was |
| RateLimitTheory.NextAdmission | internal/ratelimit/ratelimit.go:184-191 | after a denial and denied retries, a call is admitted exactly when the refill line of the first denial has reached one token |
| RateLimitTheory.NextAdmissionInRun | internal/ratelimit/ratelimit.go:184-191 | in a run, with only denials in between, the next call of a denied key is admitted exactly if the refill covers what the denial lacked |
| RateLimitRuns.RunSplits | internal/ratelimit/ratelimit.go:158-192 | a run in two parts leaves the same table and gives the same answers |
| RateLimitRuns.CapIsKept | internal/ratelimit/ratelimit.go:170-180 | in every run the table never holds more keys than the cap, and a call is refused for lack of room only when exactly the cap of other keys each made a call at most 61 s before it |
| RateLimitRuns.WaitIsTight | internal/ratelimit/ratelimit.go:184-191 | a denied client that comes back after denials only is refused for lack of room exactly if its bucket is gone and the table still full after the sweeps, and otherwise admitted exactly if the refill covers what its own bucket lacked: denied before the wait ends, admitted from one nanosecond after it |
| RateLimitRuns.SteadyClientIsServed | internal/ratelimit/ratelimit.go:166-191 | a client whose last call is never more than 61 s back, for any length of time, keeps its bucket, so its wait holds without exception |
| RateLimitExact.EvictionShowsBeyondMaxLag | internal/ratelimit/ratelimit.go:162-203 | for every rate and a cap of two keys or more, a run with a lag of 500 ms and one nanosecond in which an eviction admits more than capacity plus refill |
| RateLimitExact.LagToleranceIsExact | internal/ratelimit/ratelimit.go:162-203 | for each such limiter, evictions are invisible in all its runs if and only if readings lag at most 500 ms, and so is the rate bound |
| RateLimitExact.RetryAfterSuffices | internal/ratelimit/ratelimit.go:186-227 | in exact arithmetic, a client that was denied and comes back exactly the header's seconds later, not a nanosecond more, is let in, or refused for lack of room, if and only if its wait was not truncated to whole seconds |
| RateLimitExact.WaitIsBounded | internal/ratelimit/ratelimit.go:186-188 | no denial announces more than a minute's share of one token plus the clock lag |
| RateLimitExact.LaterIsAlwaysEnough | internal/ratelimit/ratelimit.go:186-227 | for every limiter, coming back at any instant after the header's seconds is admitted, or refused for lack of room |
| RateLimitExact.RetryAfterIsExact | internal/ratelimit/ratelimit.go:186-227 | for each limiter in exact arithmetic, coming back exactly on time is always enough if and only if perMinute divides 60·10^9 or 60·10^9/perMinute ns plus the lag is under a second |
| RateLimitExact.FallsShort | internal/ratelimit/ratelimit.go:186-227 | for every rate that does not divide, a run with two denials exactly one announced second apart |
| RateLimitExact.SevenPerMinuteFallsShort | internal/ratelimit/ratelimit.go:184-227 | the concrete instance: seven per minute |
| RateLimitExact.HeaderIsLeast | internal/ratelimit/ratelimit.go:220-227 | the header is the least whole number of seconds, at least one, that covers the wait |
| RateLimitAnswers.AnswersKeepRate | internal/ratelimit/ratelimit.go:158-203 | of the pairs that a run of Check returns, with readings that lag at most 500 ms: in any window a key is let in at most capacity plus refill times |
| RateLimitAnswers.AnswersKeepWait | internal/ratelimit/ratelimit.go:158-191 | likewise, with no more keys than the cap: a refused client is refused again before the wait it was told is over, and let in from one nanosecond after it on |
| RateLimitAnswers.CheckAll | internal/ratelimit/ratelimit.go:158-192 | calling Check for any sequence of calls gives such pairs |
| RateLimitRounding.NearestIsAsGood | internal/ratelimit/ratelimit.go:184-190 | rounding to the nearest float64 is within the relative error that the bounds below allow each operation |
| RateLimitRounding.RoundedRefill | internal/ratelimit/ratelimit.go:184 | a float64 refill is off by less than 2·10^-15 tokens near one token, and makes a token when it adds more than one and a half |
| RateLimitRounding.WaitIsNear | internal/ratelimit/ratelimit.go:187 | the float64 wait is the exact one rounded down, give or take a thousandth of a nanosecond |
| RateLimitRounding.WaitIsTightInFloat64 | internal/ratelimit/ratelimit.go:184-191 | over every float64 run of one bucket: after a denial and fewer than a thousand denied retries per nanosecond of slack, the next call is admitted from wait + 1 + slack on and denied up to wait - slack |
| RateLimitRounding.RetryAfterWithSlack | internal/ratelimit/ratelimit.go:184-227 | in float64, two nanoseconds after the header's seconds are enough at every rate |
| RateLimitShortfalls.FirstAtTen | internal/ratelimit/ratelimit.go:184-188 | ten per minute in float64, 5 s after the bucket was emptied: the announced wait is one second |
| RateLimitShortfalls.OnTimeIsDeniedAtTen | internal/ratelimit/ratelimit.go:184-227 | and exactly one second later the call is denied |
| RateLimitShortfalls.FirstAtFive | internal/ratelimit/ratelimit.go:184-188 | five per minute in float64, 10 s after the bucket was emptied: the announced wait is two seconds |
| RateLimitShortfalls.OnTimeIsDeniedAtFive | internal/ratelimit/ratelimit.go:184-227 | and exactly two seconds later the call is denied |
| RateLimitShortfalls.TenFallsShort | internal/ratelimit/ratelimit.go:181-227 | so ten grants at one instant from a full bucket, and these two denials, are a float64 run in which the seconds of Retry-After are not enough |
| RateLimitShortfalls.FiveFallsShort | internal/ratelimit/ratelimit.go:181-227 | the same from a full bucket at five per minute |
| RateLimitShortfalls.SixtyAndHalves | internal/ratelimit/ratelimit.go:181-227 | at sixty, thirty and fifteen per minute it takes two denied retries on the way |
| RateLimitOnTime.EnoughAboveSixty | internal/ratelimit/ratelimit.go:181-227 | above sixty per minute exactly on time is enough after any number of denied retries, because calls at one instant add no rounding error |
| RateLimitOnTime.TruncatedFallsShort | internal/ratelimit/ratelimit.go:181-227 | up to sixty per minute, at rates that do not divide 60·10^9, it is not, however float64 rounds |
| RateLimitOnTime.SlowerFallsShort | internal/ratelimit/ratelimit.go:181-227 | a run that falls short gives one at every rate lower by a power of two, in as much more time |
| RateLimitShortfalls.DividingFallsShort | internal/ratelimit/ratelimit.go:181-227 | nor is it at any rate up to sixty that does divide 60·10^9 |
| RateLimitShortfalls.OnTimeIsExact | internal/ratelimit/ratelimit.go:181-227 | for every rate, exactly on time is always enough in float64 if and only if the limit is more than sixty per minute |
| SingleFlight.Service.ReadFile | internal/tts/service.go:151-156 | the cache read is the protocol's ReadCache action; an empty file is a miss |
| SingleFlight.Service.JoinOrLead | internal/tts/service.go:159-171 | the locked section: join the registered flight, or register an own one |
| SingleFlight.Service.Publish | internal/tts/service.go:173-174 | the upstream call, whose result is stored in the flight before anybody may read it |
| SingleFlight.Service.WriteFile | internal/tts/service.go:174-177 | the cache write, whose failure is ignored |
| SingleFlight.Service.DeleteFlight | internal/tts/service.go:178-180 | the locked delete of the flight |
| SingleFlight.Service.Close | internal/tts/service.go:181-182 | closing `done` and returning the leader's result |
| SingleFlight.Service.CallAndStore | internal/tts/service.go:173-177 | the upstream result is in the flight, and in the file if it is audio and the write works |
| SingleFlight.Service.Lead | internal/tts/service.go:173-182 | the leader's sections in order: the flight is gone, the file is there if the call and the write succeeded, the reply is the upstream result |
| SingleFlight.Service.Serve | internal/tts/service.go:151-183 | a request for a path that nothing interferes with: the cached bytes, waiting for the registered flight, or one upstream call whose success is stored |
| SingleFlight.Service.Synthesize | internal/tts/service.go:136-183 | a whole request: refused for its text or its speaker, spoken without the cache when it is long, or served under the key of its normalized form; in figures and in the files and flights themselves: a hit, a wait for the registered flight, or one call whose success is stored |
| SingleFlight.Service.Perform | internal/tts/service.go:151-183 | every action of the protocol, performed on the service's fields |
| SingleFlightTheory.InvHolds | internal/tts/service.go:158-183 | in every interleaving: flights are exactly the leaders', every cell belongs to one leader, followers are linked to a leader of their path |
| SingleFlightTheory.Drive | internal/tts/service.go:136-183 | every schedule of the service's sections is a run of the protocol, so its fields keep the invariant |
| SingleFlightTheory.OneLeaderPerPath | internal/tts/service.go:158-183 | a path has at most one leader, the table holds exactly the leaders' flights, and `done` is closed once, when its leader returns |
| SingleFlightTheory.DoneIsOpenWhenClosed | internal/tts/service.go:181 | no leader ever closes a closed channel |
| SingleFlightTheory.FollowerReturnsLeadersResult | internal/tts/service.go:160-168 | a follower that was not cancelled returned exactly the audio and error its leader returned, for the same path |
| SingleFlightTheory.SomeoneCanAct | internal/tts/service.go:158-183 | no deadlock: an unfinished request can act, or the leader it waits for can |
| SingleFlightTheory.StepsAreBounded | internal/tts/service.go:136-183 | a request acts at most six times in any run, so with SomeoneCanAct it returns |
| SingleFlightTheory.FileStays | internal/tts/service.go:152-177 | an unswept path keeps a non-empty file once it has one |
| SingleFlightTheory.CacheSparesCalls | internal/tts/service.go:151-171 | while the file is there, a request that had not read the cache never gets as far as the flight table |
| SingleFlightTheory.CalledAgainIffLockTaken | internal/tts/service.go:158-180 | a call for a path is followed by another if and only if a request for the path gets to the flight lock after the first leader deleted its flight |
| SingleFlightTheory.CalledAgainIffMissedTooEarly | internal/tts/service.go:151-182 | when the first call is stored and not swept, the path is called again if and only if some request read the cache before that write and gets to the flight lock after the leader deleted its flight |
| SingleFlightTheory.SecondUpstreamCall | internal/tts/service.go:151-182 | a run over an empty cache with two upstream calls for one path, the first of them stored |
| SingleFlightTheory.LaterRequestsHit | internal/tts/service.go:151-156 | whoever has not read the cache by then never calls upstream and returns the non-empty bytes of the file at its read |
| SingleFlightTheory.FilesAreUpstreams | internal/tts/service.go:151-177 | in every run, every cached file was there at the start or is the answer to an upstream call made for its path |
| SingleFlightTheory.AudioIsUpstreams | internal/tts/service.go:151-183 | so all audio a request is given, from the cache, its own call or its leader's, is one or the other |
| SingleFlightTheory.AudioSpeaksTheRequest | internal/tts/service.go:136-195 | with bar-free speakers and an empty cache at the start, that call was made for the same speaker, rate and normalized text |
| Upstream.EachEnding | internal/tts/service.go:248-276 | what each kind of item makes of a stream of which it is the first that is not data, whatever audio came before |
| Upstream.SuccessIsCompletion | internal/tts/service.go:248-276 | the body is a success exactly when the completion marker follows data items with some audio, and then gives exactly that audio; a body of data items only has ended early |
| Upstream.JoinedConcatenates | internal/tts/service.go:258-266 | the audio is the decoded fragments one after the other; blank ones add nothing |
| Upstream.CallUpstream | internal/tts/service.go:217-277 | no response is a failure; otherwise success exactly as in SuccessIsCompletion, and each other first item its own failure: undecodable, not base64, another code, or the marker without audio |
| Upstream.CuttingIsIrrelevant | internal/tts/service.go:258-272 | how the audio is cut into chunks and what follows the completion marker make no difference |
| CacheKey.PlanNormalizes | internal/tts/service.go:136-151 | planning a normalized request again changes nothing, and the requests that are cached are exactly the valid, trimmed, clamped ones that fit the caps |
| CacheKey.PlanDecides | internal/tts/service.go:136-151 | which requests are refused for their text, which for their speaker, which are spoken without the cache and which with it, and with which text and rate |
| CacheKey.ClampIsNearest | internal/tts/service.go:144 | the rate becomes the nearest one between -50 and 100 |
| CacheKey.ResourcesApart | internal/tts/service.go:192 | different bar-free resources never share a key |
| CacheKey.DigitsRoundTrip | internal/tts/service.go:192 | the decimal rate field can be read back |
| CacheKey.FieldSplits | internal/tts/service.go:192 | a bar-free field and the rest of the key can be told apart |
| CacheKey.CollisionsCharacterized | internal/tts/service.go:136-195 | two speakers share a cache file for requests that differ once normalized if and only if both are allowlisted and one continues the other by a bar, a rate in range and a bar, with a remainder that starts without white space and leaves room for three characters in a cached text |
| CacheKey.BarFreeSpeakersNeverCollide | internal/tts/service.go:191-195 | with bar-free speakers, distinct (speaker, rate, text) have distinct keys |
| CacheKey.SameKeySameRequest | internal/tts/service.go:191-195 | of two cached requests with bar-free speakers and the same key, both are the same request |
| CacheKey.BarsCanCollide | internal/tts/service.go:136-195 | a concrete pair of speakers, the longer the shorter followed by a bar and 5, that share a file whenever texts of three characters are cached |
| CacheKey.BlankAfterBarsIsSafe | internal/tts/service.go:137-195 | a bar and a rate are not enough: a concrete pair of speakers whose remainder starts with a blank never share a file, because cached texts are trimmed |
| CacheSweep.CacheDir.Walk | internal/tts/cache.go:30-50 | lists every file once, and the total is the sum of the listed sizes |
| CacheSweep.SortByMtime | internal/tts/cache.go:55 | sorted by time, and a permutation |
| CacheSweep.CacheDir.RemoveOldest | internal/tts/cache.go:56-67 | the loop with its running total deletes exactly the paths of `Gone` and counts them |
| CacheSweep.CacheDir.SweepCache | internal/tts/cache.go:16-68 | untouched unless the total exceeds a positive cap; then the directory loses exactly the files of `Gone` for a sorted listing |
| CacheSweep.ListedSum | internal/tts/cache.go:47-48 | the accumulated total is the size of the directory whatever the listing order |
| CacheSweep.RunningTotalIsSurvivors | internal/tts/cache.go:58-66 | the running total equals what the surviving files add up to, failing removals included |
| CacheSweep.TargetMetOrAllTried | internal/tts/cache.go:58-66 | the target is met, or every file was tried; only listed, removable files go |
| CacheSweep.GoneIsMinimalPrefix | internal/tts/cache.go:55-66 | with working removals, the removed files are the shortest sufficient prefix of the order |
| CacheSweep.OldestRemovableGo | internal/tts/cache.go:55-66 | with failing removals: with a file, every older one that can be removed goes too, and the last one was needed |
| CacheSweep.SweepKeepsNewest | internal/tts/cache.go:14-67 | survivors fit in cap/10*9, one removal fewer would not do, every survivor is at least as new as every removed file |
| CacheSweep.SweepDoesWhatItCan | internal/tts/cache.go:58-66 | with failing removals: the survivors fit, or nothing left can be removed |
| CacheSweep.SecondSweepIsIdle | internal/tts/cache.go:51-56 | after a successful sweep the next one does not trigger |
| CacheSweep.CacheDir.Read | internal/tts/service.go:152-156 | a hit is a file that is not empty, and it gets the current time unless setting it fails |
| CacheSweep.CacheDir.Write | internal/tts/service.go:174-177 | a stored answer is a file of its size and the current time |
| CacheSweep.TimeIsLastUse | internal/tts/service.go:152-177 | after any run of hits, stores and removals a file's time is that of its last touch or store |
| CacheSweep.OlderGoesToo | internal/tts/cache.go:55-66 | a sweep with working removals that removes a file removes every older one |
| CacheSweep.LeastRecentlyUsedGoes | internal/tts/cache.go:14-67 | after any run of hits, stores and removals by earlier sweeps, a sweep with working removals that removes a file also removes every file whose last hit or store was earlier |
| Text.TrimIdempotent | internal/repo/word_repo.go:92-105 | trimming leaves no outer white space, and trimming again changes nothing |
| Text.TrimSpaceCuts | internal/repo/word_repo.go:92-105 | trimming undoes white space put around a text that has none at its ends |
| Text.EveryTextIsPadded | internal/repo/word_repo.go:92-105 | and every text is white space, its trimmed form, and white space |
| Text.OctetsDecode | internal/repo/word_repo.go:250-251 | the octets of a character decode to it, in the shortest form of RFC 3629, section 3 |
| Text.FieldsOfLayout | internal/repo/word_repo.go:230 | splitting recovers the terms from any white-space layout of them |
| Text.EveryTextIsALayout | internal/repo/word_repo.go:230 | every text is a layout of its fields |
| PrefixRange.Utf8PreservesOrder | internal/repo/word_repo.go:250-251 | UTF-8 byte order is code-point order (RFC 3629, sections 1 and 3) |
| PrefixRange.PrefixUpperBound | internal/repo/word_repo.go:252-265 | the in-place loop over the runes computes `UpperBound`, surrogate gap included |
| PrefixRange.UpperBoundIsLeast | internal/repo/word_repo.go:250-265 | the result is the least string above every extension of the prefix; there is none exactly when the prefix is empty or all U+10FFFF, and then nothing bounds all extensions |
| PrefixRange.RangeIsPrefix | internal/repo/word_repo.go:242-248 | the byte range contains the UTF-8 of s if and only if the prefix is a prefix of s, for all strings |
| LikePattern.EscapedIsLiteral | internal/repo/word_repo.go:237-240 | an escaped text at the head of a pattern matches itself only, up to ASCII case |
| LikePattern.PercentSkips | internal/repo/word_repo.go:175 | a leading percent sign skips any number of characters |
| LikePattern.LikeContains | internal/repo/word_repo.go:171-175 | for NUL-free texts, LIKE with the built pattern accepts s if and only if q occurs in s up to ASCII case |
| LikePattern.NulBreaksLike | internal/repo/word_repo.go:175 | for every q with a NUL, a text the pattern accepts although q does not occur in it |
| LikePattern.LikeContainsIffNulFree | internal/repo/word_repo.go:171-175 | the pattern means "contains" on all NUL-free texts if and only if q has no NUL |
| LikePattern.SearchPrefixSelects | internal/repo/word_repo.go:171-180 | searchPrefix's condition selects exactly the words with the prefix or with q in the translation |
| FtsQuery.FTSMatch | internal/repo/word_repo.go:229-235 | the in-place rewriting of the terms yields `Query` |
| FtsQuery.LiteralRoundTrip | internal/repo/word_repo.go:232 | reading a quoted term back gives the term, whatever quotes it contains; a NUL makes it unterminated |
| FtsQuery.QueryTokens | internal/repo/word_repo.go:227-235 | the tokenizer sees user text in string literals only, or fails on a NUL |
| FtsQuery.QueryMeansTerms | internal/repo/word_repo.go:227-235 | the query is empty exactly for blank text; otherwise it parses if and only if there is no NUL, and then to exactly the lower-cased terms in order, each a prefix phrase |
| FuzzySearch.PhraseMeans | internal/repo/word_repo.go:227-235 | a prefix phrase is found on a valid index exactly in the rows in whose word, definition or translation its tokens stand one after the other, the last as a prefix |
| FuzzySearch.FuzzySearchFinds | internal/repo/word_repo.go:199-235 | for every NUL-free text that is not blank, the query evaluated on a valid index matches exactly the rows in which every lower-cased term stands in the word, the definition or the translation |
| FuzzySearch.FuzzySearchFindsAfterWrites | internal/repo/word_repo.go:199-235 | and so after any run of inserts, upserts and deletes with their triggers |
| WordTable.WordRepository.AfterInsert | migrations/schema.sql:34-37 | an index that was the rebuilt one of the other rows is the rebuilt one of all rows after the trigger |
| WordTable.WordRepository.AfterDelete | migrations/schema.sql:39-42 | an index that was the rebuilt one with the row is the rebuilt one without it after the trigger |
| WordTable.WordRepository.AfterUpdate | migrations/schema.sql:44-49 | an index that was the rebuilt one of the table before the update is the rebuilt one of the table after it |
| WordTable.WordRepository.UpsertWord | internal/repo/word_repo.go:27-45 | insert with a new id, or update in place under the same id (which uses up an id too), with its trigger; keeps the index exact |
| WordTable.WordRepository.Delete | migrations/schema.sql:39-42 | deleting a row with its trigger keeps the index exact |
| WordTable.WordRepository.UpsertWords | internal/repo/word_repo.go:76-101 | all non-blank words, or nothing when a statement or the commit fails; the flag says which |
| WordTable.WordRepository.Lookup | internal/repo/word_repo.go:103-114 | finds exactly the row whose key is the lower-cased, trimmed text, with its id and whole word, and none exactly if no row has that key |
| WordTable.RebuildWithout | migrations/schema.sql:26-32 | the rebuilt index does not depend on the order in which rows are read |
| WordTable.InsertKeepsValid | migrations/schema.sql:34-37 | an insert keeps the index equal to the rebuilt one and word_lower unique |
| WordTable.UpdateKeepsValid | migrations/schema.sql:44-49 | so does an update |
| WordTable.DeleteKeepsValid | migrations/schema.sql:39-42 | so does a delete |
| WordTable.UpsertKeepsValid | internal/repo/word_repo.go:27-45 | so does an upsert |
| WordTable.UpsertRows | internal/repo/word_repo.go:27-45 | the row with the key gets the whole word and keeps its id, or a new row with the next id gets it |
| WordTable.ExecuteRows | migrations/schema.sql:3-42 | in rows: an insert adds its row unless the key is there, a delete takes its row away |
| WordTable.RunsKeepIndex | migrations/schema.sql:3-49 | after any run of inserts, upserts and deletes the full-text index is the rebuilt one, word_lower is unique, ids are not reused and surviving ids keep their key |
| WordTable.IndexIsExact | migrations/schema.sql:26-49 | with a tokenizer, the index holds exactly the tokens of the word, the definition and the translation of the current rows, each once with its position |
| WordTable.RowPostingsAreTokens | migrations/schema.sql:26-37 | a row's postings are every token of these three columns and depend on no other |
| WordTable.BatchesCompose | internal/repo/word_repo.go:76-101 | two batches do what their concatenation does |
| WordTable.LastWordWins | internal/repo/word_repo.go:32-95 | under every key a batch leaves its last word with that key that is not blank, other keys keep theirs, existing keys keep their row id |
| WordTable.StoredMeans | internal/repo/word_repo.go:32-45 | the word under a key is that of the only row with the key |
| WordTable.LookupFinds | internal/repo/word_repo.go:103-114 | a lookup gives a row exactly if its key is the lower-cased, trimmed text, and none exactly if no row has it |
| WordTable.SpellingsAgree | internal/repo/word_repo.go:103-105 | all spellings with one key get one answer |
| WordTable.StoredWordIsFound | internal/repo/word_repo.go:92-105 | an upserted word is found under its own spelling if and only if trimming does not change its key |
| Importer.HeaderMapsToLastColumn | cmd/importer/main.go:76-79 | a column name means its last occurrence, up to case and outer white space |
| Importer.WordReadsItsColumns | cmd/importer/main.go:105-123 | each of the thirteen fields is the trimmed text, or the number, of the last column with its own name; empty or 0 without one |
| Importer.WrittenWordIsRead | cmd/importer/main.go:76-123 | a word written out under any order of its columns is read back unchanged |
| Importer.WordsOfAppends | cmd/importer/main.go:97-109 | record by record: one with a word is appended, one without is passed over, nothing after an unreadable one counts |
| Importer.ImportedAreNotSkipped | cmd/importer/main.go:105-109 | no imported word is skipped by the repository, so `total` counts stored words |
| Importer.Import.Flush | cmd/importer/main.go:84-95 | the table advances to all words seen, or nothing changes |
| Importer.Import.Add | cmd/importer/main.go:109-128 | appending and flushing a full batch keeps table plus batch equal to the words seen |
| Importer.Import.ReadRecords | cmd/importer/main.go:97-129 | the loop sees exactly the words up to the end, an unreadable record or a refused flush, and stores whole batches |
| Importer.Import.ImportCSV | cmd/importer/main.go:61-136 | on success the table is the one unbatched upsert of all words gives; a failure leaves a prefix of whole batches and needs an unreadable record or a database fault |
| Importer.BatchSizeIsIrrelevant | cmd/importer/main.go:81-132 | two fault-free imports of the same readable file end in the same table, index and total whatever their batch sizes |
| Analytics.NormalizeIdempotent | internal/analytics/service.go:186-270 | a normalized event passes validation again unchanged |
| Analytics.NormalizedFields | internal/analytics/service.go:186-270 | a normalized event carries the sender's fields, every text trimmed |
| Analytics.RefusedEvents | internal/analytics/service.go:198-267 | which events are refused, field by field and limit by limit |
| Analytics.AdmitsWindow | internal/analytics/service.go:69-84 | the window in figures, from 30 days before to one day after, in whole milliseconds |
| Analytics.StoredById | internal/analytics/service.go:112-126 | a batch leaves under each id the row that was there, or its first event with the id; accepted are as many as rows are added |
| Analytics.Service.InsertBatch | internal/analytics/service.go:61-132 | which batches are invalid or fail, that a failure stores nothing, and that accepted, rejected and the table agree with the admissible events and the new ids |
| Analytics.Service.StoreBatch | internal/analytics/service.go:112-130 | the transaction is all or nothing and counts exactly the rows it added |
| Analytics.Service.Sift | internal/analytics/service.go:74-84 | keeps the admissible events in order and counts the rest |
| Analytics.Service.DeleteBatch | internal/analytics/service.go:141-147 | one statement removes at most `size` rows, stale ones only; fewer than `size` means none is left |
| Analytics.Service.PurgeOlderThan | internal/analytics/service.go:135-159 | only stale rows go and the total is their number, also when a statement fails or the purge is cancelled; a purge that finishes leaves exactly the rows that are not stale |
| AnalyticsTheory.BatchIsFresh | internal/analytics/service.go:112-126 | a batch accepts no pair accepted before, and the table remembers what it accepted |
| AnalyticsTheory.PurgeForgetsExpired | internal/analytics/service.go:135-184 | when the cutoff, in the 64-bit arithmetic of durations, lies at least 31 days plus the clock lag back, whatever a purge forgets fails the window at every later reading |
| AnalyticsTheory.AcceptedAtMostOnce | internal/analytics/service.go:61-184 | with retention disabled or such a cutoff, no run of inserts and purge batches accepts an (event_id, event_time_ms) pair twice |
| AnalyticsTheory.ShortRetentionRepeats | internal/analytics/service.go:69-184 | for every other setting, a run that accepts the same event twice |
| AnalyticsTheory.SafeRetentionIsExact | internal/analytics/service.go:69-184 | at-most-once acceptance holds in every run if and only if retention is disabled or the cutoff as computed, overflow included, lies at least 31 days plus the lag back |
| AnalyticsTheory.SafeDays | internal/analytics/service.go:163-184 | up to 106751 days, that is retention disabled or at least 31 days plus the lag |
| AnalyticsTheory.WrappedDaysRepeat | internal/analytics/service.go:175 | from 106752 to twice 106751 days the cutoff lies ahead of the clock, every stored row is stale, and an event can be accepted twice |
| Feedback.Service.Submit | internal/feedback/service.go:100-120 | one undisturbed call: when it answers duplicate, when it fails, and whether the claim stays |
| Feedback.SubmitAlone | internal/feedback/service.go:100-120 | that call is the protocol's actions run without interleaving |
| Feedback.InvHolds | internal/feedback/service.go:100-120 | in every interleaving, failing deletes included, each guarded id has at most one owner, and a claim exactly when it has one, was delivered before or is stuck |
| Feedback.ClaimTracksOwner | internal/feedback/service.go:100-120 | the claim row is there exactly while one call holds it, after one succeeded, or after a delete failed; no id is ever delivered twice, and none once it is stuck |
| Feedback.ReleaseIsOwn | internal/feedback/service.go:111-117 | a failing call deletes its own claim and nobody else's |
| Feedback.DuplicateMeaning | internal/feedback/service.go:108-117 | in every run a duplicate answer is given exactly when the id was delivered, a call is in flight with it, or a failing delete has left it behind |
| Feedback.StuckIdIsBlocked | internal/feedback/service.go:111-117 | an id that a failing delete left behind was delivered by nobody, is never delivered again, and everybody who asks is told duplicate |
| Feedback.SequentialDuplicateIsDelivered | internal/feedback/service.go:97-117 | in sequential runs a duplicate answer is given exactly when the id was delivered before or a delete failed for it; with working deletes none is stuck |
| Feedback.DuplicateBeforeFailure | internal/feedback/service.go:100-120 | concurrently, a run where a duplicate answer precedes the failure of the only delivery |
| Feedback.FailedDeleteBlocksId | internal/feedback/service.go:111-117 | a run where a failing delete makes an undelivered id a duplicate |
| Admission.Proxy.TakeBudget | internal/llmproxy/proxy.go:138-153 | the meter and the answer are one `TakeStep` |
| Admission.Proxy.Forward | internal/llmproxy/proxy.go:249-290 | every exit gives its slot back; busy only when full; a rejected body spends nothing |
| Admission.GrantedIsBlockSum | internal/llmproxy/proxy.go:142-152 | whatever order the days come in, a day is granted, over its maximal blocks of takes, the block length capped by the budget |
| Admission.CountIsHowMany | internal/llmproxy/proxy.go:142-152 | the takes of a day, counted |
| Admission.BudgetKeptIff | internal/llmproxy/proxy.go:138-153 | the configured budget is kept for a day if and only if its takes come in one block or are no more than the budget; in one block it grants exactly the smaller of demand and budget |
| Admission.BudgetKeptIffContiguous | internal/llmproxy/proxy.go:138-153 | every budget holds for every day if and only if days reach the lock contiguously |
| Admission.ResetBringsBudget | internal/llmproxy/proxy.go:131-153 | waiting `BudgetResetIn`, and no shorter, brings a new day on which a take succeeds |
| Admission.ResetIsMidnight | internal/llmproxy/proxy.go:131-136 | the wait ends the UTC day and is never longer than one |
| Admission.SlotsAreCallsInFlight | internal/llmproxy/proxy.go:249-255 | in every interleaving held slots are exactly the calls in flight, at most the cap; when all have left none is held |
| Admission.BusyOnlyWhenFull | internal/llmproxy/proxy.go:250-255 | a call is turned away exactly when other calls occupy every slot |
| Admission.AttemptsStayInBudget | internal/llmproxy/proxy.go:138-290 | in every interleaving a day's upstream attempts are exactly what its blocks are granted, within the budget if and only if the takes come in one block or are no more than it; rejected bodies are not among the takers |
| Admission.OrderedDaysStayInBudget | internal/llmproxy/proxy.go:138-290 | when days reach the lock in order, a day makes the smaller of its takes and the budget |
| Admission.UnlimitedAttempts | internal/llmproxy/proxy.go:138-141 | without a budget a day makes as many attempts as it has takes, and nobody is over budget |
| Sanitizer.CompactIdempotent | internal/llmproxy/proxy.go:209 | writing a value without white space twice is the same as once |
| Sanitizer.CompactKeepsValue | internal/llmproxy/proxy.go:209 | and takes away the blanks of arrays and nothing else |
| Sanitizer.DecodedIsLast | internal/llmproxy/proxy.go:158-162 | a key has the value of its last member |
| Sanitizer.SanitizeTools | internal/llmproxy/proxy.go:217-239 | null is no tools; a list is accepted exactly when it has at most 16 function tools, which are kept |
| Sanitizer.FunctionToolsAreExactly | internal/llmproxy/proxy.go:226-237 | the kept tools are exactly the function tools, none more often than sent |
| Sanitizer.FunctionToolsInOrder | internal/llmproxy/proxy.go:226-237 | tools are looked at one by one, in order |
| Sanitizer.OneTool | internal/llmproxy/proxy.go:227-232 | and each is kept exactly if its type is "function" |
| Sanitizer.TypeFieldIsLast | internal/llmproxy/proxy.go:227-232 | the type is that of the last member of the name that is not null, and none is a type when one of them is no string |
| Sanitizer.FunctionToolsStable | internal/llmproxy/proxy.go:217-239 | kept tools are kept again after compaction |
| Sanitizer.Proxy.constructor | internal/llmproxy/proxy.go:87-92 | the allowlist is the trimmed, non-empty configured names |
| Sanitizer.AllowlistIsTrimmed | internal/llmproxy/proxy.go:87-92 | every allowlisted name is non-empty and its own trimmed form |
| Sanitizer.Proxy.ClampTokens | internal/llmproxy/proxy.go:196-206 | the token limit is in [1, 4500], an error exactly for a value that is no number |
| Sanitizer.Proxy.CopyAllowed | internal/llmproxy/proxy.go:179-184 | exactly the allowed keys are copied |
| Sanitizer.Proxy.Sanitize | internal/llmproxy/proxy.go:157-214 | the checks in the source's order give the result of `SanitizeFields` |
| Sanitizer.OutputShape | internal/llmproxy/proxy.go:37-48 | an accepted body has only allowed keys plus tools and store, an allowlisted model, a whole limit in [1, 4500], store off, the other allowed values unchanged, and in order exactly the function tools |
| Sanitizer.SanitizeDecides | internal/llmproxy/proxy.go:157-214 | which requests are refused with which error, in the order of the checks, and that all others are accepted |
| Sanitizer.ForwardsFields | internal/llmproxy/proxy.go:178-195 | what is forwarded, field by field |
| Sanitizer.ForwardsLimit | internal/llmproxy/proxy.go:196-206 | a whole limit from 1 to 4499 is passed on unchanged, a fraction between is rounded down, anything else becomes 4500 |
| Sanitizer.TooManyTools | internal/llmproxy/proxy.go:233-235 | more than 16 function tools is an error |
| Sanitizer.SanitizeIdempotent | internal/llmproxy/proxy.go:157-214 | an accepted result sanitizes to itself if and only if the input was not an empty array with inner blanks; that one is then refused |
| Sanitizer.BodySanitizesAgain | internal/llmproxy/proxy.go:157-214 | the result can be written down as a body, and the same holds for every body that decodes to it |
| Sanitizer.SpacedEmptyInput | internal/llmproxy/proxy.go:241-244 | for every model, a body that is accepted and whose result is refused |

## Left out

- Floating point in the limiter: except in Float64, RateLimitRounding, RateLimitOnTime and RateLimitShortfalls, tokens are exact multiples of 1/(60·10^9), the sweep's threshold is exact, and durations do not saturate.
- RateLimitExact.LagToleranceIsExact: in exact arithmetic; where float64 truncates capacity/perSecond to 59999999999 ns, the sweep's threshold is one nanosecond less.
- RateLimitExact.RetryAfterSuffices: rests on an equality without slack in exact arithmetic, which float64 rounding breaks; RateLimitShortfalls.OnTimeIsExact is the condition for the float64 code.
- RateLimitExact.RetryAfterIsExact: likewise about the exact-arithmetic limiter; of the rates it calls enough, float64 keeps the promise only at those above sixty.
- RateLimitRounding.WaitIsTightInFloat64: one bucket that is not evicted, with readings that do not go back; overflow and subnormal numbers do not occur in its range.
- RateLimitShortfalls.OnTimeIsExact: likewise, and every operation rounds by itself; Go may fuse the multiplication and the addition of a refill into one rounding on some processors.
- Wide integers: except for the retention offset, sizes, counters and times do not overflow 64 bits here.
- RateLimit.Limiter.Check: the log line of a full table and changing the key cap between calls are not modelled.
- SingleFlight.Service.Synthesize: a flight is known by its leader's number instead of by a pointer, so aliasing of flight cells is not captured; a request that finds a registered flight is left waiting, and the interleaved protocol is proved on values with one method per atomic section.
- SingleFlightTheory.LaterRequestsHit: a cache write is one step, because of the rename; leftover temporary files and directory creation are not modelled.
- Upstream.CallUpstream: HTTP, JSON and base64 decoding, the byte limit and the timeout are inputs: an exchange is a failure or the sequence of decoded items.
- CacheKey.CollisionsCharacterized: SHA-256 and the hexadecimal path are taken to be injective, so keys are compared as strings.
- CacheSweep.CacheDir.SweepCache: the walk over a directory tree, unreadable entries and stale temporary files are left out; files do not change during a sweep.
- Strings are sequences of Unicode scalar values; invalid UTF-8 is not modelled. Lower-casing is a given function.
- FtsQuery.QueryMeansTerms: of the FTS5 grammar only strings, the prefix star and AND are read; columns, NEAR, OR and NOT parse as nothing.
- FuzzySearch.FuzzySearchFinds: the tokenizer is a parameter, and a term without tokens, such as one of punctuation only, is taken to match nothing in FTS5.
- LikePattern.SearchPrefixSelects: selects rows one by one; ordering, limits, counting and paging are not modelled, nor is Suggest beyond the shared range.
- WordTable.WordRepository.UpsertWords: SQLite's own machinery is reduced to maps, a multiset of postings and an all-or-nothing transaction.
- Importer.Import.ImportCSV: opening the file and CSV quoting are left out; Atoi is a parameter; the batch size is positive, as the program's flag handling ensures.
- Analytics.Service.InsertBatch: params are a JSON text or a value that cannot be marshalled; opening the transaction and preparing the statement count as its first statement.
- Feedback.Service.Submit: forwarding to Feishu, its token fetch and its payload are one step with a given outcome.
- Admission.Proxy.Forward: reading the body and the upstream exchange are inputs; days are numbers.
- Sanitizer.Proxy.constructor: refusing an empty allowlist, URL or key, and the defaults of New, are not modelled.
- Sanitizer.Proxy.Sanitize: works on JSON values; numbers are reals, so a number out of float64's range is accepted here, and escaping of characters on output is not visible.
- Process crashes, panics and restarts in the middle of a protocol.
- ASR, uploads, client address parsing, configuration, routing and middleware: they would only add easy members.
