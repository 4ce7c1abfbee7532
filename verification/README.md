# Verified model of the CAPTCHA platform

This Dafny project models the parts of the platform whose correctness is not visible in any single
function, and proves what they promise for every input, every run or every reachable state.
`dafny verify dfyconfig.toml` checks all of it.

| files | what they model |
|---|---|
| `RateLimits`, `RateBounds`, `RouteLimits` | the in-memory rate limiter (fixed window, sliding window with in-place pruning of a shared buffer, token bucket) and the policy evaluator's use of it |
| `Tickets`, `RedisTickets` | ticket consumption under a mutex, and as an optimistic WATCH / GET / EXEC transaction on Redis, under every interleaving |
| `Protocol`, `ProtocolSafety`, `ProtocolTheorems`, `ProtocolAnswers`, `ProtocolDecisions`, `ProtocolVerified`, `Server` | sessions, tickets and clearances: the handlers as methods over the stores, the transitions they take, and the laws of whole runs |
| `Selector`, `SelectedResources`, `Sorting` | resource selection, what it holds, and what Go's stable sort guarantees |
| `Notifier`, `ConfigWatch`, `ConfigContents` | the configuration notifier, its steps interleaved with WatchConfig streams, and what the streams' snapshots hold |
| `EventBatcher` | the gateway's event batcher with its reporters and its Close |
| `PolicyRules`, `Gateway` | policy rules, and local gateway decisions against the server's |
| `Jigsaw`, `Tiles`, `TileMatching`, `Shuffle`, `Resample` | algorithms of the challenge engine |
| `ModelRegistry`, `RegistryRuns` | the registry of risk-model versions: activation and rollback |
| `Escalation` | escalation sequences and their text form |
| `Pbkdf2`, `Secret` | key derivation (section 5.2 of RFC 8018) and the stored text of client secrets (section 5 of RFC 4648) |
| `Text` | the string functions of Go's library that the above use |

Clocks, random values, hashes, address parsing and rollout buckets are inputs or function parameters.
Store mutations are modelled as the source makes them: classes whose methods update maps, arrays and
slices, each proved equal to a function the theorems are about.

## Where the code does not do what one would expect

Each of these is a lemma with a concrete run or input. Beside it stands the exact condition under which
the expectation does hold.

- A fixed window lets `2 * max - 1` requests through in an interval of its own length, and no more
  (`RateBounds.FixedBoundReached`, `RateBounds.FixedBound`).
- An aborted EXEC is reported as `ErrConsumed`; if the key was evicted at its time to live between GET
  and EXEC, nobody need have consumed the ticket (`RedisTickets.AbortAfterEvictionIsUntrue`). It is true if
  and only if that eviction is not the one change of the key since it was watched
  (`RedisTickets.AbortIsTruthfulExactly`).
- When the engine accepts an answer and issuing the ticket fails, the session stays active with the same
  challenge (`ProtocolTheorems.UnissuedAttemptIsRepeatable`); this is the only way an attempt leaves its
  challenge open (`ProtocolAnswers.AttemptLeavesOpenExactly`).
- Two routes can share a rate counter, even routes of one client and through different values or dimensions
  (`RouteLimits.ColonInRouteShares`). They do exactly when client and route read the same with a colon between
  them, or when one such text goes on from the other with a dimension's name and the start of a value
  (`RouteLimits.RoutesShareCounter`). If neither client nor route IDs hold a colon, a key tells its client,
  route, dimension and value (`RouteLimits.PlainKeysTell`).
- `getConfig` reads the parts of the configuration one by one and the version last: a write and its Notify
  between those reads leave a stream with old contents under the new version, and the update that would
  repair it is skipped (`ConfigWatch.TornSnapshotIsKept`). Once all writers have called Notify, a part of the last snapshot is wrong
  if and only if it was no longer, when the version was read, what it was when the part was read
  (`ConfigContents.ContentsCurrentExactly`); so no write to a part between its read and that of the version
  means that it is right (`ConfigContents.UnwrittenPartIsCurrent`), and no write during fetches, as if
  `getConfig` were one step, that all are (`ConfigContents.UndisturbedFetchIsCurrent`).
- A reporter caught by Close between its check and its enqueue has an event accepted that is never sent
  (`EventBatcher.StrandedEvent`).
- A challenge rule is passed over by the gateway's cache, and an open route behind it lets the request
  through (`Gateway.ChallengeRuleIsPassedOver`); an application without a status is blocked by the server
  only (`Gateway.EmptyStatusDiffers`).
- Uploading an already activated model version as active keeps its old activation time, so that the active
  version is no longer the last activated; the server's guard against such uploads compares the status
  before trimming it (`RegistryRuns.ReuploadedVersionIsNotLatest`, `RegistryRuns.PaddedActivePasses`).
- A click on the border two tiles share can be refused although the clicks cover both tiles
  (`TileMatching.BorderClickIsRefused`). For two tiles `TileMatching.TwoTilesExactly` says of every
  answer whether it is; for any number of tiles of a given size all assignable answers are accepted if and only
  if no two tiles touch (`TileMatching.GreedyIsCompleteExactly`).

## Model

| member | source | states |
|---|---|---|
| RateLimits.RateStore.Prune | internal/store/memory.go:836-850 | pruning a hit list into its own buffer leaves exactly the hits after the cutoff, in order |
| RateLimits.RateStore.SlideHits | internal/store/memory.go:836-850 | the pruned list with the new hit appended, in place or in a fresh buffer, is the specified sliding-window step |
| RateLimits.RateStore.IncrementRate | internal/store/memory.go:831-861 | a call changes the counter of its key by one specified step, leaves every other key alone, and never lets two keys share a buffer |
| RateLimits.RateStore.IncrementTokenBucketRate | internal/store/memory.go:863-891 | the bucket's refill, refusal and charge as specified; a misconfigured bucket answers 1 and stores nothing |
| RateBounds.SlidingExact | internal/store/memory.go:836-850 | despite pruning, the number returned is the number of calls ever made in (now - W, now] |
| RateBounds.SlidingCounts | internal/store/memory.go:836-850 | that number is the count of calls in that interval, and a call passes if and only if it is at most max |
| RateBounds.SlidingBound | internal/store/memory.go:836-850 | no interval of length W, wherever placed, holds more than max admitted calls |
| RateBounds.FixedExact | internal/store/memory.go:852-860 | the number returned counts every call since the window's start, which is less than W ago |
| RateBounds.FixedWindowBound | internal/store/memory.go:852-860 | at most max calls pass inside one window |
| RateBounds.FixedBound | internal/store/memory.go:852-860 | at most 2 * max - 1 calls pass in any half-open interval of length W |
| RateBounds.FixedBoundReached | internal/store/memory.go:852-860 | for every max there is a history that reaches that bound |
| RateBounds.BucketInvariant | internal/store/memory.go:863-891 | tokens stay in [0, C], results in 1 .. C + 1, and a call passes exactly when it finds a whole token |
| RateBounds.BucketIsTightestAllowance | internal/store/memory.go:863-891 | the tokens found are the least, over all earlier calls, of a full bucket's refill since then minus the admissions since then |
| RateBounds.BucketAdmitsExactly | internal/store/memory.go:863-891 | a call passes if and only if no stretch of calls ending with it exceeds C + C * elapsed / W |
| RateBounds.BucketBound | internal/store/memory.go:863-891 | admitted calls in any interval [s, t] number at most C + C * (t - s) / W |
| RouteLimits.RateLimitKeysDistinct | internal/policy/evaluator.go:408-426 | the counter keys of one request, per ip, account and device, are different |
| RouteLimits.IncrementKey | internal/policy/evaluator.go:392-393 | one turn of the loop logs one call on one key, at its own clock reading, and leaves the history of every other key |
| RouteLimits.EvaluateRateLimit | internal/policy/evaluator.go:387-406 | the loop increments key after key, each at its own clock reading, up to the first over its limit, and allows when none is |
| RouteLimits.ServeIsARun | internal/policy/evaluator.go:387-406 | a request served alone is one of the runs of interleaved turns that the bounds are about |
| RouteLimits.StepAccounts | internal/store/memory.go:831-861 | every turn of any request, in any interleaving, keeps a key's calls in order of time and its admitted calls those of the requests |
| RouteLimits.PassedAreAdmitted | internal/policy/evaluator.go:387-406 | in any interleaving of requests, each with its own limit, every one that passed is backed by an admitted call on each of its keys |
| RouteLimits.RouteSlidingBound | internal/policy/evaluator.go:387-406 | where all requests that use a key have the same limit, at most max of them, however interleaved and whatever else is in the traffic, pass in any stretch shorter than W under a sliding window |
| RouteLimits.RouteFixedBound | internal/policy/evaluator.go:387-406 | at most 2 * max - 1 under a fixed window |
| RouteLimits.RouteBucketBound | internal/policy/evaluator.go:387-406 | at most C + C * (t - s) / W in [s, t] under a token bucket |
| RouteLimits.ConfiguredBound | internal/store/memory.go:831-904 | the three bounds by the strategy's name as configured, in any case and white space, any other name being a fixed window |
| RouteLimits.RequestKeys | internal/policy/evaluator.go:408-426 | the keys of a route's requests are exactly those of its dimensions and of trimmed values that are not empty |
| RouteLimits.RoutesShareCounter | internal/policy/evaluator.go:408-426 | two routes share a counter, through whatever dimensions and values, if and only if client:route are the same text or one goes on from the other with :name: and then nothing or the start of a value |
| RouteLimits.ColonInRouteShares | internal/policy/evaluator.go:408-426 | two routes of one client share a counter through different values, and two through different dimensions |
| RouteLimits.PlainKeysTell | internal/policy/evaluator.go:408-426 | where neither client nor route IDs hold a colon, equal keys have equal client, route, dimension and value |
| RouteLimits.PlainRoutesAgree | internal/policy/evaluator.go:387-406 | hence the requests on such routes, each route with its own limit, agree on the limit of every key, and the bounds hold per route |
| Tickets.MemoryTickets.VerifyTicket | internal/store/memory.go:118-168 | the mutex-protected check-and-consume: expiry, consumption, bindings, in this order, and consumption with its time |
| Tickets.AcceptsExactly | internal/store/memory.go:118-168 | a ticket is accepted if and only if it is stored, not consumed, in time, of the client and scene, and each of its six bindings is empty or the presented one; what is stored then, and which refusal comes when |
| Tickets.NeighbourIsRefused | internal/store/memory.go:118-168 | a context that differs from an accepted one in the client, the scene or one non-empty binding does not find the ticket, which stays |
| RedisTickets.ConsumedAtMostOnce | internal/store/redis.go:72-128 | under any interleaving of any number of clients and evictions, no two successful consumptions are of the same ticket |
| RedisTickets.RefinesAtomicVerify | internal/store/redis.go:72-128 | an answer is the one the atomic VerifyTicket gives on the ledger at that point with the client's clock reading if and only if the step does not meet an evicted key; where it does, the atomic store says Expired |
| RedisTickets.AcceptedExactly | internal/store/redis.go:72-128 | whatever the interleaving, an answer accepts if and only if the ticket is on the ledger and, field by field, redeemable at the client's clock reading, and the step meets no evicted key |
| RedisTickets.AbortIsTruthfulExactly | internal/store/redis.go:110-127 | an aborted EXEC's ErrConsumed is true if and only if the key's eviction is not the one change since it was watched |
| RedisTickets.AbortIsTruthfulUnlessEvicted | internal/store/redis.go:110-127 | hence always until the ticket's time to live has passed, while the key is there, and on servers whose evictions do not abort |
| RedisTickets.AbortAfterEvictionIsUntrue | internal/store/redis.go:110-127 | the exception happens: ErrConsumed for a ticket nobody consumed |
| Server.Server.GetSession | internal/store/memory.go:90-104 | an overdue session is marked expired and refused |
| Server.Server.RecordFailedVerification | internal/api/server.go:1808-1868 | failure counting, escalation, expiry at five failures or a block, and what the response offers |
| Server.Server.HandleVerifySession | internal/api/server.go:238-316 | the verify handler takes exactly the specified step on sessions, tickets and history |
| Server.Server.HandleRefreshSession | internal/api/server.go:1342-1370 | the refresh handler takes exactly the specified step |
| Server.Server.MintClearance | internal/api/server.go:757-805 | a clearance is minted only for a complete context, with the route's time to live if it has one |
| Server.Server.CheckClearance | internal/store/memory.go:176-191 | clearance validation, and removal of an expired one |
| Server.Server.HandleEvaluatePolicy | internal/api/server.go:487-589 | the ticket and clearance branches of policy evaluation take exactly the specified step |
| Server.Server.HandleVerifyTicket | internal/api/server.go:1981-2034 | the ticket-verification handler takes exactly the specified step |
| ProtocolSafety.FailureKeeps | internal/api/server.go:1808-1868 | a recorded failure keeps every invariant of the platform, with or without an attempt logged |
| ProtocolSafety.IssueKeeps | internal/api/server.go:286-316 | issuing a ticket and closing its session keeps every invariant |
| ProtocolSafety.ConsumeAndMintKeeps | internal/api/server.go:521-545 | consuming a ticket and minting its clearance keeps every invariant |
| ProtocolSafety.ServeKeeps | internal/api/server.go:487-589 | every request keeps the invariants of sessions, challenges, tickets, clearances and allows |
| ProtocolTheorems.SessionLaws | internal/api/server.go:1808-1850 | in every reachable state failures number at most 5, 5 only when expired, and an active session shows a challenge of its own type |
| ProtocolTheorems.ChallengeAttemptedOnce | internal/api/server.go:238-316 | over any run a generated challenge is attempted again only after an accepted attempt for which no ticket could be issued |
| ProtocolAnswers.AttemptLeavesOpenExactly | internal/api/server.go:286-291 | on every platform that keeps the invariants an attempt leaves its challenge open if and only if the engine accepted it and no ticket was issued |
| ProtocolAnswers.EngineLogsAttempt | internal/api/server.go:238-316 | an attempt is made exactly by an answer in time, well formed, and on its session's route and nonce, on the challenge the session shows |
| ProtocolAnswers.AttemptRepeatsExactly | internal/api/server.go:286-291 | on every reachable platform the same answer sent again in time is a second attempt on the same challenge if and only if the first was accepted without a ticket |
| ProtocolTheorems.UnissuedAttemptIsRepeatable | internal/api/server.go:286-293 | that exception happens |
| ProtocolTheorems.RequestPersists | internal/api/server.go:2200-2256 | verified and expired sessions never become active again, only active ones become verified, and tickets are only added or consumed once |
| ProtocolTheorems.TicketsComeFromDistinctSessions | internal/token/service.go:33-62 | every ticket was issued for a session of its own that became verified, is closed since, and whose bindings it carries |
| ProtocolVerified.EntersRecordExactly | internal/api/server.go:292-293 | in every step the sessions recorded as verified grow by exactly those whose status becomes verified |
| ProtocolVerified.OneTicketPerVerifiedSession | internal/api/server.go:286-293 | over any run there are as many tickets as sessions that became verified, one for each, and each of those sessions is closed |
| ProtocolTheorems.ClearancesComeFromConsumedTickets | internal/token/service.go:68-93 | every clearance was paid for by one consumed ticket, its own, and carries its non-empty bindings |
| ProtocolTheorems.Conservation | internal/api/server.go:757-805 | clearances minted never outnumber tickets consumed, nor tickets issued the sessions that became verified |
| ProtocolTheorems.ClearanceAllowWithinTTL | internal/api/server.go:555-580 | a clearance lets a request through only within its time to live, counted from its ticket's consumption, and only in that ticket's context |
| ProtocolTheorems.TicketPassesOnce | internal/api/server.go:521-549 | a ticket lets a request through exactly when it is stored, unconsumed, unexpired and in its own context, and that step consumes it |
| ProtocolAnswers.TicketIsEarned | internal/api/server.go:238-316 | a ticket is issued exactly for an accepted answer to a live session with its route and nonce; that session becomes verified and the ticket's own, and the ticket starts unconsumed with the configured life |
| ProtocolAnswers.FailureIsCounted | internal/api/server.go:1808-1868 | a failed attempt is counted once, takes the session out of the active state, and the answer names the type the session now has |
| ProtocolAnswers.RefreshOfferIsHonest | internal/api/server.go:1808-1868 | a refresh straight after a failed attempt is granted exactly when the answer offered it |
| ProtocolAnswers.RefreshRenews | internal/engine/engine.go:204-225 | a granted refresh keeps failures, bindings and type; its challenge is of that type, was never attempted and is shown by no other session; an answer may follow until the new expiry |
| ProtocolDecisions.FailureExactly | internal/api/server.go:1808-1875 | when an answer is a failed attempt, and then the whole new session and the response: closed exactly at the fifth failure or a block, else without challenge and refreshable; the type changes only for a harder challenge |
| ProtocolDecisions.RefreshExactly | internal/api/server.go:1342-1370 | a refresh is granted if and only if the session is stored, in time and not closed, the application active and a challenge generated; the session then, and what a refused refresh leaves |
| ProtocolDecisions.ShowExactly | internal/store/memory.go:90-104 | looking at a session changes it only when it is overdue, which closes it |
| ProtocolDecisions.TicketAllowsExactly | internal/api/server.go:521-549 | a request with a ticket is let through if and only if the ticket is redeemable in its context; the ticket and the clearance it leaves, with its time to live; otherwise why it is blocked, and nothing changed |
| ProtocolDecisions.TicketAnswerExactly | internal/api/server.go:1981-2034 | the same at the verification endpoint, consuming or only looking |
| ProtocolDecisions.ClearanceAllowsExactly | internal/api/server.go:550-589 | a request without a ticket is let through if and only if no challenge is forced and its clearance is stored and, field by field, opens its context now; otherwise it is evaluated, and an overdue clearance that was looked at is gone, no other |
| ProtocolAnswers.TicketsAppearOnlyIssued | internal/token/service.go:33-62 | a ticket appears only in the step whose answer issues it |
| ProtocolAnswers.ClearancesAppearOnlyPaid | internal/token/service.go:68-93 | a clearance appears only in a step that consumes a matching, unexpired ticket in a complete context, and is handed out in its answer |
| Selector.Select | internal/resource/selector.go:268-314 | the one-pass fold and the sort give the declarative selection: per single type the best by score then ID, per collection type all of maximal score, in order, whatever order the maps are walked in |
| SelectedResources.SuitsExactly | internal/resource/selector.go:316-385 | a resource is eligible if and only if it is active, has content, is for the query's captcha type, scene and tag, and of a type the captcha needs |
| SelectedResources.SelectedExactly | internal/resource/selector.go:268-349 | the selection holds exactly the listed resources that suit and are the best of their type: no higher score, and for single types no equal score with a lower ID nor, at the same ID, an earlier place |
| SelectedResources.CollectionsExactly | internal/resource/selector.go:268-314 | of a collection type all top-scored resources that suit, as often as they are listed |
| SelectedResources.OnePerSingleType | internal/resource/selector.go:268-314 | of a single type exactly one, if any suits |
| SelectedResources.SelectionInOrder | internal/resource/selector.go:307-312 | entries come in order of type, and of ID within a type |
| Selector.SelectionIgnoresOrder | internal/resource/selector.go:268-314 | when no two eligible resources of a type share an ID, every permutation of the list selects the same |
| Selector.ScoreRanksByMerit | internal/resource/selector.go:351-366 | the points rank captcha type before scene before tag before the default tag, an earlier merit outweighing all later ones |
| Selector.BetterThanBest | internal/resource/selector.go:342-349 | beating the best so far is beating everything the best so far was no worse than |
| Selector.SelectionTypes | internal/resource/selector.go:268-314 | a resource type is represented in the selection exactly when some resource of it is eligible |
| Selector.SupportsCaptchaType | internal/resource/selector.go:241-257 | a captcha type is supported exactly when it has requirements and each group offers an eligible resource of one of its types |
| Sorting.FirstMatchOfSorted | internal/policy/rules.go:24-36 | the first match after a stable sort is the best match of the input, ties to the earliest |
| Sorting.StableSortByGroups | internal/resource/selector.go:303-313 | the result of a stable sort depends only on the order inside each group of equivalent elements |
| Notifier.Notifier.Notify | internal/configsync/notifier.go:27-49 | whatever the slots held, every subscriber is left with exactly the new version |
| ConfigWatch.StepKeepsInv | internal/configsync/notifier.go:27-67 | every micro-step of Notify, of a stream, of a writer keeps the invariant of locks, slots, deliveries and snapshots |
| ConfigWatch.VersionsRise | internal/grpcserver/server.go:407-444 | delivered versions and sent snapshot versions strictly increase |
| ConfigWatch.FreeLockMeansCurrentSlots | internal/configsync/notifier.go:27-49 | while the lock is free a filled slot holds the current version |
| ConfigWatch.StampNeverActs | internal/grpcserver/server.go:430-435 | raising a snapshot's version to the received one never changes it |
| ConfigWatch.QuiescentIsCurrent | internal/grpcserver/server.go:407-444 | with nothing under way and nothing to receive, the last snapshot sent has the notifier's version |
| ConfigWatch.QuiescentContents | internal/grpcserver/server.go:387-405 | once no writer owes a Notify, the store is as it was when the version of that snapshot was read |
| ConfigWatch.TornSnapshotIsKept | internal/grpcserver/server.go:387-405 | a write and its Notify between those reads leave old contents for good |
| ConfigWatch.CatchesUp | internal/grpcserver/server.go:418-443 | a waiting stream with an update pending becomes quiescent by steps of its own alone: a receipt, the reads of one snapshot and its sending |
| ConfigContents.ReachableTrace | internal/grpcserver/server.go:407-444 | every reachable state is the end of a run with all its states, which the following are about |
| ConfigContents.FetchReads | internal/grpcserver/server.go:387-405 | each part a fetch has read is what the store held at the step that read it |
| ConfigContents.SnapshotReads | internal/grpcserver/server.go:387-405 | the latest snapshot comes from the last read of the version and the five reads before it, the stream fetching all along |
| ConfigContents.ContentsCurrentExactly | internal/grpcserver/server.go:387-405 | with nothing under way and no Notify owed, a part of the last snapshot is current if and only if the store held the same in it when it and when the version was read |
| ConfigContents.UnwrittenPartIsCurrent | internal/grpcserver/server.go:387-405 | hence a part nobody wrote between those two reads is current |
| ConfigContents.UndisturbedFetchIsCurrent | internal/grpcserver/server.go:387-405 | and so is the whole snapshot when nobody writes while the stream fetches |
| EventBatcher.Runner.Add | internal/gateway/event_batcher.go:119-123 | appending to the reused batch slice, and flushing a copy when full, is the specified step |
| EventBatcher.Runner.DrainAndExit | internal/gateway/event_batcher.go:126-139 | the drain sends everything held and everything queued, in order |
| EventBatcher.EventsAreConserved | internal/gateway/event_batcher.go:74-142 | in every reachable state accepted events equal sent batches, then batch, then queue, in order, and every sent batch has 1 to maxSize events |
| EventBatcher.AcceptedIsAPrefix | internal/gateway/event_batcher.go:74-94 | the count Report returns says exactly which of its events were taken: the first so many |
| EventBatcher.BatchesAreSentFullOrTimed | internal/gateway/event_batcher.go:96-142 | a batch shorter than maxSize is sent only at a tick or at exit; taking an event sends exactly the batches it fills |
| EventBatcher.SizesAre | internal/gateway/event_batcher.go:36-51 | the sizes the batcher runs with: as configured where that makes sense, and a queue that holds a full batch |
| EventBatcher.CloseSendsEverything | internal/gateway/event_batcher.go:96-142 | a Close that finds no reporter between check and enqueue leaves every accepted event sent |
| EventBatcher.CloseIsSafeExactly | internal/gateway/event_batcher.go:74-142 | after Close every continuation empties the queue if and only if no reporter is between its check and its enqueue |
| EventBatcher.StrandedEvent | internal/gateway/event_batcher.go:74-94 | otherwise an accepted event can be left unsent |
| PolicyRules.ConditionMatches | internal/policy/rules.go:128-171 | the loops compute the boolean meaning of the condition tree |
| PolicyRules.EvaluatePolicyRule | internal/policy/rules.go:38-70 | a rule matches when enabled, not retired, in scope, rolled out, and its conditions hold |
| PolicyRules.RuleFitsExactly | internal/policy/rules.go:38-126 | which rules apply, field by field: patterns are a path, a star or a stem and a star; a rollout outside 1 .. 99 is for everybody |
| PolicyRules.EvaluatePolicyRules | internal/policy/rules.go:24-36 | sorting by priority and taking the first match |
| PolicyRules.MatchedRuleOutranks | internal/policy/rules.go:24-36 | the matched rule is the earliest of the highest priority among the rules that apply; none exactly when none applies |
| Gateway.ConfigCache.EvaluateCachedIP | internal/gateway/gateway.go:745-779 | the allow list before the block list before anything else, each by first match |
| Gateway.ConfigCache.MatchCachedRoute | internal/gateway/gateway.go:798-829 | the first matching route by priority |
| Gateway.ConfigCache.EvaluateCachedPolicyRules | internal/gateway/gateway.go:720-739 | a matched rule that is aggregated, challenge-like or of another kind is passed over |
| Gateway.ConfigCache.Decide | internal/gateway/gateway.go:512-549 | the local decision, and none before the first snapshot or with a ticket |
| Gateway.FirstIPPolicyDecides | internal/policy/evaluator.go:487-505 | the first enabled policy of the kind that contains the address decides; none exactly when none does |
| Gateway.AllowListGoesFirst | internal/policy/evaluator.go:470-485 | the block list judges only addresses on no allow list, other policies only those on neither |
| Gateway.MatchedRouteOutranks | internal/policy/evaluator.go:524-543 | the matched route is the earliest of the highest priority among the enabled routes for the method and path that are rolled out to the request; none exactly when there is none |
| Gateway.RouteModesDecide | internal/gateway/gateway.go:512-549 | by the mode as it is written: the gateway allows only without a route or by a bypass, observes only silent and observing routes, and leaves those to the server that the server challenges |
| Gateway.BlockLikeAgrees | internal/gateway/gateway.go:512-549 | every block-like local decision is the server's action, over lists that agree within every priority |
| Gateway.LocalAgrees | internal/policy/evaluator.go:66-126 | unless a matched rule was passed over, every local decision is the server's action |
| Gateway.PassedOverExactly | internal/gateway/gateway.go:725-727 | when one was passed over, the two sides agree exactly in the listed cases, none of them a challenge |
| Gateway.ChallengeRuleIsPassedOver | internal/gateway/gateway.go:725-727 | the gateway allows what the server challenges |
| Gateway.EmptyStatusDiffers | internal/api/server.go:2157-2174 | an application without a status is blocked by the server and not by the gateway |
| Gateway.HardDecisionAgrees | internal/gateway/gateway.go:551-571 | a decision made before tickets are looked at is the server's action, and the local decision without a ticket |
| Jigsaw.InvertJigsawOrder | internal/engine/engine.go:2205-2216 | the loop computes where each value stands last, and leaves missing values in place |
| Jigsaw.InverseIsTwoSided | internal/engine/engine.go:2205-2216 | for every permutation the inverse is a permutation and a two-sided inverse |
| Jigsaw.ScrambledSourceOrder | internal/engine/engine.go:2183-2195 | the scramble exchanges two different positions, whatever the draws |
| Jigsaw.DecodeOrder | internal/engine/engine.go:2236-2252 | decoding succeeds exactly when the text denotes an order: the right number of distinct indices in range |
| Jigsaw.DecodeEncode | internal/engine/engine.go:2228-2252 | the text of a permutation denotes that permutation and no other |
| Jigsaw.RenderedSource | internal/resource/renderer.go:2146-2183 | the renderer recovers the scramble's source order from the stored token |
| Jigsaw.ValidJigsawOrder | internal/engine/engine.go:2524-2536 | the loop accepts exactly the permutations |
| Jigsaw.VerifyTileOrder | internal/engine/engine.go:2499-2522 | exactly the expected order is accepted, from the token if it decodes, else from the points; all error cases |
| Jigsaw.RestoresExactly | internal/engine/engine.go:2205-2216 | an order restores a picture of distinct tiles exactly when it is the inverse of the scramble |
| Jigsaw.JudgeOrder | internal/engine/engine.go:2499-2522 | end to end, the accepted answer is exactly the order that restores the original picture |
| Tiles.TilesPartitionTheView | internal/engine/engine.go:2262-2274 | every pixel lies in exactly one floor-division tile, for all sizes and grids |
| Tiles.TilesStayInTheView | internal/engine/engine.go:2262-2274 | no tile leaves the view or is inside out |
| Tiles.CenterRoundTrip | internal/engine/engine.go:2254-2260 | a tile's centre is looked up as that tile if and only if, on both axes, the tile is two pixels wide or starts on a whole pixel |
| Tiles.CenterRoundTripWide | internal/engine/engine.go:2552-2561 | hence always when width >= 2 * cols and height >= 2 * rows |
| Tiles.IndexInView | internal/engine/engine.go:2552-2561 | a looked-up index is -1 or a tile of the grid, for any point and any view |
| Tiles.ChangedTilePoints | internal/engine/engine.go:2218-2226 | the centres of the tiles that moved, in index order |
| Tiles.ExpectedOrderFromPoints | internal/engine/engine.go:2538-2550 | the order two points stand for |
| Tiles.PointsFallbackExactly | internal/engine/engine.go:2538-2561 | for every single swap and view the order rebuilt from the points is the token's order if and only if both moved tiles' centres are looked up as their own tiles |
| Tiles.PointsFallbackAgrees | internal/engine/engine.go:2538-2561 | hence always when tiles are two pixels or more each way |
| TileMatching.VerifySelection | internal/engine/engine.go:2563-2586 | the loop with its array of matched tiles gives each point the first free tile it lies in |
| TileMatching.AcceptedIsAssignable | internal/engine/engine.go:2474-2496 | acceptance implies a bijection with each point inside its tile |
| TileMatching.GreedyIsComplete | internal/engine/engine.go:2474-2496 | and conversely, when no submitted point lies in two expected tiles |
| TileMatching.ApartIsUnambiguous | internal/engine/engine.go:2589-2594 | tiles of a given size: no answer has a point in two of them if and only if no two touch |
| TileMatching.GreedyIsCompleteApart | internal/engine/engine.go:2563-2586 | for tiles that do not touch, of any number, exactly the assignable answers are accepted |
| TileMatching.TouchingTilesRefuse | internal/engine/engine.go:2474-2496 | for tiles two of which touch, of any number, an assignable answer that is refused |
| TileMatching.GreedyIsCompleteExactly | internal/engine/engine.go:2563-2586 | for tiles of a given size at different places, of any number, exactly the assignable answers are accepted if and only if no two tiles touch |
| TileMatching.TwoTilesExactly | internal/engine/engine.go:2474-2496 | for a swap, an assignable answer is refused exactly when the first point lies in both tiles and the second only in the one taken |
| TileMatching.BorderClickIsRefused | internal/engine/engine.go:2589-2594 | an answer refused in one order of clicks and accepted in the other |
| Shuffle.RandomIndexes | internal/engine/engine.go:2435-2448 | the in-place exchanges, for given draws |
| Shuffle.PickedAreDistinct | internal/engine/engine.go:2435-2448 | the picked indices are different and in range |
| Shuffle.DrawsAreDetermined | internal/engine/engine.go:2435-2448 | two sequences of draws give the same order only if they are the same |
| Shuffle.EveryOrderIsDrawn | internal/engine/engine.go:2435-2448 | every order comes from some draws |
| Resample.PointPathLength | internal/engine/engine.go:2894-2900 | the loop adds up the segment lengths |
| Resample.ScanFindsPlace | internal/engine/engine.go:2801-2818 | the scan finds the place at the given length along the path by a fraction that the clamp never changes |
| Resample.LengthDeterminesPlace | internal/engine/engine.go:2772-2824 | the length along the path determines the place, whichever segment it is looked up in |
| Resample.Walk | internal/engine/engine.go:2797-2823 | the two-pointer scan gives each sample the place a scan from scratch gives it |
| Resample.ResamplePath | internal/engine/engine.go:2772-2824 | the sample count and every early return |
| Resample.RoundIsNearest | internal/engine/engine.go:2818-2821 | rounding is to the nearest whole number, ties away from zero |
| Resample.SamplesAreEquallySpaced | internal/engine/engine.go:2801-2801 | sample i lies at length total * i / (count - 1), before rounding |
| Resample.StraightLineIsEven | internal/engine/engine.go:2801-2821 | on a straight line sample i is the point i / (count - 1) of the way, before rounding |
| Resample.EndsAreKept | internal/engine/engine.go:2772-2824 | the first and last samples are the path's ends |
| ModelRegistry.Registry.UpsertRiskModelVersion | internal/store/memory.go:736-755 | what an upload keeps from the version it replaces, and whom it retires |
| ModelRegistry.Registry.ActivateRiskModelVersion | internal/store/memory.go:757-771 | activation retires the other active versions of the name; an unknown ID changes nothing |
| ModelRegistry.Registry.RollbackRiskModelVersion | internal/store/memory.go:773-802 | rollback reinstates the first retired version of the name in activation order; without one nothing changes |
| ModelRegistry.TargetIsUnique | internal/store/risk_model.go:68-80 | at most one version is first in activation order |
| ModelRegistry.TargetIsLatest | internal/store/risk_model.go:68-80 | it was activated no earlier than any other candidate, then created no earlier, then has the least ID |
| ModelRegistry.FirstRetiredIsTarget | internal/store/memory.go:781-790 | sorting all versions, in whatever map order, and taking the first retired one finds it |
| RegistryRuns.AtMostOneActive | internal/store/memory.go:736-811 | after any run at most one version of each name is active |
| RegistryRuns.UploadKeepsLatestExactly | internal/store/memory.go:736-755 | an upload without an activation time keeps the active versions the last activated if and only if it makes no stale claim |
| RegistryRuns.SameNameIsNeverStale | internal/store/memory.go:736-755 | an upload that is not active and keeps its version's name never makes one |
| RegistryRuns.CarefulRunsKeepTheLatestActive | internal/store/memory.go:736-811 | with increasing times and no stale claims the active version of a name is always its last activated |
| RegistryRuns.ReuploadedVersionIsNotLatest | internal/store/memory.go:736-755 | an upload that breaks it |
| RegistryRuns.PaddedActivePasses | internal/api/server.go:1272-1275 | a padded active status passes the server's guard and is stored as active |
| RegistryRuns.RollbackUndoesActivate | internal/store/memory.go:773-802 | rollback straight after an activation reinstates the formerly active version if and only if no other retired version of the name ranks before it |
| RegistryRuns.RollbackReinstates | internal/store/memory.go:773-802 | hence always after a careful run |
| Escalation.NormalizeConfiguredEscalation | internal/challenge/escalation.go:39-57 | the loop keeps the first ranked occurrence of every type, normalised |
| Escalation.NormalizedClean | internal/challenge/escalation.go:39-57 | a normalised sequence is free of duplicates and holds only ranked types |
| Escalation.NormalizedHolds | internal/challenge/escalation.go:39-57 | a type is in the normalised sequence if and only if it is ranked and was configured in some spelling |
| Escalation.NormalizationIsIdempotent | internal/challenge/escalation.go:39-57 | normalising twice is normalising once |
| Escalation.ParseOfFormat | internal/challenge/escalation.go:59-82 | parsing a formatted sequence gives its normalisation |
| Escalation.EscalationReachesFixedPoint | internal/challenge/escalation.go:9-37 | from any type under any configuration, harder and harder ends at a fixed point within the sequence's length |
| Escalation.HarderMovesForward | internal/challenge/escalation.go:9-29 | a step moves one place on in the sequence, and stays at its end |
| Escalation.HarderFromOutside | internal/challenge/escalation.go:9-29 | a type outside the sequence goes to the earliest entry ranked above it, or stays; one without a rank goes to the end |
| Escalation.DefaultExactly | internal/challenge/escalation.go:31-57 | the default sequence is used if and only if nothing configured has a rank |
| Pbkdf2.XorInto | internal/secret/secret.go:90-92 | the inner loop XORs octet by octet, in place |
| Pbkdf2.Block | internal/secret/secret.go:82-93 | the loop leaves T_i = U_1 xor ... xor U_c in its array |
| Pbkdf2.DeriveKey | internal/secret/secret.go:74-97 | the result is the derived key of RFC 8018 |
| Pbkdf2.XorBits | internal/secret/secret.go:90-92 | the XOR adds each of the eight bits modulo 2 |
| Pbkdf2.BigEndianIs | internal/secret/secret.go:79-83 | a block's number in four octets, the most significant first |
| Pbkdf2.KeyBits | internal/secret/secret.go:74-97 | a bit of the key is set if and only if an odd number of U_1 .. U_c of its block have it set |
| Pbkdf2.KeyOctets | internal/secret/secret.go:74-97 | octet k of the key is octet k mod 32 of block k / 32 + 1 |
| Pbkdf2.ShorterKeyIsPrefix | internal/secret/secret.go:96-96 | a shorter key is a prefix of a longer one |
| Secret.DecodeEncode | internal/secret/secret.go:41-47 | base64url decoding undoes encoding, for every octet string |
| Secret.EncodesVectors | internal/secret/secret.go:41-47 | the test vectors of section 10 of RFC 4648, without padding |
| Secret.ParseOfHash | internal/secret/secret.go:50-69 | parsing a stored hash gives back the iterations, salt and key it was made from |
| Secret.HashClientSecret | internal/secret/secret.go:35-48 | the stored text of a secret |
| Secret.VerifyClientSecret | internal/secret/secret.go:50-72 | every rejection and the key comparison, over all texts and values |
| Secret.VerifyOfHash | internal/secret/secret.go:35-72 | a value passes against another's hash exactly when it is not empty and derives the same key; in particular every non-empty secret passes its own |
| Secret.AcceptsAnythingExactly | internal/secret/secret.go:63-71 | a well-formed text accepts every non-empty value, whatever the pseudorandom function, if and only if its key is empty |
| Secret.HashesAcceptNotAnything | internal/secret/secret.go:35-48 | no hash of a secret is such a text: it asks for 120000 iterations and a key of 32 octets |

## Left out

- HTTP and gRPC transport, JSON and protobuf, CORS, Postgres, disk persistence and audit events: I/O.
- Image drawing, track analysis, logistic scoring and the trainer: heuristics without a crisp statement.
- The Redis rate limiters: they fail open and use the clients' clocks, so the in-memory bounds do not carry over.
- Handlers are single steps with one clock reading: two requests on one session between its GetSession and its UpdateSession are not interleaved.
- Redis: a ticket's random value is not presented by anyone before the ticket is put, and the clients and Redis share one clock.
- RateLimits.RateStore.IncrementTokenBucketRate: tokens are exact reals, without the rounding of float64.
- Resample.ResamplePath: lengths are exact reals, without the rounding of float64.
- Text: case folding is that of ASCII; strings are sequences of characters, compared by code point.
- The choice among supported captcha types, at random or by preference: a lookup over what Selector.SupportsCaptchaType answers.
- PolicyRules.ConditionMatches: the test of a single field (operators, numbers, CIDR) is a parameter, and explanations are not produced.
- Gateway.LocalAgrees: compares actions, not reasons or cooldown seconds; counters, risk scores and rollout hashes enter as parameters, and requests with a clearance are evaluated as without one.
- ModelRegistry.Registry.UpsertRiskModelVersion: version text, feature version, mode and metrics are not part of the record, and all clock readings of one operation coincide.
- Notifier.Notifier.Notify: runs alone; its interleavings, the nil notifier and closed channels are in or outside ConfigWatch, where an unsubscribed stream has already returned.
- EventBatcher.EventsAreConserved: a batch handed to the client counts as sent, whether or not its delivery then fails.
- Pbkdf2.DeriveKey: block numbers are taken modulo 2^32, as the code does; RFC 8018 refuses keys that long.
- TileMatching.VerifySelection: the distance test for tiles without a size is exact integer arithmetic.
