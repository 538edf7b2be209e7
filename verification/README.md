# Headless Oracle: verified models

Dafny models of the stateful parts of Headless Oracle, with proofs of what they
keep. Headless Oracle attests the state of exchanges with signed, short-lived
receipts; around it stand a client-side rate limiter, a webhook dispatcher, a
monitor that must fail closed, two SDKs, a stdio server, a metering gate and a tool
discovery cache.

| file | models |
|---|---|
| RateLimiter.dfy, RateLimiterRuns.dfy | the token bucket, one method per lock section, and every interleaving of those sections |
| WebhookDelivery.dfy, WebhookDispatcher.dfy | one delivery with its retries; an alarm pass, and what a subscriber hears over many |
| WebhookCrashes.dfy, AlarmSchedule.dfy | the pass with a crash possible at every await; what keeps the alarm going |
| WebhookIndex.dfy | the two subscription indexes and the DELETE handler, put by put |
| MarketMonitor.dfy | the fail-closed monitor under any order of replies |
| RequestLoop.dfy | the retry loop of both SDKs with its key purchase |
| JsonText.dfy, CanonicalPayload.dfy | the text that each SDK checks |
| CanonicalOrders.dfy | the orders in which names are sorted, from UTF-16 and from numerals |
| CanonicalAgreement.dfy, WorkerTexts.dfy | where those texts, that of the Python models and those of the worker are the same |
| OfflineVerification.dfy | the offline check |
| MerkleRoot.dfy | the root over a day's receipt ids |
| TemplateLiteral.dfy, XmlEscape.dfy | the escapers written as chained replaces |
| StdioServer.dfy | the JSON-RPC server on stdin and stdout |
| StatusGate.dfy | the gate of /v5/status |
| ToolCache.dfy | the discovery cache |

`dafny verify dfyconfig.toml` checks everything.

Objects that the code updates in place are classes here, and each method is tied to
a function on values. The run lemmas then quantify over all sequences of steps. Clock
readings, network replies and KV reads are parameters, so a lemma covers every
choice of them.

## Where code and expectation part

The models follow the code. These are the places where a comment or a natural
expectation does not hold, each with the exact condition or a general lemma.

- A second waiter of the rate limiter is refused although it slept as told (`SecondWaiterIsRefused`).
- A limiter at rate zero loses counted callers to a division by zero (`TotalIsAllowedThrottledAndAsleep`, `ShortOnceTheBurstIsSpent`, `ZeroRateLosesACaller`).
- The monitor's events are not only state changes: an outage repeats its event (`FiresAndStores`, `OutageRepeatsItsEvent`).
- A verified receipt whose expiry is no date never expires for the monitor (`OutageClosesAtExpiry`).
- A transition is lost when a pass crashes between state write and fan-out (`AnnouncedExactlyWhenCarriedThrough`).
- A bootstrap that read the alarm too early can put the pass off (`PutOffExactlyByStaleBootstraps`, `PostponementIsBounded`, `PostponementIsAttained`).
- A caller of the asynchronous limiter that is cancelled in its sleep is in no column but the total (`TotalIsAllowedThrottledAndAsleep`).
- A DELETE cut off half way cannot be retried (`CutOffDeletionIsNotRetryable`).
- A subscribe cut off half way leaves a webhook on record that some of its markets never call (`CutOffSubscribeLeavesGap`).
- A Merkle root does not tell a leaf from an inner node: it fixes the list only of ids that are not two hash values long, as UUIDs are not but signatures in hexadecimal are (`RootTellsList`, `OneIdForTwo`).
- A field named `__proto__` is not covered by the signature in TypeScript (`TypeScriptTextTellsFields`, `ProtoFieldIsNotSigned`).
- Index-like names can part the two SDKs (`SdksAgreeOnPortableReceipts`).
- A Python model drops unknown fields and adds absent ones as nulls (`ModelChecksTheSameText`).
- A receipt with wrapper fields around it verifies at the worker and not in the SDK (`WorkerAgreesWithSdk`, `StatusBodyPartsThem`).
- The splice of a constant can land inside the literal before it (`SpliceLandsBehindLiteral`, `SpliceLandsBehindEscaped`, `BacktickLineSplicesInside`).
- Text with a carriage return or a character that XML forbids does not come back from the status card (`EscapeDecodes`).
- Tool functions fall behind the cached definitions when a name is no string (`FunctionsMatchWhenNamesAreStrings`).
- A switch of the gateway leaves the old gateway's tools in place (`CachedToolsAreOfTheGatewayAsked`, `SwitchedGatewayAnswersFromOldCache`, `LateReplyIsOfTheOldGateway`).

## Model

| member | source | states |
|---|---|---|
| RateLimiterRuns.WindowBound | sample-agentcore-cloudfront-x402-payments/payer-agent/agent/rate_limiter.py:128-233 | In every reset-free run of any number of callers, whatever the interleaving of lock sections, the tokens granted in any window [lo, hi] number at most burst + rate * (hi - lo) |
| RateLimiterRuns.GrantsExactlyWhenWindowsAllow | sample-agentcore-cloudfront-x402-payments/payer-agent/agent/rate_limiter.py:121-233 | The converse: after any run a request is granted exactly when granting it would overdraw no window that opened at an earlier grant, so the limiter is as permissive as the bound allows |
| RateLimiterRuns.LazyRefillIsIdeal | sample-agentcore-cloudfront-x402-payments/payer-agent/agent/rate_limiter.py:128-139 | After any run the stored level is that of an ideal bucket computed from the grant history alone, with no refill in its definition |
| RateLimiterRuns.LevelIsWindowRoom | sample-agentcore-cloudfront-x402-payments/payer-agent/agent/rate_limiter.py:160-163 | The ideal level holds a whole token exactly when every window still has room for one |
| RateLimiterRuns.TokensStayInRange | sample-agentcore-cloudfront-x402-payments/payer-agent/agent/rate_limiter.py:128-139 | Tokens stay between 0 and the burst capacity in every run |
| RateLimiterRuns.ReadsAreInvisible | sample-agentcore-cloudfront-x402-payments/payer-agent/agent/rate_limiter.py:121-126 | Two runs that differ only in `available_tokens` reads give the same grants, denials and waits |
| RateLimiterRuns.ResumeFailsOnlyUnderContention | sample-agentcore-cloudfront-x402-payments/payer-agent/agent/rate_limiter.py:199-233 | A caller told to wait, and sleeping at least that long, is refused on its return only if another caller was granted a token meanwhile; a lone waiter always succeeds |
| RateLimiterRuns.SecondWaiterIsRefused | sample-agentcore-cloudfront-x402-payments/payer-agent/agent/rate_limiter.py:227-233 | The contention is real: of two callers told to wait at one instant the second is refused whenever the first comes back on time, unless it oversleeps by a token; the "shouldn't happen normally" of the code does not hold |
| RateLimiterRuns.WaitIsTheEarliestTime | sample-agentcore-cloudfront-x402-payments/payer-agent/agent/rate_limiter.py:141-146 | The wait a caller is told is exact: left alone, the bucket holds a token from then on and at no time before |
| RateLimiterRuns.SleepsExactlyWhenInTime | sample-agentcore-cloudfront-x402-payments/payer-agent/agent/rate_limiter.py:199-210 | After any run at a positive rate, a caller of `acquire` that gets no token at once is put to sleep exactly when blocking is on and, left alone, the windows would allow it a token within its timeout; otherwise it is refused |
| RateLimiterRuns.WaitedIsTimeSinceTheCall | sample-agentcore-cloudfront-x402-payments/payer-agent/agent/rate_limiter.py:218-233 | A caller that slept is told the time from its call to its return, whatever ran in between |
| RateLimiterRuns.ReadsTellTheLevel | sample-agentcore-cloudfront-x402-payments/payer-agent/agent/rate_limiter.py:121-126 | After any run `available_tokens` tells the level of the ideal bucket |
| RateLimiterRuns.CountersBalance | sample-agentcore-cloudfront-x402-payments/payer-agent/agent/rate_limiter.py:155-233 | In every run, resets included, total + carried over = allowed + throttled + asleep + lost to a division by zero or a cancelled sleep |
| RateLimiterRuns.TotalIsAllowedThrottledAndAsleep | sample-agentcore-cloudfront-x402-payments/payer-agent/agent/rate_limiter.py:321-398 | At every rate, until a reset, total requests = allowed + throttled + the callers between the two sections of `acquire` + those cancelled there + those that entered at rate zero below one token; the first three are the total exactly when there was nobody of the last two kinds (the two limiters have the same sections) |
| RateLimiterRuns.ShortOnceTheBurstIsSpent | sample-agentcore-cloudfront-x402-payments/payer-agent/agent/rate_limiter.py:141-146 | A caller enters at rate zero below one token exactly when the rate is zero and as many tokens as the burst have been granted |
| RateLimiterRuns.AllowedCountsGrants | sample-agentcore-cloudfront-x402-payments/payer-agent/agent/rate_limiter.py:160-163 | The allowed counter grows by exactly the number of tokens handed out |
| RateLimiterRuns.ThrottledCountsRefusals | sample-agentcore-cloudfront-x402-payments/payer-agent/agent/rate_limiter.py:160-171 | The throttled counter grows by exactly the number of requests denied, refused, or divided by zero on their return |
| RateLimiterRuns.LastRequestIsRecorded | sample-agentcore-cloudfront-x402-payments/payer-agent/agent/rate_limiter.py:155-193 | `last_request_time` is the wall time of the last request since the statistics were cleared, or none |
| RateLimiterRuns.TotalWaitSumsWaits | sample-agentcore-cloudfront-x402-payments/payer-agent/agent/rate_limiter.py:223-226 | The total wait time is the sum of the waits that `acquire` returned |
| RateLimiterRuns.ZeroRateLosesACaller | sample-agentcore-cloudfront-x402-payments/payer-agent/agent/rate_limiter.py:141-146 | At rate zero a caller leaves through the division by zero counted in, but in no column |
| RateLimiting.RateLimiter.constructor | sample-agentcore-cloudfront-x402-payments/payer-agent/agent/rate_limiter.py:103-114 | A new limiter is full and its statistics are clear |
| RateLimiting.RateLimiter.RefillTokens | sample-agentcore-cloudfront-x402-payments/payer-agent/agent/rate_limiter.py:128-139 | Adds what the rate poured in since the last update, capped at the burst capacity, and nothing else changes |
| RateLimiting.RateLimiter.CalculateWaitTime | sample-agentcore-cloudfront-x402-payments/payer-agent/agent/rate_limiter.py:141-146 | The wait brings the level to exactly one token; none is defined exactly at rate zero below one token |
| RateLimiting.RateLimiter.AvailableTokens | sample-agentcore-cloudfront-x402-payments/payer-agent/agent/rate_limiter.py:121-126 | Returns the refilled level and leaves the statistics alone |
| RateLimiting.RateLimiter.TryAcquire | sample-agentcore-cloudfront-x402-payments/payer-agent/agent/rate_limiter.py:148-171 | The whole new state and answer of the lock section that the runs interleave |
| RateLimiting.RateLimiter.AcquireEnter | sample-agentcore-cloudfront-x402-payments/payer-agent/agent/rate_limiter.py:186-210 | The first lock section of `acquire`: granted, raised, told to wait, or division by zero, with the whole new state |
| RateLimiting.RateLimiter.AcquireResume | sample-agentcore-cloudfront-x402-payments/payer-agent/agent/rate_limiter.py:218-233 | The second lock section, with the whole new state |
| RateLimiting.RateLimiter.Reset | sample-agentcore-cloudfront-x402-payments/payer-agent/agent/rate_limiter.py:257-262 | Makes the limiter as new |
| RateLimiting.RateLimiter.ResetStats | sample-agentcore-cloudfront-x402-payments/payer-agent/agent/rate_limiter.py:264-267 | Clears the statistics and keeps level and clock |
| WebhookDispatching.HearsDestutteredSamples | scripts/apply-webhook-sprint2.py:415-460 | Over any sequence of completed passes a subscriber listed throughout hears exactly the steps of the sampled statuses with stutters removed, starting from what was stored; skipped samples leave no trace |
| WebhookDispatching.EventsFormAChain | scripts/apply-webhook-sprint2.py:450-455 | Each event is a change, and its previous status is the current one of the event before |
| WebhookDispatching.PassOnMarket | scripts/apply-webhook-sprint2.py:433-460 | What one pass adds for a market depends on that market's row alone |
| WebhookDispatching.OverrideComesAndGoes | scripts/apply-webhook-sprint2.py:416-460 | A subscriber of a market that stood at its schedule `a` hears of an override to `x` exactly two changes: from `a` to `x` when the first pass meets it, and back with the first pass at or after its expiry |
| WebhookDispatching.OverrideIsSampledUntilItExpires | scripts/apply-webhook-sprint2.py:416-431 | Over any passes a market with that schedule and override samples `x` at every pass before the expiry and `a` at every pass from then on |
| WebhookDispatching.SampleOfARow | scripts/apply-webhook-sprint2.py:416-431 | A market is skipped exactly when one of the two reads throws, samples an override that names a status and an expiry still to come, and its schedule otherwise |
| WebhookDispatching.DeadOverridesLeaveTheSchedule | scripts/apply-webhook-sprint2.py:419-429 | Rows without a live override sample their schedules |
| WebhookDispatching.DeliveriesAreAddressed | scripts/apply-webhook-sprint2.py:449-460 | Every delivery of a pass goes to a target that its market lists, tells the status sampled there as a change, and carries the time of the pass |
| WebhookDispatching.WebhookDispatcher.Alarm | scripts/apply-webhook-sprint2.py:411-476 | A completed pass stores and delivers exactly what the row-by-row account says, and sets the next alarm a minute ahead |
| WebhookDispatching.WebhookDispatcher.VisitMarket | scripts/apply-webhook-sprint2.py:433-469 | One market: stores the sample, and fans out on a change of a known status only |
| WebhookDispatching.WebhookDispatcher.SampleStatus | scripts/apply-webhook-sprint2.py:416-431 | The scheduled status unless an override is readable and not expired; skipped when either throws |
| WebhookDispatching.WebhookDispatcher.Notify | scripts/apply-webhook-sprint2.py:449-460 | One event per target, in order |
| WebhookDispatching.WebhookDispatcher.Bootstrap | scripts/apply-webhook-sprint2.py:398-407 | Sets an alarm a minute ahead only when none is pending |
| WebhookCrashes.AtMostOneFanOut | scripts/apply-webhook-sprint2.py:433-459 | With crashes at any await and reruns, no two fan-outs announce the same recorded transition, and each announces a change |
| WebhookCrashes.WhatIsDroppedStaysDropped | scripts/apply-webhook-sprint2.py:437-443 | A transition no pass is about to announce is never announced later |
| WebhookCrashes.AnnouncedExactlyWhenCarriedThrough | scripts/apply-webhook-sprint2.py:437-459 | A recorded transition is announced in a run exactly when its very next steps read a list that is not empty and then fan out; a crash before either loses it for good |
| WebhookCrashes.RecordedFormAChain | scripts/apply-webhook-sprint2.py:433-440 | Under crashes the recorded transitions of a market still form a chain that ends in the stored status |
| WebhookCrashes.CrashFreePassIsAlarm | scripts/apply-webhook-sprint2.py:415-470 | Without crashes the awaits taken apart do exactly what `Alarm` promises |
| WebhookDelivery.DeliverWebhook | scripts/apply-webhook-sprint2.py:117-163 | At most four attempts; ok exactly when one of them is accepted, with the first accepted reply; failure only after all four, with the last reply; the `exhausted` return is unreachable |
| WebhookDelivery.WaitsOfADelivery | scripts/apply-webhook-sprint2.py:140-143 | The waits before attempts one to four total 0, 1, 5 and 21 seconds |
| AlarmSchedule.NeverDiesOnceBooted | scripts/apply-webhook-sprint2.py:398-409 | After the first bootstrap has returned, in every state of every interleaving a pass is pending or running, and a pending one is due within a minute |
| AlarmSchedule.APassIsAlwaysAMinuteAway | scripts/apply-webhook-sprint2.py:472-475 | From every such state, undisturbed, a pass runs once a minute has gone by |
| AlarmSchedule.PostponementIsBounded | scripts/apply-webhook-sprint2.py:398-407 | While an alarm is pending each bootstrap that had found none can put it off once, by at most a minute, and no other can: a pass is never further away than a minute for each of those and one more |
| AlarmSchedule.PostponementIsAttained | scripts/apply-webhook-sprint2.py:398-407 | From every state with a pending alarm some run puts it off by a minute for each bootstrap that had found none: the bound is attained |
| AlarmSchedule.PutOffExactlyByStaleBootstraps | scripts/apply-webhook-sprint2.py:398-407 | A pending pass can be put off exactly when some bootstrap found no alarm and is yet to set one |
| AlarmSchedule.StaleBootstrapPutsOff | scripts/apply-webhook-sprint2.py:400-403 | Such bootstraps come about: a run from the start in which the second of two sets the alarm anew when it is due |
| AlarmSchedule.EachAlarmFiresOnce | scripts/apply-webhook-sprint2.py:398-409 | In every interleaving no alarm fires twice: the firings and the alarm still pending are at most as many as were set |
| WebhookIndex.Worker.Delete | scripts/apply-webhook-sprint2.py:305-323 | 404 and no write for an unknown id; otherwise 204, the final store, and the store after every single put |
| WebhookIndex.DeletionKeepsSuperset | scripts/apply-webhook-sprint2.py:309-317 | If the per-market index has all that the records ask for, every put of a DELETE keeps it so; the only new surplus is the deleted id in markets still to come; and if the two matched before, they match at the end, duplicate markets included |
| WebhookIndex.DeletedStaysUnreachable | scripts/apply-webhook-sprint2.py:313-323 | After the 204 no read that falls between any two later puts returns that webhook, whatever is subscribed or deleted meanwhile and wherever any request before or after is cut off |
| WebhookIndex.StrikesNothingElse | scripts/apply-webhook-sprint2.py:309-317 | Wherever targets with the deleted id stand in a list, just they go: what is before and behind them stays in its order and number |
| WebhookIndex.EachPutStrikesOneId | scripts/apply-webhook-sprint2.py:311-317 | After every put of a DELETE each market already written has its list with that id struck, and each other market its list as it was |
| WebhookIndex.RecordKeepsTheRest | scripts/apply-webhook-sprint2.py:306-309 | In the record, where an id stands once, the other subscriptions keep their order and number |
| WebhookIndex.SubscribesAtTheEnd | src/index.ts:14163-14174 | At every put a subscribe has appended its subscription to the record and, to each market, one target for each time the puts so far named it |
| WebhookIndex.ListedAsOftenAsNamed | src/index.ts:14163-14174 | After every history, wherever its requests were cut off, a webhook on record is listed in a market exactly as often as the puts of its subscription named that market |
| WebhookIndex.ListedOnceExactlyWhenNamedOnce | src/index.ts:14163-14174 | So it is listed there once exactly when the puts that were reached named the market once |
| WebhookIndex.TargetsWereSubscribed | src/index.ts:14163-14174 | Every target listed after a history is, field by field, that of some subscription, in a market which it names |
| WebhookIndex.SubscriberHearsTheMarket | scripts/apply-webhook-sprint2.py:311-460 | From the subscription to the deliveries: while a webhook that names a market once stays on record, whatever else is subscribed, deleted or cut off between the passes, it hears exactly the steps of the destuttered samples |
| WebhookIndex.HistoriesKeepSuperset | src/index.ts:14163-14174 | After every history by one writer at a time, with deletes cut off at any put and no subscribe between its markets, the index has all that the records ask for; the two match when no delete was cut off |
| WebhookIndex.CutOffSubscribeLeavesGap | src/index.ts:14163-14174 | A subscribe cut off after some markets keeps the index complete exactly when those are all that it names; otherwise the webhook is on record where no dispatch reaches it |
| WebhookIndex.HistoriesStayTidy | src/index.ts:14163-14174 | With any request cut off at any put, a webhook on record is indexed under its own key and in its own markets only, and ids stay unique |
| WebhookIndex.CutOffDeletionIsNotRetryable | scripts/apply-webhook-sprint2.py:306-317 | A handler cut off after the record leaves the webhook reachable unless every market was written, and the same request then answers 404 and changes nothing |
| WebhookIndex.Worker.Subscribe | src/index.ts:14163-14174 | Appends the subscription to the record and one target per named market to the index, with the store after every single put |
| MarketMonitoring.ConfirmedOpenIsLastVerifiedOpen | docs/multi-exchange-monitor.ts:85-91 | Over every interleaving of replies, confirmed open exactly when the last verified receipt for that poll said OPEN and has not expired |
| MarketMonitoring.OutageClosesAtExpiry | docs/multi-exchange-monitor.ts:125-189 | Once only failed polls follow, an OPEN ends at its receipt's expiry; it ever ends exactly when that expiry can be read as a date |
| MarketMonitoring.UnreadableExpiryNeverCloses | docs/multi-exchange-monitor.ts:89-90 | A verified receipt whose expiry is no date keeps a market confirmed open at every time |
| MarketMonitoring.StoresLastVerified | docs/multi-exchange-monitor.ts:170-189 | The entry holds the fields of the last verified receipt; with failed polls alone it is UNKNOWN from SYSTEM, good for a minute |
| MarketMonitoring.MarketsAreIndependent | docs/multi-exchange-monitor.ts:161-200 | A market's entry and events depend on its own replies alone |
| MarketMonitoring.LogRebuildsState | docs/multi-exchange-monitor.ts:166-200 | Replaying the event log rebuilds the stored statuses; each event's previous is the stored status just before, is a change, and says UNKNOWN when it has no receipt |
| MarketMonitoring.ReplayedIsLastReceipted | docs/multi-exchange-monitor.ts:166-200 | The stored status is that of the last event with a receipt, or UNKNOWN when none had one |
| MarketMonitoring.FiresAndStores | docs/multi-exchange-monitor.ts:166-200 | A reply fires exactly when it reports something else than is stored, the event then tells the stored and the reported status with the receipt if there is one, and what it reports is stored exactly when it is verified, or the market was new or UNKNOWN |
| MarketMonitoring.ThrowingVerifierIsSilent | docs/multi-exchange-monitor.ts:143-159 | A poll whose verifier throws leaves no trace in the state or in the log, whatever follows |
| MarketMonitoring.OutageRepeatsItsEvent | docs/multi-exchange-monitor.ts:179-200 | "State-change events only" does not hold: n failed polls after a known status fire n equal events and change nothing |
| MarketMonitoring.UpdatedAtIsLastChange | docs/multi-exchange-monitor.ts:170-189 | `updated_at` is the time of the one reply that brought something new, be it verified or the first failed poll, and since which every verified reply says the same |
| MarketMonitoring.MultiExchangeMonitor.HandleVerifiedStatus | docs/multi-exchange-monitor.ts:161-201 | The new state and the event of one handled reply |
| MarketMonitoring.MultiExchangeMonitor.FetchAndVerify | docs/multi-exchange-monitor.ts:125-159 | Every failure is handled as UNKNOWN without a receipt; a throwing verifier changes nothing |
| MarketMonitoring.MultiExchangeMonitor.IsConfirmedOpen | docs/multi-exchange-monitor.ts:86-91 | The query, on the state as it is |
| MarketMonitoring.MultiExchangeMonitor.GetStatus | docs/multi-exchange-monitor.ts:81-83 | The stored status or none |
| RequestLoop.Client.Request | packages/sdk-typescript/src/index.ts:348-422 | For every script of answers the call is the first decisive reply among the first maxRetries + 1, or else the last error; with what it sent, slept and did to the key |
| RequestLoop.Client.BuyKeyAndRetry | packages/sdk-typescript/src/index.ts:382-406 | A 402 without a key: one call of the key endpoint, then one more request, and which error survives |
| RequestLoop.Client.Retry | packages/sdk-typescript/src/index.ts:358-421 | The loop stops at the first reply that is not transient, or at the last attempt, having sent one request per attempt |
| RequestLoop.Client.React | packages/sdk-python/headless_oracle/client.py:218-264 | What the loop does about one reply: again, buy a key, or return, in each dialect |
| RequestLoop.RanIsDeterministic | packages/sdk-typescript/src/index.ts:348-422 | The reference leaves nothing open: two traces that meet it are equal |
| RequestLoop.RequestsAreBounded | packages/sdk-typescript/src/index.ts:358-421 | A call sends at most 2 * maxRetries + 3 requests, maxRetries + 1 with a key |
| RequestLoop.KeyChangesOnlyAtTheWall | packages/sdk-python/headless_oracle/client.py:230-234 | The stored key changes only at a 402 met without one, to the key just bought |
| RequestLoop.ValuesComeFromTheServer | packages/sdk-typescript/src/index.ts:408-418 | A returned value is the body of a 2xx reply, the last one of the call |
| RequestLoop.BackoffTotals | packages/sdk-python/headless_oracle/client.py:209-211 | The backoff before attempt k totals 2^k - 1 seconds; in Python that only up to 4, then 15 + 8 * (k - 4) |
| RequestLoop.SleptIsBackoff | packages/sdk-typescript/src/index.ts:359-362 | Without Retry-After headers the loop sleeps for the backoff alone |
| RequestLoop.AnswersAfterRetries | packages/sdk-typescript/src/index.ts:364-418 | After any number of network errors and 429s within the retries the next reply settles the call: a 2xx with a document is its value, and any other status but 429 and an unpaid 402 its error, at once |
| RequestLoop.FailsWithTheLastError | packages/sdk-typescript/src/index.ts:364-380 | When network errors and 429s fill all maxRetries + 1 attempts, the call fails with what the last one met |
| RequestLoop.PythonStopsAtABadRetry | packages/sdk-python/headless_oracle/client.py:219-229 | The Python loop stops at a 429 whose Retry-After it cannot sleep for, and at one whose body it cannot read |
| RequestLoop.BuysAKeyAtTheWall | packages/sdk-typescript/src/index.ts:382-406 | A 402 without a key, then an answer of the key endpoint that holds one: the request is sent again with that key, and a 2xx gives its document |
| RequestLoop.FailsAtTheWall | packages/sdk-typescript/src/index.ts:382-406 | A key endpoint that refuses passes its error on; one that cannot be reached leaves the error of the 402; no key is kept |
| RequestLoop.NoKeyInTheAnswer | packages/sdk-python/headless_oracle/client.py:230-249 | A good answer of the key endpoint without a key in it: Python leaves the 402, and TypeScript sends the request again without a key |
| RequestLoop.SleepsAddUp | packages/sdk-typescript/src/index.ts:359-380 | Before attempt k the call has slept the backoff and what each earlier reply asked for: 1000 milliseconds for each second of a Retry-After, and what each dialect makes of one it cannot read |
| CanonicalPayload.TypeScriptTextTellsFields | packages/sdk-typescript/src/index.ts:275-282 | Two receipts have the same canonical text exactly when they have the same fields in whatever order, the signature and a field named `__proto__` aside, which the assignment to `sorted` drops |
| CanonicalPayload.ProtoFieldIsNotSigned | packages/sdk-typescript/src/index.ts:277-280 | A field named `__proto__` changes the Python text of every receipt and the TypeScript text of none |
| CanonicalPayload.LoneProtoFieldIsEmpty | packages/sdk-typescript/src/index.ts:277-281 | The object with that one field has the TypeScript text of the empty object |
| CanonicalPayload.PythonTextTellsFields | packages/sdk-python/headless_oracle/client.py:138-142 | Two receipts have the same Python text exactly when they have the same fields, the signature aside |
| CanonicalPayload.SortedListingIsUnique | packages/sdk-typescript/src/index.ts:278-280 | A set of fields has one sorted listing |
| CanonicalPayload.CanonicalText | packages/sdk-typescript/src/index.ts:275-281 | The loop of assignments to `sorted` yields the canonical text |
| CanonicalOrders.CodeUnitsIsUtf16Order | packages/sdk-typescript/src/index.ts:277-281 | The order in which TypeScript sorts names is that of their UTF-16 code units |
| CanonicalOrders.CodePointsIsPointOrder | packages/sdk-python/headless_oracle/client.py:140-142 | The order in which Python sorts names is that of their code points |
| CanonicalOrders.OrdersDiffer | packages/sdk-python/headless_oracle/client.py:140-142 | An emoji sorts before a full-width letter for one and behind it for the other |
| CanonicalOrders.NumericIsOrderOfNumbers | packages/sdk-typescript/src/index.ts:277-281 | Among the names that an object lists as indexes the order is that of the numbers |
| CanonicalOrders.IndexIsNumeralBelowTop | packages/sdk-typescript/src/index.ts:277-281 | A name is such an index exactly when it is the decimal numeral, without leading zeros, of a number below 2^32 - 1 |
| CanonicalAgreement.SdksAgreeOnPortableReceipts | packages/sdk-python/headless_oracle/client.py:140-142 | For every receipt the two SDKs build the same text exactly when all characters of the payload are below DEL, no field is named `__proto__`, and no index-like name is out of place |
| CanonicalAgreement.KeptExactlyInPlace | packages/sdk-typescript/src/index.ts:277-281 | A listing sorted by name survives as the properties of an object exactly when no index stands behind a name that is none or behind a greater index |
| CanonicalAgreement.TenBeforeNineIsOutOfPlace | packages/sdk-typescript/src/index.ts:277-281 | A receipt with the names 10 and 9 parts the SDKs |
| CanonicalAgreement.OneBeforeTwoIsInPlace | packages/sdk-typescript/src/index.ts:277-281 | One with the names 1 and 2 does not |
| CanonicalAgreement.ModelChecksTheSameText | packages/sdk-python/headless_oracle/client.py:126-141 | A receipt checked through its pydantic model has the text that TypeScript builds exactly when it is plain, carries every optional field of the model, and no field that the model does not know |
| CanonicalAgreement.ExtraFieldPartsTheModel | packages/sdk-python/headless_oracle/models.py:41-56 | One field more than the model has, and the texts part |
| CanonicalAgreement.StatusResponseAddsNulls | packages/sdk-python/headless_oracle/models.py:59-64 | A whole signed receipt read as the StatusResponse that `get_status` returns gains three nulls, and the texts part |
| WorkerTexts.WhoChecksWhatWasSigned | src/index.ts:1619-1635 | When the worker has signed a payload, the SDK checks that text for exactly the receipts with its fields and no more, and /v5/verify for exactly those that have them once wrapper fields are dropped and null is read as the string |
| WorkerTexts.WhenPythonChecksWhatWasSigned | packages/sdk-python/headless_oracle/client.py:138-142 | The Python SDK checks that text for exactly the receipts that have the issued fields and are portable |
| WorkerTexts.WorkerAgreesWithSdk | src/index.ts:2839-2850 | The SDK and /v5/verify check one text exactly on the receipts without a wrapper field and without a null |
| WorkerTexts.StatusBodyPartsThem | src/index.ts:10883-10887 | An issued receipt with a `discovery_url` put around it, as in the body of /v5/status, verifies at the worker and not in the SDK |
| WorkerTexts.WhatTheWorkerCannotTell | src/index.ts:2843-2850 | /v5/verify tells neither a null from the string of that name nor any value of a wrapper field from none |
| WorkerTexts.CanonicalToSign | src/index.ts:1619-1635 | The loop of `signPayload`, which throws at the first value that is no string |
| WorkerTexts.CanonicalToVerify | src/index.ts:2843-2850 | The loop of `verifyReceiptLogic` |
| JsonText.ObjectRoundTrip | packages/sdk-typescript/src/index.ts:281-281 | Reading either SDK's text as JSON gives back the fields in order |
| JsonText.StringRoundTrip | packages/sdk-python/headless_oracle/client.py:141-141 | Reading an escaped string (section 7 of RFC 8259) gives back the string, surrogate pairs included |
| JsonText.SpelledByBoth | packages/sdk-typescript/src/index.ts:281-281 | Both SDKs spell what section 7 of RFC 8259 says must be escaped in one way: the short form where there is one, else four lower-case hexadecimal digits |
| OfflineVerification.VerifiedMeansIssued | packages/sdk-typescript/src/index.ts:261-300 | If a key has signed issued payloads only, a receipt with a good signature has exactly the fields of one of them, a field named `__proto__` aside |
| OfflineVerification.SignatureCoversTheFields | packages/sdk-typescript/src/index.ts:275-281 | A signature made for one receipt is good for another exactly when their signed fields are the same, in whatever order |
| OfflineVerification.SignatureOfField | packages/sdk-typescript/src/index.ts:275-276 | The signature checked is the value of the field of that name, and there is none without the field or where it is null |
| OfflineVerification.Verifier.VerifyOffline | packages/sdk-typescript/src/index.ts:261-300 | For each reason exactly when it is given, which key is used and which is cached afterwards; an expired receipt touches no key |
| OfflineVerification.Verifier.GetPublicKey | packages/sdk-typescript/src/index.ts:316-325 | The cached key if there is one, otherwise the fetched one, which is kept |
| MerkleRoot.ComputeMerkleRoot | src/index.ts:3355-3370 | The loops yield the value of the tree that pairs neighbours level by level and promotes an odd node |
| MerkleRoot.TreeKeepsList | src/index.ts:3357-3368 | That tree has the list of ids at its leaves, in order |
| MerkleRoot.TreeSplitsAtPowersOfTwo | src/index.ts:3357-3368 | It is the one tree over that list which splits off the largest power of two at every node |
| MerkleRoot.ValueTellsTree | src/index.ts:3361-3363 | Without a collision among the strings hashed, two trees have one value exactly when they are the same, but that a leaf whose id is two hash values stands for the node over them |
| MerkleRoot.RootTellsList | src/index.ts:3355-3370 | Without a collision two lists share a root exactly when both are empty or their trees are alike in that sense; when no id is two hash values long, exactly when they are one list |
| MerkleRoot.OneIdForTwo | src/index.ts:3357-3363 | Under every hash the one id made of two leaf hashes has the root of the two ids |
| TemplateLiteral.ChainIsOnePass | scripts/inject-mpas-spec.py:9-11 | The three chained replaces equal one pass that escapes each character where it stands |
| TemplateLiteral.LiteralReadsBack | scripts/inject-mpas-spec.py:11-13 | Read as a template literal the result closes where the script closes it, has no substitution, and gives the text with line ends normalised; the very text exactly when it has no carriage return |
| TemplateLiteral.SpliceLandsBehindLiteral | scripts/inject-mpas-spec.py:18-32 | Whatever literal the anchor opens, the constant lands right behind it exactly when a semicolon and a line end follow it and no line of its source text ends in a backtick and a semicolon |
| TemplateLiteral.SpliceLandsBehindEscaped | scripts/inject-mpas-spec.py:18-32 | For a literal that the script wrote itself, exactly when no line of the text it stands for does |
| TemplateLiteral.BacktickLineSplicesInside | scripts/inject-mpas-spec.py:18-32 | With a text of one such line it lands inside |
| TemplateLiteral.InjectConstant | scripts/inject-mpas-spec.py:20-38 | No anchor or close: exit; already there: unchanged; otherwise the text around is kept and the inserted literal reads as the specification |
| XmlEscape.FourPassesAreOne | scripts/insert-card-endpoint.py:75-80 | The four chained replaces equal one pass |
| XmlEscape.EscapeDecodes | scripts/insert-card-endpoint.py:75-80 | Through an XML reader (sections 2.2, 2.11 and 4.6 of XML 1.0) a text comes back with its line ends normalised, none of it markup, exactly when XML admits its characters; as it was exactly when it has no carriage return besides |
| XmlEscape.AmpersandsLastSpoil | scripts/insert-card-endpoint.py:77-77 | Ampersands must go first: last, they spoil the other entities |
| StdioServer.EachRequestIsAnsweredOnce | packages/headless-oracle-mcp/bin/cli.js:63-177 | In every run without a null line `pending` counts the handlers in flight; each request is answered once, unless it still waits for the remote; notifications never (sections 4.1 and 5 of JSON-RPC 2.0) |
| StdioServer.ExitsExactlyWhenDrained | packages/headless-oracle-mcp/bin/cli.js:145-182 | The process has exited exactly when stdin is closed and nothing is in flight |
| StdioServer.ExitLeavesNothingUnanswered | packages/headless-oracle-mcp/bin/cli.js:145-177 | At the exit every request has had its one answer |
| StdioServer.DrainsInEveryRun | packages/headless-oracle-mcp/bin/cli.js:173-182 | Once stdin is closed every run, in whatever order the remote answers or fails, exits with the last of a fixed number of steps; only a remote call that never settles keeps the process alive |
| StdioServer.ResponsesCarryTheirIds | packages/headless-oracle-mcp/bin/cli.js:101-116 | Behind a remote that echoes ids every response carries the id of the line it answers |
| StdioServer.ResponsesFitTheirLines | packages/headless-oracle-mcp/bin/cli.js:63-163 | In every run without a null line a local method is answered with its result, a tool method by the remote or with its failure, an unknown method and a line that is no JSON with their errors, and nothing else is answered |
| StdioServer.ForwardsTheRemote | packages/headless-oracle-mcp/bin/cli.js:101-116 | A forwarded response is the answer that the remote gave to that line, with its id; an error in its place means that the remote failed it |
| StdioServer.Server.ReceiveLine | packages/headless-oracle-mcp/bin/cli.js:149-163 | The line handler up to its first wait |
| StdioServer.Server.HandleMessage | packages/headless-oracle-mcp/bin/cli.js:63-136 | One response for a local method, none for a notification, and a wait for a proxied one |
| StdioServer.Server.ResumeProxy | packages/headless-oracle-mcp/bin/cli.js:101-116 | Forwards the answer or reports the error |
| StdioServer.Server.Finally | packages/headless-oracle-mcp/bin/cli.js:173-176 | Decrements and tries to exit |
| StdioServer.Server.Close | packages/headless-oracle-mcp/bin/cli.js:179-182 | Notes the end of stdin and tries to exit |
| StatusGate.EveryServiceIsAccountedFor | scripts/patch_x402scan.py:112-215 | Over any day, served = usage increments + credits consumed + payments + requests on plans without a meter |
| StatusGate.CountersStayWithinPlan | scripts/patch_x402scan.py:152-190 | A counter never falls and never passes its plan's limit |
| StatusGate.CreditsNeverGoNegative | scripts/patch_x402scan.py:169-171 | Balances stay nonnegative |
| StatusGate.RefusalsLeaveNoTrace | scripts/patch_x402scan.py:117-213 | Over any day, dropping the refused requests changes neither the books at the end nor how any other request is served |
| StatusGate.WhoIsServed | scripts/patch_x402scan.py:117-213 | Quota, credit, payment and unmetered service each have their exact condition |
| StatusGate.WhoIsRefusedWithWhat | scripts/patch_x402scan.py:117-213 | Each refusal has its exact condition, the status of the key check included |
| StatusGate.RejectedKeysGetNothing | scripts/patch_x402scan.py:117-120 | Over any day the requests of rejected keys, and no others, are refused as such, each with its own status; without them the books and the services are the same |
| StatusGate.FreeKeyGetsQuotaThenCredits | scripts/patch_x402scan.py:126-180 | n requests of a free key without payments are served exactly min(n, quota left + credits) times |
| StatusGate.PayingSparesTheCredits | scripts/patch_x402scan.py:130-168 | Past its quota a free key that pays is served every time, and neither its credits nor its counter change |
| StatusGate.OthersLeaveItsBooks | scripts/patch_x402scan.py:112-215 | What other keys and keyless callers do touches neither the counter nor the balance of a key |
| StatusGate.PaidKeyGetsItsQuota | scripts/patch_x402scan.py:181-190 | A builder or pro key is served exactly min(n, limit left) times, whatever it pays or holds besides |
| StatusGate.KeylessServiceIsPaid | scripts/patch_x402scan.py:191-214 | Without a key exactly the valid payments are served, where the service can be paid, and no book changes |
| StatusGate.Gate.Handle | scripts/patch_x402scan.py:112-215 | The decision and the books after it, in every branch |
| StatusGate.Gate.ConsumeCredit | src/index.ts:4292-4299 | One credit less, never below zero |
| ToolCache.CachedAnswersAreTheLastUpdate | sample-agentcore-cloudfront-x402-payments/payer-agent/agent/mcp_client.py:241-248 | Over every interleaving, answered from the cache exactly when not forced and the last update since a clear was non-empty and less than the TTL ago; the answer is that update |
| ToolCache.WhatIsListedIsCached | sample-agentcore-cloudfront-x402-payments/payer-agent/agent/mcp_client.py:241-344 | After any run, what a document lists is discovered, has its functions, and answers every unforced discovery exactly until the TTL is over, if caching is on and it lists anything |
| ToolCache.WhatADiscoveryComesTo | sample-agentcore-cloudfront-x402-payments/payer-agent/agent/mcp_client.py:268-344 | Which replies fail, which raise, and what all others discover |
| ToolCache.ParsedSplits | sample-agentcore-cloudfront-x402-payments/payer-agent/agent/mcp_client.py:317-333 | A list of entries parses as its parts do, one after the other, and not at all when one of them does not |
| ToolCache.ParsedSingle | sample-agentcore-cloudfront-x402-payments/payer-agent/agent/mcp_client.py:317-333 | One entry yields its definition, nothing when it is malformed, and an exception when it is no object |
| ToolCache.ListingParses | sample-agentcore-cloudfront-x402-payments/payer-agent/agent/mcp_client.py:317-333 | A document that lists definitions parses to just these, in order |
| ToolCache.FunctionsMatchWhenNamesAreStrings | sample-agentcore-cloudfront-x402-payments/payer-agent/agent/mcp_client.py:309-314 | The generated functions match the cached definitions one to one exactly when nothing is cached since a clear or every name of the last update is a string; that a name which is none stops the functions assumes a `@tool` decorator that returns a plain function |
| ToolCache.NumericNameLeavesStaleFunctions | sample-agentcore-cloudfront-x402-payments/payer-agent/agent/mcp_client.py:650-656 | A name that is no string makes the discovery raise after the cache was replaced; the next discovery answers from it while the functions are stale, if the `@tool` decorator returns a plain function |
| ToolCache.FailuresLeaveNoTrace | sample-agentcore-cloudfront-x402-payments/payer-agent/agent/mcp_client.py:268-307 | Over any run, without the replies that fail the cache, where it came from and the outcome of every other event are the same |
| ToolCache.CachedToolsAreOfTheGatewayAsked | sample-agentcore-cloudfront-x402-payments/payer-agent/agent/mcp_client.py:717-720 | What is cached came from the gateway that was current when the discovery of the last update was begun; it is of the present one exactly when the switches since then ended where they started |
| ToolCache.CacheIsOfTheGatewayUntilSwitched | sample-agentcore-cloudfront-x402-payments/payer-agent/agent/mcp_client.py:717-720 | Without a switch since then what is cached is of the present gateway |
| ToolCache.SwitchedGatewayAnswersFromOldCache | sample-agentcore-cloudfront-x402-payments/payer-agent/agent/mcp_client.py:717-720 | A switch leaves a fresh cache, and where it came from, as they are: it still answers |
| ToolCache.LateReplyIsOfTheOldGateway | sample-agentcore-cloudfront-x402-payments/payer-agent/agent/mcp_client.py:717-720 | A reply that comes in after the switch caches the old gateway's tools under the new one |
| ToolCache.McpClient.FinishDiscovery | sample-agentcore-cloudfront-x402-payments/payer-agent/agent/mcp_client.py:268-344 | The cache and the outcome for every reply |
| ToolCache.McpClient.BeginDiscovery | sample-agentcore-cloudfront-x402-payments/payer-agent/agent/mcp_client.py:241-251 | Answers from a fresh cache unless forced |
| ToolCache.McpClient.GenerateStrandsTools | sample-agentcore-cloudfront-x402-payments/payer-agent/agent/mcp_client.py:532-552 | One function per definition, in order, or the error of a name that is no string, if the `@tool` decorator returns a plain function |
| ToolCache.McpClient.IsCacheValid | sample-agentcore-cloudfront-x402-payments/payer-agent/agent/mcp_client.py:173-180 | Caching on, something cached, and younger than the TTL |

## Left out

- WindowBound: reals and a monotone clock stand for Python floats; rounding is not modelled, and a sleep lasts at least as long as asked.
- TotalIsAllowedThrottledAndAsleep: a negative rate, whose waits `time.sleep` rejects, is read as in the asynchronous limiter.
- HearsDestutteredSamples: for a subscriber that the list holds once (when that is so: `ListedOnceExactlyWhenNamedOnce`); a subscription that names a market twice is called once per entry.
- AtMostOneFanOut: about calls of `deliverWebhook`, not about what arrives at the endpoint when a pass dies under a running delivery.
- HistoriesKeepSuperset: one writer at a time, as the code has no lock; two interleaved writers can lose each other's puts.
- Request: JSON bodies are objects, and the key endpoint never answers 402, since the code would then nest without bound.
- VerifyOffline: of the TypeScript client only; `verify_offline` of the Python client differs in that an unreadable expiry or a missing signature raises.
- SdksAgreeOnPortableReceipts: flat receipts of strings and nulls; nested values are not modelled, so `receipt` and `extensions` of a StatusResponse are null.
- StatusBodyPartsThem: with the one wrapper field that is a string; the nested copy of the receipt that the body holds besides is not modelled.
- StringRoundTrip: characters are Unicode scalar values; a lone surrogate, which all writers spell as the same escape, is no character here.
- WorkerAgreesWithSdk: of the worker only the texts; its answers to malformed receipts and its expiry check are not modelled.
- SleptIsBackoff: times are those asked of the timer; a delay past 2^31 - 1 milliseconds, which JavaScript timers run at once, is not modelled.
- FunctionsMatchWhenNamesAreStrings: assumes that the Strands `@tool` decorator returns a plain function, whose `__name__` takes strings only; with a decorator that returns an object, giving it such a name need not raise.
- DrainsInEveryRun: the requests to the remote have no timeout, and whether they settle is up to the network.
- Read: template escapes with hexadecimal or decimal digits count as malformed; the escaper writes none.
- EscapeDecodes: character references are refused, as the escaper writes none.
- InjectConstant: the route that the script adds in its second half is not modelled.
- NeverDiesOnceBooted: assumes that the platform reruns a throwing pass as often as it throws; a platform that gives up after some reruns leaves the dispatcher to the next bootstrap.
- EachRequestIsAnsweredOnce: a null line, on which the error handler itself throws, takes the server down; the exit code is not modelled.
- RootTellsList: SHA-256 is any function with values of 64 digits, and the absence of collisions is assumed of the strings that were hashed; the chain of daily digests is not modelled.
- FailuresLeaveNoTrace: discoveries are told apart by numbers, no two by the same.
- EveryServiceIsAccountedFor: requests are atomic; the code reads and writes a counter in two steps.
- The statistics reading `throttle_rate`, the context manager and the logging of the limiter.
- Ed25519 and HMAC: signatures are a set of good triples, and webhook headers are left out.
- KV latency and eventual consistency: every read sees the last write.
- `webhook_count`, plan limits and the legacy unsubscribe route.
- The computation of schedules and the building of receipts, which are parameters of a pass.
- Registration of monitor handlers and the timer: a round of handler calls is one event.
- Authorisation in the webhook routes and in `checkApiKey`: its answer is a parameter.
- The `/v5/batch` gate, and the design-partner and telemetry counters.
- Tool invocation, the parsing of definition fields, metrics and tracing.
