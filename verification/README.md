# Verified models of G-Master-API

G-Master-API is an AI gateway written in Go. Most of it moves HTTP requests and database rows around;
a few places hold small protocols and algorithms whose correctness is not visible from one function.
This project models those places in Dafny, in the form the Go code has (state machines for what runs
concurrently, classes for what is updated in place, loops with invariants for the hand-written loops),
and proves what they are for. Each module is one file and needs only the modules it imports;
`dafny verify dfyconfig.toml` checks them all.

| module | what it models |
|---|---|
| `OrderLock` | the reference-counted per-order lock, as a step system over any number of threads |
| `PaymentHandlers` | the payment webhooks on top of that very lock, with database reads and writes as separate steps that may fail |
| `ImageJob`, `ImageAttempts` | the asynchronous image job: compare-and-swap status machine with workers, sweepers and refunds; its retry loop |
| `ModelNames`, `UpstreamSync`, `UpstreamRaces` | ordered duplicate-free name lists and their stored form; detecting, applying and auto-syncing upstream models; the same as concurrent loads and saves of one row |
| `OggScanner` | the Ogg page scanner with resynchronisation |
| `PricingDiff`, `ModelsDev` | the comparison of upstream prices with the local ones; the choice of the cheapest models.dev candidate |
| `TransactionList` | the billing list: three limited queries merged, stably sorted and truncated |
| `MultiKey` | the actions on the keys of a multi-key channel |
| `RateLimiter`, `VerificationCodes` | two bounded caches with expiry, against the unbounded history they stand for |
| `BodyStorage`, `RequestBody` | request bodies kept in memory or on disk, their usage counters, and re-reading across retries |
| `StepUp` | the step-up verification session |
| `ModelEnrich` | the batch enrichment of model records |

Several promises turn out to hold only under a condition. Each of them has a theorem that says exactly
which, for all inputs or all runs:

- The rate limiter follows its rule on all runs if and only if, for each key, every limit is at least one, no
  window is more than a second longer than the expiration, and all limits used with the key are equal (or no
  window is in force) (`RateLimiter.ImplementsRuleIff`). The model request limiter uses one user's key with
  the limits of several groups, and then does not (`RateLimiter.SmallerLimitFooled`).
- The transaction page is the page of the whole history if and only if, for every row cut off by a
  table's limit, a hundred kept rows precede it in the stable order (`TransactionList.PushdownIff`,
  `TransactionList.ListTransactions`). It fails in ordinary use, because completing a subscription order
  inserts a top-up with the order's older creation time (`TransactionList.LateInsertsHide`).
- A credited top-up stays in success if and only if no write without the order lock is still to come for
  it: the requests that create Waffo orders have such writes (`PaymentHandlers.CreditedStaysIff`,
  `PaymentHandlers.CreditedThenFailed`). That no order is credited twice holds without any condition.
- The session is a cookie, so a passkey ceremony is one-shot along one chain of cookies only: it backs a
  second verify if and only if neither request descends from the other (`StepUp.CeremonyTwiceIff`).
- Checks and applies of one channel load the row, and save all its settings later, without a lock. A model
  stays away on all interleavings if and only if the row keeps it away and no copy under way would bring it
  back (`UpstreamRaces.StaysAwayIff`); a late check undoes an apply for any name
  (`UpstreamRaces.LateCheckRevives`, `UpstreamRaces.LateCheckSplits`). When saves come in time, an ignored
  model stays away if and only if its name, read as an ignore rule, hides itself
  (`UpstreamSync.IgnoredForeverIff`); synchronisation converges under the condition in
  `UpstreamSync.ConvergesIff`, and `UpstreamSync.RuleAddedRuleLost` is an input on which it does not.
- Deleting all auto-disabled keys shows the same as deleting them one by one unless every key is
  auto-disabled (`MultiKey.BatchEqualsOneByOneIff`). In that case the channel update takes the empty key
  list for "not provided": all keys stay and are shown as enabled (`MultiKey.AllDisabledComeBack`), while
  the handler's message says they were deleted; the model follows the code. The stored rows agree if and
  only if no enabled key has a leftover time or reason (`MultiKey.SameRowIff`).
- The disk budget is kept if and only if at each commit what is left still holds the body
  (`BodyStorage.BudgetKeptIff`); two bodies that each fit can both pass the test (`BodyStorage.BothPass`).
- Memory and disk bodies answer alike if and only if nobody reads zero bytes at the end of the data
  (`BodyStorage.StoragesAgreeIff`); every fetch of a request body hands out the full body if and only if
  none reads on in a body read from before (`RequestBody.EveryFetchStartsOverIff`).
- The price comparison reports a real difference if and only if some channel shown anywhere reads other
  than "same" there (`PricingDiff.BuildDifferences`); only nulls and literal "same"s can hide one.

## Model

| member | source | states |
|---|---|---|
| `OrderLock.StepKeepsInv` | controller/topup.go:265-305 | every instruction of every thread keeps the inductive invariant: createLock has one holder, a thread's mutex is the one in the map, counts are exact, a mutex is locked exactly while one thread owns it |
| `OrderLock.RunKeepsInv` | controller/topup.go:265-305 | the invariant holds in every state of every run, and the threads stay the same |
| `OrderLock.MutualExclusion` | controller/topup.go:275-305 | in every interleaving at most one thread is between `LockOrder(n)` and the unlock in `UnlockOrder(n)` |
| `OrderLock.RefCountExact` | controller/topup.go:265-305 | the reference count is the number of threads waiting, holding or not yet decremented, and an entry exists only while somebody is in flight |
| `OrderLock.HolderFindsItsMutex` | controller/topup.go:290-305 | the unlock finds the very mutex its thread locked, still locked; unlocking never panics |
| `OrderLock.SomeoneCanStep` | controller/topup.go:275-305 | deadlock freedom: while any thread is inside, some thread can step |
| `OrderLock.GoRunBounded` | controller/topup.go:275-305 | no livelock: without new calls every schedule uses up the remaining work one step at a time |
| `OrderLock.StuckIsQuiescent` | controller/topup.go:275-305 | when nothing can step all threads are idle, the map is empty and createLock is free |
| `OrderLock.Drains` | controller/topup.go:275-305 | from every reachable state some schedule of pending steps reaches that quiet state |
| `PaymentHandlers.OneActive` | controller/topup_creem.go:306-307 | two handlers past the lock of one order are the same handler |
| `PaymentHandlers.StepKeepsInv` | controller/topup_stripe.go:236-256 | every step of every handler and of every unlocked writer keeps locks, pending copies and the ledger of credits and activations right |
| `PaymentHandlers.CreditedAtMostOnce` | controller/topup_creem.go:306-354 | however many deliveries and unlocked writes race, an order is credited at most once; a plain top-up in success was credited; a credited one is in success unless an unlocked write hit it, which happens to Waffo orders only |
| `PaymentHandlers.ActivatedAtMostOnce` | model/subscription.go:527-597 | a subscription order is activated at most once, and exactly when in success unless an unlocked write expired it |
| `PaymentHandlers.WriterOverwritesOnlyPending` | controller/topup_stripe.go:236-256 | when a handler writes its status the row is the pending row it read, or an unlocked write has hit it: an async failure never overwrites what another lock-taking handler settled |
| `PaymentHandlers.SettledForever` | model/topup.go:202-289 | from any reachable state, a settled top-up of no subscription never changes again when every write under way would leave it as it is |
| `PaymentHandlers.SettledForeverIff` | controller/topup_waffo.go:226-289 | it is settled for good exactly in that case |
| `PaymentHandlers.CreditedStaysIff` | controller/topup_waffo.go:226-289 | a credited top-up stays in success on all runs exactly if no unlocked write of it is still to come |
| `PaymentHandlers.CreditedThenFailed` | controller/topup_waffo.go:276-280 | a complete run, lock steps included, that ends with an order both credited and failed |
| `PaymentHandlers.TopUpDelivery` | controller/topup_stripe.go:236-256 | what each handler, undisturbed, does to an order that is no subscription: completing handlers credit a pending one of their own provider and leave it in success, a failed Stripe payment leaves it failed and an expired one expired, both without a credit; everything else leaves it alone |
| `PaymentHandlers.SubscriptionDelivery` | model/subscription.go:527-597 | the same for a subscription order: activated by its own provider, expired by Stripe's expiry, otherwise left alone; the handlers of top-ups settle only a top-up of that number |
| `PaymentHandlers.TouchesOwnRowsOnly` | model/topup.go:202-289 | on every run a handler changes no row but its order's, and only of its own provider; the administrator completes top-ups of any, and a top-up without provider is taken over by its subscription order |
| `ImageJob.StepKeepsInv` | controller/image_generation_job.go:248-296 | every step of workers and sweepers keeps the runner and refund invariants |
| `ImageJob.OneRunner` | controller/image_generation_job.go:248-296 | in every run at most one worker runs attempts, and only one ever started |
| `ImageJob.RefundAtMostOnce` | controller/image_generation_job.go:433-459 | the quota is refunded at most once, and a refund implies that the row is in failure and something had been charged |
| `ImageJob.SettledExactly` | controller/image_generation_job.go:422-459 | once everybody stopped, success carries the runner's response without refund, failure was refunded once if anything was charged unless a refund got lost, an unfinished task was not refunded |
| `ImageJob.NothingLost` | service/task_polling.go:38-84 | a refund is lost only through a crash, a failing call or the sweep of a legacy task |
| `ImageJob.StatusMonotone` | model/task.go:416-429 | status only moves forward and a terminal row never changes again |
| `ImageJob.FailurePathRefunds` | controller/image_generation_job.go:433-459 | a worker on the failure path that nobody overtakes ends in failure with exactly one refund, or none if nothing was charged |
| `ImageJob.StartTakes` | controller/image_generation_job.go:248-270 | a worker that starts on a queued task, and that nobody overtakes, takes it into progress and runs it |
| `ImageJob.AttemptsDecide` | controller/image_generation_job.go:422-431 | a running worker whose attempts yield a response, and that nobody overtakes, ends with the task in success carrying it and refunds nothing; one whose attempts fail goes on to failure |
| `ImageJob.SweepFails` | service/task_polling.go:38-84 | a sweeper that nobody overtakes fails an unfinished task and refunds it once, unless nothing was charged or it is a legacy task; a finished one it leaves alone |
| `ImageJob.LoserStops` | model/task.go:416-429 | whoever loses the swap, or sees it fail, stops without a refund, and a lost swap changes nothing |
| `ImageJob.FailedOnlyIf` | controller/image_generation_job.go:433-459 | on every run a task in failure carries the error its attempts yielded or was failed by a sweeper; without sweepers only failed attempts fail it |
| `ImageJob.SmoothRunSettles` | controller/image_generation_job.go:248-296 | however many workers race, without mishaps and sweepers the task ends in success with the response and no refund, or in failure with the error and what was charged refunded once |
| `ImageAttempts.RetryTimes` | controller/image_generation_job.go:349-354 | the larger of the setting and the minimum |
| `ImageAttempts.RetryIff` | controller/image_generation_job.go:371-412 | exactly which errors are retried: while attempts remain and nothing forbids it, channel errors, timeouts, codes outside 100 to 599, and configured codes that are no success |
| `ImageAttempts.LastAttempt` | controller/image_generation_job.go:298-347 | the loop ends at the first attempt that succeeds or must not be retried, within the retry bound |
| `ImageAttempts.RunAttempts` | controller/image_generation_job.go:298-347 | the caller gets that attempt's error and exactly that attempt's body, nothing left over from earlier ones; the status is its own exactly if no earlier attempt wrote one or it is 200, and is 200 after a success of the image relay |
| `ImageAttempts.RunJob` | controller/image_generation_job.go:272-296 | with the image relay the job finishes exactly if the last attempt succeeded with a body that is not blank, with that very body, and the status test never fires |
| `ImageAttempts.Recorder.Reset` | controller/image_generation_job.go:363-369 | body and code are reset; whether a header was written is not |
| `ModelNames.StripOnce` | controller/channel_upstream_update.go:97-102 | trimming leaves no cut character at either end, invents none and is idempotent |
| `ModelNames.StripExact` | controller/channel_upstream_update.go:97-102 | what trimming cuts is exactly the run of cut characters at either end |
| `ModelNames.NormalizeNormal` | controller/channel_upstream_update.go:97-102 | a normalised list is trimmed, without blanks and duplicates |
| `ModelNames.NormalizeMember` | controller/channel_upstream_update.go:97-102 | it holds exactly the non-blank trimmed names |
| `ModelNames.NormalizeNormalList` | controller/channel_upstream_update.go:97-102 | normalising a normal list changes nothing, not even the order |
| `ModelNames.FrontStays` | controller/channel_upstream_update.go:97-129 | normalising and subtracting keep the order of first occurrence: what comes later only appends |
| `ModelNames.MergeAlgebra` | controller/channel_upstream_update.go:104-118 | merging is set union on normalised lists, and normal again |
| `ModelNames.SubtractAlgebra` | controller/channel_upstream_update.go:120-129 | subtracting is set difference, and normal again |
| `ModelNames.IntersectAlgebra` | controller/channel_upstream_update.go:131-140 | intersecting is set intersection, and normal again |
| `ModelNames.MergeModelNames` | controller/channel_upstream_update.go:104-118 | the loop over `seen` keeps the base list first and appends the new names in order |
| `ModelNames.StoreAndLoad` | model/channel.go:292-297 | a normal list without commas survives being joined, stored and read back |
| `ModelNames.SplitExact` | model/channel.go:292-297 | splitting cuts exactly at the commas: the pieces hold none, and joined again they are the stored text |
| `ModelNames.LoadedCommaFree` | model/channel.go:292-297 | names read back never contain a comma, whatever was stored |
| `UpstreamSync.StoredChannel.CheckAndPersist` | controller/channel_upstream_update.go:360-407 | the row after a check on every path, whether its models changed, and that the number reported is the number of models added |
| `UpstreamSync.CheckLaw` | controller/channel_upstream_update.go:360-407 | as sets and in so many words: too early nothing changes, a failed fetch changes the time alone, otherwise removable and new models are those the lists give, new ones joining behind the channel's models if auto-sync is allowed and enabled and noted as detected if not |
| `UpstreamSync.StoredChannel.ApplyUpdates` | controller/channel_upstream_update.go:780-828 | the row after applying a selection, and that models are reported as changed exactly if they did |
| `UpstreamSync.PendingAddMember` | controller/channel_upstream_update.go:176-235 | pending additions are exactly the upstream models neither local, nor a redirect target, nor ignored by name or pattern |
| `UpstreamSync.PendingRemoveMember` | controller/channel_upstream_update.go:176-235 | pending removals are exactly the local models that upstream lacks and that no redirect explains |
| `UpstreamSync.RuleHides` | controller/channel_upstream_update.go:214-220 | a rule with the prefix hides what its trimmed pattern matches, any other the model of that very name |
| `UpstreamSync.ApplyElems` | controller/channel_upstream_update.go:780-828 | what applying a selection does to models, ignore list, detected and removable models, as sets |
| `UpstreamSync.RunKeepsInv` | controller/channel_upstream_update.go:360-407 | over every run of checks and applies one at a time, detected models stay disjoint from the channel's, removable ones stay in it, and all lists stay duplicate-free |
| `UpstreamSync.IgnoredForever` | controller/channel_upstream_update.go:793-816 | on every such run, a detected model that was ignored and not added is never again detected nor in the channel, if its name hides itself |
| `UpstreamSync.IgnoredForeverIff` | controller/channel_upstream_update.go:176-235 | that holds of a name for all channels, selections and such runs exactly if the name, read as a rule, hides itself |
| `UpstreamSync.IgnoredRuleNameReturns` | controller/channel_upstream_update.go:176-235 | a model named like a pattern rule comes back after being ignored |
| `UpstreamSync.ConvergesIff` | controller/channel_upstream_update.go:780-828 | detect, apply everything, detect again finds nothing if and only if the added names are storable and no rule that hides an upstream model is itself added |
| `UpstreamSync.RuleAddedRuleLost` | controller/channel_upstream_update.go:780-828 | an upstream list, ignore list and pattern on which it does not |
| `UpstreamSync.OrdinaryNamesConverge` | controller/channel_upstream_update.go:780-828 | with ordinary names convergence holds for every local list, ignore list and redirect map |
| `UpstreamSync.AutoSyncConverges` | controller/channel_upstream_update.go:360-407 | after one auto-sync the next check finds nothing to add |
| `UpstreamRaces.SaveLaw` | controller/channel_upstream_update.go:349-358 | a save writes all settings the copy led to, and the models only if the copy's own changed; a check that was not due writes nothing |
| `UpstreamRaces.InTimeIsAtomic` | controller/channel_upstream_update.go:349-358 | an interleaving whose saves are all of copies that still are the row does to it what its checks and applies do one at a time |
| `UpstreamRaces.InTimeKeepsInv` | controller/channel_upstream_update.go:349-358 | so the invariant holds over all of those |
| `UpstreamRaces.InTimeKeepsBan` | controller/channel_upstream_update.go:349-358 | and an ignored model that hides itself stays away over all of them |
| `UpstreamRaces.ReachedSound` | controller/channel_upstream_update.go:349-358 | on every interleaving all lists stay duplicate-free and storable |
| `UpstreamRaces.NextShut` | controller/channel_upstream_update.go:176-235 | settings whose rules guard a model and one another keep it unoffered through every check and apply |
| `UpstreamRaces.BringBack` | controller/channel_upstream_update.go:780-828 | settings without such guards let a model back: the rules that hide it can be offered and added away one after the other |
| `UpstreamRaces.StaysAwayIff` | controller/channel_upstream_update.go:537-577 | from any state, a model stays out of the channel and unoffered on all interleavings exactly if the row keeps it away and every copy under way is harmless |
| `UpstreamRaces.BannedStaysIff` | controller/channel_upstream_update.go:349-358 | in particular when it is ignored and hides itself: exactly if no copy under way would bring it back |
| `UpstreamRaces.LateCheckRevives` | controller/channel_upstream_update.go:349-358 | a check loaded before an apply and saved after it makes an ignored model pending again |
| `UpstreamRaces.LateCheckSplits` | controller/channel_upstream_update.go:349-358 | and leaves an added model both in the channel and pending |
| `OggScanner.Reader.Read` | common/audio.go:208-209 | a read returns what is left, up to the length asked for |
| `OggScanner.GetOpusDuration` | common/audio.go:196-253 | the loop terminates on all bytes and returns the largest granule position of the headers it stops at, or zero, at 48 kHz |
| `OggScanner.GranuleRoundTrip` | common/audio.go:227-231 | the signed 64-bit little-endian granule position is read as written |
| `OggScanner.EightBytes` | common/audio.go:227-228 | eight bytes are read least significant first, as a two's complement number |
| `OggScanner.PageAt` | common/audio.go:227-247 | at an encoded page the scanner sees its header, its granule and its exact end |
| `OggScanner.PageFrontAt` | common/audio.go:218-239 | where only the front of a page lies, capture pattern, granule and segment count are already read, and the end as soon as the segment table is complete |
| `OggScanner.NoFalseLock` | common/audio.go:219-225 | resynchronising cannot lock on inside garbage, even across the boundary to a page |
| `OggScanner.VisitsFrom` | common/audio.go:207-248 | from any point between pages the scanner visits exactly the remaining page starts, and then what it finds in the tail |
| `OggScanner.ScansExactlyThePages` | common/audio.go:196-253 | for every stream of well-formed pages separated by garbage, whatever the payloads contain, it visits exactly the pages and finds the largest granule |
| `OggScanner.CutShort` | common/audio.go:207-248 | in a recording that breaks off inside a page, that page counts exactly if its 27 header bytes are there, however much of its table and payload is missing |
| `OggScanner.GranulesIsMaximum` | common/audio.go:227-231 | that value is the maximum of zero and all granule positions |
| `PricingDiff.CellRightIff` | controller/ratio_sync.go:605-626 | a cell shows a value only for a real difference, and is right about its channel exactly unless the real difference is itself a null or a literal "same" |
| `PricingDiff.CellReads` | controller/ratio_sync.go:605-626 | a cell reads "same" exactly if the channel agrees, both are silent or the channel says so itself; it is empty exactly if only the channel is silent, and otherwise shows the channel's value |
| `PricingDiff.RealDifferenceIff` | controller/ratio_sync.go:48-62 | a real difference is a supplied value that is absent locally, or a number 1e-9 or more away from the local one, or otherwise unequal |
| `PricingDiff.ConfidentIff` | controller/ratio_sync.go:558-591 | a value is mistrusted exactly if its model ratio is 37.5 and its completion ratio 1, both to within 1e-9 |
| `PricingDiff.CellShowsDifference` | controller/ratio_sync.go:605-626 | without those, a cell shows a value and marks a difference exactly for a real difference |
| `PricingDiff.Compare` | controller/ratio_sync.go:594-652 | one model and field against all channels: the full item, and whether it is listed |
| `PricingDiff.CollectDifferences` | controller/ratio_sync.go:593-655 | an entry is collected exactly for each listed model and field |
| `PricingDiff.ChannelsShown` | controller/ratio_sync.go:656-665 | the channels for which some collected cell shows a value |
| `PricingDiff.FilterItems` | controller/ratio_sync.go:667-693 | entries keep only the shown channels, and vanish when empty or all the same |
| `PricingDiff.CollectedShowAll` | controller/ratio_sync.go:656-665 | the channels shown among the collected entries are the channels shown anywhere |
| `PricingDiff.KeptIff` | controller/ratio_sync.go:667-693 | an entry survives the filter exactly if some channel shown anywhere reads other than "same" there |
| `PricingDiff.ListedVisibleDiffers` | controller/ratio_sync.go:631-642 | a listed entry that survives has a real difference, and every real difference is listed |
| `PricingDiff.DifferenceSurvives` | controller/ratio_sync.go:656-693 | without nulls and literal "same"s the channels shown are those that really differ somewhere, and the filter never drops a real difference |
| `PricingDiff.BuildDifferences` | controller/ratio_sync.go:536-696 | on all data: an entry exactly where some channel really differs and some shown channel reads other than "same", its channels and confidences exactly those of the shown channels, its cells the right ones; without nulls and literal "same"s exactly the real differences and the differing channels |
| `PricingDiff.NotTransitive` | controller/ratio_sync.go:48-62 | near-equality is not transitive |
| `PricingDiff.LiteralSameHidden` | controller/ratio_sync.go:605-626 | the smallest input on which a real difference is not reported |
| `ModelsDev.Build` | controller/ratio_sync.go:845-879 | a candidate exists exactly if the input price is valid, the output price is valid if given, and is not charged on top of a free input; input and output are taken over, the cache price only if valid |
| `ModelsDev.LessTrichotomy` | controller/ratio_sync.go:881-893 | provider names are strictly and totally ordered |
| `ModelsDev.LessIff` | controller/ratio_sync.go:881-893 | one name precedes another if it is a proper beginning of it, or smaller where they first differ |
| `ModelsDev.SortedKeys` | controller/ratio_sync.go:915-919 | the names, each once, in ascending order |
| `ModelsDev.VisitProvider` | controller/ratio_sync.go:922-944 | one provider's round changes each model by at most that provider's own offer |
| `ModelsDev.SelectAll` | controller/ratio_sync.go:915-945 | the nested loops compute, for each model separately, the fold over the sorted providers |
| `ModelsDev.SelectInvariant` | controller/ratio_sync.go:921-944 | what the fold keeps after every prefix of the providers |
| `ModelsDev.SelectsCheapest` | controller/ratio_sync.go:845-944 | a candidate is selected exactly if a valid one exists, a non-zero one exactly if a non-zero one exists, and none is cheaper by 1e-9 or more |
| `ModelsDev.FirstOfFree` | controller/ratio_sync.go:881-893 | among offers that are all free the alphabetically first provider is selected |
| `ModelsDev.UnsortedDrifts` | controller/ratio_sync.go:881-893 | against alphabetical order the same rule drifts past the tolerance |
| `TransactionList.StableSortUnique` | controller/gaster_code_billing.go:429-506 | a stable sort by time is unique |
| `TransactionList.SortedIsStableSort` | controller/gaster_code_billing.go:429-506 | the reference merge sort orders by time descending and keeps the order of equal times |
| `TransactionList.StableSort` | controller/gaster_code_billing.go:429-506 | an insertion sort computes that very list |
| `TransactionList.PushdownExact` | controller/gaster_code_billing.go:429-506 | cutting one table to its first n before the sort is unobservable if and only if no cut row is newer than a kept one |
| `TransactionList.LimitPushdown` | controller/gaster_code_billing.go:429-506 | over three tables without stragglers, cutting each first gives the same page as sorting everything |
| `TransactionList.PushdownIff` | controller/gaster_code_billing.go:429-506 | over three tables of distinct rows, cutting each first gives the page of the whole history if and only if every cut row is preceded by a full page of kept rows, counting ties by table |
| `TransactionList.KeepSorted` | controller/gaster_code_billing.go:499-501 | dropping rows commutes with the stable sort |
| `TransactionList.DropUnseenIff` | controller/gaster_code_billing.go:499-504 | dropping rows leaves the first n alone exactly if each dropped row has n kept ones before it |
| `TransactionList.MonotoneTimes` | controller/gaster_code_billing.go:429-506 | creation times that never decrease with the id are enough |
| `TransactionList.LateInsertsHide` | model/subscription.go:599-622 | a hundred late-inserted top-ups hide the newest transaction: it heads the history and is not listed |
| `TransactionList.ListTransactions` | controller/gaster_code_billing.go:429-506 | a hundred transactions at most, and they are the page of the whole history exactly if no row that a table's limit cut off would have been on it |
| `TransactionList.LogLaw` | controller/gaster_code_billing.go:470-497 | a refund is listed as such, with an amount never positive and of the logged size, an adjustment with amount zero, and anything else as usage with its quota |
| `TransactionList.RowsLaw` | controller/gaster_code_billing.go:435-497 | each order and each log becomes one transaction in its place |
| `TransactionList.ListedMember` | controller/gaster_code_billing.go:463-464 | the logs listed are exactly those of consumption, refunds and adjustments |
| `TransactionList.ListedInOrder` | controller/gaster_code_billing.go:463-464 | and they stay in their order |
| `MultiKey.Channel.Store` | model/channel.go:556-600 | what an update leaves in the row, including the empty key list |
| `MultiKey.Channel.DisableAllKeys` | controller/channel.go:1523-1568 | every enabled key is disabled, others stay; none disabled exactly if none was enabled |
| `MultiKey.Channel.DeleteOneKey` | controller/channel.go:1570-1648 | the in-place rebuild deletes one key and refuses a bad index or the last key |
| `MultiKey.Channel.DeleteAutoDisabledKeys` | controller/channel.go:1650-1715 | the in-place rebuild deletes the auto-disabled keys and counts them |
| `MultiKey.RebuildView` | controller/channel.go:1570-1715 | rebuilding keeps order, status, time and reason shown for every surviving key, and restores size and map domains |
| `MultiKey.ViewLaw` | controller/channel.go:1318-1361 | a key is shown as enabled unless a status is stored for its position, with time and reason only when it is not enabled |
| `MultiKey.TogglesShow` | controller/channel.go:1414-1568 | what is shown after disabling or enabling one key or all: only the keys meant change, enabling forgets time and reason, disabling all leaves the disabled ones as they were |
| `MultiKey.SurvivorsLaw` | controller/channel.go:1650-1715 | the keys that survive a batch deletion are exactly those not auto-disabled, in order |
| `MultiKey.DeleteKeyView` | controller/channel.go:1570-1648 | what is shown after `delete_key` is what was shown without that one key |
| `MultiKey.DeleteDisabledView` | controller/channel.go:1650-1715 | what is shown after `delete_disabled_keys` is what was shown of the other keys |
| `MultiKey.BatchEqualsOneByOne` | controller/channel.go:1570-1715 | the batch shows the same as deleting one by one from the highest index, when a key remains |
| `MultiKey.BatchEqualsOneByOneIff` | controller/channel.go:1570-1715 | it does so exactly unless every key is auto-disabled |
| `MultiKey.AllDisabledComeBack` | controller/channel.go:1650-1715 | if every key is auto-disabled all keys stay and are shown enabled |
| `MultiKey.SameRowIff` | controller/channel.go:1570-1715 | when something is deleted and something left, batch and one-by-one deletion leave the very same row if and only if no enabled key has a leftover time or reason |
| `MultiKey.LaterDisableTellsIff` | controller/channel.go:1414-1455 | disabling some key afterwards shows the difference if and only if such a leftover is a non-zero time or a non-empty reason |
| `MultiKey.StaleTimeResurfaces` | model/channel.go:698-699 | an instance: a time left by automatic re-enabling comes back |
| `MultiKey.ActionsKeepValid` | controller/channel.go:1414-1715 | every action keeps size and map domains in step with the keys |
| `MultiKey.PagesPartition` | controller/channel.go:1300-1412 | whatever page size is asked for, the pages of the key list, one after the other, are the whole list |
| `MultiKey.NoEmptyPage` | controller/channel.go:1300-1412 | no page begins beyond the last key, unless it is the only one |
| `MultiKey.AppendKeys` | controller/channel.go:905-981 | append mode adds exactly the new trimmed keys, once each, behind the existing ones |
| `MultiKey.AppendKeepsView` | controller/channel.go:905-981 | appending disturbs nothing shown about the existing keys |
| `RateLimiter.InMemoryRateLimiter.Request` | common/rate-limit.go:45-70 | the answer and the new queues |
| `RateLimiter.InMemoryRateLimiter.ClearExpiredItems` | common/rate-limit.go:28-42 | one sweep drops exactly the keys idle for longer than the expiration |
| `RateLimiter.AskRefines` | common/rate-limit.go:45-70 | one request is answered by the rule over the full log and keeps queue and log in step |
| `RateLimiter.SweepRefines` | common/rate-limit.go:28-42 | a sweep keeps queue and log in step |
| `RateLimiter.RuleMeans` | common/rate-limit.go:45-70 | the rule the limiter is measured against, counted out: fewer than the limit of the accepted requests lie less than the duration back |
| `RateLimiter.AnswersFollowRule` | common/rate-limit.go:28-70 | on every run, with several policies on a key, a request is accepted exactly if fewer than its limit were accepted less than its window ago, when the policies of each key fit |
| `RateLimiter.SweepsUnobservable` | common/rate-limit.go:28-42 | dropping all sweeps from a run changes no answer |
| `RateLimiter.NoWindowOverfull` | common/rate-limit.go:45-70 | the rule never lets a half-open window, no longer than any in use, hold more than the largest limit |
| `RateLimiter.LimiterNeverOverfull` | common/rate-limit.go:28-70 | so on every run, sweeps included, no such window holds more requests accepted by the limiter than the limit |
| `RateLimiter.ExpirationTooShort` | common/rate-limit.go:28-70 | a run that breaks the rule whenever there is a sweeper and the window exceeds the expiration by more than a second |
| `RateLimiter.LimitTooSmall` | common/rate-limit.go:45-70 | with a limit of zero the first request is accepted all the same |
| `RateLimiter.SmallerLimitFooled` | middleware/model-rate-limit.go:132-189 | two limits on one key: after the larger has filled the queue, the smaller lets a request through that its rule refuses |
| `RateLimiter.LargerLimitFooled` | common/rate-limit.go:45-70 | where the smaller limit has no window, it discards a time that the larger one needs |
| `RateLimiter.ImplementsRuleIff` | common/rate-limit.go:14-70 | exactly which policies, key by key, make the limiter implement its rule on every run |
| `VerificationCodes.ExpiredAfterTenMinutes` | common/verification.go:47-56 | truncating to whole seconds still makes a code live exactly ten minutes |
| `VerificationCodes.VerificationMap.Register` | common/verification.go:35-45 | the map after a registration and its sweep |
| `VerificationCodes.VerificationMap.Verify` | common/verification.go:47-56 | the answer for a code |
| `VerificationCodes.VerificationMap.RemoveExpiredPairs` | common/verification.go:65-72 | exactly the expired entries go |
| `VerificationCodes.SlotUnique` | common/verification.go:35-45 | purposes neither of which is a prefix of the other make the concatenated slot collision-free |
| `VerificationCodes.SlotsApartIff` | common/verification.go:35-45 | exactly those do |
| `VerificationCodes.SlotsCollide` | common/verification.go:47-56 | otherwise a code registered under the longer purpose verifies under the shorter |
| `VerificationCodes.SlotHoldsLatest` | common/verification.go:35-72 | after every history a slot holds the latest code, or that code has expired, or there is none |
| `VerificationCodes.VerifiedIffLatest` | common/verification.go:35-72 | a code verifies exactly if the latest event for its purpose and key registered it less than ten minutes ago |
| `BodyStorage.MemoryStorage.Read` | common/body_storage.go:47-54 | on an open storage the bytes from the position on, as many as asked for or left, and end of file exactly at the end; on a closed one the error |
| `BodyStorage.MemoryStorage.Close` | common/body_storage.go:65-72 | the first close releases the counters, later ones do nothing |
| `BodyStorage.DiskStorage.Read` | common/body_storage.go:169-176 | the same from the file, where an empty read never reports the end |
| `BodyStorage.DiskStorage.Bytes` | common/body_storage.go:198-230 | the whole content, with the position put back |
| `BodyStorage.DiskStorage.Close` | common/body_storage.go:187-196 | the first close releases the counters, later ones do nothing |
| `BodyStorage.ReadLaw` | common/body_storage.go:47-54 | in any storage a read hands out byte for byte what lies at the position and moves past it |
| `BodyStorage.SeekLaw` | common/body_storage.go:56-63 | a seek goes to its offset from the start, the position or the end, or is refused and goes nowhere |
| `BodyStorage.ReadsJoin` | common/body_storage.go:169-176 | however a body is read in pieces, the pieces joined are the data between the two positions, and all the rest of it once a read reported the end |
| `BodyStorage.StoragesAgreeIff` | common/body_storage.go:37-238 | memory and disk give the same answers to a call sequence if and only if it has no empty read at the end of the data |
| `BodyStorage.DataNeverChanges` | common/body_storage.go:37-238 | no call changes the stored bytes |
| `BodyStorage.ReceivesUpToLimit` | common/body_storage.go:132-167 | exactly the bodies up to the limit are received, in full |
| `BodyStorage.CreateBodyStorage` | common/body_storage.go:241-259 | where a body goes, with the fallback to memory, and what is counted |
| `BodyStorage.CreateBodyStorageFromReader` | common/body_storage.go:262-303 | both paths accept the same bodies; a refused body counts nothing |
| `BodyStorage.CreatedAtOnce` | common/body_storage.go:241-303 | a creation that nothing comes between places and counts a body as the routine itself does |
| `BodyStorage.HappensConserves` | common/disk_cache_config.go:108-134 | every test, commit, failure and close of concurrent creations keeps the counters equal to the open storages |
| `BodyStorage.CountersExact` | common/disk_cache_config.go:108-134 | over every run the counters are the number and total size of the open storages |
| `BodyStorage.BudgetKeptIff` | common/disk_cache_config.go:170-177 | over every run of concurrent creations the disk usage stays within the budget if and only if at each commit what is left holds the body |
| `BodyStorage.WhyOverruns` | common/body_storage.go:241-284 | a commit overruns only if others were counted since its test, or a streamed body is longer than declared |
| `BodyStorage.BothPass` | common/body_storage.go:241-259 | two bodies that each fit both pass the test and together use twice the budget |
| `RequestBody.Context.GetRequestBody` | common/gin.go:36-83 | the context and the storage after a fetch, on every path, and what a failed fetch leaves of the raw body |
| `RequestBody.Context.CleanupBodyStorage` | common/gin.go:99-106 | the storage is closed, recorded as let go, and forgotten |
| `RequestBody.Context.ResetRequestBody` | controller/image_generation_job.go:356-361 | the job's own body replaces whatever the context held |
| `RequestBody.Context.UnmarshalBodyReusable` | common/gin.go:108-151 | the storage after a decode, rewound when it succeeds |
| `RequestBody.FetchGrantsIff` | common/gin.go:36-83 | exactly when a fetch yields a body, and exactly when it refuses one as too large |
| `RequestBody.DecodeRewinds` | common/gin.go:108-151 | a decode succeeds exactly if the body was had and is well-formed, keeps its bytes and leaves it at byte 0 |
| `RequestBody.FinalFaithful` | common/gin.go:36-151 | after every such history the context holds the carried body in full, if anything |
| `RequestBody.EveryFetchStartsOverIff` | common/gin.go:36-83 | over every history, resets included, all bodies handed out are the identical full body at byte 0 if and only if none is read on from a raw body read from before |
| `RequestBody.EveryFetchStartsOver` | common/gin.go:36-83 | without resets that is always so, however far earlier consumers read, on disk or in memory |
| `RequestBody.UntroubledNeverTaps` | controller/image_generation_job.go:316-324 | with resets it is so while no fetch fails and nothing but a reset cleans up, as in the job's retries |
| `RequestBody.LeftoverServed` | controller/image_generation_job.go:356-361 | otherwise a second fetch is given the unread rest of a body that was too large |
| `RequestBody.NothingLeftOpen` | common/gin.go:99-106 | over every history each storage created is kept or closed, and after a final clean-up all are closed |
| `RequestBody.EveryAttemptGetsTheBody` | common/gin.go:36-83 | once stored, every later attempt gets the body, on disk or in memory |
| `RequestBody.ResetServesJobBody` | controller/image_generation_job.go:356-361 | after a reset the next fetch yields the job's body |
| `StepUp.Session.PasskeyVerifyFinish` | controller/passkey.go:485-493 | the marker is set and any standing verification dropped, if the session saves |
| `StepUp.Session.SetupLogin` | controller/user.go:93-107 | logging in sets the user and keeps marker and stamp |
| `StepUp.Session.Logout` | controller/user.go:120-135 | logging out empties the session, if it saves |
| `StepUp.Session.ConsumePasskeyReady` | controller/secure_verification.go:156-179 | the marker goes with the first use, valid or expired; a failing save or a bad value is an error |
| `StepUp.Session.SetSecureVerification` | controller/secure_verification.go:143-154 | time and method are written together and the marker goes |
| `StepUp.Session.UniversalVerify` | controller/secure_verification.go:42-141 | the session after a verify request on every path; a 2FA request passes exactly with a known and enabled user, 2FA set up and the right code, a passkey request exactly with a passkey and a ceremony under a minute old; and the error of each refusal |
| `StepUp.Session.RequireSecureVerificationMethod` | controller/passkey.go:559-576 | when the gate opens and what it deletes |
| `StepUp.Session.SecureVerificationRequired` | middleware/secure_verification.go:22-76 | when the middleware lets a request pass and what it deletes |
| `StepUp.Session.ClearSecureVerification` | middleware/secure_verification.go:78-82 | time and method go together |
| `StepUp.SessionExplained` | controller/secure_verification.go:143-179 | along every history of a cookie, marker, time and method are those of the events that left them; no value of a wrong type ever appears |
| `StepUp.SameVerify` | controller/secure_verification.go:143-154 | time and method always come from one and the same verify |
| `StepUp.GateOpensIff` | controller/passkey.go:559-576 | along the history of a cookie, a gate opens exactly if a verify by its method succeeded less than five minutes ago and nothing revoked it since |
| `StepUp.GateOpensForCookieIff` | controller/passkey.go:559-576 | in every tree of cookies, a gate opens for the cookie presented exactly if that holds on the cookie's own branch |
| `StepUp.CookieStays` | main.go:173-181 | nothing later changes a cookie handed out: a withdrawal closes no gate for cookies from before it |
| `StepUp.MiddlewareOpensIff` | middleware/secure_verification.go:36-74 | the middleware opens exactly when one of the two method gates would |
| `StepUp.PasskeyVerifyIff` | controller/secure_verification.go:156-179 | along the history of a cookie, a passkey verify succeeds exactly if the user is known, enabled and has a passkey, an unused ceremony less than a minute old backs it and both saves succeed |
| `StepUp.PasskeyGrantedIff` | controller/secure_verification.go:156-179 | the same in every tree of cookies, on the branch of the cookie presented |
| `StepUp.NoCeremonyTwice` | controller/secure_verification.go:156-179 | along one history no ceremony backs two successful verifies |
| `StepUp.BackedApart` | controller/secure_verification.go:156-179 | in a tree, verifies backed by one ceremony never lie on one another's branches |
| `StepUp.CeremonyTwiceIff` | controller/secure_verification.go:156-179 | a ceremony that backed one verify backs a second one exactly if neither lies on the other's branch |
| `StepUp.ResentSucceeds` | main.go:173-181 | sending a successful verify again with its cookie succeeds again, on the same ceremony |
| `StepUp.OneShotInSequence` | controller/secure_verification.go:156-179 | if every request presents the newest cookie, a ceremony backs one verify at most |
| `StepUp.PasskeyGateChain` | controller/passkey.go:485-576 | along the history of a cookie, an open passkey gate rests on a standing verify under five minutes old, backed by its own ceremony under a minute old when consumed, which backs no other there |
| `StepUp.PasskeyGateChainForCookie` | controller/passkey.go:485-576 | in every tree of cookies, an open passkey gate rests on such a verify and ceremony on the branch of the cookie presented |
| `StepUp.TwoFactorVerifyIff` | controller/secure_verification.go:95-121 | a 2FA request succeeds exactly if its user is known and enabled, has 2FA and sent the right code, and the session saves |
| `StepUp.TwoFactorGateRests` | controller/secure_verification.go:95-154 | an open 2FA gate rests on a standing verify under five minutes old whose code was right |
| `StepUp.TwoFactorGateRestsForCookie` | controller/secure_verification.go:95-154 | in every tree of cookies, on one on the branch of the cookie presented |
| `StepUp.StampMayLag` | controller/secure_verification.go:143-179 | the minute ends where the marker is consumed: the stamp itself may be written later |
| `StepUp.BackedBySameUserIff` | controller/user.go:93-107 | a ceremony and the verify it backs belong to one user exactly if nobody else was the last to log in between them |
| `StepUp.StandsForSameUserIff` | controller/user.go:93-107 | the same of a standing verify and the user a gate opens for |
| `StepUp.OtherUserVerified` | controller/user.go:93-107 | a history in which one user's ceremony verifies another |
| `ModelEnrich.KeyInjective` | controller/model_meta.go:308-315 | the key of name and type merges no two different channels |
| `ModelEnrich.ItoaInjective` | controller/model_meta.go:311-312 | different types have different decimal texts |
| `ModelEnrich.MatchedNamesMember` | controller/model_meta.go:218-234 | a name is matched exactly if the price list has it and the rule accepts it |
| `ModelEnrich.MatchesLaw` | controller/model_meta.go:222-229 | a rule accepts the names that begin with the record's, end with it or contain it, each for its own rule, and no other rule accepts any |
| `ModelEnrich.SplitModels` | controller/model_meta.go:169-183 | exact names with all their positions, rule models by position, nil entries skipped |
| `ModelEnrich.GetBoundChannelsByModelsMap` | model/model_meta.go:113-137 | asking for many names at once gives each what asking for it alone would |
| `ModelEnrich.CollectMatches` | controller/model_meta.go:212-259 | the position-keyed maps hold, for each rule model, what its own scan of the price list would |
| `ModelEnrich.AllMatched` | controller/model_meta.go:261-273 | every matched name once, and no other |
| `ModelEnrich.EnrichRule` | controller/model_meta.go:276-329 | a rule record gets its matched names, group union, ascending quota types, endpoint union and channel union; what found nothing is left alone |
| `ModelEnrich.EnrichModels` | controller/model_meta.go:164-330 | every record of the batch comes out as its own separate lookup would leave it |
| `ModelEnrich.RuleRecordHolds` | controller/model_meta.go:276-329 | field by field what a rule record holds afterwards: groups, quota types and endpoints of exactly the price entries it matches, channels of exactly the database rows of its matched names, kept as they were where nothing is found |
| `ModelEnrich.ExactRecordHolds` | controller/model_meta.go:185-203 | the same of a record with an exact name, which is looked up by that name alone |
| `ModelEnrich.AscendingUnique` | controller/model_meta.go:297-304 | an ascending list is determined by its elements |
| `ModelEnrich.EnrichedDetermines` | controller/model_meta.go:164-330 | the outcome does not depend on the rest of the batch, up to the order Go's map iteration leaves open |

## Left out

- HTTP, JSON binding, translation, logging and response shapes of all controllers, and the foreign code behind them: payment SDKs, signature checks, OAuth, WebAuthn cryptography.
- The order lock and the handlers are those of one process: all deliveries of an order reach the same one.
- The amounts credited, and the database's own row locks, which the handler model does not rely on. Balance purchases of subscriptions, which touch no order lock.
- `upsertSubscriptionTopUpTx` happens in one step with the write of its subscription order.
- `RetryParam` is a plain counter; its reset rule in service/channel_select.go is not part of this model.
- The image relay itself: `ImageAttempts` takes from it only that an attempt without an error has written status 200 or nothing.
- Polling of other asynchronous tasks and the unconditional bulk update in model/task.go.
- Upstream synchronisation: fetching the upstream list, notifications, the JSON form of the settings, and hand edits of a channel's models. Regular expressions are an arbitrary predicate.
- UpstreamSync.RunKeepsInv: assumes upstream names without commas, since a name with one is read back as two.
- Audio formats other than Ogg Opus; read errors other than end of file; 64-bit overflow of file positions.
- PricingDiff.BuildDifferences: assumes distinct channel names, and keys the result by model and field in one map instead of two nested ones. Floating-point numbers are reals.
- The conversion of the selected models.dev candidates and of OpenRouter prices into ratios.
- The checkout status inference that follows the transaction list; the database queries themselves.
- The text form of multi-key lists (newline or JSON array) and its parsing: keys are a sequence. Channel status changes that accompany disabling all keys.
- Each call of the rate limiter and of the verification map is one step, as their mutexes make it; each update of the usage counters is one step. A negative limit makes the first request for a key panic and is no policy; an expiration between zero and one second, which is never configured, is not modelled.
- External cleanup of cache files and the resynchronisation of the disk counters; 64-bit overflow of the counters; the differences between decoding JSON from disk and from memory.
- Whether a 2FA code is right is an input of the step-up model; forged or expired cookies are not modelled.
- ModelEnrich.EnrichModels: two list entries are never the same record; SQL's DISTINCT and Go's map iteration leave orders open, so unions are stated up to order; the marshalled text of endpoints stays symbolic.
