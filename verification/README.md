# AccessSync: a verified model of its access logic

AccessSync keeps a door system (Kisi) in step with what the members of a gym pay for in Wix. This Dafny
project models the parts of it where that is hard: a safety policy over mass removals, a crash-prone
protocol over database rows and door-system roles, the life of a member's access row, and the locks,
claims and retries that many jobs share. `dafny verify dfyconfig.toml` checks all of it.

## How it is laid out

| file | what it models |
|---|---|
| `Prelude.dfy` | vocabulary shared by all modules |
| `JsValues.dfy`, `RevokePolicy.dfy`, `PolicyProofs.dfy`, `PolicyMeaning.dfy`, `SweepRuns.dfy` | the removal policy over unchecked JavaScript values, its guarantees per batch, the same said in the words of the input alone, and what they add up to over many sweeps |
| `IsoInstant.dfy`, `IsoMeaning.dfy` | the strict timestamp parser of the strike clock, and what it means over the text itself |
| `DoorWorld.dfy`, `GrantCancel.dfy`, `GrantReuse.dfy` | source rows, roles and links of one member as values; grants, teardowns, whole job histories, and grants that copy recorded role ids |
| `GrantJob.dfy`, `RevokeJobs.dfy` | the grant and revoke jobs as loops of calls that may fail or never be reached |
| `DayPassKeys.dfy`, `DayPassSweep.dfy`, `DayPassMutex.dfy` | claim keys, the expiry sweep, and the claim that lets one of many echo jobs create a link |
| `RateLimiter.dfy`, `MemberLock.dfy`, `WebhookPipeline.dfy` | the sliding-window limiter, the per-member lock, and webhook ingress |
| `Billing.dfy`, `LocationLapse.dfy`, `LapseJobs.dfy` | billing cycles and the durable leave; lapsed locations, on rows and as loops over members |
| `Lifecycle.dfy`, `Finalize.dfy` | the status of an access row over its whole life, and the guarded deletion at its end |
| `GroupsToMove.dfy`, `LoginEmailSwap.dfy` | moving a member to a new door login |

Conventions. A table is a map; an SQL statement or a `BEGIN`..`COMMIT` block is one atomic step. Calls
that can fail take their answers from a script (`Prelude.Answer`): a call may be refused, may take effect
and still look failed, and once the script is used up the process is dead. Where jobs run side by side the module is a
state machine and its theorems are about every run. The door system holds at most one role per user and
group; assigning an existing pair returns its id, and deletes of missing ids do nothing. Time is a number
that does not run backwards.

## What the proofs turned up

Each of these is a lemma in the table below; the code is modelled as it is.

- A finished cancel can leave a live role without a row when another row on the door is still pending and
  has no role id: `DoorWorld.TeardownBackedIff` gives the exact condition.
- A cancel whose last row on a door has no role id never completes: `RevokeJobs.Stores.ProcessCancel`.
- A cancel that dies between closing a door and deleting its row leads the next grant on that door to
  report success without opening it: `GrantJob.HalfCancelledDoorIsReused`, with the exact condition in
  `GrantJob.GrantedDoorIsOpenIff`.
- A plan that waits for its start or its hardware makes the cancel of another plan keep their common door,
  and deletes the only row that names its role. If nothing else of the member has been granted, no
  cancel finds them until that plan is granted, its own cancel included: `Lifecycle.WaitingPlanHidesLiveDoor`, with the exact
  condition in `Lifecycle.CancelHidesMemberIff`. A plan parked over a row that already holds a role hides
  that role in the same way: `Lifecycle.ParkedOverIsReachable`.
- A grant that throws after opening a door leaves a live role without a row. Until a grant on that door
  completes, a revoke does not see it: `Lifecycle.ThrownGrantHidesDoor`, `Lifecycle.CompletedGrantHeals`.
- A paused day pass keeps its link when its member is finalized as deleted, and deleted members are never
  looked up again: `Lifecycle.PausedPassOutlivesFinalize`.
- An expired pass stored without an order takes every pass of its product, and one stored without a key
  every pass of its member; a keyless pass in turn is taken by the expiry of any other:
  `DayPassSweep.BareExpiryTakesTheProduct`, `DayPassSweep.KeylessExpiryTakesEveryPass`,
  `DayPassSweep.ExpiryTakesOnePass`, with the exact condition in `DayPassSweep.ExpiryIsolatedIff`.
- Two passes of one member swept in one millisecond lose an event until the next sweep:
  `DayPassSweep.SameMillisecondLosesOne`, an instance of `DayPassSweep.QueuedIffItWins`.
- One order can come to two live links on a door: `DayPassMutex.TwoLinksForOneOrder`.
- A day-pass claim of a job that died, or of a door that failed beside a successful door of the same
  mapping, is taken over by no later job of its order: `DayPassMutex.CrashLeavesClaims`, `DayPassMutex.FailedDoorIsLeft`,
  `DayPassMutex.LeftClaimStays`. The comment at adapters/standard-adapter.js:461-464 promises that the next
  attempt can claim again.
- The comment at core/webhook-processor.js:117 says the early mark prevents re-entry on a crash; it also
  loses the event: `WebhookPipeline.CrashAfterMarkLosesTheEvent`, `WebhookPipeline.UnknownClientStaysMarked`.
- The lapse of one location shuts every door of its members, other locations included:
  `LapseJobs.LapseShutsOtherLocations`. A recovered payment opens lapsed rows:
  `LocationLapse.RecoveryOpensLapsedRows`. A restore can open a row whose payment failed:
  `LocationLapse.RestoreOpensDeclinedIff`.
- A lapse that has read its members writes their status later without looking at it again. If a cancel
  came in between, it puts 'inactive' over 'removing', and the retry does not find the member, or over
  'deleted', which is called terminal: `Lifecycle.LateLapseHidesMember`, `Lifecycle.LateLapseReopensDeleted`,
  with the exact conditions in `Lifecycle.CanBeHiddenIff` and `Lifecycle.DeletedStaysIff`. Restores and the
  operator's unlock do the same. A payment that fails after a reactivation has read its list does not hold
  the member: `LapseJobs.LateDeclineIsLetIn`.
- A job that dies, rather than throws, between a full revoke and its finalize is not found by its retry:
  `Lifecycle.CrashBeforeFinalizeIsFoundIff`.
- core/login-email-swap.js:12-15 promises that the member is never without access. That holds except when
  the transaction commits, the job is told it failed, and the compensation deletes the user the records
  have just moved to: `LoginEmailSwap.Swap.Run`.

## Model

| member | source | states |
|---|---|---|
| `PolicyProofs.ValidateIffTrusted` | core/revoke-policy.js:497-555 | Validation finds nothing exactly for batches that satisfy an order-free definition of trust: every proposal sound, populations that cover it in aggregate and per data source, sound reads, sound clock |
| `PolicyProofs.UnstableIff` | core/revoke-policy.js:558-565 | The instability check reports a data source exactly if some data source disagreed by its threshold or more |
| `PolicyProofs.MassIff` | core/revoke-policy.js:572-586 | The mass check reports a cap exactly if the aggregate cap or the cap of some data source is reached |
| `PolicyProofs.DecisionPartitionsTheBatch` | core/revoke-policy.js:694-761 | flush, held and strikePending together hold every proposal exactly once, each list in input order |
| `PolicyProofs.FlushedIff` | core/revoke-policy.js:694-761 | A proposal is flushed if and only if the batch is trusted, armed, in mode on, free of anomalies, and the strike of this proposal is met |
| `PolicyProofs.FlushedIsSound` | core/revoke-policy.js:497-565 | Every flushed proposal has a data source its source may use, a valid unit shape, a removable classification where one is required and an aged strike; every data source disagrees by less than max(2, ceil(population/4)) |
| `PolicyProofs.FlushCap` | core/revoke-policy.js:572-586 | A sweep flushes at most floor(N/2) distinct units of a population N >= 2, in aggregate and for each data source |
| `PolicyProofs.OrderFreeFacts` | core/revoke-policy.js:364-374 | Units, trust and the mass check depend on which proposals there are, not on their order |
| `PolicyProofs.PermutationInvariant` | core/revoke-policy.js:694-761 | Permuting the proposals leaves action, reason and blamed data source as they are and permutes each output list |
| `PolicyProofs.AnomalousIff` | core/revoke-policy.js:642-740 | Exactly which inputs are held as invalid, unstable or mass, the empty batch and a batch that is no array included, and that these flush nothing |
| `PolicyProofs.AnomalyIsMonotone` | core/revoke-policy.js:707-740 | A batch held as an anomaly stays one, and flushes nothing, whatever proposals are added wherever |
| `PolicyProofs.SwitchesNeverMaskAnomalies` | core/revoke-policy.js:728-748 | Mode and observation never mask, cause or change an anomaly decision |
| `PolicyMeaning.ProposalMeans` | core/revoke-policy.js:497-530 | A proposal passes validation if and only if it is good in the words of its fields: which evidence may come from which read, about which unit, on which classification, with which keys and strike, all as literal strings |
| `PolicyMeaning.FlushMeans` | core/revoke-policy.js:694-761 | Which proposals go, from the input alone and without the vocabulary of the policy: literal names, distinct keys, more than half as 2 * units > population, a quarter as 4 * disagreed >= population |
| `PolicyMeaning.ReasonMeans` | core/revoke-policy.js:694-761 | Action and reason of every decision, first match first, in the same words |
| `PolicyMeaning.BlameMeans` | core/revoke-policy.js:558-586 | Which data source a decision blames: the first in the fixed order that wobbles or is hit by more than half, none for the aggregate cap |
| `PolicyMeaning.MassMeans` | core/revoke-policy.js:348-374 | The mass check trips exactly by the number of distinct units named, by unit key where there is one and member key otherwise: many proposals about one unit count once |
| `PolicyMeaning.CapByKeys` | core/revoke-policy.js:572-586 | A sweep removes at most half of a population of two or more, counted by distinct unit keys if all carry one and by distinct member keys if none does |
| `PolicyMeaning.CapByRead` | core/revoke-policy.js:572-586 | The same for the units of each data source |
| `PolicyMeaning.RipeMeans` | core/revoke-policy.js:448-459 | A strike is met exactly if its clock started minAgeMs ago or longer and it was seen minObservations times or more |
| `PolicyMeaning.TrimMeans` | core/revoke-policy.js:339-346 | Blank and padded keys are those that trimming makes empty or changes |
| `JsValues.GetReads` | core/revoke-policy.js:497-530 | Reading an object by name gives the value of its own entry |
| `SweepRuns.SweepLeavesHalf` | core/revoke-policy.js:315-317 | One sweep leaves at least half, rounded up, of two or more units, of all or of one data source, counted by the keys its input names them by |
| `SweepRuns.SweepsLeave` | core/revoke-policy.js:572-586 | From N units, k sweeps leave at least ceil(N / 2^k) for every k with 2^(k-1) < N |
| `SweepRuns.EmptyingTakesManySweeps` | core/revoke-policy.js:572-586 | Emptying N >= 2 units takes at least ceil(log2 N) + 1 sweeps |
| `IsoInstant.MatchReadsRender` | core/revoke-policy.js:378 | The pattern reads back the fields of any text written in its grammar |
| `IsoInstant.MatchedTextIsRendered` | core/revoke-policy.js:378 | Any text the pattern matches is the text its captured fields are written as |
| `IsoInstant.ParseAcceptsExactly` | core/revoke-policy.js:390-409 | A string parses to t exactly if it is the writing of calendar-valid fields from 1970 on whose instant is t >= 0: a restriction of section 5.6 of RFC 3339 with the day limits of section 5.7 |
| `IsoInstant.YearLength` | core/revoke-policy.js:407 | Day counting of section 21.4.1 of ECMA-262: a year has 366 days exactly in leap years |
| `IsoInstant.MonthsFillYear` | core/revoke-policy.js:381-387 | The months of a year add up to its length |
| `IsoInstant.DatesAreDays` | core/revoke-policy.js:407 | Every valid date is the date of its day number: dates and days from 1970 on correspond one to one |
| `IsoInstant.PrintThenParse` | core/revoke-policy.js:390-409 | For every millisecond instant and every offset whose local year stays in 1970 to 9999, parsing the printed form gives the instant back |
| `IsoMeaning.ParseMeans` | core/revoke-policy.js:378-409 | What the parser accepts and returns for every string, over the text itself: the literal grammar, decimal numbers, a table of month lengths, a day count that knows no months, and the offset subtracted |
| `IsoMeaning.DatesMean` | core/revoke-policy.js:381-407 | The valid dates are those of the table with 29 February in leap years, and their day numbers follow one closed formula that counts years from March |
| `IsoMeaning.MonthStarts` | core/revoke-policy.js:381-387 | The days before each month: 0, 31, and from March on 59, the leap day and (153 * (month - 3) + 2) / 5 |
| `IsoMeaning.OffsetsShift` | core/revoke-policy.js:402-407 | The same local time with a zone ahead of UTC is an instant earlier by that much, behind it one later |
| `DayPassKeys.PassKeyInjective` | core/queue-worker.js:265-273 | The claim key product#order#unit of parts without the separator determines all three |
| `DayPassKeys.ExpiryNamesOnePass` | core/grant-revoke.js:63-68 | An event naming one stored key and no order matches the row under that key and no other |
| `DayPassKeys.CancelNamesOneOrder` | core/grant-revoke.js:63-68 | An event naming product and order matches exactly the rows of that order, without an order every row of the product |
| `DayPassKeys.BareKeyMatches` | core/grant-revoke.js:63-68 | A row under a bare product id is matched by the events of that product and by no expiry of an order-bearing pass |
| `DayPassSweep.ExpiryIsolatedIff` | core/grant-revoke.js:63-68 | For every stored key: the expiry event takes exactly the rows under that key if and only if the key is not missing, no other pass is keyless or stored under an extension of it and no plan has it for an id; then its links go, too, and nothing else |
| `DayPassSweep.ExpiryTakesOnePass` | core/day-pass-sweep.js:62-114 | The event of one expired pass with an order takes that pass and the keyless passes, with their links, and leaves every other row, link and role |
| `DayPassSweep.BareExpiryTakesTheProduct` | core/grant-revoke.js:63-68 | The expiry of a pass stored without an order takes every pass of the product, still valid ones included, the keyless ones, and a plan of that id |
| `DayPassSweep.CancelTakesOneOrder` | core/grant-revoke.js:784-826 | A cancel naming product and order takes the passes of that order, those under the bare product or no key, and the plan rows of the product; of the links exactly those of the passes, of the roles exactly those of the plan rows whose door nothing else needs |
| `DayPassSweep.KeylessExpiryTakesEveryPass` | core/grant-revoke.js:64 | An expired row without a key produces an event that takes every day pass of the member and its link, and no permanent row or role |
| `DayPassSweep.Queue.EnqueueExpired` | core/day-pass-sweep.js:62-114 | The queue after the sweep, for every pattern of calls refused or effective but throwing: what was queued before, and the events that won their job id and no others; counted are the calls that returned |
| `DayPassSweep.QueuedIffItWins` | core/day-pass-sweep.js:62-114 | A pass not queued before is queued by the sweep if and only if its call was not refused and no queued job and no earlier call has the same member and millisecond |
| `DayPassSweep.OneEventPerPass` | core/day-pass-sweep.js:76-81 | Two jobs the sweep adds are never for the same member and key |
| `DayPassSweep.SameMillisecondLosesOne` | core/day-pass-sweep.js:91-95 | After any sweep in which two passes of one member are sent in one millisecond the later one is not queued, whatever else was swept |
| `DayPassSweep.DeleteOrphanLinks` | core/day-pass-sweep.js:117-182 | Exactly the expired links of this client that no source row references go, apart from failed deletes |
| `DoorWorld.StepKeepsEnd` | core/grant-revoke.js:784-826 | No single door-system or row call of a teardown moves its end state, a set comprehension over the doomed rows |
| `DoorWorld.StepKeepsBacked` | core/grant-revoke.js:801-826 | Between any two calls of a teardown every live role and link is named by a row |
| `DoorWorld.InterruptedTeardown` | core/grant-revoke.js:784-826 | Stopped after any prefix of its calls, in any row order, a teardown is still on the way to the same end and nothing live is unnamed |
| `DoorWorld.TeardownBackedIff` | core/grant-revoke.js:807-824 | A finished teardown leaves every live role named exactly if the rows that keep a door open name its role; between completed jobs they do |
| `GrantCancel.AssignAllRoles` | core/grant-revoke.js:266-270 | Calling the door system for a list of doors creates a role for exactly those that have none, under fresh ids, and leaves every other id alone; which doors are called for is GrantReuse |
| `GrantCancel.RecordAllRows` | adapters/standard-adapter.js:816-845 | Recording a grant writes exactly its rows, each active with the live role of its door, and keeps all others |
| `GrantCancel.GrantMeans` | core/grant-revoke.js:131-287 | A completed grant, for a plan or a booking: its row on each of its doors is there, active, with the one role of the door and the mapping it was first written for; open doors keep their roles; nothing else changes |
| `GrantCancel.CancelMeans` | core/grant-revoke.js:704-826 | A completed cancellation, of a plan or a booking: of the permanent rows exactly those of that kind and id go, and a role of theirs goes exactly where no other permanent row is on the door |
| `GrantCancel.GrantRetryConverges` | adapters/standard-adapter.js:503-567 | A grant cut off after any prefix of its door calls and row writes and run again ends where the uninterrupted grant ends |
| `GrantCancel.JobSettles` | core/grant-revoke.js:131-287 | After every completed grant, cancel or pass job all permanent rows on a door carry the id of its one live role, and every live role and link has its row |
| `GrantCancel.RoleIdIsStable` | core/grant-revoke.js:131-287 | While a door stays open across a job its role keeps its id |
| `GrantCancel.DoorsAreTheUnionOfHeldPlans` | core/grant-revoke.js:801-826 | After any sequence of grant and cancel jobs the live roles are exactly the doors of the plans still held, and every row on a door carries its one role id |
| `RevokeJobs.Stores.ProcessCancel` | core/grant-revoke.js:702-827 | A cancel with any pattern of failed, ambiguous or missing calls touches no permanent row of another kind or plan, keeps its end state, keeps everything live named and can still complete if it could before; if it completes it is there; on a healthy run it completes exactly if every last row on a door has its role id |
| `RevokeJobs.Stores.CancelAndRetry` | core/grant-revoke.js:702-827 | However the first attempt ended, the same event run again without failures completes and ends where the uninterrupted cancel ends, whenever that one could complete at all |
| `RevokeJobs.Stores.DeleteMember` | core/grant-revoke.js:885-927 | member.deleted under any pattern of failures keeps its end state; completed, no row, role or link of the member is left |
| `RevokeJobs.Stores.DeleteAndRetry` | core/grant-revoke.js:885-927 | However the first attempt ended, the same event run again without failures completes and ends where the uninterrupted deletion ends: nothing of the member is left |
| `RevokeJobs.Stores.RevokeMappingSource` | core/plan-door-sync.js:122-148 | One door taken off one member: the row stays if the door call failed, no other row goes, and the end state is kept |
| `RevokeJobs.Stores.TakeDoorsOff` | admin/routes/operator.js:131-146 | A door change over all rows it takes away, in any order and with any failures, is on the way to one end state and reaches it if no call fails |
| `RevokeJobs.OtherPlanIsKept` | core/plan-door-sync.js:27-30 | The other-plan-keeps-door query says exactly whether a row outside the change needs the door |
| `RevokeJobs.DoorChangeMeans` | admin/routes/operator.js:131-146 | Which rows a door change of a mapping takes, and which roles: where no permanent row of another mapping is on the door |
| `GrantJob.Doors.GrantOne` | core/grant-revoke.js:113-433 | One turn of the grant loop: reuse before the call, the user-gone account skipped, group flagged only on a confirmed user, every other error thrown |
| `GrantJob.Doors.ProcessGrant` | core/grant-revoke.js:100-453 | Every mapping is assigned or failed once; doors opened are those of the assignments in order; an assigned door is open afterwards exactly if it had no recorded id or was open before; flags and skips are justified by answers; it throws only if nothing was collected or on an unexpected error |
| `GrantJob.Doors.TakeTurn` | core/grant-revoke.js:113-434 | What every turn keeps: each mapping so far accounted for once, doors opened in order, flags and skips justified; an aborted turn leaves a prefix of the doors open |
| `GrantJob.Doors.CompleteGrant` | adapters/standard-adapter.js:503-567 | The row writes of any assignments, live ids or dead, cut off after any number of them |
| `GrantJob.Doors.RunGrant` | core/grant-revoke.js:100-453 | Wherever a grant job stops, thrown or dead, a rerun to completion ends where the uninterrupted job ends, dead recorded ids included, if no two rows of a door disagree on its id |
| `GrantJob.GrantedDoorIsOpenIff` | core/grant-revoke.js:131-180 | A mapping reported as granted has its door open if and only if the door had no recorded id or was open before |
| `GrantJob.AnswersMean` | core/grant-revoke.js:300-412 | Which answers say the user is gone, which that the group is, and that no other does |
| `GrantJob.HalfCancelledDoorIsReused` | core/grant-revoke.js:131-180 | How that fails: after a cancel that died between closing a door and deleting its row, a grant on that door reports success without a call although the door is shut |
| `GrantReuse.OpenedDoors` | core/grant-revoke.js:131-180 | The same over a whole job: which assigned doors are open, and that a door newly open was assigned and had no recorded id |
| `GrantReuse.CallsCutConverge` | core/grant-revoke.js:131-287 | A grant with reuse cut off after any number of door calls and run again ends where the uninterrupted one ends, whatever the recorded ids are |
| `GrantReuse.WritesCutConverge` | adapters/standard-adapter.js:503-567 | Cut off after all calls and any number of row writes, too, if no two rows of a door disagree on its id |
| `GrantReuse.SettledRegrant` | core/grant-revoke.js:131-180 | Between completed jobs copying a recorded id and asking the door system come to the same, so the job histories may call for every door |
| `RateLimiter.PruneDropsPrefix` | core/rate-limiter.js:56 | On the sorted list pruning drops exactly the stamps that have left the window, all at the front |
| `RateLimiter.WindowBound` | core/rate-limiter.js:50-70 | A history in which acquisitions `rate` apart are a window apart has at most `rate` of them in any window, wherever it starts |
| `RateLimiter.RateLimiter.Attempt` | core/rate-limiter.js:53-69 | One pass of the waiting loop, by any awaiter: admitted exactly if fewer than `rate` stamps are left, otherwise told the wait of the oldest; keeps the history sorted and spaced although the list is pruned |
| `RateLimiter.RateLimiter.RateBound` | core/rate-limiter.js:50-70 | In every state any awaiters can bring about, any window holds at most `rate` of all acquisitions ever made |
| `RateLimiter.RateLimiter.CurrentCount` | core/rate-limiter.js:75-79 | The count is the number of acquisitions in the last window over the whole history |
| `RateLimiter.RateLimiter.AcquireAlone` | core/rate-limiter.js:50-70 | A lone waiter sleeps exactly if the window is full and is in after one sleep, when the oldest stamp has left |
| `MemberLock.ReleaseFreesOnlyItsOwn` | core/queue-worker.js:98-101 | In every run with distinct job ids a release, however late, frees at most the lock its own attempt took |
| `MemberLock.OverlapNeedsAnOverrun` | core/queue-worker.js:84-102 | Two bodies of one member overlap only if one outran its time to live before the other began |
| `MemberLock.OneBodyPerMember` | core/queue-worker.js:77-102 | If every body ends within the time to live, no two jobs of one member are in their bodies at once |
| `MemberLock.CrashedHolderExpires` | core/queue-worker.js:63-64 | A crashed job holds its member for the time to live at most |
| `MemberLock.OnlyTheSameMemberWaits` | core/queue-worker.js:73-75 | A job is parked only behind a job of the same client and person, if client ids hold no colon |
| `MemberLock.RedeliveredJobBreaksTheLock` | core/queue-worker.js:98-101 | With one job id live twice the lock fails: a run in which two bodies of one member overlap, both within their time |
| `MemberLock.TryMeans` | core/queue-worker.js:63-90 | When an attempt gets the lock, under which key, in whose name and for how long |
| `MemberLock.LeavingMeans` | core/queue-worker.js:92-102 | What the end of an attempt, in time, late or by a crash, does to the lock |
| `WebhookPipeline.ResolveTenant` | core/webhook-processor.js:75-89 | The site id may confirm the client whose secret signed the request but never redirect the event to another |
| `WebhookPipeline.RoutableMeans` | core/webhook-processor.js:75-211 | Which events become a job, which job, and whose: a mismatch or an unknown client gives none |
| `WebhookPipeline.QueuedForItsOwner` | core/webhook-processor.js:67-211 | Over every interleaving a queued job is the one some delivered event calls for, and for the client that event belongs to |
| `WebhookPipeline.JobIdInjective` | core/webhook-processor.js:249 | A job id determines the event and the kind of job |
| `WebhookPipeline.JobIdsAre` | core/webhook-processor.js:248-251 | The three job ids as written |
| `WebhookPipeline.MarkedIsQueuedOrUnderway` | core/webhook-processor.js:62-211 | In any interleaving an event marked processed was queued or has a delivery past its mark, unless one died there, could not unmark, or had no client or job |
| `WebhookPipeline.NextDeliveryGetsThrough` | core/webhook-processor.js:248-264 | Once every delivery of an event has failed to queue and unmarked, the next is not a duplicate and, with both stores up, becomes a job |
| `WebhookPipeline.OneJobPerId` | core/webhook-processor.js:248-251 | At most one job per job id as long as the queue remembers it, and what is queued under an id is that job |
| `WebhookPipeline.PruneMeans` | core/webhook-processor.js:248-251 | What the queue forgets, and nothing else |
| `WebhookPipeline.MarkedTurnsAway` | core/webhook-processor.js:63-114 | A delivery of a marked event is a legal run that ends with nothing changed |
| `WebhookPipeline.CrashAfterMarkLosesTheEvent` | core/webhook-processor.js:117-118 | A crash between mark and queue loses the event: it has no job, nothing of it is under way, and every redelivery is turned away with nothing changed |
| `WebhookPipeline.UnknownClientStaysMarked` | core/webhook-processor.js:117-167 | So does a delivery that names no known client: every later delivery under its id is turned away, even once its client has become known |
| `WebhookPipeline.Ingress.EnqueueOrUnmark` | core/webhook-processor.js:248-264 | A refused queue takes the mark off again if that call works; an ambiguous one leaves the job and takes the mark off |
| `WebhookPipeline.Ingress.ProcessIncoming` | core/webhook-processor.js:45-211 | The outcome, marks and queue after one delivery, for every pattern of failures |
| `DayPassMutex.AtMostOneLinkPerGroup` | adapters/standard-adapter.js:443-459 | For any number of echo jobs in any interleaving with failures, releases and crashes, the links of a group are exactly one if a job learnt of one, plus one for each creation that took effect and still failed |
| `DayPassMutex.TwoLinksForOneOrder` | adapters/standard-adapter.js:465-480 | A run that reaches two live links for one order: a creation takes effect and fails for its job, the claim is given back and the next echo creates again |
| `DayPassMutex.ReleaseTakesOnlyItsOwn` | adapters/standard-adapter.js:465-480 | A release deletes only claims of its own job on groups without a known link, never an active pass |
| `DayPassMutex.ActiveStays` | adapters/standard-adapter.js:465-480 | An active pass names a live link to its own door and no claim, release or settlement ever changes its row |
| `DayPassMutex.GivenBackIff` | core/queue-worker.js:299-303 | A claimed door is given back exactly if no door of its mapping got a link |
| `DayPassMutex.FailedDoorIsLeft` | core/queue-worker.js:299-303 | A failed door beside a successful one of its mapping stays claimed with no job to answer for it |
| `DayPassMutex.LeftClaimStays` | adapters/standard-adapter.js:443-459 | A claim no live job answers for is never given back or taken over, and no later echo creates a link there |
| `DayPassMutex.CrashLeavesClaims` | core/queue-worker.js:275-306 | A crash leaves every claim its job answered for in that state |
| `DayPassMutex.ClaimMeans` | adapters/standard-adapter.js:443-459 | When a claim is inserted, when the job holds it, and when it ends the job |
| `DayPassMutex.ReleaseMeans` | adapters/standard-adapter.js:465-480 | Which claims a release deletes and how the job goes on |
| `DayPassMutex.SettleMeans` | adapters/standard-adapter.js:503-567 | What a settlement writes and when it ends the job |
| `DayPassMutex.LoneJobSettles` | core/queue-worker.js:275-306 | A job that nothing disturbs ends with the row active and its one link live |
| `Billing.TripsIff` | adapters/standard-adapter.js:684-742 | Exactly when a billing write trips the one-active-per-subscription index, said of the table before it |
| `Billing.InOrderNeverTrips` | adapters/standard-adapter.js:684-742 | Cycles in order, with any replays, never trip it |
| `Billing.ReplayChangesNoStatus` | adapters/standard-adapter.js:724-731 | A replayed purchase changes no status, no seat and no set of rows |
| `Billing.NewCycleTakesOver` | adapters/standard-adapter.js:684-742 | A new cycle is active, the active cycle before it completed, everything else as it was |
| `Billing.RenewalsStayOrderly` | adapters/standard-adapter.js:664-742 | From an empty table on only the newest cycle of a subscription is active, and it is unless cancelled |
| `Billing.LeaveIsDurable` | adapters/standard-adapter.js:698-716 | A seat released on the active cycle stays released on every later cycle until the holder claims it back |
| `Billing.RepurchaseStartsSeated` | adapters/standard-adapter.js:704 | A purchase under a new subscription starts seated |
| `Billing.BillingTable.WriteBillingCycle` | adapters/standard-adapter.js:664-762 | The three statements of one write: trips exactly when predicted, having closed the earlier cycles and nothing more; returns the flag of the row; keeps the index |
| `Billing.BillingTable.PriorSeat` | adapters/standard-adapter.js:706-716 | The carried flag is that of a latest earlier cycle of the subscription, or true |
| `Billing.ClosedMeans` | adapters/standard-adapter.js:679-698 | The closing statement completes exactly the active earlier cycles of the subscription, for a cycle after the first |
| `Billing.SeatMeans` | adapters/standard-adapter.js:700-717 | The seat a new cycle starts with: that of a latest earlier cycle of its subscription, true without one |
| `Billing.UpsertMeans` | adapters/standard-adapter.js:719-752 | The row under order and cycle: new ones active and from the purchase, known ones with their holder, status and seat |
| `Billing.OthersMean` | adapters/standard-adapter.js:664-742 | Leaving and claiming back set the seat on the active rows of the plan alone; a cancellation sets the status of its rows alone |
| `LocationLapse.RestoreUndoesSuspend` | adapters/standard-adapter.js:1019-1081 | Restoring a location after suspending it is the identity exactly if nothing of it was marked or carried a reason and the status was rolled up |
| `LocationLapse.OperationsMean` | adapters/standard-adapter.js:1019-1294 | What each of the five operations makes of any row |
| `LocationLapse.ApplyMeans` | adapters/standard-adapter.js:1121-1154 | Each operation acts on every row by itself, and the status says active exactly if a row is |
| `LocationLapse.LocationsCommute` | adapters/standard-adapter.js:1019-1081 | Operations on different locations commute on rows, reasons and status |
| `LocationLapse.MarksTellTheLapses` | adapters/standard-adapter.js:1270-1294 | Over every run of lapse, restore, failed and recovered payment and grant: a row is marked exactly if its own lapse turned it off and nothing turned it on since; a row a failed payment turned off is off and unmarked |
| `LocationLapse.RestoreRevivesExactly` | adapters/standard-adapter.js:1056-1081 | A restore revives exactly the rows that location lapsed, and never one a failed payment turned off |
| `LocationLapse.RecoveryOpensLapsedRows` | adapters/standard-adapter.js:1280-1291 | A recovered payment also opens the rows of a location that is still lapsed |
| `LocationLapse.GrantOnMarkedRowMisleadsRestore` | adapters/standard-adapter.js:827-845 | Why grants must stay off lapsed locations: the upsert keeps the reason, and a restore then opens a row a failed payment closed |
| `LocationLapse.RestoreOpensDeclinedIff` | adapters/standard-adapter.js:1056-1081 | After any history: a row whose payment has just failed is opened by a restore exactly if it is of that location and the reason of an earlier lapse is still on it |
| `LocationLapse.ReasonStaysIff` | adapters/standard-adapter.js:1270-1294 | Said of the history alone how long that is: since some lapse found the row active, whenever its location was restored or a payment recovered the row was not off |
| `LocationLapse.OnlyGrantsMislead` | adapters/standard-adapter.js:827-845 | A history brings an active row with the reason of a lapse about exactly if it holds a grant of that row while a lapse has it off |
| `LapseJobs.LocationMembers.SuspendLocationMembers` | core/location-lapse.js:58-141 | The lapse loop with any writes of other jobs between its turns: every listed member is moved from what those have left of it, whatever its status is by then, rows never ahead of the door-system user; the counters add up and without failures nobody is an error |
| `LapseJobs.LocationMembers.ReactivateLocationMembers` | core/location-lapse.js:183-292 | The reactivation loop with any writes of other jobs between its turns: who is held or busy by the list is not touched, everybody else is moved from what is left of it; the counters add up and without failures only the busy are errors |
| `LapseJobs.EachHasItsTurn` | core/location-lapse.js:96-129 | What the turns add up to: at the end a listed member is as its turn has made it out of what other jobs left, or as another job left it after that |
| `LapseJobs.OthersAreLeft` | core/location-lapse.js:78-90 | Whoever is not on the list, or is set aside, is as other jobs left it |
| `LapseJobs.Undisturbed` | core/location-lapse.js:96-129 | With no other job on a member its turn has moved it from where the list found it: off, or on, in both stores unless it is in the errors |
| `LapseJobs.ListsMean` | core/location-lapse.js:78-90 | Who is on the list of a lapse, who on that of a reactivation, and who is set aside |
| `LapseJobs.LapseEnds` | core/location-lapse.js:96-129 | A lapse that ran alone has the user off, the active rows of the location failed with its reason, and a log entry |
| `LapseJobs.RestoreEnds` | core/location-lapse.js:241-270 | A reactivation that ran alone has the user on, the marked rows of the location active, and a log entry |
| `LapseJobs.LateDeclineIsLetIn` | core/location-lapse.js:187-197 | A payment that fails after the list was read does not hold the member: the turn opens door and rows |
| `LapseJobs.DeclinesMean` | core/location-lapse.js:187-197 | The log entry by entry: a failed payment holds the member, the next lapse lifts that, a reactivation changes nothing |
| `LapseJobs.ReactivationUndoesLapse` | core/location-lapse.js:183-292 | A lapse and a reactivation that went through give back the member there was |
| `LapseJobs.ErrorsAreRetried` | core/location-lapse.js:169-170 | A member that ended in an error is restored after all or picked up again; one restored has no marked row of the location left |
| `LapseJobs.LapseShutsOtherLocations` | core/location-lapse.js:105-119 | After the lapse of one location the door-system user is off as a whole, while the status is active exactly if a row elsewhere is |
| `Lifecycle.EveryLiveDoorIsFindable` | adapters/standard-adapter.js:146-161 | Over every run: a live role has no row exactly if a cancel or an unfinished grant left it so and no grant recorded it since; a row with an id escapes the lookup exactly if a plan was parked over it since; a member with a live door that another row names is one the revoke lookup matches; deleted means no role |
| `Lifecycle.StrandingNeedsWaitingPlan` | core/grant-revoke.js:801-826 | A cancel strands a door only where a plan that still waits, with no role id, makes it keep the door open |
| `Lifecycle.WithoutWaitingPlans` | adapters/standard-adapter.js:1952-2043 | A run in which nothing is parked and every grant runs through strands nothing |
| `Lifecycle.EveryRoleIsFindable` | adapters/standard-adapter.js:146-161 | After every such run, whatever sweeps, loops, operators and crashes come in between, the lookup matches every member with a live role |
| `Lifecycle.ThrownGrantHidesDoor` | core/grant-revoke.js:432 | A grant that throws after opening a door leaves a live role without a row, and the member is found exactly if another row gives a revoke something to remove |
| `Lifecycle.CompletedGrantHeals` | adapters/standard-adapter.js:503-567 | A grant on the door that completes records the role again, and the member is found |
| `Lifecycle.OneIdPerDoor` | core/grant-revoke.js:131-180 | Over every run without a login swap the permanent rows of a door that carry an id carry one and the same, live or dead, which is all a rerun of a grant job needs to converge |
| `Lifecycle.UnreachableIff` | adapters/standard-adapter.js:146-161 | A member with a live role escapes the lookup exactly if the status says neither active nor under way and every row with an id lies under a parked plan |
| `Lifecycle.CancelHidesMemberIff` | core/grant-revoke.js:801-826 | Exactly when a completed cancel leaves live roles on a member the lookup does not match: no surviving row is active or paused, and one keeps a live door open or a door was stranded before |
| `Lifecycle.WaitingPlanHidesLiveDoor` | adapters/standard-adapter.js:1968-1989 | The failing family: a live plan and one that waits on the same door; cancelling the first leaves the role live and the member out of the reach of either cancel |
| `Lifecycle.WaitingPlanIsReachable` | adapters/standard-adapter.js:1968-1989 | Two purchases lead to such a member |
| `Lifecycle.StepKeepsInv` | adapters/standard-adapter.js:1241-1299 | Every step of every job, failure, park, sweep, crash and late write keeps the invariant of that proof: ids on rows are those of their own door or dead, links have their rows, deleted means no role |
| `Lifecycle.RollupMeans` | adapters/standard-adapter.js:1121-1154 | After every step that rolls up, the status is active exactly if some row is, and inactive otherwise |
| `Lifecycle.PauseMeans` | adapters/standard-adapter.js:1261-1269 | A failed payment turns exactly the active rows off; doors stay |
| `Lifecycle.ResumeMeans` | adapters/standard-adapter.js:1270-1294 | A recovered payment turns exactly the failed rows on: no row is paused any more, and the member is active exactly if a row was in force; doors stay |
| `Lifecycle.ResumeUndoesPause` | adapters/standard-adapter.js:1261-1294 | A pause and a resume give back the member exactly if no row was paused before |
| `Lifecycle.LapseMeans` | adapters/standard-adapter.js:1019-1081 | Which rows a late lapse and a late restore turn, and that they keep keys, mappings and roles |
| `Lifecycle.ParkMeans` | adapters/standard-adapter.js:1968-2043 | A park leaves every role where it is and writes the parked rows waiting |
| `Lifecycle.FinalizeMeans` | adapters/standard-adapter.js:1372-1553 | The finalize ends in deleted exactly if the status is inactive, nothing refuses and the user holds no role |
| `Lifecycle.JobsMean` | adapters/standard-adapter.js:1689-1775 | What the other steps write when a job starts, parks or throws, and which job is on after each |
| `Lifecycle.WritersMean` | core/location-lapse.js:78-90 | Which members each lock-free writer may read, which states the sweep rolls up, and what an unlock and a removal mark write |
| `Lifecycle.WritesFollowReadings` | core/location-lapse.js:78-119 | Over every run the readings of a writer are its writes plus those still due |
| `Lifecycle.ThrownFinalizeStaysFindable` | adapters/standard-adapter.js:1709-1763 | A revoke whose finalize threw is found by its retry, whatever happens until then, exactly if a row is active or paused or no lapse, restore or unlock that had read the member before has written over its status since; none has if none was due |
| `Lifecycle.CanBeHiddenIff` | adapters/standard-adapter.js:1019-1041 | Of a member that waits as removing: something can happen between two jobs that hides it exactly if such a writer is due and no row is active or paused |
| `Lifecycle.LateLapseHidesMember` | core/location-lapse.js:78-119 | The failing run: a lapse reads the member, its only plan is cancelled and the finalize throws, and the lapse writes inactive over removing |
| `Lifecycle.DeletedStaysIff` | adapters/standard-adapter.js:1089-1096 | Between jobs deleted stays exactly until a lapse, restore, unlock or removal that had read the member before writes over it |
| `Lifecycle.LateLapseReopensDeleted` | adapters/standard-adapter.js:102-122 | A run that ends there, after which the next purchase keeps the deleted user it would have dropped |
| `Lifecycle.RetryEndsDeleted` | core/queue-worker.js:1058-1104 | The retry of such a revoke ends in deleted |
| `Lifecycle.CrashBeforeFinalizeIsFoundIff` | core/queue-worker.js:1014-1061 | A job that dies between the recorded revoke and the finalize is found again exactly if some row is left to remove |
| `Lifecycle.ParkingOverLiveRow` | adapters/standard-adapter.js:2030-2043 | Parking a plan over a live row puts its role out of the reach of the lookup unless another row gives it something to remove |
| `Lifecycle.ParkedOverIsReachable` | adapters/standard-adapter.js:2030-2043 | A purchase that comes twice, the second time while the door key of the client is missing, leads there |
| `Lifecycle.EveryLiveLinkIsFindable` | adapters/standard-adapter.js:146-161 | Over every run a live group link has an active or paused row naming it, and the lookup matches its member exactly unless the access row is deleted; then the pass is paused |
| `Lifecycle.PausedPassOutlivesFinalize` | adapters/standard-adapter.js:1372-1497 | And that happens: a run that ends in deleted with the link of a paused pass still live |
| `Finalize.FinalizeJob.FinalizeRevoke` | adapters/standard-adapter.js:1372-1583 | Under every pattern of failures nobody else loses a user, role, row or datum; a refusal changes nothing; with the services up exactly the finalizable are finalized; each refusal names a reason that holds; a throw leaves the member finalizable or finalized |
| `Finalize.FinalizeJob.FinalizeAndRetry` | adapters/standard-adapter.js:1372-1583 | After any first attempt a retry with the services up ends in deleted with user and data gone, and one after a finished finalize changes nothing |
| `Finalize.FinalizeJob.GuardUser` | adapters/standard-adapter.js:1415-1497 | Guards E and D refuse exactly a shared user or one with any role, and a failed lookup throws |
| `Finalize.FinalizeJob.DeleteUser` | adapters/kisi/kisi-adapter.js:919-998 | The guarded delete removes a user only under the ownership marker of the client and treats a missing one as done |
| `Finalize.DeletingTouchesNobodyElse` | adapters/standard-adapter.js:1415-1497 | The guards are enough: deleting the user of a finalizable member closes no door of another live access row and strips no role |
| `Finalize.MayEndMeans` | adapters/standard-adapter.js:1372-1497 | Which members may be finalized, row by row: status, client, source tag, nobody else on the user, no role on it, the marker of the client |
| `Finalize.EndedMeans` | adapters/standard-adapter.js:1548-1572 | What a finalized member is: status deleted, personal data gone, user gone, all else as before |
| `GroupsToMove.Collect` | core/login-email-swap.js:101-115 | One move per door group, in first-seen order, with all its rows and mappings, no end if any row has none and otherwise the latest end |
| `GroupsToMove.EachRowMovesOnce` | core/login-email-swap.js:101-115 | Each source row is in exactly one move, the one of its group |
| `LoginEmailSwap.MovedIsWorking` | adapters/standard-adapter.js:1636-1668 | Once the new user has the roles of all moves, switching the records leaves a login with the recorded role on every group, for as long as every source lasts |
| `LoginEmailSwap.Swap.OpenDoors` | core/login-email-swap.js:263-267 | Every door opened for the new user under the ids collected, with records and old users untouched throughout |
| `LoginEmailSwap.Swap.MoveOver` | core/login-email-swap.js:261-283 | Doors, suspension and transaction: afterwards the records have moved to a user with every role, enabled exactly if the old one is or is gone, or are untouched |
| `LoginEmailSwap.Swap.Run` | core/login-email-swap.js:254-301 | After every call the user on record exists with the recorded role on every group, unless the transaction commits unknown to the job and the compensation deletes the new user: an exact condition on the answers. A failure that did not lose the commit leaves records and old user alone; emails follow only a fully finished swap |
| `LoginEmailSwap.UndoneIsWorkingIff` | core/login-email-swap.js:280-283 | The compensation is harmless exactly if it does not hit a commit the job did not learn of |

## Left out

- DecisionPartitionsTheBatch: the counts object of a decision is presentation for the sweep log and is not modelled.
- ReasonMeans: the detail string an invalid batch is held with is modelled, in the order of the checks, but not stated apart from the code; those of the other reasons are (BlameMeans).
- FlushedIff: `now - since` is computed over reals, without floating-point rounding; Date objects carry their time value only.
- DoorsAreTheUnionOfHeldPlans: says nothing of seat-suppressed grants, where the role is made but no row is written (adapters/standard-adapter.js:545-556; Lifecycle covers them as a door a grant opened and left out of its rows), or of a mapping door whose row write failed (core/plan-door-sync.js:85-103).
- ProcessCancel: the fallback for members with role ids but no rows (core/grant-revoke.js:829-839) and the billing flip at the end of a cancel are not part of the loop; a null plan id is modelled as the empty string.
- RunGrant: recreating a lost user between two attempts is not modelled; that no two rows of a door disagree on its id holds in every run without a login swap (OneIdPerDoor).
- DeleteOrphanLinks: one client at a time; a client whose key or link list cannot be read is skipped by the code.
- OneBodyPerMember: jobs without a lock client or without a tenant or person run unlocked; the model is about those that have both.
- MarkedIsQueuedOrUnderway: whether an event type is routable is given with the event; the routing lists of core/event-routing.js are a finite table.
- AtMostOneLinkPerGroup: one member and one claim key at a time, since rows of different keys never conflict; revokes of the order are outside.
- WriteBillingCycle: dates, snapshots and plan names are left out of the rows; they take part in no condition.
- MarksTellTheLapses: a grant writes only rows no lapse has marked, as core/plan-mapping-resolver.js:85 arranges (ReasonStaysIff and RestoreOpensDeclinedIff need no such assumption); the key of a row fixes its mapping and so its location.
- SuspendLocationMembers: the checks before the loop (target status, a location already cancelled, a missing key) and the location status written after it are not modelled. Other jobs write between two turns here, not between the two calls of one turn.
- ReactivateLocationMembers: alerts, and the fallback to row times when the log entry of a lapse was itself lost, are left out; the log is kept in order instead of by clock.
- EveryLiveDoorIsFindable: the rows of a plan are parked in one step; a row that is lapsed or restored changes its status here, not its reason, which LocationLapse follows; the login swap, which gives active rows new ids and leaves paused ones, is LoginEmailSwap and no step of these runs.
- FinalizeRevoke: guards and delete run without another job between them; operator alerts are left out.
- Run: the checks before the new user is created (core/login-email-swap.js:141-252) change nothing but, for a member without a user, the stored email; suspended source rows are not moved by the code and not modelled.
- Postgres, BullMQ, Redis, HTTP, logging, tracing, email rendering, routes and cron wiring are I/O and presentation.
- Cryptography, signed tokens and tenant authentication are not access logic.
- Reconciliation, the Wix adapter and the source retry probe are not modelled; the door adapter is the stated environment.
- core/error-guidance.js, core/event-routing.js and core/wix-order-classification.js are finite tables.
