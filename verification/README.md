# The social-call layer, modelled and proved

A Dafny model of a social prediction service's server. People lock *calls* on
markets of an outside venue, answer each other's calls (back, fade, challenge),
and are ranked by how their calls came out. The project models the code that
has to keep those records straight and states what it keeps.

- **The ledger** (`Vocabulary`, `Ledgers`, `CallsStores`): the in-memory store's
  rules as functions on its contents, and the two store classes that carry them
  out in place.
- **Write-behind and hydration** (`DurableTables`, `WriteBehind`, `Hydration`,
  `Durability`, `SocialProcedure`): the writes each mutation queues, the
  database's constraints, the replay that rebuilds a mirror, and a state machine
  of requests, writes that land, fail or lose their answer, barriers, crashes
  and restarts.
- **Results and polling** (`Markets`, `ResolutionSync`, `VenueRuns`, `PollWorker`):
  venue resolutions turned into permanent results, alone and through every run of
  the durability machine, and the rotation that polls the markets still waiting.
- **The service** (`Service`, `Timeliness`): making, answering, funding, withdrawing,
  replacing and restoring calls.
- **Reads** (`Feed`, `Records`, `People`, `TopCalls`, `Suggestions`, `Privacy`,
  `Wilson`): paging, records, ranking, greedy choice, and what others may see of
  a call whose money has not landed.
- **Sign-in and limits** (`ModArith`, `SolanaKey`, `SiwsMessage`,
  `SessionRollout`, `WriteLimits`): key decoding, the signed message, staged
  account linking, and token buckets. `Sorting` holds the lists and orders used
  throughout.

Where the source changes things in place the model is a class whose methods are
tied to a function of the old contents, and the promises are lemmas about that
function. What the code cannot see is a parameter: the clock's readings, new
ids, the snapshot's UUID, whether a price is well formed, the calendar, the
signature check, the database's own functions, and what becomes of a write on
its way.

Five findings shape the statements.

- **The write queue does not stop at a failed write.** The comments around it
  call the queue quarantined; the queue itself records the failure and goes on
  (`src/prediction/pgrest.ts:264-351`), and it is the barrier that refuses from
  then on. The model follows the queue: it goes on, and the tables are shown to
  stay sound with arbitrary writes missing.
- **Restoring a withdrawn money call can cost a later one its row.** The guard
  asks only that nothing be live (`src/calls/CallsService.ts:928-934`); replay
  also needs that nothing by that person was locked later on the market. The
  exact condition and a run that fails it are stated. In the durability machine
  a request to show a call meets that condition.
- **Two operations are not all-or-nothing.** "Keep it free" looks for a price
  only after it has withdrawn the old call, and an answer is refused as a
  duplicate only after its call is locked. Each contract says exactly when, and
  each has a concrete run. That the old statement always fits again is an
  invariant: one method creates calls, and it checks.
- **A restart can serve without the acknowledged updates.** When the updates
  table cannot be read, for whatever reason, hydration goes on without it
  (`src/calls/supabaseStore.ts:310-341`): appends are refused, and the updates on
  record are not shown until a restart that reads them. Everything else
  acknowledged is. The condition is exact, and the restart that fails it is stated.
- **A private call can show in a tie.** Rows equal in everything the leaderboard
  compares, the handle included, keep the order of their people's first calls,
  private ones among them (`src/calls/people.ts:174-187`). Handles can repeat
  (`src/calls/supabaseStore.ts:828-829`). The exact condition and the two-person
  case are stated.

The durability machine assumes of its callers what the service and the clock
give: new ids, each lock and withdrawal at an instant later than those already
recorded, and a back or fade that names the call it was made from. `Timeliness`
derives these for the service's own mutations from a clock that is ahead.

The rules the specifications share (who won, who sees a call, which market
waits, who may call, what a record counts, how rows compare, who is evicted, who
gets in) are each answerable to a statement that spells its meaning out without
using the rule.

## Model

| member | source | states |
|---|---|---|
| Ledgers.PerformKeeps | src/calls/store.ts:230-537 | Every accepted mutation keeps the ledger invariant (one live call per person and market, parents on the same market, back on the same side and fade on the opposite, results derived from cited evidence, threads bounded), loses no record, moves no immutable column and changes no settled result |
| Ledgers.CallStored | src/calls/store.ts:302-333 | A call that joins, or one whose two mutable columns move, leaves everything said about calls, responses, results and threads true, given that it is live only where nothing else of its owner is |
| Ledgers.ReferencesKept | src/calls/store.ts:351-396 | What responses, results and thread updates say of calls survives any change that keeps the calls' immutable columns |
| CallsStores.InMemoryCallsStore.InsertCall | src/calls/store.ts:230-272 | The in-place insert has exactly the outcome of the ledger rule: the record stored and listed last, or the rule's refusal and nothing changed |
| CallsStores.InMemoryCallsStore.AttemptCallUpdate | src/calls/store.ts:302-323 | Only the withdrawal columns ever move; a patch naming any other is refused with nothing changed |
| CallsStores.InMemoryCallsStore.InsertResponse | src/calls/store.ts:351-396 | Guards before the write: target, self, duplicate, and the call a back or fade must carry; a duplicate is the same person answering the same call the same way; refused with nothing changed, or stored under its id |
| CallsStores.InMemoryCallsStore.InsertThesisUpdate | src/calls/store.ts:422-461 | Author only, not on a withdrawn call, trimmed and bounded, at most twenty to a thread; refused with nothing changed or appended |
| CallsStores.InMemoryCallsStore.WriteResult | src/calls/store.ts:473-537 | The stored row calls the side the market went to CORRECT and the other INCORRECT, a void market VOIDED and no evidence PENDING, and cites the evidence; restating it changes nothing and says so; a settled row is never replaced |
| DurableTables.FitAccepted | tests/pgrestFake.ts:436-676 | A write the store was right to queue is refused by no check, foreign key, unique index or guard trigger modelled |
| DurableTables.FitLands | src/calls/supabaseStore.ts:459-515 | A fitting write leaves the tables sound (invariant, replayable, lineage) and keeps every record they hold |
| DurableTables.WriteLands | src/prediction/pgrest.ts:264-351 | Even after arbitrary earlier writes of the queue were lost, a write the constraints accept leaves the tables sound and no further than what was queued |
| WriteBehind.MutationQueues | src/calls/supabaseStore.ts:406-442 | What an accepted mutation queues fits the records the queue ends in and carries the tables' image of the old mirror to that of the new one |
| WriteBehind.QueueLands | src/calls/supabaseStore.ts:547-556 | Every first part of a queue is accepted write by write and leaves sound tables: parents before children, calls before their responses, results and updates |
| CallsStores.SupabaseCallsStore.InsertCall | src/calls/supabaseStore.ts:459-515 | The mirror performs the mutation and exactly its writes are appended to the queue, or it is refused and neither moves |
| CallsStores.SupabaseCallsStore.HideCall | src/calls/supabaseStore.ts:558-565 | Withdrawing queues one patch, and nothing when the call was withdrawn already |
| CallsStores.SupabaseCallsStore.InsertThesisUpdate | src/calls/supabaseStore.ts:638-669 | Refused outright, mirror and queue untouched, while the updates table has not answered |
| CallsStores.SupabaseCallsStore.WriteResult | src/calls/supabaseStore.ts:688-726 | A derivation that changed nothing queues nothing |
| CallsStores.SupabaseCallsStore.Unfollow | src/calls/supabaseStore.ts:420-442 | Removes the pair from both follow tables, current and legacy, and queues nothing for a pair not followed |
| CallsStores.SupabaseCallsStore.Hydrate | src/calls/supabaseStore.ts:179-345 | The replay loops rebuild exactly the ledger the row-by-row replay gives, follow graph and cursors included, count what they mirror and what they skip in every table but the people's, and queue nothing; a call row that cannot be read stops it, and an updates table that cannot be read turns updates off and nothing else |
| CallsStores.NewFollowsAre | src/calls/supabaseStore.ts:203-224 | The follows counted beyond the legacy table's rows are the pairs that table lacks |
| Hydration.CallReplayTotalIff | src/calls/supabaseStore.ts:223-247 | Replaying call rows skips none if and only if every parent precedes its child on the same market, no live call precedes another by the same person on the same market, no id repeats and every stamped price was usable; then no row is unreadable either |
| Hydration.HydrateRebuilds | src/calls/supabaseStore.ts:179-308 | Sound tables hydrate with no call row unreadable and no row of any kind skipped, and the mirror then holds exactly their records and the follows of either table, in whatever order responses, results and updates are read |
| Hydration.HydrateUnread | src/calls/supabaseStore.ts:310-341 | With the updates table unreadable they hydrate just the same, but for the updates, of which there are none |
| Hydration.RoundTrip | src/calls/supabaseStore.ts:179-308 | From tables that mirror a ledger, hydration gives that ledger back, column by column, call order, follows and cursors included, but for snapshot handles spelled as UUIDs |
| Hydration.ShowKeepsReplayableIff | src/calls/store.ts:331-333 | Showing a withdrawn call keeps the calls replayable if and only if its owner has locked nothing later on that market |
| Hydration.RestoreCanCostALaterRow | src/calls/CallsService.ts:928-934 | A run of accepted mutations after which restoring passes its guard and yet hydration skips a row |
| Durability.StepSafe | src/api/socialProcedure.ts:11-30 | Requests, writes that land, fail or lose their answer, barriers, crashes and restarts, with the updates table read or not, all keep the system safe, and the tables never lose a record |
| Durability.NothingRefused | src/prediction/pgrest.ts:264-351 | While nothing has failed, every queued write in turn satisfies every constraint modelled, and each first part leaves sound tables |
| Durability.WriteBehindSimulates | src/calls/supabaseStore.ts:459-726 | In every reachable state without a failure, storing the pending queue gives exactly the mirror's rows, with the updates on record if the mirror did not read them; storing any first part of it hydrates in full, and hydrating after all of it rebuilds the mirror so completed |
| Durability.AcknowledgedIsDurable | src/api/socialProcedure.ts:11-30 | When a procedure passes its closing barrier the tables hold the mirror, with the updates on record. Through any later failures, crashes and restarts the tables keep its calls, responses, updates and settled results, and so does every later mirror but for updates it did not read; both keep every withdrawal, restore, follow, unfollow and cursor nobody has since asked to change. A later mirror shows the updates on record if and only if the last restart read their table or there are none; every later restart hydrates without skipping a row |
| Durability.UnreadUpdateIsNotShown | src/calls/supabaseStore.ts:310-341 | After a restart that could not read the updates table, no update on record is shown, though the tables hold it and every call, response and result is shown |
| Durability.AnUpdateGoesMissing | src/calls/supabaseStore.ts:310-341 | One call and one update on record are enough: such a restart is a step, and its mirror lacks the update |
| Durability.FailureQuarantines | src/calls/durableFailure.ts:6-18 | After a failed write no barrier is passed until the process is replaced |
| Durability.AcknowledgedStands | src/calls/supabaseStore.ts:406-442 | An acknowledged withdrawal, restore, follow, unfollow or cursor stands in the tables and the mirror, with no queued write against it, until somebody asks for the opposite |
| SocialProcedure.SocialGateway.Drain | src/prediction/pgrest.ts:264-351 | Every queued write is sent in order, whatever became of those before it: the tables and the count of failures are those of sending the whole queue, the system stays safe, and nothing fails when nothing is lost on the way |
| SocialProcedure.SocialGateway.Run | src/api/socialProcedure.ts:11-30 | Barrier, work, barrier: an acknowledgement means every mutation of the procedure was performed and the tables mirror them; a refusal carries the refused mutation's code, that of a missing updates table included, with those before it made and in the tables; after a failure every procedure is unavailable and does nothing; with nothing lost none is |
| ResolutionSync.TailIsComplete | src/calls/markets.ts:54-59 | The tail holds every listed resolution recorded at or after the watermark, that millisecond included, and nothing else, oldest first |
| ResolutionSync.ResolutionSync.RunOnce | src/calls/ResolutionSync.ts:102-163 | Refused only when a settled result contradicts the venue. Otherwise, on every market gone to a side, the correct results are exactly those of the calls on it and the incorrect ones those of the others; on a void one all are void, on one without a resolution all pending, whatever the cursor, page size and page cap. No other row moves and none that stands is written again; every counter of the report says what happened, and the next pass begins at the last resolution of the last page |
| ResolutionSync.ConvergedIsJudged | src/prediction/types.ts:117-121 | When every result is what the venue derives, every market's calls are judged by who won it |
| ResolutionSync.NextBegins | src/calls/ResolutionSync.ts:91-95 | The watermark a pass leaves is read back as the instant of the last resolution it has seen, or as it was when it saw none |
| ResolutionSync.ResolutionSync.WalkTail | src/calls/ResolutionSync.ts:114-135 | Whole pages up to the cap, the watermark persisted after each; every call on a market among the resolutions seen has the result its evidence derives, and no other row has moved |
| ResolutionSync.ResolutionSync.Sweep | src/calls/ResolutionSync.ts:137-159 | Exactly the calls without a settled result are derived again from the venue's own record; those without a row, those that stood and those still pending are counted |
| ResolutionSync.ResolutionSync.ApplyEvidence | src/calls/ResolutionSync.ts:166-185 | Derives every call on the resolved market and touches no other, keeps and counts the rows that stood already; refused only against a contradictory settled result |
| ResolutionSync.ResolutionSync.ResetCursor | src/calls/ResolutionSync.ts:98-100 | The next pass walks the whole venue history |
| ResolutionSync.PrefixIsConsistent | src/calls/ResolutionSync.ts:102-163 | A pass can be stopped after any of its writes: what it leaves agrees with the venue and moved no settled result |
| ResolutionSync.CrashConfluence | src/calls/ResolutionSync.ts:102-185 | A pass stopped after any number of writes and run to completion again, from any watermark, converges to the outcomes of one never stopped, and touches nothing already settled |
| ResolutionSync.SecondPassChangesNothing | src/calls/store.ts:513-525 | Once converged, further sync writes change no record, the instant of derivation included |
| ResolutionSync.ConsistencyLasts | src/calls/ResolutionSync.ts:102-185 | New resolutions and every other mutation leave settled results in agreement with the venue |
| ResolutionSync.CrashKeepsConsistent | src/calls/supabaseStore.ts:268-291 | A process lost at any point, mid-pass or not, hydrates to results a further pass converges from, whether or not it reads the updates |
| VenueRuns.AgreementLasts | src/calls/ResolutionSync.ts:102-185 | Over every run of requests, lost writes, crashes and restarts during which the venue publishes and results are written from its record of the moment, every settled result in the tables and the mirror agrees with the venue, and no evidence of its is ever refused |
| VenueRuns.SettledIsFinal | src/calls/store.ts:473-537 | An acknowledged settled result is the very same row in every later state, and still what the venue's record derives |
| PollWorker.PendingMarketIsPolled | src/calls/CallResultWorker.ts:111-129 | A market that stays pending is polled within m/k completed passes that move the cursor, rounded up, while others come and go and passes fail; those are all completed passes when no id is empty |
| PollWorker.PassDrawsNearer | src/calls/CallResultWorker.ts:125-128 | A completed pass that moves the cursor and does not reach the target shrinks the cyclic distance to it by a whole batch |
| PollWorker.EmptyIdStarves | src/calls/CallResultWorker.ts:85-91 | While the same markets stay pending and a pass ends on the empty id, which never becomes the cursor, a market is polled if and only if it is in that one batch |
| PollWorker.CallResultWorker.constructor | src/calls/CallResultWorker.ts:37-41 | The per-pass cap is the setting without its fraction, 1 below that range, 16 above it, and 8 when it is not a finite number |
| PollWorker.CallResultWorker.PendingTargets | src/calls/CallResultWorker.ts:111-129 | Exactly the waiting Panta markets, in order, rotated past the cursor and cut at the cap |
| PollWorker.ListedAreStillOut | src/calls/CallResultWorker.ts:115-121 | Waiting are exactly the Panta markets, no longer open or past their close, that have no resolution and some call without a settled result; none is listed for markets alone that still take calls |
| PollWorker.ListedAfterAPass | src/calls/CallResultWorker.ts:105-121 | After a completed pass from consistent results, the listing is exactly the closed called Panta markets without a resolution, and no call left pending on a closed one is forgotten |
| PollWorker.ClosedMarketIsPolled | src/calls/CallResultWorker.ts:111-129 | Over passes that each draw up their list from the store, the venue and the markets as they then are and leave the cursor as the worker does, a called Panta market that is closed and stays without a resolution is polled within as many completed passes as the rotation needs |
| PollWorker.OneListing | src/calls/CallResultWorker.ts:124-124 | The waiting ids have one ordered listing, whatever order the calls come in |
| PollWorker.CallResultWorker.PollTargets | src/calls/CallResultWorker.ts:72-91 | The cursor moves once, to the last target and after it, and only if none broke the batch |
| Service.CallsService.LockCall | src/calls/CallsService.ts:615-670 | Locks exactly when the statement fits, a price can be stamped and the store has room; the call carries the statement, side and parent asked for and the server's own instant and price; it and its derived result appear together or nothing does |
| Service.CallsService.CreateCall | src/calls/CallsService.ts:424-450 | Made exactly when the person may call there, as asked and stamped by the server, else nothing changes; an unknown market and one that takes no calls are refused as such |
| Service.MayCallIff | src/calls/CallsService.ts:424-450 | The checks in a row come to one condition: a venue switched on, a market open, in its window, before its cut-off and unresolved, a price of both sides at most ten minutes old on Panta, a statement within bounds, no live call of the person there, and a parent on the same market |
| Service.WrittenIsTrimmed | src/calls/CallsService.ts:1022-1028 | What is written is kept without the white space around it, nothing but white space is nothing written, and more than 280 characters is refused |
| Service.CallsService.Respond | src/calls/CallsService.ts:459-532 | A challenge makes no call; a back or fade makes the actor's own call and its answer, and leaves the call without an answer exactly when the actor has already answered that way |
| Service.WithdrawnAnswerLeavesAnOrphan | src/calls/CallsService.ts:507-526 | After withdrawing a back or fade, answering again is allowed to lock a call and is then refused as a duplicate |
| Service.CallsService.HideCall | src/calls/CallsService.ts:568-575 | Only the author withdraws a call, and nothing but its two columns moves |
| Service.CallsService.LockFundedCall | src/calls/CallsService.ts:802-825 | Locked exactly when what was planned is still what would be made; no answer is recorded yet |
| Service.CallsService.PublishFundedCall | src/calls/CallsService.ts:828-844 | Never refused, records the back or fade of the call's parent at most once, and leaves nothing unpublished |
| Service.CallsService.WithdrawFundedCall | src/calls/CallsService.ts:847-850 | Withdrawn once; a second time changes nothing |
| Service.CallsService.RestoreFundedCall | src/calls/CallsService.ts:928-934 | Shows an expired or kept-free call exactly when its owner has nothing live on the market, and keeps the ledger invariant |
| Timeliness.RestoringIsTimelyIff | src/calls/CallsService.ts:928-934 | A call that passes the restore guard may be shown without costing a row if and only if its owner has locked nothing later on the market |
| Timeliness.AnsweringIsTimely | src/calls/CallsService.ts:459-532 | With the clock ahead, the lock and the answer of a back or fade are each admitted by the durability machine as they are made |
| Service.CallsService.ReplaceFundedCallWithFree | src/calls/CallsService.ts:861-870 | Refused with nothing changed when validation refuses; past it, everything happens, or, exactly when the market has no price to stamp, it is refused with the old call already hidden |
| Service.KeepingFreeCanLoseTheCall | src/calls/CallsService.ts:861-870 | A call locked while its market had a price passes validation once the price is gone, and keeping it free then hides it and makes nothing |
| Service.ReplacementFits | src/calls/CallsService.ts:944-1000 | After validation and the withdrawal, the new call is refused for nothing but a missing price |
| Service.PlanMeansWhatItSays | src/calls/CallsService.ts:944-1000 | Validation passes exactly when the market takes calls, the person has nothing live there but what is replaced, and the target of a back or fade is somebody else's, visible, not private and not yet answered so; and the plan is what the words mean: the target's side to back, the other to fade, on its market |
| Service.PlanIsWhatWasAsked | src/calls/CallsService.ts:792-825 | What a plan is checked for when it is locked is what it was made from: where nothing has changed, validating it gives the same plan |
| Service.KeptFreeIsOneFreshCall | src/calls/CallsService.ts:861-870 | Keeping a call free leaves the old one hidden and one new live call of the person on that market, on the same side, for the same audience, with its answer |
| Feed.FeedRowsAre | src/calls/CallsService.ts:170-186 | The feed's rows are exactly the live calls the viewer may see, each once, newest first, and of one instant the later id first |
| Feed.FollowingOpensUnfollowingCloses | src/calls/CallsService.ts:693-703 | After following somebody a reader's feed has every live followers-only call of theirs that is not private; after unfollowing it has none, whomever they follow themselves |
| Feed.SignedOutReadsThePublic | src/calls/CallsService.ts:693-703 | A reader who is not signed in is shown exactly the live public calls that are not private |
| Feed.EveryReaderIsShown | src/calls/CallsService.ts:170-186 | A reader's own live calls and every public one are there; nobody else's private call is, no withdrawn one, none by somebody excluded, and among those followed nobody else's |
| Feed.MadeForFollowers | src/calls/CallsService.ts:615-670 | A call made for followers is shown to its author and their followers and to nobody else |
| Feed.PagingShowsEverythingOnce | src/calls/CallsService.ts:187-198 | Following the cursor from none shows each row once in order and takes n over limit pages, rounded up, one when there are none |
| Feed.ReadingThroughShowsEveryCallOnce | src/calls/CallsService.ts:170-198 | Whatever limit is asked for, reading the feed through shows every call the viewer may see, once each, newest first, and nothing else |
| Feed.PageCountRoundsUp | src/calls/CallsService.ts:187-198 | The page count is n over limit rounded up |
| Feed.NewCallGoesOnTop | src/calls/CallsService.ts:1019-1020 | A call locked after all others goes on top of the feeds that show it and leaves every other row where it was |
| Feed.GrowingFeedStillChains | src/calls/CallsService.ts:187-198 | Calls made between pages change no later page |
| Feed.ChangingFeedIsReadOnce | src/calls/CallsService.ts:187-198 | While calls are made, withdrawn and shown again between pages, and each cursor's own row is still shown when it is used, nothing is read twice, the reading is in order, and every call shown throughout is read |
| Feed.MissingRowStartsOver | src/calls/CallsService.ts:188-190 | When the cursor's row is no longer shown the reader starts over from the top |
| Feed.CursorRoundTrips | src/calls/CallsService.ts:1039-1054 | The cursor gives back the instant and id it was made from, colons in the id included |
| Records.RecordsByAuthor | src/calls/people.ts:174-187 | One pass over the calls gives every author the record a scan of their own calls gives, an absent author the empty one |
| Records.TallyIsHowMany | src/calls/people.ts:189-199 | A tally is how many counted calls came to each outcome; nothing is shed and nothing counted twice |
| Records.RecordAddsUp | src/notifications/record.ts:95-200 | A record's counts are how many of the person's own counted calls came to each outcome, resolved and decided add up, and an accuracy appears from ten decided calls on |
| Records.OneMoreCallCounts | src/calls/people.ts:152-199 | One more public free call moves its author's record by one under the outcome it came to, and nobody else's; a window counts it once resolved at or after its start |
| People.RanksAreOneToN | src/calls/people.ts:238-251 | Ranks are 1 to n, each held by somebody with enough decided calls |
| People.RanksFollowTheOrder | src/calls/people.ts:238-251 | Ranks go by score, then decided, correct and funded calls, then handle, each among those equal in all before; nobody holds two |
| People.TenDecidedIsRanked | src/calls/people.ts:224-251 | Everybody known with ten decided calls holds a rank |
| People.BuildingIsUnnumbered | src/calls/people.ts:252-257 | Whoever has decided calls, but fewer than ten, is listed without a number, the most decided first |
| People.OneMoreFundedCall | src/calls/people.ts:292-302 | One more public live funded call, not private and in the window, adds one to its author's count and to nobody else's |
| People.ViewerRowIsTheirOwn | src/calls/people.ts:258-271 | The viewer's own row is the ranked one when they are eligible, else their own counts without a rank, and says how many decided calls are missing |
| People.HidingNeverRenumbers | src/calls/people.ts:273-281 | Hiding people deletes their rows and nothing else: whoever is shown keeps the public rank, and somebody is left off only when better ranks fill the page |
| People.MoreCorrectRanksHigher | src/calls/people.ts:238-251 | On as many decided calls, more correct ones rank strictly higher |
| People.Leaderboard | src/calls/people.ts:212-285 | The loops over one pass of records give the ranked page, the unranked one and the viewer's own row |
| TopCalls.CandidatesAre | src/calls/people.ts:382-411 | The candidates are exactly the calls that can be answered, best first |
| TopCalls.CandidatesAreOpen | src/calls/people.ts:382-404 | Those are the live public calls by others, not hidden nor private, on markets that take new calls and have no resolution; volume counts their responses, and an author's evidence counts from ten decided calls |
| TopCalls.CandidatesCanBeAnswered | src/calls/people.ts:382-391 | Whatever is offered to a viewer is a call they may see and answer, on a market that takes the answer |
| TopCalls.CandidatesComeInOrder | src/calls/people.ts:402-411 | Funded first, then more responses, a better author, the newer call, the later id |
| TopCalls.EntrySays | src/calls/people.ts:426-441 | Backs and fades are counted apart for a viewer with a live call of their own on the market, and withheld from any other |
| TopCalls.PicksAreSpread | src/calls/people.ts:413-425 | The picks are on distinct markets, at most two by one author, and nobody unknown |
| TopCalls.PicksAreASubsequence | src/calls/people.ts:413-425 | The picks keep the candidates' order |
| TopCalls.PassedOverIsBlocked | src/calls/people.ts:413-425 | A candidate passed over before the limit is blocked by the picks made before it, and stays so |
| TopCalls.ListTopCalls | src/calls/people.ts:367-443 | The loop with its seen markets and per-author counts makes exactly the greedy choice |
| TopCalls.NoCrowdDirectionBeforeYourOwnCall | src/calls/people.ts:428-441 | Relabelling which way people answered changes nothing a viewer without a call on the listed markets sees |
| Suggestions.NobodyIsSuggestedTwice | src/calls/people.ts:490-513 | Nobody is suggested twice, nobody followed, hidden, deleted or already offered as a friend, nobody without a public free call, and never more than the limit; and nobody else is left out while there is room |
| Suggestions.FriendsAreNew | src/calls/people.ts:478-488 | Friends are offered with a record or without: each new to the viewer, once, within the limit, and none left out while there is room |
| Suggestions.ReasonsComeInOrder | src/calls/people.ts:503-511 | The ranked come before the authors of top calls, these before those building a record, then the recent callers |
| Suggestions.LatestIsTheNewestOpenCall | src/calls/people.ts:516-545 | The call on a card is the person's newest live public free call that can still be answered, and there is none only when they have none |
| Privacy.PrivateCallsAreErasedForOthers | src/calls/CallsService.ts:682-702 | Whichever private calls not made by the viewer are erased from the store, it shows that viewer the same feed, entries, crowd splits, records and top calls; the same leaderboard if and only if no tie on it turns on an erased call; and then the same suggestions |
| Privacy.OthersCanBeErased | src/calls/CallsService.ts:682-702 | Everybody else's private calls can be so erased for every viewer, and erasing them takes no call of the viewer's and no other call |
| Privacy.RecordUnmoved | src/calls/people.ts:152-199 | Everybody's record, in any window, is what it would be without any of the private calls |
| Privacy.RecordTellsOfPublicFreeCalls | src/calls/people.ts:152-199 | Nor does anybody's record tell of followers-only calls: it is what it would be with all of them erased |
| Privacy.OneMoreCallSplits | src/calls/CallsService.ts:682-690 | One more call that is not private adds one to its own side of the crowd split |
| Privacy.BoardUnmovedIff | src/calls/people.ts:212-285 | Erasing private calls leaves ranks and order as they are if and only if, of any two rows equal in everything the order compares, the same person's first call comes first with and without them |
| Privacy.DistinctHandlesSuffice | src/calls/people.ts:238-256 | It does when no two people share a handle |
| Privacy.SharedHandleShowsAPrivateCall | src/calls/people.ts:174-187 | Two people with one handle and one correct call each swap rows when the private first call of one of them is erased |
| Wilson.WilsonSolvesTheEquation | src/calls/people.ts:86-93 | The bound lies between zero and the ratio and solves n (p - w)^2 = z^2 w (1 - w); the floor at zero never applies |
| Wilson.WilsonIsTheSmallerRoot | src/calls/people.ts:86-93 | No smaller number solves the equation |
| Wilson.WilsonRisesWithCorrect | src/calls/people.ts:80-85 | More correct calls out of as many strictly raise it |
| Wilson.WilsonRisesWithDecided | src/calls/people.ts:80-85 | The same positive ratio over more calls strictly raises it |
| ModArith.Pow | src/auth/SolanaKey.ts:22-32 | Square and multiply computes the modular power |
| SolanaKey.DecodePoint | src/auth/SolanaKey.ts:39-64 | The byte loop, the two square-root branches and the sign make exactly the decoding specified |
| SolanaKey.CurveSolved | src/auth/SolanaKey.ts:47-50 | The curve equation holds if and only if v x^2 = u |
| SolanaKey.DecodeIsSound | src/auth/SolanaKey.ts:39-64 | Every accepted 32 bytes decode to a point of the curve, with reduced coordinates, whose encoding is those bytes |
| SolanaKey.DecodeIsComplete | src/auth/SolanaKey.ts:51-64 | Given Fermat for p and i^2 = -1, with d other than -1, every point of the curve is what its encoding decodes to |
| SolanaKey.MinusOneRefusesAPoint | src/auth/SolanaKey.ts:51-64 | With d = -1 the point (1, 1) is on the curve and its encoding is refused |
| SiwsMessage.ParseAndBuildUndoEachOther | src/auth/SiwsMessage.ts:132-194 | A message parses to fields if and only if they are well formed, it is their message byte for byte, and it is within the length limit |
| SiwsMessage.WellFormedSays | src/auth/SiwsMessage.ts:138-169 | Well formed is, character by character, a domain and address without white space, a statement, no line break, 64 lower-case hexadecimal digits and two existing UTC instants to the millisecond |
| SiwsMessage.LineChecksSuffice | src/auth/SiwsMessage.ts:188-192 | A message that passes the line checks is already canonical, so the final re-serialisation check never fires |
| SiwsMessage.BuildIsInjective | src/auth/SiwsMessage.ts:88-104 | Two well-formed sets of fields never share a message |
| SiwsMessage.VerifiesExactlyTheServersMessages | src/auth/SiwsMessage.ts:216-241 | A proof verifies if and only if its message is the one the server writes for the claimed address, purpose and network with an allowed domain and URI, in date and signed |
| WriteLimits.WriteLimiter.Take | src/api/writeLimits.ts:113-131 | One take is exactly the token step, the eviction loop included: a grant leaves as many keys as were touched, or the bound, and a refusal evicts none |
| WriteLimits.TakeEvictsTheOldest | src/api/writeLimits.ts:113-131 | The key goes last, the others keep their places and buckets, and a grant drops from the front exactly what is over the bound |
| WriteLimits.GrantsAreBounded | src/api/writeLimits.ts:113-131 | Over any history on any keys, a key not evicted is granted at most its capacity and what time earned |
| WriteLimits.RefusalIsDeserved | src/api/writeLimits.ts:113-124 | Over any history from a limiter that has not met the key, an attempt is refused only when, from some attempt of its own on, one more grant would exceed its capacity and what time earned |
| WriteLimits.FewKeysAreNotEvicted | src/api/writeLimits.ts:125-130 | Over a history touching no more keys than the bound no key is ever evicted |
| WriteLimits.FewKeysAreBounded | src/api/writeLimits.ts:113-131 | So there the bound on what is granted holds of every key |
| WriteLimits.FewKeysAreRewarded | src/api/writeLimits.ts:113-131 | And whoever was told to wait is granted again, early retries or not |
| WriteLimits.RefusalIsFree | src/api/writeLimits.ts:117-123 | A refused attempt leaves the level at every later instant what it would have been |
| WriteLimits.WaitIsEnoughAndNoLonger | src/api/writeLimits.ts:121-124 | Waiting the named time always yields a token, and no whole millisecond less does |
| WriteLimits.WaitingIsRewarded | src/api/writeLimits.ts:113-131 | Whoever waits as told is granted at the next attempt, whatever happened on other keys, unless evicted |
| WriteLimits.EarlyRetriesDoNotPostpone | src/api/writeLimits.ts:117-124 | Over any history, retrying early postpones nothing: of a refused key's attempts up to the first at or past the named instant, one is granted, unless the key is evicted |
| WriteLimits.TakeIsBounded | src/api/writeLimits.ts:125-130 | The map stays within its bound, what is evicted was touched least recently, and other keys keep their buckets |
| WriteLimits.SmallBucketsOutgrowTheBound | src/api/writeLimits.ts:121-124 | A bucket too small for one token adds keys without evicting any |
| SessionRollout.WalletLinkService.AuthenticateSession | src/auth/WalletLinkService.ts:212-258 | The refusals in order; a verified session gets into the account it has, by its own sign-in without a write, else with carry by what the database lands or carries over, and is unlinked exactly when there is none; without carry nothing is written |
| SessionRollout.WhoGetsIn | src/auth/WalletLinkService.ts:217-254 | A primary sign-in reaches its account, an additional one an account linking is on for; with carry an unlinked wallet session reaches what the database lands it on, where linking is on, else what it carries over; and nobody else gets in |
| SessionRollout.SignInsByRollout | src/auth/IdentityStore.ts:180-190 | A primary sign-in reaches its account under every rollout, an additional one everybody's, nobody's or that of those listed |
| SessionRollout.ReachedOnlyAsAllowed | src/auth/WalletLinkService.ts:224-252 | A session's account is its primary one, an additional or linked-wallet one that linking is on for, or the wallet's own carried profile |
| SessionRollout.StagedIsOffOutside | src/auth/WalletLinkService.ts:228-252 | With the wallet reader present, a session none of whose reachable accounts is in the rollout gets the answer, writes and tables of linking off |
| SessionRollout.StagedIsOnInside | src/auth/WalletLinkService.ts:228-252 | One all of whose are, and whose reader agrees with the database, gets the answer and tables of linking on |
| SessionRollout.WithoutTheReaderItWrites | src/auth/WalletLinkService.ts:238-243 | Without the wallet reader an outsider's first wallet sign-in asks the store to bind it, which linking off never does |

## Left out

- HTTP, tRPC wiring, schemas, the PostgREST transport and the Supabase, Privy, Crossmint and Solana clients: services that cannot be seen from here.
- The people directory inside the store, its hydration and its count in the hydration report, and handle lookup: rows only read.
- `resync`, the second venue-driven rebuild, and the `hydrated` flag: the restart step covers a rebuild from the tables.
- Foreign keys onto users and venue tables, the trigger that wants a call's market still open when its row arrives, CHECKs on enumerations and probabilities, and UUID syntax, on the database side: they are not among the constraints modelled. A write refused for one of these, with nothing failed before, is a write that fails, which the machine allows at any point.
- The SQL functions and triggers themselves: the constraints are those the repository's own stand-in for the database enforces (`tests/pgrestFake.ts:108-124`, `436-676`).
- The order of responses, results and updates in the store's maps: they are maps here, and no claim depends on their order.
- `localeCompare` is the order of code units, and string length is counted in characters, where the source counts UTF-16 units.
- Timestamps that do not parse, which stop a hydration as an unreadable price does: instants are numbers.
- Reading a cursor with `Number()` beyond plain decimal digits, and the base64url wrapping of the feed cursor.
- Floating-point rounding: probabilities, accuracies, tokens and the Wilson bound are reals, and the square root is any function that squares back.
- Receipts, notifications and copy text: projections of records proved about here.
- The money intents and their settlement: which calls are private is any predicate.
- The Edwards group law, and that eight times a point detects exactly the small-order ones: a development much larger than the file; `isUsableEd25519Key` beyond decoding is not part of this model.
- SHA-256, base58, ed25519 verification and `Date` parsing: any function.
- People search, the following list, invitations and market detail: filters and sorts of the kind modelled in the feed.
- `accuracyOf` and the totals it puts on a feed entry's author: a count over results, outside the privacy claim.
- The single-flight promise of the worker, and the catalog step before its targets: a pass whose catalog step failed polls and moves the cursor all the same; only a batch that breaks leaves it.
- SolanaKey.DecodeIsComplete: primality of the modulus enters as Fermat's little theorem, with i^2 = -1 as a hypothesis; that the numbers of ed25519 meet them is not shown.
- Privacy.PrivateCallsAreErasedForOthers: erasing leaves the responses as they are, so it says nothing of responses that target or result from a private call; of the suggestions it says that a board unmoved leaves them alone, not when a board that moved does.
- PollWorker.PendingMarketIsPolled: does not count a completed pass that ends on the empty id, as the exception beside it shows it must not.
- WriteLimits.TakeIsBounded: needs every bucket to hold at least one token, as the counterexample beside it shows.
