# RunDog, modelled and proved

RunDog is a tray program. This project models its durable core and proves how it behaves over
every run: settings commits that survive crashes, the usage store and its text format, event
deduplication, civil time and prices, and the schedulers around them. `dafny verify dfyconfig.toml`
checks everything.

## How it is laid out

Each stateful component has a value model (a datatype and functions), the imperative form of the
program (classes and methods whose new state equals the value model), and laws about whole runs.

* Settings commits: `CommitSaga` (values), `CommitProtocol` (store class, commit and recovery),
  `CommitLaws`, `SagaRuns`, `SagaOutcomes`. The store carries the environment as a tape: before each
  store call the clock may move to any value, a cancel may arrive and the call may fail; when the tape
  ends the process is dead, so every tape is a crash point and every clock is covered. `SettingsCodec`
  is the text of the record and the journal.
* The application on top: `AppModel`, `AppRuns`, `Application`.
* Deduplication: `DedupeModel`, `DedupeLaws`, `DedupeRuns`, `DedupeHistory`, `FileDedupeWindow`.
* The usage store: `UsageLines`, `UsageLineSyntax`, `UsageCodec`, `UsageCollectLaws`, `UsageCodecLaws`,
  `UsageStateCodec`, `UsageStateLaws`, `UsageDurable`; the registry checkpoint in `CheckpointCodec`,
  `CheckpointLaws`.
* Time and money: `Calendar`, `Timestamp`, `TimestampLaws`, `Pricing`, `PricingLaws`, `Money`.
* Schedulers and the log: `UpdatePolicy`, `UpdateRuns`, `UpdateScheduler`, `UpdateRelease`,
  `ChecksumManifest`, `FetchModel`, `FetchRuns`, `UsageFetch`, `Animation`, `AnimationRuns`, `BoundedLog`.

## What turned out conditional

* The generation bound of a commit fails when a request does not change the settings: each crashing
  recovery rolls back once more (`SagaRuns.EqualSettingsRunAway`, `SagaRuns.GenerationBoundExact`).
* The result of clearing the journal is ignored, so an acknowledged commit can still be unwound
  (`SagaOutcomes.AcknowledgedStaysExactly`).
* Memory and disk can part only when a rollback write is lost (`AppRuns.EventAgrees`).
* Recovery of the usage store promises the newest decodable state (`UsageDurable.RecoversUnpublished`).
* The comment on update checks says each version is announced once; only the last is remembered
  (`UpdateRuns.AnnouncedAgain`).
* The fetch module's comment promises single flight; a rejected late result clears the busy mark
  (`FetchRuns.BusyExactly`, `FetchRuns.SecondFlight`).
* The timestamp parser takes days past the month's end, second 60 and signed fields
  (`Calendar.RoundTripExact`, `TimestampLaws.ReadsBack`, `TimestampLaws.SignedFieldsPass`).
* A jump over several frame-rate bands that misses the margin of the highest one is not taken at all
  (`AnimationRuns.LargeJumpHeld`).

## Model

| member | source | states |
|---|---|---|
| CommitProtocol.CommitGate.WithClock | src/application/commit_protocol.rs:251-257 | a gate starts at the given clock with nothing cancelled or timed out |
| CommitProtocol.CommitGate.SetNow | src/application/commit_protocol.rs:259-261 | only the clock moves, to any value |
| CommitProtocol.CommitGate.Advance | src/application/commit_protocol.rs:263-265 | the clock advances, saturating; the marks stay |
| CommitProtocol.CommitGate.Cancel | src/application/commit_protocol.rs:267-269 | remembers the cancelled operation; one mark only |
| CommitProtocol.CommitGate.MarkTimedOut | src/application/commit_protocol.rs:271-273 | remembers the timed-out operation; one mark only |
| CommitProtocol.DurableStore.WriteRecord | src/windows/registry.rs:226-250 | a compare-and-swap on the generation: it lands exactly if the process lives, the call succeeds, no tombstone stands and the stored generation is the expected one; nothing else on disk changes |
| CommitProtocol.DurableStore.WritePending | src/application/commit_protocol.rs:49-60 | stores the journal whole or leaves the old one |
| CommitProtocol.DurableStore.ClearPending | src/application/commit_protocol.rs:49-60 | removes the journal or leaves it; the caller learns nothing |
| CommitProtocol.TerminalBlocked | src/application/commit_protocol.rs:63-75 | cancelled is reported before timed out, and a deadline is passed when the clock reaches it |
| CommitProtocol.RollBackTo | src/application/commit_protocol.rs:141-147 | the unwinding tail: the previous settings under the next generation and the same operation id, then the journal cleared, both results ignored |
| CommitProtocol.ExecuteCommit | src/application/commit_protocol.rs:87-181 | the whole commit, statement by statement, ends in the store and outcome of the value model `CommitSaga.Commit`, for every environment |
| CommitProtocol.CommitFromJournal | src/application/commit_protocol.rs:120-136 | from the durable journal on: a blocked commit clears the journal, a failed record write clears it and reports the old record |
| CommitProtocol.CommitFromRecord | src/application/commit_protocol.rs:138-165 | from the durable record on: a blocked commit or a failed Run entry write rolls the record back |
| CommitProtocol.AcknowledgeCommit | src/application/commit_protocol.rs:167-181 | after the Run entry a late deadline no longer unwinds; the journal clear is not checked |
| CommitProtocol.RecoverPending | src/application/commit_protocol.rs:185-239 | the whole recovery equals the value model `CommitSaga.Recover` for every environment |
| CommitProtocol.RecoverUnexpired | src/application/commit_protocol.rs:218-239 | a live journal whose record is visible syncs the Run entry or rolls back; otherwise the journal is dropped |
| CommitProtocol.SaveSettings | src/windows/registry.rs:253-262 | the exit save writes the next generation under the current operation id, if it lands |
| CommitLaws.AcceptedLeaves | src/application/commit_protocol.rs:87-181 | one commit attempt cut off anywhere leaves the disk in one of the named stages, and an outcome reports exactly the record left in the store |
| CommitLaws.RecoverLeaves | src/application/commit_protocol.rs:185-239 | one recovery cut off anywhere leaves the disk in a named stage, and an outcome reports exactly the record left |
| SagaRuns.RunExplained | src/application/commit_protocol.rs:87-239 | over any run of commits, replays, crashes, restarts, recoveries, reconciles and exit saves the log of record writes is legal and replays to the stored record |
| SagaRuns.Monotone | src/application/commit_protocol.rs:87-239 | stored generation and last operation id never decrease over any run |
| SagaRuns.AtMostOnceCommit | formal/RunDogCurrentDuplicate.cfg:11 | no two landed installs of any run share an operation id; later ones carry larger ids and, below saturation, larger generations |
| SagaRuns.CrashAtomic | src/application/commit_protocol.rs:87-239 | from an empty journal a commit and any later recoveries, each cut off anywhere and under any clock, only ever store the previous or the desired settings, and with different ones the generation rises by at most two |
| SagaRuns.NothingPending | src/application/commit_protocol.rs:185-189 | without a journal, recoveries and reconciles change no record |
| SagaRuns.ExpiredRecoveryRollsBack | src/application/commit_protocol.rs:197-216 | a recovery after the deadline that dies before clearing the journal has rolled the record back and left the journal |
| SagaRuns.EqualSettingsRunAway | src/application/commit_protocol.rs:197-216 | when previous and desired settings coincide there is, for every bound, a run of crashing recoveries that raises the generation past it |
| SagaRuns.GenerationBoundExact | src/application/commit_protocol.rs:87-239 | the rise by at most two holds in every environment exactly when the request changes the settings |
| SagaOutcomes.FinishedCommit | src/application/commit_protocol.rs:87-181 | a commit that ran to its end without a lost rollback write leaves the record it reports |
| SagaOutcomes.UndisturbedCommitApplies | src/application/commit_protocol.rs:87-181 | an accepted commit with no failed call, cancel or passed deadline is applied: record, Run entry and empty journal |
| SagaOutcomes.RecoveryCompletes | src/application/commit_protocol.rs:185-239 | a recovery whose writes succeed leaves no journal |
| SagaOutcomes.LaunchAgrees | src/windows/mod.rs:117-119 | recovering and then reconciling, with writes that succeed, leaves no journal and a Run entry equal to the stored record, whatever was left behind |
| SagaOutcomes.AcknowledgedStaysExactly | src/application/commit_protocol.rs:167-181 | an acknowledged commit survives every later recovery exactly when its unchecked journal clear took effect |
| AppModel.HandleCommitCount | src/application/app.rs:178-228 | a commit result never asks for another commit and any other event asks for at most one, which bounds the event queue |
| Application.App.WithPersistence | src/application/app.rs:88-119 | the first state from the recovered settings, generation and operation id; the next id is one more |
| Application.App.Start | src/application/app.rs:152-176 | runs once; a second start does nothing |
| Application.App.Dispatch | src/application/app.rs:178-228 | the new state and the effects of every event are those of the value model |
| Application.App.Select | src/application/app.rs:303-355 | a menu choice is ignored while a commit is in flight or when it changes nothing |
| Application.App.BeginCommit | src/application/app.rs:357-379 | one commit request under the next operation id and the current generation; memory waits for the result |
| Application.App.FinishCommit | src/application/app.rs:381-461 | a result is taken only for the commit in flight; settings move only if applied, generation and id always |
| Application.App.Exit | src/application/app.rs:463-479 | exit cancels a commit in flight, stores the settings and stops |
| Application.EffectPort.Execute | src/application/ports.rs:86-104 | one effect on the port; a commit runs the protocol under the port clock plus its deadline and feeds the result back |
| Application.DispatchAndExecute | src/application/ports.rs:70-109 | the event queue loop terminates and ends in the state of the value model |
| Application.LaunchProcess | src/windows/mod.rs:115-123 | recover, repair the Run entry, build the application from what was recovered |
| Application.RunProcess | src/windows/mod.rs:115-123 | a whole process life: unless a step killed it or lost a rollback write, memory equals the stored record at the end |
| AppRuns.UndisturbedChangeApplies | src/application/app.rs:357-461 | a menu choice that nothing disturbs takes effect in memory, on disk and in the menus |
| AppRuns.EventAgrees | src/application/app.rs:178-228 | after any one event the application agrees with the store again exactly when no rollback write was lost, and the requested settings are in force exactly when the commit was applied |
| AppRuns.LaunchedAgrees | src/windows/mod.rs:117-123 | a launch agrees with the store however the recovery went |
| AppRuns.ExitedStays | src/application/app.rs:178-186 | an exited application ignores every event |
| AppRuns.RunAgrees | src/application/ports.rs:70-109 | for every event sequence, clock, cancel and failed write, nothing is pending after each dispatch while running, and settings, generation and last operation id equal the stored record, unless a rollback write was lost |
| AppRuns.LifeAgrees | src/windows/mod.rs:115-123 | the same from the recovery that starts the process |
| FileDedupeWindow.FileDedupeWindow.FromParts | src/core/usage_dedupe.rs:53-74 | the window restored from saved lists is the value model of them; duplicates keep their first place |
| FileDedupeWindow.FileDedupeWindow.Remember | src/core/usage_dedupe.rs:86-115 | queue, set, recent queue and pending map after one event, with both eviction loops; the flag says whether the key was new |
| FileDedupeWindow.FileDedupeWindow.ClearPending | src/core/usage_dedupe.rs:117-121 | drops the revisions only; the flag says whether there were any |
| FileDedupeWindow.FileDedupeWindow.RetainMonth | src/core/usage_dedupe.rs:123-131 | drops the keys of earlier months everywhere |
| FileDedupeWindow.FileDedupeWindow.PendingValues | src/core/usage_dedupe.rs:138-143 | the pending events in the order of the recent queue |
| DedupeLaws.RememberIs | src/core/usage_dedupe.rs:86-115 | one event keeps the four structures consistent, moves the key to the newest place and keeps exactly the newest keys and the revisions of the newest 32, told without the recent queue |
| DedupeRuns.RetainIs | src/core/usage_dedupe.rs:123-131 | the month filter keeps the structures consistent and filters order and revisions alone |
| DedupeRuns.FromPartsValid | src/core/usage_dedupe.rs:53-74 | any two lists restore to a consistent window |
| DedupeRuns.ReachableValid | src/core/usage_dedupe.rs:51-143 | every window restored from any lists and operated on in any way is consistent |
| DedupeRuns.RestoreSame | src/core/usage_dedupe.rs:53-74 | restoring what was saved gives the same window up to the recent queue |
| DedupeRuns.RestoreInvisible | src/core/usage_dedupe.rs:51-143 | saving and restoring at any moment of any history is not observable by contains, pending or the saved lists after any further operations |
| DedupeHistory.NewestExactly | src/core/usage_dedupe.rs:86-115 | a key is among the newest n exactly when fewer than n other keys were used since its last use |
| DedupeHistory.LeastRecentlyUsed | src/core/usage_dedupe.rs:86-115 | for every cap, a key is contained exactly while fewer than cap others were used since, and its revision held exactly if its last use carried one and fewer than 32 (and cap) were |
| DedupeHistory.SavesCleanly | src/core/usage_state.rs:489-514 | the saved lists of every reachable capped window pass every check of the decoder |
| DedupeHistory.PruneCommutes | src/core/usage_state.rs:552-560 | pruning the saved lists by month and restoring is restoring and then dropping the month |
| Text.StripPrefixIsSplitOnce | src/core/usage_state.rs:326-457 | testing a line for key and equals sign is splitting it once at the first equals sign |
| Text.HexRoundTrip | src/core/usage_dedupe.rs:178-183 | a digest reads back from its sixteen hexadecimal digits |
| UsageLineSyntax.LineRoundTrip | src/core/usage_state.rs:603-723 | every well-formed line of every kind is read back as written |
| UsageCodecLaws.RoundTripExact | src/core/usage_state.rs:143-550 | a state with well-formed cursors decodes to its canonical form exactly when schema and money totals are acceptable, and is refused otherwise |
| UsageCodecLaws.RoundTrip | src/core/usage_state.rs:143-550 | every well-formed state decodes to itself with cursors by kind and id, days in order, unsafe models dropped and nanos filled in |
| UsageCodecLaws.EncodeCanon | src/core/usage_state.rs:143-288 | encoding the canonical form gives the same text |
| UsageCodecLaws.EncodesInOrder | src/core/usage_state.rs:595-601 | encoded cursors come Claude before Codex, each by id |
| UsageStateCodec.EncodeState | src/core/usage_state.rs:143-288 | the appending encoder writes the text of the value model |
| UsageStateCodec.DecodeState | src/core/usage_state.rs:290-550 | the line-by-line decoder with its side tables returns what the value model returns |
| UsageStateCodec.CompleteCursors | src/core/usage_state.rs:459-514 | the side tables are joined onto the cursors, or refused |
| UsageStateCodec.TakeMonths | src/core/usage_state.rs:459-464 | each cursor takes its month; one left over refuses the payload |
| UsageStateCodec.TakeLists | src/core/usage_state.rs:489-514 | each cursor takes its lists if consistent; one left over refuses the payload |
| UsageStateLaws.WindowsSaveCleanly | src/core/usage_state.rs:408-430 | a cursor whose window was opened, used in any way under its cap and saved again stays decodable |
| UsageStateLaws.Prune | src/core/usage_state.rs:552-560 | the in-place month rollover equals the value model and keeps everything else |
| UsageStateLaws.PruneKeepsWf | src/core/usage_state.rs:552-560 | a month rollover never makes a decodable state undecodable |
| UsageStateLaws.PrunedCursorReopens | src/core/usage_state.rs:552-560 | pruning a saved cursor and opening its window is opening it and dropping the month, for everything that follows |
| Money.PersistedNanosAccepted | src/core/usage_state.rs:563-593 | stored nanos are accepted back exactly when missing or rounding to the cents beside them, and filling them in twice changes nothing |
| UsageDurable.MemoryBlobs.WriteBlob | src/core/usage_durable.rs:44-50 | a blob is written whole or not at all |
| UsageDurable.MemoryBlobs.WriteCurrent | src/core/usage_durable.rs:56-62 | the pointer moves or stays |
| UsageDurable.PersistUsageState | src/core/usage_durable.rs:74-97 | the next generation above everything known is written, then published; an exhausted generation writes nothing |
| UsageDurable.LoadUsageState | src/core/usage_durable.rs:99-121 | current, else recovery from the pointer or from the highest blob |
| UsageDurable.RecoverPriorStored | src/core/usage_durable.rs:130-146 | the backward loop terminates and returns the greatest decodable prior generation in reach |
| UsageDurable.RecoveryIsMaximal | src/core/usage_durable.rs:99-146 | recovery returns the greatest usable generation of the eight before the requested one, and nothing only if none is usable |
| UsageDurable.PersistAppends | src/core/usage_durable.rs:74-97 | a new generation is above every stored one, the pointer and the state, and no stored blob changes |
| UsageDurable.BlobsPersist | src/core/usage_durable.rs:74-97 | over any attempts with any failures no blob is ever overwritten |
| UsageDurable.AppliedLoads | src/core/usage_durable.rs:74-121 | an acknowledged save loads as the canonical form of what was saved |
| UsageDurable.FailedLoadsAsBefore | src/core/usage_durable.rs:74-121 | a failed save after an acknowledged one changes nothing that is loaded |
| UsageDurable.LoadsLastApplied | src/core/usage_durable.rs:74-128 | from any store, however damaged, and any attempts: once one was acknowledged, loading returns the canonical form of the last acknowledged state |
| UsageDurable.RecoversUnpublished | src/core/usage_durable.rs:99-146 | recovery can return a state whose publication failed: it promises the newest decodable, not the last acknowledged |
| Calendar.DateRoundTrip | src/core/usage.rs:867-918 | `days_to_ymd` inverts the day number of every valid Gregorian date |
| Calendar.DayRoundTrip | src/core/usage.rs:906-918 | every day number is read as a valid date with that number |
| Calendar.RoundTripExact | src/core/usage.rs:867-883 | a date is read back exactly when it exists: the day is not checked against the month |
| Calendar.OverlongDayRollsOver | src/core/usage.rs:867-883 | a day past its month is the matching later day |
| Calendar.ThirtiethOfFebruary | src/core/usage.rs:868-870 | 30 February 2026 is accepted as 2 March |
| Calendar.NextDayIsNextNumber | src/core/usage.rs:867-883 | successive dates have successive numbers, across months, leap days and years |
| Calendar.SuccessorDay | src/core/usage.rs:906-918 | `days_to_ymd(n + 1)` is the calendar successor of `days_to_ymd(n)` for every n, and day 0 is 1 January 1970 |
| Calendar.EpochDaysExact | src/core/usage.rs:882-882 | the unsigned result is the day number exactly from 1970 on |
| Calendar.KeyFitsExact | src/core/usage.rs:893-895 | the day key does not wrap exactly for the years 0 to 429 496 |
| Calendar.LocalYearFits | src/core/usage.rs:886-890 | the year of every local day fits its 32-bit field |
| Calendar.KeyOrdersDates | src/core/usage.rs:893-895 | day keys that fit compare as the dates do |
| Calendar.LocalDayKeyMonotone | src/core/usage.rs:886-895 | as time advances the local day key never decreases and stands still exactly within a local day |
| Timestamp.ScanDigits | src/core/usage.rs:805-816 | the fraction loop keeps the first three digits and counts all |
| Timestamp.PadMillis | src/core/usage.rs:820-822 | missing digits count as zeros |
| Timestamp.ScanFraction | src/core/usage.rs:805-823 | milliseconds and the rest of the text; a point without digits is refused |
| Timestamp.ParseRfc3339Ms | src/core/usage.rs:782-836 | the field-by-field parser equals its one-expression form |
| TimestampLaws.ParsesInstant | src/core/usage.rs:782-836 | every date-time text of section 5.6 of RFC 3339 with the offsets accepted here is read as its UTC instant, or refused exactly when its civil day or its instant is before 1970 |
| TimestampLaws.ReadsBack | src/core/usage.rs:886-902 | the local clock at the negated offset shows the written date, hour and minute exactly when the date exists and the second is not 60 |
| TimestampLaws.AcceptedIsWritten | src/core/usage.rs:782-861 | every accepted text without signs inside its number fields is such a date-time |
| TimestampLaws.WrittenIsSignless | src/core/usage.rs:782-861 | and those texts have no such signs, so this is the exact difference |
| TimestampLaws.SignedFieldsPass | src/core/usage.rs:796-797 | a leading zero of month or day may be a plus sign, outside RFC 3339 |
| Pricing.CostNanos | src/core/usage.rs:448-487 | the accumulating loop returns the exact sum of all charges, or nothing if a rate is no price or the sum passes 64 bits; the 128-bit saturation is never visible |
| Pricing.Accumulate | src/core/usage.rs:452-487 | the same for any list of charges |
| PricingLaws.CostAdditive | src/core/usage.rs:448-487 | for a fixed price the cost of summed usage is the sum of the costs, and exists exactly when both do and it fits |
| PricingLaws.ListedIs | src/core/usage.rs:650-660 | an exact name wins; otherwise a matching entry that no matching key exceeds; nothing exactly when nothing matches |
| PricingLaws.SuffixedIsLong | src/core/usage.rs:745-756 | a name priced by a tiered entry, dated or not, is priced by its long-context SKU once the suffix is appended |
| PricingLaws.LongTierAgrees | src/core/usage.rs:559-576 | for every usage, marking all tokens long-context under the tier costs what the long-context entry charges |
| PricingLaws.LongPromptCosts | src/core/usage.rs:712-727 | the same through the price table for every name resolving to `claude-haiku-5-5`, on every day, and the suffix is never appended twice |
| PricingLaws.IsoOrder | src/core/usage.rs:739-741 | days written as text compare as the dates |
| PricingLaws.RevisionsStartOnTheirDay | src/core/usage.rs:665-687 | each dated price revision holds from its calendar day on and not before |
| Money.RoundingError | src/core/usage.rs:438-441 | rounding a total once errs by at most half a cent below the cap |
| UpdateScheduler.UpdateSchedule.constructor | src/update.rs:59-69 | a new schedule is due at once |
| UpdateScheduler.UpdateSchedule.IsDue | src/update.rs:79-83 | due when idle, not cancelled, and the clock has reached the due time or moved back before it was set |
| UpdateScheduler.UpdateSchedule.Begin | src/update.rs:86-90 | records who started the check |
| UpdateScheduler.UpdateSchedule.AwaitingResult | src/update.rs:95-97 | whether a started check still waits; a late or duplicate result finds none |
| UpdateScheduler.UpdateSchedule.Complete | src/update.rs:102-141 | consumes the check, reschedules and decides, as the value model |
| UpdateScheduler.UpdateSchedule.InstallFailed | src/update.rs:144-148 | a failed install backs off like a failed check |
| UpdateScheduler.UpdateSchedule.Cancel | src/update.rs:150-153 | nothing is awaited or due afterwards |
| UpdateScheduler.UpdateSchedule.Fail | src/update.rs:164-174 | one more failure and its doubled, capped wait |
| UpdateRuns.HistoryIs | src/update.rs:71-181 | over any history the fields are the awaited check, the last available version, the failure streak and whether it was cancelled |
| UpdateRuns.InstallExactly | src/update.rs:128-134 | an install starts exactly for an available version found by the awaited automatic check, with the setting on at completion, before any cancel |
| UpdateRuns.AnnounceExactly | src/update.rs:118-141 | manual checks announce every result, others only a version different from the last one found |
| UpdateRuns.OneInstallPerCheck | src/update.rs:92-97 | a second result for one check never installs |
| UpdateRuns.AnnouncedAgain | src/update.rs:49-51 | a version is announced again after a different one, so "once" holds only for the last |
| UpdateRuns.BackoffIs | src/update.rs:166-169 | five minutes doubled per failure, at most the hour |
| UpdateRuns.NextDueIs | src/update.rs:155-180 | the exact next due time after any history, between 5 minutes and the longer of an hour and the server wait plus 5 minutes |
| UpdateRuns.IdleWithinWindow | src/update.rs:79-83 | for any clock, also backwards: idle and not due means the last report is not later and the longest wait has not passed |
| UpdateRuns.ServerWaitBounded | src/update.rs:187-211 | a rate-limited answer waits at most six hours and never for the past |
| UpdateRelease.Parse | src/update.rs:254-279 | the component loop equals splitting into exactly three components |
| UpdateRelease.ParseExact | src/update.rs:254-298 | a text is a version exactly if it is its displayed form, with or without `v` |
| UpdateRelease.SelectExactly | src/update.rs:364-409 | an update is offered exactly for a published stable release, strictly newer, with one installer and one checksum at its own addresses |
| UpdateRelease.AddressExact | src/update.rs:487-528 | for a version tag the two address checks accept exactly one address |
| UpdateRelease.SelectedIsDownloadable | src/update.rs:449-458 | what was selected passes the second check and its path is the rest of the address |
| ChecksumManifest.ParseChecksumManifest | src/update.rs:413-445 | the line scan answers for all installer entries at once: one well-formed entry is the digest, otherwise the first malformed one or the second entry decides the error |
| ChecksumManifest.ConventionalLine | src/update.rs:413-445 | a line as checksum tools write it, with either mark, is an entry with that digest in lower case |
| UsageFetch.StartFetch | src/core/usage_fetch.rs:112-117 | the next generation, in flight since now |
| UsageFetch.FinishFetch | src/core/usage_fetch.rs:146-166 | applies, records or rejects; the slot is free in every case |
| UsageFetch.CancelFetch | src/core/usage_fetch.rs:181-186 | the generation moves on and the slot is free |
| UsageFetch.RecordSpawnFailure | src/core/usage_fetch.rs:190-195 | a failed spawn frees the slot and backs off |
| FetchRuns.SupersededIsRejected | src/core/usage_fetch.rs:120-143 | below saturation nothing issued before a cancel or a newer start is ever accepted afterwards |
| FetchRuns.CancelExact | src/core/usage_fetch.rs:181-183 | a cancel supersedes the current worker exactly below saturation |
| FetchRuns.AcceptedExactly | src/core/usage_fetch.rs:120-143 | an echoed generation is accepted exactly while its start is the last word on the generation |
| FetchRuns.FreshnessIs | src/core/usage_fetch.rs:146-178 | limits are current exactly while the last word on them is an applied success, and only applied successes move the success, observation and reset times |
| FetchRuns.BackoffIs | src/core/usage_fetch.rs:87-93 | over any history the backoff is 0 or 30 s doubled per failure since the last success, at most 15 minutes |
| FetchRuns.RetryExactly | src/core/usage_fetch.rs:96-109 | after an error the next start is allowed exactly after that backoff from the last start |
| FetchRuns.BusyExactly | src/core/usage_fetch.rs:146-147 | the busy mark lasts exactly until the current worker reports or any late result arrives |
| FetchRuns.SecondFlight | src/core/usage_fetch.rs:146-147 | so single flight fails: a cancelled worker reporting late lets a second start join a running one |
| Animation.AnimationController.UpdateLoad | src/core/animation.rs:119-138 | one sample: the new rate and the requested timer interval |
| Animation.AnimationController.ChangeLimit | src/core/animation.rs:143-157 | a lower cap acts at once, a higher one through the hysteresis |
| Animation.DesiredIs | src/core/animation.rs:160-169 | the desired rate is the greatest band within the limit whose minimum the load reaches |
| AnimationRuns.RateIsABand | src/core/animation.rs:119-157 | after any run the rate is a table band within the limit |
| AnimationRuns.OppositeChangesApart | src/core/animation.rs:172-185 | between limit changes, a fall after a rise is more than four points lower and a rise after a fall more than two points higher |
| AnimationRuns.WanderingLoadSettles | src/core/animation.rs:119-138 | a load wandering within two points moves the rate in one direction only |
| AnimationRuns.HeldExactly | src/core/animation.rs:119-138 | a sample leaves the rate off its band exactly within the margin of the whole jump |
| AnimationRuns.LargeJumpHeld | src/core/animation.rs:126-134 | a load reaching 91 at once stays at 5 frames, while one passing 89 first is at 30 |
| BoundedLog.BoundedLog | src/windows/run_history.rs:258-279 | the output is the kept lines, the fitted line and a newline, within any positive limit |
| BoundedLog.KeptIsLongest | src/windows/run_history.rs:264-274 | what is kept is everything if it fits, else the longest line-aligned end shorter than the room |
| BoundedLog.LogIsRecentHistory | src/windows/run_history.rs:258-279 | after any appends of lines shorter than the limit the file is within it, ends with the newest line and is a line-aligned end of everything written |
| BoundedLog.LongLineCut | src/windows/run_history.rs:259-263 | a line that does not fit is cut at its front and nothing else is kept |
| SettingsCodec.RecordRoundTrip | src/core/settings.rs:76-184 | every record decodes from its own text, and from each of the three older formats with the defaults of what they lack |
| SettingsCodec.JournalRoundTrip | src/core/settings.rs:205-385 | the same for the pending journal and its two older formats |
| CheckpointCodec.Encode | src/core/usage_checkpoint.rs:40-108 | the appending encoder writes the files by kind and path |
| CheckpointCodec.Decode | src/core/usage_checkpoint.rs:111-207 | the line loop equals reading all lines |
| CheckpointCodec.SortedIdsIs | src/core/usage_checkpoint.rs:242-247 | the files are written in strictly increasing order, each once |
| CheckpointLaws.CheckpointRoundTrip | src/core/usage_checkpoint.rs:40-207 | totals and files come back, exactly when catch-up is done and nanos agree with cents; otherwise the text is refused |
| CheckpointLaws.CheckpointStable | src/core/usage_checkpoint.rs:40-207 | what was decoded is decoded again unchanged after encoding |
| CheckpointLaws.MigrationSaves | src/core/usage_state.rs:96-141 | a decoded checkpoint with non-empty paths migrates to a state the state codec keeps |

## Left out

- Win32: windows, tray, painting, counters, registry calls and directory handles are foreign calls.
- The JSONL collector, the HTTP adapters and the cache snapshot reader are not part of this model.
- A single store call is atomic: a registry value written in part, or a tombstone appearing in the middle of a commit, is not modelled.
- Threads: a worker is an event that may come late, twice or never.
- Event digests and group keys are opaque numbers; nothing is said about collisions.
- Animation, samplers, tooltips and icons inside the application state, and every effect that shows them: presentation.
- Plan names, limit labels, number formatting, menu text and diagnostics: presentation.
- Floating point: loads and dollar rates are reals; the rounding of a rate to nanodollars is modelled, that of binary fractions is not.
- Text is a sequence of characters; the timestamp and release texts are their bytes. Unicode beyond white space is not interpreted.
- The wrap-around of 64-bit local time: callers of the local date and clock stay within the signed range.
- The older checkpoint formats are refused by the program and have no reader here.
- `claude_pricing_model` for models other than the tiered one, and the Codex alias table: constants.
- Memory, storage and GPU percentages, sparkline rings, frame cursor: easy members.
- UpdateRuns.NextDueIs: assumes that now plus the longest wait fits 64 bits; beyond, the due time saturates.
- Calendar.EpochDaysExact: stated for years within 400 000 of zero, which contains every year the parser reads.
- CheckpointLaws.CheckpointRoundTrip: paths with tabs or newlines are excluded; the format does not escape them.
- UsageCodecLaws.RoundTripExact: ids with tabs or newlines are excluded; the format does not escape them.
- UsageDurable.AppliedLoads: the long-context cache subsets of a pending revision are not written by the format and come back as zero.
- AppRuns.RunAgrees: a run in which a step kills the process or loses a rollback write is covered by the saga theorems, not by this one.
