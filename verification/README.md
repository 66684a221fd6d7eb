# Hulation in Dafny

Hulation is a web analytics and site-hosting server with a command-line client.
This project models the parts of it that are protocols, interpreters or caches,
and proves what they promise for every input, every interleaving and every run.

| file | what it models |
|---|---|
| `HunkHeader.dfy`, `UnifiedDiff.dfy` | the unified-diff applier behind PATCH on staged files: the nested-loop interpreter, its header parser, and when it succeeds |
| `EditScript.dfy`, `DiffFiles.dfy` | edit scripts printed in the "Diff -u or -U Output Format" of POSIX diff, applied and reversed, on lines and on whole texts |
| `RangePatch.dfy` | the byte-range PATCH, with the inclusive ranges of section 14.1.2 of RFC 9110 |
| `AutoBuild.dfy` | the client's debounced auto-build protocol: timer, lock, callbacks, builds and 409 refusals |
| `MountSync.dfy` | the client's local-wins bidirectional sync of two file trees |
| `Consent.dfy`, `Bounces.dfy` | consent resolution, and the bounce map that carries its decisions from the request handlers to the writer |
| `ChatReplay.dfy` | a visitor connecting to a chat (subscribe, history, live queue) while agents send |
| `BadActor.dfy`, `LookupLimiter.dfy` | the bad-actor score store against its call history; the limiter of address lookups |
| `Ddns.dfy` | the dynamic-DNS updater's cache against the log of provider calls |
| `Manifest.dfy` | the canonical text of a widget manifest, and that it determines the manifest |
| `LogLines.dfy`, `HookRace.dfy`, `TagMask.dfy` | the chunked line splitter, the race for a hook's callback, the bits of log tags |
| `Text.dfy` | splitting, joining, trimming and 64-bit decimals, which the above are built on |

Code that updates state in place is a class or a method with loops, tied by its
postconditions to a function of the old state. Concurrent code is also a system
of atomic steps, with the same functions as its transitions; the theorems are
about all runs of that system. Clocks, detected addresses, provider answers,
signatures, iteration orders of maps and the choices of a scheduler are
parameters, so every theorem holds for all of them.

Some properties that one would expect are false of the code. Each has the input
that shows it and the exact condition under which the code does meet it:

- a hunk that only inserts is put one line early, since the header's count is not
  used: `EditScript.InsertionComesEarly`, exact condition in
  `EditScript.PrintedScriptApplies`;
- the trailing newline is restored wrongly when the last line is empty or no line
  is left: `DiffFiles.NewlineIsLost`, exact condition in
  `DiffFiles.DiffTurnsOldIntoNew`;
- a diff that adds or drops the final newline leaves the ending as it was:
  `DiffFiles.EndingIsKept`, exact condition in `DiffFiles.DiffTurnsOldIntoNew`;
- the largest byte range overflows: `RangePatch.WholeRangeOverflows`, exact
  condition in `RangePatch.PatchWritesTheRange`;
- with no new change and no refusal the client may still build for ever, when a
  waiting callback launches before the finished build has scheduled:
  `AutoBuild.BuildsForEver`, exact bound in `AutoBuild.SettlesUnlessHasty`;
- a build that fails is not tried again: `AutoBuild.FailedBuildIsFinal`, exact
  condition in `AutoBuild.NoChangeIsLost`;
- a sync run again may upload again, depending on clocks: `MountSync.SentAgain`,
  exact condition in `MountSync.RerunTransfersNothing`;
- a bounce claimed while the sweeper removes it is written twice:
  `Bounces.RaceWritesTwice`, exact bound in `Bounces.WrittenAtMostOnce`;
- in that race a page view may mix the server of one request with the flags of
  another: `Bounces.RaceMixes`; without it `Bounces.ViewsAreConsented` holds;
- a noscript page view may be reported to a server other than the one it is stored
  under: `Bounces.ReportedElsewhere`, exact condition in
  `Bounces.ReportedWhereStored`;
- messages beyond the history limit are lost, and so are messages sent to a full
  buffer: `ChatReplay.OverLimitLoses`, `ChatReplay.FullBufferLoses`, exact condition
  in `ChatReplay.LostExactly`;
- messages of the same millisecond may be replayed out of order:
  `ChatReplay.SameTimeSwaps`, exact condition in `ChatReplay.InOrderExactlyWhen`;
- an expired score still counts when a request is checked:
  `BadActor.ExpiredScoreBlocks`, exact conditions in `BadActor.ExpiredScoreCounts`
  and `BadActor.ExpiredScoreDecides`;
- the reply to an empty body on an open range is a range that the parser rejects:
  `RangePatch.OpenRangeTakesAll`;
- the 64th log tag has no bit and cannot be blocked:
  `TagMask.LastNameIsNotBlocked`, exact effect in `TagMask.PassesExactly`.

## Model

| member | source | states |
|---|---|---|
| `HunkHeader.HeaderExactlyWhen` | handler/staging.go:644 | a line is a header if and only if it starts with two at-signs |
| `HunkHeader.RangeParsesExactlyWhen` | handler/staging.go:760-777 | a range parses if and only if it is a decimal, with the count one, or two decimals with a comma between them |
| `HunkHeader.ParsesExactlyWhen` | handler/staging.go:727-756 | a header parses if and only if two signed ranges follow, separated by one blank, and gives their start lines, a zero counting as one |
| `HunkHeader.PrintParses` | handler/staging.go:727-777 | a header printed as POSIX diff prints it, with any section text after it, is recognised and parses back to its two start lines, an omitted count and a zero start included |
| `HunkHeader.PrintTarget` | handler/staging.go:648-656 | the line at which the applier starts a printed hunk, computed in 64 bits: the hunk's place, except one line early for a hunk without old lines |
| `UnifiedDiff.CopyUpTo` | handler/staging.go:654-663 | the copy loop before a hunk appends exactly the original lines up to the target, or reports the overlap or the overrun |
| `UnifiedDiff.RunLine` | handler/staging.go:668-705 | one body line replays as context (a blank one too), removal, addition, a line to skip, or an error, agreeing with the reference replay of all the lines that follow |
| `UnifiedDiff.RunHunk` | handler/staging.go:665-706 | the inner loop stops at the next header or the end, within range, having replayed its lines |
| `UnifiedDiff.ApplyUnifiedDiff` | handler/staging.go:621-720 | both loops end, stay in range and compute the reference result on texts, errors included, for every pair of inputs |
| `DiffSuccess.AppliesExactlyWhen` | handler/staging.go:638-720 | a diff applies if and only if every header parses, hunks move forward within the file and every context and removed line equals the original at its place; the result is the original with the hunks' new sides spliced in and has the original's length plus additions minus removals |
| `EditScript.PrintedScriptApplies` | handler/staging.go:621-777 | for every edit script between two line sequences, cut into hunks and printed with decimal headers after any file-header lines, applying the print to the old lines gives the new lines if and only if each insert-only hunk is one whose early placement cannot be seen |
| `EditScript.AnchoredIsPlaceable` | handler/staging.go:652-668 | scripts whose hunks each keep or drop a line, or insert at the very top, always meet that condition |
| `EditScript.AnyTwoFiles` | handler/staging.go:616-621 | between any two files there is such a script, so a diff that applies always exists |
| `EditScript.InsertionComesEarly` | handler/staging.go:652-663 | inserting after line 1 with an insert-only hunk gives the line before line 1 |
| `EditScript.ReversePrints` | handler/staging.go:722-756 | a script's printed hunks, turned round line by line (ranges exchanged in each header, signs swapped in each body line), are the printed hunks of the reversed script, with the shifts accumulated over all hunks |
| `EditScript.ReversedDiffUndoes` | handler/staging.go:621-756 | after a diff that applied, that same text turned round, below any file-header lines, restores the original lines if and only if the reversed script is placeable |
| `DiffFiles.EveryTextIsAFile` | handler/staging.go:622-630 | splitting off lines and the trailing newline loses nothing: every text is the text of its lines |
| `DiffFiles.EveryTextIsADiff` | handler/staging.go:632-636 | the lines read from a diff text, with or without a final newline, are exactly the lines of that text |
| `DiffFiles.RejoinExactlyWhen` | handler/staging.go:715-719 | the rejoined text is the text of the lines if and only if, for a terminated file, some line is left and the last of several is not empty |
| `DiffFiles.DiffTurnsOldIntoNew` | handler/staging.go:621-720 | on whole texts, the printed diff, with its notes on missing newlines and with or without a final newline of its own, turns the old text into the new one if and only if the script is placeable, both texts end in a newline or both do not, and the newline can be restored |
| `DiffFiles.ReversedDiffRestores` | handler/staging.go:621-756 | on whole texts, after a diff that turned the old text into the new one, the same diff turned round restores the old text if and only if the reversed script is placeable and the old text's newline can be restored |
| `DiffFiles.EndingIsKept` | handler/staging.go:699-719 | a diff that adds the missing final newline leaves the text unchanged |
| `DiffFiles.NewlineIsLost` | handler/staging.go:715-719 | two originals and diffs, as texts, on which the newline comes out wrong, with the new texts they stand for |
| `RangePatch.PrintedRangeParses` | handler/staging.go:784-817 | a printed range header, as the client prints it, parses back to the same start and end for all 64-bit bounds, or is rejected if it ends before its start |
| `RangePatch.ParsesExactlyWhen` | handler/staging.go:784-817 | a header gives a range if and only if, trimmed, it is the unit, a first text without dash, a dash and a last text, of which the first is a decimal that is not negative and the last a decimal not below it or blank |
| `RangePatch.ParsedRangeIsProper` | handler/staging.go:784-817 | a header that parses gives a proper range: non-negative, not ending before its start, within 64 bits |
| `RangePatch.StagedFile.Patch` | handler/staging.go:472-532 | a rejected header changes nothing; otherwise the body is written at the start of the range, cut to its length, a short body is written and then reported as an error, and the reply names what was written |
| `RangePatch.PatchWritesTheRange` | handler/staging.go:512-532 | for a range the client prints, the reply is that range if and only if the body covers it and the count fits 64 bits; then exactly the bytes start..end are replaced and the file grows only as needed |
| `RangePatch.WholeRangeOverflows` | handler/staging.go:517-532 | the range from 0 to the largest 64-bit number writes nothing and is reported as 0 to -1 |
| `RangePatch.OpenRangeTakesAll` | handler/staging.go:512-532 | the header of a range without end parses to one, which takes the whole body, and the reported range parses to where it went; an empty body changes nothing, and the range reported for it does not parse |
| `AutoBuild.Mounter.ScheduleBuild` | client/staging_mount.go:125-137 | marks the build pending and arms the timer |
| `AutoBuild.Mounter.Elapse` | client/staging_mount.go:132-136 | the armed timer fires once and hands over to a callback |
| `AutoBuild.Mounter.TriggerBuild` | client/staging_mount.go:142-157 | launches exactly when none runs and one is pending, and takes the pending mark then |
| `AutoBuild.Mounter.FinishBuild` | client/staging_mount.go:160-189 | frees the slot and asks for another build after a 409 or when files changed meanwhile |
| `AutoBuild.NoChangeIsLost` | client/staging_mount.go:125-191 | in every interleaving of syncs, timer fires, callbacks, requests, answers and refusals at most one build is under way, and in every quiet state the last build not refused was requested after the last sync; the newest sync is then built if and only if that build did not fail |
| `AutoBuild.FailedBuildIsFinal` | client/staging_mount.go:173-189 | a run of one sync and one failing build that ends quiet with the sync not built |
| `AutoBuild.SettlesUnlessHasty` | client/staging_mount.go:142-191 | every run without new syncs and refusals is bounded by its first state and six times its hasty launches (a launch while a finished build has still to schedule); where nothing but such a launch can follow, the state is quiet and the newest sync was tried |
| `AutoBuild.SomeScheduleSettles` | client/staging_mount.go:125-191 | from every state that the invariant allows, some schedule without new syncs and refusals comes to rest with the newest sync tried |
| `AutoBuild.BuildsForEver` | client/staging_mount.go:173-189 | a run to a state in which everything is built, and six steps without sync or refusal, a build request among them, that lead back to it |
| `MountSync.Mount.EnsureRemoteDir` | client/staging_mount.go:709-732 | creates the missing directories above a path, parents first, and nothing else |
| `MountSync.Mount.UploadAll` | client/staging_mount.go:424-459 | in any iteration order the upload loop merges exactly the set of files to upload into the remote tree and counts them |
| `MountSync.Mount.DownloadAll` | client/staging_mount.go:462-487 | in any iteration order the download loop merges exactly the set of files to download into the local tree and counts them |
| `MountSync.Mount.MakeDirs` | client/staging_mount.go:490-497 | in any iteration order the last loop adds exactly the local-only directories and those above them |
| `MountSync.Mount.SyncBidirectional` | client/staging_mount.go:368-501 | the three loops, in any orders, end in the two merged trees, the same for every order; a declined merge of very different trees changes nothing |
| `MountSync.AsksExactlyWhen` | client/staging_mount.go:400-411 | the user is asked if and only if there is something remote and less than three tenths of all paths are on both sides |
| `MountSync.AsksAtTheEnds` | client/staging_mount.go:411 | equal trees never ask; trees without a common path ask unless there is nothing remote |
| `MountSync.SyncKeeps` | client/staging_mount.go:421-501 | path by path: no local entry is changed or removed and no remote one removed; a local file goes to the server if and only if it is neither temporary nor forbidden, replacing one of another size or an older time; a file that is only remote comes here if and only if it is neither temporary nor of a sensitive path |
| `MountSync.MountableAfter` | client/staging_mount.go:421-501 | a sync keeps both trees closed under parents and free of file/directory clashes |
| `MountSync.RerunTransfersNothing` | client/staging_mount.go:421-501 | a second sync transfers nothing if and only if uploads are stamped no earlier than the local files and downloads had a time to keep; then it changes nothing |
| `MountSync.SentAgain` | client/staging_mount.go:436-445 | two trees and a server clock that is behind, for which the second sync sends the file again |
| `Consent.ModeSpells` | handler/consent.go:54-57 | the mode is a name if and only if the configured text is that name in any letter case between any white space, a blank text counting as off |
| `Consent.OptsOutSays` | handler/consent.go:59 | the privacy header counts if and only if it says 1, perhaps between white space |
| `Consent.ResolveLaws` | handler/consent.go:53-118 | a request is blocked if and only if the server is configured as opt-in and there is no affirmative payload; a payload's flags are kept; without one the privacy header denies marketing and decides analytics by mode, and without either the mode decides both; the source names which decided |
| `Bounces.BounceMap.NewBounceWithVisitor` | model/bounces.go:136-151 | registers a new bounce, waiting, with its creator's data and callback |
| `Bounces.BounceMap.TakeBounce` | model/bounces.go:167 | takes the bounce out of the map if it is there; an unknown id changes nothing |
| `Bounces.BounceMap.MergeKeys` | model/bounces.go:169-173 | server and decision are overwritten with the claimer's, in either order of the keys |
| `Bounces.BounceMap.FinishMerge` | model/bounces.go:174-176 | the claimer's callback is set and the bounce goes on to the queue |
| `Bounces.BounceMap.ReportBounceBack` | model/bounces.go:166-182 | undisturbed, a claim takes the bounce, merges all its data and goes on to the queue; an unknown id is an error that changes nothing |
| `Bounces.MergeOrder` | model/bounces.go:169-173 | the two merge steps lead to the same state in either order |
| `Bounces.BounceMap.VisitStale` | model/bounces.go:270-272 | the sweeper looks at a waiting bounce |
| `Bounces.BounceMap.DeleteStale` | model/bounces.go:273-274 | the sweeper deletes the key, whoever has the bounce by then, and goes on to the queue |
| `Bounces.BounceMap.WriteOne` | model/bounces.go:205-219 | the oldest queued bounce has its callbacks run in order, each committing at most the page view that the other has not |
| `Bounces.CommitsExactlyWhen` | handler/visitor.go:227-263 | writing a bounce commits one page view, of its last server and flags, if and only if an unblocked URL was seen at creation or the claiming hello is a page view and none was committed |
| `Bounces.WrittenAtMostOnce` | model/bounces.go:136-281 | in every run each bounce is in exactly one of waiting, being sent, queued or written, so it is written once and has one page view at most; with a claim between the sweeper's look and its removal, two is the exact count |
| `Bounces.RaceWritesTwice` | model/bounces.go:270-281 | a run in which one bounce is written twice and has two page views |
| `Bounces.ViewsAreConsented` | handler/visitor.go:197-269 | in every run of the three handlers each page view, unless its bounce was claimed while being swept, carries the server and the flags of one and the same non-blocking decision, made by the request that created or claimed its own bounce, so for an opt-in server its analytics consent is true |
| `Bounces.RaceMixes` | model/bounces.go:166-176 | a run, for any two requests with different servers and flags, in which the writer comes while the claim merges and the view has the server of one and the flags of the other |
| `Bounces.ReportedWhereStored` | handler/visitor.go:556-570 | in every run a page view is reported to the server it is stored under if and only if it is not from the callback of a noscript bounce that had been handed to another server when it was written |
| `Bounces.ReportedElsewhere` | handler/visitor.go:556-570 | a run, for any two servers, in which the noscript bounce of one, claimed by a hello for the other, has its view stored under one and reported to the other |
| `Transcripts.ListingKeepsSenders` | pkg/chat/store.go:463-468 | a listing by time and id keeps a sender's messages in the order they were stored if and only if that is the order of times, and of ids at the same time |
| `Transcripts.DedupOverlap` | server/chat_ws_visitor.go:213-216 | a prefix followed by an overlapping stretch of the same transcript shows, with duplicates removed, exactly the longer prefix |
| `ChatReplay.Room.AgentAppends` | server/chat_ws_agent.go:285-289 | the message is stored before anything is published |
| `ChatReplay.Room.TakeSubscribers` | pkg/chat/hub.go:233-241 | publishing first takes the subscribers as they are, the visitor among them or not |
| `ChatReplay.Room.VisitorSubscribes` | server/chat_ws_visitor.go:188-193 | the visitor is subscribed before any history is read |
| `ChatReplay.HistoryLimit` | server/chat_ws_visitor.go:431-435 | the configured number up to the store's cap of a thousand, two hundred if none is configured, a hundred if it is zero in 32 bits |
| `ChatReplay.Room.ReplayHistory` | server/chat_ws_visitor.go:431-463 | the frame holds the first messages of the listing up to the limit, the default and the store's cap included |
| `ChatReplay.Room.SendToVisitor` | pkg/chat/hub.go:242-250 | the frame is queued if the subscriber list had the visitor and the buffer has room, else dropped |
| `ChatReplay.Room.WriteFrame` | server/chat_ws_visitor.go:376-388 | the writer delivers the oldest frame of the buffer |
| `ChatReplay.NoMessageIsLost` | server/chat_ws_visitor.go:192-225 | in every interleaving with any number of agents and any times, with the listing within its limit and no frame dropped, the visitor sees every published message, each once, and nothing that was not stored; only one just being published may be missing |
| `ChatReplay.InOrderExactlyWhen` | server/chat_ws_visitor.go:192-225 | they are seen in the order sent if and only if those stored by the time of the listing have ascending times, or ids at the same time |
| `ChatReplay.SameTimeSwaps` | pkg/chat/store.go:463-468 | a run in which two messages of the same millisecond are seen the other way round |
| `ChatReplay.LostExactly` | server/chat_ws_visitor.go:192-225 | whatever the limit, the dropped frames and the fate of the history, a published message is missing if and only if the listing does not have it below its limit and its subscribers were taken before the visitor subscribed or its own frame was dropped |
| `ChatReplay.LostBeyondLimit` | server/chat_ws_visitor.go:431-435 | with nothing dropped, it is missing if and only if its subscribers were taken before the visitor subscribed and its place in the listing is not below the limit |
| `ChatReplay.FullBufferLoses` | pkg/chat/hub.go:242-250 | a run in which a message sent to a full buffer is never shown |
| `ChatReplay.OverLimitLoses` | server/chat_ws_visitor.go:431-435 | a run with a limit of one message in which the second is lost |
| `BadActor.Store.RecordIncident` | badactor/badactor.go:288-324 | adds to an unexpired score or starts a new one, and ignores empty addresses, scores that are not positive and allowlisted addresses |
| `BadActor.Store.ManualInsertBlocked` | badactor/badactor.go:522-531 | sets the score to the threshold and renews the expiry |
| `BadActor.Store.EvictIP` | badactor/badactor.go:395-399 | removes the address's entry and no other |
| `BadActor.Store.AddToAllowlist` | badactor/badactor.go:442-446 | adds the address to the allowlist and leaves the scores alone |
| `BadActor.Store.RemoveFromAllowlist` | badactor/badactor.go:449-453 | removes the address from the allowlist and leaves the scores alone |
| `BadActor.Store.SweepExpired` | badactor/badactor.go:414-432 | the two loops remove exactly the entries that expired before now |
| `BadActor.Store.CheckKnownOnly` | badactor/badactor.go:346-357 | answers from the entry, and the networks on the allowlist play no part |
| `BadActor.Store.CheckAndBlock` | badactor/badactor.go:188-275 | the verdict and the new store, with the score of the entry as found before the lazy eviction |
| `BadActor.KnownIsJudged` | badactor/badactor.go:288-453 | from any store and over any calls with a clock that does not go back, the answer is a function of the history: the total of the last chain of hits, unbroken by expiry, against the threshold until the last hit's expiry, unless allowlisted or in a dry run |
| `BadActor.SweepsCanGo` | badactor/badactor.go:401-432 | a history gives the answers it would give without its sweeps |
| `BadActor.SweepsChangeNothing` | badactor/badactor.go:401-432 | two histories that differ only in sweeps give the same answers at all times |
| `BadActor.ClockMustNotGoBack` | badactor/badactor.go:414-432 | with a clock that goes back, a sweep does change an answer |
| `BadActor.ExcusedPasses` | badactor/badactor.go:189-201 | an address on the allowlist, by itself or by its network, is not blocked and nothing is recorded |
| `BadActor.KnownIsAnswered` | badactor/badactor.go:204-210 | an unexpired entry at the threshold gives the answer of the check of known addresses, dry run included, and nothing is recorded |
| `BadActor.RequestIsScored` | badactor/badactor.go:211-275 | any other request that matches is judged by the score found plus its matches, and until the new entry expires the check of known addresses answers by that score; one that matches nothing only removes an expired entry; other addresses are untouched |
| `BadActor.MatchesAddUp` | badactor/badactor.go:224-227 | the matches' total counts each match once |
| `BadActor.ReasonIsLast` | badactor/badactor.go:226-232 | the reason given is that of the last match that scores |
| `BadActor.NoReason` | badactor/badactor.go:225-233 | there is no reason if none scores |
| `BadActor.ExpiredScoreCounts` | badactor/badactor.go:204-251 | checking a request leaves another store than if expiry were respected if and only if the address is not excused, the request matches and its entry, expired by then, has a score other than zero |
| `BadActor.ExpiredScoreDecides` | badactor/badactor.go:233-275 | the verdict is another one if and only if, outside a dry run, that expired score makes the difference to the threshold |
| `BadActor.ExpiredScoreBlocks` | badactor/badactor.go:233-275 | a store and a request that is blocked for points that have expired |
| `BadActor.SweepMends` | badactor/badactor.go:414-432 | with a sweep just before, the verdict still differs if and only if the entry expires at that very moment and decides |
| `LookupLimiter.Limiter.Admit` | badactor/ipinfo.go:289-307 | one lookup: the window restarts when more than a minute old, and the request is counted unless the limit is reached |
| `LookupLimiter.Limit` | badactor/ipinfo.go:291-294 | the configured limit if it is positive, else forty |
| `LookupLimiter.PerWindow` | badactor/ipinfo.go:295-306 | among requests that share a window at most the limit are admitted |
| `LookupLimiter.PerMinute` | badactor/ipinfo.go:289-307 | in a run from the start, for any times that do not go back, a closed interval of one minute has at most twice the limit less one of admitted requests |
| `LookupLimiter.BoundIsReached` | badactor/ipinfo.go:297-306 | for every limit a run from the start reaches that bound |
| `Ddns.KeyInjective` | server/ddns_boot.go:321 | different names or types have different cache keys, whatever the names hold |
| `Ddns.Updater.RunOnce` | server/ddns_boot.go:248-285 | a cycle ensures, in order, every planned record of a detected family, up to the plan at which the context is found cancelled |
| `Ddns.Updater.Ensure` | server/ddns_boot.go:320-346 | a call is made unless the address is cached, and cached if it succeeds |
| `Ddns.Updater.AdoptPlans` | server/ddns_boot.go:301-316 | the plans and needed families are replaced; the cache and the log stay |
| `Ddns.NeededFamilies` | server/ddns_boot.go:166-170 | a family is needed if and only if some plan publishes it |
| `Ddns.CacheIsTruth` | server/ddns_boot.go:248-346 | over every run of cycles, failures, cancellations and reloads each cached address is the content of the last successful call for that name and type, and no call repeats what is published |
| `Ddns.QuietExactlyWhen` | server/ddns_boot.go:320-328 | a cycle's targets cause no call if and only if each is cached at its address; then nothing changes |
| `Ddns.OnlyDetectedIsPublished` | server/ddns_boot.go:256-284 | a cycle calls the provider only for planned records of a needed family whose address was detected, and with that address |
| `Ddns.Reached` | server/ddns_boot.go:249-275 | a cancelled context stops the cycle before the first plan whose check fails |
| `Ddns.FullCycle` | server/ddns_boot.go:248-346 | a cycle in which everything succeeds leaves every planned record published at the detected address, and the same cycle again makes no call |
| `Ddns.NonEmptyKeeps` | server/ddns_boot.go:198-200 | exactly the names that are not empty are kept, in order |
| `Ddns.ExpandPlans` | server/ddns_boot.go:192-214 | one plan for each non-empty name in order, the default name if there are no records |
| `Names.ListingUnique` | handler/widget_manifest.go:217-221 | a set of names has one ascending listing |
| `Manifest.CanonicalMessage` | handler/widget_manifest.go:207-233 | whatever order the map yields its names in, the text written is the canonical one |
| `Manifest.MessageText` | handler/widget_manifest.go:207-233 | the message of a manifest with one script, written out |
| `Manifest.CanonicalEqualExactlyWhen` | handler/widget_manifest.go:207-233 | two manifests with newline-free fields have the same message if and only if server, key, issue time and the lines of their scripts are equal |
| `Manifest.CanonicalDetermines` | handler/widget_manifest.go:207-233 | if moreover no script name holds an equals sign, the messages are equal if and only if server, key, scripts and issue time are |
| `Manifest.NameWithEquals` | handler/widget_manifest.go:222-228 | two script maps with one message when a name holds an equals sign |
| `Manifest.ServerWithNewline` | handler/widget_manifest.go:211-216 | two servers with one message when a name holds a newline |
| `Manifest.BuildSignedManifest` | handler/widget_manifest.go:238-252 | the manifest holds its arguments, and its signature is over its own canonical message |
| `Manifest.SignatureCovers` | handler/widget_manifest.go:238-252 | built manifests with the same signed message have the same arguments, all five of them |
| `LogLines.PrefixingWriter.Write` | backend/logs.go:121-135 | emits the complete lines of buffer and chunk and keeps the rest, which holds no newline |
| `LogLines.PrefixingWriter.Flush` | backend/logs.go:138-146 | emits what is buffered and empties the buffer |
| `LogLines.EntriesMarked` | backend/logs.go:148-157 | lines of the error stream are warnings and the others are not, and each bears the prefix and part of a line |
| `LogLines.CutsDoNotMatter` | backend/logs.go:121-146 | any sequence of writes and flushes does what one write of the whole stream does, a flush counting as a newline |
| `LogLines.LogsTheLines` | backend/logs.go:121-166 | a stream in any chunks, flushed once, is logged as its non-empty right-trimmed lines in order |
| `HookRace.Submission.AfterEvaluation` | hooks/risor.go:219-233 | an error calls back only as the winner of the swap, a result is passed to the watcher |
| `HookRace.Submission.Choose` | hooks/risor.go:183-190 | a waiting watcher takes the result or the expired context, either one if both are there |
| `HookRace.Submission.AfterChoice` | hooks/risor.go:184-209 | the watcher completes, or on an expired context calls back only as the winner of the swap |
| `HookRace.OneCallback` | hooks/risor.go:159-232 | in every interleaving at most one callback is attempted, and exactly one once both sides are finished if the script compiled; a completion follows a result, a timeout an expired deadline, an error a failed evaluation |
| `HookRace.OutcomesMean` | hooks/risor.go:168-233 | a script that does not compile leaves nothing to do and no callback; a failed evaluation reports its error and a successful one its result, after which the deadline no longer matters |
| `HookRace.RunsFinish` | hooks/risor.go:159-232 | every run is short, and one that cannot go on has finished with its callback |
| `HookRace.Executor.SubmitForExec` | hooks/risor.go:166-239 | the next runner in turn gets the submission; every load is the number of that runner's turns so far, and loads never differ by more than one |
| `HookRace.LoadsBalanced` | hooks/risor.go:236-239 | after any number of submissions the loads of two runners differ by at most one |
| `TagMask.BitExists` | log/log.go:207 | the tag of a registration is a bit, not zero, if and only if it is one of the first 63 |
| `TagMask.TagsDistinct` | log/log.go:198-223 | over every run the names' tags have a bit each and no two share one if and only if there are at most 63 |
| `TagMask.Tags.GetTaggedLogger` | log/log.go:198-223 | a new name gets the next bit and a known one its own, but with 65 names registered every call panics, for known names too |
| `TagMask.Tags.SetTagFilterFromString` | log/log.go:122-138 | the word holds the tags of the list up to the first unknown name, which is the error; an empty list sets nothing |
| `TagMask.Tags.SetTagBlockFilterFromString` | log/log.go:141-157 | the same for the block word |
| `TagMask.Tags.Debugf` | log/log.go:253-269 | a message is logged if and only if its tag meets the allow word, or that is zero, and does not meet the block word |
| `TagMask.PassesExactly` | log/log.go:122-269 | over every run, also past 63 names and after lists with unknown names, exactly which names pass |
| `TagMask.LastNameIsNotBlocked` | log/log.go:141-157 | a run of 64 registrations after which blocking the last name has no effect |
| `TagMask.PassesByName` | log/log.go:122-269 | with at most 63 names a message passes if and only if its name is on the allow list in force, or that is empty, and not on the block list in force |

## Left out

- Text is a sequence of code points; bytes that are not valid UTF-8 and byte-wise sorting of them are not modelled.
- File and network errors, path resolution and authorisation around the staging handlers.
- Bodies of 2^63 bytes or more; hunk positions are computed in 64 bits, line counts are not.
- The watch loop, the patterns of temporary and sensitive paths (predicates here), and failed transfers in a sync; the last would only weaken the merged sets.
- MountSync.Mount.SyncBidirectional: requires trees without file/directory clash and error-free transfers, the case for which the result is promised.
- Shutdown of the bounce map, visitors' cookies and database rows; bounce ids are fresh, registering a bounce with its data is one step and so is a write; that the language's runtime may abort on the unsynchronised map access of a race is not modelled.
- Takeover of a visitor's socket, encryption, typing and presence frames (any frame but a message is one kind here), rate limits and the closing of sessions.
- ChatReplay.NoMessageIsLost: takes message ids as unique; an agent's row whose append failed after it was written is stored and never published, so it is not among the messages promised.
- Races between the store's load and store of its trees: each method of the bad-actor store is one step; scores are unbounded integers, and signature matching is a parameter.
- BadActor.KnownIsJudged: its histories hold incidents, manual blocks, evictions, allowlist changes and sweeps; checks of requests are treated by the two lemmas on expired scores.
- Edits to the proxied flag, TTL or zone of a published name, which the cache key ignores; services for address detection.
- Hashes, signatures, key derivation and the manifest's JSON form; the version field is not part of the signed text.
- Colours of log prefixes, and the compilation and evaluation of scripts.
- TagMask.Tags.GetTaggedLogger: returns the tag, not the logger object with its description and prefix.
- Configuration loading, forms, landers, users, TOTP, OPAQUE, JWT, TLS, Docker backends, gRPC, CSV export and browser scripts: input and output around short logic.
