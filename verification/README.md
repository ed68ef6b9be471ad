# Daruda, verified

Daruda is a desktop app around coding agents. This project models the parts of it that hold exact
state or undo each other exactly, and proves what each is for:

- the incremental scanner of agents' session logs (`ActivityLog`, `ActivityRecords`, `ActivityFold`,
  `ActivityScan`, `ActivityTotals`), a byte-offset cache that must agree with a full reparse;
- the embed reconciler of the chat view (`EmbedPass`, `Reconciler`), whose scoped passes must do
  what full ones would;
- the native subagent router (`FlatIds`, `Router`, `RouterRuns`, `RouterTraffic`), which folds the
  traffic of many sessions into one flat transcript;
- the managed Node.js install (`NodeInstall`, `InstallRuns`), a check, stage and rename
  protocol between processes that share a directory;
- parsers and printers: Windows command lines (`Argv`), the `env` grammar of launches
  (`LaunchEnv`, `WrappedLaunch`), code fences and line numbers (`Fences`);
- smaller algorithms: burst debouncing (`DebouncePump`), natural ordering (`NaturalKey`,
  `StableSort`), streaming diagram fences (`Mermaid`), the status store (`StatusStore`), prompt
  previews and titles (`TextWalks`), portable file names (`FileNames`).

`Text`, `Digits`, `Order`, `Json` and `Runs` hold what they share: Rust's string operations,
numerals, string order, JSON values, and runs of a step function.

Code that updates fields or loops is a class with methods or a method with loops, proved against a
specification function; what the source promises is then proved about that function, over every
input, run or interleaving. The two protocols of several threads or processes are state machines
over their atomic steps.

Where a promise does not hold of the code, one lemma gives the input and another the exact
condition. The inputs are in `RewriteByGrowthGoesUnseen`, `StrippedNameComesBack`, `RepairRace`,
`UncleanCollides`, `TruncatedRead`, `CloserRetracted`, `TiesDoNotConverge` and
`ConYamlStaysReserved`. The comment of `publish_managed` (packages/acp/src/node.rs:566-571) says a
lost race between processes is caught by the check after the rename; that check protects the
process that makes it, but not one that returned before, as `RepairRace` shows. Within one process
the lock does serialize the removal (`OneProcessLosesNothing`). The test at
packages/app/src/file_name.rs:92 claims that a sanitized name has no problem left; it has one when a
reserved stem is followed by a dot.

## Model

| member | source | states |
|---|---|---|
| `ActivityScan.RefreshFile` | packages/agent/src/activity_scan.rs:103-161 | The refresh of one log, with its cached entry as a mutable object: missing file, unchanged file, retried tail, growth, rewrite and read error each end as the code has them; a returned entry is a fresh copy. |
| `ActivityScan.ReadLines` | packages/agent/src/activity_scan.rs:139-156 | The read loop consumes exactly the complete lines past the offset and folds each one that parses, in order. |
| `ActivityScan.CompleteLinesConcat` | packages/agent/src/activity_scan.rs:147-149 | A cut at a line boundary cuts the list of complete lines. |
| `ActivityScan.ResumeIsParse` | packages/agent/src/activity_scan.rs:103-161 | Resuming a parse of any bytes, cut anywhere, on a file that extends them is the parse of the whole file: same offset (the last line boundary), same tally. |
| `ActivityScan.NextLookIsCurrent` | packages/agent/src/activity_scan.rs:103-161 | An entry that was right about the last look is right about the next, if the file was appended to or detectably rewritten between them. |
| `ActivityScan.ChainIsCurrent` | packages/agent/src/activity_scan.rs:103-161 | The same over any chain of looks, each refreshing the entry the last one left, metadata read before bytes. |
| `ActivityScan.IncrementalIsFull` | packages/agent/src/activity_scan.rs:103-161 | The cache promise: after any such history, a look at a file at rest leaves the offset and the tally of one parse from scratch. |
| `ActivityScan.MovedClockReparses` | packages/agent/src/activity_scan.rs:114-127 | A file whose mtime moved and whose size did not grow past the recorded one is parsed from its first byte, whatever was cached. |
| `ActivityScan.CompleteLinesAre` | packages/agent/src/activity_scan.rs:139-149 | Complete lines end in a line feed and hold no other, and together are the file up to its last one. |
| `ActivityScan.NothingNewIsNotRead` | packages/agent/src/activity_scan.rs:109-113 | A file read to its end whose clock stands still keeps its entry without being read. |
| `ActivityScan.OnlyTheTailIsRead` | packages/agent/src/activity_scan.rs:114-156 | A file with an unfinished line, or one that grew, is read on from the offset; what stands before it makes no difference. |
| `ActivityScan.NothingReadIsNoEntry` | packages/agent/src/activity_scan.rs:103-137 | A vanished file loses its entry, one that cannot be read fails the scan. |
| `ActivityScan.RewriteByGrowthGoesUnseen` | packages/agent/src/activity_scan.rs:123-125 | A concrete rewrite that also grows passes for an append: stale offset, not a line boundary. |
| `ActivityScan.ExactWhateverTheBytesIff` | packages/agent/src/activity_scan.rs:114-127 | Exactly which cached entries make a refresh right about every possible file content: untrusted ones, and ones that consumed nothing. |
| `ActivityLog.ClaudeCountRecord` | packages/agent/src/activity.rs:257-361 | Claude's record fold on the entry's fields: which records count, which fields they move, before and after the timestamp gate. |
| `ActivityLog.CodexCountRecord` | packages/agent/src/codex_activity.rs:129-198 | Codex's record fold likewise. |
| `ActivityLog.PromptPreviewFromMessageContent` | packages/agent/src/activity.rs:388-408 | The preview of a string or of the text blocks of a message, joined by spaces; none for other content. |
| `ActivityRecords.ClaudeTurn` | packages/agent/src/activity.rs:322-344 | A dated record of type `user` is one turn on its date and no tokens, unless some block of its content has type `tool_result`; then it counts nothing. |
| `ActivityRecords.ClaudeTokens` | packages/agent/src/activity.rs:345-358 | A dated record of type `assistant` adds its usage's `input_tokens` and `output_tokens`, absent ones as none. |
| `ActivityRecords.ClaudeCountsNothingElse` | packages/agent/src/activity.rs:299-359 | No other record, and none without a readable date, changes a day. |
| `ActivityRecords.ClaudeTitle` | packages/agent/src/activity.rs:262-277 | `custom-title` and `ai-title` records set the title, a custom one for good. |
| `ActivityRecords.ClaudePreview` | packages/agent/src/activity.rs:278-288 | The prompt preview comes from `last-prompt` records and from the turns' own content, string or text blocks, unless it is empty. |
| `ActivityRecords.TextGrows` | packages/agent/src/activity.rs:391-404 | The text of a message is its `text` blocks in order, one space between those that say something. |
| `ActivityRecords.ClaudeSession` | packages/agent/src/activity.rs:306-320 | Dated `user` and `assistant` records give session id and directory, first come, and the latest activity. |
| `ActivityRecords.ClaudeBranch` | packages/agent/src/activity.rs:299-304 | The branch comes from every dated record that has a non-blank one, of any type but the three undated ones. |
| `ActivityRecords.CodexCounts` | packages/agent/src/codex_activity.rs:178-197 | A dated `event_msg` whose payload is `task_started` is a turn, one whose payload is `token_count` adds its last total; nothing else counts. |
| `ActivityRecords.CodexEvent` | packages/agent/src/codex_activity.rs:160-190 | Activity comes from every dated event, the prompt from `user_message` payloads. |
| `ActivityRecords.CodexSession` | packages/agent/src/codex_activity.rs:134-152 | `session_meta` gives the session's id, under either of its keys, and its directory, first come. |
| `ActivityFold.DaysMeaning` | packages/agent/src/activity.rs:322-360 | A date's turns and tokens after a whole log are the number of its records that are a turn on it and the sum of the tokens they report, read off their JSON; a date is listed only if they are not all zero. |
| `ActivityFold.TitleMeaning` | packages/agent/src/activity.rs:262-277 | The title is the last custom title if there is any, else the last generated one. |
| `ActivityFold.SessionMeaning` | packages/agent/src/activity.rs:278-316 | Session id and directory are the first seen; branch and prompt preview the last. |
| `ActivityFold.ActivityMeaning` | packages/agent/src/activity.rs:306-320 | Last activity is the maximum timestamp, whatever order the records come in. |
| `ActivityTotals.Aggregate` | packages/agent/src/activity_scan.rs:207-243 | Dates strictly ascending, exactly those some file lists, each with the sums over all files, and one summary per complete session. |
| `ActivityTotals.UpdateActivity` | packages/agent/src/activity_scan.rs:73-89 | One scan: list, load the cache of the current version or none, refresh, save, aggregate, nothing saved when any step fails; and from a stored cache that is right about its last looks, the daily list returned is exact for the logs that survive. |
| `ActivityTotals.LoadedIs` | packages/agent/src/activity_scan.rs:91-100 | A cache file counts only if it was written for version 4 of Claude's format or 3 of Codex's. |
| `ActivityTotals.RefreshAll` | packages/agent/src/activity_scan.rs:79-84 | Every listed log refreshed against its old entry, vanished ones dropped, the first read error ending the scan. |
| `ActivityTotals.RunKeepsUpToDate` | packages/agent/src/activity_scan.rs:73-161 | Over any run of scans, failed and unsaved ones included, every saved entry is right about the last look it rests on. |
| `ActivityTotals.SurvivorsAreParsed` | packages/agent/src/activity_scan.rs:73-161 | A scan that succeeds caches exactly the surviving logs, those vanished or settled by their metadata told apart, each as parsed from scratch from bytes it held during its last look, mid-append or not. |
| `ActivityTotals.DailyListIsExact` | packages/agent/src/activity_scan.rs:73-243 | End to end: after any run of scans the daily list tells, in date order and leaving out only idle dates, the sums over the qualifying records in the complete lines of the surviving logs, whichever listed ones have vanished; where those are at rest, of exactly the bytes they hold. |
| `ActivityTotals.RecentSessionsMean` | packages/agent/src/activity_scan.rs:224-237 | The recent sessions are one summary each of the files with a session id, a directory and a last activity, with exactly those fields and no time before the epoch, and of no other file. |
| `Order.LessIffFirstDifference` | packages/agent/src/activity_scan.rs:207-222 | One date comes before another exactly if it is smaller, or has ended, at the first difference. |
| `ActivityTotals.AggregateUnique` | packages/agent/src/activity_scan.rs:207-243 | A set of files has one aggregate, so the order of the walk over it is no choice. |
| `TextWalks.SessionPromptPreview` | packages/agent/src/activity.rs:366-386 | The early-stopping walk equals collapsing whitespace and cutting after the 240th non-space character; none if nothing is left. |
| `TextWalks.WalkIsCollapse` | packages/agent/src/activity.rs:370-384 | The walk's pending-space bookkeeping is splitting into words and joining them. |
| `TextWalks.PreviewIs` | packages/agent/src/activity.rs:364-386 | A preview is the collapsed prompt up to its 240th non-space character: all of it if it has fewer, else ending in that character. |
| `TextWalks.NoPreviewIffBlank` | packages/agent/src/activity.rs:385 | No preview exactly for an all-whitespace prompt. |
| `TextWalks.PreviewIdempotent` | packages/agent/src/activity.rs:366-386 | Previewing a preview changes nothing. |
| `TextWalks.NormalizePromptTitle` | packages/chat/src/agent_chat_helpers.rs:260-285 | The early-stopping title walk equals: collapse, keep up to 72 glyphs, else the first 69 right-trimmed and an ellipsis. |
| `TextWalks.TitleFits` | packages/chat/src/agent_chat_helpers.rs:251-285 | A title is the collapsed prompt if that has at most 72 glyphs, and else its first 69, right-trimmed, and an ellipsis; it is empty exactly for a blank prompt. |
| `EmbedPass.OwnsKeyIffSameTool` | packages/chat/src/reconcile.rs:61-81 | The string test for ownership never mistakes another call's key, whatever `#` its id holds. |
| `EmbedPass.KeysDistinct` | packages/chat/src/output_editor.rs:137-139 | Editor keys are injective in call id and index. |
| `Reconciler.AgentChatView.ReconcileDiffEditors` | packages/chat/src/reconcile.rs:232-326 | The diff pass over the view's three maps equals the pass on one combined cache, creations counted together with the output passes; key sets stay equal and every editor stays built from its recorded fingerprint, failed builds included; nothing happens without a theme. And after a full pass whose builds succeed, over distinct ids, each on-screen call's `i`-th diff is in all three maps under `id#i`, with its own fingerprint, model and stat, or the entry that already had that fingerprint, or is absent if it has no hunks; no other key is there. |
| `Reconciler.AgentChatView.ReconcileOutputEditors` | packages/chat/src/reconcile.rs:346-410 | The output pass over its two maps likewise, tool calls and compactions both: the `i`-th block of each under `id#i` with its own text and language, mermaid fences and other kinds of block excluded. |
| `Reconciler.AgentChatView.EvictDiffs` | packages/chat/src/reconcile.rs:301-305 | A stale key leaves all three maps. |
| `Reconciler.AgentChatView.KeptDiffIsCurrent` | packages/chat/src/reconcile.rs:277-283 | Without a hash collision, the editor and stat kept for a diff's fingerprint are that diff's. |
| `EmbedPass.ScopedIsFullIffSettled` | packages/chat/src/reconcile.rs:501-510 | A scoped pass over the owned candidates is the full pass, entities and creations included, if and only if everything outside the scope is settled. |
| `EmbedPass.ScopedPassLeavesOthers` | packages/chat/src/reconcile.rs:50-81 | A scoped pass touches no key it does not own. |
| `EmbedPass.EntitiesAreBuiltOrKept` | packages/chat/src/reconcile.rs:307-319 | Every entity a pass leaves was there before or comes from a creation of its own that found its window; a pass whose creations all fail only evicts. |
| `EmbedPass.FullPassIsExact` | packages/chat/src/reconcile.rs:232-326 | A full pass whose builds succeed leaves exactly the claimed keys, each with its content's fingerprint. |
| `EmbedPass.ExactIsStable` | packages/chat/src/reconcile.rs:296-299 | An exact cache survives a full pass untouched, and no creation is asked for. |
| `EmbedPass.PassKeepsMade` | packages/chat/src/reconcile.rs:307-319 | No pass, failed builds included, pairs a fingerprint with something not built for it. |
| `Reconciler.ScopedReconcileIsFull` | packages/chat/src/reconcile.rs:50-81 | From an exact cache, when only the scope's call changed, the scoped pass over the conversation ends as the full pass would. |
| `Reconciler.ScopedAfterFullPass` | packages/chat/src/reconcile.rs:232-410 | The same from the start: a full pass with distinct ids, any change of one call, then its scoped pass, whatever the later builds do. |
| `Reconciler.ScopedStreamIsFull` | packages/chat/src/reconcile.rs:50-81 | The streaming promise: from an exact cache, any run of one-call changes, each followed by its scoped pass, ends in the caches, entities and creations of a full pass after every change, and exact again, if the builds succeed. |
| `Reconciler.ScopedDiffStreamIsFull` | packages/chat/src/reconcile.rs:232-326 | The same stated of the diff reconciler, with nothing assumed of its candidates. |
| `Reconciler.ScopedOutputStreamIsFull` | packages/chat/src/reconcile.rs:346-410 | The same stated of the output reconciler. |
| `Reconciler.DiffsKeyedByItem` | packages/chat/src/agent_chat_helpers/diff.rs:15-17 | Every diff editor an item yields is keyed by that item. |
| `Reconciler.OutputsKeyedByItem` | packages/chat/src/output_editor.rs:36-70 | Every output editor an item yields is keyed by that item. |
| `Reconciler.VisitedDistinct` | packages/chat/src/reconcile.rs:232-410 | Distinct item ids give a pass distinct keys. |
| `Reconciler.ScopedDiffsAfterFullPass` | packages/chat/src/reconcile.rs:232-326 | The same stated of the diff reconciler, with nothing assumed of its candidates. |
| `Reconciler.ScopedOutputsAfterFullPass` | packages/chat/src/reconcile.rs:346-410 | The same stated of the output reconciler. |
| `Reconciler.ReachableEditorsMatchFingerprints` | packages/chat/src/reconcile.rs:232-410 | In every state reached by passes of both reconcilers in any order, failed builds included, each cached editor and stat was built from content of the recorded fingerprint. |
| `Reconciler.MatchingDiffShowsContent` | packages/chat/src/reconcile.rs:277-283 | Barring a hash collision, a matching fingerprint means the diff editor shows that very content. |
| `Reconciler.MatchingOutputShowsContent` | packages/chat/src/reconcile.rs:370-379 | The same of an output editor and its source. |
| `Argv.Quote` | scripts/windows/hidden-process.cs:64-75 | The counter loop writes the argument, its backslashes doubled where a quote follows. |
| `Argv.BuildCommand` | scripts/windows/hidden-process.cs:79-80 | The command buffer is the quoted program and arguments, one space between. |
| `Argv.LineGrows` | scripts/windows/hidden-process.cs:79-80 | Each further argument is one space and the quoted argument. |
| `Argv.PlainIsQuoted` | scripts/windows/hidden-process.cs:64-75 | Text without quote or backslash is written as it is, in quotes. |
| `Argv.ReadsTailBack` | scripts/windows/hidden-process.cs:66-73 | The meaning of the `slashes` counter: pending backslashes and what follows are what the parser still reads back. |
| `Argv.ArgumentsRoundTrip` | scripts/windows/hidden-process.cs:64-80 | Every list of arguments, whatever they hold, is read back unchanged by Microsoft's documented rules ("Parsing C++ command-line arguments"). |
| `Argv.CommandLineRoundTrip` | scripts/windows/hidden-process.cs:79-80 | With the program name, which has rules of its own, the round trip holds exactly when that name has no quote and no trailing backslash. |
| `NodeInstall.MoveMindsLock` | packages/acp/src/node.rs:497-509 | An install takes its process's lock, when free, exactly on its way in, and drops it exactly when it ends. |
| `NodeInstall.MoveMindsStaging` | packages/acp/src/node.rs:525-556 | Only what passed its checksum is extracted, and only an install's own complete tree is published. |
| `NodeInstall.OnlyVerifiedTreesArePublished` | packages/acp/src/node.rs:525-606 | Over every interleaving of any installs and processes, from any start, only complete verified trees are ever renamed into place. |
| `InstallRuns.OnlyVerifiedIsRenamed` | packages/acp/src/node.rs:525-606 | The same event by event: whenever a rename succeeds, what was staged was complete and verified, and that is what the directory then holds. |
| `NodeInstall.PublicationIsSafe` | packages/acp/src/node.rs:588-606 | From an absent or valid directory no interleaving takes the remove branch or loses a valid tree; at most one rename succeeds, none if it was valid; what an install returned as managed stays valid. |
| `NodeInstall.ManagedFoundItValid` | packages/acp/src/node.rs:511-566 | From any start, corrupt ones included, an install that is managed after a run became so at one of its own two checks, which found the directory valid. |
| `NodeInstall.RepairRace` | packages/acp/src/node.rs:588-606 | From a directory that is corrupt or merely empty two processes can both decide to remove it, and the slower one takes away the tree the faster has published and returned. |
| `NodeInstall.OneProcessLosesNothing` | packages/acp/src/node.rs:566-571 | Installs of one process never lose a valid tree, whatever they start from: the lock serializes the removal. |
| `NodeInstall.ValidTreeIsSafeIff` | packages/acp/src/node.rs:560-606 | No run ever loses a valid tree if and only if the directory started absent or valid or all installs share one process. |
| `InstallRuns.FirstCheckDecides` | packages/acp/src/node.rs:511-515 | An uncanceled first check that finds the directory working makes the install managed at that step; only one that does not starts a download. |
| `InstallRuns.DownloadsOnlyPastACheck` | packages/acp/src/node.rs:511-566 | From any start, whatever comes after the first check happens only to an install whose own first check found the directory not working. |
| `InstallRuns.ValidCacheIsReused` | packages/acp/src/node.rs:511-515 | From a valid directory no install ever downloads, stages, extracts or renames. |
| `InstallRuns.CacheHitTakesOneStep` | packages/acp/src/node.rs:511-515 | And each returns managed one own step after taking the lock, unless canceled, whatever the others do. |
| `InstallRuns.WaitingDecides` | packages/acp/src/node.rs:492-507 | A waiting install enters as soon as no other of its process is inside, and times out only before that. |
| `InstallRuns.StagingIsCleared` | packages/acp/src/node.rs:550-556 | Over any run the staging directory is gone whenever no install of the process is at work in it, however it ended. |
| `InstallRuns.FailureHasItsCause` | packages/acp/src/node.rs:484-566 | Every failure is due to a step of the install's own: a checksum error to a corrupt archive, a timeout to a held lock, an extract error to a failed extraction or a directory that does not work. |
| `InstallRuns.SetbacksEndIt` | packages/acp/src/node.rs:520-566 | And such a step ends the install with that error. |
| `InstallRuns.CancelIsHeeded` | packages/acp/src/node.rs:484-606 | An install canceled at a checkpoint leaves the directory alone, and has failed as canceled after at most one more step. |
| `InstallRuns.UnhinderedReturnsManaged` | packages/acp/src/node.rs:511-606 | An install that holds the lock and meets no failure of its own returns managed within eleven own steps, fourteen if it has to repair, whatever the others do: from an absent or valid directory, and in a lone process from any. |
| `Router.NativeSubagentRouter.Route` | packages/acp/src/native_subagents.rs:195-221 | One payload: what the router answers and becomes, for announcements, reports, standard updates of children and others, and unknown kinds. |
| `Router.NativeSubagentRouter.Register` | packages/acp/src/native_subagents.rs:258-292 | The synthetic call for a child, nested under its parent's call if the parent is known before the child is recorded. |
| `Router.NativeSubagentRouter.RewriteChild` | packages/acp/src/native_subagents.rs:355-388 | A child's own update re-keyed, passed through, accumulated or dropped, by kind. |
| `Router.NativeSubagentRouter.Accumulate` | packages/acp/src/native_subagents.rs:391-412 | A chunk extends the last block or starts one. |
| `Router.NativeSubagentRouter.FirstLegacyDelegation` | packages/acp/src/native_subagents.rs:236-244 | Reports a delegation not noticed before, and notices it. |
| `RouterRuns.DelegationReportedOnce` | packages/acp/src/native_subagents.rs:223-244 | Over any run of updates the first that delegates through the legacy path is reported, and no other. |
| `RouterRuns.ChildrenAfter` | packages/acp/src/native_subagents.rs:195-412 | Over any run the children are the announced sessions, each under its own id, and each holds exactly what it has said since. |
| `RouterRuns.GroupsMean` | packages/acp/src/native_subagents.rs:400-411 | The blocks of an answer are its chunks, cut exactly where two neighbours differ in message id or are not both text. |
| `RouterRuns.BlocksKeepText` | packages/acp/src/native_subagents.rs:402-408 | Merging chunks into blocks neither loses, repeats nor reorders a character. |
| `RouterRuns.FinishReportsTheAnswer` | packages/acp/src/native_subagents.rs:324-352 | A finish reports whole, in order and once, every answer chunk since the previous finish, as completed only if so; no content if nothing was said. |
| `RouterRuns.LaunchNests` | packages/acp/src/native_subagents.rs:258-321 | Only a session's first announcement launches, and it nests under its parent exactly if that was announced strictly earlier. |
| `RouterRuns.ChildCallNests` | packages/acp/src/native_subagents.rs:368-377 | A child's tool call keeps its other `_meta`, gets the namespaced id, and reads back as that child's. |
| `RouterRuns.NothingDangles` | packages/acp/src/native_subagents.rs:195-388 | The transcript is a forest: every parent link and every report names a call launched strictly earlier. |
| `RouterRuns.LaunchedOnce` | packages/acp/src/native_subagents.rs:307-309 | No synthetic call is launched twice. |
| `RouterRuns.UnknownReportedOnce` | packages/acp/src/native_subagents.rs:247-255 | An unknown kind is reported the first time, never again. |
| `RouterRuns.IdsAreIdentities` | packages/acp/src/native_subagents.rs:92-101 | With clean session ids, calls of the transcript share an id exactly when they stand for the same session or the same call of one. |
| `RouterTraffic.SpawnAnswers` | packages/acp/src/native_subagents.rs:258-321 | Over any run of payloads: a `subagent_spawned` with a new, non-empty id launches one call `subagent:` and that id, in progress, titled by its name or `Agent`, with name and task as raw input, linked to the announcing session exactly if that was announced before; any other gives nothing. |
| `RouterTraffic.FinishAnswers` | packages/acp/src/native_subagents.rs:324-352 | A `subagent_state_update` of an announced child reports it completed exactly if its `state` is the string `completed`, with every answer chunk since its last finish, in order; of anyone else, nothing. |
| `RouterTraffic.UpdateAnswers` | packages/acp/src/native_subagents.rs:206-221 | An update of a session not announced passes; of a child, notices and compactions pass, calls and their updates are renamed and linked, the rest stays out. |
| `RouterTraffic.UnreadableAnswers` | packages/acp/src/native_subagents.rs:209-211 | An update that cannot be decoded is reported by its kind the first time, and ignored after. |
| `RouterTraffic.LegacyDelegationReported` | packages/acp/src/native_subagents.rs:236-244 | Over any run the first update whose collaboration tool is the string `spawnAgent` is reported, and no other. |
| `RouterTraffic.ParentIsRead` | packages/acp/src/adapter.rs:84-102 | A parent link is the string in daruda's own namespace, and the one in Claude's if there is none. |
| `FlatIds.ChildToolIdInjective` | packages/acp/src/native_subagents.rs:99-101 | Among clean sessions a flattened id names one session and one tool id. |
| `FlatIds.CleanIffApartFromShorter` | packages/acp/src/native_subagents.rs:96-101 | A session id is clean exactly when none of its flattened ids could be a shorter session's. |
| `FlatIds.UncleanCollides` | packages/acp/src/native_subagents.rs:96-101 | Every unclean session id shares each of its flattened ids with a shorter session: the ids collide. |
| `FlatIds.ParentIdIsChildIdIff` | packages/acp/src/native_subagents.rs:92-101 | A subagent's own id can be some child call's id exactly when its session id contains the mark. |
| `FlatIds.StampReadsBack` | packages/acp/src/adapter.rs:84-102 | The stamped parent link is what the default adapter reads, over any other namespace; all other entries stay. |
| `Fences.ClassifiersAgree` | packages/chat/src/output_editor.rs:93-135 | The unwrapper returns a body exactly when the mirrored classifier returns that body with no language tag, truncated or not. |
| `Fences.UnwrapsIffFenced` | packages/acp/src/output_highlight.rs:125-153 | An untruncated text unwraps to a body exactly when it is one bare opener, the body and one closer, no body line reaching the opener's run. |
| `Fences.UnwrapsIffOneBlock` | packages/acp/src/output_highlight.rs:125-153 | The same in characters: a line of at least three backticks, the body, a line of at least as many, nothing but white space after either, and no body line that begins with as many as the opener. |
| `Fences.TaggedBlock` | packages/chat/src/output_editor.rs:93-135 | A block with an info string is read as its body and the first word of that string. |
| `Fences.GutterIsSpelled` | packages/acp/src/output_highlight.rs:181-201 | A gutter is spaces, at least one digit, and a tab or the arrow. |
| `Fences.GutterLenIsTheGutter` | packages/acp/src/output_highlight.rs:181-201 | The number prefix a line starts with is unique, and its length is what the scan finds. |
| `Fences.LineNumberPrefixLen` | packages/acp/src/output_highlight.rs:181-201 | The scan for spaces, digits and a tab or arrow finds that length. |
| `Fences.StripLineNumbers` | packages/acp/src/output_highlight.rs:155-179 | The loop strips every line's gutter if every non-blank line has one and some line does, else nothing. |
| `Fences.NormalizeSourceOutput` | packages/acp/src/output_highlight.rs:104-106 | Fence first, then line numbers. |
| `Fences.FencedNumberedRoundTrip` | packages/acp/src/output_highlight.rs:104-201 | Whatever a file holds, numbering its lines and fencing them is undone exactly (fences per section 4.5 of CommonMark). |
| `Fences.NumberedRoundTrip` | packages/acp/src/output_highlight.rs:104-201 | The same for numbered text without a fence. |
| `Fences.EveryCutIsInALine` | packages/acp/src/output_highlight.rs:108-109 | However much of a wrapped read the cap leaves behind the opener's line, it ends somewhere in one numbered line or in the closer. |
| `Fences.TruncatedRead` | packages/acp/src/output_highlight.rs:104-201 | What becomes of every such cut: the gutters come off unless it falls inside a line number or leaves a stub of the closer shorter than the opener, and then every number stays; a cut right before the closer leaves one newline too many. |
| `Fences.StrippedIffNumbered` | packages/acp/src/output_highlight.rs:155-179 | Text with an unnumbered non-blank line, or with blank lines only, keeps every byte; all other text loses a gutter. |
| `EnvStrip.Parse` | packages/app/src/env_strip.rs:53-76 | The two loops over the argument stream: removals, assignments, program, rest; none when a name or the program is missing. |
| `EnvStrip.ParsesIffFlattens` | packages/app/src/env_strip.rs:53-87 | An argv parses to a request exactly when the request is one the grammar can spell and prints as that argv. |
| `EnvStrip.Run` | packages/app/src/env_strip.rs:89-100 | The child's environment is the inherited one minus the removed names plus the assignments, the last of each name winning, for every inherited environment and however the host compares names. |
| `LaunchConfig.JsonLaunchRequest` | packages/acp/src/launch_config.rs:103-115 | The wrapper reads back exactly the stripped names and the configured program and arguments if and only if the program is neither `-u` nor an assignment. |
| `LaunchConfig.ShellLaunchRequest` | packages/acp/src/launch_config.rs:158-182 | The wrapper reads back a shell line's own assignments, program and arguments, with the stripped names, if and only if the grammar can spell them. |
| `LaunchConfig.JsonLaunchIs` | packages/acp/src/launch_config.rs:18-40 | What is launched, word for word: on Windows the own executable or `daruda` with `--env`, elsewhere `/usr/bin/env`; then a `-u` for each name in order, the command and its arguments. |
| `LaunchConfig.ShellLaunchIs` | packages/acp/src/launch_config.rs:158-182 | The same of a shell line. |
| `WrappedLaunch.JsonReading` | packages/acp/src/launch_config.rs:103-115 | Whatever the command is, the wrapper reads a built JSON launch as the stripped names and then what it makes of the command's own words. |
| `WrappedLaunch.JsonStripPrecedence` | packages/acp/src/launch_config.rs:103-115 | In a JSON launch as built, a stripped name reaches the child exactly if the command's own words assign it, whatever the config's own environment says; never when the command is plain. |
| `WrappedLaunch.ShellStripPrecedence` | packages/acp/src/launch_config.rs:152-182 | In a shell line as built, a stripped name reaches the child exactly as the line's own assignments set it. |
| `WrappedLaunch.StripHoldsIffPlainCommand` | packages/acp/src/launch_config.rs:103-115 | A command keeps every stripped name from its child, whatever its arguments, exactly when it is neither `-u` nor an assignment. |
| `WrappedLaunch.StrippedNameComesBack` | packages/acp/src/launch_config.rs:184-197 | The failing input: the command `K=v` with `K` to strip. |
| `WrappedLaunch.ShapesAgreeIffDisjoint` | packages/acp/src/launch_config.rs:103-182 | However the host compares names, the two shapes as built give a child one environment exactly when no stripped name is assigned, for plain commands; exactly when every such name is reassigned by the command's own words, for any other but a `-u` behind assignments. |
| `WrappedLaunch.OptionCommandShapesDiffer` | packages/acp/src/launch_config.rs:103-182 | The command left over, `-u` behind assignments: what the wrapper reads in each shape, and that the two never launch the same. |
| `LaunchConfig.NothingStrippedNothingWrapped` | packages/acp/src/launch_config.rs:158-192 | With nothing to strip neither shape is touched. |
| `DebouncePump.RunIsSound` | packages/app/src/dir_watch.rs:123-138 | Over any interleaving a signal not yet followed by an apply is in a queue or in a busy loop, and outputs and applies are paid for by signals. |
| `DebouncePump.NoLostReload` | packages/app/src/watcher_pumps.rs:16-34 | Once both queues are empty and both loops idle, every signal has been followed by an apply; applies never outnumber outputs, nor outputs signals. |
| `DebouncePump.BurstIsOneOutput` | packages/app/src/dir_watch.rs:116-138 | A burst of any length that reaches an idle debouncer is exactly one output, sent in its `n + 3`rd turn, however the turns interleave. |
| `DebouncePump.SignalsBeforeDrainEndAreOneOutput` | packages/app/src/dir_watch.rs:123-138 | However signals and turns interleave: all signals before the drain ends are one output. |
| `DebouncePump.OutputsAreOneApply` | packages/app/src/watcher_pumps.rs:20-31 | Any number of outputs queued for an idle pump are one apply, whatever else goes on. |
| `DebouncePump.DrainsEndEmpty` | packages/app/src/dir_watch.rs:130-131 | Over any run both drains end only with their queue empty. |
| `DebouncePump.BurstAppliesOnce` | packages/app/src/watcher_pumps.rs:16-34 | End to end: a burst from rest is applied exactly once by the time everything is at rest again. |
| `DebouncePump.RoundWorks` | packages/app/src/dir_watch.rs:123-138 | A round in which both loops get a turn, in any order, does some of the work there is. |
| `DebouncePump.EverySignalIsServed` | packages/app/src/watcher_pumps.rs:16-34 | After any run, once signals stop and both loops keep getting turns, every signal is followed by an apply. |
| `NaturalKey.KeyParts` | packages/acp/src/question.rs:272-297 | The character loop equals reading a key as alternating texts and numbers, saturating at the largest `u64`. |
| `NaturalKey.NumbersInOrder` | packages/acp/src/question.rs:264-297 | After one prefix and before any continuation, the key with the smaller number is the smaller key. |
| `NaturalKey.NumericOrderIff` | packages/acp/src/question.rs:272-297 | Keys that differ in one number are ordered exactly as the number, unless both overflow. |
| `NaturalKey.PrintedNumbersInOrder` | packages/acp/src/question.rs:264-266 | The same for numbers as they are printed. |
| `NaturalKey.TextsInOrder` | packages/acp/src/question.rs:272-297 | Keys without numbers, or that agree up to one number, are ordered as the texts that follow. |
| `NaturalKey.OrderedIsTheStableSort` | packages/acp/src/question.rs:267-270 | The reordered form is the one list with the same fields, naturally ordered, equals in the order given. |
| `NaturalKey.FormReadsInOrder` | packages/acp/src/question.rs:264-270 | In a reordered form fields that differ in a number stand in the order of the numbers. |
| `StableSort.StableSortUnique` | packages/acp/src/question.rs:268 | Any two stable sorts by one key agree, so the library's algorithm does not matter. |
| `Mermaid.MermaidSources` | packages/chat/src/agent_chat_helpers.rs:397-420 | The nested line loops return the bodies of the closed mermaid fences. |
| `Mermaid.CollectBody` | packages/chat/src/agent_chat_helpers.rs:406-414 | The inner loop takes the lines up to the next closer, or finds none. |
| `Mermaid.FencesMean` | packages/chat/src/agent_chat_helpers.rs:388-420 | Each source runs from the first opener after the fence before to the first closer after it. |
| `Mermaid.SourcesMean` | packages/chat/src/agent_chat_helpers.rs:388-420 | Told of a text: each source is what stands between the first line trimmed to the mermaid opener, after the diagram before, and the first one after it trimmed to the closer; and there is no further one. |
| `Mermaid.LastFenceIsLast` | packages/chat/src/agent_chat_helpers.rs:405-416 | An unterminated fence contributes nothing, and nothing closed is missed. |
| `Mermaid.StreamingKeepsDiagrams` | packages/chat/src/agent_chat_helpers.rs:388-391 | Text arriving line by line never retracts a diagram. |
| `Mermaid.CloserRetracted` | packages/chat/src/agent_chat_helpers.rs:408-416 | A closer that turns out to be the start of a longer line takes its diagram back. |
| `Mermaid.NothingRetractedIff` | packages/chat/src/agent_chat_helpers.rs:388-420 | Text cut anywhere keeps its diagrams whatever follows exactly when it does not break off inside a line that closes a fence so far. |
| `StatusStore.ClaudeStatusStore.Update` | packages/agent/src/store.rs:55-66 | A strictly older file is rejected and reported so; anything else replaces the entry of its identity. |
| `StatusStore.ClaudeStatusStore.LoadInitial` | packages/agent/src/store.rs:47-51 | Loading is updating one by one. |
| `StatusStore.ClaudeStatusStore.UniqueSession` | packages/agent/src/store.rs:93-100 | The one entry of a session if there is exactly one, else none. |
| `StatusStore.ClaudeStatusStore.RemoveUniqueSession` | packages/agent/src/store.rs:102-105 | Removes exactly the one entry of a session, or changes nothing. |
| `StatusStore.SameEntryIff` | packages/agent/src/hooks/status_file.rs:67-71 | Files share an entry exactly if they name one terminal or, naming none, one session. |
| `StatusStore.HoldsTheNewest` | packages/agent/src/store.rs:47-66 | After any run each key holds one of its newest files, or what was there if that is strictly newer than all. |
| `StatusStore.HoldsTheLastDelivered` | packages/agent/src/store.rs:57-64 | Of a key's newest files the last delivered is the one held. |
| `StatusStore.HoldsWhatCameIn` | packages/agent/src/store.rs:47-66 | A delivered file no older than what was there leaves its key holding the last delivered of the key's newest files. |
| `StatusStore.RunStaysKeyed` | packages/agent/src/hooks/status_file.rs:67-71 | Every entry sits under its own identity. |
| `StatusStore.TimestampsNeverDecrease` | packages/agent/src/store.rs:55-66 | No run forgets a key or turns its timestamp back. |
| `StatusStore.ConvergesIffNewestAgree` | packages/agent/src/store.rs:47-66 | Every order of delivery leaves the same store if and only if no key's newest files differ. |
| `StatusStore.DistinctTimestampsConverge` | packages/agent/src/store.rs:47-66 | In particular when a key's files have distinct timestamps. |
| `StatusStore.TiesDoNotConverge` | packages/agent/src/store.rs:57-63 | Two different files of one key and timestamp leave whichever came last. |
| `FileNames.Sanitized` | packages/app/src/file_name.rs:45-63 | The pop loop and push: the cleaned name, lifted off a reserved stem; without a problem unless a reserved stem is followed by a dot. |
| `FileNames.ProblemIs` | packages/app/src/file_name.rs:31-43 | A name has a separator problem exactly if it holds a slash of either kind, and none at all exactly if it holds no refused character, ends in no dot or space, and has no device name before its first dot. |
| `FileNames.ReservedIffDevice` | packages/app/src/file_name.rs:14-17 | The reserved stems are the device names: con, prn, aux, nul, and com or lpt with a digit from 1 to 9, in any case. |
| `FileNames.SanitizedKeeps` | packages/app/src/file_name.rs:45-63 | What sanitizing keeps: all but the trailing dots and spaces, a `-` for each refused character, and perhaps one more after it. |
| `FileNames.SanitizedIsPortableIff` | packages/app/src/file_name.rs:31-70 | No separator, control or reserved character, trailing dot or space is left; a problem is left exactly when the cleaned name has a reserved stem and a dot. |
| `FileNames.FixedIffPortable` | packages/app/src/file_name.rs:31-63 | The names sanitizing leaves alone are exactly the names without a problem. |
| `FileNames.ReplacementHelpsIffNoDot` | packages/app/src/file_name.rs:59-70 | The added character lifts a name out of the reserved stems exactly when it holds no dot. |
| `FileNames.ReservedStemStays` | packages/app/src/file_name.rs:65-70 | Every reserved stem, in any case, before any good extension stays reserved. |
| `FileNames.ConYamlStaysReserved` | packages/app/src/file_name.rs:92-97 | The blanket promise of the test fails on `con.yaml`. |

## Left out

Assumed of other code:

- JSON decoding, date parsing and the local time zone, hashing, diff rendering, archive extraction and HTTP: parameters of the model, any function at all.
- File systems in `NodeInstall`: a rename is atomic and fails on a non-empty directory, the version probe succeeds exactly in a complete tree, and a recursive removal is three steps, which spoil the tree, empty the directory and remove it.
- InstallRuns.UnhinderedReturnsManaged: counts a rename that fails for any reason but an occupied directory, and a failed removal, among the failures it excludes for the install's own steps.
- The signal channels in `DebouncePump` keep both ends; their threads end when one disconnects, which is not modelled. A timer tick and the poll after it are one step, as nothing is shared in between.
- Between the metadata and the read of one scan a log can only grow, and a rewrite moves the clock without outgrowing the recorded size; `RewriteByGrowthGoesUnseen` shows what happens otherwise.

Bounds and encodings:

- Turn and token sums are unbounded; the code adds `u64` values and does not guard against overflow.
- Log paths are strings; the code keys its cache by a lossy conversion, under which two non-UTF-8 paths could share an entry.
- A read error half way through a log is one outcome, `Unreadable`; no entry survives it in the code either.
- Strings are sequences of code points; the C# code works on UTF-16 units, which `Quote` never splits.
- How a host compares the names of variables is any function that folds names, the identity on Unix; an environment is keyed by folded names, so the spelling a variable was first given is not kept.
- LaunchConfig.ShellLaunchRequest: works on the words of a shell line; quoting words into a line and splitting it again is the `shell_words` library's, and the words of a line that is not a simple command are not modelled.
- LaunchConfig.JsonLaunchRequest: the wrapper on Unix hosts is the system's `env`, for which the grammar of `env_strip.rs` is assumed; its own has more options, so that a command such as `-i` is read differently there. The same holds of the other launch results.
- A child session is a value in the router's map rather than an object, since no other reference to it exists.

Not modelled:

- The order of `recent_sessions` for a reader; it is the order of the cache's keys.
- `tool_body_on_screen`, turn boundaries and folding: which items show is any predicate.
- The mermaid raster pass and the tool-image cache of `reconcile.rs`, which depend on asset code.
- The search of `PATH`, process groups and exit codes in `env_strip.rs`; the JSON shapes `parse_json_launch` accepts.
- `find_checksum`, `wrap_command` and the version checks of `node.rs`, one-line parsers and formatters.
- `file_for_storage_key`, `for_binding` and the directory queries of the status store, which are plain lookups.
- The other adapters and the rate-limit, command-exit and sideband hooks of `adapter.rs`; a chunk's phase is any predicate of its `_meta`.
- The fan-out and periodic pumps of `watcher_pumps.rs`, which promise no collapsing.
- Views, menus, key bindings, themes and enum tables, which hold no unbounded property.
