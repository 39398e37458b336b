# Verified model of kvn-tui's core

A Dafny 4.11 model of the parts of kvn-tui whose correctness is hardest to see from reading one function: the three-way
merge of configuration files and the saves built on it, the life of the sing-box process across threads, the JSON
pointer index, the log and list operations that have a simple meaning behind fast code, the update schedules guarded by
an epoch, and the migration of old service routes.

    dafny verify dfyconfig.toml

checks everything. Code that computes with expressions and recursion is modelled by functions; code that updates state
step by step is modelled by methods and classes proved equal to a function of the old state, and the theorems are about
those functions and about runs of steps.

| files | what they model |
|---|---|
| `wrappers` | an optional value, byte strings |
| `json`, `sequences`, `merge`, `merge_laws`, `merge_arrays`, `merge_elements`, `merge_reapply`, `merge_conflicts`, `merge_run` | the merge of JSON values and its algebra |
| `config_documents`, `routing_documents`, `config_io`, `config_runs` | merging whole documents; requested and confirmed saves over whole runs, mixed with reloads and editor commits |
| `process_slot`, `process_protocol`, `process_safety`, `process_runs`, `process_progress` | the process slot and the step system of main loop, connect and disconnect threads, ticker and shutdown |
| `retry_budget` | how often one connect attempt starts sing-box |
| `json_pointer`, `json_scan`, `json_index`, `json_document`, `json_layout`, `json_theorems`, `json_exactness`, `json_converse` | RFC 6901 pointers, the scanner, line lookup, and the scanner against RFC 8259 documents and against any bytes |
| `scroll` | scrolling a list |
| `log_lines`, `log_history`, `log_following` | backward scans of log files, pruning, the merged history and the tails after it |
| `geo`, `geo_epochs` | rule-set metadata, model states, and the epochs that keep old workers out |
| `routing`, `routing_laws` | adopting service routes, region modes, the two-file migration |

## Assumptions

- The merge works on the JSON values `serde_json` produces; decoding, normalizing and validating a configuration are
  parameters. Reading a file and comparing before writing are one step.
- "Agreed with the disk" means: the configuration the last save wrote or, after a reload or an editor's commit, the one
  left in memory. That is the document on disk except for the kill switch, which stays as applied until a save writes it.
- The process protocol takes from the unseen `update` that attempt ids never go back, that a connect request carries an
  id no earlier request had and equal to the current one, and that one message yields at most one connect or disconnect.
  Stopping a process kills it, a failed start leaves none, and attempt ids do not wrap around.
- Clocks never go back and a sleep takes at least as long as asked. Loading the geo metadata does not fail, saving may;
  schedule epochs do not wrap around. Sizes and counters are unbounded numbers.
- No other program writes the two files of the service route migration between two starts.

## Findings

- Ids that only one side adds come last in a merged array, except exactly when edited inserts them, without reordering
  base, while current equals base: then the shortcut returns edited with the ids where it put them (`NewIdsComeLastIff`,
  `InsertionIntoUntouchedIsKept`).
- Applying the same edit to the merged result again is not always conflict-free. It is exactly when, at every array
  merged by id, edited kept the order of the base ids current still has, or current left the set of ids alone
  (`ReapplyingTheEdit`). Swapping two profiles while another side adds a third fails (`SwappingBesideAnAddition`), and
  so does every reordering beside an addition (`ReorderingBesideAnAddition`).
- Elements are merged by id only where all three sides have the array; where the sides disagree and one of them lacks it,
  it conflicts as a whole (`ArrayConflictsAsAWholeIff`). An empty list of subscriptions is not written
  (`src/config/profile/schema.rs:33`), so two different first subscriptions conflict (`FirstAdditionsConflict`), and so
  do the removal of the last one and the addition of another (`LastRemovalConflicts`).
- Two orders of an array conflict even when both sides swap the same elements, if one of them also adds or removes an
  element; then the two drafts of the conflict can be the same (`AgreedSwapStillConflicts`), exactly if the sides arrange
  what is left alike (`DraftsShowOrdersIff`). Values that conflict always show (`DraftsShowValues`).
- Setting `prefer_edited` changes what the merge returns only where a conflict is reported, never which conflicts are.
- An exit reported by the ticker names the published attempt. That is the one that started the process exactly when it has
  itself put a process into the slot (`ExitNamesOwnerIff`, `ExitMayNameAnotherAttempt`).
- A confirmed kill switch survives failed saves, reloads and editor commits, and the next save carries it
  (`NextSaveCarriesKillSwitch`). A confirmed last connected profile whose save failed, which
  still exists and which the disk does not name anyway, is lost exactly when a reload or a successful editor's commit
  comes before the next save (`LastConnectedIsLostIff`, `ReloadLosesLastConnected`).
- A log line that is seen half written is shown in two pieces (`HalfLinesAreSplit`); as long as whole lines are appended,
  each is shown exactly once (`EachLineIsShownOnce`).
- Starting a new epoch shuts old workers out, except that adopting a changed source clears the schedule whatever epoch the
  download belongs to (`StaleWorkersChangeNothing`, `ChangedSourceClearsSchedule`).

## Model

| member | source | states |
|---|---|---|
| `MergeRun.MergeValue` | src/config/merge.rs:114-173 | The recursive merge returns what `Merge` says and appends exactly `Conflicts`, in order, to the shared log |
| `MergeRun.MergeObject` | src/config/merge.rs:133-154 | One object: every key of the three sides is merged once, in sorted order |
| `MergeRun.MergeUuidArray` | src/config/merge.rs:175-237 | One array merged by id: the order conflict first, then one merge for each visited id |
| `MergeRun.VisitOrder` | src/config/merge.rs:212-222 | The ids of both sides without repetition, those of the first side first |
| `MergeLaws.MergeIsKeyByKey` | src/config/merge.rs:122-154 | Merging three objects is merging key by key, whichever equality shortcut applies |
| `MergeLaws.MergeAlongPath` | src/config/merge.rs:122-154 | The same, for values and for conflicts, along every path of objects |
| `MergeLaws.NoEditIsLost` | src/config/merge.rs:122-172 | At the end of every path of objects a conflict-free merge holds edited's value where edited changed base, and current's elsewhere; only a reported conflict decides otherwise |
| `MergeLaws.ConflictsAreSymmetric` | src/config/merge.rs:114-236 | Swapping current and edited reports the same conflict paths, as a multiset, whatever `prefer_edited` is on either side |
| `MergeLaws.PreferenceKeepsConflicts` | src/config/merge.rs:160-171 | `prefer_edited` does not change which conflicts are reported |
| `MergeLaws.MergeIsSymmetric` | src/config/merge.rs:114-236 | Without a conflict, swapping the sides gives the same value at every key and id; only arrays merged by id may be ordered differently |
| `MergeLaws.PreferenceNeedsConflict` | src/config/merge.rs:160-171 | Where nothing conflicts, `prefer_edited` changes nothing |
| `MergeLaws.PreferenceStaysInConflicts` | src/config/merge.rs:160-171 | Whatever conflicts elsewhere, the preference changes nothing at a path of objects whose own merge is clean |
| `MergeById.PreferenceStaysOutOfCleanElements` | src/config/merge.rs:207-236 | The same for the elements of an array merged by id, even when their order conflicts |
| `MergeById.ArraysMergeById` | src/config/merge.rs:122-236 | Arrays of elements with distinct ids: the merged ids are distinct, under each id stands exactly the merge of the three elements with that id or nothing when it deletes, and no id is on neither side; through shortcuts and recursion alike |
| `MergeById.MergedOrder` | src/config/merge.rs:203-222 | The order of a conflict-free merge: the leading side's surviving ids in its order, then the other side's new ids in its order; a shortcut keeps its side's order |
| `MergeById.BaseIdsKeepLeadOrder` | src/config/merge.rs:203-222 | Surviving base ids keep edited's relative order if edited reordered them, otherwise current's |
| `MergeById.SurvivorIsOnBothSides` | src/config/merge.rs:224-235 | A base id that survives a conflict-free merge is still on both sides |
| `MergeById.DeletionWins` | src/config/merge.rs:122-130 | Without a conflict, what either side deleted stays deleted |
| `MergeElements.NoEditInsideIsLost` | src/config/merge.rs:122-236 | An edit at any path inside a profile, subscription or mode survives a conflict-free merge, and so do its addition and removal: the merge holds edited's value where edited changed base, and current's elsewhere |
| `MergeElements.PreferenceStaysOutside` | src/config/merge.rs:160-236 | Whatever conflicts elsewhere, the preference changes nothing at a path inside an element whose own merge is clean |
| `MergeElements.ArrayConflictsAsAWholeIff` | src/config/merge.rs:132-171 | Where no shortcut applies, an array at an id path conflicts as a whole if and only if one of the three sides lacks it; it is then the only conflict and one side is taken as it is |
| `MergeElements.ConflictPathsExtend` | src/config/merge.rs:114-236 | Every reported conflict lies at or below the path of the value it was found in |
| `MergeElements.FirstAdditionsConflict` | src/config/merge.rs:159-171 | A concrete merge in which both sides add their first subscription: base lacks the array |
| `MergeElements.LastRemovalConflicts` | src/config/merge.rs:159-171 | A concrete merge in which current removes the only subscription and edited adds a second one: current lacks the array |
| `MergeElements.NewIdsComeLastIff` | src/config/merge.rs:122-222 | In a conflict-free merge the ids only one side has come after the leading side's, unless and only unless edited inserted them, without reordering base, while current is untouched |
| `MergeElements.InsertionIntoUntouchedIsKept` | src/config/merge.rs:125-127 | A concrete merge of that kind: edited's new id stays in front |
| `MergeConflicts.ConflictsAreExact` | src/config/merge.rs:114-236 | A report is in the conflicts exactly if some place has it: reached through members of objects and elements of the arrays of profiles, subscriptions and modes, where all three versions differ and are neither all objects nor such arrays, or where both sides reorder such an array and not to the same ids in the same order; every report with its exact text |
| `MergeConflicts.ValueAtPlace` | src/config/merge.rs:122-172 | At every place the merge takes whole, inside elements too, a change of one side or the same change of both is taken, and of two different changes edited's with `prefer_edited` and current's without |
| `MergeConflicts.ReorderedIff` | src/config/merge.rs:239-243 | A side counts as reordered exactly if two ids it shares with base stand the other way round |
| `MergeConflicts.ArrayOrder` | src/config/merge.rs:203-222 | The order of every merged array that no shortcut decides, whatever conflicts: edited's survivors first, then current's others, when edited reordered base and current did not, or has edited's very ids, or edited is preferred; the other way round otherwise |
| `MergeConflicts.OrderConflictFollowsPreference` | src/config/merge.rs:206-215 | When both sides reorder an array, not to the same ids in the same order, that is reported and the merge stands in the preferred side's order, ids only the other side has following in that side's order |
| `MergeConflicts.CleanArrayOrder` | src/config/merge.rs:203-236 | With clean elements the merged ids are known exactly: the leading side's without what the other side deleted, then the other side's additions |
| `MergeConflicts.ReorderingsFollowPreference` | src/config/merge.rs:206-222 | Two different reorderings of the same elements: the merge has exactly the preferred side's order |
| `MergeConflicts.SwapsFollowPreference` | src/config/merge.rs:206-222 | A concrete one: three profiles, current swaps the first two, edited the last two |
| `MergeConflicts.DraftsShowValues` | src/config/merge/resolution.rs:3-21 | Two values that conflict make two different drafts, one with edited's value in that place and one with current's |
| `MergeConflicts.DraftsShowOrdersIff` | src/config/merge/resolution.rs:3-21 | Two orders that conflict, the elements being clean, make two different drafts if and only if the sides arrange what is left of the array differently |
| `MergeConflicts.AgreedSwapStillConflicts` | src/config/merge/resolution.rs:3-21 | A concrete order conflict whose two drafts are the same |
| `MergeAgain.ReapplyingTheEdit` | src/config/merge.rs:114-236 | Merging the same edit into a conflict-free result again is conflict-free if and only if the edit is repeatable, and then returns the result unchanged |
| `MergeAgain.ReorderingBesideAnAddition` | src/config/merge.rs:203-222 | Whenever edited only reorders base and current only adds to it, the merge is conflict-free and merging the same edit again is not |
| `MergeAgain.SwappingBesideAnAddition` | src/config/merge.rs:203-222 | The smallest such input: two profiles swapped, a third one added |
| `MergeAgain.OrderKeepingEditIsRepeatable` | src/config/merge.rs:206-222 | An edit that keeps the relative order of the base ids is always repeatable |
| `MergeAgain.UnchangedMeansUnedited` | src/config/merge.rs:122-130 | A conflict-free merge is base again only when edited is base |
| `ConfigDocuments.ConflictsDoNotDependOnTheSide` | src/config/merge.rs:28-54 | Whole documents: a merge answers with conflicts for one order of the sides exactly when it does for the other, with the same paths |
| `ConfigDocuments.MergedDocumentLosesNothing` | src/config/merge.rs:44-70 | At every path of objects but the last connected profile's, a merged document holds edited's value where edited changed base, else current's |
| `ConfigDocuments.MergedDocumentKeepsElements` | src/config/merge.rs:44-70 | The same at every path inside a profile or subscription, and for whole ones added or removed |
| `ConfigDocuments.MergedIsNotDangling` | src/config/merge.rs:59-65 | A merged document never names a last connected profile it does not hold |
| `ConfigDocuments.MergedLastConnected` | src/config/merge.rs:58-65 | Of a merged document the last connected profile is merged like any setting and dropped exactly when its profile is gone |
| `ConfigDocuments.MergedIff` | src/config/merge.rs:28-70 | A merge of documents is answered exactly when the three are valid, nothing conflicts, the merge decodes, and the document without a dangling last connected profile is valid; that document, spelled out field by field, is the answer |
| `ConfigDocuments.MergedIffClean` | src/config/merge.rs:28-70 | With checks that accept everything: answered exactly when nothing conflicts |
| `ConfigDocuments.RemovedProfileIsCleared` | src/config/merge.rs:58-65 | Removing the profile connected last is answered, without that setting |
| `RoutingDocuments.RoutingMergedIff` | src/config/merge.rs:73-111 | A merge of routing documents is answered, with itself, exactly when the three are valid, no place has anything to report, and it decodes and is valid |
| `RoutingDocuments.ModeEditsSurvive` | src/config/merge.rs:73-111 | Modes are merged by id: each member of a mode is edited's where edited changed it, else current's |
| `RoutingDocuments.ModeMemberConflicts` | src/config/merge.rs:159-171 | Two different changes of one member of a mode, such as its rules, conflict as a whole, under that member's path |
| `ConfigIo.Daemon.CommitModelConfig` | src/daemon/config_io.rs:96-102 | A commit merges from the remembered base if there is one; success replaces the configuration and forgets the base, failure changes nothing |
| `ConfigIo.Daemon.PersistConfigChanges` | src/daemon/config_io.rs:46-56 | A requested save takes precedence over a confirmed one; the whole new state and the effects left for each case |
| `ConfigIo.Daemon.PersistRequestedChange` | src/daemon/config_io.rs:58-85 | A failed requested save restores the configuration before it and leaves only harmless effects |
| `ConfigIo.Daemon.PersistConfirmed` | src/daemon/config_io.rs:87-94 | A failed confirmed save keeps the change and the base of the first change not yet saved |
| `ConfigIo.Daemon.Reload` | src/app/update/config_reload.rs:20-43 | A reload replaces the configuration, keeps the applied kill switch, unblocks saving and forgets the merge base |
| `ConfigIo.SaveEffectsAreConsumed` | src/daemon/config_io.rs:46-94 | Which effects remain: never a requested save, a confirmed one only where one update asks for both saves, which none does, and the requested one succeeds, and after a failed requested save only harmless ones |
| `ConfigIo.EffectsLeft` | src/daemon/config_io.rs:46-94 | Exactly which effects are left, in order: all but the save after a success; after a failed requested save only broadcasts and log lines; after a failed confirmed save all others; and a broadcast after every failure |
| `ConfigIo.CommitIff` | src/daemon/config_io.rs:115-149 | A commit succeeds exactly when saving is not blocked, the file is readable or absent, the documents are valid and merge without a conflict, the result is valid before and after normalizing, and the write goes through; and what it writes |
| `ConfigIo.UnreadableStays` | src/daemon/config_io.rs:124-132 | A file that cannot be read or understood is never overwritten |
| `ConfigIo.BlockedUntilReload` | src/daemon/config_io.rs:120-123 | While saving is blocked and nobody reloads, nothing is saved |
| `ConfigIo.ReloadUnblocks` | src/app/update/config_reload.rs:41-43 | After a reload the next save merges from the reloaded document and can succeed |
| `ConfigIo.NextMergeStartsFromTheLastCommit` | src/daemon/config_io.rs:87-102 | Over every run of requested and confirmed saves, reloads and editor commits, the base of the next merge is the configuration in memory just after the last save, reload or editor's commit |
| `ConfigIo.FailedRequestLeavesNoTrace` | src/daemon/config_io.rs:58-84 | A requested change whose save fails leaves configuration and merge base exactly as before |
| `ConfigIo.FailingSavesKeepConfirmedState` | src/daemon/config_io.rs:58-102 | While every save fails, memory holds exactly the confirmed changes and the merge base does not move |
| `ConfigIo.SaveCarriesConfirmed` | src/daemon/config_io.rs:134-146 | The two settings confirmed changes write: a saved document has memory's kill switch, and as last connected profile memory's where memory changed the base and the disk's elsewhere, dropped exactly when the document lacks that profile |
| `ConfigIo.NextSaveCarriesLostState` | src/daemon/config_io.rs:87-149 | The first save to succeed after any number of failures merges from the last agreed configuration and saves memory's side wherever the lost changes differ from it, and the disk's elsewhere: at every path the merge takes whole, inside every profile and subscription, and in the two settings confirmed changes write |
| `ConfigRuns.NextSaveCarriesKillSwitch` | src/app/update/config_reload.rs:20-43 | However failed saves, reloads and editor commits mix after a kill switch was applied, the next save carries it |
| `ConfigRuns.EditorCommitCarriesKillSwitch` | src/daemon/config_io.rs:249-264 | An editor's commit writes the applied kill switch, whatever the edited file and the file on disk say |
| `ConfigRuns.NextSaveCarriesLastConnected` | src/app/update/config_reload.rs:20-43 | After any mix of failed saves, reloads and editor commits the next save writes the confirmed last connected profile if nothing replaced the configuration, and otherwise leaves the disk's |
| `ConfigRuns.LastConnectedIsLostIff` | src/app/update/config_reload.rs:20-43 | Where its profile still exists and the disk does not name it anyway, the confirmed last connected profile is carried by the next save if and only if no reload and no successful editor commit came in between |
| `ConfigRuns.ReloadLosesLastConnected` | src/app/update/config_reload.rs:41-43 | A concrete run: a confirmed change whose save fails, a reload, and a save that writes the earlier profile |
| `ProcessSlots.ProcessSlot.RetireHandle` | src/daemon/process_slot.rs:24-30 | Moves the handle, if any, to the end of the retired list |
| `ProcessSlots.ProcessSlot.PublishAndRetire` | src/daemon/connection.rs:29-33 | One locked section publishes the attempt and retires the previous process |
| `ProcessSlots.ProcessSlot.TakeRetired` | src/daemon/process_slot.rs:33-40 | Takes all retired processes at once |
| `ProcessSlots.ProcessSlot.InstallIfCurrent` | src/daemon/connection.rs:75-83 | The process goes into the slot exactly when its attempt is still published, and is handed back to be stopped otherwise |
| `ProcessSlots.ProcessSlot.PollProcessExit` | src/daemon/process_slot.rs:61-80 | A dead process leaves the slot and is reported once, under the attempt published by then |
| `ProcessSlots.RetireKeepsKnown` | src/daemon/process_slot.rs:24-30 | Retiring loses no process and invents none |
| `ProcessSafety.StepKeepsInv` | src/daemon/connection.rs:21-107 | Every step of main loop, threads, ticker and shutdown keeps coordinator ownership, unique attempts, at most one known process, every live process known |
| `ProcessRuns.AtMostOneProcess` | src/daemon/connection.rs:29-89 | In every interleaving at most one process is live, it is in the slot or with the holder of the coordinator, and installing never overwrites another |
| `ProcessRuns.NothingRunsAfterShutdown` | src/daemon.rs:109-118 | Once shutdown has stopped what it took over, no process is live and none is ever started again |
| `ProcessRuns.AnswersAreUniqueAndTrue` | src/daemon/connection.rs:68-105 | Every attempt is answered at most once, and `Connected` always names the process that attempt put into the slot |
| `ProcessRuns.SupersededAttemptLeavesNothing` | src/daemon/connection.rs:43-89 | An attempt superseded before its process was in the slot never reports `Connected`, and when its thread has let go of the coordinator none of its processes is live |
| `ProcessRuns.ExitNamesOwnerIff` | src/daemon/process_slot.rs:61-80 | In every reachable state an exit is reported for the attempt that started the process if and only if the published attempt has put a process into the slot itself; one reported for another attempt names an attempt that has not reported `Connected` |
| `ProcessRuns.ExitMayNameAnotherAttempt` | src/daemon.rs:163 | A concrete run in which the exit is reported under a later attempt |
| `ProcessProgress.RetiredAreFetched` | src/daemon/connection.rs:220-227 | In every reachable state with a retired process a thread waits for the coordinator or is about to take what is retired, or the shutdown is |
| `ProcessProgress.QuietLeavesOnlyTheSlot` | src/daemon/process_slot.rs:33-40 | Whenever no thread is at work and the main loop is idle, no process but the slot's can be live |
| `ProcessProgress.DisconnectStopsEverything` | src/daemon/connection.rs:213-227 | After a disconnect, whatever was under way and until somebody connects again, no process gets into the slot, and when all threads have ended none is live |
| `ProcessProgress.EndedAttemptsAreAnswered` | src/daemon/connection.rs:75-105 | When an attempt's thread has ended, `Connected` with its process was sent if it put one into the slot, and `ConnectFailed` if it did not and is still the published attempt |
| `ProcessProgress.SupersededIsNotAnswered` | src/daemon/connection.rs:97-99 | An attempt superseded before its process was in the slot is not answered any more |
| `ProcessProgress.FinishingStartsNothing` | src/daemon/connection.rs:123-125 | A superseded attempt whose start has failed never starts another process |
| `ProcessProgress.CurrentAttemptStartsAgain` | src/daemon/connection.rs:139-142 | The published attempt can sleep and start again after a failure, and from its sleep only starts again |
| `ProcessProgress.NeverStuck` | src/daemon/connection.rs:40-107 | As long as a thread has not ended, or the main loop has a request or the shutdown to carry out, one of them can take a step |
| `RetryBudgets.RetryBudget.Step` | src/daemon/connection.rs:160-174 | One failure: starts the reason's clock, asks for another try within its limit, gives up after it |
| `RetryBudgets.KeepsTryingIffWithinLimits` | src/daemon/connection.rs:160-174 | An attempt goes on exactly as long as no two failures with one reason are as far apart as its limit |
| `RetryBudgets.BudgetRunsOut` | src/daemon/connection.rs:16-18 | However the reasons alternate, at most 3 failures of a busy binary and 24 of a denied TUN are passed over |
| `RetryBudgets.BudgetCanBeUsedUp` | src/daemon/connection.rs:16-18 | The 27 failures are attained |
| `RetryBudgets.StartRetryingUntilReady` | src/daemon/connection.rs:109-144 | At most 28 starts, each reason announced once; over the trace of all starts, readings of the flag and sleeps: every outcome but the last was not ready and within the limits; it ends as started exactly if the last start succeeded, as cancelled exactly if a cancellation was read, as failed exactly if the last start broke and none was read, and gives up exactly if it was not ready and none was read, too late after an earlier failure with the same reason |
| `RetryBudgets.SleepUnlessCancelled` | src/daemon/connection.rs:202-211 | Terminates, reads the flag before every poll interval, and has slept the whole duration exactly if no cancellation was read |
| `JsonPointers.UnescapeEscape` | src/config/json_pointer.rs:3-5 | Escaping is undone by RFC 6901 unescaping and leaves no slash |
| `JsonPointers.PointerRoundTrip` | src/config/json_pointer.rs:96-98 | Reading a pointer back gives the path it was made of |
| `JsonPointers.PointerOfIsInjective` | src/config/json_pointer.rs:96-99 | Distinct paths never share a pointer |
| `JsonPointers.DecimalIsInjective` | src/config/json_pointer.rs:125-126 | Distinct indices have distinct decimal tokens |
| `JsonScan.Scanner.IndexValue` | src/config/json_pointer.rs:66-81 | The recursive scan with one shared position, map and pointer buffer finds exactly what `ScanValue` says, ends on every byte string, and restores the buffer |
| `JsonScan.Scanner.IndexMembers` | src/config/json_pointer.rs:83-113 | Objects: members until the closing brace, failing where the source fails |
| `JsonScan.Scanner.IndexElements` | src/config/json_pointer.rs:115-142 | Arrays: elements with their indices until the closing bracket |
| `JsonScan.Scanner.String` | src/config/json_pointer.rs:144-160 | A string ends at its first unescaped quote |
| `JsonScan.Scanner.Consume` | src/config/json_pointer.rs:61-64 | Skips whitespace and takes the expected byte or nothing |
| `JsonScan.Scanner.IndexText` | src/config/json_pointer.rs:13-21 | The whole text from its first byte that is not whitespace, the root recorded first |
| `JsonScan.EveryScanIsSound` | src/config/json_pointer.rs:66-160 | On every byte string, valid or cut short, offsets lie within the text and with every path its parent is indexed |
| `JsonIndexes.NewIndex` | src/config/json_pointer.rs:13-29 | The offsets represent the places the scan finds; the line starts are zero and what follows each newline |
| `JsonIndexes.LineCountsNewlines` | src/config/json_pointer.rs:31-34 | The line of a pointer is one plus the newlines before its offset |
| `JsonIndexes.NearestLineIsDeepest` | src/config/json_pointer.rs:36-41 | For a pointer that is empty or starts with a slash the nearest line is that of its deepest indexed ancestor, an ancestor being indexed exactly when it is no longer; other pointers have none |
| `JsonTheorems.ValueScanned` | src/config/json_pointer.rs:66-142 | On a document in any layout RFC 8259 allows, the scan of a value ends where the value ends and adds exactly its places |
| `JsonExactness.PathsAreExact` | src/config/json_pointer.rs:66-142 | The paths found in a document with distinct keys are exactly those RFC 6901 evaluation locates, each at its place |
| `JsonExactness.IndexIsExact` | src/config/json_pointer.rs:12-29 | The index holds exactly the pointers of the document's values, each with the byte where its member key, array element or the root begins |
| `JsonExactness.LocationsHoldTargets` | src/config/json_pointer.rs:91-99 | At every location the text is the quoted key or the element the tokens name |
| `JsonConverse.WhatAScanReads` | src/config/json_pointer.rs:13-21 | On any byte string: a scan that gets through has read something laid out like a document from the first byte that is not whitespace on, where anything but a string, array or object passes for a scalar |
| `JsonConverse.MembersFoundStay` | src/config/json_pointer.rs:90-112 | On any byte string the index keeps what a member found, also when the scan fails there or later |
| `JsonConverse.ElementsFoundStay` | src/config/json_pointer.rs:122-141 | The same for elements |
| `JsonConverse.SkippedIsWhite` | src/config/json_pointer.rs:55-59 | Exactly the ASCII whitespace is skipped |
| `Scrolling.Scroll` | src/app/scroll.rs:11-74 | The counted loop is the capped number of steps; for sorted rows it is uncapped stepping |
| `Scrolling.CapNeverMatters` | src/app/scroll.rs:23-72 | For sorted rows no step beyond rows + visible changes anything, in either direction |
| `Scrolling.CapMattersForUnsortedRows` | src/app/scroll.rs:23 | That rows are sorted is needed: a concrete unsorted list on which the cap would show |
| `Scrolling.ScrollsCompose` | src/app/scroll.rs:11-74 | Two scrolls in one direction are one scroll by the sum |
| `Scrolling.FollowDownClamps` | src/app/scroll.rs:51-60 | For sorted rows, when the window moves down the selection becomes the first entry shown if that is further, and stays otherwise |
| `Scrolling.FirstAboveIsNext` | src/app/scroll.rs:28-43 | For sorted rows, at the end of the list the selection moves to the next entry and stays only at the last |
| `Scrolling.StepDownMoves` | src/app/scroll.rs:44-60 | While the window can move, a step down moves it one row; the selection stays while a row from its top on shows it and becomes the first entry shown otherwise |
| `Scrolling.StepDownAtEnd` | src/app/scroll.rs:23-43 | For sorted rows, with the window at the end a step down selects the next entry, if there is one |
| `Scrolling.ScrollMovesWindow` | src/app/scroll.rs:17-28 | A scroll moves the window by delta rows within the list, by one it is one step in that direction, by nothing it only clamps |
| `Scrolling.NothingScrolls` | src/app/scroll.rs:17-19 | Without room or anything to select nothing happens |
| `Scrolling.SelectionStaysVisible` | src/app/scroll.rs:44-71 | For sorted, contiguous rows a visible selection stays visible, whatever direction and distance, unless nothing in the window can be selected |
| `Scrolling.StepUpIsMirrored` | src/app/scroll.rs:22-70 | A step up is a step down on the mirrored rows |
| `LogLines.LinesAreLines` | src/services/log_tailer.rs:43-51 | Physical lines: each ends at its only newline, all but the last have one, and together they are the text |
| `LogLines.LinesAreUnique` | src/services/log_tailer.rs:43-51 | There is only one way to cut a text into physical lines |
| `LogLines.TailStart` | src/services/log_tailer.rs:32-55 | For every chunk size the backward scan finds where the last lines begin, 0 if there are no more |
| `LogLines.PrunedKeepsLastLines` | src/services/log_tailer.rs:14-29 | What pruning keeps is exactly the last lines |
| `LogLines.PruningTwice` | src/services/log_tailer.rs:7-55 | Pruning twice is pruning to the smaller limit |
| `LogLines.LogFile.PruneToLines` | src/services/log_tailer.rs:7-30 | A missing file stays missing; an existing one keeps exactly its last lines, none for limit zero |
| `LogLines.ReadLastLines` | src/services/log_tailer.rs:184-210 | For every chunk size, exactly the last lines of the region, without line ends |
| `LogLines.AsTextIs` | src/services/log_tailer.rs:204-209 | Of a line nothing but its newline and its trailing carriage returns is cut off |
| `LogHistory.LogTailer.LoadHistory` | src/services/log_tailer.rs:128-165 | The last entries of the stably sorted tails of all files; positions of readable files move to their ends |
| `LogHistory.StableSortIsStable` | src/services/log_tailer.rs:158 | The sort orders by time, keeps all entries and keeps the order of equal times |
| `LogHistory.TailsSuffice` | src/services/log_tailer.rs:149-164 | Merging the tails of files in order of time ends like merging the whole files |
| `LogHistory.HistoryIsGlobalTail` | src/services/log_tailer.rs:128-165 | For files without blank lines whose times never go back, the history is the end of all their lines in order of time |
| `LogHistory.EntriesIff` | src/services/log_tailer.rs:146-151 | A file contributes an entry for exactly the lines that are not blank |
| `LogHistory.LogTailer.Tail` | src/services/log_tailer.rs:94-126 | The lines behind each file's position in order of time; positions of readable files move to their ends |
| `LogFollowing.EachLineIsShownOnce` | src/services/log_tailer.rs:101-120 | As long as whole lines are appended, the tails show each of them exactly once and in order, however they are spread over the tails |
| `LogFollowing.HalfLinesAreSplit` | src/services/log_tailer.rs:110-120 | A line that is seen half written is shown in two pieces |
| `LogFollowing.HistoryIsNotRepeated` | src/services/log_tailer.rs:128-153 | A tail after the history shows nothing of it, and then exactly what was appended |
| `LogFollowing.HistoryStartsAtPosition` | src/services/log_tailer.rs:139-145 | The history of a file that has grown starts at the given position, that of a replaced one at its beginning |
| `LogFollowing.ShorterFileIsShownAgain` | src/services/log_tailer.rs:106-108 | A file that has become shorter is shown from the beginning |
| `GeoStores.GeoStore.AdoptSource` | src/geo.rs:403-420 | Records the source; a record of another source is replaced by an empty one |
| `GeoStores.AdoptionRecordsSource` | src/geo.rs:403-420 | After adopting a source its record names that source and no other; etag, check time and schedule stay if the record was this source's or nobody's and are gone otherwise; other records stay |
| `GeoStores.GeoStore.RecordOutcome` | src/geo.rs:422-456 | Writes etag and check time, and the schedule only under the epoch it was started in |
| `GeoStores.GeoStore.ResetUpdateSchedules` | src/geo.rs:458-473 | Starts a new epoch and resets every covered schedule in one saved change, or changes nothing |
| `GeoStores.GeoStore.EnsureUpdateSchedules` | src/geo.rs:475-497 | Seeds missing update dates only while the epoch is current |
| `GeoStores.Model.ApplyRuleSetStates` | src/app/model.rs:535-545 | Takes a snapshot over; under another epoch the schedules already known are kept |
| `GeoStores.ResetStartsOver` | src/geo.rs:458-473 | After a reset every covered rule set has the same fresh schedule, and no other schedule changed |
| `GeoStores.OutcomeDecidesSchedule` | src/geo.rs:429-455 | A recorded outcome touches only its own schedule and only under its epoch: failure asks for a retry, success ends retrying, and only a real download moves the update date |
| `GeoStores.OutcomeIsRecorded` | src/geo.rs:422-456 | Every field of every record after an outcome: etag and check time where the outcome has them, the schedule only under its epoch, and all of it only while the record describes the source |
| `GeoStores.SeedingFillsGaps` | src/geo.rs:475-497 | Seeding fills in exactly the missing update dates of the rule sets it covers, if updates are on and its epoch is current, and touches nothing else |
| `GeoStores.CurrentSnapshotCatchesUp` | src/app/model.rs:535-545 | A snapshot of the current metadata applied under the current epoch brings the model's schedules up to the disk's |
| `GeoStores.SnapshotShowsRecord` | src/geo.rs:319-336 | A snapshot shows each rule set as its record says, and as absent without a schedule when the record is another source's |
| `GeoStores.SnapshotReachesModel` | src/app/model.rs:535-545 | A snapshot brings presence and check time to the model under any epoch, schedules only under the current one, and leaves other rule sets alone |
| `GeoEpochs.StaleWorkersChangeNothing` | src/daemon/geo.rs:16-28 | Whatever runs after a reset, a step started under an older epoch leaves all retry and update dates on disk and in the model unchanged, unless and only unless it saves the adoption of a source other than the record's and the record has a date |
| `GeoEpochs.StaleWorkersDoNotMatter` | src/daemon/geo.rs:46-68 | While no rule set changes its source, leaving all stale steps out of a run gives the same schedules on disk and in the model |
| `GeoEpochs.ResetShutsOutOlderWorkers` | src/daemon/geo.rs:58-68 | The same for every run from the reset on |
| `GeoEpochs.FreshSchedulesReachModel` | src/daemon/geo.rs:58-68 | However older workers get in between, the snapshot after a reset brings the fresh schedules to the model |
| `GeoEpochs.CurrentOutcomeCounts` | src/geo.rs:422-456 | However older workers get in between, an outcome of the new epoch decides the schedule on disk |
| `GeoEpochs.CurrentSeedingCounts` | src/geo.rs:475-497 | However older workers get in between, a seeding of the new epoch writes its date |
| `GeoEpochs.ChangedSourceClearsSchedule` | src/geo.rs:409-416 | A concrete reset after which a stale download of a changed source clears the date the reset wrote |
| `RoutingConfigs.RoutingConfig.AdoptServiceRoutes` | src/config/routing.rs:387-417 | In place, exactly `Adopted`; answers whether anything changed |
| `RoutingConfigs.RoutingConfig.AddRegionModes` | src/config/routing.rs:354-375 | Adds the region's missing modes and rule sets unless the result is invalid; answers whether anything changed |
| `RoutingConfigs.RoutingConfig.InsertAll` | src/config/routing.rs:439-449 | Declares every given rule set |
| `RoutingLaws.AdoptedRulesFollowTheSettings` | src/config/routing.rs:389-406 | The rules to adopt are exactly those on the rule sets of services whose setting spells out proxy or direct, with that route |
| `RoutingLaws.OwnRulesStayLast` | src/config/routing.rs:405-415 | A mode keeps its own rules in order at the end; before them come exactly the wanted rules it had nothing for, geosite first, each kind in order |
| `RoutingLaws.RuleSetsStay` | src/config/routing.rs:394-398 | Declared rule sets stay as they are; every service with a route has its own declared |
| `RoutingLaws.AdoptedRulesAre` | src/config/routing.rs:389-415 | The rules of every mode afterwards, one by one: what it lacks of Steam's and Telegram's geosite rules, then of their geoip rules, each with the route the settings spell out, then its own |
| `RoutingLaws.AdoptedRuleSetsAre` | src/config/routing.rs:389-400 | Exactly the rule sets of services with a route are declared besides the old ones, each with its kind and URL |
| `RoutingLaws.AdoptAgain` | src/config/routing.rs:387-417 | Adopting again changes nothing |
| `RoutingLaws.RegionIsAddedOnce` | src/config/routing.rs:354-375 | Adding a region keeps all modes in order and in front and all rule sets; adding it again changes nothing |
| `RoutingLaws.RegionIsAddedIffValid` | src/config/routing.rs:354-375 | A region is added exactly when the result is valid: its modes whose ids were not there come last in their order, its rule sets are declared with kind and URL; otherwise nothing changes |
| `ServiceRouteMigration.Files.MoveServiceRoutes` | src/config.rs:191-206 | Writes the adopted routing, then clears the settings; a failed write ends the move |
| `ServiceRouteMigration.CrashesDoNotMatter` | src/config.rs:191-206 | However many starts were cut short, and wherever, the first complete one leaves the files an uninterrupted one would have left |
| `ServiceRouteMigration.NoRouteIsLost` | src/config.rs:191-206 | Until then the settings still hold the routes or the routing has adopted them |

## Left out

- HTTP, sockets, D-Bus, signals, subprocesses, the terminal, rendering, key bindings and onboarding: only "a start may
  succeed", "stopping kills" and "a write succeeds or fails" remain of them.
- Decoding and encoding configuration files, schema checks, `normalize`, `validate` and routing diagnostics: parameters,
  because each is a list of independent field rules.
- The recovery files and status messages of a failed save, and restoring onboarding after one.
- A startup whose own save failed: runs begin with the configuration and the disk agreed.
- Writes by other programs between the comparison and the rename of a file.
- The fairness of locks: the process theorems are about safety, not about every thread finishing.
- Which file contents a rule set has: two downloads of one rule set may overlap, and only metadata is modelled.
- UTF-8: the pointer index and the logs are modelled on bytes; decoding a quoted key is a parameter, and replacing
  invalid bytes of a log line is not modelled.
- The 32-bit array index of the JSON scanner and machine-sized counters: all counters are unbounded.
- How a line's timestamp is parsed.
- Writing the two drafts of a conflict as text with markers.
- Whether a routing configuration that has adopted service routes is valid.
- RetryBudgets.StartRetryingUntilReady: says nothing about which error is returned beyond its kind.
- ConfigIo.Daemon.Reload: leaves out the effects on a running connection and the status messages.
- ConfigIo.Daemon.PersistRequestedChange: leaves out the recovery file and restoring onboarding.
- LogHistory.LogTailer.LoadHistory: leaves out reads that fail after a file was opened, and replacing invalid UTF-8.
