# Verified models of Kira Studio's protocols and transformations

This project models the parts of Kira Studio whose correctness is hard to see by reading one
function, and proves what they promise. `dafny verify dfyconfig.toml` checks the whole project.

* **Docker restart tracker** (`Entries`, `RestoreOrder`, `RestoreRun`, `Reconcile`, `StepMeaning`,
  `TrackerRuns`, `Tracker`). One tick is a function of the previous snapshot and an observation of
  the engine; the in-place entry update, the status list and the outage fallback are the loops that
  compute it.
  `TrackerRuns` reasons about whole histories of ticks, any of which may fail to read or to save
  what is kept. `StepMeaning` says what a tick does of containers, entries and fields alone, as a
  reference for the step function. `RestoreOrder` is the level-by-level ordering with its cycle
  fallback, and `RestoreRun` the restart that follows it, with starts and health waits answered by
  an arbitrary oracle. `Tracker` is the object: cache, store, shown state, pushed states.
* **Docker edit and recreate** (`Recreate`, `Limits`, `NetworkEdit`, `Mounts`). Engines are
  objects whose every call may fail, by an arbitrary fault function. The recreate engine also keeps
  a log of its calls, with their answers and the container table after each, so that "the old
  container is still there" is said of every moment and not only of the end.
* **References and secret sealing** (`Refs`, `RefsMeaning`, `RefPort`, `Classify`, `UrlSecrets`,
  `SealMeaning`, `Sealing`, `Decimals`). A text is read as pieces (bytes, escapes, references);
  scanner, resolver, export and import are loops over byte offsets proved against that reading.
  `RefsMeaning` and `SealMeaning` say what texts mean and what is sealed without the functions that
  compute it.
* **JSON patch builder** (`JsonDoc`, `JsonPatch`, `Patcher`, `ClaudeSettings`). The specification
  is sections 4.1 and 4.3 of RFC 6902 over pointers as in section 4 of RFC 6901.
* **Stream pipeline** (`Lines`, `LogFramer`, `Coalescer`, `LogPump`). Chunks of bytes become capped
  lines, and lines become ordered batches, with timers that may call back late.
* **Keep-awake** (`KeepAwake`). Controller, driver, child processes and reapers, with the reapers'
  locked sections interleaved at every point where the source's locks allow it.
* **LCS** (`Lcs`), and helpers: `Prelude`, `Text`, `Sorting`, `Keys`.

Containers, timers, children, engines and stores are part of the model; clocks, health answers,
faults, observations and interleavings are arbitrary inputs. Strings are byte strings.

## Where the code does not do what is said of it

* After a reported loss the comment at `internal/keepawake/keepawake.go:132-134` has the next `Set`
  or `Rearm` acquire again. `Rearm` does nothing while nothing is held; the model follows the code
  (`KeepAwake.Controller.Rearm`).
* A loss that reaches the controller after a re-acquire makes it forget a live child.
  `KeepAwake.LateLossLeavesTwo` is such a run, and `KeepAwake.Drive` shows that this is the only
  way: a live child that is neither current nor asked to exit counted when some loss arrived late.
* Changing an endpoint's aliases detaches it and attaches it again without its links
  (`internal/docker/edit_apply.go:184-196`), and so does putting it back after a failed attach
  (`internal/docker/edit_apply.go:198-208`), which is reported as restored.
  `NetworkEdit.DoneIsAskedIff` and `NetworkEdit.RestoresIffNoLinks` are the exact conditions,
  `NetworkEdit.ChangedLosesLinks` and `NetworkEdit.RestoredLosesLinks` runs.
* A tick whose save fails is folded again from the snapshot before it
  (`internal/docker/restore_tracker.go:204-264`), so the restart of a stopped container can go
  unnoticed and its entry leave before it was down for a grace period.
  `TrackerRuns.FailedSaveShortensGrace` is such a history.
* A saved snapshot that cannot be loaded counts as none
  (`internal/docker/restore_tracker.go:303-319`), and the set rebuilt in its place is saved over it:
  a pending offer is lost although nothing was restored or dismissed.
  `Tracker.FailedLoadLosesOffer` is such a run, `Tracker.OfferSurvivesIffRead` the exact condition.
  `TrackerRuns.LeavesIff` says, with both kinds of failure, exactly when an entry leaves.
* The patch builder decodes three levels below a managed key
  (`internal/agentport/jsonpatch.go:49-57`). From the fifth key on it makes anew what it did not
  decode, so an append can replace the list it should extend and a set can drop what stands beside
  its path: `JsonPatch.DeepAppendIff` and `JsonPatch.DeepSetIff` say exactly when, for every depth,
  and `JsonPatch.SecondExportSilentIff` when a second export is silent. The settings export stays
  above (`ClaudeSettings.RequestsManaged`).
* Setting one JSON path twice compares the second value with the file's, not with the first one
  set. `JsonPatch.SetTwiceIff` says exactly when the second set is lost; the settings export can
  reach this only by exporting one variable twice (`ClaudeSettings.RequestsCompatible`).
* An in-place limit update cannot clear a limit, because the engine reads zero as "unchanged".
  `Limits.DeltaReachesIffNotClearing` shows that the clearing check of
  `internal/docker/edit.go:513-537` refuses exactly the updates that would not be reached.
* Export followed by import returns the text exactly when every secret is saved and alone on its
  derived variable and no plain variable is a derived one: `RefPort.RoundTripIff`, both ways.

## Model

| member | source | states |
|---|---|---|
| `Entries.SortEntriesSorted` | internal/docker/restore.go:140-147 | sorting gives a permutation in which an earlier name comes first, and among equal names no later ID before an earlier one; "earlier" is decided at the first differing byte |
| `Entries.SortEntriesUnique` | internal/docker/restore.go:140-147 | with unique IDs the sorted list is the only sorted permutation, so the sort's instability cannot show |
| `Text.LessIff` | internal/docker/restore.go:140-147 | the comparison of two strings is decided at the first byte where they part; a proper prefix comes first |
| `Entries.ParseDependsOn` | internal/docker/restore_actions.go:155-171 | the loop over the label reads every named service with its last condition, and never an empty service |
| `Entries.DependsOnReadsLabels` | internal/docker/restore_actions.go:155-171 | a label written from any list of dependencies, each a service with any number of further fields between blanks, reads back as that list; dependencies without a service are passed over |
| `Entries.LastWinsMeans` | internal/docker/restore_actions.go:155-171 | a service has the first field of the last dependency that names it as its condition, or none |
| `Entries.OnlyNamed` | internal/docker/restore_actions.go:155-171 | and no service is read that the label does not name |
| `RestoreOrder.LevellingHasNoCycle` | internal/docker/restore_actions.go:207-233 | services that can be levelled have no dependency cycle |
| `RestoreOrder.StuckHasCycle` | internal/docker/restore_actions.go:207-233 | a round that finds no ready service among those left exhibits a cycle |
| `RestoreOrder.LevellingUnique` | internal/docker/restore_actions.go:207-233 | a graph has at most one levelling |
| `RestoreOrder.RankServices` | internal/docker/restore_actions.go:207-233 | the level loop terminates, gives up exactly on graphs with a cycle and otherwise returns the levelling |
| `RestoreOrder.BuildGraph` | internal/docker/restore_actions.go:197-206 | the graph has the selected services, each with all services that its entries name; an edge of it is a name of another selected service |
| `RestoreOrder.OrderProject` | internal/docker/restore_actions.go:196-236 | the result is a permutation, by rank then name and ID without a cycle, by name and ID with one |
| `RestoreOrder.ProjectOrderRespects` | internal/docker/restore_actions.go:196-236 | without a cycle every selected dependency on another service comes first |
| `RestoreOrder.ProjectOrderUnique` | internal/docker/restore_actions.go:196-236 | the order is determined by the entries as a bag |
| `RestoreOrder.SplitProjects` | internal/docker/restore_actions.go:173-182 | the split keeps each project's entries in their order |
| `RestoreOrder.OrderRestore` | internal/docker/restore_actions.go:173-194 | the whole restart order: a permutation, standalone containers, then each project in order |
| `RestoreOrder.RestoreOrderRespects` | internal/docker/restore_actions.go:173-236 | in the whole order a dependency precedes its dependents wherever the project has no cycle |
| `RestoreOrder.StandaloneFirst` | internal/docker/restore_actions.go:173-194 | every standalone container precedes every project container |
| `RestoreRun.WaitDependencies` | internal/docker/restore_actions.go:241-262 | passes exactly when no needed container has failed or stays unhealthy |
| `RestoreRun.StartAll` | internal/docker/restore_actions.go:101-124 | each outcome follows from the failures before it |
| `RestoreRun.RunMeans` | internal/docker/restore_actions.go:101-124 | a container is skipped exactly when a container of its project, of a service its label names, failed earlier in the run, or had to be healthy and is not; otherwise it is started or refused as the engine answers |
| `RestoreRun.FailureReachesDependents` | internal/docker/restore_actions.go:87-126 | without cycles no container is started once one it depends on, through any chain, has failed |
| `RestoreRun.FailsIffCauseReachable` | internal/docker/restore_actions.go:87-126 | in any run a container stays down exactly when it reaches, through needed containers before it, one that fails by itself |
| `RestoreRun.SelectedMember` | internal/docker/restore_actions.go:87-100 | the entries restarted are those whose ID was picked |
| `RestoreRun.Restore` | internal/docker/restore_actions.go:69-127 | refused without IDs or for an ID that is not restorable; otherwise one result for each picked ID, from a run over the restart order |
| `Reconcile.Index` | internal/docker/restore.go:109-117 | both maps give the last container with an ID or a name |
| `Reconcile.RebuildTracking` | internal/docker/restore.go:119-131 | a fresh tracking snapshot of the running, eligible containers |
| `Reconcile.ItemStatuses` | internal/docker/restore.go:150-179 | the loop classifies each entry and sorts the items; `StepMeaning.StatusMeans` says what the classes are |
| `Reconcile.ItemsInOrder` | internal/docker/restore.go:150-179 | the items are one per entry, by project, then name, then ID, compared byte by byte |
| `Reconcile.OpenIsAnyOpen` | internal/docker/restore.go:181-188 | an item is open exactly when some entry is neither back nor gone |
| `Reconcile.Compact` | internal/docker/restore.go:267-289 | the in-place pass leaves the survivors at the front, knows every ID and sees every change |
| `Reconcile.UpdateEntries` | internal/docker/restore.go:267-303 | compaction and extension give the specified entries, and `changed` tells exactly when something changed |
| `Reconcile.OutageEntries` | internal/docker/restore.go:307-318 | keeps exactly the entries that the outage explains |
| `Reconcile.Run` | internal/docker/restore.go:203-263 | the imperative tick equals the step function and does not touch the snapshot it was given; the `StepMeaning` rows say what the step does without naming its parts |
| `StepMeaning.StatusMeans` | internal/docker/restore.go:150-179 | the four statuses over the containers seen: back iff the one with the ID runs, or none has the ID and the last of that name runs; gone iff none has the ID and no such namesake runs; waiting iff it is stopped, restarts by policy and the engine has not been up for the policy wait; restorable iff it is stopped and not waiting |
| `StepMeaning.OpenMeans` | internal/docker/restore.go:150-188 | an entry is open exactly when a container with its ID is there and stopped |
| `StepMeaning.ItemsMean` | internal/docker/restore.go:150-179 | the list shows each entry with its own data and status |
| `StepMeaning.RebuildMeans` | internal/docker/restore.go:119-131 | a set made anew has one entry for each running container that is neither excluded nor removed on exit, with its fields, and tracks the engine as observed |
| `StepMeaning.UpdatedMeans` | internal/docker/restore.go:267-303 | an entry after a tick is one of a running container, renamed and cleared, one newly marked stopped, one still within its grace period, or one of a new container |
| `StepMeaning.ChangesMeans` | internal/docker/restore.go:267-303 | the update counts as a change exactly when an entry has to be written down differently or a container is new |
| `StepMeaning.OfferMeans` | internal/docker/restore.go:246-263 | a tracking snapshot turns pending exactly when a moved boot marker finds an entry stopped, or, without markers, when an outage was seen that explains a stopped one; and what is then on offer, field by field |
| `StepMeaning.PendingMeans` | internal/docker/restore.go:230-244 | an offer stays as it is while one of its containers is stopped, following the boot marker and the daily save; otherwise the set is made anew |
| `StepMeaning.TrackingMeans` | internal/docker/restore.go:203-263 | every other tick carries the entries over and saves exactly when the marker moved, an entry changed or a day has passed |
| `TrackerRuns.UnchangedKeepsSnapshot` | internal/docker/restore.go:203-303 | a tick that reports no change returns its input but for context and host |
| `TrackerRuns.EntriesAlwaysWellKept` | internal/docker/restore.go:203-303 | in every run, whichever saves fail, entries kept and shown have unique IDs and are sorted |
| `TrackerRuns.RunningContainersTracked` | internal/docker/restore.go:119-147 | after every tracking tick each eligible running container has an entry |
| `TrackerRuns.LeavesOnlyAfterGrace` | internal/docker/restore.go:267-303 | a tick that carries entries over drops one only when its container is down and has counted as stopped for the grace period: a saved tick saw it down, and every tick since saw it down or could not be saved; if all saves worked, every tick of the period saw it down |
| `TrackerRuns.GoneAfterGrace` | internal/docker/restore.go:267-303 | and after such a period it has left |
| `TrackerRuns.LeavesIff` | internal/docker/restore.go:203-318 | exactly when a kept entry is not among those a tick shows, for histories with any pattern of failing loads and saves: unexplained by the outage that is offered, stopped for the grace period, or not seen running when the entries are made anew |
| `TrackerRuns.FailedSaveShortensGrace` | internal/docker/restore_tracker.go:204-264 | a history in which an entry leaves although a tick within the grace period saw its container running |
| `TrackerRuns.TurnsPendingIff` | internal/docker/restore.go:246-263 | a snapshot turns pending exactly on a moved boot marker or an outage with something still down |
| `TrackerRuns.PendingHasOpenItem` | internal/docker/restore.go:203-263 | every pending result has an open item under the same observation and clock |
| `TrackerRuns.PendingStaysOrRebuilds` | internal/docker/restore.go:230-244 | pending keeps its entries and detection time, or is left for a set rebuilt from the live containers |
| `TrackerRuns.OfferSurvivesIff` | internal/docker/restore_tracker.go:236-255 | an offer lives on through a tick exactly when it was at hand and something of it is open; otherwise a saved tick puts the live running set in its place |
| `TrackerRuns.HistoryUnique` | internal/docker/restore_tracker.go:204-264 | the ticks determine what is kept and shown |
| `TrackerRuns.PendingPhaseFrozen` | internal/docker/restore.go:230-244 | over a whole pending phase entries and detection time never change |
| `TrackerRuns.PendingGoesBackToRestart` | internal/docker/restore.go:203-263 | every pending snapshot of a run goes back to one tick that saw a restart and dated it |
| `Tracker.RestoreTracker.Publish` | internal/docker/restore_tracker.go:266-288 | pushes exactly when the engine differs from the last one, or the state from the one on record for it, or is the first and pending; the last pushed state is then the current one |
| `Tracker.WireMeans` | internal/docker/restore.go:190-200 | what is shown: pending exactly for a pending snapshot, with its own dates and one item for each entry under its status, each with the failure on record for its ID and no other; otherwise nothing |
| `Tracker.RestoreTracker.Recall` | internal/docker/restore_tracker.go:303-319 | the cached or the stored snapshot, and the cache stays equal to the store |
| `Tracker.RestoreTracker.MarkDown` | internal/docker/restore_tracker.go:185-202 | the first failure dates the outage, the third in a row asks for a new endpoint |
| `Tracker.RestoreTracker.Tick` | internal/docker/restore_tracker.go:204-255 | across arbitrary load and save failures the cache equals the store, and what is shown is what the tick computed |
| `Tracker.RestoreTracker.RestoreContainers` | internal/docker/restore_actions.go:69-127 | answers exactly while the engine at hand is reachable and pending; serves a request exactly when it names something and only open items; one result each, from a run over the restart order; failures recorded by ID |
| `Tracker.OpenIdsMean` | internal/docker/restore_actions.go:69-86 | an ID may be picked exactly when it has an entry whose container is there and stopped |
| `Tracker.RecordedMeans` | internal/docker/restore_actions.go:101-126 | the last result of a container decides its failure on record: none once started |
| `Tracker.OthersRecorded` | internal/docker/restore_actions.go:101-126 | containers without a result keep theirs |
| `Tracker.RestoreTracker.Dismiss` | internal/docker/restore_actions.go:129-152 | a dismissal shows nothing pending, and stores the rebuilt set if the save works |
| `Tracker.Watch` | internal/docker/restore_tracker.go:130-319 | from whatever an earlier history left in the store, however engines answer, whenever the context changes and whichever loads and saves fail, the object goes on with that history by the ticks of its visits: each with the outage clock of the visits before it, and with the saved snapshot at hand if it was loaded or saved before or can be loaded now |
| `Tracker.ClockDatesOutage` | internal/docker/restore_tracker.go:185-250 | the outage clock is the time of the first of the unanswered visits at the end, or zero |
| `Tracker.DismissIsTick` | internal/docker/restore_actions.go:129-152 | a dismissal goes on with the history too, by a tick that does not look at what is kept |
| `Tracker.OfferSurvivesIffRead` | internal/docker/restore_tracker.go:303-319 | a tick on a saved, still open offer keeps it exactly when it is cached or can be loaded |
| `Tracker.FailedLoadLosesOffer` | internal/docker/restore_tracker.go:303-319 | the run of a program that starts on a saved, open offer, cannot load it and saves over it |
| `Recreate.Run.ConnectExtra` | internal/docker/edit_apply.go:516-521 | the new container gains the extra networks, the old one is untouched |
| `Recreate.Run.RetireOld` | internal/docker/edit_apply.go:522-530 | the old container is stopped and moved off its name, or still recoverable |
| `Recreate.Run.PromoteNew` | internal/docker/edit_apply.go:531-539 | the new container has the final name and the old running state, or the old one is recoverable |
| `Recreate.Run.Swap` | internal/docker/edit_apply.go:516-540 | stops at the first failure in a state that a rollback can undo; completes when no call fails and the names are free |
| `Recreate.Run.Rollback` | internal/docker/edit_apply.go:480-513 | whatever failed before, and even when the new container cannot be removed, the calls are the removal, the rename back if it was renamed and the start if it was running, each once and in this order; the new container is listed exactly when its removal failed, the old one exactly when a rename or start of it failed; if only the removal fails and the old name is free the old container is as before and only the new one is listed; an empty report means that every container is as before |
| `Recreate.RecreateContainer` | internal/docker/edit_apply.go:571-607 | for every pattern of failing calls: which calls are made, in which order and up to which failure; the new container in place, or an honest report that lists at most the two containers at hand; the old container is there after every call but a successful last one; with free names and no failing call it succeeds |
| `Limits.ResourceDelta` | internal/docker/edit_apply.go:230-280 | the body names what changes and nothing else, but for the swap limit that goes along with the memory limit; "changed" exactly when the limits differ |
| `Limits.DeltaReachesIffNotClearing` | internal/docker/edit.go:479-537 | applying the delta with zero as "unchanged" gives the requested limits exactly when nothing is cleared |
| `Limits.EmptyIffEqual` | internal/docker/edit_apply.go:230-280 | an accepted delta is empty exactly for equal limits |
| `NetworkEdit.SpecNetworks` | internal/docker/edit.go:326-340 | the editor reads every attachment with the aliases that are not the container's own |
| `NetworkEdit.AliasesMean` | internal/docker/edit.go:232-243 | reading goes alias by alias and in order: only the short ID and the name of the container are dropped |
| `NetworkEdit.IndexMeans` | internal/docker/edit_apply.go:210-216 | of several entries of one name the last counts |
| `NetworkEdit.Network` | internal/docker/edit_apply.go:172-208 | one network as asked but for links, or as before, or put back without links, or detached; says by the failing calls which, and touches no other network |
| `NetworkEdit.Networks` | internal/docker/edit_apply.go:154-170 | the names are those read or wanted, in order; without a failing call it succeeds; success leaves every network as asked but for links; failure at a name leaves the names before it done and those after it as they were; the applied names are those passed that differed |
| `NetworkEdit.LeftIsWanted` | internal/docker/edit_apply.go:154-196 | what a success leaves: exactly the wanted networks, the wanted aliases, the old addresses and driver options; links only where the aliases did not change |
| `NetworkEdit.DoneIsAskedIff` | internal/docker/edit_apply.go:172-196 | a success leaves exactly what was asked if and only if no endpoint with links changes its aliases |
| `NetworkEdit.RestoresIffNoLinks` | internal/docker/edit_apply.go:198-208 | a run in which the attach fails and the put-back works leaves the network as it was exactly when its endpoint had no links |
| `NetworkEdit.RestoredLosesLinks` | internal/docker/edit_apply.go:198-208 | the run on an engine whose second call fails: restored is reported and the links are gone |
| `NetworkEdit.ChangedLosesLinks` | internal/docker/edit_apply.go:184-196 | the run on an engine that never fails: the change is reported and the links are gone |
| `Mounts.EditRows` | internal/docker/edit.go:218-230 | the rows shown, each keyed by the entry it came from |
| `Mounts.BindMeans` | internal/docker/edit.go:194-215 | a bind string is a target, a source and a target, or these with options: read-only exactly with an option "ro" between commas, a bind exactly when the source has a slash or backslash or begins with a dot |
| `Mounts.RowsMean` | internal/docker/edit.go:218-230 | a row is shown exactly for a bind, or for a mount of type bind or volume with a source, keyed by its place |
| `Mounts.UnchangedEntry` | internal/docker/edit_apply.go:398-424 | the key of an unchanged row leads back to its entry |
| `Mounts.MountsFor` | internal/docker/edit_apply.go:398-424 | deciding by key and equality decides by "unchanged", and the two loops build the specified config |
| `Mounts.RebuiltHolds` | internal/docker/edit_apply.go:398-424 | exactly what the rebuilt config holds: the mounts that are not listed, the entries of untouched rows, and for every other row a mount with its four fields and no options |
| `Mounts.RecreateShowsRequested` | internal/docker/edit_apply.go:398-424 | the rebuilt config shows exactly the requested bag of rows iff each row is untouched or showable; valid rows always are, and hidden mounts are kept in order |
| `Mounts.UnchangedKeptVerbatim` | internal/docker/edit_apply.go:398-424 | unchanged entries are kept as they were, options included |
| `Mounts.ValidateRows` | internal/docker/edit.go:609-622 | accepts exactly valid rows, and otherwise reports the first row at fault |
| `Refs.ReadSources` | internal/configfs/refs.go:34-66 | reading is unambiguous: good pieces come back from their own text |
| `Refs.ReadIsGood` | internal/configfs/refs.go:34-66 | reading loses nothing |
| `Refs.ScanRefs` | internal/configfs/refs.go:34-66 | the index loop finds the references of the reading with their offsets, or the first malformed one |
| `Refs.GapMeaning` | internal/configfs/resolve.go:46-50 | replacing all escapes in a gap agrees with reading it left to right |
| `Refs.Resolve` | internal/configfs/resolve.go:39-74 | one pass gives exactly the text's meaning, fails exactly when it has none, and names the secrets read; the `RefsMeaning` rows say what the meaning is |
| `RefsMeaning.VariableMeans` | internal/configfs/resolve.go:51-59 | "${n}" means the value of variable n, or nothing when there is none, whatever the secrets are |
| `RefsMeaning.SecretMeans` | internal/configfs/resolve.go:60-70 | "${secret:n}" means the value of secret n, or nothing when there is none, whatever the variables are |
| `RefsMeaning.TextMeans` | internal/configfs/resolve.go:39-74 | a text means its gaps, unescaped, and the values of its references, in order; it means nothing exactly when one of them is missing |
| `RefsMeaning.FirstUnescaped` | internal/configfs/resolve.go:46-50 | the first "$${" of a gap becomes "${", and the rest is unescaped in turn |
| `RefsMeaning.NothingToUnescape` | internal/configfs/resolve.go:46-50 | a gap without one stays as it is |
| `RefsMeaning.UsedMeans` | internal/configfs/resolve.go:60-70 | the secrets named are those of the secret references |
| `RefsMeaning.MalformedIff` | internal/configfs/refs.go:34-66 | a text is malformed exactly when no sequence of bytes, escapes and references spells it |
| `RefPort.DeriveEnvName` | internal/agentport/import.go:117-128 | the loop derives the variable name |
| `RefPort.DerivedIsEnvName` | internal/agentport/import.go:117-128 | a derived name is always a variable name |
| `RefPort.DerivedMeans` | internal/agentport/import.go:117-128 | the derived name is "KIRA_SECRET_" and one byte for each byte of the name: letters in upper case, digits, and "_" for anything else |
| `RefPort.SourcesInjective` | internal/configfs/refs.go:34-66 | different readings have different texts |
| `RefPort.Exporter.SecretEnv` | internal/agentport/export.go:113-122 | records the derivation; a collision is noted exactly when two names share a variable |
| `RefPort.Exporter.ExportNames` | internal/agentport/export.go:146-167 | every secret reference becomes its derived variable |
| `RefPort.Exporter.ClaudeRefs` | internal/agentport/export.go:146-167 | fails exactly on escapes and malformed text, and otherwise rewrites each secret reference and nothing else |
| `RefPort.MapSecretRefs` | internal/agentport/import.go:130-148 | the right-to-left rewrite replaces each derived variable by a saved name, whatever order the names are walked in |
| `RefPort.ExportIsRead` | internal/agentport/export.go:146-167 | exported text reads as the exported pieces |
| `RefPort.RoundTripIff` | internal/agentport/import.go:130-148 | export then import returns the text exactly when every secret is saved and alone on its variable and no plain variable is derived |
| `Classify.MergeLiterals` | internal/agentport/classify.go:144-157 | adjacent literals are joined, empty parts dropped |
| `Classify.MergeAlternates` | internal/agentport/classify.go:144-157 | after merging no two literals touch |
| `Classify.CutUrl` | internal/agentport/classify.go:99-142 | the two loops give the specified parts |
| `Classify.PartsKeep` | internal/agentport/classify.go:35-156 | the parts of any value spell the value |
| `Classify.PartsFramed` | internal/agentport/classify.go:35-156 | no literal part can open a reference with the secret that follows it |
| `UrlSecrets.EveryUrlIsProper` | internal/agentport/classify.go:99-142 | every text with "://" in it is one of the URLs that the next row is about |
| `UrlSecrets.UrlSealsExactly` | internal/agentport/classify.go:99-142 | of a URL, whatever its scheme and however its authority ends, exactly the user info, the credential-like segments and the secret parameters are sealed, in order |
| `UrlSecrets.EveryBareIsProper` | internal/agentport/classify.go:99-142 | every text without "://" is one of those that the next row is about |
| `UrlSecrets.BareSealsExactly` | internal/agentport/classify.go:99-142 | of a text without a scheme exactly the credential-like segments and the secret parameters are sealed |
| `SealMeaning.PartsSeal` | internal/agentport/classify.go:35-97 | what is sealed, location by location: of a header that is not harmless the value or what follows "Bearer ", "Basic " or "token "; of a variable with a credential's name or look the same; of an argument the value behind "=" of a credential flag, the argument after such a flag, or one that looks like a credential; a command that looks like one as a whole; of a URL what the rows above say; nothing else |
| `Sealing.CandidateIsName` | internal/agentport/import.go:150-184 | candidate names stay in the 64-byte grammar below ten million |
| `Sealing.CandidatesDiffer` | internal/agentport/import.go:164-184 | candidates never repeat, so the search ends |
| `Sealing.CandidateMeans` | internal/agentport/import.go:164-184 | the first candidate is the base, the k-th the base, a dash and k |
| `Sealing.SanitizedMeans` | internal/agentport/import.go:150-160 | the base is what the string offers from its first letter or digit on, in lower case, "-" for what a name cannot hold, at most 56 bytes; "secret" when there is nothing |
| `Sealing.Importer.Pick` | internal/agentport/import.go:164-184 | the first candidate that is free or already holds this value, in the name grammar while fewer than ten million names are taken |
| `Sealing.Importer.Assign` | internal/agentport/import.go:164-184 | the first fitting candidate of the sanitized base; no name gets two values, earlier assignments stay |
| `Sealing.Importer.Seal` | internal/agentport/import.go:186-218 | literals as they are, each secret as a reference to a name that holds it |
| `Sealing.SealedResolves` | internal/agentport/import.go:186-218 | sealed parts resolve to the value they were cut from |
| `Sealing.Importer.Value` | internal/agentport/import.go:186-218 | a native string without references resolves back to itself, and its text is the literals with one "${secret:n}" for each of the secrets that `SealMeaning.PartsSeal` names, n holding that secret |
| `Sealing.TextGrows` | internal/configfs/resolve.go:39-74 | more secrets do not change what resolved before |
| `Sealing.ImportAll` | internal/agentport/import.go:150-218 | over a whole import every such string resolves back to itself under the final secrets, and each text hides the credentials of its string |
| `JsonDoc.UnescapeEscape` | internal/agentport/jsonpatch.go:41-47 | the two replacements are undone by the pointer's own unescaping, and leave no slash |
| `JsonDoc.PathOfPtr` | internal/agentport/jsonpatch.go:41-47 | every pointer is read back as its path |
| `JsonDoc.EditIsPut` | internal/agentport/jsonpatch.go:70-88 | an add or replace whose parents exist writes exactly that value |
| `JsonDoc.AppendIsPut` | internal/agentport/jsonpatch.go:91-111 | adding at "/-" extends the list at the path |
| `Patcher.Patcher.Mark` | internal/agentport/jsonpatch.go:49-57 | the pointers known and the values decoded are exactly those down to the third level |
| `Patcher.Patcher.constructor` | internal/agentport/jsonpatch.go:27-39 | the maps hold the other top-level names and the managed subtrees |
| `Patcher.LoadedTracks` | internal/agentport/jsonpatch.go:27-57 | a new patcher tracks the document it was made from |
| `Patcher.Patcher.Ensure` | internal/agentport/jsonpatch.go:59-67 | adds the missing parents, outermost first |
| `Patcher.Patcher.Set` | internal/agentport/jsonpatch.go:70-88 | one step of the builder |
| `Patcher.Patcher.AppendTo` | internal/agentport/jsonpatch.go:91-111 | one step of the builder |
| `Patcher.Patcher.FindHook` | internal/agentport/claude_export.go:169-184 | finds a hook exactly when some known group has the matcher and the command |
| `JsonPatch.EnsuredTracks` | internal/agentport/jsonpatch.go:59-67 | making parents leaves the value's place the same and the builder in step with the document |
| `JsonPatch.SetTracks` | internal/agentport/jsonpatch.go:70-88 | a set keeps the builder in step |
| `JsonPatch.AppendTracks` | internal/agentport/jsonpatch.go:91-111 | an append keeps the builder in step |
| `JsonPatch.StepsTrack` | internal/agentport/jsonpatch.go:59-111 | over any acceptable list of requests the builder stays in step with the document that its operations make |
| `JsonPatch.PatchMakesWanted` | internal/agentport/jsonpatch.go:27-111 | the operations apply without error and make exactly the document with the requested sets and unions; sets may be five keys deep, appends four, or five where there is no list yet |
| `JsonPatch.OthersUnchanged` | internal/agentport/jsonpatch.go:70-111 | every path apart from the requested ones reads as before |
| `JsonPatch.AllSatisfied` | internal/agentport/jsonpatch.go:70-111 | every value set reads back and every list has its entry |
| `JsonPatch.ListsAreUnions` | internal/agentport/jsonpatch.go:91-111 | lists keep their entries in place and gain only requested ones, none twice |
| `JsonPatch.SecondExportSilentIff` | internal/agentport/jsonpatch.go:70-111 | run again on its own result the builder emits nothing, if and only if no path has more than four keys |
| `JsonPatch.DeepAppendIff` | internal/agentport/jsonpatch.go:91-111 | an append five or more keys down makes the list, and what stands at the fifth key, anew; the result is the wanted one exactly when the list was absent, empty or held just that entry and below the fifth key the file has nothing beside the path |
| `JsonPatch.DeepSetIff` | internal/agentport/jsonpatch.go:59-88 | a set five or more keys down makes what stands at the fifth key anew; the result is the wanted one exactly when below the fifth key the file has nothing beside the path |
| `JsonPatch.SetTwiceIff` | internal/agentport/jsonpatch.go:70-88 | two sets of one path give the second value exactly unless that is the file's own value after a different first one |
| `ClaudeSettings.RequestsCompatible` | internal/agentport/claude_export.go:107-165 | the settings export never gets in its own way exactly when no variable is exported twice |
| `ClaudeSettings.RequestsManaged` | internal/agentport/claude_export.go:107-165 | every path it uses has at most two keys and begins with a managed one, so the patcher has decoded it |
| `ClaudeSettings.Drive` | internal/agentport/claude_export.go:118-160 | the loops perform the listed requests in order |
| `ClaudeSettings.WantedIsExported` | internal/agentport/claude_export.go:107-184 | what the wanted document holds, by path and settings field: permissions/allow and permissions/deny are the old list and the missing entries of their own list and nothing else; model, default mode and status line read as given; env/k reads as its value for every variable not skipped and as before for a skipped one; each event has the hook's group or one that does the same; everything else reads as before |
| `ClaudeSettings.ShapeSuffices` | internal/agentport/claude_export.go:107-184 | it is enough for this that the objects and lists on the way are objects and lists or absent |
| `ClaudeSettings.ClaudeSettingsPatch` | internal/agentport/claude_export.go:107-165 | the operations make of the settings file the document of `ClaudeSettings.WantedIsExported`, and a second export emits nothing |
| `Coalescer.Coalescer.Push` | internal/appevent/coalescer.go:42-58 | items join the sequence at its end, or are ignored after the finish |
| `Coalescer.Coalescer.OnTimer` | internal/appevent/coalescer.go:60-68 | a callback, late or not, flushes what is pending and nothing else |
| `Coalescer.Coalescer.Finish` | internal/appevent/coalescer.go:73-81 | one final batch, once |
| `Coalescer.Coalescer.FlushLocked` | internal/appevent/coalescer.go:83-95 | the pending items leave as one batch and the timer is disarmed if it has not fired |
| `Coalescer.Drive` | internal/appevent/coalescer.go:42-95 | in every interleaving batches concatenate to the items pushed before the finish, the final batch is one and last, pending items have a callback to come, and no batch grows past the size limit by more than its last item |
| `Lines.LinesRebuild` | internal/linewriter/linewriter.go:24-43 | lines and open line spell the stream and hold no newline |
| `Lines.LinesUnique` | internal/linewriter/linewriter.go:24-43 | and are the only ones that do |
| `Lines.LinesOfSum` | internal/linewriter/linewriter.go:24-43 | more bytes only extend the open line and add lines |
| `Lines.Writer.Accumulate` | internal/linewriter/linewriter.go:45-55 | the buffer is the open line cut at the cap |
| `Lines.Writer.Take` | internal/linewriter/linewriter.go:57-64 | the line is handed on capped, marked if it was cut |
| `Lines.Writer.Write` | internal/linewriter/linewriter.go:24-43 | hands on exactly the lines that the bytes complete, and the buffer stays within the cap |
| `Lines.Writer.Flush` | internal/linewriter/linewriter.go:67-78 | hands on an open line once |
| `Lines.WriteAll` | internal/linewriter/linewriter.go:24-78 | for every split into chunks the lines are those of the whole stream, capped and marked |
| `Lines.HandedMeans` | internal/linewriter/linewriter.go:24-78 | however a stream is written as lines and a last piece, each is handed on whole up to 16 MiB, and cut there and marked beyond |
| `LogFramer.Line` | internal/docker/logs.go:108-123 | a line is its timestamp, a space and the text, one trailing CR off, marked if truncated |
| `LogFramer.LineMeans` | internal/docker/logs.go:108-123 | with timestamps on, what precedes the first space is the timestamp exactly when it is one; the rest, or all of it, is the text |
| `LogFramer.AllLinesMean` | internal/docker/logs.go:66-106 | the lines of a stream are those between its newlines and the last piece, each whole up to 64 KiB, and cut there and marked beyond |
| `LogFramer.PieceDue` | internal/docker/logs.go:66-94 | an open line over the cap is due at once and only once |
| `LogFramer.NewlineDue` | internal/docker/logs.go:66-94 | a newline makes the open line due unless it was handed out already |
| `LogFramer.LineFramer.Write` | internal/docker/logs.go:66-94 | hands out exactly the lines that become due on the stream; other streams are untouched |
| `LogFramer.LineFramer.Flush` | internal/docker/logs.go:97-106 | hands out each stream's open line |
| `LogFramer.DueThenLeft` | internal/docker/logs.go:66-106 | what was due and what a flush adds are all lines of the stream |
| `LogPump.PumpLogs` | internal/docker/logs.go:264-288 | for all chunks and interleavings, and whenever timers fire or call back, before a push, after the last one or after the end, the batches hold exactly each stream's lines in order, at most 500 a batch, and only the last ends the stream, with the error |
| `LogPump.BytesMean` | internal/docker/logs.go:264-288 | a stream's bytes are those of its own chunks in order, error output going to "stderr" and the rest to "stdout" |
| `KeepAwake.WantedMeans` | internal/keepawake/caffeinate.go:60-121 | the child that counts is one acquired with neither acquire nor release since |
| `KeepAwake.Driver.ReapChild` | internal/keepawake/caffeinate.go:92-107 | reports only the current, unreleased child |
| `KeepAwake.Driver.Acquire` | internal/keepawake/caffeinate.go:60-78 | the new child is current and unreleased, whatever happens before the lock |
| `KeepAwake.Driver.Release` | internal/keepawake/caffeinate.go:111-121 | nothing counts any more and the current child is killed |
| `KeepAwake.Controller.AcquireLocked` | internal/keepawake/keepawake.go:146-154 | called only while nothing is recorded as held; records whether it started |
| `KeepAwake.Controller.ReleaseLocked` | internal/keepawake/keepawake.go:156-160 | called only while something is recorded as held |
| `KeepAwake.Controller.Set` | internal/keepawake/keepawake.go:62-71 | acquires or releases exactly when the reasons and the record disagree |
| `KeepAwake.Controller.Rearm` | internal/keepawake/keepawake.go:76-84 | a fresh child while held, nothing at all otherwise |
| `KeepAwake.Controller.Close` | internal/keepawake/keepawake.go:110-116 | releases what is held and keeps the reasons |
| `KeepAwake.Controller.Deliver` | internal/keepawake/keepawake.go:135-140 | a delivered loss corrects the record; it makes the controller forget a child exactly when it is late, that is, when the driver counts on a newer one |
| `KeepAwake.Drive` | internal/keepawake/keepawake.go:62-160 | in every interleaving losses are only of the current, unreleased child and of none twice; while held, a child stands for the assertion or its loss is on its way; every live child is the current one, was asked to exit, or was the one that counted when a loss arrived late |
| `KeepAwake.ForgottenMeans` | internal/keepawake/keepawake.go:135-140 | the forgotten children are those that counted at a late delivery on the trace |
| `KeepAwake.LateLossLeavesTwo` | internal/keepawake/keepawake.go:135-140 | a run with two live, unreleased children |
| `Lcs.CellReached` | scripts/codegraph-duplicates.ts:267-276 | each table cell is the length of a common subsequence of the prefixes |
| `Lcs.CellBounds` | scripts/codegraph-duplicates.ts:267-276 | and no common subsequence of the prefixes is longer |
| `Lcs.LcsLengthUnique` | scripts/codegraph-duplicates.ts:267-276 | the length is one number and symmetric |
| `Lcs.LcsLength` | scripts/codegraph-duplicates.ts:267-276 | the rolling rows compute the exact length for all pairs of sequences |

## Left out

- Docker client calls, endpoint resolution, HTTP, IPC, windows, files and processes: only the engine calls that edit and restore make are modelled, as calls that may fail without effect.
- Health waiting is an arbitrary answer per waiter and dependency; wall-clock timing is an arbitrary clock.
- Tracker.RestoreTracker.Dismiss: is one atomic step; the source gives up its tick lock inside, and nothing finer is claimed. Pruning of old snapshots is not modelled.
- Recreate.RecreateContainer: the names in a rollback's report are not claimed to be current, since the source always reports the temporary one; building the new container's configuration, apart from its mounts, is not modelled, nor is the networking mode.
- NetworkEdit.Network: an endpoint is its aliases, addresses, driver options and links; MAC addresses and gateway priorities are not modelled, and aliases that the engine adds are those the container is listed under.
- Limits.DeltaReachesIffNotClearing: the cpuset pattern is a parameter.
- Mounts.EditRows: all that a mount has beyond type, source, target and read-only is one opaque value; ports, environment and labels of a recreate are left out as easy.
- Sealing.Importer.Value: writing secrets to the store, items and slots of the preview and provider-specific reference forms are left out; the credential patterns are parameters, and space and letter case are those of ASCII.
- SealMeaning.PartsSeal: supposes that the empty string does not look like a credential, as is so of the source's patterns.
- Sealing.CandidateIsName: claims the grammar while fewer than ten million names are taken, because a longer counter would pass 64 bytes.
- JsonPatch.PatchMakesWanted: documents are values; comments, key order, layout and number formats of the file are the parser library's.
- JsonPatch.DeepSetIff: is about one request on a freshly loaded document, as is the append; lists of requests are followed within the reach of `JsonPatch.PatchMakesWanted`.
- ClaudeSettings.ClaudeSettingsPatch: whether a variable is skipped is an input; rendering hooks and values to JSON is not modelled.
- LogFramer.Line: the timestamp test and the UTF-8 repair are parameters; the truncation mark is one character.
- LogPump.PumpLogs: demultiplexing the engine's stream is left out, the chunks of the two streams are inputs.
- Coalescer.Drive: the interval's length plays no part; a timer may fire at any time after it was armed.
- KeepAwake.Driver.Acquire: the command line, the executable lookup and what killing does to a process are left out; a child may exit at any time.
- Exec and log registries, approvals, settings, updates, SQL repositories and sandbox profiles: they would only add easy members.
