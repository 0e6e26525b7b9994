# save-my-windows restore engine, in Dafny

A model of the restore engine of the save-my-windows GNOME Shell extension, with proofs about it. The engine does four things:

- It snapshots the live windows into a layout of window records.
- It matches saved records back to live windows by window class and title.
- It restores the matched windows in one of two ways:
  - the staged pass of `extension.js`, with three timed callbacks per window;
  - the one-call pass of `WindowRestorer` in `modules/windows.js`.
- It keeps the registries of pending timeout sources, across new restores, resume from suspend, auto-save and `disable`.

The window environment is abstract (`Environment.Env`):

- the window actors in enumeration order, where an actor's window may be null;
- whether the workspace manager and the display exist (the readiness gate);
- how many workspaces there are;
- which mutation calls throw.

The engine never changes the windows. Each mutation call it makes goes into a trace as an event, with whether it threw. So does each notification of a restore pass.

Modules, one per file:

- `Environment` (environment.dfy): the window environment, `Option`/`Result`, mutation calls and events.
- `Layout` (layout.dfy): the saved window record. Each geometry field may be missing from a record read back from the layout file.
- `WindowCollector` (collector.dfy): the snapshot (`_collectWindows`, `WindowCollector.collect`) and the matcher (the inline loop of `RestoreLayout`, `WindowCollector.findMatchingWindow`). Both files contain the same two loops, so each is defined once.
- `WindowRestorer` (restorer.dfy): `restoreWindow` and `restore` of `modules/windows.js`.
- `Extension` (extension.dfy): the extension object of `extension.js` as a state machine on a logical clock in milliseconds.
  - Pending main-loop sources form a map from source id to `Timer(due, action)`.
  - The extension's own registries are `restoreTimeouts`, `suspendTimeouts` and `autoSaveTimeoutId`.
  - `Fire(s, id)` is the main loop dispatching one pending source. Any pending source may be dispatched next, so all orders are covered.
  - `RestoreLayout` is the part of the source's `RestoreLayout()` that runs before it replies: the readiness gate, clearing the restore registry, and starting the layout read. `pendingLoads` counts the reads in flight.
  - `LoadCallback` is the read's callback when the main loop delivers it: it schedules the pass against the windows of that moment. `RestoreAtOnce` is a restore whose read completes before anything else happens.
  - `Next` applies any input to the state:
    - a restore or save request, or the layout read completing;
    - the settings read completing, or the auto-restore switch being toggled;
    - a sleep signal, a dispatch, enable or disable;
    - a change of environment or of the layout file.
  - Four defects of the source are corrected in the model, and all are listed under "## Findings". The as-written versions are kept beside the corrected ones (`...AsWritten`), with lemmas showing what goes wrong.
  - `NextAsWritten` is the extension as written: the request, the read's callback, the switch, dispatch and `disable` without the corrections. It keeps the registry invariant too, without the bound on reads in flight (`RegistryInv`).
- `ExtensionProofs` (extension_proofs.dfy): the registry invariant `Inv`, and what a pass schedules, in terms of reference definitions:
  - `StageTimers` and `PassTimers` give the timers of a pass;
  - `PushAll` registers a sequence of timers under consecutive fresh ids.

  It also covers the resume path, teardown, and how the two restore variants relate.

Where the documented behaviour and the code disagree, the model follows the code:

- **Restore with no saved layout.** `RestoreLayout` replies "Restore started" whatever the file holds (extension.js:228). With no layout file, `load_contents_finish` throws under GJS's error convention (extension.js:155), so the read's callback notifies "Restore failed: …" (extension.js:222-225). The "No saved layout found" branch (extension.js:156-160) is never reached. The model keeps this as `ApplyLayoutFileAsWritten` and uses the intended notice elsewhere (see Findings).
- **How failures count in the staged pass.** A window counts when it is matched, whatever its stages do (extension.js:217).
- **Auto-restore after a restart.** The constructor sets the flag to false. `enable` starts the settings read and then reads the flag at once (extension.js:408-411), before the read's callback sets it (extension.js:396-398). So the first `enable` after construction never connects the monitor, whatever the saved setting. The model keeps this ordering (`SavedSettingWaitsForNextEnable`).
- **How failures count in the module variant.** `restoreWindow` abandons a window's remaining steps at the first exception (modules/windows.js:56-77), and `restore` counts only windows whose steps all went through. Stage isolation does not hold for this variant.

## Model

| member | source | states |
|---|---|---|
| WindowCollector.ToRecord | extension.js:88-97 | The record carries the window's title and monitor, its class or "" when none is reported, its workspace index or -1 exactly when it has no workspace, and a frame equal to the window's frame rect. |
| WindowCollector.CollectSpec | extension.js:82-100 | The snapshot has one record per non-null Normal window, no more, in enumeration order. The k-th record is the record of the k-th such window. |
| WindowCollector.FindFirst | extension.js:171-174 | Finds a saved entry equal on class and title exactly when one exists. Every entry before the one found differs from the window. |
| WindowCollector.FindMatchingWindowSpec | modules/windows.js:27-42 | The pairs are the Normal windows that have a match, in enumeration order. Each pair holds its window and the first saved entry that matches it. |
| WindowCollector.PairsUseFirstMatch | modules/windows.js:33-36 | A pair's layout matches its window on normalised class and title, and no earlier saved entry does. With duplicates, the first is used. |
| WindowCollector.MatchedWithinNormal | modules/windows.js:29-39 | There are never more pairs than Normal live windows. |
| WindowCollector.IdenticalEntriesYieldOnePair | modules/windows.js:33-39 | Two identical saved entries and one matching window give exactly one pair, and it points at entry 0. |
| WindowCollector.CollectedLayoutMatchesEveryWindow | extension.js:167-175 | Matching against a snapshot of the current windows pairs every Normal window: as many pairs as records. |
| WindowRestorer.RestoreWindowStopsAtFirstThrow | modules/windows.js:55-78 | The calls made are the guarded plan (workspace, monitor, frame) in order, up to and including the first call that throws. The result is true exactly when no planned call throws. |
| WindowRestorer.Restore | modules/windows.js:80-95 | Rejects with "Display system not ready" exactly when the display is not ready, before any call. Otherwise it resolves to the number of matched pairs restored without a throw (at most the number of pairs), and the calls made are every pair's restoration in order. |
| WindowRestorer.RestoreAll | modules/windows.js:86-94 | The loop's count is the reference count of successful pairs, and its calls are the reference pass trace. |
| WindowRestorer.LaterWindowsStillRestored | modules/windows.js:88-92 | A failing window does not stop the pass: the pass trace is the trace of the pairs before k, then pair k's full restoration, then the pairs after k. |
| WindowRestorer.NoThrowRestoresAll | modules/windows.js:88-94 | With no throwing call, every matched pair counts. |
| Extension.Without | extension.js:116 | Filtering an id out of a registry keeps exactly the other ids and keeps them distinct. |
| ExtensionProofs.InitInv | extension.js:56-64 | The extension as constructed satisfies the registry invariant. |
| ExtensionProofs.AddSuspendTimeoutInv | extension.js:122-129 | Registering a resume callback under a fresh id keeps the registry invariant. |
| ExtensionProofs.ClearRestoreTimeoutsInv | extension.js:131-134 | Removing every registered restore source and emptying the registry keeps the invariant. So does cancelling the read in flight, which the corrected version adds (see Findings). |
| ExtensionProofs.ClearSuspendTimeoutsInv | extension.js:136-139 | The same for the suspend registry. |
| ExtensionProofs.PushAllInv | extension.js:113-120 | Registering stage timers one after another under fresh ids keeps the registry invariant. |
| ExtensionProofs.PassTimersAt | extension.js:179-215 | In a pass, timer 3k+j is stage j of the k-th matched window: workspace at +100 ms, monitor at +200 ms, frame at +300 ms. |
| ExtensionProofs.SchedulePassIsPushAll | extension.js:166-218 | The matching loop registers exactly the stage timers of the pairs the matcher returns, in order, under consecutive fresh ids. Its count is the number of pairs. |
| ExtensionProofs.ApplyLayoutFileIsPushAll | extension.js:153-221 | The read's callback, with a layout read back, registers the pass's stage timers under fresh ids and notifies the number of matched windows. It does not check readiness again. |
| ExtensionProofs.LoadCallbackFrame | extension.js:153-226 | Whenever the read's callback runs, it only adds sources: older sources stay as they were, and new ones are stage callbacks under fresh ids. The suspend registry, the auto-save id and the monitor stay, and the invariant holds. |
| ExtensionProofs.RestoreAtOnceIsRequestThenCallback | extension.js:141-228 | A restore whose read completes before anything else happens gives the request's reply, and its state is the request followed by the read's callback. When the display is not ready, it changes nothing. |
| ExtensionProofs.RestoreAtOnceReady | extension.js:150-221 | This covers a ready restore whose read returns a layout before any other input. The reply is "Restore started". The restore registry holds exactly the new pass's 3 ids per matched window, no older stage is pending and no read is left in flight. Other sources, the suspend registry and the auto-save id are kept. The notified count is the number of matched windows. The invariant holds afterwards. (This relies on the corrected clearing; see Findings.) |
| ExtensionProofs.RestoreAtOnceSources | extension.js:150-218 | After such a restore, the pending sources are those that survived clearing the restore registry, plus the pass timers under fresh consecutive ids. |
| ExtensionProofs.RestoreLayoutNotReady | extension.js:145-148 | When the display is not ready, the reply is "Display system not ready" and nothing changes, the restore registry included. |
| ExtensionProofs.RestoreWithoutSavedLayout | extension.js:155-160 | With the corrected callback (see Findings), when no layout has been saved the reply is "Restore started", pending restore timeouts are cleared, and the only other effect is the "no saved layout" notice that the `ok`-false branch gives. No window is touched. |
| ExtensionProofs.RestoreWithoutSavedLayoutAsWritten | extension.js:153-160 | As written, when no layout has been saved the read throws, so the callback only notifies the failure, as for an unreadable layout, and never the "no saved layout" notice. |
| ExtensionProofs.RestoreWithUnreadableLayout | extension.js:222-225 | When the read or the parse throws, the reply is still "Restore started", and the only other effect is the failure notice. |
| ExtensionProofs.RestoreLayoutFrame | extension.js:141-150 | The request adds no source and removes only stage callbacks. It keeps the suspend registry, the auto-save id, the monitor and the trace. When the display is ready, the restore registry is empty and exactly one read is in flight afterwards. The invariant holds. (This relies on the corrected clearing; see Findings.) |
| ExtensionProofs.SupersededStageNeverRuns | extension.js:145-150 | After a ready request, no stage callback of an earlier pass is pending and only the new read is in flight. After that read's callback, the earlier stage is still gone. Dispatching it does nothing either way. (This relies on the corrected clearing; see Findings.) |
| ExtensionProofs.OverlappingRestoresBothRunAsWritten | extension.js:150-153 | As written, two requests before the first read completes both run their pass: 6 stage timers per matched window end up pending, and the count is notified twice. |
| ExtensionProofs.OverlappingRestoresRunOnce | extension.js:150-153 | With the corrected clearing, the second request cancels the first read: 3 stage timers per matched window are pending, and the count is notified once. |
| ExtensionProofs.DisableBeforeLoadAsWritten | extension.js:414-426 | As written, `disable` before the read completes leaves the read running. Its callback then registers 3 stage timers per matched window after teardown and notifies the count. |
| ExtensionProofs.WakeAfterDisableAsWritten | extension.js:355-366 | As written, the PrepareForSleep handler stays connected after `disable`, so a wake-up schedules a resume check after teardown. |
| ExtensionProofs.RestoreRightAfterSaveCountsEveryWindow | extension.js:106-111 | Saving and then restoring at once notifies a count of one per saved record. |
| ExtensionProofs.StageCallbackRun | extension.js:113-120 | The state after a stage callback is the state before, with four differences. The clock is at the due time. The stage's own id is gone from the sources and from the restore registry, the registry's order kept. The trace has gained that stage's own call: at most one, and none when the display is not ready. The invariant holds. |
| ExtensionProofs.StageStep | extension.js:179-215 | A stage makes at most one mutation call, and none when the display is not ready at firing time. |
| ExtensionProofs.InlineStagesAttemptEveryPlannedCall | extension.js:180-214 | With the display ready, a window's three stages together attempt every planned call, each stage whatever the earlier ones threw. |
| ExtensionProofs.TermWindowScenario | extension.js:179-215 | A reopened "Term" window is matched to its record. Its pass holds three timers, due 100, 200 and 300 ms after the pass starts. Those stages, in that order of due times, move it to workspace 1, move it to monitor 0, and resize it to 800x600 at (10, 20). |
| ExtensionProofs.OneCallRestoreIsPrefixOfStaged | modules/windows.js:55-78 | The one-call restore makes a prefix of the staged restore's calls: all of them when it returns true, none past the first throw. |
| ExtensionProofs.VariantCounts | extension.js:217-221 | The staged pass notifies the number of matched windows. The one-call pass counts at most that many, and exactly that many when no call throws. |
| ExtensionProofs.WakeSchedulesOneCheck | extension.js:322-327 | Waking up schedules exactly one resume check, 10 s later, in the suspend registry. Going to sleep schedules nothing. |
| ExtensionProofs.ResumeCheckRetriesOnce | extension.js:327-338 | A resume check that finds the display not ready schedules exactly one retry 5 s later, restores nothing, and keeps the invariant. |
| ExtensionProofs.ResumeCallbackRestores | extension.js:332-342 | A resume check that finds the display ready, and the retry in any case, make one restore request, remove their own id and schedule no further resume callback. |
| ExtensionProofs.AutoSaveFireInv | extension.js:284-292 | The auto-save callback writes the snapshot and keeps the invariant. |
| ExtensionProofs.StartAutoSaveInv | extension.js:281-293 | Starting auto-save replaces any earlier auto-save source and records the new id. |
| ExtensionProofs.FireInv | extension.js:113-129 | Every dispatch keeps the invariant. A one-shot callback's id is gone from the sources and from both registries afterwards. (This relies on the corrected clearing; see Findings.) |
| ExtensionProofs.FireAsWrittenInv | extension.js:113-139 | As written, every dispatch keeps the registry invariant, without the bound on reads in flight. That includes a resume callback making the as-written restore request. |
| ExtensionProofs.EnableInv | extension.js:401-412 | `enable` keeps the invariant. |
| ExtensionProofs.ToggleAutoRestoreSpec | extension.js:262-275 | After the switch, the flag and the monitor both follow the choice, and after switching off a wake-up changes nothing. No resume callback is pending. The restore registry and the auto-save id are unchanged, and the invariant holds. (This relies on the corrected `_stopSuspendMonitor`; see Findings.) |
| ExtensionProofs.ToggleOffAsWritten | extension.js:271-273 | As written, after switching auto-restore off while the monitor is connected, the flag is off and the suspend registry is empty, but a wake-up still schedules a resume check under a fresh id. |
| ExtensionProofs.SavedSettingWaitsForNextEnable | extension.js:395-411 | Right after construction and `enable`, a saved setting of true only sets the flag. The monitor stays off, and a wake-up changes nothing, until `disable` and `enable` connect it. |
| ExtensionProofs.DisableTearsDown | extension.js:414-426 | With the corrected `_clearRestoreTimeouts` and `_stopSuspendMonitor` (see Findings), after `disable` no source is pending, both registries are empty, the auto-save id is null, the monitor is gone and no read is in flight. No dispatch, sleep signal or read completing can change anything after that. |
| ExtensionProofs.NextInv | extension.js:113-139 | Every input keeps the registry invariant, including its bound of one read in flight. (This relies on the corrected clearing; see Findings.) |
| ExtensionProofs.NextAsWrittenInv | extension.js:113-139 | As written, every input keeps the registry invariant without the bound on reads in flight. This covers overlapping reads, `disable` leaving the read and the sleep handler in place, and the switch leaving the handler connected. Every id in a registry is pending under that registry's kind of callback, each id appears once, and the auto-save id names exactly the pending auto-save source. |

## Left out

- The panel menu and notifications UI (`_addPanelMenu`, modules/ui.js): widgets only. Notifications appear in the trace only as the three outcomes of a restore pass.
- The D-Bus export in `enable`/`disable` and the login1 proxy (modules/suspend.js): IPC plumbing. The suspend monitor is the `monitoring` flag, and its signal is the `SleepSignal` input.
- modules/storage.js, `ensureConfigDir`, the settings file (`loadSettings`, `saveSettings`, `_saveAutoRestoreSetting`): file I/O. The completion of the settings read that `enable` starts is the `SettingsLoaded` input, which may arrive at any time.
- JSON encoding and decoding are library calls. The layout file is `LayoutFile`:
  - `NotLoaded` when no layout has been saved, so the file does not exist;
  - `LoadError` when the read or the parse throws;
  - `Parsed` with the records otherwise.
- `SaveLayout` is modelled as the layout file reading back the snapshot.
- `ListWindows` only encodes the snapshot as JSON, so it is not modelled apart from `Collect`.
- When the layout file is read. `load_contents_async` (extension.js:153) reads the file at some moment between the request and its callback. The model reads `file` when the callback is delivered. So a save or a file change in between is always seen by the model, while the source may miss it.
- Only one layout read is in flight at a time, and any earlier read is cancelled. This follows the corrected clearing; the as-written behaviour is under "## Findings". A cancelled read's callback is dropped without effect, while a `Gio.Cancellable` would make it run into the catch and notify "Restore failed".
- Real time and GLib's main loop. Time is a logical clock in milliseconds, and a dispatch moves the clock to the timer's due time when that is later. Which pending source fires next is left open.
- Logging and the wording of notifications are left out.
- Exceptions from the read accessors (`get_title`, `get_wm_class`, `get_workspace`, ...) are left out. The only calls that throw are the three mutations, and the environment decides which ones do.
- The try/catch inside both `_isDisplaySystemReady` functions is left out. Reading the two globals is modelled as never throwing.
- An exception in the middle of the matching loop of `RestoreLayout` is left out. It would leave part of a pass scheduled and report "Restore failed".
- The reply "Restore failed: ..." of `RestoreLayout`'s outer catch is left out. `ensureConfigDir` throwing is the only way to reach it.
- The mutations do not change the environment. A restored window is not moved in the model, so later snapshots do not reflect earlier restores.
- A saved record is assumed to hold a string title, class and integer workspace and monitor. A record with other JSON types is not modelled.
- Geometry fields that are present but not numbers are not modelled.
- Whether a call throws depends on the call's value, not on when it is made. The same call on the same window throws on every attempt.
- Calling `_startSuspendMonitor` twice is not modelled beyond clearing the suspend registry. The source would connect a second proxy.
- The model does not represent the collection of a dropped D-Bus proxy. `StopSuspendMonitorAsWritten` keeps the handler connected for good, while the source keeps it only until the proxy is collected.
- Failure to write the layout file during auto-save is left out.

## Findings

| source | as written | input that shows it | evidently intended | confidence | as-written member | corrected member |
|---|---|---|---|---|---|---|
| extension.js:150-153 | `_clearRestoreTimeouts` runs before the layout read starts, and the read is not tracked, so a second `RestoreLayout` leaves the first read running. | Two `RestoreLayout` calls before the first read completes, with one matching window: both reads schedule their pass, so 6 stage timers are pending and both run. | A new restore cancels the pass still in flight, read included. | plausible, not executed | ExtensionProofs.OverlappingRestoresBothRunAsWritten | ExtensionProofs.OverlappingRestoresRunOnce |
| extension.js:414-426 | `disable` clears the registered timers but not the read a restore started. | `RestoreLayout`, then `disable` before the read completes, with one matching window: the callback registers 3 stage timers after teardown, and they move the window. | After `disable`, no callback can run that moves a window. | plausible, not executed | ExtensionProofs.DisableBeforeLoadAsWritten | ExtensionProofs.DisableTearsDown |
| extension.js:360 | `disconnect` gets the signal name instead of the handler id `connect` returned at line 320. The failure is caught at lines 361-363, and the handler stays connected to the dropped proxy. | Monitor connected, `disable`, then PrepareForSleep with sleeping false: a resume check is scheduled after teardown, and it later calls `RestoreLayout`. | `disable` disconnects the handler, so no sleep signal has any effect afterwards. | plausible, not executed | ExtensionProofs.WakeAfterDisableAsWritten | ExtensionProofs.DisableTearsDown |
| extension.js:271-273 | Switching auto-restore off in the panel menu calls `_stopSuspendMonitor`, which has the same broken `disconnect` at line 360. | Monitor connected, switch turned off, then PrepareForSleep with sleeping false: a resume check is scheduled, and it later calls `RestoreLayout`. | After switching off, no wake-up restores the layout. | plausible, not executed | ExtensionProofs.ToggleOffAsWritten | ExtensionProofs.ToggleAutoRestoreSpec |
| extension.js:155-160 | Under GJS, `load_contents_finish` throws when the layout file is missing, and when it returns its `ok` is always true, so the `!ok` branch is never reached. | No layout saved yet, then `RestoreLayout` with the display ready: the callback notifies "Restore failed: …" instead of "No saved layout found". | A missing layout file gives the "No saved layout found" notice. | plausible, not executed | ExtensionProofs.RestoreWithoutSavedLayoutAsWritten | ExtensionProofs.RestoreWithoutSavedLayout |
