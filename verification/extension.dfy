/** The extension object of extension.js as a state machine on a logical
    clock. Main-loop timeout sources are a map from source id to a pending
    timer; the extension keeps its own registries of the ids it scheduled
    (`restoreTimeouts`, `suspendTimeouts`, `autoSaveTimeoutId`). Every window
    mutation a stage makes, and every notification of a restore pass, is
    appended to a trace.
 */
module Extension {
  import opened Environment
  import opened Layout
  import opened WindowCollector

  const WorkspaceDelayMs: nat := 100
  const MonitorDelayMs: nat := 200
  const FrameDelayMs: nat := 300
  const ResumeDelaySeconds: nat := 10
  const RetryDelaySeconds: nat := 5
  const AutoSaveIntervalMins: nat := 5

  const NotReadyReply: string := "Display system not ready"
  const StartedReply: string := "Restore started"

  /** What the callback of a pending timeout does when it fires. */
  datatype Action =
    | WorkspaceStage(window: LiveWindow, rec: WindowRecord)
    | MonitorStage(window: LiveWindow, rec: WindowRecord)
    | FrameStage(window: LiveWindow, rec: WindowRecord)
    | ResumeCheck
    | ResumeRetry
    | AutoSave
  {
    predicate IsStage() { WorkspaceStage? || MonitorStage? || FrameStage? }
    predicate IsResume() { ResumeCheck? || ResumeRetry? }
  }

  /** A pending timeout source: when it is due (ms on the logical clock) and
      what it does. */
  datatype Timer = Timer(due: nat, action: Action)

  /** The three states of the layout file: none has been saved yet, it
      cannot be read or parsed, or it holds a layout. */
  datatype LayoutFile = NotLoaded | LoadError | Parsed(layout: Layout)

  datatype State = State(
    env: Env,
    file: LayoutFile,
    now: nat,
    nextId: nat,
    sources: map<nat, Timer>,
    restoreTimeouts: seq<nat>,
    suspendTimeouts: seq<nat>,
    autoSaveTimeoutId: Option<nat>,
    autoRestoreAfterSuspend: bool,
    monitoring: bool,
    pendingLoads: nat,
    trace: seq<Event>)

  predicate Distinct(ids: seq<nat>) {
    forall i, j :: 0 <= i < j < |ids| ==> ids[i] != ids[j]
  }

  /** The ids of a registry as a set. */
  function IdSet(ids: seq<nat>): set<nat> {
    set id | id in ids
  }

  /** The registry with one id filtered out, order kept. */
  function Without(ids: seq<nat>, id: nat): (r: seq<nat>)
    ensures forall x :: x in r <==> x in ids && x != id
    ensures Distinct(ids) ==> Distinct(r)
  {
    if |ids| == 0 then []
    else
      var n := |ids| - 1;
      var prefix := Without(ids[..n], id);
      assert forall x :: x in ids[..n] ==> x in ids;
      assert Distinct(ids) ==> ids[n] !in ids[..n];
      if ids[n] == id then prefix else prefix + [ids[n]]
  }

  /** The consecutive ids `base`, `base + 1`, ..., `base + n - 1`. */
  function Ids(base: nat, n: nat): (r: seq<nat>)
    ensures |r| == n
    ensures forall k :: 0 <= k < n ==> r[k] == base + k
  {
    if n == 0 then [] else Ids(base, n - 1) + [base + n - 1]
  }

  /** The extension as constructed: nothing scheduled, no monitor, no read
      in flight, auto-restore after suspend off. */
  function Init(env: Env, file: LayoutFile): State {
    State(env, file, 0, 1, map[], [], [], None, false, false, 0, [])
  }

  /** Schedules a timer under a fresh source id, recorded in the restore registry. */
  function PushRestore(s: State, t: Timer): State {
    s.(nextId := s.nextId + 1,
       sources := s.sources[s.nextId := t],
       restoreTimeouts := s.restoreTimeouts + [s.nextId])
  }

  /** `_addRestoreTimeout`. */
  function AddRestoreTimeout(s: State, delayMs: nat, action: Action): State {
    PushRestore(s, Timer(s.now + delayMs, action))
  }

  /** `_addSuspendTimeout`: the delay is in seconds. */
  function AddSuspendTimeout(s: State, delaySeconds: nat, action: Action): State {
    s.(nextId := s.nextId + 1,
       sources := s.sources[s.nextId := Timer(s.now + delaySeconds * 1000, action)],
       suspendTimeouts := s.suspendTimeouts + [s.nextId])
  }

  /** `_clearRestoreTimeouts` as written: removes every registered source and
      empties the registry. A layout read in flight is not registered and
      keeps running. */
  function ClearRestoreTimeoutsAsWritten(s: State): State {
    s.(sources := s.sources - IdSet(s.restoreTimeouts), restoreTimeouts := [])
  }

  /** `_clearRestoreTimeouts` corrected: it also cancels the layout read in
      flight, so that a superseded or torn-down restore pass can no longer
      schedule stages. The rest of the model uses this one. */
  function ClearRestoreTimeouts(s: State): State {
    ClearRestoreTimeoutsAsWritten(s).(pendingLoads := 0)
  }

  /** `_clearSuspendTimeouts`. */
  function ClearSuspendTimeouts(s: State): State {
    s.(sources := s.sources - IdSet(s.suspendTimeouts), suspendTimeouts := [])
  }

  /** The three staged callbacks scheduled for one matched window. */
  function ScheduleStages(s: State, w: LiveWindow, rec: WindowRecord): State {
    var s1 := AddRestoreTimeout(s, WorkspaceDelayMs, WorkspaceStage(w, rec));
    var s2 := AddRestoreTimeout(s1, MonitorDelayMs, MonitorStage(w, rec));
    AddRestoreTimeout(s2, FrameDelayMs, FrameStage(w, rec))
  }

  /** The matching loop of `RestoreLayout`: for every Normal live window with
      a match, in enumeration order, three staged callbacks; the count goes
      up at match time. */
  function SchedulePass(s: State, saved: Layout, actors: Actors): (State, nat) {
    if |actors| == 0 then (s, 0)
    else
      var n := |actors| - 1;
      var (s1, count) := SchedulePass(s, saved, actors[..n]);
      var a := actors[n];
      if a.Some? && a.value.kind == Normal then
        match FindFirst(saved, a.value)
        case Some(i) => (ScheduleStages(s1, a.value, saved[i]), count + 1)
        case None => (s1, count)
      else (s1, count)
  }

  /** `RestoreLayout`, the part that runs before it replies: refuses when the
      display is not ready, leaving everything as it was; otherwise clears
      the restore registry and starts reading the layout file. The reply
      does not wait for the read. With the corrected clearing, the read it
      starts is the only one in flight. */
  function RestoreLayout(s: State): (State, string) {
    if !Ready(s.env) then (s, NotReadyReply)
    else (ClearRestoreTimeouts(s).(pendingLoads := 1), StartedReply)
  }

  /** `RestoreLayout` as written: an earlier read still in flight keeps running. */
  function RestoreLayoutAsWritten(s: State): (State, string) {
    if !Ready(s.env) then (s, NotReadyReply)
    else (ClearRestoreTimeoutsAsWritten(s).(pendingLoads := s.pendingLoads + 1), StartedReply)
  }

  /** The callback of the layout read, corrected: a missing layout file
      notifies that there is no saved layout, a read or parse that throws
      notifies the failure, and a layout read back schedules the pass against the
      windows of that moment and notifies the count. The display is not
      checked again. */
  function ApplyLayoutFile(s: State): State {
    match s.file
    case NotLoaded => s.(trace := s.trace + [NoSavedLayout])
    case LoadError => s.(trace := s.trace + [RestoreFailed])
    case Parsed(saved) =>
      var (scheduled, count) := SchedulePass(s, saved, s.env.actors);
      scheduled.(trace := scheduled.trace + [Restored(count)])
  }

  /** The callback of the layout read as written. GJS turns the error of
      `load_contents_finish` into an exception, so a missing layout file
      throws before `ok` is examined and the catch notifies the failure; the
      branch meant for that case is never taken. */
  function ApplyLayoutFileAsWritten(s: State): State {
    match s.file
    case NotLoaded => s.(trace := s.trace + [RestoreFailed])
    case _ => ApplyLayoutFile(s)
  }

  /** The main loop delivering the completion of a layout read in flight;
      nothing happens when none is. */
  function LoadCallback(s: State): State {
    if s.pendingLoads == 0 then s
    else ApplyLayoutFile(s.(pendingLoads := s.pendingLoads - 1))
  }

  /** A restore whose read completes before anything else happens: the
      request and its callback in one step. */
  function RestoreAtOnce(s: State): (State, string) {
    if !Ready(s.env) then (s, NotReadyReply)
    else (ApplyLayoutFile(ClearRestoreTimeouts(s)), StartedReply)
  }

  /** `SaveLayout`: the layout file afterwards reads back as the snapshot. */
  function SaveLayout(s: State): State {
    s.(file := Parsed(Collect(s.env.actors)))
  }

  /** The workspace stage when it fires: acts only for a non-negative
      workspace while the display is ready and the workspace exists; a throw
      is caught. */
  function WorkspaceStep(env: Env, w: LiveWindow, rec: WindowRecord): seq<Event> {
    if rec.workspace >= 0 && Ready(env) && WorkspaceExists(env, rec.workspace)
    then [Attempt(env, ChangeWorkspace(w.handle, rec.workspace))]
    else []
  }

  /** The monitor stage when it fires. */
  function MonitorStep(env: Env, w: LiveWindow, rec: WindowRecord): seq<Event> {
    if rec.monitor >= 0 && Ready(env)
    then [Attempt(env, MoveToMonitor(w.handle, rec.monitor))]
    else []
  }

  /** The frame stage when it fires. */
  function FrameStep(env: Env, w: LiveWindow, rec: WindowRecord): seq<Event> {
    match FrameOf(rec)
    case Some(f) => if Ready(env) then [Attempt(env, MoveResizeFrame(w.handle, f))] else []
    case None => []
  }

  /** The main loop dispatching source `id`. A one-shot callback's own id
      leaves the sources and its registry; no callback touches its own id,
      so dropping it before running the callback, as here, ends in the same
      state as dropping it after. The auto-save source repeats. A source
      that is no longer pending never runs. */
  function Fire(s: State, id: nat): State {
    if id !in s.sources then s
    else
      var t := s.sources[id];
      var s0 := s.(now := if t.due > s.now then t.due else s.now);
      var gone := s0.(sources := s0.sources - {id});
      match t.action
      case WorkspaceStage(w, rec) =>
        gone.(restoreTimeouts := Without(s.restoreTimeouts, id),
              trace := s.trace + WorkspaceStep(s.env, w, rec))
      case MonitorStage(w, rec) =>
        gone.(restoreTimeouts := Without(s.restoreTimeouts, id),
              trace := s.trace + MonitorStep(s.env, w, rec))
      case FrameStage(w, rec) =>
        gone.(restoreTimeouts := Without(s.restoreTimeouts, id),
              trace := s.trace + FrameStep(s.env, w, rec))
      case ResumeCheck =>
        var s1 := gone.(suspendTimeouts := Without(s.suspendTimeouts, id));
        if !Ready(s1.env) then AddSuspendTimeout(s1, RetryDelaySeconds, ResumeRetry)
        else RestoreLayout(s1).0
      case ResumeRetry =>
        RestoreLayout(gone.(suspendTimeouts := Without(s.suspendTimeouts, id))).0
      case AutoSave =>
        SaveLayout(s0).(sources := s0.sources[id := Timer(s0.now + AutoSaveIntervalMins * 60 * 1000, AutoSave)])
  }

  /** The PrepareForSleep signal, delivered only while the suspend monitor is
      connected: waking up schedules one resume check 10 s later. */
  function PrepareForSleep(s: State, sleeping: bool): State {
    if !s.monitoring || sleeping then s
    else AddSuspendTimeout(s, ResumeDelaySeconds, ResumeCheck)
  }

  /** `_startAutoSave`: replaces any running auto-save source by a new one. */
  function StartAutoSave(s: State): State {
    var s1 := match s.autoSaveTimeoutId
      case Some(previous) => s.(sources := s.sources - {previous})
      case None => s;
    s1.(nextId := s1.nextId + 1,
        sources := s1.sources[s1.nextId := Timer(s1.now + AutoSaveIntervalMins * 60 * 1000, AutoSave)],
        autoSaveTimeoutId := Some(s1.nextId))
  }

  /** `_stopAutoSave`. */
  function StopAutoSave(s: State): State {
    match s.autoSaveTimeoutId
    case Some(id) => s.(sources := s.sources - {id}, autoSaveTimeoutId := None)
    case None => s
  }

  /** `_startSuspendMonitor`: nothing when auto-restore is off; otherwise
      clears the suspend timeouts and connects the monitor. */
  function StartSuspendMonitor(s: State): State {
    if !s.autoRestoreAfterSuspend then s
    else ClearSuspendTimeouts(s).(monitoring := true)
  }

  /** `_stopSuspendMonitor` corrected: the PrepareForSleep handler is
      disconnected. The rest of the model uses this one. */
  function StopSuspendMonitor(s: State): State {
    ClearSuspendTimeouts(s).(monitoring := false)
  }

  /** `_stopSuspendMonitor` as written: `disconnect` is given the signal name
      rather than the handler id `connect` returned, the failure is caught,
      and the handler stays connected to the dropped proxy (until the proxy
      is collected, which the model does not represent). */
  function StopSuspendMonitorAsWritten(s: State): State {
    ClearSuspendTimeouts(s)
  }

  /** The switch of the panel menu: records the choice, then starts or stops
      the suspend monitor. Saving the choice to the settings file is left out. */
  function ToggleAutoRestore(s: State, on: bool): State {
    var s1 := s.(autoRestoreAfterSuspend := on);
    if on then StartSuspendMonitor(s1) else StopSuspendMonitor(s1)
  }

  /** The switch as written: switching off goes through the as-written
      `_stopSuspendMonitor`, which leaves the handler connected. */
  function ToggleAutoRestoreAsWritten(s: State, on: bool): State {
    var s1 := s.(autoRestoreAfterSuspend := on);
    if on then StartSuspendMonitor(s1) else StopSuspendMonitorAsWritten(s1)
  }

  /** `enable`, as far as timers and the monitor go. */
  function Enable(s: State): State {
    StartSuspendMonitor(StartAutoSave(s))
  }

  /** `disable`, as far as timers and the monitor go. */
  function Disable(s: State): State {
    StopSuspendMonitor(ClearRestoreTimeouts(StopAutoSave(s)))
  }

  /** `disable` as written: the layout read in flight keeps running and the
      PrepareForSleep handler stays connected. */
  function DisableAsWritten(s: State): State {
    StopSuspendMonitorAsWritten(ClearRestoreTimeoutsAsWritten(StopAutoSave(s)))
  }

  /** The main loop dispatching source `id` as written: a resume callback
      that restores makes the as-written request; every other source, and a
      resume check that finds the display not ready, runs as in `Fire`. */
  function FireAsWritten(s: State, id: nat): State {
    if id in s.sources && s.sources[id].action.IsResume()
       && (s.sources[id].action.ResumeRetry? || Ready(s.env))
    then
      var t := s.sources[id];
      RestoreLayoutAsWritten(s.(now := if t.due > s.now then t.due else s.now,
                                sources := s.sources - {id},
                                suspendTimeouts := Without(s.suspendTimeouts, id))).0
    else Fire(s, id)
  }

  /** The main loop delivering the completion of one of the layout reads in
      flight, as written: no read is ever cancelled, and a missing layout
      file ends in the failure notice. */
  function LoadCallbackAsWritten(s: State): State {
    if s.pendingLoads == 0 then s
    else ApplyLayoutFileAsWritten(s.(pendingLoads := s.pendingLoads - 1))
  }

  /** Everything that can happen to the extension. */
  datatype Input =
    | RestoreRequest
    // the layout read a restore started completes
    | LayoutLoaded
    // the settings read `enable` starts completes: it only sets the flag
    | SettingsLoaded(autoRestore: bool)
    // the auto-restore switch of the panel menu
    | AutoRestoreToggled(on: bool)
    | SaveRequest
    | SleepSignal(sleeping: bool)
    | Dispatch(id: nat)
    | EnableRequest
    | DisableRequest
    | EnvChange(env: Env)
    | FileChange(file: LayoutFile)

  function Next(s: State, input: Input): State {
    match input
    case RestoreRequest => RestoreLayout(s).0
    case LayoutLoaded => LoadCallback(s)
    case SettingsLoaded(autoRestore) => s.(autoRestoreAfterSuspend := autoRestore)
    case AutoRestoreToggled(on) => ToggleAutoRestore(s, on)
    case SaveRequest => SaveLayout(s)
    case SleepSignal(sleeping) => PrepareForSleep(s, sleeping)
    case Dispatch(id) => Fire(s, id)
    case EnableRequest => Enable(s)
    case DisableRequest => Disable(s)
    case EnvChange(env) => s.(env := env)
    case FileChange(file) => s.(file := file)
  }

  /** The extension as written: the restore request, the read's callback,
      the switch, dispatch and `disable` without the corrections; every
      other input as in `Next`. */
  function NextAsWritten(s: State, input: Input): State {
    match input
    case RestoreRequest => RestoreLayoutAsWritten(s).0
    case LayoutLoaded => LoadCallbackAsWritten(s)
    case AutoRestoreToggled(on) => ToggleAutoRestoreAsWritten(s, on)
    case Dispatch(id) => FireAsWritten(s, id)
    case DisableRequest => DisableAsWritten(s)
    case _ => Next(s, input)
  }

  /** The registry invariant: every pending source has a positive id below
      the next one to hand out; the restore registry holds exactly the
      pending stage callbacks, the suspend registry exactly the pending
      resume callbacks, each id once; `autoSaveTimeoutId` names exactly the
      pending auto-save source; at most one layout read is in flight. */
  ghost predicate Inv(s: State) {
    && 0 < s.nextId
    && (forall id :: id in s.sources ==> 0 < id < s.nextId)
    && (forall id :: id in s.restoreTimeouts <==> id in s.sources && s.sources[id].action.IsStage())
    && (forall id :: id in s.suspendTimeouts <==> id in s.sources && s.sources[id].action.IsResume())
    && (forall id :: id in s.sources && s.sources[id].action.AutoSave? ==> s.autoSaveTimeoutId == Some(id))
    && (s.autoSaveTimeoutId.Some? ==>
          s.autoSaveTimeoutId.value in s.sources && s.sources[s.autoSaveTimeoutId.value].action.AutoSave?)
    && Distinct(s.restoreTimeouts)
    && Distinct(s.suspendTimeouts)
    && s.pendingLoads <= 1
  }

  /** The registry invariant without the bound on reads in flight, which the
      extension as written does not keep. */
  ghost predicate RegistryInv(s: State) {
    Inv(s.(pendingLoads := 0))
  }
}
