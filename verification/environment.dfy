/** The window environment the restore engine runs against: the live windows
    the window manager enumerates, whether its workspace manager and display
    objects exist, how many workspaces there are, and which mutation calls
    throw. The engine never changes this environment directly; every mutation
    call it makes is recorded as an event in a trace.
 */
module Environment {

  datatype Option<+T> = None | Some(value: T)

  datatype Result<+T> = Ok(value: T) | Err(error: string)

  /** The window kinds the window manager distinguishes; only Normal windows
      are ordinary top-level application windows. */
  datatype WindowType =
    | Normal | Desktop | Dock | Dialog | ModalDialog | Toolbar | Menu
    | Utility | Splashscreen | OverrideOther

  datatype Rect = Rect(x: int, y: int, width: int, height: int)

  /** A live window. `handle` stands for the identity of the window object;
      `wmClass` is None when the window reports no class and `workspace` is
      None when the window belongs to no workspace. */
  datatype LiveWindow = LiveWindow(
    handle: nat,
    kind: WindowType,
    title: string,
    wmClass: Option<string>,
    workspace: Option<nat>,
    monitor: int,
    frame: Rect)

  /** The window actors in enumeration order; an actor's window may be null. */
  type Actors = seq<Option<LiveWindow>>

  /** The three geometry mutations the engine can ask of a window. */
  datatype Mutation =
    | ChangeWorkspace(window: nat, workspace: nat)
    | MoveToMonitor(window: nat, monitor: nat)
    | MoveResizeFrame(window: nat, frame: Rect)

  /** What the engine does that the outside world can observe: a mutation
      call (and whether it threw) or a user notification. */
  datatype Event =
    | Called(call: Mutation, threw: bool)
    | NoSavedLayout
    | RestoreFailed
    | Restored(count: nat)

  datatype Env = Env(
    actors: Actors,
    hasWorkspaceManager: bool,
    hasDisplay: bool,
    workspaceCount: nat,
    throwing: set<Mutation>)

  /** The readiness gate: both the workspace manager and the display exist. */
  predicate Ready(env: Env) {
    env.hasWorkspaceManager && env.hasDisplay
  }

  /** A non-null window of the Normal kind. */
  predicate IsNormal(a: Option<LiveWindow>) {
    a.Some? && a.value.kind == Normal
  }

  /** The window's class with a missing class read as the empty string. */
  function ClassOf(w: LiveWindow): string {
    match w.wmClass
    case Some(c) => c
    case None => ""
  }

  /** Looking a workspace up by index finds one. */
  predicate WorkspaceExists(env: Env, index: int) {
    0 <= index < env.workspaceCount
  }

  /** Making one mutation call: the environment decides whether it throws. */
  function Attempt(env: Env, m: Mutation): Event {
    Called(m, m in env.throwing)
  }

  /** The events of attempting every call of `ms` in order, none aborting the next. */
  function AttemptAll(env: Env, ms: seq<Mutation>): (events: seq<Event>)
    ensures |events| == |ms|
    ensures forall k :: 0 <= k < |ms| ==> events[k] == Called(ms[k], ms[k] in env.throwing)
  {
    if |ms| == 0 then [] else AttemptAll(env, ms[..|ms| - 1]) + [Attempt(env, ms[|ms| - 1])]
  }
}
