/** The restore pass of modules/windows.js (`WindowRestorer`): all three
    steps of a window in one call, the first exception abandoning the rest of
    that window's steps, and a count of the windows whose steps all went
    through.
 */
module WindowRestorer {
  import opened Environment
  import opened Layout
  import opened WindowCollector

  const NotReadyMessage: string := "Display system not ready"

  /** The mutation calls a record asks of a window, in order, each behind its
      guard: a workspace that is non-negative and exists, a non-negative
      monitor, a frame with all four fields present. */
  function PlannedSteps(env: Env, w: LiveWindow, rec: WindowRecord): seq<Mutation> {
    (if rec.workspace >= 0 && WorkspaceExists(env, rec.workspace)
     then [ChangeWorkspace(w.handle, rec.workspace)] else [])
    + (if rec.monitor >= 0 then [MoveToMonitor(w.handle, rec.monitor)] else [])
    + (match FrameOf(rec) case Some(f) => [MoveResizeFrame(w.handle, f)] case None => [])
  }

  /** The calls one window's restoration made, and whether it returned true. */
  datatype Outcome = Outcome(trace: seq<Event>, ok: bool)

  /** `restoreWindow`: workspace, then monitor, then frame; the first call that
      throws ends the window's restoration with false. */
  function RestoreWindow(env: Env, w: LiveWindow, rec: WindowRecord): Outcome
  {
    var workspace :=
      if rec.workspace >= 0 && WorkspaceExists(env, rec.workspace)
      then [Attempt(env, ChangeWorkspace(w.handle, rec.workspace))] else [];
    if workspace != [] && workspace[0].threw then Outcome(workspace, false)
    else
      var monitor :=
        if rec.monitor >= 0 then [Attempt(env, MoveToMonitor(w.handle, rec.monitor))] else [];
      if monitor != [] && monitor[0].threw then Outcome(workspace + monitor, false)
      else
        var frame :=
          match FrameOf(rec)
          case Some(f) => [Attempt(env, MoveResizeFrame(w.handle, f))]
          case None => [];
        if frame != [] && frame[0].threw then Outcome(workspace + monitor + frame, false)
        else Outcome(workspace + monitor + frame, true)
  }

  /** What `restoreWindow` does, against the guarded plan: the calls made
      are the planned calls up to and including the first one that throws,
      and the result is true exactly when none of the planned calls throws. */
  lemma RestoreWindowStopsAtFirstThrow(env: Env, w: LiveWindow, rec: WindowRecord)
    ensures var o := RestoreWindow(env, w, rec);
            && |o.trace| <= |PlannedSteps(env, w, rec)|
            && (forall k :: 0 <= k < |o.trace| ==> o.trace[k] == Attempt(env, PlannedSteps(env, w, rec)[k]))
            && (forall k :: 0 <= k < |o.trace| - 1 ==> PlannedSteps(env, w, rec)[k] !in env.throwing)
            && (o.ok <==> forall m :: m in PlannedSteps(env, w, rec) ==> m !in env.throwing)
            && (o.ok ==> |o.trace| == |PlannedSteps(env, w, rec)|)
            && (!o.ok ==> |o.trace| > 0 && PlannedSteps(env, w, rec)[|o.trace| - 1] in env.throwing)
  {
    RestoreWindowCalls(env, w, rec);
    RestoreWindowResult(env, w, rec);
  }

  lemma RestoreWindowCalls(env: Env, w: LiveWindow, rec: WindowRecord)
    ensures var o := RestoreWindow(env, w, rec);
            && |o.trace| <= |PlannedSteps(env, w, rec)|
            && (forall k :: 0 <= k < |o.trace| ==> o.trace[k] == Attempt(env, PlannedSteps(env, w, rec)[k]))
            && (forall k :: 0 <= k < |o.trace| - 1 ==> PlannedSteps(env, w, rec)[k] !in env.throwing)
  {
  }

  lemma RestoreWindowResult(env: Env, w: LiveWindow, rec: WindowRecord)
    ensures var o := RestoreWindow(env, w, rec);
            && (o.ok <==> forall m :: m in PlannedSteps(env, w, rec) ==> m !in env.throwing)
            && (o.ok ==> |o.trace| == |PlannedSteps(env, w, rec)|)
            && (!o.ok ==> |o.trace| > 0 && PlannedSteps(env, w, rec)[|o.trace| - 1] in env.throwing)
  {
  }

  /** The calls restoring one matched pair makes. */
  function WindowTrace(env: Env, p: Pair): seq<Event> {
    RestoreWindow(env, p.window, p.layout).trace
  }

  /** The traces of `f` over `xs`, one after another. */
  function ConcatMap<T>(f: T -> seq<Event>, xs: seq<T>): seq<Event> {
    if |xs| == 0 then [] else ConcatMap(f, xs[..|xs| - 1]) + f(xs[|xs| - 1])
  }

  /** Reference for a whole pass: every pair's restoration, one after another. */
  function PassTrace(env: Env, pairs: seq<Pair>): seq<Event> {
    ConcatMap(p => WindowTrace(env, p), pairs)
  }

  /** Reference for a whole pass: how many pairs restored without a throw. */
  function Succeeded(env: Env, pairs: seq<Pair>): (n: nat)
    ensures n <= |pairs|
  {
    if |pairs| == 0 then 0
    else
      var p := pairs[|pairs| - 1];
      Succeeded(env, pairs[..|pairs| - 1]) + (if RestoreWindow(env, p.window, p.layout).ok then 1 else 0)
  }

  /** What `restore` resolves to: the count and the calls made. */
  datatype Report = Report(count: nat, trace: seq<Event>)

  /** `restore`: rejects with "Display system not ready" before matching when
      the display is not ready (no call is made); otherwise restores every
      matched pair in order, a failing window not stopping later ones, and
      resolves to the number of pairs that restored without a throw. */
  method Restore(env: Env, saved: Layout) returns (r: Result<Report>)
    ensures r.Err? <==> !Ready(env)
    ensures r.Err? ==> r.error == NotReadyMessage
    ensures r.Ok? ==> r.value.count == Succeeded(env, FindMatchingWindow(saved, env.actors))
    ensures r.Ok? ==> r.value.count <= |FindMatchingWindow(saved, env.actors)|
    ensures r.Ok? ==> r.value.trace == PassTrace(env, FindMatchingWindow(saved, env.actors))
  {
    if !Ready(env) {
      return Err(NotReadyMessage);
    }
    var pairs := FindMatchingWindow(saved, env.actors);
    var count, trace := RestoreAll(env, pairs);
    return Ok(Report(count, trace));
  }

  /** The loop of `restore` over the matched pairs. */
  method RestoreAll(env: Env, pairs: seq<Pair>) returns (count: nat, trace: seq<Event>)
    ensures count == Succeeded(env, pairs) && count <= |pairs|
    ensures trace == PassTrace(env, pairs)
  {
    count := 0;
    trace := [];
    var i := 0;
    while i < |pairs|
      invariant 0 <= i <= |pairs|
      invariant count == Succeeded(env, pairs[..i])
      invariant trace == PassTrace(env, pairs[..i])
    {
      var o := RestoreWindow(env, pairs[i].window, pairs[i].layout);
      assert pairs[..i + 1][..i] == pairs[..i];
      if o.ok {
        count := count + 1;
      }
      trace := trace + o.trace;
      i := i + 1;
    }
    assert pairs[..i] == pairs;
  }

  lemma {:induction false} ConcatMapAppend<T>(f: T -> seq<Event>, a: seq<T>, b: seq<T>)
    ensures ConcatMap(f, a + b) == ConcatMap(f, a) + ConcatMap(f, b)
    decreases |b|
  {
    if |b| == 0 {
      assert a + b == a;
    } else {
      var n := |b| - 1;
      assert (a + b)[..|a + b| - 1] == a + b[..n];
      assert (a + b)[|a + b| - 1] == b[n];
      ConcatMapAppend(f, a, b[..n]);
    }
  }

  /** Failure isolation between windows: whatever happens to the windows
      before it, the k-th pair's restoration is carried out in full, and the
      pass goes on to the pairs after it. */
  lemma LaterWindowsStillRestored(env: Env, pairs: seq<Pair>, k: nat)
    requires k < |pairs|
    ensures PassTrace(env, pairs) ==
              PassTrace(env, pairs[..k])
              + WindowTrace(env, pairs[k])
              + PassTrace(env, pairs[k + 1..])
  {
    assert pairs == pairs[..k] + [pairs[k]] + pairs[k + 1..];
    var f := p => WindowTrace(env, p);
    ConcatMapAppend(f, pairs[..k] + [pairs[k]], pairs[k + 1..]);
    ConcatMapAppend(f, pairs[..k], [pairs[k]]);
    assert ConcatMap(f, [pairs[k]]) == WindowTrace(env, pairs[k]);
  }

  /** Without any throwing call, every planned call of every window is made
      and every matched window counts. */
  lemma {:induction false} NoThrowRestoresAll(env: Env, pairs: seq<Pair>)
    requires env.throwing == {}
    ensures Succeeded(env, pairs) == |pairs|
  {
    if |pairs| > 0 {
      NoThrowRestoresAll(env, pairs[..|pairs| - 1]);
    }
  }
}
