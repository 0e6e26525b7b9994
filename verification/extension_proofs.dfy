/** Properties of the extension state machine: the registry invariant and its
    preservation by every input, what one restore pass schedules, that a new
    pass supersedes the old one, the resume path, teardown, and how the
    staged restore relates to the one-call restore of modules/windows.js.
 */
module ExtensionProofs {
  import opened Environment
  import opened Layout
  import opened WindowCollector
  import opened WindowRestorer
  import opened Extension

  // ---------------------------------------------------------------------
  // Registry bookkeeping
  // ---------------------------------------------------------------------

  lemma DistinctAppend(ids: seq<nat>, id: nat)
    requires Distinct(ids) && id !in ids
    ensures Distinct(ids + [id])
  {
    var r := ids + [id];
    forall i, j | 0 <= i < j < |r|
      ensures r[i] != r[j]
    {
      if j == |ids| {
        assert r[i] == ids[i];
      } else {
        assert r[i] == ids[i] && r[j] == ids[j];
      }
    }
  }

  lemma InitInv(env: Env, file: LayoutFile)
    ensures Inv(Init(env, file))
  {
  }

  lemma AddSuspendTimeoutInv(s: State, delaySeconds: nat, action: Action)
    requires Inv(s) && action.IsResume()
    ensures Inv(AddSuspendTimeout(s, delaySeconds, action))
  {
    assert s.nextId !in s.suspendTimeouts;
    DistinctAppend(s.suspendTimeouts, s.nextId);
  }

  lemma ClearRestoreTimeoutsInv(s: State)
    requires Inv(s)
    ensures Inv(ClearRestoreTimeouts(s))
  {
  }

  lemma ClearSuspendTimeoutsInv(s: State)
    requires Inv(s)
    ensures Inv(ClearSuspendTimeouts(s))
  {
  }

  // ---------------------------------------------------------------------
  // What one restore pass schedules
  // ---------------------------------------------------------------------

  /** The three stage timers of one matched window, 100, 200 and 300 ms after `now`. */
  function StageTimers(p: Pair, now: nat): seq<Timer> {
    [ Timer(now + WorkspaceDelayMs, WorkspaceStage(p.window, p.layout)),
      Timer(now + MonitorDelayMs, MonitorStage(p.window, p.layout)),
      Timer(now + FrameDelayMs, FrameStage(p.window, p.layout)) ]
  }

  /** The stage timers of a whole pass, window after window. */
  function PassTimers(pairs: seq<Pair>, now: nat): (ts: seq<Timer>)
    ensures |ts| == 3 * |pairs|
  {
    if |pairs| == 0 then []
    else PassTimers(pairs[..|pairs| - 1], now) + StageTimers(pairs[|pairs| - 1], now)
  }

  /** The timers `ts` under the consecutive ids from `base`. */
  function TimerMap(base: nat, ts: seq<Timer>): map<nat, Timer> {
    map id: nat | base <= id < base + |ts| :: TimerAt(base, ts, id)
  }

  function TimerAt(base: nat, ts: seq<Timer>, id: nat): Timer
    requires base <= id < base + |ts|
  {
    ts[id - base]
  }

  /** Reference for registering timers one after another in the restore
      registry: the timers take the next `|ts|` ids, in order. */
  function PushAll(s: State, ts: seq<Timer>): State {
    s.(nextId := s.nextId + |ts|,
       sources := s.sources + TimerMap(s.nextId, ts),
       restoreTimeouts := s.restoreTimeouts + Ids(s.nextId, |ts|))
  }

  lemma {:induction false} PassTimersAt(pairs: seq<Pair>, now: nat, k: nat, j: nat)
    requires k < |pairs| && j < 3
    ensures PassTimers(pairs, now)[3 * k + j] == StageTimers(pairs[k], now)[j]
  {
    var n := |pairs| - 1;
    if k < n {
      PassTimersAt(pairs[..n], now, k, j);
    }
  }

  lemma PushAllSpec(s: State, ts: seq<Timer>)
    ensures var r := PushAll(s, ts);
            && (forall id :: id in r.sources <==> id in s.sources || s.nextId <= id < s.nextId + |ts|)
            && (forall id :: id in s.sources && id < s.nextId ==> r.sources[id] == s.sources[id])
  {
  }

  lemma PushAllAppend(s: State, a: seq<Timer>, b: seq<Timer>)
    ensures PushAll(s, a + b) == PushAll(PushAll(s, a), b)
  {
    IdsAppend(s.restoreTimeouts, s.nextId, |a|, |b|);
    TimerMapAppend(s.sources, s.nextId, a, b);
    assert |a + b| == |a| + |b|;
  }

  lemma IdsAppend(prefix: seq<nat>, base: nat, m: nat, n: nat)
    ensures prefix + Ids(base, m + n) == prefix + Ids(base, m) + Ids(base + m, n)
  {
    IdsSplit(base, m, n);
  }

  lemma IdsSplit(base: nat, m: nat, n: nat)
    ensures Ids(base, m + n) == Ids(base, m) + Ids(base + m, n)
  {
    var l := Ids(base, m + n);
    var r := Ids(base, m) + Ids(base + m, n);
    forall k | 0 <= k < m + n
      ensures l[k] == r[k]
    {
      if k >= m {
        assert r[k] == Ids(base + m, n)[k - m];
      }
    }
  }

  lemma TimerMapAppend(sources: map<nat, Timer>, base: nat, a: seq<Timer>, b: seq<Timer>)
    ensures sources + TimerMap(base, a + b) == sources + TimerMap(base, a) + TimerMap(base + |a|, b)
  {
    var l := sources + TimerMap(base, a + b);
    var r := sources + TimerMap(base, a) + TimerMap(base + |a|, b);
    assert l.Keys == r.Keys;
    forall id | id in l
      ensures l[id] == r[id]
    {
      if base + |a| <= id < base + |a| + |b| {
        assert l[id] == (a + b)[id - base] == b[id - (base + |a|)];
      } else if base <= id < base + |a| {
        assert l[id] == (a + b)[id - base] == a[id - base];
      }
    }
  }

  lemma PushAllEmpty(s: State)
    ensures PushAll(s, []) == s
  {
    assert s.sources + TimerMap(s.nextId, []) == s.sources;
    assert s.restoreTimeouts + Ids(s.nextId, 0) == s.restoreTimeouts;
  }

  lemma PushAllInv(s: State, ts: seq<Timer>)
    requires Inv(s)
    requires forall k :: 0 <= k < |ts| ==> ts[k].action.IsStage()
    ensures Inv(PushAll(s, ts))
  {
    var r := PushAll(s, ts);
    forall id: nat
      ensures id in r.sources ==> 0 < id < r.nextId
      ensures id in r.restoreTimeouts <==> id in r.sources && r.sources[id].action.IsStage()
      ensures id in r.suspendTimeouts <==> id in r.sources && r.sources[id].action.IsResume()
      ensures id in r.sources && r.sources[id].action.AutoSave? ==> r.autoSaveTimeoutId == Some(id)
    {
      PushAllPoint(s, ts, id);
    }
    if s.autoSaveTimeoutId.Some? {
      PushAllPoint(s, ts, s.autoSaveTimeoutId.value);
    }
    PushAllDistinct(s, ts);
  }

  /** One id after registering `ts`: an older source is kept as it was, a
      new one is a stage callback, and the restore registry gains exactly
      the new ids. */
  lemma PushAllPoint(s: State, ts: seq<Timer>, id: nat)
    requires forall k :: 0 <= k < |ts| ==> ts[k].action.IsStage()
    requires forall x :: x in s.sources ==> x < s.nextId
    ensures var r := PushAll(s, ts);
            && (id in r.sources <==> id in s.sources || s.nextId <= id < s.nextId + |ts|)
            && (id in s.sources ==> r.sources[id] == s.sources[id])
            && (s.nextId <= id < s.nextId + |ts| ==> id in r.sources && r.sources[id].action.IsStage())
            && (id in r.restoreTimeouts <==> id in s.restoreTimeouts || s.nextId <= id < s.nextId + |ts|)
  {
    var added := Ids(s.nextId, |ts|);
    if s.nextId <= id < s.nextId + |ts| {
      assert TimerMap(s.nextId, ts)[id] == ts[id - s.nextId];
      assert added[id - s.nextId] == id;
    }
  }

  lemma PushAllDistinct(s: State, ts: seq<Timer>)
    requires Distinct(s.restoreTimeouts)
    requires forall id :: id in s.restoreTimeouts ==> id < s.nextId
    ensures Distinct(PushAll(s, ts).restoreTimeouts)
  {
    var r := PushAll(s, ts).restoreTimeouts;
    var added := Ids(s.nextId, |ts|);
    forall i, j | 0 <= i < j < |r|
      ensures r[i] != r[j]
    {
      var m := |s.restoreTimeouts|;
      if i < m && m <= j {
        assert r[i] in s.restoreTimeouts;
        assert r[j] == added[j - m];
      }
    }
  }

  lemma PassTimersAreStages(pairs: seq<Pair>, now: nat)
    ensures forall k :: 0 <= k < |PassTimers(pairs, now)| ==> PassTimers(pairs, now)[k].action.IsStage()
  {
    forall k | 0 <= k < |PassTimers(pairs, now)|
      ensures PassTimers(pairs, now)[k].action.IsStage()
    {
      PassTimersAt(pairs, now, k / 3, k % 3);
    }
  }

  lemma ScheduleStagesIsPushAll(s: State, p: Pair)
    ensures ScheduleStages(s, p.window, p.layout) == PushAll(s, StageTimers(p, s.now))
  {
    ScheduleStagesUnfolded(s, p);
    PushAllThree(s, StageTimers(p, s.now));
  }

  /** Three registrations in a row, written out. */
  function PushThree(s: State, ts: seq<Timer>): State
    requires |ts| == 3
  {
    var n := s.nextId;
    s.(nextId := n + 3,
       sources := s.sources[n := ts[0]][n + 1 := ts[1]][n + 2 := ts[2]],
       restoreTimeouts := s.restoreTimeouts + [n, n + 1, n + 2])
  }

  lemma ScheduleStagesUnfolded(s: State, p: Pair)
    ensures ScheduleStages(s, p.window, p.layout) == PushThree(s, StageTimers(p, s.now))
  {
    var n := s.nextId;
    assert s.restoreTimeouts + [n] + [n + 1] + [n + 2] == s.restoreTimeouts + [n, n + 1, n + 2];
  }

  lemma PushAllThree(s: State, ts: seq<Timer>)
    requires |ts| == 3
    ensures PushAll(s, ts) == PushThree(s, ts)
  {
    var n := s.nextId;
    assert Ids(n, 3) == [n, n + 1, n + 2];
    TimerMapThree(s.sources, n, ts);
  }

  lemma TimerMapThree(sources: map<nat, Timer>, n: nat, ts: seq<Timer>)
    requires |ts| == 3
    ensures sources + TimerMap(n, ts) == sources[n := ts[0]][n + 1 := ts[1]][n + 2 := ts[2]]
  {
    var l := sources + TimerMap(n, ts);
    var r := sources[n := ts[0]][n + 1 := ts[1]][n + 2 := ts[2]];
    assert l.Keys == r.Keys;
    forall id | id in l
      ensures l[id] == r[id]
    {
      if n <= id < n + 3 {
        assert l[id] == ts[id - n];
      }
    }
  }

  /** The inline matching loop schedules exactly the stage timers of the
      pairs `findMatchingWindow` returns, in order, and counts those pairs. */
  lemma {:induction false} SchedulePassIsPushAll(s: State, saved: Layout, actors: Actors)
    ensures SchedulePass(s, saved, actors)
            == (PushAll(s, PassTimers(FindMatchingWindow(saved, actors), s.now)),
                |FindMatchingWindow(saved, actors)|)
  {
    if |actors| > 0 {
      var n := |actors| - 1;
      var prefix := FindMatchingWindow(saved, actors[..n]);
      SchedulePassIsPushAll(s, saved, actors[..n]);
      var s1 := PushAll(s, PassTimers(prefix, s.now));
      assert SchedulePass(s, saved, actors[..n]) == (s1, |prefix|);
      var a := actors[n];
      if a.Some? && a.value.kind == Normal && FindFirst(saved, a.value).Some? {
        var i := FindFirst(saved, a.value).value;
        var p := Pair(a.value, i, saved[i]);
        assert FindMatchingWindow(saved, actors) == prefix + [p];
        assert SchedulePass(s, saved, actors) == (ScheduleStages(s1, p.window, p.layout), |prefix| + 1);
        assert (prefix + [p])[..|prefix|] == prefix;
        assert PassTimers(prefix + [p], s.now) == PassTimers(prefix, s.now) + StageTimers(p, s.now);
        ScheduleStagesIsPushAll(s1, p);
        PushAllAppend(s, PassTimers(prefix, s.now), StageTimers(p, s.now));
      }
    } else {
      PushAllEmpty(s);
    }
  }

  /** The callback of a read that returned a layout registers the stage
      timers of the matched pairs under fresh ids and notifies their number. */
  lemma ApplyLayoutFileIsPushAll(s: State)
    requires s.file.Parsed?
    ensures var pairs := FindMatchingWindow(s.file.layout, s.env.actors);
            var r := PushAll(s, PassTimers(pairs, s.now));
            ApplyLayoutFile(s) == r.(trace := r.trace + [Restored(|pairs|)])
  {
    SchedulePassIsPushAll(s, s.file.layout, s.env.actors);
  }

  /** A restore that completes at once is the request followed by the
      callback of the read it started. */
  lemma RestoreAtOnceIsRequestThenCallback(s: State)
    ensures RestoreAtOnce(s).1 == RestoreLayout(s).1
    ensures Ready(s.env) ==> RestoreAtOnce(s).0 == LoadCallback(RestoreLayout(s).0)
    ensures !Ready(s.env) ==> RestoreAtOnce(s).0 == s
  {
    if Ready(s.env) {
      assert ClearRestoreTimeouts(s).(pendingLoads := 1).(pendingLoads := 0) == ClearRestoreTimeouts(s);
    }
  }

  /** The ready path with a layout read back: clear the restore registry,
      then register the stage timers of the matched pairs. */
  lemma RestoreAtOnceIsPushAll(s: State)
    requires Ready(s.env) && s.file.Parsed?
    ensures var pairs := FindMatchingWindow(s.file.layout, s.env.actors);
            var r := PushAll(ClearRestoreTimeouts(s), PassTimers(pairs, s.now));
            RestoreAtOnce(s) == (r.(trace := r.trace + [Restored(|pairs|)]), StartedReply)
  {
    ApplyLayoutFileIsPushAll(ClearRestoreTimeouts(s));
  }

  /** A ready restore whose read returns a layout: every restore timeout
      pending before is gone, and the only pending stage callbacks are the
      new pass's, three per matched window. The suspend registry and the
      auto-save source are untouched, no read is left in flight, and the
      notified count is the number of matched windows, whatever the stages
      will do. */
  lemma RestoreAtOnceReady(s: State)
    requires Inv(s) && Ready(s.env) && s.file.Parsed?
    ensures var (r, reply) := RestoreAtOnce(s);
            var pairs := FindMatchingWindow(s.file.layout, s.env.actors);
            && reply == StartedReply
            && r.nextId == s.nextId + 3 * |pairs|
            && r.restoreTimeouts == Ids(s.nextId, 3 * |pairs|)
            && (forall id :: id in r.sources && r.sources[id].action.IsStage() ==>
                  s.nextId <= id < s.nextId + 3 * |pairs|)
            && (forall id :: id in s.sources && !s.sources[id].action.IsStage() ==>
                  id in r.sources && r.sources[id] == s.sources[id])
            && r.suspendTimeouts == s.suspendTimeouts
            && r.autoSaveTimeoutId == s.autoSaveTimeoutId
            && r.pendingLoads == 0
            && r.trace == s.trace + [Restored(|pairs|)]
            && Inv(r)
  {
    var pairs := FindMatchingWindow(s.file.layout, s.env.actors);
    var cleared := ClearRestoreTimeouts(s);
    ClearRestoreTimeoutsInv(s);
    var ts := PassTimers(pairs, s.now);
    RestoreAtOnceIsPushAll(s);
    PushAllSpec(cleared, ts);
    PassTimersAreStages(pairs, s.now);
    PushAllInv(cleared, ts);
  }

  /** After a ready restore that completes at once, the pending sources are
      the ones that survived clearing the restore registry plus the timers of
      the pass under consecutive fresh ids from `nextId`; with
      `PassTimersAt`, stage `j` of the `k`-th matched window sits under
      `nextId + 3k + j`. */
  lemma RestoreAtOnceSources(s: State)
    requires Ready(s.env) && s.file.Parsed?
    ensures RestoreAtOnce(s).0.sources
            == ClearRestoreTimeouts(s).sources
               + TimerMap(s.nextId, PassTimers(FindMatchingWindow(s.file.layout, s.env.actors), s.now))
  {
    RestoreAtOnceIsPushAll(s);
  }

  /** A second restore supersedes the first: a ready `RestoreLayout` leaves
      no stage callback of an earlier pass pending and no earlier read in
      flight, and neither does the callback of its own read, so dispatching
      an earlier stage does nothing. */
  lemma SupersededStageNeverRuns(s: State, id: nat)
    requires Inv(s) && Ready(s.env) && id in s.restoreTimeouts
    ensures var r := RestoreLayout(s).0;
            && id !in r.sources && r.pendingLoads == 1
            && Fire(r, id) == r
    ensures var r := LoadCallback(RestoreLayout(s).0);
            && id !in r.sources && r.pendingLoads == 0
            && Fire(r, id) == r
  {
    RestoreAtOnceIsRequestThenCallback(s);
    if s.file.Parsed? {
      RestoreAtOnceReady(s);
    }
  }

  /** The not-ready path: the reply says so and nothing changes, the restore
      registry included. */
  lemma RestoreLayoutNotReady(s: State)
    requires !Ready(s.env)
    ensures RestoreLayout(s) == (s, NotReadyReply)
  {
  }

  /** Restoring with no saved layout, corrected: the reply is that the
      restore started, the pending restore timeouts are cleared, and the only
      effect of the read is the notice that no saved layout was found; no
      window is touched. */
  lemma RestoreWithoutSavedLayout(s: State)
    requires Ready(s.env) && s.file.NotLoaded?
    ensures RestoreAtOnce(s) == (ClearRestoreTimeouts(s).(trace := s.trace + [NoSavedLayout]), StartedReply)
  {
  }

  /** Restoring with no saved layout as written: the read throws, so the
      callback notifies the failure, as for an unreadable layout, and never
      the notice that no saved layout was found. */
  lemma RestoreWithoutSavedLayoutAsWritten(s: State)
    requires s.file.NotLoaded?
    ensures var c := ClearRestoreTimeouts(s);
            && ApplyLayoutFileAsWritten(c) == c.(trace := s.trace + [RestoreFailed])
            && ApplyLayoutFile(c) == c.(trace := s.trace + [NoSavedLayout])
            && ApplyLayoutFileAsWritten(c) != ApplyLayoutFile(c)
  {
    var c := ClearRestoreTimeouts(s);
    assert ApplyLayoutFileAsWritten(c).trace[|s.trace|] == RestoreFailed;
    assert ApplyLayoutFile(c).trace[|s.trace|] == NoSavedLayout;
  }

  /** Restoring when the read or the parse throws: the reply is still that
      the restore started, and the read only notifies the failure. */
  lemma RestoreWithUnreadableLayout(s: State)
    requires Ready(s.env) && s.file.LoadError?
    ensures RestoreAtOnce(s) == (ClearRestoreTimeouts(s).(trace := s.trace + [RestoreFailed]), StartedReply)
  {
  }

  /** What the `RestoreLayout` request may change: older sources only by
      removing stage callbacks; nothing is added, the suspend registry, the
      auto-save source and the monitor stay, and when the display is ready
      exactly one read is in flight afterwards. */
  lemma RestoreLayoutFrame(s: State)
    requires Inv(s)
    ensures var r := RestoreLayout(s).0;
            && Inv(r)
            && r.nextId == s.nextId
            && (forall id :: id in r.sources ==> id in s.sources && r.sources[id] == s.sources[id])
            && (forall id :: id in s.sources && !s.sources[id].action.IsStage() ==> id in r.sources)
            && r.suspendTimeouts == s.suspendTimeouts
            && r.autoSaveTimeoutId == s.autoSaveTimeoutId
            && r.monitoring == s.monitoring
            && r.trace == s.trace
            && (Ready(s.env) ==> r.restoreTimeouts == [] && r.pendingLoads == 1)
  {
    ClearRestoreTimeoutsInv(s);
  }

  /** The callback of a read only adds: older sources stay as they were, new
      ones are stage callbacks under fresh ids, the registries of the other
      sources and the monitor stay, and the invariant holds. */
  lemma LoadCallbackFrame(s: State)
    requires Inv(s)
    ensures var r := LoadCallback(s);
            && Inv(r)
            && r.nextId >= s.nextId
            && (forall id :: id in s.sources ==> id in r.sources && r.sources[id] == s.sources[id])
            && (forall id :: id in r.sources && id !in s.sources ==>
                  s.nextId <= id && r.sources[id].action.IsStage())
            && r.suspendTimeouts == s.suspendTimeouts
            && r.autoSaveTimeoutId == s.autoSaveTimeoutId
            && r.monitoring == s.monitoring
  {
    if s.pendingLoads > 0 {
      ApplyLayoutFileFrame(s.(pendingLoads := s.pendingLoads - 1));
    }
  }

  lemma ApplyLayoutFileFrame(s: State)
    requires Inv(s)
    ensures var r := ApplyLayoutFile(s);
            && Inv(r)
            && r.nextId >= s.nextId
            && (forall id :: id in s.sources ==> id in r.sources && r.sources[id] == s.sources[id])
            && (forall id :: id in r.sources && id !in s.sources ==>
                  s.nextId <= id && r.sources[id].action.IsStage())
            && r.suspendTimeouts == s.suspendTimeouts
            && r.autoSaveTimeoutId == s.autoSaveTimeoutId
            && r.monitoring == s.monitoring
  {
    if s.file.Parsed? {
      var pairs := FindMatchingWindow(s.file.layout, s.env.actors);
      ApplyLayoutFileIsPushAll(s);
      PassTimersAreStages(pairs, s.now);
      PushAllFrame(s, PassTimers(pairs, s.now));
    }
  }

  /** Registering stage timers only adds sources, under fresh ids. */
  lemma PushAllFrame(s: State, ts: seq<Timer>)
    requires Inv(s)
    requires forall k :: 0 <= k < |ts| ==> ts[k].action.IsStage()
    ensures var r := PushAll(s, ts);
            && Inv(r)
            && (forall id :: id in s.sources ==> id in r.sources && r.sources[id] == s.sources[id])
            && (forall id :: id in r.sources && id !in s.sources ==>
                  s.nextId <= id && r.sources[id].action.IsStage())
  {
    PushAllInv(s, ts);
    var r := PushAll(s, ts);
    forall id: nat
      ensures id in s.sources ==> id in r.sources && r.sources[id] == s.sources[id]
      ensures id in r.sources && id !in s.sources ==> s.nextId <= id && r.sources[id].action.IsStage()
    {
      PushAllPoint(s, ts, id);
    }
  }

  /** Saving and then restoring at once matches every Normal window: the pass
      counts one restored window per record of the snapshot. */
  lemma RestoreRightAfterSaveCountsEveryWindow(s: State)
    requires Inv(s) && Ready(s.env)
    ensures RestoreAtOnce(SaveLayout(s)).0.trace == s.trace + [Restored(|Collect(s.env.actors)|)]
  {
    CollectedLayoutMatchesEveryWindow(s.env.actors);
    RestoreAtOnceReady(SaveLayout(s));
  }

  // ---------------------------------------------------------------------
  // Overlapping restores and teardown as written
  // ---------------------------------------------------------------------

  /** As written, two restores requested before the first read completes
      both run their pass: once both reads complete, the stages of both
      passes are pending, three per matched window each. */
  lemma OverlappingRestoresBothRunAsWritten(s: State)
    requires Ready(s.env) && s.file.Parsed?
    ensures var r := LoadCallbackAsWritten(LoadCallbackAsWritten(RestoreLayoutAsWritten(RestoreLayoutAsWritten(s).0).0));
            var pairs := FindMatchingWindow(s.file.layout, s.env.actors);
            && |r.restoreTimeouts| == 6 * |pairs|
            && r.trace == s.trace + [Restored(|pairs|), Restored(|pairs|)]
  {
    var c := RestoreLayoutAsWritten(RestoreLayoutAsWritten(s).0).0;
    assert c.pendingLoads == s.pendingLoads + 2 && c.restoreTimeouts == [];
    var a1 := c.(pendingLoads := c.pendingLoads - 1);
    ApplyLayoutFileIsPushAll(a1);
    var r1 := LoadCallbackAsWritten(c);
    assert r1 == ApplyLayoutFile(a1);
    var a2 := r1.(pendingLoads := r1.pendingLoads - 1);
    ApplyLayoutFileIsPushAll(a2);
  }

  /** With the corrected clearing, the second request cancels the first
      read: once the reads complete, only one pass is pending. */
  lemma OverlappingRestoresRunOnce(s: State)
    requires Ready(s.env) && s.file.Parsed?
    ensures var r := LoadCallback(LoadCallback(RestoreLayout(RestoreLayout(s).0).0));
            var pairs := FindMatchingWindow(s.file.layout, s.env.actors);
            && |r.restoreTimeouts| == 3 * |pairs|
            && r.trace == s.trace + [Restored(|pairs|)]
  {
    var c := RestoreLayout(RestoreLayout(s).0).0;
    assert c.pendingLoads == 1 && c.restoreTimeouts == [];
    var a1 := c.(pendingLoads := 0);
    ApplyLayoutFileIsPushAll(a1);
    assert LoadCallback(c) == ApplyLayoutFile(a1);
  }

  /** As written, `disable` before the read of a restore completes does not
      stop the pass: the callback then registers three stages per matched
      window after teardown, and notifies their number. */
  lemma DisableBeforeLoadAsWritten(s: State)
    requires Ready(s.env) && s.file.Parsed?
    ensures var d := DisableAsWritten(RestoreLayoutAsWritten(s).0);
            var r := LoadCallbackAsWritten(d);
            var pairs := FindMatchingWindow(s.file.layout, s.env.actors);
            && d.restoreTimeouts == []
            && r.restoreTimeouts == Ids(d.nextId, 3 * |pairs|)
            && r.sources == d.sources + TimerMap(d.nextId, PassTimers(pairs, d.now))
            && r.trace == s.trace + [Restored(|pairs|)]
  {
    var d := DisableAsWritten(RestoreLayoutAsWritten(s).0);
    assert d.pendingLoads == s.pendingLoads + 1 && d.restoreTimeouts == [];
    assert d.file == s.file && d.env == s.env && d.trace == s.trace;
    var d1 := d.(pendingLoads := s.pendingLoads);
    assert LoadCallbackAsWritten(d) == ApplyLayoutFile(d1);
    ApplyLayoutFileIsPushAll(d1);
  }

  /** As written, a wake-up after `disable` still reaches the handler left
      connected, which schedules a resume check that later runs
      `RestoreLayout`. */
  lemma WakeAfterDisableAsWritten(s: State)
    requires s.monitoring
    ensures var d := DisableAsWritten(s);
            var r := PrepareForSleep(d, false);
            && d.suspendTimeouts == [] && d.autoSaveTimeoutId == None
            && d.nextId in r.sources && r.sources[d.nextId].action == ResumeCheck
            && r.suspendTimeouts == [d.nextId]
  {
  }

  // ---------------------------------------------------------------------
  // Stage callbacks when they fire
  // ---------------------------------------------------------------------

  /** Dispatching a stage callback removes its own id and adds at most one
      mutation call to the trace, the stage's own, none when the display is
      not ready then; nothing else changes but the clock. */
  lemma StageCallbackRun(s: State, id: nat)
    requires Inv(s) && id in s.restoreTimeouts
    ensures var r := Fire(s, id);
            var t := s.sources[id];
            && r == s.(now := if t.due > s.now then t.due else s.now,
                       sources := s.sources - {id},
                       restoreTimeouts := Without(s.restoreTimeouts, id),
                       trace := s.trace + StageStep(s.env, t.action))
            && Inv(r)
            && id !in r.sources && id !in r.restoreTimeouts
            && r.sources == s.sources - {id}
            && r.suspendTimeouts == s.suspendTimeouts
            && r.autoSaveTimeoutId == s.autoSaveTimeoutId
            && |s.trace| <= |r.trace| <= |s.trace| + 1
            && r.trace[..|s.trace|] == s.trace
            && (forall e :: e in r.trace[|s.trace|..] ==> e.Called?)
            && (!Ready(s.env) ==> r.trace == s.trace)
  {
    var t := s.sources[id];
    FireStage(s, id);
    var step := StageStep(s.env, t.action);
    assert Inv(Fire(s, id)) by {
      assert id in s.restoreTimeouts;
      StageFireInv(s, id);
    }
    assert (s.trace + step)[..|s.trace|] == s.trace;
  }

  /** The calls a stage callback makes when it fires. */
  function StageStep(env: Env, a: Action): (events: seq<Event>)
    requires a.IsStage()
    ensures |events| <= 1
    ensures forall e :: e in events ==> e.Called?
    ensures !Ready(env) ==> events == []
  {
    match a
    case WorkspaceStage(w, rec) => WorkspaceStep(env, w, rec)
    case MonitorStage(w, rec) => MonitorStep(env, w, rec)
    case FrameStage(w, rec) => FrameStep(env, w, rec)
  }

  lemma FireStage(s: State, id: nat)
    requires id in s.sources && s.sources[id].action.IsStage()
    ensures var t := s.sources[id];
            Fire(s, id) == s.(now := if t.due > s.now then t.due else s.now,
                              sources := s.sources - {id},
                              restoreTimeouts := Without(s.restoreTimeouts, id),
                              trace := s.trace + StageStep(s.env, t.action))
  {
  }

  lemma StageFireInv(s: State, id: nat)
    requires Inv(s) && id in s.sources && s.sources[id].action.IsStage()
    ensures Inv(Fire(s, id))
  {
    FireStage(s, id);
  }

  /** With the display ready, the three stages of a window together attempt
      every planned call, each stage whatever the earlier ones threw. */
  lemma InlineStagesAttemptEveryPlannedCall(env: Env, w: LiveWindow, rec: WindowRecord)
    requires Ready(env)
    ensures WorkspaceStep(env, w, rec) + MonitorStep(env, w, rec) + FrameStep(env, w, rec)
            == AttemptAll(env, PlannedSteps(env, w, rec))
  {
    var a := if rec.workspace >= 0 && WorkspaceExists(env, rec.workspace)
             then [ChangeWorkspace(w.handle, rec.workspace)] else [];
    var b := if rec.monitor >= 0 then [MoveToMonitor(w.handle, rec.monitor)] else [];
    var c := match FrameOf(rec) case Some(f) => [MoveResizeFrame(w.handle, f)] case None => [];
    assert PlannedSteps(env, w, rec) == a + b + c;
    assert WorkspaceStep(env, w, rec) == AttemptAll(env, a);
    assert MonitorStep(env, w, rec) == AttemptAll(env, b);
    assert FrameStep(env, w, rec) == AttemptAll(env, c);
    AttemptAllAppend(env, a, b);
    AttemptAllAppend(env, a + b, c);
  }

  /** Attempting two call sequences one after the other attempts their
      concatenation. */
  lemma AttemptAllAppend(env: Env, xs: seq<Mutation>, ys: seq<Mutation>)
    ensures AttemptAll(env, xs + ys) == AttemptAll(env, xs) + AttemptAll(env, ys)
  {
    var l := AttemptAll(env, xs + ys);
    var r := AttemptAll(env, xs) + AttemptAll(env, ys);
    forall k | 0 <= k < |l|
      ensures l[k] == r[k]
    {
      if k < |xs| {
        assert (xs + ys)[k] == xs[k];
      } else {
        assert (xs + ys)[k] == ys[k - |xs|];
      }
    }
  }

  /** The saved "Term" window brought back: reopened with the same class
      and title, it is matched to its record, its pass holds three timers
      due 100, 200 and 300 ms after the pass starts, and with the display
      ready and a second workspace present those stages move it to
      workspace 1, then to monitor 0, then resize it to 800x600 at (10, 20). */
  lemma TermWindowScenario(env: Env, w: LiveWindow, now: nat)
    requires Ready(env) && env.workspaceCount > 1 && env.throwing == {}
    requires w.kind == Normal && w.title == "Term" && w.wmClass == Some("term")
    ensures var rec := WindowRecord("Term", 1, 0, "term", Some(10), Some(20), Some(800), Some(600));
            && FindMatchingWindow([rec], [Some(w)]) == [Pair(w, 0, rec)]
            && PassTimers(FindMatchingWindow([rec], [Some(w)]), now)
               == [Timer(now + 100, WorkspaceStage(w, rec)),
                   Timer(now + 200, MonitorStage(w, rec)),
                   Timer(now + 300, FrameStage(w, rec))]
            && WorkspaceStep(env, w, rec) == [Called(ChangeWorkspace(w.handle, 1), false)]
            && MonitorStep(env, w, rec) == [Called(MoveToMonitor(w.handle, 0), false)]
            && FrameStep(env, w, rec) == [Called(MoveResizeFrame(w.handle, Rect(10, 20, 800, 600)), false)]
  {
    var rec := WindowRecord("Term", 1, 0, "term", Some(10), Some(20), Some(800), Some(600));
    assert Matches(rec, w);
    OneRecordOneWindow(rec, w);
    OnePairTimers(Pair(w, 0, rec), now);
  }

  lemma OneRecordOneWindow(rec: WindowRecord, w: LiveWindow)
    requires w.kind == Normal && Matches(rec, w)
    ensures FindMatchingWindow([rec], [Some(w)]) == [Pair(w, 0, rec)]
  {
    assert FindFirst([rec], w) == Some(0);
  }

  lemma OnePairTimers(p: Pair, now: nat)
    ensures PassTimers([p], now) == StageTimers(p, now)
  {
    assert [p][..0] == [];
  }

  /** The two variants on one window: the one-call restore of
      modules/windows.js makes a prefix of the calls the staged restore of
      extension.js makes, all of them when it returns true, and none after a
      call that throws, where the staged restore carries on. */
  lemma OneCallRestoreIsPrefixOfStaged(env: Env, w: LiveWindow, rec: WindowRecord)
    requires Ready(env)
    ensures var staged := WorkspaceStep(env, w, rec) + MonitorStep(env, w, rec) + FrameStep(env, w, rec);
            var o := RestoreWindow(env, w, rec);
            && |o.trace| <= |staged|
            && o.trace == staged[..|o.trace|]
            && (o.ok ==> o.trace == staged)
            && |staged| == |PlannedSteps(env, w, rec)|
            && (forall k :: 0 <= k < |staged| && PlannedSteps(env, w, rec)[k] in env.throwing ==>
                  |o.trace| <= k + 1)
  {
    InlineStagesAttemptEveryPlannedCall(env, w, rec);
    RestoreWindowIsPrefix(env, w, rec);
  }

  lemma RestoreWindowIsPrefix(env: Env, w: LiveWindow, rec: WindowRecord)
    ensures var all := AttemptAll(env, PlannedSteps(env, w, rec));
            var o := RestoreWindow(env, w, rec);
            && |o.trace| <= |all|
            && o.trace == all[..|o.trace|]
            && (o.ok ==> o.trace == all)
            && (forall k :: 0 <= k < |all| && PlannedSteps(env, w, rec)[k] in env.throwing ==>
                  |o.trace| <= k + 1)
  {
    RestoreWindowStopsAtFirstThrow(env, w, rec);
    var o := RestoreWindow(env, w, rec);
    AttemptsUpToFirstThrow(env, PlannedSteps(env, w, rec), o.trace, o.ok);
  }

  /** A run that attempts the calls of `ms` in order and stops right after
      the first one that throws made a prefix of the calls attempting all of
      them makes. */
  lemma AttemptsUpToFirstThrow(env: Env, ms: seq<Mutation>, trace: seq<Event>, ok: bool)
    requires |trace| <= |ms|
    requires forall k :: 0 <= k < |trace| ==> trace[k] == Attempt(env, ms[k])
    requires forall k :: 0 <= k < |trace| - 1 ==> ms[k] !in env.throwing
    requires ok ==> |trace| == |ms|
    requires !ok ==> |trace| > 0 && ms[|trace| - 1] in env.throwing
    ensures trace == AttemptAll(env, ms)[..|trace|]
    ensures ok ==> trace == AttemptAll(env, ms)
    ensures forall k :: 0 <= k < |ms| && ms[k] in env.throwing ==> |trace| <= k + 1
  {
    assert trace == AttemptAll(env, ms)[..|trace|];
  }

  /** The two variants on one pass: modules/windows.js counts at most the
      windows extension.js counts (every matched one), and as many when no
      call throws. */
  lemma VariantCounts(s: State)
    requires Inv(s) && Ready(s.env) && s.file.Parsed?
    ensures var pairs := FindMatchingWindow(s.file.layout, s.env.actors);
            && RestoreAtOnce(s).0.trace == s.trace + [Restored(|pairs|)]
            && Succeeded(s.env, pairs) <= |pairs|
            && (s.env.throwing == {} ==> Succeeded(s.env, pairs) == |pairs|)
  {
    RestoreAtOnceReady(s);
    var pairs := FindMatchingWindow(s.file.layout, s.env.actors);
    if s.env.throwing == {} {
      NoThrowRestoresAll(s.env, pairs);
    }
  }

  // ---------------------------------------------------------------------
  // Resume from suspend
  // ---------------------------------------------------------------------

  /** Waking up schedules exactly one new source, the resume check, 10 s
      later, in the suspend registry; going to sleep schedules nothing. */
  lemma WakeSchedulesOneCheck(s: State)
    requires Inv(s) && s.monitoring
    ensures var r := PrepareForSleep(s, false);
            && Inv(r)
            && s.nextId !in s.sources
            && r.sources == s.sources[s.nextId := Timer(s.now + 10000, ResumeCheck)]
            && r.suspendTimeouts == s.suspendTimeouts + [s.nextId]
            && r.restoreTimeouts == s.restoreTimeouts
    ensures PrepareForSleep(s, true) == s
  {
    AddSuspendTimeoutInv(s, ResumeDelaySeconds, ResumeCheck);
  }

  /** The state a resume callback runs in: the clock at its due time, its
      own id gone from the sources and the suspend registry. */
  function Gone(s: State, id: nat): State
    requires id in s.sources
  {
    s.(now := if s.sources[id].due > s.now then s.sources[id].due else s.now,
       sources := s.sources - {id},
       suspendTimeouts := Without(s.suspendTimeouts, id))
  }

  lemma GoneInv(s: State, id: nat)
    requires Inv(s) && id in s.sources && s.sources[id].action.IsResume()
    ensures Inv(Gone(s, id))
  {
  }

  lemma FireResume(s: State, id: nat)
    requires id in s.sources && s.sources[id].action.IsResume()
    ensures Fire(s, id)
            == if s.sources[id].action.ResumeCheck? && !Ready(s.env)
               then AddSuspendTimeout(Gone(s, id), RetryDelaySeconds, ResumeRetry)
               else RestoreLayout(Gone(s, id)).0
  {
  }

  /** The resume check finding the display not ready schedules exactly one
      retry 5 s later and restores nothing yet. */
  lemma ResumeCheckRetriesOnce(s: State, id: nat)
    requires Inv(s) && id in s.sources && s.sources[id].action.ResumeCheck? && !Ready(s.env)
    ensures var r := Fire(s, id);
            var fired := if s.sources[id].due > s.now then s.sources[id].due else s.now;
            && Inv(r)
            && r.sources == (s.sources - {id})[s.nextId := Timer(fired + 5000, ResumeRetry)]
            && r.suspendTimeouts == Without(s.suspendTimeouts, id) + [s.nextId]
            && r.restoreTimeouts == s.restoreTimeouts
            && r.trace == s.trace
  {
    FireResume(s, id);
    GoneInv(s, id);
    AddSuspendTimeoutInv(Gone(s, id), RetryDelaySeconds, ResumeRetry);
  }

  /** The resume check finding the display ready, and the retry in any case,
      run `RestoreLayout` once and schedule no further resume callback. */
  lemma ResumeCallbackRestores(s: State, id: nat)
    requires Inv(s) && id in s.sources
    requires (s.sources[id].action.ResumeCheck? && Ready(s.env)) || s.sources[id].action.ResumeRetry?
    ensures var r := Fire(s, id);
            && r == RestoreLayout(Gone(s, id)).0
            && Inv(r)
            && id !in r.sources
            && r.suspendTimeouts == Without(s.suspendTimeouts, id)
  {
    FireResume(s, id);
    GoneInv(s, id);
    RestoreLayoutFrame(Gone(s, id));
  }

  // ---------------------------------------------------------------------
  // Firing, auto-save, monitor, teardown
  // ---------------------------------------------------------------------

  lemma AutoSaveFireInv(s: State, id: nat)
    requires Inv(s) && id in s.sources && s.sources[id].action.AutoSave?
    ensures Inv(Fire(s, id))
    ensures Fire(s, id).file == Parsed(Collect(s.env.actors))
  {
  }

  /** A dispatched one-shot callback's id is gone from the sources and from
      both registries afterwards; every input keeps the invariant. */
  lemma FireInv(s: State, id: nat)
    requires Inv(s)
    ensures Inv(Fire(s, id))
    ensures id in s.sources && !s.sources[id].action.AutoSave? ==>
              var r := Fire(s, id);
              id !in r.sources && id !in r.restoreTimeouts && id !in r.suspendTimeouts
  {
    if id in s.sources {
      var a := s.sources[id].action;
      if a.IsStage() {
        StageCallbackRun(s, id);
      } else if a.ResumeCheck? && !Ready(s.env) {
        ResumeCheckRetriesOnce(s, id);
      } else if a.IsResume() {
        ResumeCallbackRestores(s, id);
      } else {
        AutoSaveFireInv(s, id);
      }
    }
  }

  lemma StartAutoSaveInv(s: State)
    requires Inv(s)
    ensures Inv(StartAutoSave(s))
    ensures StartAutoSave(s).autoSaveTimeoutId == Some(s.nextId)
  {
  }

  lemma StopAutoSaveInv(s: State)
    requires Inv(s)
    ensures Inv(StopAutoSave(s))
  {
  }

  lemma EnableInv(s: State)
    requires Inv(s)
    ensures Inv(Enable(s))
  {
    StartAutoSaveInv(s);
    if s.autoRestoreAfterSuspend {
      ClearSuspendTimeoutsInv(StartAutoSave(s));
    }
  }

  /** The auto-restore switch: afterwards the flag and the monitor both
      follow the choice, no resume callback is pending either way, and the
      restore registry and the auto-save source are untouched. */
  lemma ToggleAutoRestoreSpec(s: State, on: bool)
    requires Inv(s)
    ensures var r := ToggleAutoRestore(s, on);
            && Inv(r)
            && r.autoRestoreAfterSuspend == on
            && r.monitoring == on
            && r.suspendTimeouts == []
            && (forall id :: id in r.sources ==> !r.sources[id].action.IsResume())
            && r.restoreTimeouts == s.restoreTimeouts
            && r.autoSaveTimeoutId == s.autoSaveTimeoutId
            && (!on ==> PrepareForSleep(r, false) == r)
  {
    var s1 := s.(autoRestoreAfterSuspend := on);
    ClearSuspendTimeoutsInv(s1);
  }

  /** As written, switching auto-restore off leaves the handler connected:
      a later wake-up still schedules a resume check under a fresh id. */
  lemma ToggleOffAsWritten(s: State)
    requires s.monitoring
    ensures var r := ToggleAutoRestoreAsWritten(s, false);
            var w := PrepareForSleep(r, false);
            && !r.autoRestoreAfterSuspend && r.suspendTimeouts == []
            && r.nextId in w.sources && w.sources[r.nextId].action == ResumeCheck
            && w.suspendTimeouts == [r.nextId]
  {
  }

  /** `enable` reads the monitor flag before the settings read it started
      has completed: right after construction the monitor stays off even
      when the saved setting is on, the setting arriving later only sets the
      flag, and a wake-up is ignored until the extension is enabled again. */
  lemma SavedSettingWaitsForNextEnable(env: Env, file: LayoutFile)
    ensures var s := Next(Next(Init(env, file), EnableRequest), SettingsLoaded(true));
            && s.autoRestoreAfterSuspend
            && !s.monitoring
            && Next(s, SleepSignal(false)) == s
            && Next(Next(s, DisableRequest), EnableRequest).monitoring
  {
  }

  /** Teardown: after `disable` no source is pending at all, both registries
      are empty, the auto-save id is null, the monitor is gone and no read is
      in flight, so no dispatch, no sleep signal and no read completing can
      do anything afterwards. */
  lemma DisableTearsDown(s: State)
    requires Inv(s)
    ensures var r := Disable(s);
            && Inv(r)
            && r.sources == map[]
            && r.restoreTimeouts == [] && r.suspendTimeouts == []
            && r.autoSaveTimeoutId == None
            && !r.monitoring
            && r.pendingLoads == 0
            && (forall id :: Fire(r, id) == r)
            && (forall sleeping :: PrepareForSleep(r, sleeping) == r)
            && LoadCallback(r) == r
  {
    DisableEmpties(s);
    Inert(Disable(s));
  }

  lemma DisableEmpties(s: State)
    requires Inv(s)
    ensures var r := Disable(s);
            && Inv(r)
            && r.sources == map[]
            && r.restoreTimeouts == [] && r.suspendTimeouts == []
            && r.autoSaveTimeoutId == None
            && !r.monitoring
            && r.pendingLoads == 0
  {
    var s1 := StopAutoSave(s);
    StopAutoSaveInv(s);
    var s2 := ClearRestoreTimeouts(s1);
    ClearRestoreTimeoutsInv(s1);
    ClearSuspendTimeoutsInv(s2);
    var r := Disable(s);
    forall id | id in r.sources
      ensures false
    {
    }
    assert r.sources == map[];
  }

  /** With nothing pending, no monitor and no read in flight, no dispatch,
      no sleep signal and no read completing changes anything. */
  lemma Inert(r: State)
    requires r.sources == map[] && !r.monitoring && r.pendingLoads == 0
    ensures forall id :: Fire(r, id) == r
    ensures forall sleeping :: PrepareForSleep(r, sleeping) == r
    ensures LoadCallback(r) == r
  {
  }

  /** The registry invariant holds from construction on and every input keeps it. */
  lemma NextInv(s: State, input: Input)
    requires Inv(s)
    ensures Inv(Next(s, input))
  {
    match input
    case RestoreRequest => RestoreLayoutFrame(s);
    case LayoutLoaded => LoadCallbackFrame(s);
    case SettingsLoaded(autoRestore) =>
    case AutoRestoreToggled(on) => ToggleAutoRestoreSpec(s, on);
    case SaveRequest =>
    case SleepSignal(sleeping) =>
      if s.monitoring && !sleeping {
        AddSuspendTimeoutInv(s, ResumeDelaySeconds, ResumeCheck);
      }
    case Dispatch(id) => FireInv(s, id);
    case EnableRequest => EnableInv(s);
    case DisableRequest => DisableTearsDown(s);
    case EnvChange(env) =>
    case FileChange(file) =>
  }

  // ---------------------------------------------------------------------
  // The extension as written
  // ---------------------------------------------------------------------

  lemma RestoreLayoutAsWrittenInv(s: State)
    requires RegistryInv(s)
    ensures RegistryInv(RestoreLayoutAsWritten(s).0)
  {
    var z := s.(pendingLoads := 0);
    ClearRestoreTimeoutsInv(z);
    assert Ready(s.env) ==> RestoreLayoutAsWritten(s).0.(pendingLoads := 0) == ClearRestoreTimeouts(z);
  }

  lemma ApplyLayoutFileAsWrittenInv(s: State)
    requires RegistryInv(s)
    ensures RegistryInv(ApplyLayoutFileAsWritten(s))
  {
    if s.file.Parsed? {
      var z := s.(pendingLoads := 0);
      ApplyLayoutFileIsPushAll(s);
      ApplyLayoutFileIsPushAll(z);
      ApplyLayoutFileFrame(z);
      assert ApplyLayoutFileAsWritten(s).(pendingLoads := 0) == ApplyLayoutFile(z);
    }
  }

  lemma LoadCallbackAsWrittenInv(s: State)
    requires RegistryInv(s)
    ensures RegistryInv(LoadCallbackAsWritten(s))
  {
    if s.pendingLoads > 0 {
      var s1 := s.(pendingLoads := s.pendingLoads - 1);
      assert s1.(pendingLoads := 0) == s.(pendingLoads := 0);
      ApplyLayoutFileAsWrittenInv(s1);
    }
  }

  /** As written, a resume callback that restores makes the as-written
      request in the state with its own id gone. */
  lemma ResumeRestoreAsWrittenInv(s: State, id: nat)
    requires RegistryInv(s) && id in s.sources && s.sources[id].action.IsResume()
    requires s.sources[id].action.ResumeRetry? || Ready(s.env)
    ensures FireAsWritten(s, id) == RestoreLayoutAsWritten(Gone(s, id)).0
    ensures RegistryInv(FireAsWritten(s, id))
  {
    var z := s.(pendingLoads := 0);
    GoneInv(z, id);
    assert Gone(z, id) == Gone(s, id).(pendingLoads := 0);
    RestoreLayoutAsWrittenInv(Gone(s, id));
  }

  /** Every other dispatch runs as in `Fire`, which does not look at the
      reads in flight nor change them. */
  lemma FireOtherAsWritten(s: State, id: nat)
    requires !(id in s.sources && s.sources[id].action.IsResume()
               && (s.sources[id].action.ResumeRetry? || Ready(s.env)))
    ensures FireAsWritten(s, id) == Fire(s, id)
    ensures Fire(s, id).(pendingLoads := 0) == Fire(s.(pendingLoads := 0), id)
  {
    var z := s.(pendingLoads := 0);
    if id in s.sources {
      var a := s.sources[id].action;
      if a.IsStage() {
        FireStage(s, id);
        FireStage(z, id);
      } else if a.IsResume() {
        FireResume(s, id);
        FireResume(z, id);
        assert Gone(z, id) == Gone(s, id).(pendingLoads := 0);
      }
    }
  }

  /** As written, every dispatch keeps the registry invariant. */
  lemma FireAsWrittenInv(s: State, id: nat)
    requires RegistryInv(s)
    ensures RegistryInv(FireAsWritten(s, id))
  {
    if id in s.sources && s.sources[id].action.IsResume()
       && (s.sources[id].action.ResumeRetry? || Ready(s.env)) {
      ResumeRestoreAsWrittenInv(s, id);
    } else {
      FireOtherAsWritten(s, id);
      FireInv(s.(pendingLoads := 0), id);
    }
  }

  lemma ToggleAutoRestoreAsWrittenInv(s: State, on: bool)
    requires RegistryInv(s)
    ensures RegistryInv(ToggleAutoRestoreAsWritten(s, on))
  {
    var z := s.(pendingLoads := 0, autoRestoreAfterSuspend := on);
    ClearSuspendTimeoutsInv(z);
  }

  lemma DisableAsWrittenInv(s: State)
    requires RegistryInv(s)
    ensures RegistryInv(DisableAsWritten(s))
  {
    var z := s.(pendingLoads := 0);
    StopAutoSaveInv(z);
    ClearRestoreTimeoutsInv(StopAutoSave(z));
    ClearSuspendTimeoutsInv(ClearRestoreTimeouts(StopAutoSave(z)));
    assert DisableAsWritten(s).(pendingLoads := 0) == ClearSuspendTimeouts(ClearRestoreTimeouts(StopAutoSave(z)));
  }

  lemma SleepSignalAsWrittenInv(s: State, sleeping: bool)
    requires RegistryInv(s)
    ensures RegistryInv(PrepareForSleep(s, sleeping))
  {
    if s.monitoring && !sleeping {
      AddSuspendTimeoutInv(s.(pendingLoads := 0), ResumeDelaySeconds, ResumeCheck);
    }
  }

  lemma EnableAsWrittenInv(s: State)
    requires RegistryInv(s)
    ensures RegistryInv(Enable(s))
  {
    var z := s.(pendingLoads := 0);
    EnableInv(z);
    assert Enable(s).(pendingLoads := 0) == Enable(z);
  }

  /** The extension as written keeps the registry invariant, whatever the
      number of reads in flight: every input keeps it (and the constructed
      state has it, by `InitInv`). */
  lemma NextAsWrittenInv(s: State, input: Input)
    requires RegistryInv(s)
    ensures RegistryInv(NextAsWritten(s, input))
  {
    match input
    case RestoreRequest => RestoreLayoutAsWrittenInv(s);
    case LayoutLoaded => LoadCallbackAsWrittenInv(s);
    case AutoRestoreToggled(on) => ToggleAutoRestoreAsWrittenInv(s, on);
    case Dispatch(id) => FireAsWrittenInv(s, id);
    case DisableRequest => DisableAsWrittenInv(s);
    case SleepSignal(sleeping) => SleepSignalAsWrittenInv(s, sleeping);
    case EnableRequest => EnableAsWrittenInv(s);
    case SaveRequest =>
    case SettingsLoaded(autoRestore) =>
    case EnvChange(env) =>
    case FileChange(file) =>
  }
}
