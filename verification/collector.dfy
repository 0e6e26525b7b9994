/** Snapshotting live windows into records and matching saved records back
    to live windows. The same two loops appear as `_collectWindows` and the
    inline matching loop of `RestoreLayout` in extension.js and as
    `WindowCollector.collect` and `WindowCollector.findMatchingWindow` in
    modules/windows.js; they are defined once here.
 */
module WindowCollector {
  import opened Environment
  import opened Layout

  /** The record of one live window, with a missing workspace written as -1
      and a missing class as the empty string. */
  function ToRecord(w: LiveWindow): (r: WindowRecord)
    ensures r.title == w.title && r.monitor == w.monitor
    ensures r.wmClass == ClassOf(w)
    ensures w.wmClass.None? ==> r.wmClass == ""
    ensures r.workspace == -1 <==> w.workspace.None?
    ensures w.workspace.Some? ==> r.workspace == w.workspace.value
    ensures FrameOf(r) == Some(w.frame)
  {
    WindowRecord(
      w.title,
      if w.workspace.Some? then w.workspace.value else -1,
      w.monitor,
      ClassOf(w),
      Some(w.frame.x), Some(w.frame.y), Some(w.frame.width), Some(w.frame.height))
  }

  /** The positions of the non-null Normal windows among the actors, in
      enumeration order: exactly those positions, each once. */
  ghost function NormalSlots(actors: Actors): (slots: seq<nat>)
    ensures forall k :: 0 <= k < |slots| ==> slots[k] < |actors| && IsNormal(actors[slots[k]])
    ensures forall k, l :: 0 <= k < l < |slots| ==> slots[k] < slots[l]
    ensures forall i :: 0 <= i < |actors| && IsNormal(actors[i]) ==> i in slots
  {
    if |actors| == 0 then []
    else
      var n := |actors| - 1;
      NormalSlots(actors[..n]) + (if IsNormal(actors[n]) then [n] else [])
  }

  /** The snapshot: one record per non-null Normal window, in enumeration order. */
  function Collect(actors: Actors): Layout {
    if |actors| == 0 then []
    else
      var n := |actors| - 1;
      Collect(actors[..n]) + (if IsNormal(actors[n]) then [ToRecord(actors[n].value)] else [])
  }

  /** The snapshot holds exactly the records of the non-null Normal windows,
      in enumeration order. */
  lemma {:induction false} CollectSpec(actors: Actors)
    ensures |Collect(actors)| == |NormalSlots(actors)|
    ensures forall k :: 0 <= k < |Collect(actors)| ==>
              Collect(actors)[k] == ToRecord(actors[NormalSlots(actors)[k]].value)
  {
    if |actors| > 0 {
      var n := |actors| - 1;
      CollectSpec(actors[..n]);
      assert forall k :: 0 <= k < |Collect(actors[..n])| ==>
          NormalSlots(actors)[k] == NormalSlots(actors[..n])[k];
    }
  }

  /** A saved record identifies a live window when class and title agree. */
  predicate Matches(r: WindowRecord, w: LiveWindow) {
    r.wmClass == ClassOf(w) && r.title == w.title
  }

  /** The first entry at or after `from` that matches `w`. */
  function FindFrom(saved: Layout, w: LiveWindow, from: nat): (found: Option<nat>)
    requires from <= |saved|
    ensures found.Some? ==> from <= found.value < |saved| && Matches(saved[found.value], w)
    ensures found.Some? ==> forall j :: from <= j < found.value ==> !Matches(saved[j], w)
    ensures found.None? ==> forall j :: from <= j < |saved| ==> !Matches(saved[j], w)
    decreases |saved| - from
  {
    if from == |saved| then None
    else if Matches(saved[from], w) then Some(from)
    else FindFrom(saved, w, from + 1)
  }

  /** The position of the first saved entry that matches `w`, if any. */
  function FindFirst(saved: Layout, w: LiveWindow): (found: Option<nat>)
    ensures found.Some? ==> found.value < |saved| && Matches(saved[found.value], w)
    ensures found.Some? ==> forall j :: 0 <= j < found.value ==> !Matches(saved[j], w)
    ensures found.None? <==> forall j :: 0 <= j < |saved| ==> !Matches(saved[j], w)
  {
    FindFrom(saved, w, 0)
  }

  /** A live window and the saved entry (position and value) it matched. */
  datatype Pair = Pair(window: LiveWindow, entry: nat, layout: WindowRecord)

  ghost predicate HasMatch(saved: Layout, a: Option<LiveWindow>) {
    IsNormal(a) && FindFirst(saved, a.value).Some?
  }

  /** The positions of the Normal windows that match some saved entry, in
      enumeration order: exactly those positions, each once. */
  ghost function MatchedSlots(saved: Layout, actors: Actors): (slots: seq<nat>)
    ensures forall k :: 0 <= k < |slots| ==> slots[k] < |actors| && HasMatch(saved, actors[slots[k]])
    ensures forall k, l :: 0 <= k < l < |slots| ==> slots[k] < slots[l]
    ensures forall i :: 0 <= i < |actors| && HasMatch(saved, actors[i]) ==> i in slots
  {
    if |actors| == 0 then []
    else
      var n := |actors| - 1;
      MatchedSlots(saved, actors[..n]) + (if HasMatch(saved, actors[n]) then [n] else [])
  }

  /** One pair per Normal live window that has a match, in enumeration order,
      each pointing at the first matching saved entry. */
  function FindMatchingWindow(saved: Layout, actors: Actors): seq<Pair> {
    if |actors| == 0 then []
    else
      var n := |actors| - 1;
      var prefix := FindMatchingWindow(saved, actors[..n]);
      var a := actors[n];
      if a.Some? && a.value.kind == Normal then
        match FindFirst(saved, a.value)
        case Some(i) => prefix + [Pair(a.value, i, saved[i])]
        case None => prefix
      else prefix
  }

  /** The pairs are exactly the Normal windows that have a match, in
      enumeration order, each with the first saved entry that matches it. */
  lemma {:induction false} FindMatchingWindowSpec(saved: Layout, actors: Actors)
    ensures |FindMatchingWindow(saved, actors)| == |MatchedSlots(saved, actors)|
    ensures forall k :: 0 <= k < |FindMatchingWindow(saved, actors)| ==>
              && FindMatchingWindow(saved, actors)[k].window == actors[MatchedSlots(saved, actors)[k]].value
              && FindFirst(saved, FindMatchingWindow(saved, actors)[k].window)
                 == Some(FindMatchingWindow(saved, actors)[k].entry)
              && FindMatchingWindow(saved, actors)[k].layout == saved[FindMatchingWindow(saved, actors)[k].entry]
  {
    if |actors| > 0 {
      var n := |actors| - 1;
      FindMatchingWindowSpec(saved, actors[..n]);
      assert forall k :: 0 <= k < |FindMatchingWindow(saved, actors[..n])| ==>
          MatchedSlots(saved, actors)[k] == MatchedSlots(saved, actors[..n])[k];
    }
  }

  /** Matching never yields more pairs than there are Normal live windows. */
  lemma {:induction false} MatchedWithinNormal(saved: Layout, actors: Actors)
    ensures |FindMatchingWindow(saved, actors)| <= |NormalSlots(actors)|
  {
    if |actors| > 0 {
      MatchedWithinNormal(saved, actors[..|actors| - 1]);
    }
  }

  /** Every pair matches its window on class and title, and no earlier saved
      entry does: with duplicate saved entries, the first one is used. */
  lemma PairsUseFirstMatch(saved: Layout, actors: Actors, k: nat)
    requires k < |FindMatchingWindow(saved, actors)|
    ensures var p := FindMatchingWindow(saved, actors)[k];
            && p.entry < |saved|
            && p.layout == saved[p.entry]
            && Matches(p.layout, p.window)
            && forall j :: 0 <= j < p.entry ==> !Matches(saved[j], p.window)
  {
    FindMatchingWindowSpec(saved, actors);
  }

  /** If every Normal window has some match, every Normal window gets a pair. */
  lemma {:induction false} AllMatchedSlots(saved: Layout, actors: Actors)
    requires forall i :: 0 <= i < |actors| && IsNormal(actors[i]) ==> FindFirst(saved, actors[i].value).Some?
    ensures MatchedSlots(saved, actors) == NormalSlots(actors)
  {
    if |actors| > 0 {
      var n := |actors| - 1;
      assert forall i :: 0 <= i < n ==> actors[..n][i] == actors[i];
      AllMatchedSlots(saved, actors[..n]);
    }
  }

  /** A layout collected from the current windows matches every one of them:
      restoring right after saving pairs each Normal window with a record. */
  lemma CollectedLayoutMatchesEveryWindow(actors: Actors)
    ensures |FindMatchingWindow(Collect(actors), actors)| == |Collect(actors)|
  {
    var saved := Collect(actors);
    CollectSpec(actors);
    forall i | 0 <= i < |actors| && IsNormal(actors[i])
      ensures FindFirst(saved, actors[i].value).Some?
    {
      var k :| 0 <= k < |NormalSlots(actors)| && NormalSlots(actors)[k] == i;
      assert Matches(saved[k], actors[i].value);
    }
    AllMatchedSlots(saved, actors);
    FindMatchingWindowSpec(saved, actors);
  }

  /** The example of two identical saved entries and one live window with the
      same class and title: exactly one pair, pointing at the first entry. */
  lemma IdenticalEntriesYieldOnePair(w: LiveWindow, r: WindowRecord)
    requires w.kind == Normal && Matches(r, w)
    ensures FindMatchingWindow([r, r], [Some(w)]) == [Pair(w, 0, r)]
  {
    assert FindFirst([r, r], w) == Some(0);
  }
}
