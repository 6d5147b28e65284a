/** Which workspaces the monitors show after an exec-restart (core/src/runtime/runtime.cpp:204-231, 841-858). */
module RestartShown {
  import opened Seqs
  import opened Monitors
  import opened Topology
  import opened TopologyProofs
  import opened Windows
  import opened Reducer
  import opened ReducerProofs
  import opened RestartFile
  import opened Restart
  import opened TopologySteps

  // --- Adopting windows reassigns nothing --------------------------------------------------------

  lemma {:induction false} StepAllKeepsAssignment(c: Core, cmds: seq<Command>)
    requires Inv(c) && forall i :: 0 <= i < |cmds| ==> !cmds[i].CApplyTopology? && !cmds[i].CApplySettings?
    ensures KeepsAssignment(c, StepAll(c, cmds))
    decreases |cmds|
  {
    hide Inv, Step;
    if cmds != [] {
      StepKeepsAssignment(c, cmds[0]);
      StepInv(c, cmds[0]);
      StepAllKeepsAssignment(Step(c, cmds[0]), cmds[1..]);
    }
  }

  lemma AdoptionReassignsNothing(e: Existing, r: Restored, n: int)
    ensures
      var cmds := Adoption(e, r, n);
      forall i :: 0 <= i < |cmds| ==> !cmds[i].CApplyTopology? && !cmds[i].CApplySettings?
  {
    hide Adoption, Arrivals;
    if Adopted(e, r) {
      LaterPart(e, r, n);
    } else {
      assert Adoption(e, r, n) == [] by { NobodyAdopted(e, r, n); }
    }
  }

  lemma NobodyAdopted(e: Existing, r: Restored, n: int)
    requires !Adopted(e, r)
    ensures Adoption(e, r, n) == []
  {
  }

  lemma {:induction false} AdoptUpToKeepsAssignment(c: Core, es: seq<Existing>, r: Restored, k: nat)
    requires Inv(c) && k <= |es|
    ensures KeepsAssignment(c, AdoptUpTo(c, es, r, k))
  {
    hide Inv, StepAll, Adoption;
    if k > 0 {
      AdoptUpToKeepsAssignment(c, es, r, k - 1);
      var b := AdoptUpTo(c, es, r, k - 1);
      AdoptionReassignsNothing(es[k - 1], r, |b.tb.lists|);
      StepAllKeepsAssignment(b, Adoption(es[k - 1], r, |b.tb.lists|));
    }
  }

  // --- Switching the monitors --------------------------------------------------------------------

  /** The workspace saved for monitor `m`, or -1 if there is none or it no longer exists. */
  function SavedSpace(r: Restored, m: int, n: int): int {
    if 0 <= m && m in r.monitors && 0 <= r.monitors[m] < n then r.monitors[m] else NONE
  }

  /** No workspace is saved for two monitors. */
  predicate SavedOnce(r: Restored) {
    forall m, k | m in r.monitors && k in r.monitors && m != k && r.monitors[m] >= 0 :: r.monitors[m] != r.monitors[k]
  }

  /** The switches for the monitors after `m` and before `k` all happen on other monitors. */
  ghost predicate LeftAlone(owner: seq<int>, r: Restored, m: int, k: int) {
    forall j :: m < j < k && SavedSpace(r, j, |owner|) >= 0 ==> owner[SavedSpace(r, j, |owner|)] != m
  }

  /** A switch shows the workspace on its owner and leaves the other monitors as they are. */
  lemma SwitchedShows(c: Core, ws: int, hint: Option<int>, m: int)
    requires Inv(c) && 0 <= ws < |c.topo.wsAlias| && 0 <= m < |c.topo.monitors|
    ensures
      var d := DoSwitch(c, ws, hint);
      && KeepsAssignment(c, d) && m < |d.topo.monitors|
      && d.topo.monitors[m].activeWs == if c.topo.owner[ws] == m then ws else c.topo.monitors[m].activeWs
  {
    hide DoSwitch, SwitchTo;
    var h := if hint.Some? then hint.value else NONE;
    SwitchTopology(c, ws, hint);
    SwitchShows(c.topo, ws, h, c.settings.aliases, c.settings.compose);
    SwitchToKeepsAssignment(c, ws, h);
    var t := SwitchTo(c.topo, ws, h, c.settings.aliases, c.settings.compose);
    assert |Names(t.monitors)| == |t.monitors| && |Names(c.topo.monitors)| == |c.topo.monitors|;
  }

  /** What the loop does to monitor `m` once it has come to it. */
  lemma {:induction false} SwitchedUpTo(c: Core, r: Restored, m: nat, k: nat)
    requires Inv(c) && SavedOnce(r) && k <= |c.topo.monitors| && m < |c.topo.monitors|
    ensures
      var d := SwitchUpTo(c, r, k);
      var w := SavedSpace(r, m, |c.tb.lists|);
      && KeepsAssignment(c, d) && |d.topo.monitors| == |c.topo.monitors| && |d.tb.lists| == |c.tb.lists|
      && (m < k && w >= 0 ==>
            (d.topo.monitors[m].activeWs == w <==> c.topo.owner[w] == m && LeftAlone(c.topo.owner, r, m, k)))
  {
    hide DoSwitch, Inv, LeftAlone, SwitchFor, SavedOnce, SavedSpace;
    InvSane(c);
    if k > 0 {
      SwitchedUpTo(c, r, m, k - 1);
      SwitchedOnce(c, SwitchUpTo(c, r, k - 1), r, m, k - 1);
    }
  }

  /** One turn of the loop, for monitor `k`. */
  lemma SwitchedOnce(c: Core, b: Core, r: Restored, m: nat, k: nat)
    requires Inv(c) && Inv(b) && SavedOnce(r) && k < |c.topo.monitors| && m < |c.topo.monitors|
    requires KeepsAssignment(c, b) && |b.topo.monitors| == |c.topo.monitors| && |b.tb.lists| == |c.tb.lists|
    requires
      var w := SavedSpace(r, m, |c.tb.lists|);
      m < k && w >= 0 ==>
        (b.topo.monitors[m].activeWs == w <==> c.topo.owner[w] == m && LeftAlone(c.topo.owner, r, m, k))
    ensures Sane(b)
    ensures
      var d := if Switches(b, r, k) then DoSwitch(b, SwitchFor(b, r, k), Some(k)) else b;
      var w := SavedSpace(r, m, |c.tb.lists|);
      && KeepsAssignment(c, d) && |d.topo.monitors| == |c.topo.monitors| && |d.tb.lists| == |c.tb.lists|
      && (m <= k && w >= 0 ==>
            (d.topo.monitors[m].activeWs == w <==> c.topo.owner[w] == m && LeftAlone(c.topo.owner, r, m, k + 1)))
  {
    hide DoSwitch;
    var n, x, w := |c.tb.lists|, SwitchFor(b, r, k), SavedSpace(r, m, |c.tb.lists|);
    if x >= 0 {
      SwitchForExists(b, r, k);
      SwitchedShows(b, x, Some(k as int), m);
    }
    if w >= 0 && m == k && b.topo.owner[w] != m {
      NotShown(b.topo, m, w);
    }
    if x >= 0 && SavedSpace(r, k, n) < 0 {
      ShownByOwner(b.topo, k);
    }
  }

  lemma SwitchForExists(c: Core, r: Restored, k: nat)
    requires Inv(c) && k < |c.topo.monitors| && SwitchFor(c, r, k) >= 0
    ensures SwitchFor(c, r, k) < |c.topo.wsAlias|
  {
    if c.topo.monitors[k].activeWs >= 0 {
      ShownByOwner(c.topo, k);
    }
  }

  lemma NotShown(t: Topology, m: int, w: int)
    requires Consistent(t) && 0 <= m < |t.monitors| && 0 <= w < |t.owner| && t.owner[w] != m
    ensures t.monitors[m].activeWs != w
  {
    if t.monitors[m].activeWs == w {
      ShownByOwner(t, m);
    }
  }

  lemma SwitchMonitorsShows(c: Core, r: Restored, m: nat)
    requires Inv(c) && SavedOnce(r) && m < |c.topo.monitors| && SavedSpace(r, m, |c.tb.lists|) >= 0
    ensures
      var d := SwitchMonitors(c, r);
      var w := SavedSpace(r, m, |c.tb.lists|);
      && m < |d.topo.monitors|
      && (d.topo.monitors[m].activeWs == w <==> c.topo.owner[w] == m && LeftAlone(c.topo.owner, r, m, |c.topo.monitors|))
  {
    hide SwitchUpTo, AnySwitched, Arrange, Inv, LeftAlone, SavedSpace, SavedOnce;
    InvSane(c);
    SwitchedUpTo(c, r, m, |c.topo.monitors|);
  }

  /** The workspace monitor `m` showed before the restart, or -1 if there is none of that number among `n`. */
  function ShownBefore(before: Core, m: int, n: int): (ws: int)
    ensures ws == NONE || 0 <= ws < n
  {
    if !(0 <= m < |before.topo.monitors|) then NONE
    else if 0 <= before.topo.monitors[m].activeWs < n then before.topo.monitors[m].activeWs
    else NONE
  }

  lemma SavedSpaces(before: Core, r: Restored)
    requires Inv(before) && r.monitors == MonMap(ActiveSpaces(before.topo.monitors))
    ensures SavedOnce(r)
    ensures forall m, n :: SavedSpace(r, m, n) == ShownBefore(before, m, n)
  {
    forall m, k | m in r.monitors && k in r.monitors && m != k && r.monitors[m] >= 0
      ensures r.monitors[m] != r.monitors[k]
    {
      if r.monitors[m] == r.monitors[k] {
        NoWorkspaceShownTwice(before.topo, m, k);
      }
    }
  }

  /** The new instance assigns none of the workspaces shown before on monitors after `m` to `m`. */
  ghost predicate NoneLater(before: Core, started: Core, m: int)
    requires Sane(started)
  {
    var n := |started.tb.lists|;
    forall k :: m < k < |started.topo.monitors| && ShownBefore(before, k, n) >= 0 ==>
      started.topo.owner[ShownBefore(before, k, n)] != m
  }

  lemma NoneLaterIsLeftAlone(before: Core, started: Core, r: Restored, m: int)
    requires Inv(before) && Sane(started) && r.monitors == MonMap(ActiveSpaces(before.topo.monitors))
    ensures NoneLater(before, started, m) <==> LeftAlone(started.topo.owner, r, m, |started.topo.monitors|)
  {
    hide ShownBefore, SavedSpace;
    SavedSpaces(before, r);
    assert |started.topo.owner| == |started.tb.lists|;
    if NoneLater(before, started, m) {
      forall j | m < j < |started.topo.monitors| && SavedSpace(r, j, |started.topo.owner|) >= 0
        ensures started.topo.owner[SavedSpace(r, j, |started.topo.owner|)] != m
      {
        assert ShownBefore(before, j, |started.tb.lists|) >= 0;
      }
    }
  }

  /**
   * After an exec-restart that finds a saved window again, a monitor shows the workspace it showed before
   * exactly if the new instance assigns that workspace to it and none of those shown on later monitors.
   */
  lemma RestartShows(before: Core, started: Core, es: seq<Existing>, i: nat, m: nat)
    requires Inv(before) && Inv(started)
    requires i < |es| && es[i].hookManage && Worth(before.tb, es[i].win)
    requires m < |started.topo.monitors| && ShownBefore(before, m, |started.tb.lists|) >= 0
    ensures
      var after := Adopt(started, es, Parse(NOTHING, SavedText(before)));
      var w := ShownBefore(before, m, |started.tb.lists|);
      && m < |after.topo.monitors| && Sane(started)
      && (after.topo.monitors[m].activeWs == w <==> started.topo.owner[w] == m && NoneLater(before, started, m))
  {
    hide AdoptUpTo, SwitchMonitors, Parse, SavedText, Adopted, Inv, SavedOnce, Worth, LeftAlone, NoneLater;
    var r := Parse(NOTHING, SavedText(before));
    SavedIsRead(before, es[i].win);
    WorthIsWindow(before, es[i].win);
    AdoptedAgain(es[i], r);
    SavedSpaces(before, r);
    InvSane(started);
    NoneLaterIsLeftAlone(before, started, r, m);
    var a := AdoptUpTo(started, es, r, |es|);
    InvSane(a);
    AdoptUpToKeepsAssignment(started, es, r, |es|);
    assert |Names(a.topo.monitors)| == |a.topo.monitors| && |Names(started.topo.monitors)| == |started.topo.monitors|;
    assert SavedSpace(r, m, |a.tb.lists|) == ShownBefore(before, m, |started.tb.lists|);
    SwitchMonitorsShows(a, r, m);
  }

  lemma WorthIsWindow(c: Core, id: nat)
    requires Inv(c) && Worth(c.tb, id)
    ensures id != NO_WINDOW
  {
  }
}
