/**
 * Hot-plugging on the core (core/src/core/core_dispatch.cpp:775-785): monitors go, the user carries on
 * with whatever is left, and monitors come back.
 */
module HotplugRuns {
  import opened Seqs
  import opened Config
  import opened Monitors
  import opened Topology
  import opened TopologyProofs
  import opened Hotplug
  import opened Windows
  import opened Reducer
  import opened ReducerProofs
  import opened TopologySteps

  /** A hot-plug is set_monitors and assign_workspaces; reconciling the windows then changes at most the focused monitor. */
  lemma ApplyTopology(c: Core, ms: seq<Monitor>)
    requires Inv(c)
    ensures Inv(DoApplyTopology(c, ms)) && DoApplyTopology(c, ms).settings == c.settings
    ensures SameButFocus(Replug(c.topo, ms, c.settings.aliases, c.settings.compose), DoApplyTopology(c, ms).topo)
  {
    hide Reconcile, Replug, Inv;
    var d := c.(topo := Replug(c.topo, ms, c.settings.aliases, c.settings.compose));
    TopologyInv(c, ms);
    PluggedInv(c, ms);
    ReconcileTopology(d);
  }

  lemma PluggedInv(c: Core, ms: seq<Monitor>)
    requires Inv(c)
    ensures Sane(c) && Inv(c.(topo := Replug(c.topo, ms, c.settings.aliases, c.settings.compose)))
  {
    hide Replug;
    ReplugSettles(c.topo, ms, c.settings.aliases, c.settings.compose);
    ReplugSized(c.topo, ms, c.settings.aliases, c.settings.compose);
  }

  /** The position of the old pool that monitor `j` goes back to: a survivor's by what it shows in `d`, else the parked one. */
  function PositionIn(t: Topology, d: Topology, j: int): int
    requires 0 <= j < |t.monitors| && Sized(t)
  {
    var i := IndexOf(Names(d.monitors), t.monitors[j].name);
    if i >= 0 then ActiveLocalFor(t.pools[j], ActiveWs(d, i)) else t.activeLocal[j]
  }

  /** `t`, with the survivors among its monitors showing what `d` has led them to. */
  function Revised(t: Topology, d: Topology): (r: Topology)
    requires Sized(t)
    ensures Sized(r)
  {
    var active := seq(|t.monitors|, j requires 0 <= j < |t.monitors| => PositionIn(t, d, j));
    t.(activeLocal := active, monitors := SyncActive(t.monitors, t.pools, active))
  }

  lemma RevisedSettles(t: Topology, d: Topology, aliases: seq<MonitorAlias>)
    requires Settled(t, aliases)
    ensures Settled(Revised(t, d), aliases) && Names(Revised(t, d).monitors) == Names(t.monitors)
  {
    SameOwnersHonour(t, Revised(t, d), aliases);
  }

  lemma RevisedSurvivor(t: Topology, u: Topology, d: Topology, i: int, j: int)
    requires Sized(t) && SameAssignment(u, d) && RemembersSurvivor(t, u, i, j) && |d.pools| == |d.monitors|
    requires Distinct(Names(d.monitors)) && 0 <= i < |d.monitors| && t.monitors[j].name == d.monitors[i].name
    ensures RemembersSurvivor(Revised(t, d), d, i, j)
  {
    hide ActiveLocalFor, ActiveOf;
    IndexOfDistinct(Names(d.monitors), i);
    assert PositionIn(t, d, j) == ActiveLocalFor(t.pools[j], ActiveWs(d, i));
  }

  lemma RevisedParked(t: Topology, u: Topology, d: Topology, j: int)
    requires Sized(t) && SameAssignment(u, d) && RemembersParked(t, u, j) && t.monitors[j].name !in Names(d.monitors)
    ensures RemembersParked(Revised(t, d), d, j)
  {
    var r := Revised(t, d);
    assert r.pools == t.pools && r.activeLocal[j] == t.activeLocal[j];
    assert r.monitors[j].name == t.monitors[j].name;
  }

  /** Commands that reassign nothing do not disturb what unplugging remembers. */
  lemma StillRemembers(t: Topology, u: Topology, d: Topology)
    requires Consistent(t) && Remembers(t, u) && SameAssignment(u, d) && Consistent(d)
    ensures Remembers(Revised(t, d), d)
  {
    hide RemembersSurvivor, RemembersParked, OwnersInRange, PoolsMatch, ActiveInRange, ActiveOf, IndexOf;
    var r := Revised(t, d);
    var names, sub := Names(t.monitors), Names(u.monitors);
    RevisedNames(t, d);
    assert Names(r.monitors) == names;
    forall i | 0 <= i < |sub|
      ensures RemembersSurvivor(r, d, i, Home(names, sub, i))
    {
      var j := Home(names, sub, i);
      assert names[j] == sub[i];
      RevisedSurvivor(t, u, d, i, j);
    }
    forall j | 0 <= j < |names| && names[j] !in sub
      ensures RemembersParked(r, d, j)
    {
      RevisedParked(t, u, d, j);
    }
    forall n | n !in names
      ensures SameParked(r, d, n)
    {
      assert SameParked(t, u, n);
    }
  }

  lemma RevisedNames(t: Topology, d: Topology)
    requires Sized(t)
    ensures
      var r := Revised(t, d);
      && Names(r.monitors) == Names(t.monitors) && r.wsAlias == t.wsAlias
      && r.parkedPools == t.parkedPools && r.parkedActive == t.parkedActive
  {
  }

  /**
   * Owners, pools in their order and, for monitors that had been gone, the active workspace are those of `t`.
   * A survivor still shows what it showed in `d` if that was its own to begin with, else the first of its pool.
   */
  ghost predicate PluggedBack(t: Topology, d: Topology, back: Topology) {
    && Consistent(back) && Names(back.monitors) == Names(t.monitors) && back.owner == t.owner && back.pools == t.pools
    && (forall m :: 0 <= m < |t.monitors| && m < |back.monitors| && m < |t.pools| ==>
          back.monitors[m].activeWs == WorkspaceBack(t, d, m))
  }

  function WorkspaceBack(t: Topology, d: Topology, m: int): int
    requires 0 <= m < |t.monitors| && m < |t.pools|
  {
    var i := IndexOf(Names(d.monitors), t.monitors[m].name);
    if i < 0 then t.monitors[m].activeWs
    else if d.monitors[i].activeWs in t.pools[m] then d.monitors[i].activeWs
    else if t.pools[m] == [] then NONE
    else t.pools[m][0]
  }

  lemma RevisedShows(t: Topology, d: Topology, m: int)
    requires Consistent(t) && Consistent(d) && 0 <= m < |t.monitors|
    ensures Revised(t, d).monitors[m].activeWs == WorkspaceBack(t, d, m)
  {
    var i := IndexOf(Names(d.monitors), t.monitors[m].name);
    if i >= 0 {
      assert ActiveWs(d, i) == d.monitors[i].activeWs;
    }
  }

  /** Unplugging on the core remembers the assignment, whatever commands follow that reassign nothing. */
  lemma CoreRemembers(c: Core, fewer: seq<Monitor>, cmds: seq<Command>, d: Core)
    requires Inv(c) && Within(Names(fewer), Names(c.topo.monitors))
    requires Runs(DoApplyTopology(c, fewer), cmds, d) && forall i :: 0 <= i < |cmds| ==> !Reassigns(cmds[i])
    ensures Inv(d) && d.settings == c.settings
    ensures Remembers(Revised(c.topo, d.topo), d.topo) && Names(d.topo.monitors) == Names(fewer)
  {
    hide DoApplyTopology, Replug, Remembers, Revised;
    var u := Replug(c.topo, fewer, c.settings.aliases, c.settings.compose);
    ApplyTopology(c, fewer);
    UnplugRemembers(c.topo, fewer, c.settings.aliases, c.settings.compose);
    ReplugSettles(c.topo, fewer, c.settings.aliases, c.settings.compose);
    RunInv(DoApplyTopology(c, fewer), cmds, d);
    RunKeepsAssignment(DoApplyTopology(c, fewer), cmds, d);
    StillRemembers(c.topo, u, d.topo);
  }

  /** Plugging the original monitors back in restores everything that was remembered. */
  lemma PlugBack(t: Topology, d: Core, mons: seq<Monitor>)
    requires Inv(d) && Settled(t, d.settings.aliases) && Remembers(t, d.topo) && Names(mons) == Names(t.monitors)
    ensures Restored(t, DoApplyTopology(d, mons).topo, d.settings.aliases)
  {
    hide DoApplyTopology, SetMonitors, Assign, Remembers, Inv;
    var s := SetMonitors(d.topo, mons);
    InvSane(d);
    assert |mons| == |Names(mons)| == |t.monitors|;
    SetMonitorsRestores(t, d.topo, mons);
    SetMonitorsConsistent(d.topo, mons);
    SetMonitorsNames(d.topo, mons);
    AssignAfterRestore(t, s, d.settings.aliases, d.settings.compose);
    ApplyTopology(d, mons);
    RefocusedRestored(t, Assign(s, d.settings.aliases, d.settings.compose), DoApplyTopology(d, mons));
  }

  lemma RefocusedRestored(t: Topology, back: Topology, d: Core)
    requires Inv(d) && SameButFocus(back, d.topo) && Restored(t, back, d.settings.aliases)
    ensures Restored(t, d.topo, d.settings.aliases)
  {
  }

  /**
   * The hot-plug round trip on the core: unplug any monitors (the survivors may come back in any order),
   * then plug the original list back in. After both commands with all they do to windows and focus, every
   * owner, every pool in its original order and every monitor's active workspace are what they were.
   */
  lemma HotplugRoundTrip(c: Core, fewer: seq<Monitor>, mons: seq<Monitor>)
    requires Inv(c)
    requires Distinct(Names(c.topo.monitors)) && Names(mons) == Names(c.topo.monitors)
    requires Distinct(Names(fewer)) && forall i :: 0 <= i < |fewer| ==> fewer[i].name in Names(c.topo.monitors)
    ensures Sane(c) && Sane(DoApplyTopology(c, fewer))
    ensures Restored(c.topo, DoApplyTopology(DoApplyTopology(c, fewer), mons).topo, c.settings.aliases)
  {
    hide DoApplyTopology, Replug, Restored;
    var u := Replug(c.topo, fewer, c.settings.aliases, c.settings.compose);
    var d := DoApplyTopology(c, fewer);
    ApplyTopology(c, fewer);
    UnplugRemembers(c.topo, fewer, c.settings.aliases, c.settings.compose);
    RefocusedRemembers(c.topo, u, d.topo);
    PlugBack(c.topo, d, mons);
  }

  lemma RefocusedRemembers(t: Topology, u: Topology, d: Topology)
    requires Remembers(t, u) && SameButFocus(u, d) && Consistent(d)
    ensures Remembers(t, d)
  {
    hide ActiveLocalFor, ActiveOf, Consistent;
    var names, sub := Names(t.monitors), Names(u.monitors);
    forall i | 0 <= i < |sub|
      ensures RemembersSurvivor(t, d, i, Home(names, sub, i))
    {
      assert RemembersSurvivor(t, u, i, Home(names, sub, i));
    }
    forall j | 0 <= j < |names| && names[j] !in sub
      ensures RemembersParked(t, d, j)
    {
      assert RemembersParked(t, u, j);
    }
    forall n | n !in names
      ensures SameParked(t, d, n)
    {
      assert SameParked(t, u, n);
    }
  }

  /**
   * The same with any commands in between that are neither hot-plugs nor reloads: windows may come and go,
   * workspaces may be switched and moved to. Owners and pools are back, and every monitor that had been
   * gone shows what it showed.
   */
  lemma HotplugSurvivesRuns(c: Core, fewer: seq<Monitor>, cmds: seq<Command>, d: Core, mons: seq<Monitor>)
    requires Inv(c)
    requires Distinct(Names(c.topo.monitors)) && Names(mons) == Names(c.topo.monitors)
    requires Distinct(Names(fewer)) && forall i :: 0 <= i < |fewer| ==> fewer[i].name in Names(c.topo.monitors)
    requires Sane(c) && Runs(DoApplyTopology(c, fewer), cmds, d) && forall i :: 0 <= i < |cmds| ==> !Reassigns(cmds[i])
    ensures Sane(d) && PluggedBack(c.topo, d.topo, DoApplyTopology(d, mons).topo)
  {
    hide DoApplyTopology, Remembers, Revised, WorkspaceBack;
    CoreRemembers(c, fewer, cmds, d);
    RevisedSettles(c.topo, d.topo, c.settings.aliases);
    PlugBack(Revised(c.topo, d.topo), d, mons);
    forall m | 0 <= m < |c.topo.monitors|
      ensures Revised(c.topo, d.topo).monitors[m].activeWs == WorkspaceBack(c.topo, d.topo, m)
    {
      RevisedShows(c.topo, d.topo, m);
    }
    RevisedOwners(c.topo, d.topo);
  }

  lemma RevisedOwners(t: Topology, d: Topology)
    requires Sized(t)
    ensures Revised(t, d).owner == t.owner && Revised(t, d).pools == t.pools && |Revised(t, d).monitors| == |t.monitors|
  {
  }
}
