/**
 * What commands change about monitors and workspaces: only hot-plugs and settings reloads touch owners,
 * pools and what is parked; focusing what is current changes nothing but the focused monitor.
 */
module TopologySteps {
  import opened Seqs
  import opened Config
  import opened Monitors
  import opened Topology
  import opened TopologyProofs
  import opened Windows
  import opened WindowProofs
  import opened Reducer
  import opened ReducerProofs

  /** Owners, pools, parked pools and monitor names are the same. */
  predicate SameAssignment(t: Topology, r: Topology) {
    && r.wsAlias == t.wsAlias && r.owner == t.owner && r.pools == t.pools
    && r.parkedPools == t.parkedPools && r.parkedActive == t.parkedActive
    && Names(r.monitors) == Names(t.monitors)
  }

  predicate KeepsAssignment(c: Core, d: Core) {
    SameAssignment(c.topo, d.topo) && d.settings == c.settings
  }

  /** At most the focused monitor differs. */
  predicate SameButFocus(t: Topology, r: Topology) { r == t.(focused := r.focused) }

  // --- Focusing ----------------------------------------------------------------------------------

  lemma FocusKeepsAssignment(c: Core, id: nat)
    requires Inv(c)
    ensures KeepsAssignment(c, Focus(c, id))
  {
    hide Evaluate, FocusState, Inv, Quiet;
    InvSane(c);
    hide Sane;
    var w := FocusTarget(c, id);
    if w != NO_WINDOW && IsWs(c.tb, c.tb.home[w]) {
      FocusStateKeepsAssignment(c, w);
      QuietKeepsAssignment(c, Focusing(c, w), Evaluate(Focusing(c, w), c.tb.home[w]));
    }
  }

  lemma FocusStateKeepsAssignment(c: Core, w: nat)
    requires Sane(c) && w in c.tb.index && IsWs(c.tb, c.tb.home[w])
    ensures KeepsAssignment(c, FocusState(c, w)) && Sane(Focusing(c, w))
  {
    hide PointAt;
  }

  lemma QuietKeepsAssignment(c: Core, d: Core, e: Core)
    requires KeepsAssignment(c, d) && Quiet(d, e)
    ensures KeepsAssignment(c, e)
  {
  }

  /** A monitor shows the workspace found, or no monitor shows any. */
  lemma {:induction false} FirstShownIsShown(t: Topology, n: nat, k: nat)
    requires k <= |t.monitors|
    ensures
      var r := FirstShownWs(t, n, k);
      || (0 <= r < n && exists m :: k <= m < |t.monitors| && ActiveWs(t, m) == r)
      || (r == 0 && forall m :: k <= m < |t.monitors| ==> !(0 <= ActiveWs(t, m) < n))
    decreases |t.monitors| - k
  {
    if k < |t.monitors| && !(0 <= ActiveWs(t, k) < n) {
      FirstShownIsShown(t, n, k + 1);
    }
  }

  lemma ActiveIsWs(t: Topology, m: int)
    requires Consistent(t) && 0 <= m < |t.pools| && t.pools[m] != []
    ensures 0 <= ActiveWs(t, m) < |t.wsAlias|
  {
    assert PoolMatches(t.owner, m, t.pools[m]);
    assert t.pools[m][t.activeLocal[m]] in t.pools[m];
  }

  /** The owner of the current workspace shows it. */
  lemma CurrentIsShown(c: Core)
    requires Inv(c) && MonitorOf(c.topo, CurrentWs(c)) >= 0
    ensures ActiveWs(c.topo, MonitorOf(c.topo, CurrentWs(c))) == CurrentWs(c)
  {
    var t, n, ws := c.topo, |c.tb.lists|, CurrentWs(c);
    var owner := MonitorOf(t, ws);
    FirstShownIsShown(t, n, 0);
    assert PoolMatches(t.owner, owner, t.pools[owner]);
    assert ws in t.pools[owner];
    ActiveIsWs(t, owner);
    forall m | 0 <= m < |t.monitors| && ActiveWs(t, m) == ws
      ensures m == owner
    {
      ShownByOwner(t, m);
    }
  }

  /** Focusing a workspace that its owner shows changes at most the focused monitor. */
  lemma FocusShownWorkspace(t: Topology, ws: int)
    requires Consistent(t) && (MonitorOf(t, ws) >= 0 ==> ActiveWs(t, MonitorOf(t, ws)) == ws)
    ensures SameButFocus(t, FocusWorkspace(t, ws))
  {
    var m := MonitorOf(t, ws);
    if m >= 0 {
      assert PoolMatches(t.owner, m, t.pools[m]);
      assert ws in t.pools[m];
      IndexOfDistinct(t.pools[m], t.activeLocal[m]);
      assert t.activeLocal[m := t.activeLocal[m]] == t.activeLocal;
      assert SyncActive(t.monitors, t.pools, t.activeLocal) == t.monitors;
    }
  }

  lemma CurrentFocusedHome(c: Core)
    requires Inv(c) && CurrentFocused(c) != NO_WINDOW
    ensures CurrentFocused(c) in c.tb.home && c.tb.home[CurrentFocused(c)] == CurrentWs(c)
  {
    assert ListOk(c.tb, CurrentWs(c));
  }

  /** Focusing nothing in particular changes at most which monitor is focused. */
  lemma FocusCurrent(c: Core)
    requires Inv(c)
    ensures SameButFocus(c.topo, Focus(c, NO_WINDOW).topo)
  {
    hide Evaluate, PointAt, FocusWorkspace, CurrentFocused, CurrentWs;
    var w := FocusTarget(c, NO_WINDOW);
    if w != NO_WINDOW {
      CurrentFocusedHome(c);
      if MonitorOf(c.topo, CurrentWs(c)) >= 0 {
        CurrentIsShown(c);
      }
      FocusShownWorkspace(c.topo, CurrentWs(c));
    }
  }

  lemma ReconcileTopology(c: Core)
    requires Inv(c)
    ensures SameButFocus(c.topo, Reconcile(c).topo) && Reconcile(c).settings == c.settings
  {
    hide Refresh, Focus, Inv;
    InvSane(c);
    RefreshInv(c);
    FocusCurrent(Refresh(c));
    FocusKeepsAssignment(Refresh(c), NO_WINDOW);
  }

  // --- Switching ---------------------------------------------------------------------------------

  /** A switch shows the workspace on its owner; besides, at most the focused monitor changes. */
  lemma SwitchTopology(c: Core, ws: int, hint: Option<int>)
    requires Inv(c) && 0 <= ws < |c.topo.wsAlias| && c.topo.monitors != []
    ensures
      var h := if hint.Some? then hint.value else NONE;
      SameButFocus(SwitchTo(c.topo, ws, h, c.settings.aliases, c.settings.compose), DoSwitch(c, ws, hint).topo)
    ensures KeepsAssignment(c, DoSwitch(c, ws, hint))
  {
    hide Refresh, Focus, Evaluate, SwitchTo, Inv;
    InvSane(c);
    var h := if hint.Some? then hint.value else NONE;
    SwitchedInv(c, ws, h);
    SwitchToKeepsAssignment(c, ws, h);
    var c1 := c.(topo := SwitchTo(c.topo, ws, h, c.settings.aliases, c.settings.compose));
    RefreshInv(c1);
    FocusCurrent(Refresh(c1));
    FocusKeepsAssignment(Refresh(c1), NO_WINDOW);
  }

  lemma SwitchToKeepsAssignment(c: Core, ws: int, h: int)
    requires Inv(c) && 0 <= ws < |c.topo.wsAlias| && c.topo.monitors != []
    ensures SameAssignment(c.topo, SwitchTo(c.topo, ws, h, c.settings.aliases, c.settings.compose))
  {
    SwitchShows(c.topo, ws, h, c.settings.aliases, c.settings.compose);
  }

  // --- Every command -----------------------------------------------------------------------------

  predicate Reassigns(cmd: Command) { cmd.CApplyTopology? || cmd.CApplySettings? }

  lemma MoveKeepsAssignment(c: Core, id: nat, ws: int)
    requires Inv(c)
    ensures KeepsAssignment(c, DoMove(c, id, ws))
  {
    hide Refresh, Focus, Repin, Move, Inv, Quiet;
    InvSane(c);
    if 0 <= ws < |c.modes| && id in c.tb.index {
      var c1 := Post(c.(tb := Move(c.tb, id, ws)), WindowAssigned(id, ws));
      PlaceInv(c, id, ws);
      InvSane(c1);
      var c2 := Refresh(c1);
      RefreshInv(c1);
      var c3 := if c.tb.index[id].Covers() then Repin(c2, id, HomeOf(c.tb, id), ws) else c2;
      RepinQuiet(c2, id, HomeOf(c.tb, id), ws);
      FocusKeepsAssignment(c3, id);
      FocusKeepsAssignment(c3, NO_WINDOW);
    }
  }

  lemma RepinQuiet(c: Core, id: nat, src: int, ws: int)
    requires Inv(c)
    ensures Inv(Repin(c, id, src, ws)) && KeepsAssignment(c, Repin(c, id, src, ws))
  {
    hide Repin;
    QuietInv(c, Repin(c, id, src, ws));
  }

  lemma FullscreenKeepsAssignment(c: Core, id: nat, enabled: bool, preserve: bool)
    requires Inv(c)
    ensures KeepsAssignment(c, DoFullscreen(c, id, enabled, preserve))
  {
    hide EnterFullscreen, LeaveFullscreen, Arrange, Focus, Evaluate, Inv;
    InvSane(c);
    if id in c.tb.index {
      EnteredKeeps(c, EnterFullscreen(c, id, preserve), id);
    }
  }

  lemma EnteredKeeps(c: Core, e: Core, id: nat)
    requires Inv(c) && SameLists(c, e)
    ensures KeepsAssignment(c, Focus(Post(Arrange(e), RaiseDocks), id))
  {
    hide Arrange, Focus;
    SameListsInv(c, e);
    QuietInv(e, Arrange(e));
    FocusKeepsAssignment(Post(Arrange(e), RaiseDocks), id);
  }

  lemma PropsKeepsAssignment(c: Core, id: nat, p: Props)
    requires Sane(c) && id in c.tb.index && p.fullscreen == c.tb.index[id].props.fullscreen
    ensures KeepsAssignment(c, PutProps(c, id, p)) && Sane(PutProps(c, id, p)) && id in PutProps(c, id, p).tb.index
  {
    hide PutProps;
  }

  lemma PlaceKeepsAssignment(c: Core, id: nat, ws: int)
    requires Sane(c)
    ensures KeepsAssignment(c, DoAssign(c, id, ws)) && KeepsAssignment(c, DoEnsure(c, id, ws))
  {
    hide Move, Create;
  }

  lemma RouteKeepsAssignment(c: Core, id: nat, transientFor: nat)
    requires Sane(c) && id in c.tb.index
    ensures KeepsAssignment(c, RouteTransient(c, id, transientFor))
  {
    hide DoAssign, PutProps, HomeOf, Sane;
    var p := c.tb.index[id].props.(suppressFocusOnce := true);
    PropsKeepsAssignment(c, id, p);
    PlaceKeepsAssignment(PutProps(c, id, p), id, HomeOf(c.tb, transientFor));
  }

  lemma MetadataKeepsAssignment(c: Core, id: nat, kind: WindowType, h: MapHints, transientFor: nat)
    requires Sane(c)
    ensures KeepsAssignment(c, DoMetadata(c, id, kind, h, transientFor))
  {
    hide RouteTransient, PutProps, Classified, Floats, Sane, Silent, SameSaved, SameGeometry, SameVis;
    if id in c.tb.index {
      var p := Classified(c.tb.index[id].props, kind, h);
      PropsKeepsAssignment(c, id, p);
      var c1 := PutProps(c, id, p);
      RouteKeepsAssignment(c1, id, transientFor);
      var c2 := RouteTransient(c1, id, transientFor);
      PropsKeepsAssignment(c2, id, c2.tb.index[id].props.(floating := true));
    }
  }

  lemma MoveCommandKeepsAssignment(c: Core, cmd: Command)
    requires Inv(c)
    ensures KeepsAssignment(c, StepMove(c, cmd))
  {
    hide DoMove, CurrentFocused, Inv, KeepsWindows;
    InvSane(c);
    hide Sane, KeepsAssignment;
    Unchanged(c);
    match cmd
    case CMoveWindowToWorkspace(id, ws) => MoveKeepsAssignment(c, id, ws);
    case CMoveWindowToMonitor(id, m) =>
      if 0 <= m < |c.topo.monitors| {
        MoveKeepsAssignment(c, if id == NO_WINDOW then CurrentFocused(c) else id, c.topo.monitors[m].activeWs);
      }
    case CMoveFocusedToWorkspace(ws) => MoveKeepsAssignment(c, CurrentFocused(c), ws);
    case _ =>
  }

  lemma EvaluatingKeepsAssignment(c: Core, id: nat, flag: bool)
    requires Sane(c)
    ensures KeepsAssignment(c, DoBorderless(c, id, flag)) && KeepsAssignment(c, DoRemove(c, id))
  {
    hide Evaluate, Drop;
  }

  lemma WindowKeepsAssignment(c: Core, cmd: Command)
    requires Inv(c)
    ensures KeepsAssignment(c, StepWindow(c, cmd))
  {
    hide DoFullscreen, DoMetadata, DoBorderless, DoRemove, DoEnsure, DoAssign, Inv, KeepsWindows;
    InvSane(c);
    hide Sane, KeepsAssignment;
    Unchanged(c);
    if cmd.CSetFullscreen? {
      FullscreenKeepsAssignment(c, cmd.win, cmd.enabled, cmd.preserveGeometry);
    } else if cmd.CSetMetadata? {
      MetadataKeepsAssignment(c, cmd.win, cmd.kind, cmd.hints, cmd.transientFor);
    } else if cmd.CSetBorderless? {
      EvaluatingKeepsAssignment(c, cmd.win, cmd.flag);
    } else if cmd.CRemoveWindow? {
      EvaluatingKeepsAssignment(c, cmd.win, false);
    } else if cmd.CEnsureWindow? || cmd.CAssignWorkspace? {
      PlaceKeepsAssignment(c, cmd.win, cmd.ws);
    }
  }

  lemma Unchanged(c: Core)
    ensures KeepsAssignment(c, c)
  {
  }

  lemma FocusMonitorKeepsAssignment(c: Core, m: int)
    requires Inv(c)
    ensures KeepsAssignment(c, Focus(c.(topo := FocusMonitor(c.topo, m)), NO_WINDOW))
  {
    hide Focus;
    FocusMonitorInv(c, m);
    FocusKeepsAssignment(c.(topo := FocusMonitor(c.topo, m)), NO_WINDOW);
  }

  lemma CycleKeepsAssignment(c: Core, dir: int)
    requires Inv(c)
    ensures KeepsAssignment(c, DoCycle(c, dir))
  {
    hide Focus, Cycled, CurrentFocused;
    var ws := CurrentWs(c);
    FocusKeepsAssignment(c, NO_WINDOW);
    if IsWs(c.tb, ws) {
      CycledKeeps(c.tb, ws, dir);
      var c1 := c.(tb := Cycled(c.tb, ws, dir));
      var w := CurrentFocused(c1);
      FocusKeepsAssignment(c1, if Shown(c1.tb.index, w) then w else NO_WINDOW);
    }
  }

  lemma SwitchLocalKeepsAssignment(c: Core, li: int)
    requires Inv(c)
    ensures KeepsAssignment(c, DoSwitchLocal(c, li))
  {
    hide Reconcile;
    var m := c.topo.focused;
    if 0 <= m < |c.topo.pools| && 0 <= li < |c.topo.pools[m]| {
      ShowKeeps(c.topo, m, li);
      SameOwnersHonour(c.topo, Show(c.topo, m, li), c.settings.aliases);
      ReconcileTopology(c.(topo := Show(c.topo, m, li)));
    }
  }

  lemma FocusCommandKeepsAssignment(c: Core, cmd: Command)
    requires Inv(c) && !Reassigns(cmd)
    ensures KeepsAssignment(c, StepFocus(c, cmd))
  {
    hide Inv, Focus, DoSwitch, DoCycle, DoSwitchLocal, DoApplyTopology, KeepsWindows, MonitorAt, FocusMonitor;
    InvSane(c);
    hide Sane;
    match cmd
    case CFocusWindow(id) => FocusKeepsAssignment(c, id);
    case CSwitchWorkspace(ws, hint) => SwitchKeepsAssignment(c, ws, hint);
    case CFocusMonitor(m) => FocusMonitorKeepsAssignment(c, m);
    case CFocusMonitorAt(x, y) => FocusMonitorKeepsAssignment(c, MonitorAt(c.topo.monitors, x, y, 0));
    case CFocusNext => CycleKeepsAssignment(c, 1);
    case CFocusPrev => CycleKeepsAssignment(c, -1);
    case CSwitchLocal(li) => SwitchLocalKeepsAssignment(c, li);
    case _ =>
  }

  lemma SwitchKeepsAssignment(c: Core, ws: int, hint: Option<int>)
    requires Inv(c)
    ensures KeepsAssignment(c, DoSwitch(c, ws, hint))
  {
    if 0 <= ws < |c.topo.wsAlias| && c.topo.monitors != [] {
      SwitchTopology(c, ws, hint);
    }
  }

  lemma ConfigKeepsAssignment(c: Core, cmd: Command)
    requires Sane(c)
    ensures KeepsAssignment(c, Arrange(c)) && (ConfigCommand(cmd) ==> KeepsAssignment(c, DoConfigure(c, cmd)))
  {
    hide Arrange, Configured, KnownLayout;
  }

  lemma RelistingKeepsAssignment(c: Core)
    requires Sane(c)
    ensures KeepsAssignment(c, DoZoom(c)) && KeepsAssignment(c, DoToggleFocused(c))
  {
    hide Arrange, ZoomTable, CanZoom, CurrentFocused, ToggledFloating;
  }

  lemma ReserveKeepsAssignment(c: Core, m: int, e: Edge, px: int)
    requires Sane(c)
    ensures KeepsAssignment(c, DoReserve(c, m, e, px))
  {
  }

  lemma LayoutKeepsAssignment(c: Core, cmd: Command)
    requires Inv(c)
    ensures KeepsAssignment(c, StepLayout(c, cmd))
  {
    hide Arrange, DoConfigure, DoReserve, DoZoom, DoToggleFocused, Inv, KeepsWindows, Quiet;
    InvSane(c);
    hide Sane, KeepsAssignment;
    Unchanged(c);
    ConfigKeepsAssignment(c, cmd);
    RelistingKeepsAssignment(c);
    if cmd.CReserveArea? {
      ReserveKeepsAssignment(c, cmd.monitor, cmd.edge, cmd.px);
    }
  }

  /** Every command but a hot-plug and a reload leaves owners, pools and what is parked alone. */
  lemma StepKeepsAssignment(c: Core, cmd: Command)
    requires Inv(c) && !Reassigns(cmd)
    ensures Sane(c) && KeepsAssignment(c, Step(c, cmd))
  {
    hide StepVisibility, StepFlag, StepGeometry, StepLayout, StepFocus, StepMove, StepWindow, DoApplySettings, Inv;
    InvSane(c);
    if LayoutCommand(cmd) {
      LayoutKeepsAssignment(c, cmd);
    } else if FocusCommand(cmd) {
      FocusCommandKeepsAssignment(c, cmd);
    } else if MoveCommand(cmd) {
      MoveCommandKeepsAssignment(c, cmd);
    } else if !VisibilityCommand(cmd) && !FlagCommand(cmd) && !GeometryCommand(cmd) {
      WindowKeepsAssignment(c, cmd);
    }
  }

  lemma {:induction false} RunKeepsAssignment(c: Core, cmds: seq<Command>, d: Core)
    requires Inv(c) && Runs(c, cmds, d) && forall i :: 0 <= i < |cmds| ==> !Reassigns(cmds[i])
    ensures KeepsAssignment(c, d)
    decreases |cmds|
  {
    hide Step, Inv;
    if cmds != [] {
      StepKeepsAssignment(c, cmds[0]);
      StepInv(c, cmds[0]);
      RunKeepsAssignment(Step(c, cmds[0]), cmds[1..], d);
    }
  }
}
