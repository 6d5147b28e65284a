/** What every command keeps: indexes, pools and lists agree, over every run. */
module ReducerProofs {
  import opened Seqs
  import opened Config
  import opened Monitors
  import opened Topology
  import opened TopologyProofs
  import opened Windows
  import opened WindowProofs
  import opened Flush
  import Cycle = FocusCycle
  import Tile
  import opened Reducer

  ghost predicate Inv(c: Core) {
    Sane(c) && TableOk(c.tb) && Settled(c.topo, c.settings.aliases)
  }

  /** The window table only depends on lists, cursors, homes and which ids exist. */
  lemma SameTable(a: Table, b: Table)
    requires TableOk(a) && b.lists == a.lists && b.cursors == a.cursors && b.home == a.home && b.index.Keys == a.index.Keys
    ensures TableOk(b)
  {
    forall ws | 0 <= ws < |b.lists|
      ensures ListOk(b, ws)
    {
      assert ListOk(a, ws);
    }
  }

  lemma QuietInv(c: Core, d: Core)
    requires Inv(c) && Quiet(c, d)
    ensures Inv(d)
  {
    SameTable(c.tb, d.tb);
  }

  lemma SyncedInv(c: Core, d: Core)
    requires Inv(c) && Synced(c, d)
    ensures Inv(d)
  {
    SameTable(c.tb, d.tb);
  }

  lemma PutInv(c: Core, id: nat, w: Window)
    requires Inv(c) && id in c.tb.index
    ensures Inv(Put(c, id, w))
  {
    SameTable(c.tb, Put(c, id, w).tb);
  }

  /** What focusing does to the topology is settled again. */
  lemma FocusWorkspaceSettled(t: Topology, aliases: seq<MonitorAlias>, ws: int)
    requires Settled(t, aliases)
    ensures Settled(FocusWorkspace(t, ws), aliases)
    ensures FocusWorkspace(t, ws).wsAlias == t.wsAlias && FocusWorkspace(t, ws).owner == t.owner
  {
    if MonitorOf(t, ws) >= 0 {
      FocusWorkspaceShows(t, ws);
      SameOwnersHonour(t, FocusWorkspace(t, ws), aliases);
    }
  }

  lemma SameOwnersHonour(t: Topology, r: Topology, aliases: seq<MonitorAlias>)
    requires AliasesHonoured(t, aliases) && r.owner == t.owner && r.wsAlias == t.wsAlias
    requires Names(r.monitors) == Names(t.monitors)
    ensures AliasesHonoured(r, aliases)
  {
  }

  /** On a window that is listed, Focus always reaches its state change. */
  lemma FocusStateInv(c: Core, id: nat)
    requires Inv(c) && id in c.tb.index
    ensures IsWs(c.tb, c.tb.home[id]) && id in c.tb.lists[c.tb.home[id]]
    ensures Inv(FocusState(c, id))
  {
    PointAtKeeps(c.tb, id);
    FocusWorkspaceSettled(c.topo, c.settings.aliases, c.tb.home[id]);
  }

  /** The core after the focus moved to a visible window, before fullscreen stacking is evaluated. */
  function Focusing(c: Core, w: nat): Core
    requires Sane(c) && w in c.tb.index && IsWs(c.tb, c.tb.home[w])
  {
    Post(Emit(FocusState(c, w), FocusWindow(w)), FocusChanged(w))
  }

  lemma FocusInv(c: Core, id: nat)
    requires Inv(c)
    ensures Inv(Focus(c, id))
  {
    var w := FocusTarget(c, id);
    if w != NO_WINDOW {
      FocusStateInv(c, w);
      QuietInv(Focusing(c, w), Evaluate(Focusing(c, w), c.tb.home[w]));
    }
  }

  /** Synchronising visibility and arranging keep the invariant. */
  lemma RefreshInv(c: Core)
    requires Inv(c)
    ensures Inv(Refresh(c))
  {
    SyncedInv(c, SyncVisibility(c));
    QuietInv(SyncVisibility(c), Arrange(SyncVisibility(c)));
  }

  lemma ReconcileInv(c: Core)
    requires Inv(c)
    ensures Inv(Reconcile(c))
  {
    RefreshInv(c);
    FocusInv(Refresh(c), NO_WINDOW);
  }

  /** The core with workspace `ws` switched to, before windows follow. */
  lemma SwitchedInv(c: Core, ws: int, h: int)
    requires Inv(c) && 0 <= ws < |c.topo.wsAlias| && c.topo.monitors != []
    ensures Inv(c.(topo := SwitchTo(c.topo, ws, h, c.settings.aliases, c.settings.compose)))
  {
    hide SwitchTo;
    SwitchSettled(c.topo, ws, h, c.settings.aliases, c.settings.compose);
  }

  lemma SwitchInv(c: Core, ws: int, hint: Option<int>)
    requires Inv(c)
    ensures Inv(DoSwitch(c, ws, hint))
  {
    hide Focus, Evaluate, Refresh, SwitchTo, Inv;
    InvSane(c);
    if 0 <= ws < |c.topo.wsAlias| && c.topo.monitors != [] {
      var h := if hint.Some? then hint.value else NONE;
      SwitchedInv(c, ws, h);
      var c1 := c.(topo := SwitchTo(c.topo, ws, h, c.settings.aliases, c.settings.compose));
      InvSane(c1);
      RefreshInv(c1);
      ShownInv(Refresh(c1), ws);
    }
  }

  lemma ShownInv(c: Core, ws: int)
    requires Inv(c)
    ensures Inv(Post(Evaluate(c, ws), WorkspaceSwitched(ws)))
    ensures Inv(Post(Evaluate(Focus(c, NO_WINDOW), ws), WorkspaceSwitched(ws)))
  {
    hide Focus, Evaluate;
    FocusInv(c, NO_WINDOW);
    QuietInv(c, Evaluate(c, ws));
    QuietInv(Focus(c, NO_WINDOW), Evaluate(Focus(c, NO_WINDOW), ws));
  }

  lemma SwitchSettled(t: Topology, ws: int, h: int, aliases: seq<MonitorAlias>, compose: MonitorCompose)
    requires Settled(t, aliases) && 0 <= ws < |t.wsAlias| && t.monitors != []
    ensures Settled(SwitchTo(t, ws, h, aliases, compose), aliases)
    ensures SwitchTo(t, ws, h, aliases, compose).wsAlias == t.wsAlias
  {
    SwitchShows(t, ws, h, aliases, compose);
    SameOwnersHonour(t, SwitchTo(t, ws, h, aliases, compose), aliases);
  }

  lemma FocusMovedInv(c: Core, id: nat, ws: int)
    requires Inv(c)
    ensures Inv(FocusMoved(c, id, ws))
  {
    hide Focus, Inv;
    FocusInv(c, id);
    FocusInv(c, NO_WINDOW);
  }

  lemma PlaceInv(c: Core, id: nat, ws: int)
    requires Inv(c) && id in c.tb.index
    ensures Inv(Post(c.(tb := Move(c.tb, id, ws)), WindowAssigned(id, ws)))
  {
    MoveKeeps(c.tb, id, ws);
  }

  lemma MoveInv(c: Core, id: nat, ws: int)
    requires Inv(c)
    ensures Inv(DoMove(c, id, ws))
  {
    hide FocusMoved, Repin, Refresh, Move, Inv;
    InvSane(c);
    if 0 <= ws < |c.modes| && id in c.tb.index {
      var c1 := Post(c.(tb := Move(c.tb, id, ws)), WindowAssigned(id, ws));
      PlaceInv(c, id, ws);
      InvSane(c1);
      var c2 := Refresh(c1);
      RefreshInv(c1);
      var c3 := Repin(c2, id, HomeOf(c.tb, id), ws);
      QuietInv(c2, c3);
      FocusMovedInv(c2, id, ws);
      FocusMovedInv(c3, id, ws);
    }
  }

  lemma SameListsInv(c: Core, d: Core)
    requires Inv(c) && SameLists(c, d)
    ensures Inv(d)
  {
    SameTable(c.tb, d.tb);
  }

  lemma EnterInv(c: Core, id: nat, preserve: bool)
    requires Inv(c) && id in c.tb.index
    ensures Inv(DoEnter(c, id, preserve))
  {
    hide Focus, Evaluate, Arrange, EnterFullscreen;
    SameListsInv(c, EnterFullscreen(c, id, preserve));
    EnteredInv(EnterFullscreen(c, id, preserve), id, HomeOf(c.tb, id));
  }

  lemma LeaveInv(c: Core, id: nat)
    requires Inv(c) && id in c.tb.index
    ensures Inv(DoLeave(c, id))
  {
    hide Evaluate, Arrange, LeaveFullscreen;
    SameListsInv(c, LeaveFullscreen(c, id));
    LeftInv(LeaveFullscreen(c, id), HomeOf(c.tb, id));
  }

  lemma FullscreenInv(c: Core, id: nat, enabled: bool, preserve: bool)
    requires Inv(c)
    ensures Inv(DoFullscreen(c, id, enabled, preserve))
  {
    hide DoEnter, DoLeave, Inv, KeepsWindows;
    InvSane(c);
    if id in c.tb.index {
      EnterInv(c, id, preserve);
      LeaveInv(c, id);
    }
  }

  lemma LeftInv(l: Core, ws: int)
    requires Inv(l)
    ensures Inv(Evaluate(Arrange(l), ws))
  {
    QuietInv(l, Arrange(l));
    QuietInv(Arrange(l), Evaluate(Arrange(l), ws));
  }

  lemma EnteredInv(e: Core, id: nat, ws: int)
    requires Inv(e)
    ensures Inv(Focus(Post(Arrange(e), RaiseDocks), id)) && Inv(Evaluate(Post(Arrange(e), RaiseDocks), ws))
  {
    var c1 := Post(Arrange(e), RaiseDocks);
    QuietInv(e, Arrange(e));
    FocusInv(c1, id);
    QuietInv(c1, Evaluate(c1, ws));
  }

  lemma EnsureInv(c: Core, id: nat, ws: int)
    requires Inv(c)
    ensures Inv(DoEnsure(c, id, ws)) && Inv(DoAssign(c, id, ws))
  {
    if id in c.tb.index {
      MoveKeeps(c.tb, id, ws);
    } else if id != NO_WINDOW {
      CreateKeeps(c.tb, id, ws, ActiveWs(c.topo, c.topo.focused));
    }
  }

  lemma PropsInv(c: Core, id: nat, p: Props)
    requires Inv(c) && id in c.tb.index && p.fullscreen == c.tb.index[id].props.fullscreen
    ensures Inv(PutProps(c, id, p)) && Sane(PutProps(c, id, p)) && id in PutProps(c, id, p).tb.index
  {
    hide PutProps;
    SameListsInv(c, PutProps(c, id, p));
  }

  lemma RouteInv(c: Core, id: nat, transientFor: nat)
    requires Inv(c) && id in c.tb.index
    ensures Inv(RouteTransient(c, id, transientFor))
  {
    hide DoAssign, PutProps, Inv;
    InvSane(c);
    var p := c.tb.index[id].props.(suppressFocusOnce := true);
    PropsInv(c, id, p);
    EnsureInv(PutProps(c, id, p), id, HomeOf(c.tb, transientFor));
  }

  lemma FloatInv(c: Core, id: nat)
    requires Inv(c) && id in c.tb.index
    ensures Inv(PutProps(c, id, c.tb.index[id].props.(floating := true)))
  {
    hide PutProps, Inv;
    PropsInv(c, id, c.tb.index[id].props.(floating := true));
  }

  lemma MetadataInv(c: Core, id: nat, kind: WindowType, h: MapHints, transientFor: nat)
    requires Inv(c)
    ensures Inv(DoMetadata(c, id, kind, h, transientFor))
  {
    hide Classified, Floats, PutProps, RouteTransient, Inv, Silent, SameLists, SameSaved, SameGeometry, SameVis;
    InvSane(c);
    if id in c.tb.index {
      var p := Classified(c.tb.index[id].props, kind, h);
      PropsInv(c, id, p);
      RouteInv(PutProps(c, id, p), id, transientFor);
      FloatInv(RouteTransient(PutProps(c, id, p), id, transientFor), id);
    }
  }

  lemma InvSane(c: Core)
    requires Inv(c)
    ensures Sane(c)
  {
  }

  lemma BorderlessInv(c: Core, id: nat, flag: bool)
    requires Inv(c)
    ensures Inv(DoBorderless(c, id, flag))
  {
    if id in c.tb.index {
      var w0 := c.tb.index[id];
      var w := w0.(props := w0.props.(borderless := flag, promoteToBorderless := false));
      PutInv(c, id, w);
      PutInv(c, id, WithBorder(w, 0));
      var a, b := Put(c, id, w), Emit(Put(c, id, WithBorder(w, 0)), UpdateWindow(id));
      QuietInv(a, Evaluate(a, HomeOf(a.tb, id)));
      QuietInv(b, Evaluate(b, HomeOf(b.tb, id)));
    }
  }

  lemma RemoveInv(c: Core, id: nat)
    requires Inv(c)
    ensures Inv(DoRemove(c, id))
  {
    DropKeeps(c.tb, id);
    var d := c.(tb := Drop(c.tb, id), dirty := c.dirty - {id});
    QuietInv(d, Evaluate(d, HomeOf(c.tb, id)));
  }

  lemma FocusMonitorInv(c: Core, m: int)
    requires Inv(c)
    ensures Inv(c.(topo := FocusMonitor(c.topo, m)))
  {
    SameOwnersHonour(c.topo, FocusMonitor(c.topo, m), c.settings.aliases);
  }

  lemma StepInRange(index: Index, list: seq<nat>, at: int, dir: int)
    requires list != [] && 0 <= at < |list|
    ensures 0 <= Cycle.Step(index, list, at, dir) < |list|
  {
  }

  lemma CycledKeeps(tb: Table, ws: int, dir: int)
    requires TableOk(tb) && IsWs(tb, ws)
    ensures TableOk(Cycled(tb, ws, dir))
  {
    hide Cycle.Step;
    var r := Cycled(tb, ws, dir);
    assert ListOk(tb, ws);
    if tb.lists[ws] != [] {
      StepInRange(tb.index, tb.lists[ws], tb.cursors[ws], 1);
      StepInRange(tb.index, tb.lists[ws], tb.cursors[ws], -1);
    }
    assert tb.lists[ws] == [] ==> r.cursors[ws] == -1 by {
      EmptyStays(tb.index, tb.cursors[ws]);
    }
    forall k | 0 <= k < |r.lists|
      ensures ListOk(r, k)
    {
      assert ListOk(tb, k);
    }
  }

  lemma EmptyStays(index: Index, at: int)
    ensures Cycle.NextCursor(index, [], at) == at && Cycle.PrevCursor(index, [], at) == at
  {
  }

  lemma CycleInv(c: Core, dir: int)
    requires Inv(c)
    ensures Inv(DoCycle(c, dir))
  {
    hide Focus, Cycled, CurrentFocused;
    var ws := CurrentWs(c);
    FocusInv(c, NO_WINDOW);
    if IsWs(c.tb, ws) {
      CycledKeeps(c.tb, ws, dir);
      var c1 := c.(tb := Cycled(c.tb, ws, dir));
      var w := CurrentFocused(c1);
      FocusInv(c1, if Shown(c1.tb.index, w) then w else NO_WINDOW);
    }
  }

  lemma SwitchLocalInv(c: Core, li: int)
    requires Inv(c)
    ensures Inv(DoSwitchLocal(c, li))
  {
    var m := c.topo.focused;
    if 0 <= m < |c.topo.pools| && 0 <= li < |c.topo.pools[m]| {
      ShowKeeps(c.topo, m, li);
      SameOwnersHonour(c.topo, Show(c.topo, m, li), c.settings.aliases);
      ReconcileInv(c.(topo := Show(c.topo, m, li)));
    }
  }

  lemma TopologyInv(c: Core, ms: seq<Monitor>)
    requires Inv(c)
    ensures Inv(DoApplyTopology(c, ms))
  {
    hide Reconcile, Replug;
    var t := Replug(c.topo, ms, c.settings.aliases, c.settings.compose);
    ReplugSettles(c.topo, ms, c.settings.aliases, c.settings.compose);
    ReplugSized(c.topo, ms, c.settings.aliases, c.settings.compose);
    ReconcileInv(c.(topo := t));
  }

  lemma SettingsInv(c: Core, next: Settings)
    requires Inv(c) && Applicable(c, next)
    ensures Inv(DoApplySettings(c, next))
  {
    var n := |next.defs|;
    ResizeKeeps(c.tb, n, Fallbacks(c.topo, n));
    ReloadSettles(c.topo, next.defs, next.aliases, next.compose);
  }

  lemma ReserveInv(c: Core, m: int, e: Edge, px: int)
    requires Inv(c)
    ensures Inv(c.(topo := c.topo.(monitors := ReserveAll(c.topo.monitors, m, e, px))))
  {
    var t := c.topo.(monitors := ReserveAll(c.topo.monitors, m, e, px));
    assert Names(t.monitors) == Names(c.topo.monitors);
    SameOwnersHonour(c.topo, t, c.settings.aliases);
  }

  lemma {:induction false} TiledPositionsAscend(index: Index, list: seq<nat>, k: nat)
    requires k <= |list|
    ensures forall i, j :: 0 <= i < j < |TiledPositions(index, list, k)| ==>
      TiledPositions(index, list, k)[i] < TiledPositions(index, list, k)[j]
  {
    if k > 0 {
      TiledPositionsAscend(index, list, k - 1);
    }
  }

  /** Zooming swaps two windows of one list and keeps everything else. */
  lemma ZoomKeeps(tb: Table, ws: int)
    requires TableOk(tb)
    ensures TableOk(ZoomTable(tb, ws)) && ZoomTable(tb, ws).index == tb.index && ZoomTable(tb, ws).home == tb.home
    ensures |ZoomTable(tb, ws).lists| == |tb.lists|
  {
    var r := ZoomTable(tb, ws);
    if r != tb {
      var list := tb.lists[ws];
      TiledPositionsAscend(tb.index, list, |list|);
      assert ListOk(tb, ws);
      assert |r.lists[ws]| == |list|;
      forall k | 0 <= k < |r.lists|
        ensures ListOk(r, k)
      {
        assert ListOk(tb, k);
      }
      forall id | id in r.home
        ensures 0 <= r.home[id] < |r.lists| && id in r.lists[r.home[id]]
      {
        if r.home[id] == ws {
          SwapKeepsMembers(list, r.lists[ws], id);
        }
      }
    }
  }

  lemma SwapKeepsMembers(a: seq<nat>, b: seq<nat>, id: nat)
    requires |a| == |b| && id in a
    requires exists i, j | 0 <= i < |a| && 0 <= j < |a| :: b == a[i := a[j]][j := a[i]]
    ensures id in b
  {
    var i, j :| 0 <= i < |a| && 0 <= j < |a| && b == a[i := a[j]][j := a[i]];
    var k :| 0 <= k < |a| && a[k] == id;
    assert b[if k == i then j else if k == j then i else k] == id;
  }

  lemma ArrangeInv(c: Core)
    requires Inv(c)
    ensures Inv(Arrange(c))
  {
    QuietInv(c, Arrange(c));
  }

  lemma ZoomInv(c: Core)
    requires Inv(c)
    ensures Inv(Arrange(c.(tb := ZoomTable(c.tb, CurrentWs(c)))))
  {
    ZoomKeeps(c.tb, CurrentWs(c));
    ArrangeInv(c.(tb := ZoomTable(c.tb, CurrentWs(c))));
  }

  lemma ToggleInv(c: Core, f: nat)
    requires Inv(c) && f in c.tb.index
    ensures Inv(Arrange(ToggledFloating(c, f)))
  {
    hide Arrange, ToggledFloating;
    SameListsInv(c, ToggledFloating(c, f));
    ArrangeInv(ToggledFloating(c, f));
  }

  lemma ConfigInv(c: Core, cmd: Command)
    requires Inv(c) && ConfigCommand(cmd)
    ensures Inv(DoConfigure(c, cmd))
  {
    hide Arrange, Configured, KnownLayout;
    ArrangeInv(Configured(c, cmd));
  }

  lemma LayoutInv(c: Core, cmd: Command)
    requires Inv(c)
    ensures Inv(StepLayout(c, cmd))
  {
    hide Inv, Arrange, DoConfigure, ZoomTable, ToggledFloating, KeepsWindows, CurrentFocused, CanZoom;
    InvSane(c);
    hide Sane;
    if ConfigCommand(cmd) {
      ConfigInv(c, cmd);
    } else if cmd.CReconcileNow? {
      ArrangeInv(c);
    } else if cmd.CReserveArea? {
      ReserveInv(c, cmd.monitor, cmd.edge, cmd.px);
    } else if cmd.CZoom? {
      ZoomInv(c);
    } else if cmd.CToggleFocusedFloating? && CurrentFocused(c) in c.tb.index {
      ToggleInv(c, CurrentFocused(c));
    }
  }

  lemma MoveCommandInv(c: Core, cmd: Command)
    requires Inv(c)
    ensures Inv(StepMove(c, cmd))
  {
    hide Inv, DoMove, CurrentFocused, KeepsWindows;
    InvSane(c);
    hide Sane;
    match cmd
    case CMoveWindowToWorkspace(id, ws) => MoveInv(c, id, ws);
    case CMoveWindowToMonitor(id, m) =>
      if 0 <= m < |c.topo.monitors| {
        MoveInv(c, if id == NO_WINDOW then CurrentFocused(c) else id, c.topo.monitors[m].activeWs);
      }
    case CMoveFocusedToWorkspace(ws) => MoveInv(c, CurrentFocused(c), ws);
    case _ =>
  }

  lemma FullscreenCommandInv(c: Core, cmd: Command)
    requires Inv(c) && (cmd.CSetFullscreen? || cmd.CSetBorderless?)
    ensures Inv(StepWindow(c, cmd))
  {
    hide DoFullscreen, DoBorderless, Inv;
    match cmd
    case CSetFullscreen(id, enabled, preserve) => FullscreenInv(c, id, enabled, preserve);
    case CSetBorderless(id, flag) => BorderlessInv(c, id, flag);
  }

  lemma WindowInv(c: Core, cmd: Command)
    requires Inv(c) && !cmd.CSetFullscreen? && !cmd.CSetBorderless?
    ensures Inv(StepWindow(c, cmd))
  {
    hide Inv, DoEnsure, DoAssign, DoMetadata, DoRemove, DoFullscreen, DoBorderless, KeepsWindows;
    InvSane(c);
    hide Sane;
    match cmd
    case CEnsureWindow(id, ws) => EnsureInv(c, id, ws);
    case CAssignWorkspace(id, ws) => EnsureInv(c, id, ws);
    case CSetMetadata(id, kind, h, parent) => MetadataInv(c, id, kind, h, parent);
    case CRemoveWindow(id) => RemoveInv(c, id);
    case _ =>
  }

  lemma FocusMonitorCommandInv(c: Core, m: int, x: int, y: int)
    requires Inv(c)
    ensures Inv(DoFocusMonitor(c, m)) && Inv(DoFocusMonitorAt(c, x, y))
  {
    hide Focus;
    FocusMonitorInv(c, m);
    FocusInv(c.(topo := FocusMonitor(c.topo, m)), NO_WINDOW);
    var n := MonitorAt(c.topo.monitors, x, y, 0);
    FocusMonitorInv(c, n);
    FocusInv(c.(topo := FocusMonitor(c.topo, n)), NO_WINDOW);
  }

  lemma FocusCommandInv(c: Core, cmd: Command)
    requires Inv(c)
    ensures Inv(StepFocus(c, cmd))
  {
    hide Inv, Focus, DoSwitch, DoCycle, DoSwitchLocal, DoApplyTopology, DoFocusMonitor, DoFocusMonitorAt;
    match cmd
    case CFocusWindow(id) => FocusInv(c, id);
    case CSwitchWorkspace(ws, hint) => SwitchInv(c, ws, hint);
    case CFocusMonitor(m) => FocusMonitorCommandInv(c, m, 0, 0);
    case CFocusMonitorAt(x, y) => FocusMonitorCommandInv(c, 0, x, y);
    case CFocusNext => CycleInv(c, 1);
    case CFocusPrev => CycleInv(c, -1);
    case CSwitchLocal(li) => SwitchLocalInv(c, li);
    case CApplyTopology(ms) => TopologyInv(c, ms);
    case _ =>
  }

  /** Every command keeps the invariant. */
  lemma StepInv(c: Core, cmd: Command)
    requires Inv(c) && Allowed(c, cmd)
    ensures Inv(Step(c, cmd))
  {
    hide StepVisibility, StepFlag, StepGeometry, StepLayout, StepFocus, StepMove, StepWindow, DoApplySettings, Inv;
    InvSane(c);
    if VisibilityCommand(cmd) {
      SameListsInv(c, StepVisibility(c, cmd));
    } else if FlagCommand(cmd) {
      SameListsInv(c, StepFlag(c, cmd));
    } else if GeometryCommand(cmd) {
      QuietInv(c, StepGeometry(c, cmd));
    } else if LayoutCommand(cmd) {
      LayoutInv(c, cmd);
    } else if cmd.CApplySettings? {
      SettingsInv(c, cmd.next);
    } else if FocusCommand(cmd) {
      FocusCommandInv(c, cmd);
    } else if MoveCommand(cmd) {
      MoveCommandInv(c, cmd);
    } else if cmd.CSetFullscreen? || cmd.CSetBorderless? {
      FullscreenCommandInv(c, cmd);
    } else {
      WindowInv(c, cmd);
    }
  }

  lemma InitSettles(settings: Settings, monitors: seq<Monitor>)
    ensures Settled(InitTopology(settings, monitors), settings.aliases)
    ensures InitTopology(settings, monitors).wsAlias == InitAliases(settings)
  {
    var empty := Topology([], [], [], [], [], map[], map[], 0);
    var t := if monitors != [] then SetMonitors(empty, monitors) else empty;
    var aliases := InitAliases(settings);
    AssignSettles(t.(wsAlias := aliases, owner := seq(|aliases|, _ => NONE),
                     pools := seq(|t.monitors|, _ => []), activeLocal := seq(|t.monitors|, _ => NONE),
                     parkedPools := map[], parkedActive := map[]),
                  settings.aliases, settings.compose);
  }

  lemma SettledSized(t: Topology, aliases: seq<MonitorAlias>)
    requires Settled(t, aliases)
    ensures Sized(t)
  {
  }

  lemma InitInv(settings: Settings, monitors: seq<Monitor>)
    ensures Inv(Init(settings, monitors))
  {
    hide InitTopology, InitAliases, Settled;
    InitSettles(settings, monitors);
    SettledSized(InitTopology(settings, monitors), settings.aliases);
    var c := Init(settings, monitors);
    assert forall ws :: 0 <= ws < |c.tb.lists| ==> ListOk(c.tb, ws);
  }

  /** `d` is where the commands lead from `c`. */
  ghost predicate Runs(c: Core, cmds: seq<Command>, d: Core)
    decreases |cmds|
  {
    if cmds == [] then d == c
    else Sane(c) && Allowed(c, cmds[0]) && Runs(Step(c, cmds[0]), cmds[1..], d)
  }

  /** Over every run of commands from a consistent state, the state stays consistent. */
  lemma {:induction false} RunInv(c: Core, cmds: seq<Command>, d: Core)
    requires Inv(c) && Runs(c, cmds, d)
    ensures Inv(d)
    decreases |cmds|
  {
    if cmds != [] {
      StepInv(c, cmds[0]);
      RunInv(Step(c, cmds[0]), cmds[1..], d);
    }
  }

  lemma NoCommands(c: Core)
    ensures Runs(c, [], c)
  {
  }

  lemma {:induction false} RunsSnoc(c: Core, cmds: seq<Command>, d: Core, cmd: Command)
    requires Inv(c) && Inv(d) && Runs(c, cmds, d) && (cmd.CApplySettings? ==> cmd.next.defs != [])
    ensures Sane(d) && Allowed(d, cmd) && Runs(c, cmds + [cmd], Step(d, cmd))
    decreases |cmds|
  {
    hide Step, Inv;
    InvSane(d);
    var all := cmds + [cmd];
    if cmds == [] {
      assert all[1..] == [];
      assert Runs(Step(c, cmd), [], Step(d, cmd));
    } else {
      assert all[0] == cmds[0] && all[1..] == cmds[1..] + [cmd];
      StepInv(c, cmds[0]);
      RunsSnoc(Step(c, cmds[0]), cmds[1..], d, cmd);
    }
  }

  /** The state the manager's indexes promise, spelled out without the invariant. */
  ghost predicate Conserved(d: Core, id: nat) {
    && Consistent(d.topo)
    && HomeOf(d.tb, id) == ScanHome(d.tb.lists, id, 0)
    && (id in d.tb.index <==> ScanHome(d.tb.lists, id, 0) >= 0)
    && Listings(d.tb.lists, id, |d.tb.lists|) == (if id in d.tb.index then 1 else 0)
    && |d.tb.cursors| == |d.tb.lists|
    && (forall ws :: 0 <= ws < |d.tb.lists| ==>
          if d.tb.lists[ws] == [] then d.tb.cursors[ws] == -1 else 0 <= d.tb.cursors[ws] < |d.tb.lists[ws]|)
  }

  lemma InvConserves(d: Core, id: nat)
    requires Inv(d)
    ensures Conserved(d, id)
  {
    LookupsAgreeWithScan(d.tb, id);
    ListedOnce(d.tb, id, |d.tb.lists|);
    forall ws | 0 <= ws < |d.tb.lists|
      ensures if d.tb.lists[ws] == [] then d.tb.cursors[ws] == -1 else 0 <= d.tb.cursors[ws] < |d.tb.lists[ws]|
    {
      assert ListOk(d.tb, ws);
    }
  }

  /**
   * From start-up, after any run: each live window is listed exactly once over all workspaces and both
   * hash lookups agree with a search through them; cursors are -1 exactly on empty workspaces; and the
   * topology is consistent, so each workspace is in one pool and shown by at most one monitor.
   */
  lemma WindowsConserved(settings: Settings, monitors: seq<Monitor>, cmds: seq<Command>, d: Core, id: nat)
    requires Runs(Init(settings, monitors), cmds, d)
    ensures Conserved(d, id)
  {
    InitInv(settings, monitors);
    RunInv(Init(settings, monitors), cmds, d);
    InvConserves(d, id);
  }

  /** Creating a window adds it, and placing one changes no window. */
  lemma PlacedIndex(c: Core, id: nat, ws: int)
    requires Inv(c)
    ensures Sane(c) && DoAssign(c, id, ws).tb.index == c.tb.index
    ensures DoEnsure(c, id, ws).tb.index ==
      if id in c.tb.index || id == NO_WINDOW || c.tb.lists == [] then c.tb.index else c.tb.index[id := FRESH]
  {
    hide Move, Create, Settled;
    if id !in c.tb.index && id != NO_WINDOW {
      CreateKeeps(c.tb, id, ws, ActiveWs(c.topo, c.topo.focused));
    }
  }

  lemma WindowCommandsKeepWindows(c: Core, cmd: Command, id: nat)
    requires Inv(c) && id in c.tb.index
    ensures Sane(c) && (id in StepWindow(c, cmd).tb.index <==> cmd != CRemoveWindow(id))
  {
    hide DoEnsure, DoRemove, DoFullscreen, DoAssign, DoMetadata, DoBorderless, Inv, SameSaved, SameGeometry, SameVis;
    hide KeepsWindows;
    InvSane(c);
    hide Sane;
    if cmd.CRemoveWindow? {
      RemoveDropsOnly(c, cmd.win, id);
    } else if cmd.CEnsureWindow? || cmd.CAssignWorkspace? {
      PlacedIndex(c, cmd.win, cmd.ws);
    } else if cmd.CSetFullscreen? {
      StillLive(c, DoFullscreen(c, cmd.win, cmd.enabled, cmd.preserveGeometry), id);
    } else if cmd.CSetMetadata? {
      StillLive(c, DoMetadata(c, cmd.win, cmd.kind, cmd.hints, cmd.transientFor), id);
    } else if cmd.CSetBorderless? {
      StillLive(c, DoBorderless(c, cmd.win, cmd.flag), id);
    }
  }

  lemma RemoveDropsOnly(c: Core, win: nat, id: nat)
    requires Inv(c) && id in c.tb.index
    ensures Sane(c) && (id in DoRemove(c, win).tb.index <==> id != win)
  {
    hide DoRemove;
    RemoveDrops(c, win);
  }

  lemma StillLive(c: Core, d: Core, id: nat)
    requires KeepsWindows(c, d) && id in c.tb.index
    ensures id in d.tb.index
  {
  }

  lemma SettingsKeepWindows(c: Core, next: Settings)
    requires Inv(c) && Applicable(c, next)
    ensures DoApplySettings(c, next).tb.index == c.tb.index
  {
    hide Resize, Reload;
    ResizeKeeps(c.tb, |next.defs|, Fallbacks(c.topo, |next.defs|));
  }

  /** No other group of commands makes a window disappear. */
  lemma GroupsKeepWindows(c: Core, cmd: Command, id: nat)
    requires Sane(c) && id in c.tb.index
    ensures id in StepVisibility(c, cmd).tb.index && id in StepFlag(c, cmd).tb.index && id in StepGeometry(c, cmd).tb.index
    ensures id in StepLayout(c, cmd).tb.index && id in StepFocus(c, cmd).tb.index && id in StepMove(c, cmd).tb.index
  {
    hide StepVisibility, StepFlag, StepGeometry, StepLayout, StepFocus, StepMove;
  }

  /** Only an explicit removal loses a window: every other command keeps every live window. */
  lemma NoWindowLost(c: Core, cmd: Command, id: nat)
    requires Inv(c) && Allowed(c, cmd) && id in c.tb.index
    ensures id in Step(c, cmd).tb.index <==> cmd != CRemoveWindow(id)
  {
    hide StepVisibility, StepFlag, StepGeometry, StepLayout, StepFocus, StepMove, StepWindow, DoApplySettings;
    hide Inv, SameLists, Silent, Quiet, KeepsWindows, SameSaved, SameGeometry, SameVis, Applicable;
    InvSane(c);
    hide Sane;
    GroupsKeepWindows(c, cmd, id);
    if cmd.CApplySettings? {
      SettingsKeepWindows(c, cmd.next);
    } else {
      WindowCommandsKeepWindows(c, cmd, id);
    }
  }

  lemma RemovedGone(c: Core, id: nat)
    requires Inv(c)
    ensures id !in Step(c, CRemoveWindow(id)).tb.index
  {
    hide Step, DoRemove;
    RemoveIsStep(c, id);
    RemoveDrops(c, id);
  }

  lemma RemoveIsStep(c: Core, id: nat)
    requires Sane(c)
    ensures Step(c, CRemoveWindow(id)) == DoRemove(c, id)
  {
    hide DoRemove, StepVisibility, StepFlag, StepGeometry, StepLayout, StepFocus, DoApplySettings;
    hide StepMove, DoFullscreen, DoEnsure, DoAssign, DoMetadata, DoBorderless;
  }

  lemma RemoveDrops(c: Core, id: nat)
    requires Inv(c)
    ensures DoRemove(c, id).tb.index.Keys == c.tb.index.Keys - {id}
  {
    hide Evaluate, Drop;
    DropKeeps(c.tb, id);
  }
}
