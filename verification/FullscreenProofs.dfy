/**
 * Geometry saved when a window first goes fullscreen survives everything until it leaves fullscreen,
 * and a floating window then gets exactly that position and size back.
 */
module FullscreenProofs {
  import opened Monitors
  import opened Topology
  import opened Windows
  import opened WindowProofs
  import Cycle = FocusCycle
  import Tile
  import opened Reducer
  import opened ReducerProofs

  /** Every window that is fullscreen in `a` is still fullscreen in `b`, with the same saved geometry. */
  ghost predicate SavedKept(a: Index, b: Index) {
    a.Keys <= b.Keys &&
    forall id :: id in a && a[id].props.fullscreen ==> b[id].props.fullscreen && b[id].saved == a[id].saved
  }

  lemma SameSavedKept(a: Index, b: Index)
    requires SameSaved(a, b)
    ensures SavedKept(a, b)
  {
  }

  lemma SavedTrans(a: Index, b: Index, c: Index)
    requires SavedKept(a, b) && SavedKept(b, c)
    ensures SavedKept(a, c)
  {
  }

  lemma SavedOf(a: Index, b: Index, id: nat)
    requires SavedKept(a, b) && id in a && a[id].props.fullscreen
    ensures id in b && b[id].props.fullscreen && b[id].saved == a[id].saved
  {
  }

  lemma QuietSaved(c: Core, d: Core)
    requires Quiet(c, d)
    ensures SavedKept(c.tb.index, d.tb.index)
  {
  }

  lemma RefreshSaved(c: Core)
    requires Sane(c)
    ensures SavedKept(c.tb.index, Refresh(c).tb.index)
  {
    hide Arrange, SyncVisibility;
    QuietSaved(SyncVisibility(c), Arrange(SyncVisibility(c)));
  }

  lemma FocusSaved(c: Core, id: nat)
    requires Sane(c)
    ensures SavedKept(c.tb.index, Focus(c, id).tb.index)
  {
    hide Evaluate, FocusWorkspace;
    var w := FocusTarget(c, id);
    if w != NO_WINDOW && IsWs(c.tb, c.tb.home[w]) && w in c.tb.lists[c.tb.home[w]] {
      QuietSaved(Focusing(c, w), Evaluate(Focusing(c, w), c.tb.home[w]));
    }
  }

  lemma EvaluateSaved(c: Core, ws: int)
    requires Sane(c)
    ensures SavedKept(c.tb.index, Evaluate(c, ws).tb.index)
  {
    hide Evaluate;
    QuietSaved(c, Evaluate(c, ws));
  }

  lemma ReconcileSaved(c: Core)
    requires Sane(c)
    ensures SavedKept(c.tb.index, Reconcile(c).tb.index)
  {
    hide Focus, Refresh, SavedKept;
    RefreshSaved(c);
    FocusSaved(Refresh(c), NO_WINDOW);
    SavedTrans(c.tb.index, Refresh(c).tb.index, Reconcile(c).tb.index);
  }

  lemma SwitchedSaved(c: Core, ws: int)
    requires Sane(c)
    ensures SavedKept(c.tb.index, Evaluate(c, ws).tb.index)
    ensures SavedKept(c.tb.index, Evaluate(Focus(c, NO_WINDOW), ws).tb.index)
  {
    hide Focus, Evaluate, SavedKept;
    FocusSaved(c, NO_WINDOW);
    EvaluateSaved(c, ws);
    EvaluateSaved(Focus(c, NO_WINDOW), ws);
    SavedTrans(c.tb.index, Focus(c, NO_WINDOW).tb.index, Evaluate(Focus(c, NO_WINDOW), ws).tb.index);
  }

  lemma SwitchSaved(c: Core, ws: int, hint: Option<int>)
    requires Sane(c)
    ensures SavedKept(c.tb.index, DoSwitch(c, ws, hint).tb.index)
  {
    hide Focus, Refresh, Evaluate, SwitchTo, SavedKept;
    SavedRefl(c.tb.index);
    if 0 <= ws < |c.topo.wsAlias| && c.topo.monitors != [] {
      var h := if hint.Some? then hint.value else NONE;
      var c1 := c.(topo := SwitchTo(c.topo, ws, h, c.settings.aliases, c.settings.compose));
      RefreshSaved(c1);
      SwitchedSaved(Refresh(c1), ws);
      SavedTrans(c.tb.index, Refresh(c1).tb.index, DoSwitch(c, ws, hint).tb.index);
    }
  }

  lemma FocusMovedSaved(c: Core, id: nat, ws: int)
    requires Sane(c)
    ensures SavedKept(c.tb.index, FocusMoved(c, id, ws).tb.index)
  {
    hide Focus, SavedKept;
    FocusSaved(c, id);
    FocusSaved(c, NO_WINDOW);
  }

  lemma MoveSaved(c: Core, id: nat, ws: int)
    requires Sane(c)
    ensures SavedKept(c.tb.index, DoMove(c, id, ws).tb.index)
  {
    hide FocusMoved, Repin, Refresh, Move;
    if 0 <= ws < |c.modes| && id in c.tb.index {
      var c1 := Post(c.(tb := Move(c.tb, id, ws)), WindowAssigned(id, ws));
      var c2 := Refresh(c1);
      var c3 := Repin(c2, id, HomeOf(c.tb, id), ws);
      RefreshSaved(c1);
      QuietSaved(c2, c3);
      FocusMovedSaved(c2, id, ws);
      FocusMovedSaved(c3, id, ws);
    }
  }

  /** Entering keeps what was saved; a window that was not fullscreen saves the geometry it has. */
  lemma EnterSaves(c: Core, id: nat, preserve: bool)
    requires id in c.tb.index
    ensures
      var d := EnterFullscreen(c, id, preserve);
      && SavedKept(c.tb.index, d.tb.index)
      && d.tb.index[id].props.fullscreen
      && (!c.tb.index[id].props.fullscreen ==> d.tb.index[id].saved == c.tb.index[id].geo)
  {
    hide FullscreenMonitor, Quiet, Silent;
  }

  lemma EnterSane(c: Core, id: nat, preserve: bool)
    requires Sane(c) && id in c.tb.index
    ensures
      var e := EnterFullscreen(c, id, preserve);
      Sane(e) && id in e.tb.index && Sane(Post(Arrange(e), RaiseDocks))
  {
    hide EnterFullscreen, Arrange;
  }

  lemma DoEnterSaves(c: Core, id: nat, preserve: bool)
    requires Sane(c) && id in c.tb.index
    ensures
      var d := DoEnter(c, id, preserve);
      && SavedKept(c.tb.index, d.tb.index)
      && d.tb.index[id].props.fullscreen
      && (!c.tb.index[id].props.fullscreen ==> d.tb.index[id].saved == c.tb.index[id].geo)
  {
    hide Focus, Evaluate, Arrange, EnterFullscreen, Quiet, Silent, KeepsWindows, SavedKept;
    EnterSane(c, id, preserve);
    hide Sane;
    var e := EnterFullscreen(c, id, preserve);
    var c1, d := Post(Arrange(e), RaiseDocks), DoEnter(c, id, preserve);
    EnterSaves(c, id, preserve);
    QuietSaved(e, Arrange(e));
    FocusSaved(c1, id);
    EvaluateSaved(c1, HomeOf(c.tb, id));
    SavedTrans(e.tb.index, c1.tb.index, d.tb.index);
    SavedTrans(c.tb.index, e.tb.index, d.tb.index);
    SavedOf(e.tb.index, d.tb.index, id);
  }

  /** Leaving fullscreen on one window keeps what the others saved. */
  lemma DoLeaveSaved(c: Core, id: nat)
    requires Sane(c) && id in c.tb.index
    ensures SavedKept(c.tb.index - {id}, DoLeave(c, id).tb.index)
  {
    hide Evaluate, Arrange;
    var l := LeaveFullscreen(c, id);
    QuietSaved(l, Arrange(l));
    EvaluateSaved(Arrange(l), HomeOf(c.tb, id));
  }

  /** Replacing one window keeps what is saved, if the replacement does. */
  lemma OneWindowSaved(a: Index, b: Index, id: nat)
    requires id in a && id in b && b == a[id := b[id]]
    requires b[id].props.fullscreen == a[id].props.fullscreen && b[id].saved == a[id].saved
    ensures SavedKept(a, b)
  {
  }

  lemma BorderlessSaved(c: Core, id: nat, flag: bool)
    requires Sane(c)
    ensures SavedKept(c.tb.index, DoBorderless(c, id, flag).tb.index)
  {
    hide Evaluate, SavedKept;
    SavedRefl(c.tb.index);
    if id in c.tb.index {
      var w0 := c.tb.index[id];
      var w := w0.(props := w0.props.(borderless := flag, promoteToBorderless := false));
      var d := if flag && w.geo.border != 0 && !w.OwnsGeometry()
               then Emit(Put(c, id, WithBorder(w, 0)), UpdateWindow(id)) else Put(c, id, w);
      OneWindowSaved(c.tb.index, d.tb.index, id);
      EvaluateSaved(d, HomeOf(d.tb, id));
      SavedTrans(c.tb.index, d.tb.index, DoBorderless(c, id, flag).tb.index);
    }
  }

  lemma CycleSaved(c: Core, dir: int)
    requires Sane(c)
    ensures SavedKept(c.tb.index, DoCycle(c, dir).tb.index)
  {
    hide Focus, Cycled, CurrentFocused, SavedKept;
    var ws := CurrentWs(c);
    FocusSaved(c, NO_WINDOW);
    if IsWs(c.tb, ws) {
      var c1 := c.(tb := Cycled(c.tb, ws, dir));
      var w := CurrentFocused(c1);
      FocusSaved(c1, if Shown(c1.tb.index, w) then w else NO_WINDOW);
    }
  }

  lemma FocusMonitorSaved(c: Core, m: int, x: int, y: int)
    requires Sane(c)
    ensures SavedKept(c.tb.index, DoFocusMonitor(c, m).tb.index)
    ensures SavedKept(c.tb.index, DoFocusMonitorAt(c, x, y).tb.index)
  {
    hide Focus, MonitorAt, SavedKept, KeepsWindows;
    SavedRefl(c.tb.index);
    FocusSaved(c.(topo := FocusMonitor(c.topo, m)), NO_WINDOW);
    FocusSaved(c.(topo := FocusMonitor(c.topo, MonitorAt(c.topo.monitors, x, y, 0))), NO_WINDOW);
  }

  lemma FocusCommandSaved(c: Core, cmd: Command)
    requires Sane(c)
    ensures SavedKept(c.tb.index, StepFocus(c, cmd).tb.index)
  {
    hide Focus, DoSwitch, DoCycle, DoFocusMonitor, DoFocusMonitorAt, Reconcile, Replug, SavedKept, SwitchLocal;
    hide KeepsWindows;
    SavedRefl(c.tb.index);
    match cmd
    case CFocusWindow(id) => FocusSaved(c, id);
    case CSwitchWorkspace(ws, hint) => SwitchSaved(c, ws, hint);
    case CFocusMonitor(m) => FocusMonitorSaved(c, m, 0, 0);
    case CFocusMonitorAt(x, y) => FocusMonitorSaved(c, 0, x, y);
    case CFocusNext => CycleSaved(c, 1);
    case CFocusPrev => CycleSaved(c, -1);
    case CSwitchLocal(li) =>
      if 0 <= c.topo.focused < |c.topo.pools| && 0 <= li < |c.topo.pools[c.topo.focused]| {
        ReconcileSaved(c.(topo := SwitchLocal(c.topo, c.topo.focused, li)));
      }
    case CApplyTopology(ms) =>
      ReplugSized(c.topo, ms, c.settings.aliases, c.settings.compose);
      ReconcileSaved(c.(topo := Replug(c.topo, ms, c.settings.aliases, c.settings.compose)));
    case _ =>
  }

  lemma ArrangeSaved(c: Core)
    ensures SavedKept(c.tb.index, Arrange(c).tb.index)
  {
    hide Arrange;
    QuietSaved(c, Arrange(c));
  }

  lemma ToggleSaved(c: Core, f: nat)
    requires f in c.tb.index
    ensures SavedKept(c.tb.index, Arrange(ToggledFloating(c, f)).tb.index)
  {
    hide Arrange, ToggledFloating;
    ArrangeSaved(ToggledFloating(c, f));
  }

  lemma LayoutSaved(c: Core, cmd: Command)
    requires Sane(c)
    ensures SavedKept(c.tb.index, StepLayout(c, cmd).tb.index)
  {
    hide Arrange, Configured, ZoomTable, CanZoom, ReserveAll, CurrentFocused, SavedKept;
    hide ToggledFloating, KnownLayout, KeepsWindows, Quiet, Sane;
    SavedRefl(c.tb.index);
    if ConfigCommand(cmd) {
      ArrangeSaved(Configured(c, cmd));
    } else {
      match cmd
      case CReconcileNow => ArrangeSaved(c);
      case CZoom => ArrangeSaved(c.(tb := ZoomTable(c.tb, CurrentWs(c))));
      case CToggleFocusedFloating =>
        if CurrentFocused(c) in c.tb.index {
          ToggleSaved(c, CurrentFocused(c));
        }
      case _ =>
    }
  }

  /** The one window and commands for which the saved geometry may change. */
  predicate Ends(cmd: Command, id: nat) {
    cmd == CRemoveWindow(id) || (cmd.CSetFullscreen? && cmd.win == id && !cmd.enabled)
  }

  ghost predicate StillSaved(c: Core, d: Core, id: nat) {
    id in c.tb.index && c.tb.index[id].props.fullscreen ==>
      id in d.tb.index && d.tb.index[id].props.fullscreen && d.tb.index[id].saved == c.tb.index[id].saved
  }

  lemma MoveCommandSaved(c: Core, cmd: Command)
    requires Sane(c)
    ensures SavedKept(c.tb.index, StepMove(c, cmd).tb.index)
  {
    hide DoMove, CurrentFocused, SavedKept, KeepsWindows;
    SavedRefl(c.tb.index);
    match cmd
    case CMoveWindowToWorkspace(w, ws) => MoveSaved(c, w, ws);
    case CMoveWindowToMonitor(w, m) =>
      if 0 <= m < |c.topo.monitors| {
        MoveSaved(c, if w == NO_WINDOW then CurrentFocused(c) else w, c.topo.monitors[m].activeWs);
      }
    case CMoveFocusedToWorkspace(ws) => MoveSaved(c, CurrentFocused(c), ws);
    case _ =>
  }

  lemma SavedRefl(a: Index)
    ensures SavedKept(a, a)
  {
  }

  lemma RemoveSaved(c: Core, w: nat, id: nat)
    requires Inv(c) && w != id
    ensures StillSaved(c, DoRemove(c, w), id)
  {
    hide Evaluate, Drop;
    DropKeeps(c.tb, w);
    EvaluateSaved(c.(tb := Drop(c.tb, w), dirty := c.dirty - {w}), HomeOf(c.tb, w));
  }

  lemma EnsureSaved(c: Core, w: nat, ws: int)
    requires Inv(c)
    ensures SavedKept(c.tb.index, DoEnsure(c, w, ws).tb.index) && SavedKept(c.tb.index, DoAssign(c, w, ws).tb.index)
  {
    hide DoEnsure, DoAssign, Inv, KeepsWindows;
    PlacedIndex(c, w, ws);
    hide Sane;
  }

  lemma PlaceCommandSaved(c: Core, cmd: Command)
    requires Inv(c) && (cmd.CEnsureWindow? || cmd.CAssignWorkspace? || cmd.CSetMetadata? || cmd.CSetBorderless?)
    ensures SavedKept(c.tb.index, StepWindow(c, cmd).tb.index)
  {
    hide DoFullscreen, DoRemove, DoMetadata, DoBorderless, DoEnsure, DoAssign, Inv, SavedKept;
    InvSane(c);
    match cmd
    case CEnsureWindow(w, ws) => EnsureSaved(c, w, ws);
    case CAssignWorkspace(w, ws) => EnsureSaved(c, w, ws);
    case CSetMetadata(w, kind, h, parent) => SameSavedKept(c.tb.index, DoMetadata(c, w, kind, h, parent).tb.index);
    case CSetBorderless(w, flag) => BorderlessSaved(c, w, flag);
  }

  lemma FullscreenCommandSaved(c: Core, w: nat, enabled: bool, preserve: bool, id: nat)
    requires Sane(c) && (w == id ==> enabled)
    ensures StillSaved(c, DoFullscreen(c, w, enabled, preserve), id)
  {
    hide DoEnter, DoLeave;
    if w in c.tb.index {
      DoEnterSaves(c, w, preserve);
      DoLeaveSaved(c, w);
    }
  }

  lemma WindowCommandSaved(c: Core, cmd: Command, id: nat)
    requires Inv(c) && !Ends(cmd, id)
    ensures StillSaved(c, StepWindow(c, cmd), id)
  {
    hide Inv, DoFullscreen, DoRemove, DoEnsure, DoAssign, DoMetadata, DoBorderless;
    InvSane(c);
    if cmd.CSetFullscreen? {
      FullscreenCommandSaved(c, cmd.win, cmd.enabled, cmd.preserveGeometry, id);
    } else if cmd.CRemoveWindow? {
      RemoveSaved(c, cmd.win, id);
    } else if cmd.CEnsureWindow? || cmd.CAssignWorkspace? || cmd.CSetMetadata? || cmd.CSetBorderless? {
      PlaceCommandSaved(c, cmd);
    }
  }

  /** A fullscreen window keeps its saved geometry through every command except its own removal or disabling. */
  lemma StepSaved(c: Core, cmd: Command, id: nat)
    requires Inv(c) && Allowed(c, cmd) && !Ends(cmd, id)
    ensures StillSaved(c, Step(c, cmd), id)
  {
    hide StepVisibility, StepFlag, StepGeometry, StepLayout, StepFocus, StepMove, StepWindow, DoApplySettings, Ends;
    hide Inv;
    hide KeepsWindows, Quiet, Silent, SameLists, SameGeometry;
    InvSane(c);
    hide Sane;
    if GeometryCommand(cmd) {
      QuietSaved(c, StepGeometry(c, cmd));
    } else if LayoutCommand(cmd) {
      LayoutSaved(c, cmd);
    } else if cmd.CApplySettings? {
      SettingsKeepWindows(c, cmd.next);
    } else if FocusCommand(cmd) {
      FocusCommandSaved(c, cmd);
    } else if MoveCommand(cmd) {
      MoveCommandSaved(c, cmd);
    } else if !VisibilityCommand(cmd) && !FlagCommand(cmd) {
      WindowCommandSaved(c, cmd, id);
    }
  }

  lemma {:induction false} RunSaved(c: Core, cmds: seq<Command>, d: Core, id: nat)
    requires Inv(c) && Runs(c, cmds, d) && forall i :: 0 <= i < |cmds| ==> !Ends(cmds[i], id)
    ensures Inv(d) && StillSaved(c, d, id)
    decreases |cmds|
  {
    hide Inv, Step, Ends;
    if cmds != [] {
      StepInv(c, cmds[0]);
      StepSaved(c, cmds[0], id);
      RunSaved(Step(c, cmds[0]), cmds[1..], d, id);
    }
  }

  // --- Getting the geometry back -----------------------------------------------------------------

  /** Position and size of `id` are the same in both. */
  ghost predicate SamePlace(c: Core, d: Core, id: nat) {
    id in c.tb.index && id in d.tb.index &&
    d.tb.index[id].geo.pos == c.tb.index[id].geo.pos && d.tb.index[id].geo.size == c.tb.index[id].geo.size
  }

  /** The layout places only the windows it was given. */
  lemma PlacementsAreAsked(c: Core, wins: seq<nat>, mon: Monitor, i: nat)
    requires i < |LayoutPlacements(c, wins, mon)|
    ensures LayoutPlacements(c, wins, mon)[i].win in wins
  {
  }

  lemma PlaceOneSkips(c: Core, p: Tile.Placement, id: nat)
    requires id in c.tb.index && p.win != id
    ensures SamePlace(c, PlaceOne(c, p), id)
  {
    hide ApplyHints;
  }

  lemma {:induction false} PlaceOthers(c: Core, ps: seq<Tile.Placement>, k: nat, id: nat)
    requires k <= |ps| && id in c.tb.index && forall i :: 0 <= i < |ps| ==> ps[i].win != id
    ensures SamePlace(c, PlaceUpTo(c, ps, k), id)
  {
    hide PlaceOne, Quiet;
    if k > 0 {
      PlaceOthers(c, ps, k - 1, id);
      PlaceOneSkips(PlaceUpTo(c, ps, k - 1), ps[k - 1], id);
    }
  }

  lemma {:induction false} BorderOthers(c: Core, list: seq<nat>, k: nat, id: nat)
    requires k <= |list| && id in c.tb.index
    ensures SamePlace(c, BorderUpTo(c, list, k), id)
  {
    hide BorderOne, Quiet;
    if k > 0 {
      BorderOthers(c, list, k - 1, id);
      BorderOneSkips(BorderUpTo(c, list, k - 1), list[k - 1], id);
    }
  }

  lemma BorderOneSkips(c: Core, win: nat, id: nat)
    requires id in c.tb.index
    ensures SamePlace(c, BorderOne(c, win), id)
  {
  }

  lemma QuietFloats(c: Core, d: Core, id: nat)
    requires Quiet(c, d) && id in c.tb.index
    ensures id in d.tb.index && d.tb.index[id].props.floating == c.tb.index[id].props.floating
  {
    assert SameFlags(c.tb.index[id], d.tb.index[id]);
  }

  lemma ArrangeMonitorSkips(c: Core, mon: Monitor, id: nat)
    requires id in c.tb.index && c.tb.index[id].props.floating
    ensures SamePlace(c, ArrangeMonitor(c, mon), id)
  {
    hide PlaceUpTo, BorderUpTo, LayoutPlacements;
    if 0 <= mon.activeWs < |c.tb.lists| {
      var list := c.tb.lists[mon.activeWs];
      var wins := LaidOutIds(c.tb.index, list);
      var ps := LayoutPlacements(c, wins, mon);
      forall i | 0 <= i < |ps|
        ensures ps[i].win != id
      {
        PlacementsAreAsked(c, wins, mon, i);
      }
      PlaceOthers(c, ps, |ps|, id);
      BorderOthers(PlaceUpTo(c, ps, |ps|), list, |list|, id);
    }
  }

  lemma {:induction false} ArrangeUpToSkips(c: Core, k: nat, id: nat)
    requires k <= |c.topo.monitors| && id in c.tb.index && c.tb.index[id].props.floating
    ensures SamePlace(c, ArrangeUpTo(c, k), id)
  {
    hide ArrangeMonitor, Quiet;
    if k > 0 {
      ArrangeUpToSkips(c, k - 1, id);
      QuietFloats(c, ArrangeUpTo(c, k - 1), id);
      ArrangeMonitorSkips(ArrangeUpTo(c, k - 1), c.topo.monitors[k - 1], id);
    }
  }

  /** arrange leaves floating windows where they are. */
  lemma ArrangeSkipsFloating(c: Core, id: nat)
    requires id in c.tb.index && c.tb.index[id].props.floating
    ensures SamePlace(c, Arrange(c), id)
  {
    hide ArrangeUpTo;
    ArrangeUpToSkips(c, |c.topo.monitors|, id);
  }

  lemma {:induction false} LowerOthersSkips(c: Core, list: seq<nat>, except: nat, k: nat)
    requires k <= |list|
    ensures LowerOthers(c, list, except, k).tb == c.tb
  {
    if k > 0 {
      LowerOthersSkips(c, list, except, k - 1);
    }
  }

  lemma RestackSkips(c: Core, ws: nat, f: nat, id: nat)
    requires ws < |c.tb.lists| && f in c.tb.index && id in c.tb.index && !c.tb.index[id].Covers()
    ensures SamePlace(c, Restack(c, ws, f), id)
  {
    hide LowerOthers;
    LowerOthersSkips(Emit(c, RaiseWindow(f)), c.tb.lists[ws], f, |c.tb.lists[ws]|);
  }

  /** Restacking moves only windows that cover the screen. */
  lemma EvaluateSkips(c: Core, ws: int, id: nat)
    requires Sane(c) && id in c.tb.index && !c.tb.index[id].Covers()
    ensures SamePlace(c, Evaluate(c, ws), id)
  {
    hide Restack, Focused;
    if 0 <= ws < |c.modes| {
      var c1 := EvaluateMode(c, ws);
      var f := Focused(c1.tb.index, c1.tb.lists[ws], c1.tb.cursors[ws]);
      if f in c1.tb.index {
        RestackSkips(c1, ws, f, id);
      }
    }
  }

  /** Leaving fullscreen gives a floating window back exactly the position and size that were saved. */
  lemma LeaveRestores(c: Core, id: nat)
    requires Sane(c) && id in c.tb.index
    requires c.tb.index[id].props.floating && !c.tb.index[id].props.borderless
    ensures
      var r := DoLeave(c, id);
      && id in r.tb.index && !r.tb.index[id].props.fullscreen
      && r.tb.index[id].geo.pos == c.tb.index[id].saved.pos && r.tb.index[id].geo.size == c.tb.index[id].saved.size
  {
    hide Arrange, Evaluate;
    var l := LeaveFullscreen(c, id);
    ArrangeSkipsFloating(l, id);
    assert SameFlags(l.tb.index[id], Arrange(l).tb.index[id]);
    EvaluateSkips(Arrange(l), HomeOf(c.tb, id), id);
    assert SameFlags(Arrange(l).tb.index[id], Evaluate(Arrange(l), HomeOf(c.tb, id)).tb.index[id]);
  }

  /**
   * Enable fullscreen, run any commands that neither remove the window nor disable its fullscreen
   * (moves, repeated enables, hot-plugs and reloads included), then disable it: if the window is then
   * floating and not borderless it is exactly where it was, with the size it had.
   */
  lemma FullscreenRestores(c: Core, id: nat, preserve: bool, cmds: seq<Command>, d: Core, p: bool)
    requires Inv(c) && id in c.tb.index && !c.tb.index[id].props.fullscreen
    requires Runs(DoFullscreen(c, id, true, preserve), cmds, d)
    requires forall i :: 0 <= i < |cmds| ==> !Ends(cmds[i], id)
    requires id in d.tb.index ==> d.tb.index[id].props.floating && !d.tb.index[id].props.borderless
    ensures Sane(d) && id in d.tb.index
    ensures
      var r := DoFullscreen(d, id, false, p);
      && id in r.tb.index && !r.tb.index[id].props.fullscreen
      && r.tb.index[id].geo.pos == c.tb.index[id].geo.pos && r.tb.index[id].geo.size == c.tb.index[id].geo.size
  {
    hide DoEnter, DoLeave, Inv, Ends, Runs;
    InvSane(c);
    FullscreenInv(c, id, true, preserve);
    DoEnterSaves(c, id, preserve);
    RunSaved(DoEnter(c, id, preserve), cmds, d, id);
    InvSane(d);
    LeaveRestores(d, id);
  }
}
