/**
 * The effect stream and visibility: replaying the map and unmap effects gives exactly the visible
 * windows, and after a switch, a move or a topology change a window is hidden exactly when no monitor
 * shows its workspace.
 */
module EffectProofs {
  import opened Seqs
  import opened Config
  import opened Monitors
  import opened Topology
  import opened TopologyProofs
  import opened Windows
  import opened WindowProofs
  import opened Flush
  import Tile
  import opened Reducer
  import opened ReducerProofs

  // --- Replaying effects -------------------------------------------------------------------------

  function ReplayOne(shown: set<nat>, e: Effect): set<nat> {
    match e
    case MapWindow(id) => shown + {id}
    case UnmapWindow(id) => shown - {id}
    case _ => shown
  }

  /** The mapped windows after the backend applied `effects` to `shown`. */
  function Replay(shown: set<nat>, effects: seq<Effect>): set<nat>
    decreases |effects|
  {
    if effects == [] then shown else ReplayOne(Replay(shown, effects[..|effects| - 1]), effects[|effects| - 1])
  }

  lemma ReplayEmit(shown: set<nat>, c: Core, e: Effect)
    ensures Replay(shown, Emit(c, e).effects) == ReplayOne(Replay(shown, c.effects), e)
  {
    assert Emit(c, e).effects[..|c.effects|] == c.effects;
  }

  /** Effects other than map and unmap do not change the mapped windows. */
  lemma {:induction false} ReplayIgnores(shown: set<nat>, a: seq<Effect>, b: seq<Effect>)
    requires a <= b && forall i :: |a| <= i < |b| ==> NoMapping(b[i])
    ensures Replay(shown, b) == Replay(shown, a)
    decreases |b|
  {
    if |a| < |b| {
      ReplayIgnores(shown, a, b[..|b| - 1]);
    } else {
      assert a == b;
    }
  }

  /** Dropping a window from the start does not affect the others. */
  lemma {:induction false} ReplayWithout(shown: set<nat>, effects: seq<Effect>, x: nat, id: nat)
    requires id != x
    ensures id in Replay(shown - {x}, effects) <==> id in Replay(shown, effects)
    decreases |effects|
  {
    if effects != [] {
      ReplayWithout(shown, effects[..|effects| - 1], x, id);
    }
  }

  /** The backend's mapped windows, once it catches up with the pending effects, are the visible ones. */
  ghost predicate Faithful(shown: set<nat>, c: Core) {
    forall id :: id in c.tb.index ==> (id in Replay(shown, c.effects) <==> c.tb.index[id].Visible())
  }

  // --- Building blocks ---------------------------------------------------------------------------

  lemma QuietFaithful(shown: set<nat>, c: Core, d: Core)
    requires Faithful(shown, c) && Quiet(c, d)
    ensures Faithful(shown, d)
  {
    ReplayIgnores(shown, c.effects, d.effects);
  }

  /** A step that keeps the windows and emits nothing, or nothing about mapping, stays faithful. */
  lemma SilentFaithful(shown: set<nat>, c: Core, d: Core)
    requires Faithful(shown, c) && d.tb.index.Keys <= c.tb.index.Keys
    requires forall id :: id in d.tb.index ==> d.tb.index[id].Visible() == c.tb.index[id].Visible()
    requires c.effects <= d.effects && forall i :: |c.effects| <= i < |d.effects| ==> NoMapping(d.effects[i])
    ensures Faithful(shown, d)
  {
    ReplayIgnores(shown, c.effects, d.effects);
  }

  lemma SilentStepFaithful(shown: set<nat>, c: Core, d: Core)
    requires Faithful(shown, c) && Silent(c, d)
    ensures Faithful(shown, d)
  {
    SilentFaithful(shown, c, d);
  }

  /** A window changes, and a map or unmap effect says so if its visibility did. */
  lemma PutFaithful(shown: set<nat>, c: Core, id: nat, w: Window)
    requires Faithful(shown, c) && id in c.tb.index
    ensures w.Visible() == c.tb.index[id].Visible() ==> Faithful(shown, Put(c, id, w))
    ensures w.Visible() ==> Faithful(shown, Emit(Put(c, id, w), MapWindow(id)))
    ensures !w.Visible() ==> Faithful(shown, Emit(Put(c, id, w), UnmapWindow(id)))
  {
    hide Replay;
    ReplayEmit(shown, Put(c, id, w), MapWindow(id));
    ReplayEmit(shown, Put(c, id, w), UnmapWindow(id));
  }

  lemma SyncOneFaithful(shown: set<nat>, c: Core, id: nat, show: bool)
    requires Faithful(shown, c)
    ensures Faithful(shown, SyncOne(c, id, show))
  {
    hide Faithful, Put;
    if id in c.tb.index {
      var w := c.tb.index[id];
      PutFaithful(shown, c, id, w.(vis := w.vis.(hiddenByWs := true)));
      PutFaithful(shown, c, id, w.(vis := w.vis.(hiddenByWs := false)));
      PutFaithful(shown, c, id, w.(vis := Visibility(true, false, false)));
    }
  }

  lemma {:induction false} SyncListFaithful(shown: set<nat>, c: Core, list: seq<nat>, show: bool, k: nat)
    requires Faithful(shown, c) && k <= |list|
    ensures Faithful(shown, SyncList(c, list, show, k))
  {
    hide SyncOne, Faithful;
    if k > 0 {
      SyncListFaithful(shown, c, list, show, k - 1);
      SyncOneFaithful(shown, SyncList(c, list, show, k - 1), list[k - 1], show);
    }
  }

  lemma {:induction false} SyncFaithful(shown: set<nat>, c: Core, k: nat)
    requires Faithful(shown, c) && k <= |c.tb.lists|
    ensures Faithful(shown, SyncUpTo(c, k))
  {
    hide SyncList, Faithful;
    if k > 0 {
      SyncFaithful(shown, c, k - 1);
      var list := c.tb.lists[k - 1];
      SyncListFaithful(shown, SyncUpTo(c, k - 1), list, IsShown(c.topo.monitors, k - 1), |list|);
    }
  }

  lemma RefreshFaithful(shown: set<nat>, c: Core)
    requires Sane(c) && Faithful(shown, c)
    ensures Faithful(shown, Refresh(c))
  {
    hide Faithful, SyncUpTo, Arrange;
    SyncFaithful(shown, c, |c.tb.lists|);
    QuietFaithful(shown, SyncVisibility(c), Arrange(SyncVisibility(c)));
  }

  lemma FocusFaithful(shown: set<nat>, c: Core, id: nat)
    requires Inv(c) && Faithful(shown, c)
    ensures Faithful(shown, Focus(c, id))
  {
    hide Evaluate;
    var w := FocusTarget(c, id);
    if w != NO_WINDOW {
      FocusStateInv(c, w);
      PointAtKeeps(c.tb, w);
      FocusingFaithful(shown, c, w);
      QuietFaithful(shown, Focusing(c, w), Evaluate(Focusing(c, w), c.tb.home[w]));
    } else {
      SilentFaithful(shown, c, Focus(c, id));
    }
  }

  lemma FocusingFaithful(shown: set<nat>, c: Core, w: nat)
    requires Inv(c) && Faithful(shown, c) && w in c.tb.index && IsWs(c.tb, c.tb.home[w])
    ensures Faithful(shown, Focusing(c, w))
  {
    PointAtKeeps(c.tb, w);
    SilentFaithful(shown, c, Focusing(c, w));
  }

  // --- Commands ----------------------------------------------------------------------------------

  lemma VisibilityFaithful(shown: set<nat>, c: Core, cmd: Command)
    requires Faithful(shown, c) && Sane(c) && (cmd.CMapWindow? || cmd.CUnmapWindow? || cmd.CHideWindow?)
    ensures Faithful(shown, StepVisibility(c, cmd))
  {
    hide Replay;
    ReplayEmit(shown, c, MapWindow(cmd.win));
    ReplayEmit(shown, c, UnmapWindow(cmd.win));
  }

  lemma ArrangeFaithful(shown: set<nat>, c: Core)
    requires Faithful(shown, c)
    ensures Faithful(shown, Arrange(c))
  {
    hide Faithful, Arrange;
    QuietFaithful(shown, c, Arrange(c));
  }

  lemma LayoutFaithful(shown: set<nat>, c: Core, cmd: Command)
    requires Faithful(shown, c) && Sane(c) && LayoutCommand(cmd)
    ensures Faithful(shown, StepLayout(c, cmd))
  {
    hide Arrange, Configured, ZoomTable, CanZoom, ReserveAll, CurrentFocused, Replay, ToggledFloating, KeepsWindows;
    hide Quiet;
    if ConfigCommand(cmd) {
      ArrangeFaithful(shown, Configured(c, cmd));
    } else {
      match cmd
      case CReconcileNow => ArrangeFaithful(shown, c);
      case CReserveArea(m, e, px) =>
      case CZoom => ZoomFaithful(shown, c);
      case CToggleFocusedFloating =>
        var f := CurrentFocused(c);
        if f in c.tb.index {
          SilentStepFaithful(shown, c, ToggledFloating(c, f));
          ArrangeFaithful(shown, ToggledFloating(c, f));
        }
    }
  }

  lemma ZoomFaithful(shown: set<nat>, c: Core)
    requires Faithful(shown, c)
    ensures Faithful(shown, Arrange(c.(tb := ZoomTable(c.tb, CurrentWs(c)))))
  {
    hide Arrange;
    ArrangeFaithful(shown, c.(tb := ZoomTable(c.tb, CurrentWs(c))));
  }

  lemma RetopoFaithful(shown: set<nat>, c: Core, t: Topology)
    requires Faithful(shown, c)
    ensures Faithful(shown, c.(topo := t))
  {
  }

  lemma SwitchFaithful(shown: set<nat>, c: Core, ws: int, hint: Option<int>)
    requires Inv(c) && Faithful(shown, c)
    ensures Faithful(shown, DoSwitch(c, ws, hint))
  {
    hide Focus, Evaluate, Refresh, SwitchTo, IsShown, Faithful, Inv, Settled, Replay;
    InvSane(c);
    if 0 <= ws < |c.topo.wsAlias| && c.topo.monitors != [] {
      var h := if hint.Some? then hint.value else NONE;
      SwitchedInv(c, ws, h);
      var c1 := c.(topo := SwitchTo(c.topo, ws, h, c.settings.aliases, c.settings.compose));
      RetopoFaithful(shown, c, c1.topo);
      InvSane(c1);
      var c2 := Refresh(c1);
      RefreshInv(c1);
      RefreshFaithful(shown, c1);
      InvSane(c2);
      SwitchedFaithful(shown, c2, ws);
    }
  }

  lemma SwitchedFaithful(shown: set<nat>, c: Core, ws: int)
    requires Inv(c) && Faithful(shown, c)
    ensures Faithful(shown, Post(Evaluate(c, ws), WorkspaceSwitched(ws)))
    ensures Faithful(shown, Post(Evaluate(Focus(c, NO_WINDOW), ws), WorkspaceSwitched(ws)))
  {
    hide Focus, Evaluate, Faithful, Inv, Quiet, KeepsWindows;
    InvSane(c);
    FocusFaithful(shown, c, NO_WINDOW);
    FocusInv(c, NO_WINDOW);
    InvSane(Focus(c, NO_WINDOW));
    QuietFaithful(shown, c, Evaluate(c, ws));
    QuietFaithful(shown, Focus(c, NO_WINDOW), Evaluate(Focus(c, NO_WINDOW), ws));
    PostFaithful(shown, Evaluate(c, ws), ws);
    PostFaithful(shown, Evaluate(Focus(c, NO_WINDOW), ws), ws);
  }

  lemma PostFaithful(shown: set<nat>, c: Core, ws: int)
    requires Faithful(shown, c)
    ensures Faithful(shown, Post(c, WorkspaceSwitched(ws)))
  {
    hide Replay;
  }

  lemma FocusMovedFaithful(shown: set<nat>, c: Core, id: nat, ws: int)
    requires Inv(c) && Faithful(shown, c)
    ensures Faithful(shown, FocusMoved(c, id, ws))
  {
    hide Focus, Faithful, Inv;
    FocusFaithful(shown, c, id);
    FocusFaithful(shown, c, NO_WINDOW);
  }

  lemma MoveFaithful(shown: set<nat>, c: Core, id: nat, ws: int)
    requires Inv(c) && Faithful(shown, c)
    ensures Faithful(shown, DoMove(c, id, ws))
  {
    hide FocusMoved, Repin, Refresh, Inv;
    InvSane(c);
    if 0 <= ws < |c.modes| && id in c.tb.index {
      var c1 := Post(c.(tb := Move(c.tb, id, ws)), WindowAssigned(id, ws));
      PlaceInv(c, id, ws);
      InvSane(c1);
      SilentFaithful(shown, c, c1);
      var c2 := Refresh(c1);
      RefreshInv(c1);
      RefreshFaithful(shown, c1);
      var c3 := Repin(c2, id, HomeOf(c.tb, id), ws);
      QuietInv(c2, c3);
      QuietFaithful(shown, c2, c3);
      FocusMovedFaithful(shown, c2, id, ws);
      FocusMovedFaithful(shown, c3, id, ws);
    }
  }

  lemma EnterFaithful(shown: set<nat>, c: Core, id: nat, preserve: bool)
    requires Inv(c) && Faithful(shown, c) && id in c.tb.index
    ensures Faithful(shown, DoEnter(c, id, preserve))
  {
    hide Focus, Evaluate, Arrange, EnterFullscreen, Faithful;
    var e := EnterFullscreen(c, id, preserve);
    SameListsInv(c, e);
    SilentStepFaithful(shown, c, e);
    EnteredFaithful(shown, e, id, HomeOf(c.tb, id));
  }

  lemma LeaveFaithful(shown: set<nat>, c: Core, id: nat)
    requires Inv(c) && Faithful(shown, c) && id in c.tb.index
    ensures Faithful(shown, DoLeave(c, id))
  {
    hide Evaluate, Arrange, LeaveFullscreen;
    var l := LeaveFullscreen(c, id);
    SilentStepFaithful(shown, c, l);
    QuietFaithful(shown, l, Arrange(l));
    QuietFaithful(shown, Arrange(l), Evaluate(Arrange(l), HomeOf(c.tb, id)));
  }

  lemma EnteredFaithful(shown: set<nat>, e: Core, id: nat, ws: int)
    requires Inv(e) && Faithful(shown, e)
    ensures Faithful(shown, Focus(Post(Arrange(e), RaiseDocks), id))
    ensures Faithful(shown, Evaluate(Post(Arrange(e), RaiseDocks), ws))
  {
    hide Focus, Evaluate, Arrange;
    var c1 := Post(Arrange(e), RaiseDocks);
    QuietInv(e, Arrange(e));
    QuietFaithful(shown, e, Arrange(e));
    FocusFaithful(shown, c1, id);
    QuietFaithful(shown, c1, Evaluate(c1, ws));
  }

  /** Putting a window elsewhere changes no visibility. */
  lemma AssignFaithful(shown: set<nat>, c: Core, id: nat, ws: int)
    requires Sane(c) && Faithful(shown, c) && id in c.tb.index
    ensures Faithful(shown, DoEnsure(c, id, ws)) && Faithful(shown, DoAssign(c, id, ws))
  {
    hide Move;
  }

  /**
   * Creating a window keeps the stream faithful exactly when the backend will not hold that id mapped:
   * a map effect still pending for an earlier window of the same id would be replayed on the new one.
   */
  lemma CreateFaithful(shown: set<nat>, c: Core, id: nat, ws: int)
    requires Inv(c) && Faithful(shown, c) && id != NO_WINDOW && id !in c.tb.index && c.tb.lists != []
    ensures Faithful(shown, DoEnsure(c, id, ws)) <==> id !in Replay(shown, c.effects)
  {
    CreateKeeps(c.tb, id, ws, ActiveWs(c.topo, c.topo.focused));
    assert id in DoEnsure(c, id, ws).tb.index;
  }

  lemma SameVisFaithful(shown: set<nat>, c: Core, d: Core)
    requires Faithful(shown, c) && SameVis(c.tb.index, d.tb.index) && d.effects == c.effects
    ensures Faithful(shown, d)
  {
    hide Replay;
  }

  lemma BorderlessFaithful(shown: set<nat>, c: Core, id: nat, flag: bool)
    requires Inv(c) && Faithful(shown, c)
    ensures Faithful(shown, DoBorderless(c, id, flag))
  {
    hide Evaluate;
    if id in c.tb.index {
      var w0 := c.tb.index[id];
      var w := w0.(props := w0.props.(borderless := flag, promoteToBorderless := false));
      var d := if flag && w.geo.border != 0 && !w.OwnsGeometry()
               then Emit(Put(c, id, WithBorder(w, 0)), UpdateWindow(id)) else Put(c, id, w);
      SilentFaithful(shown, c, d);
      QuietFaithful(shown, d, Evaluate(d, HomeOf(d.tb, id)));
    }
  }

  lemma RemoveFaithful(shown: set<nat>, c: Core, id: nat)
    requires Inv(c) && Faithful(shown, c)
    ensures Faithful(shown, DoRemove(c, id))
  {
    hide Evaluate;
    DropKeeps(c.tb, id);
    var d := c.(tb := Drop(c.tb, id), dirty := c.dirty - {id});
    QuietFaithful(shown, d, Evaluate(d, HomeOf(c.tb, id)));
  }

  lemma ReconcileFaithful(shown: set<nat>, c: Core)
    requires Inv(c) && Faithful(shown, c)
    ensures Faithful(shown, Reconcile(c))
  {
    hide Faithful, Inv, Focus, Refresh;
    InvSane(c);
    RefreshInv(c);
    RefreshFaithful(shown, c);
    FocusFaithful(shown, Refresh(c), NO_WINDOW);
  }

  lemma FocusCommandFaithful(shown: set<nat>, c: Core, cmd: Command)
    requires Inv(c) && Faithful(shown, c)
    ensures Faithful(shown, StepFocus(c, cmd))
  {
    hide Inv, Faithful, Focus, DoSwitch, DoCycle, DoSwitchLocal, DoApplyTopology, DoFocusMonitor, DoFocusMonitorAt;
    match cmd
    case CFocusWindow(id) => FocusFaithful(shown, c, id);
    case CSwitchWorkspace(ws, hint) => SwitchFaithful(shown, c, ws, hint);
    case CFocusMonitor(m) => FocusMonitorFaithful(shown, c, m, 0, 0);
    case CFocusMonitorAt(x, y) => FocusMonitorFaithful(shown, c, 0, x, y);
    case CFocusNext => CycleFaithful(shown, c, 1);
    case CFocusPrev => CycleFaithful(shown, c, -1);
    case CSwitchLocal(li) => SwitchLocalFaithful(shown, c, li);
    case CApplyTopology(ms) => TopologyFaithful(shown, c, ms);
    case _ =>
  }

  lemma WarpFaithful(shown: set<nat>, c: Core, pos: Vec)
    requires Faithful(shown, c)
    ensures Faithful(shown, Emit(c, WarpPointer(pos)))
  {
    hide Replay;
    ReplayEmit(shown, c, WarpPointer(pos));
  }

  lemma FocusOnMonitorFaithful(shown: set<nat>, c: Core, m: int)
    requires Inv(c) && Faithful(shown, c)
    ensures Faithful(shown, Focus(c.(topo := FocusMonitor(c.topo, m)), NO_WINDOW))
  {
    hide Focus;
    FocusMonitorInv(c, m);
    RetopoFaithful(shown, c, FocusMonitor(c.topo, m));
    FocusFaithful(shown, c.(topo := FocusMonitor(c.topo, m)), NO_WINDOW);
  }

  lemma FocusMonitorFaithful(shown: set<nat>, c: Core, m: int, x: int, y: int)
    requires Inv(c) && Faithful(shown, c)
    ensures Faithful(shown, DoFocusMonitor(c, m)) && Faithful(shown, DoFocusMonitorAt(c, x, y))
  {
    hide Focus, Faithful, Inv;
    InvSane(c);
    FocusOnMonitorFaithful(shown, c, m);
    FocusOnMonitorFaithful(shown, c, MonitorAt(c.topo.monitors, x, y, 0));
    if 0 <= m < |c.topo.monitors| {
      var c1 := if m == c.topo.focused then c else Focus(c.(topo := FocusMonitor(c.topo, m)), NO_WINDOW);
      var mon := c.topo.monitors[m];
      WarpFaithful(shown, c1, Vec(mon.x + TruncDiv(mon.w, 2), mon.y + TruncDiv(mon.h, 2)));
    }
  }

  lemma CycleFaithful(shown: set<nat>, c: Core, dir: int)
    requires Inv(c) && Faithful(shown, c)
    ensures Faithful(shown, DoCycle(c, dir))
  {
    hide Focus, Cycled, CurrentFocused;
    var ws := CurrentWs(c);
    FocusFaithful(shown, c, NO_WINDOW);
    if IsWs(c.tb, ws) {
      CycledKeeps(c.tb, ws, dir);
      var c1 := c.(tb := Cycled(c.tb, ws, dir));
      var w := CurrentFocused(c1);
      FocusFaithful(shown, c1, if Shown(c1.tb.index, w) then w else NO_WINDOW);
    }
  }

  lemma SwitchLocalFaithful(shown: set<nat>, c: Core, li: int)
    requires Inv(c) && Faithful(shown, c)
    ensures Faithful(shown, DoSwitchLocal(c, li))
  {
    hide Reconcile;
    var m := c.topo.focused;
    if 0 <= m < |c.topo.pools| && 0 <= li < |c.topo.pools[m]| {
      ShowKeeps(c.topo, m, li);
      SameOwnersHonour(c.topo, Show(c.topo, m, li), c.settings.aliases);
      ReconcileFaithful(shown, c.(topo := Show(c.topo, m, li)));
    }
  }

  lemma TopologyFaithful(shown: set<nat>, c: Core, ms: seq<Monitor>)
    requires Inv(c) && Faithful(shown, c)
    ensures Faithful(shown, DoApplyTopology(c, ms))
  {
    hide Reconcile, Replug;
    ReplugSettles(c.topo, ms, c.settings.aliases, c.settings.compose);
    ReplugSized(c.topo, ms, c.settings.aliases, c.settings.compose);
    ReconcileFaithful(shown, c.(topo := Replug(c.topo, ms, c.settings.aliases, c.settings.compose)));
  }

  lemma MoveCommandFaithful(shown: set<nat>, c: Core, cmd: Command)
    requires Inv(c) && Faithful(shown, c)
    ensures Faithful(shown, StepMove(c, cmd))
  {
    hide Inv, Faithful, DoMove, CurrentFocused, KeepsWindows;
    InvSane(c);
    hide Sane;
    match cmd
    case CMoveWindowToWorkspace(id, ws) => MoveFaithful(shown, c, id, ws);
    case CMoveWindowToMonitor(id, m) =>
      if 0 <= m < |c.topo.monitors| {
        MoveFaithful(shown, c, if id == NO_WINDOW then CurrentFocused(c) else id, c.topo.monitors[m].activeWs);
      }
    case CMoveFocusedToWorkspace(ws) => MoveFaithful(shown, c, CurrentFocused(c), ws);
    case _ =>
  }

  lemma WindowCommandFaithful(shown: set<nat>, c: Core, cmd: Command)
    requires Inv(c) && Faithful(shown, c)
    requires cmd.CEnsureWindow? ==> cmd.win in c.tb.index || cmd.win !in Replay(shown, c.effects)
    ensures Faithful(shown, StepWindow(c, cmd))
  {
    hide Inv, Faithful, DoFullscreen, DoAssign, DoEnsure, DoMetadata, DoBorderless, DoRemove;
    hide Replay, Quiet, KeepsWindows, SameSaved, SameVis, SameGeometry;
    InvSane(c);
    if cmd.CSetFullscreen? {
      FullscreenFaithful(shown, c, cmd.win, cmd.enabled, cmd.preserveGeometry);
    } else if cmd.CEnsureWindow? {
      EnsureFaithful(shown, c, cmd.win, cmd.ws);
    } else if cmd.CAssignWorkspace? {
      AssignCommandFaithful(shown, c, cmd.win, cmd.ws);
    } else if cmd.CSetMetadata? {
      MetadataFaithful(shown, c, cmd);
    } else if cmd.CSetBorderless? {
      BorderlessFaithful(shown, c, cmd.win, cmd.flag);
    } else if cmd.CRemoveWindow? {
      RemoveFaithful(shown, c, cmd.win);
    }
  }

  lemma MetadataFaithful(shown: set<nat>, c: Core, cmd: Command)
    requires Sane(c) && Faithful(shown, c) && cmd.CSetMetadata?
    ensures Faithful(shown, DoMetadata(c, cmd.win, cmd.kind, cmd.hints, cmd.transientFor))
  {
    hide DoMetadata, Faithful, SameSaved, SameGeometry, SameVis, Sane;
    SameVisFaithful(shown, c, DoMetadata(c, cmd.win, cmd.kind, cmd.hints, cmd.transientFor));
  }

  lemma AssignCommandFaithful(shown: set<nat>, c: Core, id: nat, ws: int)
    requires Inv(c) && Faithful(shown, c)
    ensures Faithful(shown, DoAssign(c, id, ws))
  {
    if id in c.tb.index {
      AssignFaithful(shown, c, id, ws);
    }
  }

  lemma EnsureFaithful(shown: set<nat>, c: Core, id: nat, ws: int)
    requires Inv(c) && Faithful(shown, c)
    requires id in c.tb.index || id == NO_WINDOW || id !in Replay(shown, c.effects)
    ensures Faithful(shown, DoEnsure(c, id, ws))
  {
    if id in c.tb.index {
      AssignFaithful(shown, c, id, ws);
    } else if id != NO_WINDOW && c.tb.lists != [] {
      CreateFaithful(shown, c, id, ws);
    }
  }

  lemma FullscreenFaithful(shown: set<nat>, c: Core, id: nat, enabled: bool, preserve: bool)
    requires Inv(c) && Faithful(shown, c)
    ensures Faithful(shown, DoFullscreen(c, id, enabled, preserve))
  {
    hide DoEnter, DoLeave;
    if id in c.tb.index {
      EnterFaithful(shown, c, id, preserve);
      LeaveFaithful(shown, c, id);
    }
  }

  lemma SettingsFaithful(shown: set<nat>, c: Core, next: Settings)
    requires Inv(c) && Applicable(c, next) && Faithful(shown, c)
    ensures Faithful(shown, DoApplySettings(c, next))
  {
    hide DoApplySettings;
    SettingsKeepWindows(c, next);
    SettingsEmitNothing(c, next);
  }

  lemma SettingsEmitNothing(c: Core, next: Settings)
    requires Sane(c) && Applicable(c, next)
    ensures DoApplySettings(c, next).effects == c.effects
  {
  }

  // --- Whole runs --------------------------------------------------------------------------------

  /** The core together with the windows its backend has mapped. */
  datatype System = System(core: Core, shown: set<nat>)

  datatype Action = Do(cmd: Command) | Drain

  /** The commands of the theorem: not the two raw visibility atoms, and no id whose old map effect is still pending. */
  predicate Premise(s: System, a: Action)
  {
    a.Do? ==>
      && Allowed(s.core, a.cmd) && !a.cmd.CSetMapped? && !a.cmd.CSetHiddenByWorkspace?
      && (a.cmd.CEnsureWindow? ==> a.cmd.win in s.core.tb.index || a.cmd.win !in Replay(s.shown, s.core.effects))
  }

  /** A command runs, a removed window being gone from the screen; or the backend takes the pending effects. */
  function After(s: System, a: Action): System
    requires Sane(s.core) && Premise(s, a)
  {
    match a
    case Do(cmd) => System(Step(s.core, cmd), if cmd.CRemoveWindow? then s.shown - {cmd.win} else s.shown)
    case Drain => System(s.core.(effects := []), Replay(s.shown, s.core.effects) * s.core.tb.index.Keys)
  }

  ghost predicate Truthful(s: System) {
    Inv(s.core) && Faithful(s.shown, s.core) && s.shown <= s.core.tb.index.Keys
  }

  lemma StepFaithful(shown: set<nat>, c: Core, cmd: Command)
    requires Inv(c) && Faithful(shown, c) && Premise(System(c, shown), Do(cmd))
    ensures Faithful(shown, Step(c, cmd))
  {
    hide Inv, Faithful, StepVisibility, StepFlag, StepGeometry, StepLayout, StepFocus, StepMove, StepWindow;
    hide DoApplySettings;
    InvSane(c);
    if VisibilityCommand(cmd) {
      VisibilityFaithful(shown, c, cmd);
    } else if FlagCommand(cmd) {
      SilentStepFaithful(shown, c, StepFlag(c, cmd));
    } else if GeometryCommand(cmd) {
      QuietFaithful(shown, c, StepGeometry(c, cmd));
    } else if LayoutCommand(cmd) {
      LayoutFaithful(shown, c, cmd);
    } else if cmd.CApplySettings? {
      SettingsFaithful(shown, c, cmd.next);
    } else if FocusCommand(cmd) {
      FocusCommandFaithful(shown, c, cmd);
    } else if MoveCommand(cmd) {
      MoveCommandFaithful(shown, c, cmd);
    } else {
      WindowCommandFaithful(shown, c, cmd);
    }
  }

  lemma ActionTruthful(s: System, a: Action)
    requires Truthful(s) && Premise(s, a)
    ensures Truthful(After(s, a))
  {
    hide Step, Inv, Allowed;
    InvSane(s.core);
    match a
    case Do(cmd) =>
      StepInv(s.core, cmd);
      StepFaithful(s.shown, s.core, cmd);
      var d := Step(s.core, cmd);
      forall id | id in s.core.tb.index
        ensures id in d.tb.index <==> cmd != CRemoveWindow(id)
      {
        NoWindowLost(s.core, cmd, id);
      }
      if cmd.CRemoveWindow? {
        RemovedGone(s.core, cmd.win);
        RemovedStaysOut(s, cmd.win, d);
      }
    case Drain => DrainedInv(s.core);
  }

  lemma DrainedInv(c: Core)
    requires Inv(c)
    ensures Inv(c.(effects := []))
  {
  }

  lemma RemovedStaysOut(s: System, win: nat, d: Core)
    requires Faithful(s.shown, d) && win !in d.tb.index
    ensures Faithful(s.shown - {win}, d)
  {
    forall id | id in d.tb.index
      ensures id in Replay(s.shown - {win}, d.effects) <==> d.tb.index[id].Visible()
    {
      ReplayWithout(s.shown, d.effects, win, id);
    }
  }

  ghost predicate SystemRuns(s: System, actions: seq<Action>, t: System)
    decreases |actions|
  {
    if actions == [] then t == s
    else Sane(s.core) && Premise(s, actions[0]) && SystemRuns(After(s, actions[0]), actions[1..], t)
  }

  lemma {:induction false} RunTruthful(s: System, actions: seq<Action>, t: System)
    requires Truthful(s) && SystemRuns(s, actions, t)
    ensures Truthful(t)
    decreases |actions|
  {
    hide Truthful, After;
    if actions != [] {
      ActionTruthful(s, actions[0]);
      RunTruthful(After(s, actions[0]), actions[1..], t);
    }
  }

  /** After any run from start-up, once the backend drains the effects, it has mapped exactly the visible windows. */
  lemma EffectsShowVisible(settings: Settings, monitors: seq<Monitor>, actions: seq<Action>, t: System)
    requires SystemRuns(System(Init(settings, monitors), {}), actions, t)
    ensures Sane(t.core) && After(t, Drain).shown == set id | id in t.core.tb.index && t.core.tb.index[id].Visible()
  {
    InitInv(settings, monitors);
    RunTruthful(System(Init(settings, monitors), {}), actions, t);
  }

  // --- Hidden exactly when not shown -------------------------------------------------------------

  ghost predicate HiddenExactly(c: Core) {
    c.tb.index.Keys == c.tb.home.Keys &&
    forall id :: id in c.tb.index ==> (c.tb.index[id].vis.hiddenByWs <==> !IsShown(c.topo.monitors, c.tb.home[id]))
  }

  /** `r` hides the windows of `list` unless `show`, and leaves all others as they are in `c`. */
  ghost predicate ListHidden(c: Core, list: seq<nat>, show: bool, r: Core) {
    r.tb.index.Keys == c.tb.index.Keys &&
    forall id :: id in c.tb.index ==>
      if id in list then r.tb.index[id].vis.hiddenByWs == !show else r.tb.index[id] == c.tb.index[id]
  }

  lemma SyncOneHides(c: Core, list: seq<nat>, show: bool, r: Core, id: nat)
    requires ListHidden(c, list, show, r)
    ensures ListHidden(c, list + [id], show, SyncOne(r, id, show))
  {
  }

  lemma {:induction false} SyncListHides(c: Core, list: seq<nat>, show: bool, k: nat)
    requires k <= |list|
    ensures ListHidden(c, list[..k], show, SyncList(c, list, show, k))
  {
    hide SyncOne, ListHidden, Synced;
    if k == 0 {
      assert ListHidden(c, [], show, c) by {
        NothingHidden(c, show);
      }
    } else {
      SyncListHides(c, list, show, k - 1);
      SyncOneHides(c, list[..k - 1], show, SyncList(c, list, show, k - 1), list[k - 1]);
      assert list[..k] == list[..k - 1] + [list[k - 1]];
    }
  }

  lemma SyncWholeList(c: Core, list: seq<nat>, show: bool)
    ensures ListHidden(c, list, show, SyncList(c, list, show, |list|))
  {
    hide ListHidden, SyncList;
    SyncListHides(c, list, show, |list|);
    assert list[..|list|] == list;
  }

  lemma NothingHidden(c: Core, show: bool)
    ensures ListHidden(c, [], show, c)
  {
  }

  /** `r` hides exactly the unshown windows of workspaces below k, and leaves all others as they are in `c`. */
  ghost predicate HiddenBelow(c: Core, k: nat, r: Core) {
    r.tb.index.Keys == c.tb.index.Keys == c.tb.home.Keys &&
    forall id :: id in c.tb.index ==>
      if c.tb.home[id] < k then r.tb.index[id].vis.hiddenByWs == !IsShown(c.topo.monitors, c.tb.home[id])
      else r.tb.index[id] == c.tb.index[id]
  }

  lemma HiddenNext(c: Core, k: nat, r: Core, d: Core)
    requires TableOk(c.tb) && k < |c.tb.lists| && HiddenBelow(c, k, r)
    requires ListHidden(r, c.tb.lists[k], IsShown(c.topo.monitors, k), d)
    ensures HiddenBelow(c, k + 1, d)
  {
    hide IsShown;
    assert ListOk(c.tb, k);
  }

  lemma {:induction false} SyncUpToHides(c: Core, k: nat)
    requires TableOk(c.tb) && k <= |c.tb.lists|
    ensures HiddenBelow(c, k, SyncUpTo(c, k))
  {
    hide SyncList, IsShown, ListHidden, TableOk, HiddenBelow, SyncOne;
    if k == 0 {
      HiddenNone(c);
    } else {
      SyncUpToHides(c, k - 1);
      SyncWholeList(SyncUpTo(c, k - 1), c.tb.lists[k - 1], IsShown(c.topo.monitors, k - 1));
      HiddenNext(c, k - 1, SyncUpTo(c, k - 1), SyncUpTo(c, k));
    }
  }

  lemma HiddenNone(c: Core)
    requires TableOk(c.tb)
    ensures HiddenBelow(c, 0, c)
  {
  }

  lemma RefreshHides(c: Core)
    requires Inv(c)
    ensures HiddenExactly(Refresh(c))
  {
    hide IsShown, SyncUpTo, Arrange;
    SyncUpToHides(c, |c.tb.lists|);
    QuietHides(SyncVisibility(c), Arrange(SyncVisibility(c)));
  }

  lemma QuietHides(c: Core, d: Core)
    requires HiddenExactly(c) && Quiet(c, d)
    ensures HiddenExactly(d)
  {
    hide IsShown;
  }

  /** Focusing a window on a shown workspace changes nothing about what monitors show. */
  lemma FocusShownKeepsMonitors(t: Topology, ws: int)
    requires Consistent(t) && IsShown(t.monitors, ws) && 0 <= ws < |t.wsAlias|
    ensures forall v :: IsShown(FocusWorkspace(t, ws).monitors, v) <==> IsShown(t.monitors, v)
  {
    var m :| 0 <= m < |t.monitors| && t.monitors[m].activeWs == ws;
    ShownByOwner(t, m);
    FocusWorkspaceShows(t, ws);
    var r := FocusWorkspace(t, ws);
    forall k | 0 <= k < |t.monitors|
      ensures r.monitors[k].activeWs == t.monitors[k].activeWs
    {
    }
  }

  lemma FocusHides(c: Core, id: nat)
    requires Inv(c) && HiddenExactly(c)
    ensures HiddenExactly(Focus(c, id))
  {
    hide Evaluate, IsShown, FocusWorkspace;
    var w := FocusTarget(c, id);
    if w != NO_WINDOW {
      FocusStateInv(c, w);
      PointAtKeeps(c.tb, w);
      FocusShownKeepsMonitors(c.topo, c.tb.home[w]);
      QuietHides(Focusing(c, w), Evaluate(Focusing(c, w), c.tb.home[w]));
    }
  }

  /** A workspace switch that succeeds leaves a window hidden exactly when no monitor shows its workspace. */
  lemma SwitchHides(c: Core, ws: int, hint: Option<int>)
    requires Inv(c) && 0 <= ws < |c.topo.wsAlias| && c.topo.monitors != []
    ensures HiddenExactly(DoSwitch(c, ws, hint))
  {
    hide Focus, Evaluate, Refresh, SwitchTo, HiddenExactly;
    var h := if hint.Some? then hint.value else NONE;
    SwitchedInv(c, ws, h);
    var c1 := c.(topo := SwitchTo(c.topo, ws, h, c.settings.aliases, c.settings.compose));
    RefreshInv(c1);
    RefreshHides(c1);
    SwitchedHides(Refresh(c1), ws);
  }

  lemma SwitchedHides(c: Core, ws: int)
    requires Inv(c) && HiddenExactly(c)
    ensures HiddenExactly(Post(Evaluate(c, ws), WorkspaceSwitched(ws)))
    ensures HiddenExactly(Post(Evaluate(Focus(c, NO_WINDOW), ws), WorkspaceSwitched(ws)))
  {
    hide Focus, Evaluate, IsShown;
    FocusHides(c, NO_WINDOW);
    QuietHides(c, Evaluate(c, ws));
    QuietHides(Focus(c, NO_WINDOW), Evaluate(Focus(c, NO_WINDOW), ws));
  }

  /** So does moving a window, ... */
  lemma MoveHides(c: Core, id: nat, ws: int)
    requires Inv(c) && 0 <= ws < |c.modes| && id in c.tb.index
    ensures HiddenExactly(DoMove(c, id, ws))
  {
    hide FocusMoved, Repin, Refresh, Inv, Move, HiddenExactly;
    InvSane(c);
    var c1 := Post(c.(tb := Move(c.tb, id, ws)), WindowAssigned(id, ws));
    PlaceInv(c, id, ws);
    InvSane(c1);
    var c2 := Refresh(c1);
    RefreshInv(c1);
    RefreshHides(c1);
    var c3 := Repin(c2, id, HomeOf(c.tb, id), ws);
    QuietInv(c2, c3);
    QuietHides(c2, c3);
    FocusMovedHides(c2, id, ws);
    FocusMovedHides(c3, id, ws);
  }

  lemma FocusMovedHides(c: Core, id: nat, ws: int)
    requires Inv(c) && HiddenExactly(c)
    ensures HiddenExactly(FocusMoved(c, id, ws))
  {
    hide Focus, HiddenExactly, Inv;
    FocusHides(c, id);
    FocusHides(c, NO_WINDOW);
  }

  lemma ReconcileHides(c: Core)
    requires Inv(c)
    ensures HiddenExactly(Reconcile(c))
  {
    hide Inv, HiddenExactly, Focus, Refresh;
    InvSane(c);
    RefreshInv(c);
    RefreshHides(c);
    FocusHides(Refresh(c), NO_WINDOW);
  }

  /** ... a monitor topology change, ... */
  lemma TopologyHides(c: Core, ms: seq<Monitor>)
    requires Inv(c)
    ensures HiddenExactly(DoApplyTopology(c, ms))
  {
    hide Reconcile, Replug;
    ReplugSettles(c.topo, ms, c.settings.aliases, c.settings.compose);
    ReplugSized(c.topo, ms, c.settings.aliases, c.settings.compose);
    ReconcileHides(c.(topo := Replug(c.topo, ms, c.settings.aliases, c.settings.compose)));
  }

  /** ... and a switch by position in the focused monitor's pool. */
  lemma SwitchLocalHides(c: Core, li: int)
    requires Inv(c) && 0 <= c.topo.focused < |c.topo.pools| && 0 <= li < |c.topo.pools[c.topo.focused]|
    ensures HiddenExactly(DoSwitchLocal(c, li))
  {
    hide Reconcile, HiddenExactly;
    ShowKeeps(c.topo, c.topo.focused, li);
    SameOwnersHonour(c.topo, Show(c.topo, c.topo.focused, li), c.settings.aliases);
    ReconcileHides(c.(topo := Show(c.topo, c.topo.focused, li)));
    PostHides(Reconcile(c.(topo := Show(c.topo, c.topo.focused, li))), ActiveWs(Show(c.topo, c.topo.focused, li), c.topo.focused));
  }

  lemma PostHides(c: Core, ws: int)
    requires HiddenExactly(c)
    ensures HiddenExactly(Post(c, WorkspaceSwitched(ws)))
  {
  }
}
