/** Every command that changes a window's position or size sets the dirty bits of what it changed. */
module GeometryTracking {
  import opened Monitors
  import opened Topology
  import opened Windows
  import opened WindowProofs
  import opened Flush
  import Tile
  import opened Reducer
  import opened ReducerProofs

  /** From (g, a) to (h, b) dirty bits only appear, and a field without one has not changed. */
  predicate TrackedGeometry(g: Geometry, a: Dirty, h: Geometry, b: Dirty) {
    && (a.x ==> b.x) && (a.y ==> b.y) && (a.w ==> b.w) && (a.h ==> b.h)
    && (!b.x ==> h.pos.x == g.pos.x) && (!b.y ==> h.pos.y == g.pos.y)
    && (!b.w ==> h.size.x == g.size.x) && (!b.h ==> h.size.y == g.size.y)
  }

  predicate Tracked(c: Core, d: Core, id: nat) {
    id in c.tb.index ==>
      id in d.tb.index &&
      TrackedGeometry(c.tb.index[id].geo, DirtyOf(c, id), d.tb.index[id].geo, DirtyOf(d, id))
  }

  lemma TrackedTrans(a: Core, b: Core, c: Core, id: nat)
    requires Tracked(a, b, id) && Tracked(b, c, id)
    ensures Tracked(a, c, id)
  {
  }

  /** Nothing about the window's geometry changed. */
  lemma Untouched(c: Core, d: Core, id: nat)
    requires id in c.tb.index ==> id in d.tb.index && d.tb.index[id].geo == c.tb.index[id].geo && DirtyOf(d, id) == DirtyOf(c, id)
    ensures Tracked(c, d, id)
  {
  }

  /** Changing a window under the dirty bits `bits`. */
  lemma MarkTracked(c: Core, win: nat, w: Window, bits: Dirty, id: nat)
    requires win in c.tb.index && TrackedGeometry(c.tb.index[win].geo, CLEAN, w.geo, bits)
    ensures Tracked(c, MarkDirty(Put(c, win, w), win, bits), id)
  {
  }

  lemma SetGeometryTracked(c: Core, win: nat, pos: Vec, size: Vec, id: nat)
    ensures Tracked(c, SetGeometry(c, win, pos, size), id)
  {
    hide ApplyHints, MarkDirty, Tracked;
    if win in c.tb.index {
      var w := c.tb.index[win];
      MarkTracked(c, win, At(w, pos, if w.props.floating then ApplyHints(w, size) else size), GEOMETRY, id);
    } else {
      Untouched(c, c, id);
    }
  }

  lemma SetBorderTracked(c: Core, win: nat, width: int, id: nat)
    ensures Tracked(c, SetBorderWidth(c, win, width), id)
  {
    hide MarkDirty, Tracked;
    if win in c.tb.index {
      MarkTracked(c, win, WithBorder(c.tb.index[win], width), BORDER, id);
    } else {
      Untouched(c, c, id);
    }
  }

  lemma PlaceOneTracked(c: Core, p: Tile.Placement, id: nat)
    ensures Tracked(c, PlaceOne(c, p), id)
  {
    hide SetGeometry, SetBorderWidth;
    var size :=
      if p.win in c.tb.index && c.tb.index[p.win].props.sizeLocked &&
         c.tb.index[p.win].geo.size.x > 0 && c.tb.index[p.win].geo.size.y > 0
      then c.tb.index[p.win].geo.size else p.size;
    var c1 := SetGeometry(c, p.win, p.pos, size);
    SetGeometryTracked(c, p.win, p.pos, size, id);
    SetBorderTracked(c1, p.win, p.border, id);
  }

  lemma {:induction false} PlaceUpToTracked(c: Core, ps: seq<Tile.Placement>, k: nat, id: nat)
    requires k <= |ps|
    ensures Tracked(c, PlaceUpTo(c, ps, k), id)
  {
    hide PlaceOne, Tracked, Quiet;
    if k == 0 {
      Untouched(c, c, id);
    } else {
      PlaceUpToTracked(c, ps, k - 1, id);
      PlaceOneTracked(PlaceUpTo(c, ps, k - 1), ps[k - 1], id);
      TrackedTrans(c, PlaceUpTo(c, ps, k - 1), PlaceUpTo(c, ps, k), id);
    }
  }

  lemma BorderOneTracked(c: Core, win: nat, id: nat)
    ensures Tracked(c, BorderOne(c, win), id)
  {
    hide SetBorderWidth;
    SetBorderTracked(c, win, ToUint32(c.settings.borderThickness), id);
    Untouched(c, c, id);
  }

  lemma {:induction false} BorderUpToTracked(c: Core, list: seq<nat>, k: nat, id: nat)
    requires k <= |list|
    ensures Tracked(c, BorderUpTo(c, list, k), id)
  {
    hide BorderOne, Tracked, Quiet;
    if k == 0 {
      Untouched(c, c, id);
    } else {
      BorderUpToTracked(c, list, k - 1, id);
      BorderOneTracked(BorderUpTo(c, list, k - 1), list[k - 1], id);
      TrackedTrans(c, BorderUpTo(c, list, k - 1), BorderUpTo(c, list, k), id);
    }
  }

  lemma ArrangeMonitorTracked(c: Core, mon: Monitor, id: nat)
    ensures Tracked(c, ArrangeMonitor(c, mon), id)
  {
    hide PlaceUpTo, BorderUpTo, LayoutPlacements, LaidOutIds, Tracked;
    Untouched(c, c, id);
    if 0 <= mon.activeWs < |c.tb.lists| {
      var list := c.tb.lists[mon.activeWs];
      var ps := LayoutPlacements(c, LaidOutIds(c.tb.index, list), mon);
      var c1 := PlaceUpTo(c, ps, |ps|);
      PlaceUpToTracked(c, ps, |ps|, id);
      BorderUpToTracked(c1, list, |list|, id);
      TrackedTrans(c, c1, BorderUpTo(c1, list, |list|), id);
    }
  }

  lemma {:induction false} ArrangeUpToTracked(c: Core, k: nat, id: nat)
    requires k <= |c.topo.monitors|
    ensures Tracked(c, ArrangeUpTo(c, k), id)
  {
    hide ArrangeMonitor, Tracked, Quiet;
    if k == 0 {
      Untouched(c, c, id);
    } else {
      ArrangeUpToTracked(c, k - 1, id);
      ArrangeMonitorTracked(ArrangeUpTo(c, k - 1), c.topo.monitors[k - 1], id);
      TrackedTrans(c, ArrangeUpTo(c, k - 1), ArrangeUpTo(c, k), id);
    }
  }

  lemma ArrangeTracked(c: Core, id: nat)
    ensures Tracked(c, Arrange(c), id)
  {
    hide ArrangeUpTo, Tracked, KnownLayout;
    ArrangeUpToTracked(c, |c.topo.monitors|, id);
    Untouched(c, c, id);
  }

  lemma PinToTracked(c: Core, win: nat, m: int, id: nat)
    requires 0 <= m < |c.topo.monitors| && win in c.tb.index
    ensures Tracked(c, PinTo(c, win, m), id)
  {
    hide MarkDirty, Tracked;
    var p := c.topo.monitors[m].Physical();
    MarkTracked(c, win, At(c.tb.index[win], Vec(p.x, p.y), Vec(p.w, p.h)), GEOMETRY, id);
  }

  lemma PinTracked(c: Core, win: nat, ws: int, id: nat)
    ensures Tracked(c, Pin(c, win, ws), id)
  {
    hide PinTo, Tracked;
    Untouched(c, c, id);
    var m := MonitorOf(c.topo, ws);
    if m >= 0 && win in c.tb.index && !c.tb.index[win].OwnsGeometry() {
      PinToTracked(c, win, m, id);
    }
  }

  lemma {:induction false} LowerOthersTracked(c: Core, list: seq<nat>, except: nat, k: nat, id: nat)
    requires k <= |list|
    ensures Tracked(c, LowerOthers(c, list, except, k), id)
  {
    if k == 0 {
      Untouched(c, c, id);
    } else {
      LowerOthersTracked(c, list, except, k - 1, id);
    }
  }

  lemma RestackTracked(c: Core, ws: nat, f: nat, id: nat)
    requires ws < |c.tb.lists| && f in c.tb.index
    ensures Tracked(c, Restack(c, ws, f), id)
  {
    hide Pin, LowerOthers;
    PinTracked(c, f, ws, id);
    LowerOthersTracked(Emit(c, RaiseWindow(f)), c.tb.lists[ws], f, |c.tb.lists[ws]|, id);
  }

  lemma EvaluateTracked(c: Core, ws: int, id: nat)
    requires Sane(c)
    ensures Tracked(c, Evaluate(c, ws), id)
  {
    hide Restack, Focused;
    if 0 <= ws < |c.modes| {
      var c1 := EvaluateMode(c, ws);
      var f := Focused(c1.tb.index, c1.tb.lists[ws], c1.tb.cursors[ws]);
      if f in c1.tb.index {
        RestackTracked(c1, ws, f, id);
      }
    }
  }

  lemma RefreshTracked(c: Core, id: nat)
    requires Sane(c)
    ensures Tracked(c, Refresh(c), id)
  {
    hide Arrange, SyncVisibility, Tracked;
    Untouched(c, SyncVisibility(c), id);
    ArrangeTracked(SyncVisibility(c), id);
    TrackedTrans(c, SyncVisibility(c), Refresh(c), id);
  }

  lemma FocusTracked(c: Core, w: nat, id: nat)
    requires Sane(c)
    ensures Tracked(c, Focus(c, w), id)
  {
    hide Evaluate, FocusWorkspace, Tracked;
    var t := FocusTarget(c, w);
    if t != NO_WINDOW && IsWs(c.tb, c.tb.home[t]) && t in c.tb.lists[c.tb.home[t]] {
      var c1 := Focusing(c, t);
      Untouched(c, c1, id);
      EvaluateTracked(c1, c.tb.home[t], id);
      TrackedTrans(c, c1, Focus(c, w), id);
    } else {
      Untouched(c, Focus(c, w), id);
    }
  }

  lemma ReconcileTracked(c: Core, id: nat)
    requires Sane(c)
    ensures Tracked(c, Reconcile(c), id)
  {
    hide Focus, Refresh, Tracked;
    RefreshTracked(c, id);
    FocusTracked(Refresh(c), NO_WINDOW, id);
    TrackedTrans(c, Refresh(c), Reconcile(c), id);
  }

  /** The topology and the lists do not matter for geometry. */
  lemma Rewired(c: Core, t: Topology, tb: Table, d: Core, id: nat)
    requires tb.index == c.tb.index && Tracked(c.(topo := t, tb := tb), d, id)
    ensures Tracked(c, d, id)
  {
  }

  lemma SwitchTracked(c: Core, ws: int, hint: Option<int>, id: nat)
    requires Sane(c)
    ensures Tracked(c, DoSwitch(c, ws, hint), id)
  {
    hide Focus, Refresh, Evaluate, SwitchTo, Tracked;
    Untouched(c, c, id);
    if 0 <= ws < |c.topo.wsAlias| && c.topo.monitors != [] {
      var h := if hint.Some? then hint.value else NONE;
      var c1 := c.(topo := SwitchTo(c.topo, ws, h, c.settings.aliases, c.settings.compose));
      RefreshTracked(c1, id);
      SwitchedTracked(c1, Refresh(c1), ws, id);
      Rewired(c, c1.topo, c.tb, DoSwitch(c, ws, hint), id);
    }
  }

  lemma SwitchedTracked(c: Core, d: Core, ws: int, id: nat)
    requires Sane(d) && Tracked(c, d, id)
    ensures Tracked(c, Post(Evaluate(d, ws), WorkspaceSwitched(ws)), id)
    ensures Tracked(c, Post(Evaluate(Focus(d, NO_WINDOW), ws), WorkspaceSwitched(ws)), id)
  {
    hide Focus, Evaluate, Tracked, Quiet;
    FocusTracked(d, NO_WINDOW, id);
    EvaluateTracked(d, ws, id);
    EvaluateTracked(Focus(d, NO_WINDOW), ws, id);
    var f := Focus(d, NO_WINDOW);
    PostTracked(d, Evaluate(d, ws), ws, id);
    PostTracked(f, Evaluate(f, ws), ws, id);
    TrackedTrans(c, d, f, id);
    TrackedTrans(c, d, Post(Evaluate(d, ws), WorkspaceSwitched(ws)), id);
    TrackedTrans(c, f, Post(Evaluate(f, ws), WorkspaceSwitched(ws)), id);
  }

  lemma PostTracked(c: Core, d: Core, ws: int, id: nat)
    requires Tracked(c, d, id)
    ensures Tracked(c, Post(d, WorkspaceSwitched(ws)), id)
  {
  }

  lemma RepinTracked(c: Core, win: nat, src: int, ws: int, id: nat)
    requires Sane(c)
    ensures Tracked(c, Repin(c, win, src, ws), id)
  {
    hide Pin, Evaluate, Tracked;
    var c1 := Pin(c, win, ws);
    var c2 := Evaluate(c1, src);
    PinTracked(c, win, ws, id);
    EvaluateTracked(c1, src, id);
    EvaluateTracked(c2, ws, id);
    TrackedTrans(c, c1, c2, id);
    TrackedTrans(c, c2, Evaluate(c2, ws), id);
  }

  lemma FocusMovedTracked(c: Core, win: nat, ws: int, id: nat)
    requires Sane(c)
    ensures Tracked(c, FocusMoved(c, win, ws), id)
  {
    hide Focus, Tracked;
    FocusTracked(c, win, id);
    FocusTracked(c, NO_WINDOW, id);
  }

  lemma MoveTracked(c: Core, win: nat, ws: int, id: nat)
    requires Sane(c)
    ensures Tracked(c, DoMove(c, win, ws), id)
  {
    hide FocusMoved, Repin, Refresh, Move, Tracked;
    Untouched(c, c, id);
    if 0 <= ws < |c.modes| && win in c.tb.index {
      var c1 := Post(c.(tb := Move(c.tb, win, ws)), WindowAssigned(win, ws));
      var c2 := Refresh(c1);
      var c3 := Repin(c2, win, HomeOf(c.tb, win), ws);
      Untouched(c, c1, id);
      RefreshTracked(c1, id);
      TrackedTrans(c, c1, c2, id);
      RepinTracked(c2, win, HomeOf(c.tb, win), ws, id);
      TrackedTrans(c, c2, c3, id);
      FocusMovedTracked(c2, win, ws, id);
      FocusMovedTracked(c3, win, ws, id);
      TrackedTrans(c, c2, FocusMoved(c2, win, ws), id);
      TrackedTrans(c, c3, FocusMoved(c3, win, ws), id);
    }
  }

  lemma EnterTracked(c: Core, win: nat, preserve: bool, id: nat)
    requires win in c.tb.index
    ensures Tracked(c, EnterFullscreen(c, win, preserve), id)
  {
    hide MarkDirty, PinTo, FullscreenMonitor, Tracked;
    var c1 := MarkDirty(Put(c, win, Covering(c.tb.index[win])), win, BORDER);
    MarkTracked(c, win, Covering(c.tb.index[win]), BORDER, id);
    var m := FullscreenMonitor(c, HomeOf(c.tb, win));
    assert win in c1.tb.index && c1.topo == c.topo by {
      MarkKeeps(Put(c, win, Covering(c.tb.index[win])), win, BORDER);
    }
    if m >= 0 {
      PinToTracked(c1, win, m, id);
      TrackedTrans(c, c1, PinTo(c1, win, m), id);
    }
  }

  lemma MarkKeeps(c: Core, win: nat, bits: Dirty)
    ensures MarkDirty(c, win, bits).tb == c.tb && MarkDirty(c, win, bits).topo == c.topo
  {
  }

  lemma LeaveTracked(c: Core, win: nat, id: nat)
    requires win in c.tb.index
    ensures Tracked(c, LeaveFullscreen(c, win), id)
  {
  }

  lemma DoEnterTracked(c: Core, win: nat, preserve: bool, id: nat)
    requires Sane(c) && win in c.tb.index
    ensures Tracked(c, DoEnter(c, win, preserve), id)
  {
    hide Focus, Evaluate, Arrange, EnterFullscreen, Tracked;
    var e := EnterFullscreen(c, win, preserve);
    var c1 := Post(Arrange(e), RaiseDocks);
    EnterTracked(c, win, preserve, id);
    ArrangeTracked(e, id);
    TrackedTrans(c, e, Arrange(e), id);
    Untouched(Arrange(e), c1, id);
    TrackedTrans(c, Arrange(e), c1, id);
    FocusTracked(c1, win, id);
    EvaluateTracked(c1, HomeOf(c.tb, win), id);
    TrackedTrans(c, c1, Focus(c1, win), id);
    TrackedTrans(c, c1, Evaluate(c1, HomeOf(c.tb, win)), id);
  }

  lemma DoLeaveTracked(c: Core, win: nat, id: nat)
    requires Sane(c) && win in c.tb.index
    ensures Tracked(c, DoLeave(c, win), id)
  {
    hide Evaluate, Arrange, LeaveFullscreen, Tracked;
    var l := LeaveFullscreen(c, win);
    var e := Evaluate(Arrange(l), HomeOf(c.tb, win));
    LeaveTracked(c, win, id);
    ArrangeTracked(l, id);
    TrackedTrans(c, l, Arrange(l), id);
    EvaluateTracked(Arrange(l), HomeOf(c.tb, win), id);
    TrackedTrans(c, Arrange(l), e, id);
    Untouched(e, DoLeave(c, win), id);
    TrackedTrans(c, e, DoLeave(c, win), id);
  }

  lemma SameTracked(c: Core, d: Core, id: nat)
    requires SameGeometry(c, d)
    ensures Tracked(c, d, id)
  {
  }

  lemma BorderlessTracked(c: Core, win: nat, flag: bool, id: nat)
    requires Sane(c)
    ensures Tracked(c, DoBorderless(c, win, flag), id)
  {
    hide Evaluate;
    if win in c.tb.index {
      var w0 := c.tb.index[win];
      var w := w0.(props := w0.props.(borderless := flag, promoteToBorderless := false));
      var d := if flag && w.geo.border != 0 && !w.OwnsGeometry()
               then Emit(Put(c, win, WithBorder(w, 0)), UpdateWindow(win)) else Put(c, win, w);
      EvaluateTracked(d, HomeOf(d.tb, win), id);
    }
  }

  lemma RemoveTracked(c: Core, win: nat, id: nat)
    requires Inv(c) && win != id
    ensures Tracked(c, DoRemove(c, win), id)
  {
    hide Evaluate, Drop;
    DropKeeps(c.tb, win);
    var d := c.(tb := Drop(c.tb, win), dirty := c.dirty - {win});
    Untouched(c, d, id);
    EvaluateTracked(d, HomeOf(c.tb, win), id);
  }

  lemma EnsureTracked(c: Core, win: nat, ws: int, id: nat)
    requires Inv(c)
    ensures Tracked(c, DoEnsure(c, win, ws), id) && Tracked(c, DoAssign(c, win, ws), id)
  {
    hide Move, Create;
    if win !in c.tb.index && win != NO_WINDOW {
      CreateKeeps(c.tb, win, ws, ActiveWs(c.topo, c.topo.focused));
    }
  }

  lemma CycleTracked(c: Core, dir: int, id: nat)
    requires Sane(c)
    ensures Tracked(c, DoCycle(c, dir), id)
  {
    hide Focus, Cycled, CurrentFocused, Tracked;
    var ws := CurrentWs(c);
    FocusTracked(c, NO_WINDOW, id);
    if IsWs(c.tb, ws) {
      var c1 := c.(tb := Cycled(c.tb, ws, dir));
      var w := CurrentFocused(c1);
      FocusTracked(c1, if Shown(c1.tb.index, w) then w else NO_WINDOW, id);
      Rewired(c, c.topo, c1.tb, DoCycle(c, dir), id);
    }
  }

  lemma FocusOnTracked(c: Core, t: Topology, id: nat)
    requires Sane(c) && Sane(c.(topo := t))
    ensures Tracked(c, Focus(c.(topo := t), NO_WINDOW), id) && Tracked(c, Reconcile(c.(topo := t)), id)
  {
    hide Focus, Reconcile, Tracked;
    FocusTracked(c.(topo := t), NO_WINDOW, id);
    ReconcileTracked(c.(topo := t), id);
    Rewired(c, t, c.tb, Focus(c.(topo := t), NO_WINDOW), id);
    Rewired(c, t, c.tb, Reconcile(c.(topo := t)), id);
  }

  lemma FocusMonitorTracked(c: Core, m: int, id: nat)
    requires Sane(c)
    ensures Tracked(c, DoFocusMonitor(c, m), id)
  {
    hide Focus, Tracked, Emit, TruncDiv, KeepsWindows, FocusMonitor;
    Untouched(c, c, id);
    FocusMonitorSane(c, m);
    hide Sane;
    if 0 <= m < |c.topo.monitors| {
      FocusOnTracked(c, FocusMonitor(c.topo, m), id);
      var c1 := if m == c.topo.focused then c else Focus(c.(topo := FocusMonitor(c.topo, m)), NO_WINDOW);
      var mon := c.topo.monitors[m];
      WarpTracked(c, c1, Vec(mon.x + TruncDiv(mon.w, 2), mon.y + TruncDiv(mon.h, 2)), id);
    }
  }

  lemma FocusMonitorSane(c: Core, m: int)
    requires Sane(c)
    ensures Sane(c.(topo := FocusMonitor(c.topo, m)))
  {
  }

  lemma WarpTracked(c: Core, d: Core, pos: Vec, id: nat)
    requires Tracked(c, d, id)
    ensures Tracked(c, Emit(d, WarpPointer(pos)), id)
  {
  }

  lemma SwitchLocalTracked(c: Core, li: int, id: nat)
    requires Sane(c)
    ensures Tracked(c, DoSwitchLocal(c, li), id)
  {
    hide Reconcile, SwitchLocal;
    FocusOnTracked(c, SwitchLocal(c.topo, c.topo.focused, li), id);
    Untouched(c, c, id);
  }

  lemma TopologyTracked(c: Core, ms: seq<Monitor>, id: nat)
    requires Sane(c)
    ensures Tracked(c, DoApplyTopology(c, ms), id)
  {
    hide Reconcile, Replug;
    ReplugSized(c.topo, ms, c.settings.aliases, c.settings.compose);
    FocusOnTracked(c, Replug(c.topo, ms, c.settings.aliases, c.settings.compose), id);
  }

  lemma FocusCommandTracked(c: Core, cmd: Command, id: nat)
    requires Sane(c)
    ensures Tracked(c, StepFocus(c, cmd), id)
  {
    hide Focus, DoSwitch, DoCycle, DoSwitchLocal, DoFocusMonitor, DoApplyTopology, MonitorAt, Tracked, KeepsWindows;
    Untouched(c, c, id);
    match cmd
    case CFocusWindow(w) => FocusTracked(c, w, id);
    case CSwitchWorkspace(ws, hint) => SwitchTracked(c, ws, hint, id);
    case CFocusMonitor(m) => FocusMonitorTracked(c, m, id);
    case CFocusMonitorAt(x, y) => FocusOnTracked(c, FocusMonitor(c.topo, MonitorAt(c.topo.monitors, x, y, 0)), id);
    case CFocusNext => CycleTracked(c, 1, id);
    case CFocusPrev => CycleTracked(c, -1, id);
    case CSwitchLocal(li) => SwitchLocalTracked(c, li, id);
    case CApplyTopology(ms) => TopologyTracked(c, ms, id);
    case _ =>
  }

  lemma ToggleTracked(c: Core, f: nat, id: nat)
    requires f in c.tb.index
    ensures Tracked(c, Arrange(ToggledFloating(c, f)), id)
  {
    hide Arrange, ToggledFloating, Tracked;
    SameTracked(c, ToggledFloating(c, f), id);
    ArrangeTracked(ToggledFloating(c, f), id);
    TrackedTrans(c, ToggledFloating(c, f), Arrange(ToggledFloating(c, f)), id);
  }

  /** Arranging after a change of layout parameters or list order. */
  lemma RearrangeTracked(c: Core, d: Core, id: nat)
    requires d.tb.index == c.tb.index && d.dirty == c.dirty
    ensures Tracked(c, Arrange(d), id)
  {
    hide Arrange;
    ArrangeTracked(d, id);
  }

  lemma LayoutTracked(c: Core, cmd: Command, id: nat)
    requires Sane(c)
    ensures Tracked(c, StepLayout(c, cmd), id)
  {
    hide Arrange, Configured, ZoomTable, CanZoom, ReserveAll, CurrentFocused, Tracked, ToggledFloating, KeepsWindows;
    hide Quiet, Sane;
    Untouched(c, c, id);
    if ConfigCommand(cmd) {
      RearrangeTracked(c, Configured(c, cmd), id);
    } else {
      match cmd
      case CReconcileNow => RearrangeTracked(c, c, id);
      case CReserveArea(m, e, px) => Untouched(c, StepLayout(c, cmd), id);
      case CZoom => RearrangeTracked(c, c.(tb := ZoomTable(c.tb, CurrentWs(c))), id);
      case CToggleFocusedFloating =>
        if CurrentFocused(c) in c.tb.index {
          ToggleTracked(c, CurrentFocused(c), id);
        }
      case _ =>
    }
  }

  /** An echo for another window. */
  lemma SyncTracked(c: Core, cmd: Command, id: nat)
    requires Sane(c) && cmd.CSyncFromNotify? && cmd.win != id
    ensures Tracked(c, StepGeometry(c, cmd), id)
  {
    hide Quiet, Sane, SyncFromNotify;
  }

  lemma GeometryCommandTracked(c: Core, cmd: Command, id: nat)
    requires Sane(c) && !(cmd.CSyncFromNotify? && cmd.win == id)
    ensures Tracked(c, StepGeometry(c, cmd), id)
  {
    hide MarkDirty, SetGeometry, SetBorderWidth, ApplyHints, Tracked, Quiet, Sane, SyncFromNotify;
    Untouched(c, c, id);
    if GeometryCommand(cmd) && cmd.win in c.tb.index {
      var w := c.tb.index[cmd.win];
      if cmd.CSetGeometry? {
        SetGeometryTracked(c, cmd.win, cmd.pos, cmd.size, id);
      } else if cmd.CSetPosition? {
        MarkTracked(c, cmd.win, AtPosition(w, cmd.pos), POSITION, id);
      } else if cmd.CSetSize? {
        var fit := if w.props.floating || w.props.borderless then ApplyHints(w, cmd.size) else cmd.size;
        MarkTracked(c, cmd.win, AtSize(w, fit), SIZE, id);
      } else if cmd.CSetBorderWidth? {
        SetBorderTracked(c, cmd.win, cmd.width, id);
      } else {
        SyncTracked(c, cmd, id);
      }
    }
  }

  lemma MoveCommandTracked(c: Core, cmd: Command, id: nat)
    requires Sane(c)
    ensures Tracked(c, StepMove(c, cmd), id)
  {
    hide DoMove, CurrentFocused, Tracked, KeepsWindows;
    Untouched(c, c, id);
    match cmd
    case CMoveWindowToWorkspace(w, ws) => MoveTracked(c, w, ws, id);
    case CMoveWindowToMonitor(w, m) =>
      if 0 <= m < |c.topo.monitors| {
        MoveTracked(c, if w == NO_WINDOW then CurrentFocused(c) else w, c.topo.monitors[m].activeWs, id);
      }
    case CMoveFocusedToWorkspace(ws) => MoveTracked(c, CurrentFocused(c), ws, id);
    case _ =>
  }

  lemma WindowCommandTracked(c: Core, cmd: Command, id: nat)
    requires Inv(c) && cmd != CRemoveWindow(id)
    ensures Tracked(c, StepWindow(c, cmd), id)
  {
    hide DoEnter, DoLeave, DoEnsure, DoAssign, DoMetadata, DoBorderless, DoRemove, Tracked, Inv;
    InvSane(c);
    Untouched(c, c, id);
    match cmd
    case CSetFullscreen(w, enabled, preserve) =>
      if w in c.tb.index {
        DoEnterTracked(c, w, preserve, id);
        DoLeaveTracked(c, w, id);
      }
    case CEnsureWindow(w, ws) => EnsureTracked(c, w, ws, id);
    case CAssignWorkspace(w, ws) => EnsureTracked(c, w, ws, id);
    case CSetMetadata(w, kind, h, parent) => SameTracked(c, DoMetadata(c, w, kind, h, parent), id);
    case CSetBorderless(w, flag) => BorderlessTracked(c, w, flag, id);
    case CRemoveWindow(w) => RemoveTracked(c, w, id);
    case _ =>
  }

  lemma SettingsTracked(c: Core, next: Settings, id: nat)
    requires Inv(c) && Applicable(c, next)
    ensures Tracked(c, DoApplySettings(c, next), id)
  {
    hide Resize, Reload;
    SettingsKeepWindows(c, next);
  }

  /** Every command of the reducer tracks its changes to position and size; only the removal of the window and an echo from the server do not. */
  lemma StepTracked(c: Core, cmd: Command, id: nat)
    requires Inv(c) && Allowed(c, cmd)
    requires cmd != CRemoveWindow(id) && !(cmd.CSyncFromNotify? && cmd.win == id)
    ensures Tracked(c, Step(c, cmd), id)
  {
    hide StepVisibility, StepFlag, StepGeometry, StepLayout, StepFocus, StepMove, StepWindow, DoApplySettings, Inv;
    hide Tracked;
    InvSane(c);
    if VisibilityCommand(cmd) {
      SameTracked(c, StepVisibility(c, cmd), id);
    } else if FlagCommand(cmd) {
      SameTracked(c, StepFlag(c, cmd), id);
    } else if GeometryCommand(cmd) {
      GeometryCommandTracked(c, cmd, id);
    } else if LayoutCommand(cmd) {
      LayoutTracked(c, cmd, id);
    } else if cmd.CApplySettings? {
      SettingsTracked(c, cmd.next, id);
    } else if FocusCommand(cmd) {
      FocusCommandTracked(c, cmd, id);
    } else if MoveCommand(cmd) {
      MoveCommandTracked(c, cmd, id);
    } else {
      WindowCommandTracked(c, cmd, id);
    }
  }
}
