/**
 * The core as the source runs it (core/src/core/core_dispatch.cpp): an object whose methods change windows,
 * effects and dirty bits in place, with the source's loops. Every command does what Reducer.Step says.
 */
module Dispatch {
  import opened Seqs
  import opened Config
  import opened Monitors
  import opened Topology
  import opened TopologyProofs
  import opened Windows
  import opened WindowProofs
  import opened Flush
  import opened Reducer
  import opened ReducerProofs
  import opened Manager
  import R = Reducer
  import W = Windows
  import Tile

  class Core {
    const wsman: WorkspaceManager
    var modes: seq<bool>
    var settings: Settings
    var layout: string
    var masterFactor: real
    var nmaster: Tile.Positive
    var effects: seq<Effect>
    var events: seq<Event>
    var dirty: map<nat, Dirty>

    ghost function State(): R.Core
      reads this, wsman
    {
      R.Core(wsman.Topo(), wsman.Tab(), modes, settings, layout, masterFactor, nmaster, effects, events, dirty)
    }

    ghost predicate Valid()
      reads this, wsman
    {
      Inv(State())
    }

    constructor (settings: Settings)
      ensures fresh(wsman) && modes == [] && this.settings == settings
      ensures layout == "tile" && masterFactor == 0.55 && nmaster == 1
      ensures effects == [] && events == [] && dirty == map[]
      ensures wsman.Topo() == Topology([], [], [], [], [], map[], map[], 0) && wsman.Tab() == Table([], [], map[], map[])
    {
      wsman := new WorkspaceManager();
      modes, this.settings := [], settings;
      layout, masterFactor, nmaster := "tile", 0.55, 1;
      effects, events, dirty := [], [], map[];
    }

    // --- Small steps -------------------------------------------------------------------------------

    method EmitEffect(e: Effect)
      modifies this`effects
      ensures State() == Emit(old(State()), e)
    {
      effects := effects + [e];
    }

    method PostEvent(e: Event)
      modifies this`events
      ensures State() == Post(old(State()), e)
    {
      events := events + [e];
    }

    method PutWindow(id: nat, w: Window)
      modifies wsman`windowIndex
      ensures State() == Put(old(State()), id, w)
    {
      wsman.windowIndex := wsman.windowIndex[id := w];
    }

    method MarkWindowDirty(id: nat, bits: Dirty)
      modifies this`effects, this`dirty
      ensures State() == MarkDirty(old(State()), id, bits)
    {
      var pending := if id in dirty then dirty[id] else CLEAN;
      dirty := dirty[id := pending.Or(bits)];
      EmitEffect(UpdateWindow(id));
    }

    /** take_window_flush: what is pending for a window is handed out once. */
    method TakeWindowFlush(id: nat) returns (flush: Option<Dirty>)
      modifies this`dirty
      ensures State() == old(State()).(dirty := old(dirty) - {id})
      ensures flush == if DirtyOf(old(State()), id).Any() then Some(DirtyOf(old(State()), id)) else None
    {
      if id !in dirty {
        assert dirty - {id} == dirty;
        return None;
      }
      var out := dirty[id];
      dirty := dirty - {id};
      if !out.Any() {
        return None;
      }
      flush := Some(out);
    }

    // --- Visibility --------------------------------------------------------------------------------

    /** One window of sync_workspace_visibility. */
    method SyncWindow(id: nat, shown: bool)
      modifies this`effects, wsman`windowIndex
      ensures State() == SyncOne(old(State()), id, shown)
    {
      if id !in wsman.windowIndex {
        return;
      }
      var w := wsman.windowIndex[id];
      if !shown {
        var wasVisible := !w.vis.hiddenByWs && !w.vis.hiddenExplicitly && w.vis.mapped;
        PutWindow(id, w.(vis := w.vis.(hiddenByWs := true)));
        if wasVisible {
          EmitEffect(UnmapWindow(id));
        }
        return;
      }
      if w.vis.hiddenByWs {
        w := w.(vis := w.vis.(hiddenByWs := false));
        if !w.vis.hiddenExplicitly {
          w := w.(vis := w.vis.(mapped := true));
        }
        PutWindow(id, w);
        if !w.vis.hiddenExplicitly {
          EmitEffect(MapWindow(id));
        }
      }
    }

    /** Which workspaces are shown by a monitor. */
    method ShownSpaces(n: nat) returns (visible: seq<bool>)
      ensures |visible| == n && forall ws :: 0 <= ws < n ==> (visible[ws] <==> IsShown(wsman.monitors, ws))
    {
      visible := seq(n, _ => false);
      var ms := wsman.monitors;
      for m := 0 to |ms|
        invariant |visible| == n
        invariant forall ws :: 0 <= ws < n ==> (visible[ws] <==> IsShown(ms[..m], ws))
      {
        var active := ms[m].activeWs;
        ShownSnoc(ms, m);
        if active >= 0 && active < n {
          visible := visible[active := true];
        }
      }
      assert ms[..|ms|] == ms;
    }

    method SyncSpace(list: seq<nat>, shown: bool)
      modifies this`effects, wsman`windowIndex
      ensures State() == SyncList(old(State()), list, shown, |list|)
    {
      hide SyncOne;
      ghost var c := State();
      for k := 0 to |list|
        invariant State() == SyncList(c, list, shown, k)
      {
        SyncWindow(list[k], shown);
      }
    }

    method SyncWorkspaceVisibility()
      modifies this`effects, wsman`windowIndex
      ensures State() == SyncVisibility(old(State()))
    {
      hide SyncList;
      ghost var c := State();
      var n := |wsman.lists|;
      var visible := ShownSpaces(n);
      for i := 0 to n
        invariant State() == SyncUpTo(c, i) && |wsman.lists| == n
      {
        SyncSpace(wsman.lists[i], visible[i]);
      }
    }

    // --- Fullscreen --------------------------------------------------------------------------------

    method PinFullscreenToMonitor(id: nat, ws: int)
      requires id in wsman.windowIndex
      modifies this`effects, this`dirty, wsman`windowIndex
      ensures State() == Pin(old(State()), id, ws)
    {
      var m := wsman.MonitorOfWs(ws);
      if m < 0 {
        return;
      }
      if !wsman.windowIndex[id].OwnsGeometry() {
        PinWindowTo(id, m);
      }
    }

    method PinWindowTo(id: nat, m: int)
      requires id in wsman.windowIndex && 0 <= m < |wsman.monitors|
      modifies this`effects, this`dirty, wsman`windowIndex
      ensures State() == PinTo(old(State()), id, m)
    {
      var p := wsman.monitors[m].Physical();
      PutWindow(id, At(wsman.windowIndex[id], Vec(p.x, p.y), Vec(p.w, p.h)));
      MarkWindowDirty(id, GEOMETRY);
    }

    method AnyCovers(list: seq<nat>) returns (any: bool)
      ensures any <==> exists i | 0 <= i < |list| :: CoversVisibly(wsman.windowIndex, list[i])
    {
      any := false;
      for i := 0 to |list|
        invariant forall j :: 0 <= j < i ==> !CoversVisibly(wsman.windowIndex, list[j])
      {
        if CoversVisibly(wsman.windowIndex, list[i]) {
          return true;
        }
      }
    }

    method LowerOtherWindows(list: seq<nat>, except: nat)
      modifies this`effects
      ensures State() == LowerOthers(old(State()), list, except, |list|)
    {
      ghost var c := State();
      for k := 0 to |list|
        invariant State() == LowerOthers(c, list, except, k)
      {
        if CoversVisibly(wsman.windowIndex, list[k]) && list[k] != except {
          EmitEffect(LowerWindow(list[k]));
        }
      }
    }

    method EvaluateWorkspaceFullscreen(ws: int)
      requires Sane(State())
      modifies this`modes, this`effects, this`events, this`dirty, wsman`windowIndex
      ensures State() == Evaluate(old(State()), ws)
    {
      hide Pin, LowerOthers, Focused, Quiet;
      if ws < 0 || ws >= |modes| {
        return;
      }
      var list := wsman.lists[ws];
      var hasFs := AnyCovers(list);
      if hasFs && !modes[ws] {
        modes := modes[ws := true];
        PostEvent(RaiseDocks);
      } else if !hasFs && modes[ws] {
        modes := modes[ws := false];
        PostEvent(RaiseDocks);
      }
      if !modes[ws] {
        return;
      }
      var f := wsman.FocusedIn(list, wsman.cursors[ws]);
      if !Shown(wsman.windowIndex, f) {
        return;
      }
      if wsman.windowIndex[f].Covers() {
        PinFullscreenToMonitor(f, ws);
        EmitEffect(RaiseWindow(f));
      } else {
        EmitEffect(RaiseWindow(f));
        LowerOtherWindows(list, f);
      }
    }

    // --- Focus -------------------------------------------------------------------------------------

    /** emit_focus_changed for a window. */
    method EmitFocusChanged(id: nat)
      requires Sane(State()) && id in wsman.windowWorkspace && IsWs(wsman.Tab(), wsman.windowWorkspace[id])
      modifies this`modes, this`effects, this`events, this`dirty, wsman`windowIndex
      ensures State() == Evaluate(Post(old(State()), FocusChanged(id)), old(wsman.windowWorkspace)[id])
    {
      PostEvent(FocusChanged(id));
      EvaluateWorkspaceFullscreen(wsman.windowWorkspace[id]);
    }

    /** The window that `focus` is to settle on, before it is checked: the current workspace's for NO_WINDOW. */
    method FocusCandidate(window: nat) returns (id: nat)
      requires Valid()
      ensures id == FocusTarget(State(), window)
    {
      hide Focused;
      id := window;
      if id == NO_WINDOW {
        var ws := wsman.CurrentWorkspace();
        if 0 <= ws < |wsman.lists| {
          var cand := wsman.FocusedIn(wsman.lists[ws], wsman.cursors[ws]);
          if Shown(wsman.windowIndex, cand) {
            id := cand;
          }
        }
      }
      if id != NO_WINDOW {
        if !Shown(wsman.windowIndex, id) {
          id := NO_WINDOW;
        }
      }
    }

    /** focus: the one place where focus effects and events come from. */
    method FocusIntent(window: nat)
      requires Valid()
      modifies this`modes, this`effects, this`events, this`dirty
      modifies wsman`cursors, wsman`windowIndex, wsman`monitors, wsman`monitorActiveLocal, wsman`focusedMonitor
      ensures State() == Focus(old(State()), window) && Valid()
    {
      hide PointAt, FocusWorkspace, Evaluate, FocusTarget, Quiet;
      FocusInv(State(), window);
      var id := FocusCandidate(window);
      ghost var c := State();
      if id != NO_WINDOW {
        FocusTargetLive(c, window);
        FocusStateInv(c, id);
        var ok := wsman.FocusWindow(id);
        if !ok {
          id := NO_WINDOW;
        }
        assert ok && State() == FocusState(c, id);
        InvSane(State());
      }
      if id != NO_WINDOW {
        EmitEffect(Effect.FocusWindow(id));
        EmitFocusChanged(id);
      } else {
        EmitEffect(FocusRoot);
        PostEvent(FocusChanged(NO_WINDOW));
      }
    }

    // --- Arranging ---------------------------------------------------------------------------------

    method SetWindowGeometry(id: nat, pos: Vec, size: Vec)
      modifies this`effects, this`dirty, wsman`windowIndex
      ensures State() == SetGeometry(old(State()), id, pos, size)
    {
      hide ApplyHints;
      if id !in wsman.windowIndex {
        return;
      }
      var w := wsman.windowIndex[id];
      PutWindow(id, At(w, pos, if w.props.floating then ApplyHints(w, size) else size));
      MarkWindowDirty(id, GEOMETRY);
    }

    method SetWindowBorderWidth(id: nat, width: int)
      modifies this`effects, this`dirty, wsman`windowIndex
      ensures State() == SetBorderWidth(old(State()), id, width)
    {
      if id !in wsman.windowIndex {
        return;
      }
      PutWindow(id, WithBorder(wsman.windowIndex[id], width));
      MarkWindowDirty(id, BORDER);
    }

    /** The placement sink. */
    method Place(p: Tile.Placement)
      modifies this`effects, this`dirty, wsman`windowIndex
      ensures State() == PlaceOne(old(State()), p)
    {
      hide SetGeometry, SetBorderWidth, Quiet;
      var size := p.size;
      if p.win in wsman.windowIndex {
        var w := wsman.windowIndex[p.win];
        if w.props.sizeLocked && w.geo.size.x > 0 && w.geo.size.y > 0 {
          size := w.geo.size;
        }
      }
      SetWindowGeometry(p.win, p.pos, size);
      SetWindowBorderWidth(p.win, p.border);
      EmitEffect(UpdateWindow(p.win));
    }

    method TiledWindows(list: seq<nat>) returns (tiled: seq<nat>)
      ensures tiled == LaidOutIds(wsman.windowIndex, list)
    {
      tiled := [];
      for i := 0 to |list|
        invariant tiled == LaidOutIds(wsman.windowIndex, list[..i])
      {
        PrefixSnoc(list, i);
        if LaidOut(wsman.windowIndex, list[i]) {
          tiled := tiled + [list[i]];
        }
      }
      assert list[..|list|] == list;
    }

    /** The floating windows of a workspace get the theme's border. */
    method BorderFloating(list: seq<nat>)
      modifies this`effects, this`dirty, wsman`windowIndex
      ensures State() == BorderUpTo(old(State()), list, |list|)
    {
      hide SetBorderWidth, Quiet;
      ghost var c := State();
      for k := 0 to |list|
        invariant State() == BorderUpTo(c, list, k)
      {
        ghost var d := State();
        var id := list[k];
        var b := ToUint32(settings.borderThickness);
        if Shown(wsman.windowIndex, id) && wsman.windowIndex[id].props.floating && !wsman.windowIndex[id].Covers() {
          if wsman.windowIndex[id].geo.border != b {
            SetWindowBorderWidth(id, b);
            EmitEffect(UpdateWindow(id));
          }
        }
        assert State() == BorderOne(d, id);
      }
    }

    method PlaceAll(ps: seq<Tile.Placement>)
      modifies this`effects, this`dirty, wsman`windowIndex
      ensures State() == PlaceUpTo(old(State()), ps, |ps|)
    {
      hide PlaceOne, Quiet;
      ghost var c := State();
      for k := 0 to |ps|
        invariant State() == PlaceUpTo(c, ps, k)
      {
        Place(ps[k]);
      }
    }

    /** One turn of the loop of arrange. */
    method ArrangeOn(mon: Monitor)
      modifies this`effects, this`dirty, wsman`windowIndex
      ensures State() == ArrangeMonitor(old(State()), mon)
    {
      hide PlaceUpTo, BorderUpTo, LaidOutIds, Tile.Placements, Tile.Monocle;
      if mon.activeWs < 0 || mon.activeWs >= |wsman.lists| {
        return;
      }
      var list := wsman.lists[mon.activeWs];
      var tiled := TiledWindows(list);
      var placements := [];
      if layout == "tile" {
        placements := Tile.Tile(tiled, mon, Tile.Config(masterFactor, nmaster, settings.gap, settings.borderThickness));
      } else if layout == "monocle" {
        placements := Tile.Monocle(tiled, mon, settings.borderThickness);
      }
      PlaceAll(placements);
      BorderFloating(list);
    }

    method ArrangeAll()
      modifies this`effects, this`dirty, wsman`windowIndex
      ensures State() == Arrange(old(State()))
    {
      hide ArrangeMonitor;
      if !KnownLayout(layout) {
        return;
      }
      ghost var c := State();
      for m := 0 to |wsman.monitors|
        invariant State() == ArrangeUpTo(c, m)
      {
        ArrangeOn(wsman.monitors[m]);
      }
    }

    /** sync_workspace_visibility and arrange, as after every change of what is shown. */
    method RefreshAll()
      requires Valid()
      modifies this`effects, this`dirty, wsman`windowIndex
      ensures State() == Refresh(old(State())) && Valid()
    {
      hide SyncVisibility, Arrange;
      RefreshInv(State());
      SyncWorkspaceVisibility();
      ArrangeAll();
    }

    method ReconcileAll()
      requires Valid()
      modifies this`modes, this`effects, this`events, this`dirty
      modifies wsman`cursors, wsman`windowIndex, wsman`monitors, wsman`monitorActiveLocal, wsman`focusedMonitor
      ensures State() == Reconcile(old(State())) && Valid()
    {
      hide Refresh, Focus;
      RefreshAll();
      FocusIntent(NO_WINDOW);
    }

    // --- Commands that move focus or workspaces ----------------------------------------------------

    method SwitchWorkspace(ws: int, hint: Option<int>)
      requires Valid()
      modifies this`modes, this`effects, this`events, this`dirty, wsman
      ensures State() == DoSwitch(old(State()), ws, hint) && Valid()
    {
      hide Refresh, Focus, Evaluate, SwitchTo, Inv, Quiet;
      ghost var c := State();
      InvSane(c);
      SwitchInv(c, ws, hint);
      var target := if hint.Some? then hint.value else wsman.MonitorOfWs(ws);
      if target < 0 {
        target := wsman.focusedMonitor;
      }
      var ok := wsman.SwitchTo(ws, settings.aliases, if hint.Some? then hint.value else NONE, settings.compose);
      if !ok {
        SwitchRefused(c, ws, if hint.Some? then hint.value else NONE);
        return;
      }
      SwitchedInv(c, ws, if hint.Some? then hint.value else NONE);
      RefreshAll();
      if target == wsman.focusedMonitor {
        FocusIntent(NO_WINDOW);
      }
      InvSane(State());
      EvaluateWorkspaceFullscreen(ws);
      PostEvent(WorkspaceSwitched(ws));
    }

    method MoveWindowToWorkspace(id: nat, ws: int)
      requires Valid()
      modifies this`modes, this`effects, this`events, this`dirty, wsman
      ensures State() == DoMove(old(State()), id, ws) && Valid()
    {
      hide Refresh, Focus, Evaluate, Move, Pin, Inv, Quiet;
      ghost var c := State();
      InvSane(c);
      MoveInv(c, id, ws);
      if ws < 0 || ws >= |modes| {
        return;
      }
      if id !in wsman.windowIndex {
        return;
      }
      IndexedHome(c, id);
      var src := wsman.WorkspaceOfWindow(id);
      var covers := wsman.windowIndex[id].Covers();
      wsman.MoveWindowTo(ws, id);
      PostEvent(WindowAssigned(id, ws));
      PlaceInv(c, id, ws);
      RefreshAll();
      ghost var c2 := State();
      RefreshKeepsIndex(Post(c.(tb := W.Move(c.tb, id, ws)), WindowAssigned(id, ws)));
      if covers {
        Repins(id, src, ws);
      }
      var follow := IsShown(wsman.monitors, ws) && Shown(wsman.windowIndex, id) && !wsman.windowIndex[id].props.suppressFocusOnce;
      FocusIntent(if follow then id else NO_WINDOW);
    }

    /** A moved fullscreen window is pinned again, and both workspaces restack. */
    method Repins(id: nat, src: int, ws: int)
      requires Valid() && id in wsman.windowIndex
      modifies this`modes, this`effects, this`events, this`dirty, wsman`windowIndex
      ensures State() == Repin(old(State()), id, src, ws) && Valid()
    {
      hide Pin, Evaluate, Inv, Quiet;
      ghost var c := State();
      InvSane(c);
      QuietInv(c, Repin(c, id, src, ws));
      PinFullscreenToMonitor(id, ws);
      QuietInv(c, State());
      InvSane(State());
      EvaluateWorkspaceFullscreen(src);
      QuietInv(Pin(c, id, ws), State());
      InvSane(State());
      EvaluateWorkspaceFullscreen(ws);
    }

    method FocusMonitorNumber(m: int)
      requires Valid()
      modifies this`modes, this`effects, this`events, this`dirty, wsman
      ensures State() == DoFocusMonitor(old(State()), m) && Valid()
    {
      hide Focus, Inv;
      InvSane(State());
      FocusMonitorInv(State(), m);
      if m < 0 || m >= |wsman.monitors| || wsman.monitors[m].activeWs < 0 {
        return;
      }
      var mon := wsman.monitors[m];
      if m != wsman.focusedMonitor {
        wsman.SetFocusedMonitor(m);
        FocusIntent(NO_WINDOW);
      }
      ghost var c := State();
      EmitEffect(WarpPointer(Vec(mon.x + TruncDiv(mon.w, 2), mon.y + TruncDiv(mon.h, 2))));
      PendingInv(c, State());
    }

    method FocusMonitorAtPoint(x: int, y: int)
      requires Valid()
      modifies this`modes, this`effects, this`events, this`dirty, wsman
      ensures State() == DoFocusMonitorAt(old(State()), x, y) && Valid()
    {
      hide Focus, Inv, MonitorAt;
      InvSane(State());
      ghost var c := State();
      var changed := wsman.FocusMonitorAtPoint(x, y);
      if !changed {
        return;
      }
      FocusMonitorInv(c, MonitorAt(c.topo.monitors, x, y, 0));
      FocusIntent(NO_WINDOW);
    }

    /** One step of the cursor, forwards or backwards. */
    method CycleCursor(ws: int, forward: bool)
      requires IsWs(wsman.Tab(), ws)
      modifies wsman`cursors
      ensures State() == old(State()).(tb := Cycled(old(State()).tb, ws, if forward then 1 else -1))
    {
      if forward {
        wsman.FocusNextIn(ws);
      } else {
        wsman.FocusPrevIn(ws);
      }
    }

    /** FocusNextWindow and FocusPrevWindow. */
    method CycleFocus(forward: bool)
      requires Valid()
      modifies this`modes, this`effects, this`events, this`dirty, wsman
      ensures State() == DoCycle(old(State()), if forward then 1 else -1) && Valid()
    {
      hide Focus, Inv, Focused, Cycled;
      ghost var c := State();
      InvSane(c);
      CycleInv(c, if forward then 1 else -1);
      var ws := wsman.CurrentWorkspace();
      if ws < 0 || ws >= |wsman.lists| {
        FocusIntent(NO_WINDOW);
        return;
      }
      CycledInv(c, ws, if forward then 1 else -1);
      CycleCursor(ws, forward);
      var w := wsman.FocusedIn(wsman.lists[ws], wsman.cursors[ws]);
      FocusIntent(if Shown(wsman.windowIndex, w) then w else NO_WINDOW);
    }

    method SwitchWorkspaceLocalIndex(li: int)
      requires Valid()
      modifies this`modes, this`effects, this`events, this`dirty, wsman
      ensures State() == DoSwitchLocal(old(State()), li) && Valid()
    {
      hide Reconcile, Inv, SwitchLocal;
      ghost var c := State();
      InvSane(c);
      SwitchLocalInv(c, li);
      var m := wsman.focusedMonitor;
      var ok := wsman.SwitchLocalIndex(m, li);
      if !ok {
        SwitchLocalRefused(c.topo, m, li);
        return;
      }
      SwitchedLocallyInv(c, li);
      var ws := wsman.ActiveWsOfMonitor(m);
      ReconcileAll();
      if ws >= 0 {
        PostEvent(WorkspaceSwitched(ws));
      }
    }

    method ApplyMonitorTopology(ms: seq<Monitor>)
      requires Valid()
      modifies this`modes, this`effects, this`events, this`dirty, wsman
      ensures State() == DoApplyTopology(old(State()), ms) && Valid()
    {
      hide Reconcile, Inv, Assign, SetMonitors;
      ghost var c := State();
      InvSane(c);
      ReplugSized(c.topo, ms, settings.aliases, settings.compose);
      wsman.SetMonitors(ms);
      wsman.AssignWorkspaces(settings.aliases, settings.compose);
      ReplugInv(c, ms);
      ReconcileAll();
    }

    // --- Commands about one window -----------------------------------------------------------------

    /** The monitor whose surface a fullscreen window takes. */
    method MonitorForFullscreen(ws: int) returns (m: int)
      ensures m == FullscreenMonitor(State(), ws)
    {
      m := 0;
      while m < |wsman.monitors|
        invariant 0 <= m <= |wsman.monitors|
        invariant FirstShowing(wsman.monitors, ws, m) == FirstShowing(wsman.monitors, ws, 0)
      {
        if wsman.monitors[m].activeWs == ws {
          return;
        }
        m := m + 1;
      }
      var owner := wsman.MonitorOfWs(ws);
      m := if owner >= 0 then owner else if wsman.monitors != [] then 0 else NONE;
    }

    /** SetWindowFullscreen with `enabled`. */
    method Enter(id: nat, preserve: bool)
      requires Valid() && id in wsman.windowIndex
      modifies this`modes, this`effects, this`events, this`dirty, wsman
      ensures State() == DoEnter(old(State()), id, preserve) && Valid()
    {
      hide Arrange, Focus, Evaluate, Inv, Quiet, FullscreenMonitor, Silent, SameLists;
      ghost var c := State();
      InvSane(c);
      EnterInv(c, id, preserve);
      var ws := wsman.WorkspaceOfWindow(id);
      EnterState(id, preserve);
      SameListsInv(c, EnterFullscreen(c, id, preserve));
      ghost var e := State();
      ArrangeAll();
      QuietInv(e, State());
      ghost var a := State();
      PostEvent(RaiseDocks);
      PendingInv(a, State());
      InvSane(State());
      if ws >= 0 && IsShown(wsman.monitors, ws) && Shown(wsman.windowIndex, id) {
        FocusIntent(id);
      } else {
        EvaluateWorkspaceFullscreen(ws);
      }
    }

    /** The state change of enabling fullscreen. */
    method EnterState(id: nat, preserve: bool)
      requires id in wsman.windowIndex
      modifies this`effects, this`dirty, wsman`windowIndex
      ensures State() == EnterFullscreen(old(State()), id, preserve) && SameLists(old(State()), State())
    {
      hide Quiet, Silent, SameLists, FullscreenMonitor, PinTo;
      ghost var c := State();
      var ws := wsman.WorkspaceOfWindow(id);
      var m := MonitorForFullscreen(ws);
      var w := wsman.windowIndex[id];
      if !w.props.fullscreen {
        w := w.(saved := w.geo);
      }
      w := WithBorder(w.(props := w.props.(fullscreen := true)), 0);
      assert w == Covering(c.tb.index[id]);
      PutWindow(id, w);
      MarkWindowDirty(id, BORDER);
      if !preserve && m >= 0 {
        PinWindowTo(id, m);
      }
      EnterSameLists(c, id, preserve);
    }

    /** SetWindowFullscreen without `enabled`, for a fullscreen window. */
    method LeaveCovered(id: nat)
      requires Valid() && id in wsman.windowIndex
      modifies this`modes, this`effects, this`events, this`dirty, wsman
      ensures State() == DoLeave(old(State()), id) && Valid()
    {
      hide Arrange, Evaluate, Inv, Quiet, Silent, SameLists;
      ghost var c := State();
      InvSane(c);
      LeaveInv(c, id);
      var ws := wsman.WorkspaceOfWindow(id);
      LeaveState(id);
      EnterSameLists(c, id, true);
      SameListsInv(c, State());
      ghost var l := State();
      ArrangeAll();
      QuietInv(l, State());
      InvSane(State());
      EvaluateWorkspaceFullscreen(ws);
      PostEvent(RaiseDocks);
    }

    method LeaveState(id: nat)
      requires id in wsman.windowIndex
      modifies this`effects, this`dirty, wsman`windowIndex
      ensures State() == LeaveFullscreen(old(State()), id)
    {
      hide Silent;
      var w := wsman.windowIndex[id];
      w := WithBorder(w.(props := w.props.(fullscreen := false)), w.saved.border);
      if w.props.floating {
        w := At(w, w.saved.pos, w.saved.size);
      }
      PutWindow(id, w);
      MarkWindowDirty(id, BORDER);
      if w.props.floating {
        MarkWindowDirty(id, GEOMETRY);
      }
    }

    method SetWindowFullscreen(id: nat, enabled: bool, preserve: bool)
      requires Valid()
      modifies this`modes, this`effects, this`events, this`dirty, wsman
      ensures State() == DoFullscreen(old(State()), id, enabled, preserve) && Valid()
    {
      hide DoEnter, DoLeave, Inv;
      InvSane(State());
      if id !in wsman.windowIndex {
        return;
      }
      if enabled {
        Enter(id, preserve);
        return;
      }
      if !wsman.windowIndex[id].props.fullscreen {
        return;
      }
      LeaveCovered(id);
    }

    method EnsureWindow(id: nat, ws: int)
      requires Valid()
      modifies wsman`lists, wsman`cursors, wsman`windowIndex, wsman`windowWorkspace
      ensures State() == DoEnsure(old(State()), id, ws) && Valid()
    {
      hide Create, Move, Inv;
      ghost var c := State();
      InvSane(c);
      EnsureInv(c, id, ws);
      if id == NO_WINDOW {
        return;
      }
      if id !in wsman.windowIndex {
        wsman.CreateWindow(id, ws);
        return;
      }
      if ws >= 0 && ws < |modes| {
        wsman.MoveWindowTo(ws, id);
      } else {
        MoveNowhere(wsman.Tab(), id, ws);
      }
    }

    method AssignWindowWorkspace(id: nat, ws: int)
      requires Valid()
      modifies this`events, wsman`lists, wsman`cursors, wsman`windowIndex, wsman`windowWorkspace
      ensures State() == DoAssign(old(State()), id, ws) && Valid()
    {
      hide Move, Inv, KeepsWindows;
      InvSane(State());
      EnsureInv(State(), id, ws);
      if id !in wsman.windowIndex {
        return;
      }
      IndexedHome(State(), id);
      wsman.MoveWindowTo(ws, id);
      PostEvent(WindowAssigned(id, ws));
    }

    method SetWindowBorderless(id: nat, flag: bool)
      requires Valid()
      modifies this`modes, this`effects, this`events, this`dirty, wsman`windowIndex
      ensures State() == DoBorderless(old(State()), id, flag) && Valid()
    {
      hide Evaluate, Quiet;
      BorderlessInv(State(), id, flag);
      if id !in wsman.windowIndex {
        return;
      }
      var w := wsman.windowIndex[id];
      w := w.(props := w.props.(borderless := flag, promoteToBorderless := false));
      var bare := flag && w.geo.border != 0 && !w.OwnsGeometry();
      if bare {
        w := WithBorder(w, 0);
      }
      PutWindow(id, w);
      if bare {
        EmitEffect(UpdateWindow(id));
      }
      EvaluateWorkspaceFullscreen(wsman.WorkspaceOfWindow(id));
    }

    method RemoveWindow(id: nat)
      requires Valid()
      modifies this`modes, this`effects, this`events, this`dirty, wsman
      ensures State() == DoRemove(old(State()), id) && Valid()
    {
      hide Evaluate, Drop, Quiet;
      ghost var c := State();
      RemoveInv(c, id);
      var ws := wsman.WorkspaceOfWindow(id);
      wsman.RemoveWindowFromAll(id);
      dirty := dirty - {id};
      DropKeeps(c.tb, id);
      EvaluateWorkspaceFullscreen(ws);
    }

    method SetWindowFloating(id: nat, flag: bool)
      requires id in wsman.windowIndex
      modifies wsman`windowIndex
      ensures State() == PutProps(old(State()), id, old(wsman.windowIndex)[id].props.(floating := flag))
    {
      var w := wsman.windowIndex[id];
      PutWindow(id, w.(props := w.props.(floating := flag)));
    }

    /** A window that asks for it goes to its parent's workspace and is not focused once. */
    method RouteToParent(id: nat, transientFor: nat)
      requires Valid() && id in wsman.windowIndex
      modifies this`events, wsman`lists, wsman`cursors, wsman`windowIndex, wsman`windowWorkspace
      ensures State() == RouteTransient(old(State()), id, transientFor) && Valid()
      ensures wsman.windowIndex.Keys == old(wsman.windowIndex).Keys
    {
      hide DoAssign, Inv, Silent, SameSaved, SameGeometry, SameVis;
      ghost var c := State();
      InvSane(c);
      RouteInv(c, id, transientFor);
      var parent := if transientFor == NO_WINDOW then NO_WS else wsman.WorkspaceOfWindow(transientFor);
      if parent >= 0 {
        var w := wsman.windowIndex[id];
        PutWindow(id, w.(props := w.props.(suppressFocusOnce := true)));
        PropsInv(c, id, w.props.(suppressFocusOnce := true));
        AssignWindowWorkspace(id, parent);
      }
    }

    method SetWindowMetadata(id: nat, kind: WindowType, h: MapHints, transientFor: nat)
      requires Valid()
      modifies this`events, wsman`lists, wsman`cursors, wsman`windowIndex, wsman`windowWorkspace
      ensures State() == DoMetadata(old(State()), id, kind, h, transientFor) && Valid()
    {
      hide RouteTransient, Inv, Silent, SameSaved, SameGeometry, SameVis;
      ghost var c := State();
      InvSane(c);
      MetadataInv(c, id, kind, h, transientFor);
      if id !in wsman.windowIndex {
        return;
      }
      var w := wsman.windowIndex[id];
      var selfManaged := h.preFullscreen && !h.xembed && h.coversMonitor;
      var wmBorderless := !selfManaged && h.coversMonitor && h.fixedSize;
      var willBeBorderless := selfManaged || wmBorderless;
      var p := w.props.(
        kind := kind, sizeLocked := h.fixedSize, urgent := h.urgent, preservePosition := h.staticGravity,
        hints := h.sizes, selfManaged := selfManaged, promoteToBorderless := willBeBorderless);
      assert p == Classified(w.props, kind, h);
      PutWindow(id, w.(props := p));
      PropsInv(c, id, p);
      RouteToParent(id, transientFor);
      FloatAsNeeded(id, transientFor);
    }

    /** Transient windows, dialogs and their kin, and fixed-size windows with a border float. */
    method FloatAsNeeded(id: nat, transientFor: nat)
      requires id in wsman.windowIndex
      modifies wsman`windowIndex
      ensures
        var p := old(wsman.windowIndex)[id].props;
        State() == if Floats(p, transientFor) then PutProps(old(State()), id, p.(floating := true)) else old(State())
    {
      hide Silent, SameSaved, SameGeometry, SameVis;
      var w := wsman.windowIndex[id];
      if w.props.floating {
        AlreadyFloating(State(), id);
        return;
      }
      if transientFor != NO_WINDOW {
        SetWindowFloating(id, true);
        return;
      }
      if w.props.kind.Dialog? || w.props.kind.Modal? || w.props.kind.Utility? || w.props.kind.Splash? {
        SetWindowFloating(id, true);
        return;
      }
      if !w.props.borderless && w.props.sizeLocked && !w.props.promoteToBorderless {
        SetWindowFloating(id, true);
      }
    }

    // --- Commands by group -------------------------------------------------------------------------

    method DispatchVisibility(cmd: Command)
      requires Sane(State()) && VisibilityCommand(cmd)
      modifies this`effects, wsman`windowIndex
      ensures State() == StepVisibility(old(State()), cmd)
    {
      hide SameLists, SameSaved, SameGeometry, Sane;
      if cmd.win !in wsman.windowIndex {
        return;
      }
      var id, w := cmd.win, wsman.windowIndex[cmd.win];
      match cmd
      case CSetMapped(_, flag) => PutWindow(id, w.(vis := w.vis.(mapped := flag)));
      case CSetHiddenByWorkspace(_, flag) => PutWindow(id, w.(vis := w.vis.(hiddenByWs := flag)));
      case CMapWindow(_) =>
        if !w.vis.mapped {
          var v := w.(vis := w.vis.(mapped := true));
          PutWindow(id, v);
          if v.Visible() {
            EmitEffect(Effect.MapWindow(id));
          }
        }
      case CUnmapWindow(_) =>
        if w.vis.mapped {
          PutWindow(id, w.(vis := w.vis.(mapped := false)));
          EmitEffect(Effect.UnmapWindow(id));
        }
      case CHideWindow(_) =>
        var wasVisible := w.Visible();
        PutWindow(id, w.(vis := w.vis.(hiddenExplicitly := true)));
        if wasVisible {
          EmitEffect(Effect.UnmapWindow(id));
        }
    }

    method DispatchFlag(cmd: Command)
      requires Sane(State()) && FlagCommand(cmd)
      modifies this`effects, wsman`windowIndex
      ensures State() == StepFlag(old(State()), cmd)
    {
      hide Silent, SameSaved, SameGeometry, SameVis, Sane;
      if cmd.win !in wsman.windowIndex {
        return;
      }
      var id, w := cmd.win, wsman.windowIndex[cmd.win];
      match cmd
      case CSetSuppressFocusOnce(_, flag) => PutWindow(id, w.(props := w.props.(suppressFocusOnce := flag)));
      case CSetFloating(_, flag) => SetWindowFloating(id, flag);
      case CToggleFloating(_) => SetWindowFloating(id, !w.props.floating);
      case CCloseWindow(_) => EmitEffect(CloseWindow(id));
    }

    /** SyncWindowFromConfigureNotify: an echo does not overwrite what is still to be sent. */
    method SyncFromServer(id: nat, pos: Vec, size: Vec, width: int)
      requires id in wsman.windowIndex
      modifies wsman`windowIndex
      ensures
        var c := old(State());
        State() == Put(c, id, SyncFromNotify(c.tb.index[id], DirtyOf(c, id), pos, size, width))
    {
      var w := wsman.windowIndex[id];
      var d := if id in dirty then dirty[id] else CLEAN;
      var x, y := w.geo.pos.x, w.geo.pos.y;
      var sx, sy, b := w.geo.size.x, w.geo.size.y, w.geo.border;
      if !d.x {
        x := pos.x;
      }
      if !d.y {
        y := pos.y;
      }
      if !d.w {
        sx := size.x;
      }
      if !d.h {
        sy := size.y;
      }
      if !d.border {
        b := width;
      }
      PutWindow(id, w.(geo := Geometry(Vec(x, y), Vec(sx, sy), b)));
    }

    method DispatchGeometry(cmd: Command)
      requires Sane(State()) && GeometryCommand(cmd)
      modifies this`effects, this`dirty, wsman`windowIndex
      ensures State() == StepGeometry(old(State()), cmd)
    {
      hide Quiet, ApplyHints, SetGeometry, SetBorderWidth, SyncFromNotify, Sane;
      if cmd.win !in wsman.windowIndex {
        return;
      }
      var id, w := cmd.win, wsman.windowIndex[cmd.win];
      match cmd
      case CSetGeometry(_, pos, size) => SetWindowGeometry(id, pos, size);
      case CSetPosition(_, pos) =>
        PutWindow(id, AtPosition(w, pos));
        MarkWindowDirty(id, POSITION);
      case CSetSize(_, size) =>
        PutWindow(id, AtSize(w, if w.props.floating || w.props.borderless then ApplyHints(w, size) else size));
        MarkWindowDirty(id, SIZE);
      case CSetBorderWidth(_, width) => SetWindowBorderWidth(id, width);
      case CSyncFromNotify(_, pos, size, width) => SyncFromServer(id, pos, size, width);
    }

    /** One monitor of ReserveMonitorArea. */
    method ReserveOn(m: nat, e: Edge, px: int)
      requires m < |wsman.monitors|
      modifies wsman`monitors
      ensures wsman.monitors == old(wsman.monitors)[m := Reserve(old(wsman.monitors)[m], e, px)]
    {
      var delta := px - wsman.monitors[m].Inset(e);
      if delta != 0 {
        wsman.AdjustMonitorInset(m, e, delta);
      }
    }

    method ReserveMonitorArea(m: int, e: Edge, px: int)
      requires Sane(State())
      modifies wsman`monitors
      ensures State() == DoReserve(old(State()), m, e, px)
    {
      hide Reserve, Sane, KeepsWindows;
      ghost var ms := wsman.monitors;
      if m < 0 {
        for i := 0 to |wsman.monitors|
          invariant |wsman.monitors| == |ms|
          invariant forall j :: 0 <= j < |ms| ==> wsman.monitors[j] == if j < i then Reserve(ms[j], e, px) else ms[j]
        {
          ReserveOn(i, e, px);
        }
      } else if m < |wsman.monitors| {
        ReserveOn(m, e, px);
      }
    }

    method Zoom()
      requires Valid()
      modifies this`effects, this`dirty, wsman`lists, wsman`cursors, wsman`windowIndex
      ensures Sane(old(State())) && State() == DoZoom(old(State()))
    {
      hide Arrange, ZoomTable, Quiet, KeepsWindows, TiledPositions, Inv, Focused;
      InvSane(State());
      var ws := wsman.CurrentWorkspace();
      if ws < 0 || ws >= |wsman.lists| {
        return;
      }
      var ok := wsman.ZoomFocused(ws);
      if !ok {
        ZoomRefused(old(State()), ws);
        return;
      }
      ArrangeAll();
    }

    /** Commands that choose the layout or set its parameters. */
    method ConfigureLayout(cmd: Command)
      requires Sane(State()) && ConfigCommand(cmd)
      modifies this`layout, this`masterFactor, this`nmaster, this`effects, this`dirty, wsman`windowIndex
      ensures State() == DoConfigure(old(State()), cmd)
    {
      hide Arrange, Quiet, Sane, KeepsWindows, Clamp, KnownLayout;
      match cmd
      case CSetLayout(name) =>
        if !KnownLayout(name) {
          return;
        }
        layout := name;
        ArrangeAll();
      case CSetMasterFactor(f) =>
        masterFactor := Clamp(f);
        ArrangeAll();
      case CAdjustMasterFactor(d) =>
        masterFactor := Clamp(masterFactor + d);
        ArrangeAll();
      case CIncMaster(count) =>
        nmaster := Max(1, nmaster + count);
        ArrangeAll();
    }

    method DispatchLayout(cmd: Command)
      requires Valid() && LayoutCommand(cmd)
      modifies this`layout, this`masterFactor, this`nmaster, this`effects, this`dirty, wsman
      ensures State() == StepLayout(old(State()), cmd)
    {
      hide State, Arrange, Quiet, Inv, DoConfigure, DoReserve, DoZoom, DoToggleFocused, KeepsWindows;
      InvSane(State());
      hide Sane;
      if ConfigCommand(cmd) {
        ConfigureLayout(cmd);
        return;
      }
      match cmd
      case CReconcileNow => ArrangeAll();
      case CReserveArea(m, e, px) => ReserveMonitorArea(m, e, px);
      case CZoom => Zoom();
      case CToggleFocusedFloating => ToggleFocused();
    }

    method ToggleFocused()
      requires Valid()
      modifies this`effects, this`dirty, wsman`windowIndex
      ensures Sane(old(State())) && State() == DoToggleFocused(old(State()))
    {
      hide Arrange, Quiet, Inv, CurrentFocused, Silent, SameSaved, SameGeometry, SameVis;
      InvSane(State());
      var f := FocusedWindow();
      if f in wsman.windowIndex {
        SetWindowFloating(f, !wsman.windowIndex[f].props.floating);
        ArrangeAll();
      }
    }

    /** The focused window of the current workspace; NO_WINDOW if there is none. */
    method FocusedWindow() returns (f: nat)
      requires Sane(State())
      ensures f == CurrentFocused(State())
    {
      hide Focused;
      f := NO_WINDOW;
      var ws := wsman.CurrentWorkspace();
      if 0 <= ws < |wsman.lists| {
        f := wsman.FocusedIn(wsman.lists[ws], wsman.cursors[ws]);
      }
    }

    method FocusKnownWindow(id: nat)
      requires Valid()
      modifies this`modes, this`effects, this`events, this`dirty, wsman
      ensures Sane(old(State())) && State() == DoFocusWindow(old(State()), id) && Valid()
    {
      hide Inv, Focus;
      InvSane(State());
      if id in wsman.windowIndex {
        FocusIntent(id);
      }
    }

    method DispatchFocus(cmd: Command)
      requires Valid() && FocusCommand(cmd)
      modifies this`modes, this`effects, this`events, this`dirty, wsman
      ensures State() == StepFocus(old(State()), cmd)
    {
      hide State, Inv, DoFocusWindow, DoSwitch, DoCycle, DoSwitchLocal, DoApplyTopology, DoFocusMonitor;
      hide DoFocusMonitorAt, KeepsWindows;
      InvSane(State());
      hide Sane;
      if cmd.CSwitchWorkspace? {
        SwitchWorkspace(cmd.ws, cmd.hint);
      } else if cmd.CSwitchLocal? {
        SwitchWorkspaceLocalIndex(cmd.li);
      } else if cmd.CApplyTopology? {
        ApplyMonitorTopology(cmd.monitors);
      } else if cmd.CFocusWindow? {
        FocusKnownWindow(cmd.win);
      } else if cmd.CFocusMonitor? {
        FocusMonitorNumber(cmd.monitor);
      } else if cmd.CFocusMonitorAt? {
        FocusMonitorAtPoint(cmd.x, cmd.y);
      } else {
        CycleFocus(cmd.CFocusNext?);
      }
    }

    method MoveWindowToMonitor(id: nat, m: int)
      requires Valid()
      modifies this`modes, this`effects, this`events, this`dirty, wsman
      ensures Sane(old(State())) && State() == DoMoveToMonitor(old(State()), id, m) && Valid()
    {
      hide Inv, DoMove, CurrentFocused, KeepsWindows;
      InvSane(State());
      if m < 0 || m >= |wsman.monitors| || wsman.monitors[m].activeWs < 0 {
        return;
      }
      var win := id;
      if win == NO_WINDOW {
        win := FocusedWindow();
      }
      MoveWindowToWorkspace(win, wsman.monitors[m].activeWs);
    }

    method DispatchMove(cmd: Command)
      requires Valid() && MoveCommand(cmd)
      modifies this`modes, this`effects, this`events, this`dirty, wsman
      ensures State() == StepMove(old(State()), cmd)
    {
      hide State, Inv, DoMove, DoMoveToMonitor, KeepsWindows, CurrentFocused;
      InvSane(State());
      if cmd.CMoveWindowToWorkspace? {
        MoveWindowToWorkspace(cmd.win, cmd.ws);
      } else if cmd.CMoveWindowToMonitor? {
        MoveWindowToMonitor(cmd.win, cmd.monitor);
      } else {
        var win := FocusedWindow();
        MoveWindowToWorkspace(win, cmd.ws);
      }
    }

    method DispatchWindow(cmd: Command)
      requires Valid()
      requires cmd.CSetFullscreen? || cmd.CEnsureWindow? || cmd.CAssignWorkspace? || cmd.CSetMetadata? ||
               cmd.CSetBorderless? || cmd.CRemoveWindow?
      modifies this`modes, this`effects, this`events, this`dirty, wsman
      ensures State() == StepWindow(old(State()), cmd)
    {
      hide State, Inv, DoFullscreen, DoEnsure, DoAssign, DoMetadata, DoBorderless, DoRemove;
      hide KeepsWindows, SameSaved, SameGeometry, SameVis;
      InvSane(State());
      if cmd.CSetFullscreen? {
        SetWindowFullscreen(cmd.win, cmd.enabled, cmd.preserveGeometry);
      } else if cmd.CEnsureWindow? {
        EnsureWindow(cmd.win, cmd.ws);
      } else if cmd.CAssignWorkspace? {
        AssignWindowWorkspace(cmd.win, cmd.ws);
      } else if cmd.CSetMetadata? {
        SetWindowMetadata(cmd.win, cmd.kind, cmd.hints, cmd.transientFor);
      } else if cmd.CSetBorderless? {
        SetWindowBorderless(cmd.win, cmd.flag);
      } else {
        RemoveWindow(cmd.win);
      }
    }

    /** apply_settings on a running window manager. */
    method ApplySettings(next: Settings)
      requires Valid() && Applicable(State(), next)
      modifies this`settings, this`modes, wsman
      ensures State() == DoApplySettings(old(State()), next)
    {
      hide Resize, Assign, UpdateDefs, PoolsMatch, TableOk;
      InvPools(State());
      var n := |next.defs|;
      settings := next;
      modes := if n <= |modes| then modes[..n] else modes + seq(n - |modes|, _ => false);
      wsman.UpdateWorkspaceDefs(next.defs);
      wsman.AssignWorkspaces(next.aliases, next.compose);
    }

    /** dispatch, and the other entry points: the object does what the reducer says. */
    method Dispatch(cmd: Command)
      requires Valid() && Allowed(State(), cmd)
      modifies this, wsman
      ensures Sane(old(State())) && State() == Step(old(State()), cmd) && Valid()
    {
      hide State, StepVisibility, StepFlag, StepGeometry, StepLayout, StepFocus, StepMove, StepWindow;
      hide DoApplySettings, Inv;
      ghost var c := State();
      InvSane(c);
      StepInv(c, cmd);
      if VisibilityCommand(cmd) {
        DispatchVisibility(cmd);
      } else if FlagCommand(cmd) {
        DispatchFlag(cmd);
      } else if GeometryCommand(cmd) {
        DispatchGeometry(cmd);
      } else if LayoutCommand(cmd) {
        DispatchLayout(cmd);
      } else if cmd.CApplySettings? {
        ApplySettings(cmd.next);
      } else if FocusCommand(cmd) {
        DispatchFocus(cmd);
      } else if MoveCommand(cmd) {
        DispatchMove(cmd);
      } else {
        DispatchWindow(cmd);
      }
    }

    /** A run of commands, one after the other. */
    method DispatchAll(cmds: seq<Command>)
      requires Valid() && forall i :: 0 <= i < |cmds| ==> (cmds[i].CApplySettings? ==> cmds[i].next.defs != [])
      modifies this, wsman
      ensures Runs(old(State()), cmds, State()) && Valid()
    {
      hide Step, Inv;
      ghost var c := State();
      NoCommands(c);
      assert cmds[..0] == [];
      for i := 0 to |cmds|
        invariant Valid() && Runs(c, cmds[..i], State())
      {
        ghost var d := State();
        Dispatch(cmds[i]);
        PrefixSnoc(cmds, i);
        RunsSnoc(c, cmds[..i], d, cmds[i]);
      }
      assert cmds[..|cmds|] == cmds;
    }

    /** init, right after construction: monitors first, then the workspaces of the configuration. */
    method Start(ms: seq<Monitor>)
      requires wsman.Topo() == Topology([], [], [], [], [], map[], map[], 0)
      requires layout == "tile" && masterFactor == 0.55 && nmaster == 1
      requires effects == [] && events == [] && dirty == map[]
      modifies this`modes, wsman
      ensures State() == Init(settings, ms) && Valid()
    {
      hide Assign, SetMonitors, InitAliases, InitTopology, Inv;
      if ms != [] {
        wsman.SetMonitors(ms);
      }
      wsman.InitFromDefs(settings);
      modes := seq(|wsman.lists|, _ => false);
      StartedBlank(settings, ms);
      InitInv(settings, ms);
    }
  }

  /** The invariant does not look at what is pending for the backend. */
  lemma PendingInv(c: R.Core, d: R.Core)
    requires Inv(c) && d == c.(effects := d.effects, events := d.events, dirty := d.dirty)
    ensures Inv(d)
  {
  }

  lemma CycledInv(c: R.Core, ws: int, dir: int)
    requires Inv(c) && IsWs(c.tb, ws)
    ensures Inv(c.(tb := Cycled(c.tb, ws, dir)))
  {
    hide Cycled;
    CycledKeeps(c.tb, ws, dir);
  }

  lemma SwitchLocalRefused(t: Topology, m: int, li: int)
    requires Sized(t) && !(0 <= m < |t.pools| && 0 <= li < |t.pools[m]|)
    ensures SwitchLocal(t, m, li) == t
  {
  }

  lemma SwitchedLocallyInv(c: R.Core, li: int)
    requires Inv(c)
    ensures Sized(c.topo) && Inv(c.(topo := SwitchLocal(c.topo, c.topo.focused, li)))
  {
    var m := c.topo.focused;
    if 0 <= m < |c.topo.pools| && 0 <= li < |c.topo.pools[m]| {
      ShowKeeps(c.topo, m, li);
      SameOwnersHonour(c.topo, SwitchLocal(c.topo, m, li), c.settings.aliases);
    }
  }

  lemma ReplugInv(c: R.Core, ms: seq<Monitor>)
    requires Inv(c)
    ensures Inv(c.(topo := Replug(c.topo, ms, c.settings.aliases, c.settings.compose)))
  {
    hide Replug;
    ReplugSettles(c.topo, ms, c.settings.aliases, c.settings.compose);
    ReplugSized(c.topo, ms, c.settings.aliases, c.settings.compose);
  }

  /** Entering and leaving fullscreen change no list. */
  lemma EnterSameLists(c: R.Core, id: nat, preserve: bool)
    requires id in c.tb.index
    ensures SameLists(c, EnterFullscreen(c, id, preserve)) && SameLists(c, LeaveFullscreen(c, id))
  {
    hide EnterFullscreen, LeaveFullscreen;
  }

  lemma MoveNowhere(tb: Table, id: nat, ws: int)
    requires id in tb.index && |tb.lists| == |tb.cursors| && !IsWs(tb, ws)
    ensures W.Move(tb, id, ws) == tb
  {
  }

  lemma AlreadyFloating(c: R.Core, id: nat)
    requires id in c.tb.index && c.tb.index[id].props.floating
    ensures PutProps(c, id, c.tb.index[id].props.(floating := true)) == c
  {
    hide Silent, SameSaved, SameGeometry, SameVis;
    assert c.tb.index[id].(props := c.tb.index[id].props.(floating := true)) == c.tb.index[id];
    assert c.tb.index[id := c.tb.index[id]] == c.tb.index;
  }

  lemma InvPools(c: R.Core)
    requires Inv(c)
    ensures Sane(c) && TableOk(c.tb) && PoolsMatch(c.topo.owner, c.topo.pools)
  {
  }

  lemma ZoomRefused(c: R.Core, ws: int)
    requires IsWs(c.tb, ws)
    requires
      var f := Focused(c.tb.index, c.tb.lists[ws], c.tb.cursors[ws]);
      !(Tiled(c.tb.index, f) && f in c.tb.lists[ws] && |TiledPositions(c.tb.index, c.tb.lists[ws], |c.tb.lists[ws]|)| >= 2)
    ensures ZoomTable(c.tb, ws) == c.tb
  {
    hide Focused, TiledPositions;
  }

  lemma StartedBlank(settings: Settings, ms: seq<Monitor>)
    ensures
      var empty := Topology([], [], [], [], [], map[], map[], 0);
      var t := if ms != [] then SetMonitors(empty, ms) else empty;
      InitTopology(settings, ms) ==
        Assign(BlankTopology(InitAliases(settings), t.monitors, t.focused), settings.aliases, settings.compose)
    ensures
      var n := |InitAliases(settings)|;
      Init(settings, ms).tb == BlankTable(n) && Init(settings, ms).modes == seq(n, _ => false)
  {
    hide Assign, SetMonitors;
    var empty := Topology([], [], [], [], [], map[], map[], 0);
    var t := if ms != [] then SetMonitors(empty, ms) else empty;
    var aliases := InitAliases(settings);
    assert t.(wsAlias := aliases, owner := seq(|aliases|, _ => NONE),
              pools := seq(|t.monitors|, _ => []), activeLocal := seq(|t.monitors|, _ => NONE),
              parkedPools := map[], parkedActive := map[]) == BlankTopology(aliases, t.monitors, t.focused);
  }

  lemma SwitchRefused(c: R.Core, ws: int, h: int)
    requires Sane(c) && !(0 <= ws < |c.topo.wsAlias| && c.topo.monitors != [])
    ensures SwitchTo(c.topo, ws, h, c.settings.aliases, c.settings.compose) == c.topo
  {
  }

  lemma IndexedHome(c: R.Core, id: nat)
    requires Inv(c) && id in c.tb.index
    ensures id != NO_WINDOW && id in c.tb.home
  {
  }

  lemma RefreshKeepsIndex(c: R.Core)
    requires Sane(c)
    ensures Refresh(c).tb.index.Keys == c.tb.index.Keys
  {
  }

  lemma FocusTargetLive(c: R.Core, id: nat)
    ensures FocusTarget(c, id) != NO_WINDOW ==> FocusTarget(c, id) in c.tb.index
  {
  }

  lemma ShownSnoc(ms: seq<Monitor>, m: nat)
    requires m < |ms|
    ensures forall ws :: IsShown(ms[..m + 1], ws) <==> IsShown(ms[..m], ws) || ms[m].activeWs == ws
  {
    var front, all := ms[..m], ms[..m + 1];
    assert forall j :: 0 <= j < m ==> all[j] == front[j];
    assert all[m] == ms[m];
    forall ws
      ensures IsShown(all, ws) <==> IsShown(front, ws) || ms[m].activeWs == ws
    {
      if IsShown(front, ws) {
        var j :| 0 <= j < |front| && front[j].activeWs == ws;
        assert all[j].activeWs == ws;
      }
      if IsShown(all, ws) {
        var j :| 0 <= j < |all| && all[j].activeWs == ws;
        assert j < m ==> front[j].activeWs == ws;
      }
    }
  }
}
