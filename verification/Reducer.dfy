/**
 * The core reducer (core/src/core/core_dispatch.cpp): what every command does to the window manager's
 * state, and which backend effects and events it emits. The class in Dispatch.dfy executes the same
 * commands with the source's loops.
 */
module Reducer {
  import opened Seqs
  import opened Config
  import opened Monitors
  import opened Topology
  import opened Windows
  import opened Flush
  import Cycle = FocusCycle
  import Tile

  datatype Effect =
    | MapWindow(win: nat) | UnmapWindow(win: nat) | FocusWindow(win: nat) | FocusRoot
    | UpdateWindow(win: nat) | WarpPointer(pos: Vec) | RaiseWindow(win: nat) | LowerWindow(win: nat)
    | CloseWindow(win: nat)

  datatype Event =
    | FocusChanged(win: nat) | RaiseDocks | WindowAssigned(win: nat, ws: int) | WorkspaceSwitched(ws: int)

  datatype Settings = Settings(
    aliases: seq<MonitorAlias>, compose: MonitorCompose, defs: seq<WorkspaceDef>,
    borderThickness: int, gap: int)

  datatype Core = Core(
    topo: Topology, tb: Table,
    modes: seq<bool>,                  // per workspace: fullscreen mode
    settings: Settings, layout: string, masterFactor: real, nmaster: Tile.Positive,
    effects: seq<Effect>, events: seq<Event>, dirty: map<nat, Dirty>)

  /** What the backend reports about a window when it is mapped. */
  datatype MapHints = MapHints(
    fixedSize: bool, urgent: bool, staticGravity: bool, coversMonitor: bool, preFullscreen: bool, xembed: bool,
    sizes: Hints)

  datatype Option<T> = None | Some(value: T)

  datatype Command =
    | CFocusWindow(win: nat)
    | CSwitchWorkspace(ws: int, hint: Option<int>)
    | CMoveWindowToWorkspace(win: nat, ws: int)
    | CMapWindow(win: nat)
    | CUnmapWindow(win: nat)
    | CSetFullscreen(win: nat, enabled: bool, preserveGeometry: bool)
    | CEnsureWindow(win: nat, ws: int)
    | CAssignWorkspace(win: nat, ws: int)
    | CSetMetadata(win: nat, kind: WindowType, hints: MapHints, transientFor: nat)
    | CSetMapped(win: nat, flag: bool)
    | CSetHiddenByWorkspace(win: nat, flag: bool)
    | CSetSuppressFocusOnce(win: nat, flag: bool)
    | CSetFloating(win: nat, flag: bool)
    | CSetBorderless(win: nat, flag: bool)
    | CHideWindow(win: nat)
    | CApplyTopology(monitors: seq<Monitor>)
    | CReserveArea(monitor: int, edge: Edge, px: int)
    | CSetLayout(name: string)
    | CSetMasterFactor(factor: real)
    | CFocusMonitor(monitor: int)
    | CMoveWindowToMonitor(win: nat, monitor: int)
    | CReconcileNow
    | CRemoveWindow(win: nat)
    | CSetGeometry(win: nat, pos: Vec, size: Vec)
    | CSetPosition(win: nat, pos: Vec)
    | CSetSize(win: nat, size: Vec)
    | CSetBorderWidth(win: nat, width: int)
    | CSyncFromNotify(win: nat, pos: Vec, size: Vec, width: int)
    | CCloseWindow(win: nat)
    | CToggleFloating(win: nat)
    | CMoveFocusedToWorkspace(ws: int)
    | CFocusNext
    | CFocusPrev
    | CToggleFocusedFloating
    | CSwitchLocal(li: int)
    | CAdjustMasterFactor(delta: real)
    | CIncMaster(count: int)
    | CZoom
    // not commands, but the other entry points of Core
    | CFocusMonitorAt(x: int, y: int)
    | CApplySettings(next: Settings)

  /** Array sizes agree; everything a step needs to be defined. */
  predicate Sane(c: Core) {
    && Sized(c.topo) && |c.tb.lists| == |c.tb.cursors| == |c.modes| == |c.topo.wsAlias|
    && c.tb.index.Keys == c.tb.home.Keys
  }

  /** Array sizes still agree, and the same windows are live. */
  predicate KeepsWindows(c: Core, d: Core) { Sane(d) && d.tb.index.Keys == c.tb.index.Keys }

  /** Only windows, effects, events and dirty bits may differ. */
  predicate SameLists(c: Core, d: Core) {
    && d.topo == c.topo && d.settings == c.settings && d.modes == c.modes
    && d.tb.lists == c.tb.lists && d.tb.cursors == c.tb.cursors && d.tb.home == c.tb.home
    && d.tb.index.Keys == c.tb.index.Keys
  }

  // --- What a quiet step may change --------------------------------------------------------------

  /** Only position, size and border differ. */
  predicate SameFlags(w: Window, v: Window) { v.vis == w.vis && v.saved == w.saved && v.props == w.props }

  predicate QuietEffect(e: Effect) { e.UpdateWindow? || e.RaiseWindow? || e.LowerWindow? }

  ghost predicate Appends<T>(a: seq<T>, b: seq<T>, ok: T -> bool) {
    a <= b && forall i :: |a| <= i < |b| ==> ok(b[i])
  }

  ghost predicate SameWindows(a: Index, b: Index) {
    a.Keys == b.Keys && forall id :: id in a ==> SameFlags(a[id], b[id])
  }

  /**
   * A quiet step: assignment, focus and visibility stay; only geometry, dirty bits and fullscreen modes
   * change, and the effects are at most redraw and stacking requests.
   */
  ghost predicate Quiet(c: Core, d: Core) {
    && d.topo == c.topo && d.settings == c.settings
    && d.layout == c.layout && d.masterFactor == c.masterFactor && d.nmaster == c.nmaster
    && d.tb.lists == c.tb.lists && d.tb.cursors == c.tb.cursors && d.tb.home == c.tb.home
    && |d.modes| == |c.modes|
    && SameWindows(c.tb.index, d.tb.index)
    && Appends(c.effects, d.effects, (e: Effect) => QuietEffect(e))
    && Appends(c.events, d.events, (e: Event) => e.RaiseDocks?)
  }

  /** Who is fullscreen, and what was saved for them, is the same. */
  predicate SameSaved(a: Index, b: Index) {
    a.Keys == b.Keys &&
    forall id :: id in a ==> b[id].props.fullscreen == a[id].props.fullscreen && b[id].saved == a[id].saved
  }

  /** Every window's geometry, and what is pending for it, is the same. */
  predicate SameGeometry(c: Core, d: Core) {
    d.dirty == c.dirty && d.tb.index.Keys == c.tb.index.Keys &&
    forall id :: id in c.tb.index ==> d.tb.index[id].geo == c.tb.index[id].geo
  }

  /** Every window's visibility is the same. */
  predicate SameVis(a: Index, b: Index) {
    a.Keys == b.Keys && forall id :: id in a ==> b[id].vis == a[id].vis
  }

  predicate NoMapping(e: Effect) { !e.MapWindow? && !e.UnmapWindow? }

  /** A step that leaves visibility, lists and assignment alone. */
  ghost predicate Silent(c: Core, d: Core) {
    && SameLists(c, d) && d.layout == c.layout && d.masterFactor == c.masterFactor && d.nmaster == c.nmaster
    && (forall id :: id in c.tb.index ==> d.tb.index[id].vis == c.tb.index[id].vis)
    && Appends(c.effects, d.effects, (e: Effect) => NoMapping(e))
  }

  lemma QuietIsSilent(a: Core, b: Core, c: Core)
    requires Silent(a, b) && Quiet(b, c) && c.modes == b.modes
    ensures Silent(a, c)
  {
  }

  lemma QuietTrans(a: Core, b: Core, c: Core)
    requires Quiet(a, b) && Quiet(b, c)
    ensures Quiet(a, c)
  {
  }

  // --- Atoms of state change ---------------------------------------------------------------------

  function Put(c: Core, id: nat, w: Window): Core { c.(tb := Update(c.tb, id, w)) }

  function Emit(c: Core, e: Effect): Core { c.(effects := c.effects + [e]) }

  function Post(c: Core, e: Event): Core { c.(events := c.events + [e]) }

  function DirtyOf(c: Core, id: nat): Dirty { if id in c.dirty then c.dirty[id] else CLEAN }

  function MarkDirty(c: Core, id: nat, bits: Dirty): Core {
    Emit(c.(dirty := c.dirty[id := DirtyOf(c, id).Or(bits)]), UpdateWindow(id))
  }

  function HintAxis(req: int, min: int, max: int, inc: int, base: int): int {
    var a := if min > 0 then Max(req, min) else req;
    var b := if max > 0 then Min(a, max) else a;
    if inc > 1 then
      var from := if base > 0 then base else if min > 0 then min else 0;
      var snapped := from + TruncDiv(b - from, inc) * inc;
      if min > 0 then Max(snapped, min) else snapped
    else b
  }

  /** apply_size_hints: clamp to the client's limits, then snap to its resize increments. */
  function ApplyHints(w: Window, req: Vec): Vec {
    var h := w.props.hints;
    Vec(HintAxis(req.x, h.sizeMin.x, h.sizeMax.x, h.sizeInc.x, h.sizeBase.x),
        HintAxis(req.y, h.sizeMin.y, h.sizeMax.y, h.sizeInc.y, h.sizeBase.y))
  }

  function AtPosition(w: Window, pos: Vec): Window { w.(geo := w.geo.(pos := pos)) }

  function AtSize(w: Window, size: Vec): Window { w.(geo := w.geo.(size := size)) }

  function At(w: Window, pos: Vec, size: Vec): Window { w.(geo := w.geo.(pos := pos, size := size)) }

  function WithBorder(w: Window, width: int): Window { w.(geo := w.geo.(border := width)) }

  function SetGeometry(c: Core, id: nat, pos: Vec, size: Vec): (r: Core)
    ensures Quiet(c, r)
  {
    if id !in c.tb.index then c
    else
      var w := c.tb.index[id];
      MarkDirty(Put(c, id, At(w, pos, if w.props.floating then ApplyHints(w, size) else size)), id, GEOMETRY)
  }

  function SetBorderWidth(c: Core, id: nat, width: int): (r: Core)
    ensures Quiet(c, r)
  {
    if id !in c.tb.index then c
    else MarkDirty(Put(c, id, WithBorder(c.tb.index[id], width)), id, BORDER)
  }

  // --- Workspace visibility ----------------------------------------------------------------------

  predicate IsShown(ms: seq<Monitor>, ws: int) {
    exists m | 0 <= m < |ms| :: ms[m].activeWs == ws
  }

  /** One window of sync_workspace_visibility, on a workspace that is shown or not. */
  function SyncOne(c: Core, id: nat, shown: bool): (r: Core)
    ensures Synced(c, r)
  {
    if id !in c.tb.index then c
    else
      var w := c.tb.index[id];
      if !shown then
        var c1 := Put(c, id, w.(vis := w.vis.(hiddenByWs := true)));
        if w.Visible() then Emit(c1, UnmapWindow(id)) else c1
      else if w.vis.hiddenByWs then
        if w.vis.hiddenExplicitly then Put(c, id, w.(vis := w.vis.(hiddenByWs := false)))
        else Emit(Put(c, id, w.(vis := Visibility(true, false, false))), MapWindow(id))
      else c
  }

  /** Only visibility flags differ, and only map and unmap effects were added. */
  ghost predicate Synced(c: Core, d: Core) {
    && d == c.(tb := c.tb.(index := d.tb.index), effects := d.effects)
    && d.tb.index.Keys == c.tb.index.Keys
    && (forall id :: id in c.tb.index ==>
          d.tb.index[id] == c.tb.index[id].(vis := d.tb.index[id].vis) &&
          d.tb.index[id].vis.hiddenExplicitly == c.tb.index[id].vis.hiddenExplicitly)
  }

  lemma SyncedTrans(a: Core, b: Core, c: Core)
    requires Synced(a, b) && Synced(b, c)
    ensures Synced(a, c)
  {
  }

  function SyncList(c: Core, list: seq<nat>, shown: bool, k: nat): (r: Core)
    requires k <= |list|
    ensures Synced(c, r)
  {
    if k == 0 then c
    else
      var d := SyncList(c, list, shown, k - 1);
      SyncedTrans(c, d, SyncOne(d, list[k - 1], shown));
      SyncOne(d, list[k - 1], shown)
  }

  function SyncUpTo(c: Core, k: nat): (r: Core)
    requires k <= |c.tb.lists|
    ensures Synced(c, r)
  {
    if k == 0 then c
    else
      var list := c.tb.lists[k - 1];
      var d := SyncUpTo(c, k - 1);
      SyncedTrans(c, d, SyncList(d, list, IsShown(c.topo.monitors, k - 1), |list|));
      SyncList(d, list, IsShown(c.topo.monitors, k - 1), |list|)
  }

  /** sync_workspace_visibility. */
  function SyncVisibility(c: Core): (r: Core)
    ensures Synced(c, r)
  {
    SyncUpTo(c, |c.tb.lists|)
  }

  // --- Fullscreen --------------------------------------------------------------------------------

  /** Window `id` takes the whole surface of monitor `m`. */
  function PinTo(c: Core, id: nat, m: int): (r: Core)
    requires 0 <= m < |c.topo.monitors| && id in c.tb.index
    ensures Quiet(c, r) && r.modes == c.modes
  {
    var p := c.topo.monitors[m].Physical();
    MarkDirty(Put(c, id, At(c.tb.index[id], Vec(p.x, p.y), Vec(p.w, p.h))), id, GEOMETRY)
  }

  /** pin_fullscreen_to_monitor. */
  function Pin(c: Core, id: nat, ws: int): (r: Core)
    ensures Quiet(c, r)
  {
    var m := MonitorOf(c.topo, ws);
    if m < 0 || id !in c.tb.index || c.tb.index[id].OwnsGeometry() then c else PinTo(c, id, m)
  }

  predicate CoversVisibly(index: Index, id: nat) { Shown(index, id) && index[id].Covers() }

  function LowerOthers(c: Core, list: seq<nat>, except: nat, k: nat): (r: Core)
    requires k <= |list|
    ensures Quiet(c, r)
  {
    if k == 0 then c
    else
      var d := LowerOthers(c, list, except, k - 1);
      if CoversVisibly(c.tb.index, list[k - 1]) && list[k - 1] != except then Emit(d, LowerWindow(list[k - 1])) else d
  }

  function EvaluateMode(c: Core, ws: nat): (r: Core)
    requires ws < |c.modes| == |c.tb.lists|
    ensures Quiet(c, r)
  {
    var fs := exists i | 0 <= i < |c.tb.lists[ws]| :: CoversVisibly(c.tb.index, c.tb.lists[ws][i]);
    if fs == c.modes[ws] then c else Post(c.(modes := c.modes[ws := fs]), RaiseDocks)
  }

  /** Stacking in fullscreen mode: raise the focused window; if it does not cover the screen, lower those that do. */
  function Restack(c: Core, ws: nat, f: nat): (r: Core)
    requires ws < |c.tb.lists| && f in c.tb.index
    ensures Quiet(c, r)
  {
    if c.tb.index[f].Covers() then Emit(Pin(c, f, ws), RaiseWindow(f))
    else
      var c1 := Emit(c, RaiseWindow(f));
      var c2 := LowerOthers(c1, c.tb.lists[ws], f, |c.tb.lists[ws]|);
      QuietTrans(c, c1, c2);
      c2
  }

  /** evaluate_workspace_fullscreen. */
  function Evaluate(c: Core, ws: int): (r: Core)
    requires Sane(c)
    ensures Quiet(c, r)
  {
    if !(0 <= ws < |c.modes|) then c
    else
      var c1 := EvaluateMode(c, ws);
      var f := Focused(c1.tb.index, c1.tb.lists[ws], c1.tb.cursors[ws]);
      if !c1.modes[ws] || !Shown(c1.tb.index, f) then c1
      else
        QuietTrans(c, c1, Restack(c1, ws, f));
        Restack(c1, ws, f)
  }

  // --- Focus -------------------------------------------------------------------------------------

  function FirstShownWs(t: Topology, n: nat, m: nat): int
    requires m <= |t.monitors|
    decreases |t.monitors| - m
  {
    if m == |t.monitors| then 0
    else if 0 <= ActiveWs(t, m) < n then ActiveWs(t, m)
    else FirstShownWs(t, n, m + 1)
  }

  /** WorkspaceManager::current as a workspace number; -1 when there are no workspaces. */
  function CurrentWs(c: Core): int {
    var n := |c.tb.lists|;
    if n == 0 then NO_WS
    else if 0 <= ActiveWs(c.topo, c.topo.focused) < n then ActiveWs(c.topo, c.topo.focused)
    else FirstShownWs(c.topo, n, 0)
  }

  function FocusedOn(c: Core, ws: int): nat {
    if IsWs(c.tb, ws) then Focused(c.tb.index, c.tb.lists[ws], c.tb.cursors[ws]) else NO_WINDOW
  }

  function CurrentFocused(c: Core): nat { FocusedOn(c, CurrentWs(c)) }

  /** get_focus_state: focused monitor -> active workspace -> focused window. */
  function DerivedFocus(c: Core): nat { FocusedOn(c, ActiveWs(c.topo, c.topo.focused)) }

  /** The window Core::focus settles on, or NO_WINDOW for the root window. */
  function FocusTarget(c: Core, id: nat): nat {
    var pick := if id == NO_WINDOW then CurrentFocused(c) else id;
    if Shown(c.tb.index, pick) then pick else NO_WINDOW
  }

  /** The state half of Core::focus on a visible window: cursor, monitor and active workspace follow it. */
  function FocusState(c: Core, id: nat): Core
    requires Sane(c) && id in c.tb.index && IsWs(c.tb, c.tb.home[id])
  {
    c.(tb := PointAt(c.tb, id), topo := FocusWorkspace(c.topo, c.tb.home[id]))
  }

  function Focus(c: Core, id: nat): (r: Core)
    requires Sane(c)
    ensures KeepsWindows(c, r)
  {
    var w := FocusTarget(c, id);
    if w != NO_WINDOW && IsWs(c.tb, c.tb.home[w]) && w in c.tb.lists[c.tb.home[w]] then
      var c1 := Post(Emit(FocusState(c, w), FocusWindow(w)), FocusChanged(w));
      Evaluate(c1, c.tb.home[w])
    else
      Post(Emit(c, FocusRoot), FocusChanged(NO_WINDOW))
  }

  // --- Arranging ---------------------------------------------------------------------------------

  predicate KnownLayout(name: string) { name == "tile" || name == "monocle" || name == "unmanaged" }

  predicate LaidOut(index: Index, id: nat) {
    Shown(index, id) && !index[id].props.floating && !index[id].Covers() && !index[id].OwnsGeometry()
  }

  function LaidOutIds(index: Index, list: seq<nat>): (r: seq<nat>)
    ensures forall i :: 0 <= i < |r| ==> LaidOut(index, r[i])
  {
    if list == [] then []
    else
      var rest := LaidOutIds(index, list[..|list| - 1]);
      if LaidOut(index, list[|list| - 1]) then rest + [list[|list| - 1]] else rest
  }

  function LayoutConfig(c: Core): Tile.Config {
    Tile.Config(c.masterFactor, c.nmaster, c.settings.gap, c.settings.borderThickness)
  }

  function LayoutPlacements(c: Core, wins: seq<nat>, mon: Monitor): seq<Tile.Placement> {
    if c.layout == "tile" then Tile.Placements(wins, mon, LayoutConfig(c))
    else if c.layout == "monocle" then Tile.Monocle(wins, mon, c.settings.borderThickness)
    else []
  }

  /** The placement sink of arrange: fixed-size windows keep their size. */
  function PlaceOne(c: Core, p: Tile.Placement): (r: Core)
    ensures Quiet(c, r)
  {
    var size :=
      if p.win in c.tb.index && c.tb.index[p.win].props.sizeLocked &&
         c.tb.index[p.win].geo.size.x > 0 && c.tb.index[p.win].geo.size.y > 0
      then c.tb.index[p.win].geo.size else p.size;
    var c1 := SetGeometry(c, p.win, p.pos, size);
    var c2 := SetBorderWidth(c1, p.win, p.border);
    QuietTrans(c, c1, c2);
    Emit(c2, UpdateWindow(p.win))
  }

  function PlaceUpTo(c: Core, ps: seq<Tile.Placement>, k: nat): (r: Core)
    requires k <= |ps|
    ensures Quiet(c, r)
  {
    if k == 0 then c
    else
      var d := PlaceUpTo(c, ps, k - 1);
      QuietTrans(c, d, PlaceOne(d, ps[k - 1]));
      PlaceOne(d, ps[k - 1])
  }

  function ToUint32(x: int): int { x % 0x1_0000_0000 }

  function BorderOne(c: Core, id: nat): (r: Core)
    ensures Quiet(c, r)
  {
    var b := ToUint32(c.settings.borderThickness);
    if Shown(c.tb.index, id) && c.tb.index[id].props.floating && !c.tb.index[id].Covers() && c.tb.index[id].geo.border != b then
      Emit(SetBorderWidth(c, id, b), UpdateWindow(id))
    else c
  }

  function BorderUpTo(c: Core, list: seq<nat>, k: nat): (r: Core)
    requires k <= |list|
    ensures Quiet(c, r)
  {
    if k == 0 then c
    else
      var d := BorderUpTo(c, list, k - 1);
      QuietTrans(c, d, BorderOne(d, list[k - 1]));
      BorderOne(d, list[k - 1])
  }

  /** One monitor of arrange. */
  function ArrangeMonitor(c: Core, mon: Monitor): (r: Core)
    ensures Quiet(c, r)
  {
    if !(0 <= mon.activeWs < |c.tb.lists|) then c
    else
      var list := c.tb.lists[mon.activeWs];
      var ps := LayoutPlacements(c, LaidOutIds(c.tb.index, list), mon);
      var c1 := PlaceUpTo(c, ps, |ps|);
      QuietTrans(c, c1, BorderUpTo(c1, list, |list|));
      BorderUpTo(c1, list, |list|)
  }

  function ArrangeUpTo(c: Core, k: nat): (r: Core)
    requires k <= |c.topo.monitors|
    ensures Quiet(c, r)
  {
    if k == 0 then c
    else
      var d := ArrangeUpTo(c, k - 1);
      QuietTrans(c, d, ArrangeMonitor(d, c.topo.monitors[k - 1]));
      ArrangeMonitor(d, c.topo.monitors[k - 1])
  }

  function Arrange(c: Core): (r: Core)
    ensures Quiet(c, r)
  {
    if KnownLayout(c.layout) then ArrangeUpTo(c, |c.topo.monitors|) else c
  }

  /** What switching and moving do once the new assignment stands. */
  function Refresh(c: Core): (r: Core)
    requires Sane(c)
    ensures KeepsWindows(c, r) && r.topo == c.topo && r.settings == c.settings
  {
    Arrange(SyncVisibility(c))
  }

  function Reconcile(c: Core): (r: Core)
    requires Sane(c)
    ensures KeepsWindows(c, r)
  {
    Focus(Refresh(c), NO_WINDOW)
  }

  // --- Commands ----------------------------------------------------------------------------------

  function DoSwitch(c: Core, ws: int, hint: Option<int>): (r: Core)
    requires Sane(c)
    ensures KeepsWindows(c, r)
  {
    if !(0 <= ws < |c.topo.wsAlias|) || c.topo.monitors == [] then c
    else
      var named := if hint.Some? then hint.value else MonitorOf(c.topo, ws);
      var target := if named < 0 then c.topo.focused else named;
      var h := if hint.Some? then hint.value else NONE;
      var c1 := c.(topo := SwitchTo(c.topo, ws, h, c.settings.aliases, c.settings.compose));
      var c2 := Refresh(c1);
      var c3 := if target == c2.topo.focused then Focus(c2, NO_WINDOW) else c2;
      Post(Evaluate(c3, ws), WorkspaceSwitched(ws))
  }

  /** A moved fullscreen window takes its new monitor's surface; both workspaces restack. */
  function Repin(c: Core, id: nat, src: int, ws: int): (r: Core)
    requires Sane(c)
    ensures Quiet(c, r)
  {
    var c1 := Pin(c, id, ws);
    var c2 := Evaluate(c1, src);
    var c3 := Evaluate(c2, ws);
    QuietTrans(c, c1, c2);
    QuietTrans(c, c2, c3);
    c3
  }

  /** Focus follows a moved window if its new workspace is shown, unless it asked not to be focused. */
  function FocusMoved(c: Core, id: nat, ws: int): (r: Core)
    requires Sane(c)
    ensures KeepsWindows(c, r)
  {
    var follow := IsShown(c.topo.monitors, ws) && Shown(c.tb.index, id) && !c.tb.index[id].props.suppressFocusOnce;
    Focus(c, if follow then id else NO_WINDOW)
  }

  function DoMove(c: Core, id: nat, ws: int): (r: Core)
    requires Sane(c)
    ensures KeepsWindows(c, r)
  {
    if !(0 <= ws < |c.modes|) || id !in c.tb.index then c
    else
      var src := HomeOf(c.tb, id);
      var c1 := Post(c.(tb := Move(c.tb, id, ws)), WindowAssigned(id, ws));
      var c2 := Refresh(c1);
      FocusMoved(if c.tb.index[id].Covers() then Repin(c2, id, src, ws) else c2, id, ws)
  }

  /** The monitor whose surface a fullscreen window takes: one showing its workspace, its owner, the first. */
  function FullscreenMonitor(c: Core, ws: int): (m: int)
    ensures NONE <= m < |c.topo.monitors|
  {
    var showing := FirstShowing(c.topo.monitors, ws, 0);
    if showing >= 0 then showing
    else if MonitorOf(c.topo, ws) >= 0 then MonitorOf(c.topo, ws)
    else if c.topo.monitors != [] then 0 else NONE
  }

  function FirstShowing(ms: seq<Monitor>, ws: int, m: nat): (r: int)
    requires m <= |ms|
    ensures NONE <= r < |ms|
    decreases |ms| - m
  {
    if m == |ms| then NONE else if ms[m].activeWs == ws then m else FirstShowing(ms, ws, m + 1)
  }

  /** A fullscreen window without border; the first time, it remembers the geometry it has. */
  function Covering(w: Window): Window {
    var w1 := if w.props.fullscreen then w else w.(saved := w.geo);
    WithBorder(w1.(props := w1.props.(fullscreen := true)), 0)
  }

  /** The state change of enabling fullscreen, before windows are arranged. */
  function EnterFullscreen(c: Core, id: nat, preserve: bool): (r: Core)
    requires id in c.tb.index
    ensures Silent(c, r)
  {
    var c1 := MarkDirty(Put(c, id, Covering(c.tb.index[id])), id, BORDER);
    var m := FullscreenMonitor(c, HomeOf(c.tb, id));
    if preserve || m < 0 then c1
    else
      QuietIsSilent(c, c1, PinTo(c1, id, m));
      PinTo(c1, id, m)
  }

  /** A window that leaves fullscreen has its border again and, if it floats, its position and size. */
  function Uncovered(w: Window): Window {
    var w1 := WithBorder(w.(props := w.props.(fullscreen := false)), w.saved.border);
    if w.props.floating then At(w1, w.saved.pos, w.saved.size) else w1
  }

  function LeaveFullscreen(c: Core, id: nat): (r: Core)
    requires id in c.tb.index
    ensures Silent(c, r)
  {
    var w := c.tb.index[id];
    var c1 := MarkDirty(Put(c, id, Uncovered(w)), id, BORDER);
    if w.props.floating then MarkDirty(c1, id, GEOMETRY) else c1
  }

  function DoEnter(c: Core, id: nat, preserve: bool): (r: Core)
    requires Sane(c) && id in c.tb.index
    ensures KeepsWindows(c, r)
  {
    var ws := HomeOf(c.tb, id);
    var c1 := Post(Arrange(EnterFullscreen(c, id, preserve)), RaiseDocks);
    if ws >= 0 && IsShown(c1.topo.monitors, ws) && Shown(c1.tb.index, id) then Focus(c1, id) else Evaluate(c1, ws)
  }

  function DoLeave(c: Core, id: nat): (r: Core)
    requires Sane(c) && id in c.tb.index
    ensures KeepsWindows(c, r)
  {
    Post(Evaluate(Arrange(LeaveFullscreen(c, id)), HomeOf(c.tb, id)), RaiseDocks)
  }

  function DoFullscreen(c: Core, id: nat, enabled: bool, preserve: bool): (r: Core)
    requires Sane(c)
    ensures KeepsWindows(c, r)
  {
    if id !in c.tb.index then c
    else if enabled then DoEnter(c, id, preserve)
    else if c.tb.index[id].props.fullscreen then DoLeave(c, id)
    else c
  }

  function DoEnsure(c: Core, id: nat, ws: int): (r: Core)
    requires Sane(c)
    ensures Sane(r)
  {
    if id == NO_WINDOW then c
    else if id !in c.tb.index then c.(tb := Create(c.tb, id, ws, ActiveWs(c.topo, c.topo.focused)))
    else c.(tb := Move(c.tb, id, ws))
  }

  function DoAssign(c: Core, id: nat, ws: int): (r: Core)
    requires Sane(c)
    ensures KeepsWindows(c, r)
  {
    if id !in c.tb.index then c else Post(c.(tb := Move(c.tb, id, ws)), WindowAssigned(id, ws))
  }

  /** A window's properties change, but not whether it is fullscreen. */
  function PutProps(c: Core, id: nat, p: Props): (r: Core)
    requires id in c.tb.index && p.fullscreen == c.tb.index[id].props.fullscreen
    ensures Silent(c, r) && SameSaved(c.tb.index, r.tb.index) && SameGeometry(c, r)
    ensures SameVis(c.tb.index, r.tb.index) && r.effects == c.effects && r.events == c.events
    ensures r.tb.index[id].props == p
  {
    Put(c, id, c.tb.index[id].(props := p))
  }

  function ToggledFloating(c: Core, id: nat): (r: Core)
    requires id in c.tb.index
    ensures Silent(c, r) && SameSaved(c.tb.index, r.tb.index) && SameGeometry(c, r)
  {
    var p := c.tb.index[id].props;
    PutProps(c, id, p.(floating := !p.floating))
  }

  function Classified(p: Props, kind: WindowType, h: MapHints): (r: Props)
    ensures r.fullscreen == p.fullscreen
  {
    var selfManaged := h.preFullscreen && !h.xembed && h.coversMonitor;
    var wmBorderless := !selfManaged && h.coversMonitor && h.fixedSize;
    p.(kind := kind, sizeLocked := h.fixedSize, urgent := h.urgent, preservePosition := h.staticGravity,
       hints := h.sizes, selfManaged := selfManaged, promoteToBorderless := selfManaged || wmBorderless)
  }

  /** A transient window goes to its parent's workspace and is not focused once. */
  function RouteTransient(c: Core, id: nat, transientFor: nat): (r: Core)
    requires Sane(c) && id in c.tb.index
    ensures KeepsWindows(c, r) && SameSaved(c.tb.index, r.tb.index) && SameGeometry(c, r)
    ensures SameVis(c.tb.index, r.tb.index) && r.effects == c.effects
  {
    var parent := if transientFor == NO_WINDOW then NO_WS else HomeOf(c.tb, transientFor);
    if parent >= 0 then DoAssign(PutProps(c, id, c.tb.index[id].props.(suppressFocusOnce := true)), id, parent) else c
  }

  predicate Floats(p: Props, transientFor: nat) {
    p.floating || transientFor != NO_WINDOW || p.kind.Dialog? || p.kind.Modal? || p.kind.Utility? || p.kind.Splash? ||
    (!p.borderless && p.sizeLocked && !p.promoteToBorderless)
  }

  function DoMetadata(c: Core, id: nat, kind: WindowType, h: MapHints, transientFor: nat): (r: Core)
    requires Sane(c)
    ensures KeepsWindows(c, r)
    ensures SameSaved(c.tb.index, r.tb.index) && SameVis(c.tb.index, r.tb.index) && r.effects == c.effects
    ensures SameGeometry(c, r)
  {
    if id !in c.tb.index then c
    else
      var c1 := PutProps(c, id, Classified(c.tb.index[id].props, kind, h));
      var c2 := RouteTransient(c1, id, transientFor);
      var p := c2.tb.index[id].props;
      if Floats(p, transientFor) then PutProps(c2, id, p.(floating := true)) else c2
  }

  function DoBorderless(c: Core, id: nat, flag: bool): (r: Core)
    requires Sane(c)
    ensures KeepsWindows(c, r)
  {
    if id !in c.tb.index then c
    else
      var w0 := c.tb.index[id];
      var w := w0.(props := w0.props.(borderless := flag, promoteToBorderless := false));
      var c1 := if flag && w.geo.border != 0 && !w.OwnsGeometry()
                then Emit(Put(c, id, WithBorder(w, 0)), UpdateWindow(id))
                else Put(c, id, w);
      Evaluate(c1, HomeOf(c1.tb, id))
  }

  function DoRemove(c: Core, id: nat): (r: Core)
    requires Sane(c)
    ensures Sane(r)
  {
    var ws := HomeOf(c.tb, id);
    Evaluate(c.(tb := Drop(c.tb, id), dirty := c.dirty - {id}), ws)
  }

  function DoFocusMonitor(c: Core, m: int): (r: Core)
    requires Sane(c)
    ensures KeepsWindows(c, r)
  {
    if !(0 <= m < |c.topo.monitors|) || c.topo.monitors[m].activeWs < 0 then c
    else
      var mon := c.topo.monitors[m];
      var c1 := if m == c.topo.focused then c
                else Focus(c.(topo := FocusMonitor(c.topo, m)), NO_WINDOW);
      Emit(c1, WarpPointer(Vec(mon.x + TruncDiv(mon.w, 2), mon.y + TruncDiv(mon.h, 2))))
  }

  predicate PhysicallyContains(mon: Monitor, x: int, y: int) {
    var p := mon.Physical();
    p.x <= x < p.x + p.w && p.y <= y < p.y + p.h
  }

  function MonitorAt(ms: seq<Monitor>, x: int, y: int, m: nat): (r: int)
    requires m <= |ms|
    ensures NONE <= r < |ms|
    decreases |ms| - m
  {
    if m == |ms| then NONE else if PhysicallyContains(ms[m], x, y) then m else MonitorAt(ms, x, y, m + 1)
  }

  function DoFocusMonitorAt(c: Core, x: int, y: int): (r: Core)
    requires Sane(c)
    ensures KeepsWindows(c, r)
  {
    var m := MonitorAt(c.topo.monitors, x, y, 0);
    if m < 0 || m == c.topo.focused then c else Focus(c.(topo := FocusMonitor(c.topo, m)), NO_WINDOW)
  }

  /** Workspace `ws` with its cursor moved one window on. */
  function Cycled(tb: Table, ws: int, dir: int): (r: Table)
    requires IsWs(tb, ws)
    ensures r == tb.(cursors := r.cursors) && |r.cursors| == |tb.cursors|
  {
    var list, at := tb.lists[ws], tb.cursors[ws];
    tb.(cursors := tb.cursors[ws :=
      if dir == 1 then Cycle.NextCursor(tb.index, list, at) else Cycle.PrevCursor(tb.index, list, at)])
  }

  /** FocusNextWindow and FocusPrevWindow: move the cursor, then focus where it points. */
  function DoCycle(c: Core, dir: int): (r: Core)
    requires Sane(c)
    ensures KeepsWindows(c, r)
  {
    var ws := CurrentWs(c);
    if !IsWs(c.tb, ws) then Focus(c, NO_WINDOW)
    else
      var c1 := c.(tb := Cycled(c.tb, ws, dir));
      var w := CurrentFocused(c1);
      Focus(c1, if Shown(c1.tb.index, w) then w else NO_WINDOW)
  }

  function DoSwitchLocal(c: Core, li: int): (r: Core)
    requires Sane(c)
    ensures KeepsWindows(c, r)
  {
    var m := c.topo.focused;
    if !(0 <= m < |c.topo.pools| && 0 <= li < |c.topo.pools[m]|) then c
    else
      var c1 := c.(topo := SwitchLocal(c.topo, m, li));
      var ws := ActiveWs(c1.topo, m);
      if ws >= 0 then Post(Reconcile(c1), WorkspaceSwitched(ws)) else Reconcile(c1)
  }

  function DoApplyTopology(c: Core, ms: seq<Monitor>): (r: Core)
    requires Sane(c)
    ensures KeepsWindows(c, r)
  {
    var t := Replug(c.topo, ms, c.settings.aliases, c.settings.compose);
    ReplugSized(c.topo, ms, c.settings.aliases, c.settings.compose);
    Reconcile(c.(topo := t))
  }

  lemma ReplugSized(t: Topology, ms: seq<Monitor>, aliases: seq<MonitorAlias>, compose: MonitorCompose)
    ensures Sized(Replug(t, ms, aliases, compose)) && Replug(t, ms, aliases, compose).wsAlias == t.wsAlias
  {
  }

  function ReserveAll(ms: seq<Monitor>, m: int, e: Edge, px: int): (r: seq<Monitor>)
    ensures |r| == |ms|
    ensures forall i :: 0 <= i < |ms| ==> r[i] == (if m < 0 || i == m then Reserve(ms[i], e, px) else ms[i])
  {
    seq(|ms|, i requires 0 <= i < |ms| => if m < 0 || i == m then Reserve(ms[i], e, px) else ms[i])
  }

  function Clamp(f: real): real { if f < 0.1 then 0.1 else if f > 0.9 then 0.9 else f }

  /** Positions of the windows that are not floating. */
  function TiledPositions(index: Index, list: seq<nat>, k: nat): (r: seq<nat>)
    requires k <= |list|
    ensures forall i :: 0 <= i < |r| ==> r[i] < k
  {
    if k == 0 then []
    else
      var rest := TiledPositions(index, list, k - 1);
      if Tiled(index, list[k - 1]) then rest + [k - 1] else rest
  }

  /** zoom_focused: the focused tiled window swaps with the first tiled one, or with the second if it is the first. */
  function ZoomTable(tb: Table, ws: int): (r: Table)
    ensures SameShape(tb, r) && r.index == tb.index && r.home == tb.home
  {
    if !IsWs(tb, ws) then tb
    else
      var list := tb.lists[ws];
      var f := Focused(tb.index, list, tb.cursors[ws]);
      var tiled := TiledPositions(tb.index, list, |list|);
      if !Tiled(tb.index, f) || f !in list || |tiled| < 2 then tb
      else
        var at := IndexOf(list, f);
        var first, other := tiled[0], if at == tiled[0] then tiled[1] else at;
        tb.(lists := tb.lists[ws := list[first := list[other]][other := list[first]]],
            cursors := tb.cursors[ws := if at == tiled[0] then tiled[1] else tiled[0]])
  }

  predicate CanZoom(c: Core) {
    var ws := CurrentWs(c);
    IsWs(c.tb, ws) &&
    var f := FocusedOn(c, ws);
    Tiled(c.tb.index, f) && f in c.tb.lists[ws] && |TiledPositions(c.tb.index, c.tb.lists[ws], |c.tb.lists[ws]|)| >= 2
  }

  /** Settings the validator lets through while workspaces exist. */
  predicate Applicable(c: Core, next: Settings) { next.defs == [] ==> c.topo.wsAlias == [] }

  function Fallbacks(t: Topology, n: nat): (r: seq<int>)
    ensures |r| == |t.wsAlias| && forall ws :: 0 <= ws < |r| ==> r[ws] == FallbackFor(t, ws, n)
    ensures n > 0 ==> forall ws :: 0 <= ws < |r| ==> 0 <= r[ws] < n
  {
    seq(|t.wsAlias|, ws => FallbackFor(t, ws, n))
  }

  /** apply_settings on a running window manager. */
  function DoApplySettings(c: Core, next: Settings): (r: Core)
    requires Sane(c) && Applicable(c, next)
    ensures |r.tb.lists| == |r.tb.cursors| == |r.modes| == |r.topo.wsAlias| && Sized(r.topo)
  {
    var n := |next.defs|;
    c.(settings := next,
       tb := Resize(c.tb, n, Fallbacks(c.topo, n)),
       modes := if n <= |c.modes| then c.modes[..n] else c.modes + seq(n - |c.modes|, _ => false),
       topo := Reload(c.topo, next.defs, next.aliases, next.compose))
  }

  function SyncFromNotify(w: Window, d: Dirty, pos: Vec, size: Vec, width: int): Window {
    w.(geo := Geometry(
       Vec(if d.x then w.geo.pos.x else pos.x, if d.y then w.geo.pos.y else pos.y),
       Vec(if d.w then w.geo.size.x else size.x, if d.h then w.geo.size.y else size.y),
       if d.border then w.geo.border else width))
  }

  /** Commands that change one window's visibility. */
  predicate VisibilityCommand(cmd: Command) {
    cmd.CSetMapped? || cmd.CSetHiddenByWorkspace? || cmd.CMapWindow? || cmd.CUnmapWindow? || cmd.CHideWindow?
  }

  /** Commands that set one flag of a window, or ask it to close. */
  predicate FlagCommand(cmd: Command) {
    cmd.CSetSuppressFocusOnce? || cmd.CSetFloating? || cmd.CToggleFloating? || cmd.CCloseWindow?
  }

  /** Commands about one window's position, size and border. */
  predicate GeometryCommand(cmd: Command) {
    cmd.CSetGeometry? || cmd.CSetPosition? || cmd.CSetSize? || cmd.CSetBorderWidth? || cmd.CSyncFromNotify?
  }

  /** Commands that choose the layout or set its parameters. */
  predicate ConfigCommand(cmd: Command) {
    cmd.CSetLayout? || cmd.CSetMasterFactor? || cmd.CAdjustMasterFactor? || cmd.CIncMaster?
  }

  predicate LayoutCommand(cmd: Command) {
    ConfigCommand(cmd) || cmd.CReconcileNow? || cmd.CReserveArea? || cmd.CZoom? || cmd.CToggleFocusedFloating?
  }

  predicate MoveCommand(cmd: Command) {
    cmd.CMoveWindowToWorkspace? || cmd.CMoveWindowToMonitor? || cmd.CMoveFocusedToWorkspace?
  }

  function PutVis(c: Core, id: nat, vis: Visibility): (r: Core)
    requires id in c.tb.index
    ensures SameLists(c, r) && SameSaved(c.tb.index, r.tb.index) && SameGeometry(c, r)
  {
    Put(c, id, c.tb.index[id].(vis := vis))
  }

  function StepVisibility(c: Core, cmd: Command): (r: Core)
    requires Sane(c)
    ensures SameLists(c, r) && SameSaved(c.tb.index, r.tb.index) && SameGeometry(c, r)
  {
    if !VisibilityCommand(cmd) || cmd.win !in c.tb.index then c
    else
      var id := cmd.win;
      var w := c.tb.index[id];
      match cmd
      case CSetMapped(_, flag) => PutVis(c, id, w.vis.(mapped := flag))
      case CSetHiddenByWorkspace(_, flag) => PutVis(c, id, w.vis.(hiddenByWs := flag))
      case CMapWindow(_) =>
        var v := w.vis.(mapped := true);
        if w.vis.mapped then c
        else if w.(vis := v).Visible() then Emit(PutVis(c, id, v), MapWindow(id))
        else PutVis(c, id, v)
      case CUnmapWindow(_) =>
        if w.vis.mapped then Emit(PutVis(c, id, w.vis.(mapped := false)), UnmapWindow(id)) else c
      case CHideWindow(_) =>
        var c1 := PutVis(c, id, w.vis.(hiddenExplicitly := true));
        if w.Visible() then Emit(c1, UnmapWindow(id)) else c1
  }

  function StepFlag(c: Core, cmd: Command): (r: Core)
    requires Sane(c)
    ensures Silent(c, r) && SameSaved(c.tb.index, r.tb.index) && SameGeometry(c, r)
  {
    if !FlagCommand(cmd) || cmd.win !in c.tb.index then c
    else
      var id := cmd.win;
      var w := c.tb.index[id];
      match cmd
      case CSetSuppressFocusOnce(_, flag) => PutProps(c, id, w.props.(suppressFocusOnce := flag))
      case CSetFloating(_, flag) => PutProps(c, id, w.props.(floating := flag))
      case CToggleFloating(_) => PutProps(c, id, w.props.(floating := !w.props.floating))
      case CCloseWindow(_) => Emit(c, CloseWindow(id))
  }

  function StepGeometry(c: Core, cmd: Command): (r: Core)
    requires Sane(c)
    ensures Quiet(c, r)
  {
    if !GeometryCommand(cmd) || cmd.win !in c.tb.index then c
    else
      var id := cmd.win;
      var w := c.tb.index[id];
      match cmd
      case CSetGeometry(_, pos, size) => SetGeometry(c, id, pos, size)
      case CSetPosition(_, pos) => MarkDirty(Put(c, id, AtPosition(w, pos)), id, POSITION)
      case CSetSize(_, size) =>
        var fit := if w.props.floating || w.props.borderless then ApplyHints(w, size) else size;
        MarkDirty(Put(c, id, AtSize(w, fit)), id, SIZE)
      case CSetBorderWidth(_, width) => SetBorderWidth(c, id, width)
      case CSyncFromNotify(_, pos, size, width) => Put(c, id, SyncFromNotify(w, DirtyOf(c, id), pos, size, width))
  }

  /** The layout and its parameters as a command sets them. */
  function Configured(c: Core, cmd: Command): (r: Core)
    requires ConfigCommand(cmd)
    ensures r == c.(layout := r.layout, masterFactor := r.masterFactor, nmaster := r.nmaster)
  {
    match cmd
    case CSetLayout(name) => c.(layout := name)
    case CSetMasterFactor(f) => c.(masterFactor := Clamp(f))
    case CAdjustMasterFactor(d) => c.(masterFactor := Clamp(c.masterFactor + d))
    case CIncMaster(count) => c.(nmaster := Max(1, c.nmaster + count))
  }

  function DoConfigure(c: Core, cmd: Command): (r: Core)
    requires Sane(c) && ConfigCommand(cmd)
    ensures KeepsWindows(c, r)
  {
    if cmd.CSetLayout? && !KnownLayout(cmd.name) then c else Arrange(Configured(c, cmd))
  }

  function DoReserve(c: Core, m: int, e: Edge, px: int): (r: Core)
    requires Sane(c)
    ensures KeepsWindows(c, r)
  {
    c.(topo := c.topo.(monitors := ReserveAll(c.topo.monitors, m, e, px)))
  }

  function DoZoom(c: Core): (r: Core)
    requires Sane(c)
    ensures KeepsWindows(c, r)
  {
    if CanZoom(c) then Arrange(c.(tb := ZoomTable(c.tb, CurrentWs(c)))) else c
  }

  function DoToggleFocused(c: Core): (r: Core)
    requires Sane(c)
    ensures KeepsWindows(c, r)
  {
    var f := CurrentFocused(c);
    if f in c.tb.index then Arrange(ToggledFloating(c, f)) else c
  }

  /** Commands about the layout as a whole. */
  function StepLayout(c: Core, cmd: Command): (r: Core)
    requires Sane(c)
    ensures KeepsWindows(c, r)
  {
    if ConfigCommand(cmd) then DoConfigure(c, cmd)
    else match cmd
      case CReconcileNow => Arrange(c)
      case CReserveArea(m, e, px) => DoReserve(c, m, e, px)
      case CZoom => DoZoom(c)
      case CToggleFocusedFloating => DoToggleFocused(c)
      case _ => c
  }

  function DoMoveToMonitor(c: Core, id: nat, m: int): (r: Core)
    requires Sane(c)
    ensures KeepsWindows(c, r)
  {
    if !(0 <= m < |c.topo.monitors|) || c.topo.monitors[m].activeWs < 0 then c
    else DoMove(c, if id == NO_WINDOW then CurrentFocused(c) else id, c.topo.monitors[m].activeWs)
  }

  /** Commands that move a window to a workspace. */
  function StepMove(c: Core, cmd: Command): (r: Core)
    requires Sane(c)
    ensures KeepsWindows(c, r)
  {
    match cmd
    case CMoveWindowToWorkspace(id, ws) => DoMove(c, id, ws)
    case CMoveWindowToMonitor(id, m) => DoMoveToMonitor(c, id, m)
    case CMoveFocusedToWorkspace(ws) => DoMove(c, CurrentFocused(c), ws)
    case _ => c
  }

  /** Commands about one window's place and state. */
  function StepWindow(c: Core, cmd: Command): (r: Core)
    requires Sane(c)
    ensures Sane(r)
  {
    match cmd
    case CSetFullscreen(id, enabled, preserve) => DoFullscreen(c, id, enabled, preserve)
    case CEnsureWindow(id, ws) => DoEnsure(c, id, ws)
    case CAssignWorkspace(id, ws) => DoAssign(c, id, ws)
    case CSetMetadata(id, kind, h, parent) => DoMetadata(c, id, kind, h, parent)
    case CSetBorderless(id, flag) => DoBorderless(c, id, flag)
    case CRemoveWindow(id) => DoRemove(c, id)
    case _ => c
  }

  function DoFocusWindow(c: Core, id: nat): (r: Core)
    requires Sane(c)
    ensures KeepsWindows(c, r)
  {
    if id in c.tb.index then Focus(c, id) else c
  }

  /** Commands that move the focus or change what monitors show. */
  function StepFocus(c: Core, cmd: Command): (r: Core)
    requires Sane(c)
    ensures KeepsWindows(c, r)
  {
    match cmd
    case CFocusWindow(id) => DoFocusWindow(c, id)
    case CSwitchWorkspace(ws, hint) => DoSwitch(c, ws, hint)
    case CFocusMonitor(m) => DoFocusMonitor(c, m)
    case CFocusMonitorAt(x, y) => DoFocusMonitorAt(c, x, y)
    case CFocusNext => DoCycle(c, 1)
    case CFocusPrev => DoCycle(c, -1)
    case CSwitchLocal(li) => DoSwitchLocal(c, li)
    case CApplyTopology(ms) => DoApplyTopology(c, ms)
    case _ => c
  }

  predicate FocusCommand(cmd: Command) {
    cmd.CFocusWindow? || cmd.CSwitchWorkspace? || cmd.CFocusMonitor? || cmd.CFocusMonitorAt? || cmd.CFocusNext? ||
    cmd.CFocusPrev? || cmd.CSwitchLocal? || cmd.CApplyTopology?
  }

  /** The one premise a command has: settings must keep at least one workspace. */
  predicate Allowed(c: Core, cmd: Command) { cmd.CApplySettings? ==> Applicable(c, cmd.next) }

  /** Core::dispatch, and the other entry points. */
  function Step(c: Core, cmd: Command): Core
    requires Sane(c) && Allowed(c, cmd)
  {
    if VisibilityCommand(cmd) then StepVisibility(c, cmd)
    else if FlagCommand(cmd) then StepFlag(c, cmd)
    else if GeometryCommand(cmd) then StepGeometry(c, cmd)
    else if LayoutCommand(cmd) then StepLayout(c, cmd)
    else if cmd.CApplySettings? then DoApplySettings(c, cmd.next)
    else if FocusCommand(cmd) then StepFocus(c, cmd)
    else if MoveCommand(cmd) then StepMove(c, cmd)
    else StepWindow(c, cmd)
  }

  function InitAliases(settings: Settings): seq<string> {
    if settings.defs == [] then seq(9, _ => "") else DefAliases(settings.defs)
  }

  /** set_monitors on an empty manager, then init_from_defs. */
  function InitTopology(settings: Settings, monitors: seq<Monitor>): Topology {
    var empty := Topology([], [], [], [], [], map[], map[], 0);
    var t := if monitors != [] then SetMonitors(empty, monitors) else empty;
    var aliases := InitAliases(settings);
    Assign(t.(wsAlias := aliases, owner := seq(|aliases|, _ => NONE),
              pools := seq(|t.monitors|, _ => []), activeLocal := seq(|t.monitors|, _ => NONE),
              parkedPools := map[], parkedActive := map[]),
           settings.aliases, settings.compose)
  }

  /** Core::init: monitors first, then the workspaces of the configuration (nine if it has none). */
  function Init(settings: Settings, monitors: seq<Monitor>): Core {
    var n := |InitAliases(settings)|;
    Core(InitTopology(settings, monitors), Table(seq(n, _ => []), seq(n, _ => -1), map[], map[]),
         seq(n, _ => false), settings, "tile", 0.55, 1, [], [], map[])
  }
}
