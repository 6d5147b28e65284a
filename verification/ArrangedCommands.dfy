/**
 * Windows are arranged after every command that changes what there is to arrange
 * (core/src/core/core_dispatch.cpp:251-342, 365-517, 711-849).
 */
module ArrangedCommands {
  import opened Seqs
  import opened Monitors
  import opened Topology
  import opened TopologyProofs
  import opened Windows
  import opened WindowProofs
  import opened Flush
  import Tile
  import opened Reducer
  import opened ReducerProofs
  import opened TopologySteps
  import opened ArrangeProofs
  import opened SurfaceProofs
  import opened FocusCommands

  /** In layout "tile", the windows to be tiled lie in the cells of their monitor. */
  ghost predicate Arranged(c: Core) {
    c.layout == "tile" ==>
      forall m, tiles, i :: Tiling(c, m, tiles) && 0 <= i < |tiles| ==> InCell(c, m, tiles, i)
  }

  /** `tiles` are the windows to be tiled on monitor `m`, in order. */
  ghost predicate Tiling(c: Core, m: int, tiles: seq<nat>) {
    && 0 <= m < |c.topo.monitors| && 0 <= c.topo.monitors[m].activeWs < |c.tb.lists|
    && TileList(c.tb.index, c.tb.lists[c.topo.monitors[m].activeWs], tiles)
  }

  /** The i-th window has position and border of the i-th cell, and its size unless its own is honoured. */
  ghost predicate InCell(c: Core, m: int, tiles: seq<nat>, i: int)
    requires 0 <= m < |c.topo.monitors| && 0 <= i < |tiles|
  {
    var cells := Tile.Placements(tiles, c.topo.monitors[m], TileConfig(c));
    && |cells| == |tiles| && tiles[i] in c.tb.index
    && c.tb.index[tiles[i]].geo == PlacedGeometry(c.tb.index[tiles[i]], cells[i])
  }

  lemma SameTiling(c: Core, d: Core, m: int, tiles: seq<nat>)
    requires Tiling(d, m, tiles) && d.topo.monitors == c.topo.monitors && d.tb.lists == c.tb.lists
    requires SameTileable(c, d)
    ensures Tiling(c, m, tiles)
  {
    hide Ordered;
    var list := c.tb.lists[c.topo.monitors[m].activeWs];
    forall id
      ensures id in tiles <==> id in list && id in c.tb.index && Tileable(c.tb.index[id])
    {
    }
  }

  ghost predicate SameTileable(c: Core, d: Core) {
    d.tb.index.Keys == c.tb.index.Keys &&
    forall id :: id in c.tb.index ==> (Tileable(d.tb.index[id]) <==> Tileable(c.tb.index[id]))
  }

  lemma QuietTileable(c: Core, d: Core)
    requires Quiet(c, d)
    ensures SameTileable(c, d)
  {
    forall id | id in c.tb.index
      ensures Tileable(d.tb.index[id]) <==> Tileable(c.tb.index[id])
    {
      assert SameFlags(c.tb.index[id], d.tb.index[id]);
    }
  }

  /** Arranging arranges. */
  lemma ArrangeArranges(c: Core)
    requires Inv(c)
    ensures Arranged(Arrange(c)) && Inv(Arrange(c))
  {
    hide Arrange, Tiling, InCell, Inv, Quiet;
    var d := Arrange(c);
    QuietInv(c, d);
    SameSettings(c, d);
    QuietTileable(c, d);
    forall m, tiles, i | d.layout == "tile" && Tiling(d, m, tiles) && 0 <= i < |tiles|
      ensures 0 <= m < |d.topo.monitors| && InCell(d, m, tiles, i)
    {
      SameTiling(c, d, m, tiles);
      PutInCell(c, m, tiles, i);
    }
  }

  lemma PutInCell(c: Core, m: int, tiles: seq<nat>, i: int)
    requires Inv(c) && c.layout == "tile" && Tiling(c, m, tiles) && 0 <= i < |tiles|
    ensures 0 <= m < |Arrange(c).topo.monitors| && InCell(Arrange(c), m, tiles, i)
  {
    hide Arrange, Inv, Quiet, TileList, Tile.Placements;
    var d := Arrange(c);
    SameSettings(c, d);
    TilePlaced(c, m, tiles, i);
    FlagsKept(c, d, tiles[i]);
    SameConfig(c, d);
  }

  lemma SameConfig(c: Core, d: Core)
    requires d.masterFactor == c.masterFactor && d.nmaster == c.nmaster && d.settings == c.settings
    ensures TileConfig(d) == TileConfig(c)
  {
  }

  // --- What does not disturb the arrangement -----------------------------------------------------

  /** The same windows are to be tiled in the same cells, and they have not moved. */
  ghost predicate Undisturbed(c: Core, d: Core) {
    && d.topo.monitors == c.topo.monitors && d.tb.lists == c.tb.lists
    && d.layout == c.layout && d.masterFactor == c.masterFactor && d.nmaster == c.nmaster && d.settings == c.settings
    && SameTileable(c, d)
    && forall id :: id in c.tb.index && Tileable(c.tb.index[id]) ==>
         d.tb.index[id].geo == c.tb.index[id].geo && d.tb.index[id].props.sizeLocked == c.tb.index[id].props.sizeLocked
  }

  lemma UndisturbedArranged(c: Core, d: Core)
    requires Arranged(c) && Undisturbed(c, d)
    ensures Arranged(d)
  {
    hide Tile.Placements, Ordered, Tiling;
    forall m, tiles, i | d.layout == "tile" && Tiling(d, m, tiles) && 0 <= i < |tiles|
      ensures 0 <= m < |d.topo.monitors| && InCell(d, m, tiles, i)
    {
      SameTiling(c, d, m, tiles);
      TilingMember(c, m, tiles, i);
      assert InCell(c, m, tiles, i);
      SameConfig(c, d);
    }
  }

  lemma TilingMember(c: Core, m: int, tiles: seq<nat>, i: int)
    requires Tiling(c, m, tiles) && 0 <= i < |tiles|
    ensures tiles[i] in c.tb.index && Tileable(c.tb.index[tiles[i]]) && 0 <= m < |c.topo.monitors|
  {
    assert tiles[i] in tiles;
  }

  lemma UndisturbedTrans(a: Core, b: Core, c: Core)
    requires Undisturbed(a, b) && Undisturbed(b, c)
    ensures Undisturbed(a, c)
  {
  }

  /** Stacking moves at most windows that cover the screen. */
  lemma EvaluateUndisturbed(c: Core, ws: int)
    requires Inv(c)
    ensures Sane(c) && Undisturbed(c, Evaluate(c, ws)) && Inv(Evaluate(c, ws))
  {
    hide Evaluate, Inv, Quiet, OnSurface, Tileable;
    InvSane(c);
    var d := Evaluate(c, ws);
    QuietInv(c, d);
    SameSettings(c, d);
    QuietTileable(c, d);
    forall id | id in c.tb.index && Tileable(c.tb.index[id])
      ensures d.tb.index[id].geo == c.tb.index[id].geo && d.tb.index[id].props.sizeLocked == c.tb.index[id].props.sizeLocked
    {
      InvHome(c, id);
      FlagsKept(c, d, id);
      EvaluateStays(c, ws, id);
      TilesCoverNothing(c.tb.index[id]);
    }
  }

  lemma TilesCoverNothing(w: Window)
    requires Tileable(w)
    ensures !w.Covers()
  {
  }

  /** Focusing leaves the arrangement alone, as long as monitors show what they showed. */
  lemma FocusUndisturbed(c: Core, id: nat)
    requires Inv(c) && Focus(c, id).topo.monitors == c.topo.monitors
    ensures Sane(c) && Undisturbed(c, Focus(c, id))
  {
    hide Evaluate, Inv, FocusWorkspace, Tileable, PointAt;
    InvSane(c);
    var w := FocusTarget(c, id);
    if w != NO_WINDOW {
      FocusStateInv(c, w);
      var e := Focusing(c, w);
      PostedInv(c, w);
      EvaluateUndisturbed(e, c.tb.home[w]);
      PointUndisturbed(c, w);
    } else {
      NothingDisturbed(c);
    }
  }

  lemma NothingDisturbed(c: Core)
    ensures Undisturbed(c, c)
  {
  }

  /** The window focused stops being urgent; nothing else about windows changes. */
  lemma PointUndisturbed(c: Core, w: nat)
    requires Inv(c) && w in c.tb.index && IsWs(c.tb, c.tb.home[w])
    ensures Focusing(c, w).tb.lists == c.tb.lists && SameTileable(c, Focusing(c, w))
    ensures forall id :: id in c.tb.index ==>
      Focusing(c, w).tb.index[id].geo == c.tb.index[id].geo &&
      Focusing(c, w).tb.index[id].props.sizeLocked == c.tb.index[id].props.sizeLocked
    ensures Focusing(c, w).layout == c.layout && Focusing(c, w).settings == c.settings
    ensures Focusing(c, w).masterFactor == c.masterFactor && Focusing(c, w).nmaster == c.nmaster
  {
    hide FocusWorkspace;
    PointAtKeeps(c.tb, w);
  }

  lemma FocusNoneUndisturbed(c: Core)
    requires Inv(c)
    ensures Sane(c) && Undisturbed(c, Focus(c, NO_WINDOW)) && Inv(Focus(c, NO_WINDOW))
  {
    hide Focus, Inv, Undisturbed;
    FocusCurrent(c);
    FocusInv(c, NO_WINDOW);
    FocusUndisturbed(c, NO_WINDOW);
  }

  /** A visible window whose workspace is on display can be focused without any monitor changing workspaces. */
  lemma FocusDisplayedUndisturbed(c: Core, id: nat)
    requires Inv(c) && Shown(c.tb.index, id) && id in c.tb.home && OnDisplay(c, c.tb.home[id])
    ensures Sane(c) && Undisturbed(c, Focus(c, id))
  {
    hide Focus, Inv, Undisturbed;
    DisplayedStays(c, id);
    FocusUndisturbed(c, id);
  }

  lemma DisplayedStays(c: Core, id: nat)
    requires Inv(c) && Shown(c.tb.index, id) && id in c.tb.home && OnDisplay(c, c.tb.home[id])
    ensures Sane(c) && Focus(c, id).topo.monitors == c.topo.monitors
  {
    hide Evaluate, PointAt, FocusWorkspace;
    var ws := c.tb.home[id];
    var m :| 0 <= m < |c.topo.monitors| && c.topo.monitors[m].activeWs == ws;
    ShownByOwner(c.topo, m);
    FocusShownWorkspace(c.topo, ws);
  }

  // --- The commands ------------------------------------------------------------------------------

  lemma RefreshArranges(c: Core)
    requires Inv(c)
    ensures Sane(c) && Arranged(Refresh(c)) && Inv(Refresh(c))
  {
    hide Arrange, SyncVisibility, Arranged, Inv, Quiet;
    InvSane(c);
    SyncedInv(c, SyncVisibility(c));
    ArrangeArranges(SyncVisibility(c));
  }

  lemma ReconcileArranges(c: Core)
    requires Inv(c)
    ensures Sane(c) && Arranged(Reconcile(c)) && Inv(Reconcile(c))
  {
    hide Refresh, Focus, Arranged, Inv, Undisturbed;
    InvSane(c);
    RefreshArranges(c);
    FocusNoneUndisturbed(Refresh(c));
    UndisturbedArranged(Refresh(c), Focus(Refresh(c), NO_WINDOW));
  }

  lemma PostArranged(c: Core, e: Event)
    requires Arranged(c)
    ensures Arranged(Post(c, e))
  {
    NothingDisturbed(c);
    UndisturbedArranged(c, Post(c, e));
  }

  lemma SwitchArranges(c: Core, ws: int, hint: Option<int>)
    requires Inv(c) && 0 <= ws < |c.topo.wsAlias| && c.topo.monitors != []
    ensures Sane(c) && Arranged(DoSwitch(c, ws, hint))
  {
    hide SwitchTo, Refresh, Focus, Evaluate, Inv, Arranged, Undisturbed;
    InvSane(c);
    var h := if hint.Some? then hint.value else NONE;
    SwitchedInv(c, ws, h);
    var c1 := c.(topo := SwitchTo(c.topo, ws, h, c.settings.aliases, c.settings.compose));
    RefreshArranges(c1);
    var c2 := Refresh(c1);
    FocusNoneUndisturbed(c2);
    UndisturbedArranged(c2, Focus(c2, NO_WINDOW));
    EvaluateUndisturbed(c2, ws);
    EvaluateUndisturbed(Focus(c2, NO_WINDOW), ws);
    UndisturbedArranged(c2, Evaluate(c2, ws));
    UndisturbedArranged(Focus(c2, NO_WINDOW), Evaluate(Focus(c2, NO_WINDOW), ws));
    PostArranged(Evaluate(c2, ws), WorkspaceSwitched(ws));
    PostArranged(Evaluate(Focus(c2, NO_WINDOW), ws), WorkspaceSwitched(ws));
  }

  lemma RepinUndisturbed(c: Core, id: nat, src: int, ws: int)
    requires Inv(c) && id in c.tb.index && c.tb.index[id].Covers() && id in c.tb.home && c.tb.home[id] == ws
    ensures Sane(c) && Undisturbed(c, Repin(c, id, src, ws)) && Inv(Repin(c, id, src, ws))
  {
    hide Pin, Evaluate, Inv, Undisturbed, Quiet;
    InvSane(c);
    var c1 := Pin(c, id, ws);
    QuietInv(c, c1);
    PinUndisturbed(c, id, ws);
    EvaluateUndisturbed(c1, src);
    EvaluateUndisturbed(Evaluate(c1, src), ws);
    UndisturbedTrans(c, c1, Evaluate(c1, src));
    UndisturbedTrans(c, Evaluate(c1, src), Evaluate(Evaluate(c1, src), ws));
  }

  lemma PinUndisturbed(c: Core, id: nat, ws: int)
    requires Inv(c) && id in c.tb.index && c.tb.index[id].Covers() && id in c.tb.home && c.tb.home[id] == ws
    ensures Undisturbed(c, Pin(c, id, ws))
  {
    hide Pin, Inv, Quiet, OnSurface, Tileable;
    var d := Pin(c, id, ws);
    SameSettings(c, d);
    QuietTileable(c, d);
    forall x | x in c.tb.index && Tileable(c.tb.index[x])
      ensures d.tb.index[x].geo == c.tb.index[x].geo && d.tb.index[x].props.sizeLocked == c.tb.index[x].props.sizeLocked
    {
      InvHome(c, x);
      FlagsKept(c, d, x);
      PinStays(c, id, ws, x);
      TilesCoverNothing(c.tb.index[x]);
    }
  }

  lemma FocusMovedArranged(c: Core, id: nat, ws: int)
    requires Inv(c) && Arranged(c) && id in c.tb.home && c.tb.home[id] == ws
    ensures Sane(c) && Arranged(FocusMoved(c, id, ws))
  {
    hide Focus, Inv, Undisturbed, Arranged;
    InvSane(c);
    ShownIsOnDisplay(c, ws);
    if IsShown(c.topo.monitors, ws) && Shown(c.tb.index, id) && !c.tb.index[id].props.suppressFocusOnce {
      FocusDisplayedUndisturbed(c, id);
      UndisturbedArranged(c, Focus(c, id));
    } else {
      FocusNoneUndisturbed(c);
      UndisturbedArranged(c, Focus(c, NO_WINDOW));
    }
  }

  lemma MoveArranges(c: Core, id: nat, ws: int)
    requires Inv(c) && id in c.tb.index && 0 <= ws < |c.modes|
    ensures Sane(c) && Arranged(DoMove(c, id, ws))
  {
    hide Move, Refresh, Repin, FocusMoved, Inv, Undisturbed, Arranged, Quiet;
    InvSane(c);
    Replaced(c, id, ws);
    var c1 := Post(c.(tb := Move(c.tb, id, ws)), WindowAssigned(id, ws));
    Refreshed(c1, id);
    RefreshArranges(c1);
    var c2 := Refresh(c1);
    InvSane(c2);
    if c.tb.index[id].Covers() {
      RepinUndisturbed(c2, id, HomeOf(c.tb, id), ws);
      var c3 := Repin(c2, id, HomeOf(c.tb, id), ws);
      UndisturbedArranged(c2, c3);
      SameSettings(c2, c3);
      FocusMovedArranged(c3, id, ws);
    } else {
      FocusMovedArranged(c2, id, ws);
    }
  }

  lemma FullscreenArranges(c: Core, id: nat, enabled: bool, preserve: bool)
    requires Inv(c) && id in c.tb.index && (enabled || c.tb.index[id].props.fullscreen)
    ensures Sane(c) && Arranged(DoFullscreen(c, id, enabled, preserve))
  {
    hide DoEnter, DoLeave, Inv, Arranged;
    InvSane(c);
    EnterArranges(c, id, preserve);
    LeaveArranges(c, id);
  }

  lemma EnterArranges(c: Core, id: nat, preserve: bool)
    requires Inv(c) && id in c.tb.index
    ensures Sane(c) && Arranged(DoEnter(c, id, preserve))
  {
    hide EnterFullscreen, Arrange, Focus, Evaluate, Inv, Quiet, Silent, Arranged, Undisturbed, OnDisplay;
    InvSane(c);
    InvHome(c, id);
    InvNoWindow(c, id);
    EnterSays(c, id, preserve);
    var e := EnterFullscreen(c, id, preserve);
    ArrangeArranges(e);
    var p := Post(Arrange(e), RaiseDocks);
    PostArranged(Arrange(e), RaiseDocks);
    DocksSays(Arrange(e));
    InvSane(p);
    EnterLists(c, id, preserve);
    SameSettings(e, Arrange(e));
    ShownIsOnDisplay(p, c.tb.home[id]);
    if OnDisplay(p, c.tb.home[id]) && Shown(p.tb.index, id) {
      FocusDisplayedUndisturbed(p, id);
      UndisturbedArranged(p, Focus(p, id));
    } else {
      EvaluateUndisturbed(p, c.tb.home[id]);
      UndisturbedArranged(p, Evaluate(p, c.tb.home[id]));
    }
  }

  lemma LeaveArranges(c: Core, id: nat)
    requires Inv(c) && id in c.tb.index
    ensures Sane(c) && Arranged(DoLeave(c, id))
  {
    hide LeaveFullscreen, Arrange, Evaluate, Inv, Arranged, Undisturbed, Quiet, Silent;
    InvSane(c);
    var e := LeaveFullscreen(c, id);
    LeaveEffects(c, id);
    SameListsInv(c, e);
    ArrangeArranges(e);
    EvaluateUndisturbed(Arrange(e), HomeOf(c.tb, id));
    UndisturbedArranged(Arrange(e), Evaluate(Arrange(e), HomeOf(c.tb, id)));
    PostArranged(Evaluate(Arrange(e), HomeOf(c.tb, id)), RaiseDocks);
  }

  lemma LayoutArranges(c: Core, cmd: Command)
    requires Inv(c)
    requires
      || cmd.CReconcileNow? || (ConfigCommand(cmd) && (cmd.CSetLayout? ==> KnownLayout(cmd.name)))
      || (cmd.CZoom? && CanZoom(c)) || (cmd.CToggleFocusedFloating? && CurrentFocused(c) in c.tb.index)
    ensures Sane(c) && Arranged(StepLayout(c, cmd))
  {
    hide DoConfigure, DoZoom, DoToggleFocused, DoReserve, Arrange, Arranged, Inv, CanZoom, CurrentFocused, KnownLayout;
    hide KeepsWindows, Quiet, Silent;
    InvSane(c);
    hide Sane;
    if cmd.CReconcileNow? {
      ArrangeArranges(c);
    } else if ConfigCommand(cmd) {
      ConfigureArranges(c, cmd);
    } else if cmd.CZoom? {
      ZoomArranges(c);
    } else {
      ToggleArranges(c);
    }
  }

  lemma ConfigureArranges(c: Core, cmd: Command)
    requires Inv(c) && ConfigCommand(cmd) && (cmd.CSetLayout? ==> KnownLayout(cmd.name))
    ensures Sane(c) && Arranged(DoConfigure(c, cmd))
  {
    hide Arrange, Arranged, Inv, Configured, KnownLayout, Quiet;
    InvSane(c);
    ConfiguredInv(c, cmd);
    ArrangeArranges(Configured(c, cmd));
  }

  lemma ZoomArranges(c: Core)
    requires Inv(c) && CanZoom(c)
    ensures Sane(c) && Arranged(DoZoom(c))
  {
    hide Arrange, Arranged, Inv, CanZoom, ZoomTable, CurrentWs, Quiet;
    InvSane(c);
    ZoomedInv(c);
    ArrangeArranges(c.(tb := ZoomTable(c.tb, CurrentWs(c))));
  }

  lemma ToggleArranges(c: Core)
    requires Inv(c) && CurrentFocused(c) in c.tb.index
    ensures Sane(c) && Arranged(DoToggleFocused(c))
  {
    hide Arrange, Arranged, Inv, CurrentFocused, ToggledFloating, Quiet, Silent;
    InvSane(c);
    ToggledInv(c, CurrentFocused(c));
    ArrangeArranges(ToggledFloating(c, CurrentFocused(c)));
  }

  lemma ConfiguredInv(c: Core, cmd: Command)
    requires Inv(c) && ConfigCommand(cmd)
    ensures Inv(Configured(c, cmd))
  {
    SameTable(c.tb, Configured(c, cmd).tb);
  }

  lemma ToggledInv(c: Core, id: nat)
    requires Inv(c) && id in c.tb.index
    ensures Inv(ToggledFloating(c, id))
  {
    SameListsInv(c, ToggledFloating(c, id));
  }

  lemma ZoomedInv(c: Core)
    requires Inv(c)
    ensures Inv(c.(tb := ZoomTable(c.tb, CurrentWs(c))))
  {
    hide ZoomTable, CurrentWs;
    ZoomKeeps(c.tb, CurrentWs(c));
  }

  /** The command changes what there is to arrange, and is not refused. */
  ghost predicate Rearranges(c: Core, cmd: Command) {
    || cmd.CReconcileNow? || cmd.CApplyTopology?
    || (ConfigCommand(cmd) && (cmd.CSetLayout? ==> KnownLayout(cmd.name)))
    || (cmd.CZoom? && CanZoom(c))
    || (cmd.CToggleFocusedFloating? && CurrentFocused(c) in c.tb.index)
    || (cmd.CSwitchWorkspace? && 0 <= cmd.ws < |c.topo.wsAlias| && c.topo.monitors != [])
    || (cmd.CSwitchLocal? && 0 <= c.topo.focused < |c.topo.pools| && 0 <= cmd.li < |c.topo.pools[c.topo.focused]|)
    || (exists id, ws :: Moves(c, cmd, id, ws) && id in c.tb.index && 0 <= ws < |c.modes|)
    || (cmd.CSetFullscreen? && cmd.win in c.tb.index && (cmd.enabled || c.tb.index[cmd.win].props.fullscreen))
  }

  lemma FocusCommandArranges(c: Core, cmd: Command)
    requires Inv(c) && Rearranges(c, cmd) && (cmd.CSwitchWorkspace? || cmd.CSwitchLocal? || cmd.CApplyTopology?)
    ensures Sane(c) && Arranged(Step(c, cmd))
  {
    hide Step, DoSwitch, DoSwitchLocal, DoApplyTopology, Arranged, Inv, KeepsWindows, CurrentFocused, CanZoom;
    InvSane(c);
    hide Sane;
    StepIsFocus(c, cmd);
    if cmd.CSwitchWorkspace? {
      SwitchArranges(c, cmd.ws, cmd.hint);
    } else if cmd.CSwitchLocal? {
      LocalArranges(c, cmd.li);
    } else {
      TopologyArranges(c, cmd.monitors);
    }
  }

  lemma LocalArranges(c: Core, li: int)
    requires Inv(c) && 0 <= c.topo.focused < |c.topo.pools| && 0 <= li < |c.topo.pools[c.topo.focused]|
    ensures Sane(c) && Arranged(DoSwitchLocal(c, li))
  {
    hide Reconcile, Arranged, DoSwitchLocal, Inv;
    InvSane(c);
    ShownLocally(c, li);
    var c1 := c.(topo := Show(c.topo, c.topo.focused, li));
    ReconcileArranges(c1);
    PostArranged(Reconcile(c1), WorkspaceSwitched(c.topo.pools[c.topo.focused][li]));
    LocalIs(c, li);
  }

  lemma TopologyArranges(c: Core, ms: seq<Monitor>)
    requires Inv(c)
    ensures Sane(c) && Arranged(DoApplyTopology(c, ms))
  {
    hide Reconcile, Replug, Arranged, Inv;
    InvSane(c);
    Replugged(c, ms);
    ReconcileArranges(c.(topo := Replug(c.topo, ms, c.settings.aliases, c.settings.compose)));
  }

  lemma LocalIs(c: Core, li: int)
    requires Inv(c) && 0 <= c.topo.focused < |c.topo.pools| && 0 <= li < |c.topo.pools[c.topo.focused]|
    ensures c.topo.focused < |c.topo.activeLocal|
    ensures
      var m := c.topo.focused;
      var c1 := c.(topo := Show(c.topo, m, li));
      Sane(c) && Sane(c1) && DoSwitchLocal(c, li) == Post(Reconcile(c1), WorkspaceSwitched(c.topo.pools[m][li]))
  {
    hide Reconcile;
    ShownLocally(c, li);
  }

  lemma StepIsLayout(c: Core, cmd: Command)
    requires Sane(c) && LayoutCommand(cmd)
    ensures Step(c, cmd) == StepLayout(c, cmd)
  {
    hide StepVisibility, StepFlag, StepGeometry, StepFocus, StepMove, StepWindow, StepLayout, DoApplySettings, Sane;
    hide KeepsWindows, Quiet, Silent, SameLists;
  }

  /**
   * After every command that changes what there is to arrange - switches, moves, hot-plugs, fullscreen, the
   * layout and its parameters, zooming, floating - the tiled windows lie in the cells of their monitors,
   * whatever is focused, pinned or restacked afterwards. ArrangeProofs.ArrangeTiles says what that means.
   */
  lemma StepArranges(c: Core, cmd: Command)
    requires Inv(c) && Rearranges(c, cmd)
    ensures Sane(c) && Allowed(c, cmd) && Arranged(Step(c, cmd))
  {
    hide Step, StepLayout, StepMove, DoMove, DoFullscreen, Arranged, Inv, KeepsWindows, CurrentFocused, CanZoom, KnownLayout;
    InvSane(c);
    hide Sane;
    if cmd.CSwitchWorkspace? || cmd.CSwitchLocal? || cmd.CApplyTopology? {
      FocusCommandArranges(c, cmd);
    } else if cmd.CSetFullscreen? {
      FullscreenIs(c, cmd.win, cmd.enabled, cmd.preserveGeometry);
      FullscreenArranges(c, cmd.win, cmd.enabled, cmd.preserveGeometry);
    } else if MoveCommand(cmd) {
      var id, ws :| Moves(c, cmd, id, ws) && id in c.tb.index && 0 <= ws < |c.modes|;
      InvNoWindow(c, id);
      StepIsMove(c, cmd);
      MoveIs(c, cmd, id, ws);
      MoveArranges(c, id, ws);
    } else {
      StepIsLayout(c, cmd);
      LayoutArranges(c, cmd);
    }
  }

  /** In an arranged state the outer rectangles of a monitor's tiles cover its area exactly, if and only if there is room. */
  lemma ArrangedTiles(c: Core, m: int, tiles: seq<nat>)
    requires Arranged(c) && c.layout == "tile" && Tiling(c, m, tiles) && tiles != [] && c.settings.borderThickness >= 0
    requires forall i :: 0 <= i < |tiles| && tiles[i] in c.tb.index ==> !c.tb.index[tiles[i]].props.sizeLocked
    ensures 0 <= m < |c.topo.monitors| && forall i :: 0 <= i < |tiles| ==> tiles[i] in c.tb.index
    ensures Tile.Tiles(OuterRects(c.tb.index, tiles), c.topo.monitors[m], TileConfig(c)) <==>
      Tile.RoomFor(|tiles|, c.topo.monitors[m], TileConfig(c))
  {
    hide TileList, Tile.Placements, Tile.Tiles, Tile.RoomFor;
    var mon, cfg := c.topo.monitors[m], TileConfig(c);
    var ps := Tile.Placements(tiles, mon, cfg);
    Tile.TileExact(tiles, mon, cfg);
    TileWins(tiles, mon, cfg);
    forall i | 0 <= i < |tiles|
      ensures tiles[i] in c.tb.index && c.tb.index[tiles[i]].geo == Geometry(ps[i].pos, ps[i].size, ps[i].border)
    {
      assert InCell(c, m, tiles, i);
    }
    assert OuterRects(c.tb.index, tiles) == Tile.Outers(ps);
  }
}
