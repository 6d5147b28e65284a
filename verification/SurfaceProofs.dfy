/**
 * Windows that cover the screen (core/src/core/core_dispatch.cpp:162-215, 391-413, 452-500): where they
 * lie after fullscreen is enabled and after moves, and how a workspace is stacked around them.
 */
module SurfaceProofs {
  import opened Seqs
  import opened Monitors
  import opened Topology
  import opened TopologyProofs
  import opened Windows
  import opened WindowProofs
  import opened Flush
  import opened Reducer
  import opened ReducerProofs
  import opened TopologySteps
  import opened ArrangeProofs

  /** The position and size are the whole surface of the monitor: its usable area and what is reserved around it. */
  predicate OnSurface(g: Geometry, m: Monitor) {
    && g.pos.x == m.x - Max(0, m.left) && g.pos.y == m.y - Max(0, m.top)
    && g.size.x == Max(1, m.w + Max(0, m.left) + Max(0, m.right))
    && g.size.y == Max(1, m.h + Max(0, m.top) + Max(0, m.bottom))
  }

  lemma PinToSurface(c: Core, id: nat, m: int, x: nat)
    requires 0 <= m < |c.topo.monitors| && id in c.tb.index && x in c.tb.index
    ensures
      var d := PinTo(c, id, m);
      && x in d.tb.index && d.tb.index[x].geo.border == c.tb.index[x].geo.border
      && (if x == id then OnSurface(d.tb.index[x].geo, c.topo.monitors[m]) else d.tb.index[x].geo == c.tb.index[x].geo)
  {
    hide Quiet;
  }

  /** The window keeps its geometry or, covering the screen, now lies on its workspace's monitor. */
  ghost predicate StaysOrPinned(c: Core, d: Core, x: nat) {
    && x in c.tb.index && x in d.tb.index && x in c.tb.home
    && d.tb.index[x].geo.border == c.tb.index[x].geo.border
    && (d.tb.index[x].geo == c.tb.index[x].geo ||
        (c.tb.index[x].Covers() && MonitorOf(c.topo, c.tb.home[x]) >= 0 &&
         OnSurface(d.tb.index[x].geo, c.topo.monitors[MonitorOf(c.topo, c.tb.home[x])])))
  }

  lemma PinStays(c: Core, id: nat, ws: int, x: nat)
    requires x in c.tb.index && x in c.tb.home && (id == x ==> c.tb.index[x].Covers() && c.tb.home[x] == ws)
    ensures StaysOrPinned(c, Pin(c, id, ws), x)
  {
    hide PinTo, OnSurface, Quiet;
    var m := MonitorOf(c.topo, ws);
    if m >= 0 && id in c.tb.index {
      PinToSurface(c, id, m, x);
    }
  }

  lemma FocusedInList(c: Core, ws: int)
    requires Inv(c) && 0 <= ws < |c.tb.lists|
    ensures
      var f := Focused(c.tb.index, c.tb.lists[ws], c.tb.cursors[ws]);
      f in c.tb.index ==> f in c.tb.home && c.tb.home[f] == ws && f in c.tb.lists[ws]
  {
    assert ListOk(c.tb, ws);
  }

  lemma {:induction false} LowersNothing(c: Core, list: seq<nat>, except: nat, k: nat)
    requires k <= |list|
    ensures LowerOthers(c, list, except, k).tb == c.tb && LowerOthers(c, list, except, k).topo == c.topo
  {
    hide Quiet;
    if k > 0 {
      LowersNothing(c, list, except, k - 1);
    }
  }

  lemma EvaluateStays(c: Core, ws: int, x: nat)
    requires Inv(c) && x in c.tb.index && x in c.tb.home
    ensures StaysOrPinned(c, Evaluate(c, ws), x)
  {
    hide Focused, Pin, LowerOthers, Quiet, Inv, OnSurface;
    InvSane(c);
    if 0 <= ws < |c.modes| {
      FocusedInList(c, ws);
      var c1 := EvaluateMode(c, ws);
      var f := Focused(c1.tb.index, c1.tb.lists[ws], c1.tb.cursors[ws]);
      if f in c1.tb.index {
        LowersNothing(Emit(c1, RaiseWindow(f)), c1.tb.lists[ws], f, |c1.tb.lists[ws]|);
        if c1.tb.index[f].Covers() {
          PinStays(c1, f, ws, x);
        }
      }
    }
  }

  /** Owners, monitors and the window's workspace are the same, so "its monitor" means the same. */
  ghost predicate SameGround(c: Core, d: Core, x: nat) {
    && x in c.tb.home && x in d.tb.home && d.tb.home[x] == c.tb.home[x]
    && x in c.tb.index && x in d.tb.index && d.tb.index[x].props.fullscreen == c.tb.index[x].props.fullscreen
    && d.tb.index[x].props.borderless == c.tb.index[x].props.borderless
    && d.topo.owner == c.topo.owner && d.topo.wsAlias == c.topo.wsAlias && |d.topo.monitors| == |c.topo.monitors|
    && forall m :: 0 <= m < |c.topo.monitors| ==> d.topo.monitors[m] == c.topo.monitors[m].(activeWs := d.topo.monitors[m].activeWs)
  }

  /** On its monitor's surface, with this border. */
  ghost predicate Lies(c: Core, x: nat, border: int) {
    && x in c.tb.index && x in c.tb.home && c.tb.index[x].geo.border == border
    && 0 <= MonitorOf(c.topo, c.tb.home[x]) && OnSurface(c.tb.index[x].geo, c.topo.monitors[MonitorOf(c.topo, c.tb.home[x])])
  }

  lemma EvaluateLies(c: Core, ws: int, x: nat, border: int)
    requires Inv(c) && Lies(c, x, border)
    ensures Inv(Evaluate(c, ws)) && Lies(Evaluate(c, ws), x, border) && SameGround(c, Evaluate(c, ws), x)
  {
    hide Evaluate, OnSurface, Inv, Quiet;
    InvSane(c);
    EvaluateStays(c, ws, x);
    QuietInv(c, Evaluate(c, ws));
    QuietGround(c, Evaluate(c, ws), x);
    SameSettings(c, Evaluate(c, ws));
  }

  lemma QuietGround(c: Core, d: Core, x: nat)
    requires Quiet(c, d) && x in c.tb.index && x in c.tb.home
    ensures SameGround(c, d, x)
  {
    assert SameFlags(c.tb.index[x], d.tb.index[x]);
  }

  lemma FocusStateGround(c: Core, w: nat, x: nat)
    requires Inv(c) && w in c.tb.index && IsWs(c.tb, c.tb.home[w]) && x in c.tb.index && x in c.tb.home
    ensures SameGround(c, Focusing(c, w), x) && Focusing(c, w).tb.index[x].geo == c.tb.index[x].geo
  {
    hide Consistent, AliasesHonoured;
  }

  lemma FocusLies(c: Core, id: nat, x: nat, border: int)
    requires Inv(c) && Lies(c, x, border)
    ensures Lies(Focus(c, id), x, border) && SameGround(c, Focus(c, id), x)
  {
    hide Evaluate, FocusState, OnSurface, Inv;
    InvSane(c);
    var w := FocusTarget(c, id);
    if w != NO_WINDOW {
      FocusStateInv(c, w);
      FocusStateGround(c, w, x);
      SurfaceMoves(c, Focusing(c, w), x, border);
      PostedInv(c, w);
      EvaluateLies(Focusing(c, w), c.tb.home[w], x, border);
    }
  }

  lemma PostedInv(c: Core, w: nat)
    requires Inv(c) && w in c.tb.index
    ensures IsWs(c.tb, c.tb.home[w]) && Inv(Focusing(c, w))
  {
    FocusStateInv(c, w);
  }

  /** The surface does not depend on which workspace the monitor shows. */
  lemma SurfaceMoves(c: Core, d: Core, x: nat, border: int)
    requires Lies(c, x, border) && SameGround(c, d, x) && d.tb.index[x].geo == c.tb.index[x].geo
    ensures Lies(d, x, border)
  {
  }

  /** Arranging leaves a window that covers the screen where it is. */
  lemma ArrangeLies(c: Core, x: nat, border: int)
    requires Inv(c) && Lies(c, x, border) && c.tb.index[x].Covers()
    ensures Inv(Arrange(c)) && Lies(Arrange(c), x, border) && SameGround(c, Arrange(c), x)
  {
    hide Arrange, OnSurface, Inv, Quiet;
    ArrangeLeaves(c, x);
    QuietInv(c, Arrange(c));
    QuietGround(c, Arrange(c), x);
    SurfaceMoves(c, Arrange(c), x, border);
  }

  /** The window lies on the whole surface of the monitor that owned workspace `ws` before. */
  ghost predicate LiesOn(c: Core, d: Core, id: nat, ws: int) {
    && 0 <= ws < |c.topo.owner| && 0 <= c.topo.owner[ws] < |c.topo.monitors|
    && id in d.tb.index && OnSurface(d.tb.index[id].geo, c.topo.monitors[c.topo.owner[ws]])
  }

  // --- Fullscreen --------------------------------------------------------------------------------

  /** The monitor whose surface a fullscreen window takes is the owner of its workspace, shown or not. */
  lemma FullscreenMonitorIsOwner(c: Core, id: nat)
    requires Inv(c) && id in c.tb.index && c.topo.monitors != []
    ensures id in c.tb.home && 0 <= c.tb.home[id] < |c.topo.owner| && 0 <= c.topo.owner[c.tb.home[id]] < |c.topo.monitors|
    ensures FullscreenMonitor(c, HomeOf(c.tb, id)) == c.topo.owner[c.tb.home[id]] == MonitorOf(c.topo, c.tb.home[id])
  {
    InvHome(c, id);
    var m := FirstShowing(c.topo.monitors, c.tb.home[id], 0);
    ShowingShows(c.topo.monitors, c.tb.home[id], 0);
    if m >= 0 {
      ShownByOwner(c.topo, m);
    }
  }

  lemma {:induction false} ShowingShows(ms: seq<Monitor>, ws: int, k: nat)
    requires k <= |ms|
    ensures FirstShowing(ms, ws, k) >= 0 ==> ms[FirstShowing(ms, ws, k)].activeWs == ws
    decreases |ms| - k
  {
    if k < |ms| {
      ShowingShows(ms, ws, k + 1);
    }
  }

  /** Fullscreen without border, on the surface of the monitor that owns its workspace. */
  ghost predicate EnteredOn(c: Core, d: Core, id: nat) {
    && id in c.tb.home && LiesOn(c, d, id, c.tb.home[id])
    && d.tb.index[id].props.fullscreen && d.tb.index[id].geo.border == 0
  }

  lemma EnterLies(c: Core, id: nat)
    requires Inv(c) && id in c.tb.index && c.topo.monitors != []
    ensures
      var e := EnterFullscreen(c, id, false);
      Inv(e) && Lies(e, id, 0) && SameButFlag(c, e, id) && e.tb.index[id].props.fullscreen
  {
    hide FullscreenMonitor, PinTo, OnSurface, Inv, Silent;
    FullscreenMonitorIsOwner(c, id);
    EnterSameGround(c, id);
    SameListsInv(c, EnterFullscreen(c, id, false));
    var c1 := MarkDirty(Put(c, id, Covering(c.tb.index[id])), id, BORDER);
    PinToSurface(c1, id, c.topo.owner[c.tb.home[id]], id);
  }

  /** The topology and the window's workspace are the same. */
  ghost predicate SameButFlag(c: Core, d: Core, x: nat) {
    d.topo == c.topo && x in c.tb.home && x in d.tb.home && d.tb.home[x] == c.tb.home[x]
  }

  lemma EnterSameGround(c: Core, id: nat)
    requires id in c.tb.index && id in c.tb.home
    ensures
      var e := EnterFullscreen(c, id, false);
      SameLists(c, e) && SameButFlag(c, e, id) && id in e.tb.index && e.tb.index[id].props.fullscreen
  {
    hide FullscreenMonitor, Quiet;
    EnterKeepsFlags(c, id);
  }

  lemma EnterKeepsFlags(c: Core, id: nat)
    requires id in c.tb.index
    ensures
      var e := EnterFullscreen(c, id, false);
      id in e.tb.index && e.tb.index[id].props.fullscreen && SameLists(c, e)
  {
    hide FullscreenMonitor;
  }

  /**
   * Enabling fullscreen puts a window, without border, on the whole surface of the monitor that owns its
   * workspace, reserved edges included; arranging, focusing and stacking in the same command leave it there.
   */
  lemma FullscreenCovers(c: Core, id: nat)
    requires Inv(c) && id in c.tb.index && c.topo.monitors != []
    ensures Sane(c)
    ensures EnteredOn(c, Step(c, CSetFullscreen(id, true, false)), id)
  {
    hide Step, DoEnter, OnSurface, Inv;
    InvSane(c);
    FullscreenStep(c, id, false);
    FullscreenMonitorIsOwner(c, id);
    EnteredLies(c, id);
  }

  lemma FullscreenStep(c: Core, id: nat, preserve: bool)
    requires Sane(c) && id in c.tb.index
    ensures Step(c, CSetFullscreen(id, true, preserve)) == DoEnter(c, id, preserve)
  {
    hide StepVisibility, StepFlag, StepGeometry, StepLayout, StepFocus, StepMove, DoApplySettings;
    hide DoEnter, DoLeave, DoEnsure, DoAssign, DoMetadata, DoBorderless, DoRemove, Sane, KeepsWindows;
  }

  lemma EnteredLies(c: Core, id: nat)
    requires Inv(c) && id in c.tb.index && c.topo.monitors != []
    ensures Sane(c)
    ensures EnteredOn(c, DoEnter(c, id, false), id)
  {
    hide EnterFullscreen, Arrange, Focus, Evaluate, OnSurface, Inv, Lies, SameGround, Quiet, Silent, KeepsWindows;
    InvSane(c);
    EnterLies(c, id);
    var e := EnterFullscreen(c, id, false);
    CoversWhenFullscreen(e, id, 0);
    ArrangeLies(e, id, 0);
    var a := Arrange(e);
    var p := Post(a, RaiseDocks);
    PostLies(a, id, 0);
    InvSane(p);
    FocusLies(p, id, id, 0);
    EvaluateLies(p, HomeOf(c.tb, id), id, 0);
    var d := DoEnter(c, id, false);
    GroundTrans(e, a, p, id);
    GroundTrans(e, p, d, id);
    SurfaceBack(c, e, d, id);
  }

  lemma CoversWhenFullscreen(c: Core, id: nat, border: int)
    requires Lies(c, id, border) && c.tb.index[id].props.fullscreen
    ensures id in c.tb.index && c.tb.index[id].Covers()
  {
  }

  lemma PostLies(c: Core, x: nat, border: int)
    requires Inv(c) && Lies(c, x, border)
    ensures Inv(Post(c, RaiseDocks)) && Lies(Post(c, RaiseDocks), x, border) && SameGround(c, Post(c, RaiseDocks), x)
  {
  }

  lemma GroundTrans(a: Core, b: Core, d: Core, x: nat)
    requires SameGround(a, b, x) && SameGround(b, d, x)
    ensures SameGround(a, d, x)
  {
  }

  /** Read in terms of the state before the command. */
  lemma SurfaceBack(c: Core, e: Core, d: Core, x: nat)
    requires SameButFlag(c, e, x) && SameGround(e, d, x) && Lies(d, x, 0)
    requires x in e.tb.index && e.tb.index[x].props.fullscreen
    ensures EnteredOn(c, d, x)
  {
  }

  // --- Moving ------------------------------------------------------------------------------------

  /** What moving a window does before its fullscreen geometry is refreshed. */
  lemma Replaced(c: Core, id: nat, ws: int)
    requires Inv(c) && id in c.tb.index && 0 <= ws < |c.modes|
    ensures
      var c1 := Post(c.(tb := Move(c.tb, id, ws)), WindowAssigned(id, ws));
      && Inv(c1) && Sane(c1) && id in c1.tb.home && c1.tb.home[id] == ws && c1.tb.index == c.tb.index && c1.topo == c.topo
  {
    hide Consistent, AliasesHonoured;
    PlaceInv(c, id, ws);
    MoveKeeps(c.tb, id, ws);
  }

  lemma Refreshed(c: Core, x: nat)
    requires Inv(c) && x in c.tb.index && x in c.tb.home
    ensures Sane(c)
    ensures
      var d := Refresh(c);
      && Inv(d) && x in d.tb.index && x in d.tb.home && d.tb.home == c.tb.home && d.topo == c.topo
      && d.tb.index[x].props == c.tb.index[x].props && |d.modes| == |c.modes|
  {
    hide Arrange, SyncVisibility, Quiet;
    RefreshInv(c);
    FlagsKept(SyncVisibility(c), Arrange(SyncVisibility(c)), x);
    SameSettings(SyncVisibility(c), Arrange(SyncVisibility(c)));
  }

  lemma PinLies(c: Core, id: nat, ws: int)
    requires Inv(c) && id in c.tb.index && id in c.tb.home && c.tb.home[id] == ws
    requires MonitorOf(c.topo, ws) >= 0 && !c.tb.index[id].OwnsGeometry()
    ensures
      var d := Pin(c, id, ws);
      Inv(d) && id in d.tb.index && Lies(d, id, c.tb.index[id].geo.border) && SameGround(c, d, id)
  {
    hide PinTo, OnSurface, Inv, Quiet;
    PinToSurface(c, id, MonitorOf(c.topo, ws), id);
    QuietInv(c, Pin(c, id, ws));
    QuietGround(c, Pin(c, id, ws), id);
    SameSettings(c, Pin(c, id, ws));
  }

  lemma RepinLies(c: Core, id: nat, src: int, ws: int)
    requires Inv(c) && id in c.tb.index && id in c.tb.home && c.tb.home[id] == ws
    requires MonitorOf(c.topo, ws) >= 0 && !c.tb.index[id].OwnsGeometry()
    ensures Sane(c)
    ensures
      var d := Repin(c, id, src, ws);
      Inv(d) && Lies(d, id, c.tb.index[id].geo.border) && SameGround(c, d, id)
  {
    hide Pin, Evaluate, OnSurface, Inv, Lies, SameGround, Quiet;
    InvSane(c);
    PinLies(c, id, ws);
    var c1, b := Pin(c, id, ws), c.tb.index[id].geo.border;
    InvSane(c1);
    EvaluateLies(c1, src, id, b);
    var c2 := Evaluate(c1, src);
    InvSane(c2);
    EvaluateLies(c2, ws, id, b);
    GroundTrans(c, c1, c2, id);
    GroundTrans(c, c2, Evaluate(c2, ws), id);
  }

  lemma FocusMovedLies(c: Core, id: nat, ws: int, border: int)
    requires Inv(c) && Lies(c, id, border)
    ensures Sane(c) && Lies(FocusMoved(c, id, ws), id, border) && SameGround(c, FocusMoved(c, id, ws), id)
  {
    hide Focus, Inv, Lies, SameGround;
    InvSane(c);
    FocusLies(c, id, id, border);
    FocusLies(c, NO_WINDOW, id, border);
  }

  lemma LandedOn(c: Core, a: Core, d: Core, id: nat, ws: int, border: int)
    requires a.topo == c.topo && id in a.tb.home && a.tb.home[id] == ws && SameGround(a, d, id) && Lies(d, id, border)
    ensures LiesOn(c, d, id, ws) && id in d.tb.home && d.tb.home[id] == ws
  {
    hide OnSurface;
    SurfaceIgnoresShown(d.tb.index[id].geo, c.topo, d.topo, c.topo.owner[ws]);
  }

  lemma SurfaceIgnoresShown(g: Geometry, t: Topology, r: Topology, m: int)
    requires 0 <= m < |t.monitors| == |r.monitors| && r.monitors[m] == t.monitors[m].(activeWs := r.monitors[m].activeWs)
    ensures OnSurface(g, r.monitors[m]) <==> OnSurface(g, t.monitors[m])
  {
  }

  /**
   * A window that covers the screen and leaves its geometry to the window manager lies, after a move, on
   * the whole surface of the monitor that owns the workspace it was moved to, whether that one is shown or not.
   */
  lemma MoveCovers(c: Core, id: nat, ws: int)
    requires Inv(c) && id in c.tb.index && 0 <= ws < |c.modes| && c.topo.monitors != []
    requires c.tb.index[id].Covers() && !c.tb.index[id].OwnsGeometry()
    ensures Sane(c) && LiesOn(c, DoMove(c, id, ws), id, ws)
    ensures id in DoMove(c, id, ws).tb.home && DoMove(c, id, ws).tb.home[id] == ws
  {
    hide Move, Refresh, Repin, FocusMoved, OnSurface, Inv, Lies, SameGround, LiesOn, Quiet;
    InvSane(c);
    Replaced(c, id, ws);
    var c1 := Post(c.(tb := Move(c.tb, id, ws)), WindowAssigned(id, ws));
    InvSane(c1);
    Refreshed(c1, id);
    var c2 := Refresh(c1);
    InvSane(c2);
    OwnedBySome(c2, ws);
    RepinLies(c2, id, HomeOf(c.tb, id), ws);
    var c3, b := Repin(c2, id, HomeOf(c.tb, id), ws), c2.tb.index[id].geo.border;
    InvSane(c3);
    FocusMovedLies(c3, id, ws, b);
    GroundTrans(c2, c3, FocusMoved(c3, id, ws), id);
    LandedOn(c, c2, FocusMoved(c3, id, ws), id, ws, b);
  }

  lemma OwnedBySome(c: Core, ws: int)
    requires Inv(c) && 0 <= ws < |c.modes| && c.topo.monitors != []
    ensures MonitorOf(c.topo, ws) >= 0
  {
  }

  lemma StepIsMove(c: Core, cmd: Command)
    requires Sane(c) && MoveCommand(cmd)
    ensures Step(c, cmd) == StepMove(c, cmd)
  {
    hide StepVisibility, StepFlag, StepGeometry, StepLayout, StepFocus, StepWindow, StepMove, DoApplySettings, Sane;
    hide KeepsWindows, Quiet, Silent, SameLists;
  }

  /** The three commands that move a window, as they name it and the workspace. */
  predicate Moves(c: Core, cmd: Command, id: nat, ws: int) {
    if cmd.CMoveWindowToWorkspace? then cmd.win == id && cmd.ws == ws
    else if cmd.CMoveWindowToMonitor? then
      && (cmd.win == id || (cmd.win == NO_WINDOW && id == CurrentFocused(c)))
      && 0 <= cmd.monitor < |c.topo.monitors| && c.topo.monitors[cmd.monitor].activeWs == ws
    else cmd.CMoveFocusedToWorkspace? && cmd.ws == ws && id == CurrentFocused(c)
  }

  lemma MoveIs(c: Core, cmd: Command, id: nat, ws: int)
    requires Sane(c) && Moves(c, cmd, id, ws) && ws >= 0 && id != NO_WINDOW
    ensures StepMove(c, cmd) == DoMove(c, id, ws)
  {
    hide DoMove, CurrentFocused, Sane, KeepsWindows;
  }

  lemma MoveCommandCovers(c: Core, cmd: Command, id: nat, ws: int)
    requires Inv(c) && id in c.tb.index && 0 <= ws < |c.modes| && c.topo.monitors != []
    requires c.tb.index[id].Covers() && !c.tb.index[id].OwnsGeometry() && Moves(c, cmd, id, ws)
    ensures Sane(c) && LiesOn(c, Step(c, cmd), id, ws)
  {
    hide Step, StepMove, DoMove, CurrentFocused, KeepsWindows, LiesOn, Sane;
    assert id != NO_WINDOW && MoveCommand(cmd);
    hide Inv;
    InvSane(c);
    MoveCovers(c, id, ws);
    StepIsMove(c, cmd);
    MoveIs(c, cmd, id, ws);
  }

  // --- Stacking ----------------------------------------------------------------------------------

  /** The members of `s` in the order of `list`. */
  ghost function Kept(list: seq<nat>, s: set<nat>): seq<nat> {
    if list == [] then []
    else
      var rest, id := Kept(list[..|list| - 1], s), list[|list| - 1];
      if id in s then rest + [id] else rest
  }

  lemma {:induction false} KeptOrdered(list: seq<nat>, s: set<nat>)
    requires Distinct(list)
    ensures Ordered(list, Kept(list, s)) && forall id :: id in Kept(list, s) <==> id in list && id in s
  {
    hide IndexOf;
    if list != [] {
      var front, last := list[..|list| - 1], list[|list| - 1];
      KeptOrdered(front, s);
      assert list == front + [last];
      var ids := Kept(front, s);
      forall i | 0 <= i < |ids|
        ensures ids[i] in front && IndexOf(list, ids[i]) == IndexOf(front, ids[i]) < |front|
      {
        assert ids[i] in ids;
        IndexOfFront(front, last, ids[i]);
      }
      IndexOfDistinct(list, |list| - 1);
    }
  }

  function Lowers(ids: seq<nat>): (r: seq<Effect>)
    ensures |r| == |ids| && forall i :: 0 <= i < |r| ==> r[i] == LowerWindow(ids[i])
  {
    seq(|ids|, i requires 0 <= i < |ids| => LowerWindow(ids[i]))
  }

  lemma {:induction false} LowerEffects(c: Core, list: seq<nat>, except: nat, k: nat, s: set<nat>)
    requires k <= |list| && forall id :: id in s <==> id in c.tb.index && CoversNow(c.tb.index[id]) && id != except
    ensures LowerOthers(c, list, except, k).effects == c.effects + Lowers(Kept(list[..k], s))
    ensures LowerOthers(c, list, except, k).events == c.events && LowerOthers(c, list, except, k).modes == c.modes
  {
    hide Quiet;
    if k > 0 {
      LowerEffects(c, list, except, k - 1, s);
      assert list[..k][..k - 1] == list[..k - 1];
    }
  }

  /** A visible window without decoration that covers the screen. */
  predicate CoversNow(w: Window) {
    w.vis.mapped && !w.vis.hiddenByWs && !w.vis.hiddenExplicitly && (w.props.fullscreen || w.props.borderless)
  }

  /** `others` are the visible windows of workspace `ws` that cover the screen, but for `f`, in its order. */
  ghost predicate CoversBut(c: Core, ws: int, f: nat, others: seq<nat>)
    requires 0 <= ws < |c.tb.lists|
  {
    && (forall id :: id in others <==> id in c.tb.lists[ws] && id in c.tb.index && CoversNow(c.tb.index[id]) && id != f)
    && Ordered(c.tb.lists[ws], others)
  }

  /** A workspace is in fullscreen mode if one of its visible windows covers the screen. */
  ghost predicate Fullscreen(c: Core, ws: int)
    requires 0 <= ws < |c.tb.lists|
  {
    exists id :: id in c.tb.lists[ws] && id in c.tb.index && CoversNow(c.tb.index[id])
  }

  lemma ModeIs(c: Core, ws: int)
    requires Sane(c) && 0 <= ws < |c.modes|
    ensures
      var d := EvaluateMode(c, ws);
      && d.modes == c.modes[ws := Fullscreen(c, ws)] && d.effects == c.effects && d.tb == c.tb && d.topo == c.topo
      && d.events == c.events + if Fullscreen(c, ws) != c.modes[ws] then [RaiseDocks] else []
  {
    hide Quiet;
    if Fullscreen(c, ws) {
      var id :| id in c.tb.lists[ws] && id in c.tb.index && CoversNow(c.tb.index[id]);
      var i :| 0 <= i < |c.tb.lists[ws]| && c.tb.lists[ws][i] == id;
      assert CoversVisibly(c.tb.index, c.tb.lists[ws][i]);
    }
  }

  /** The focus of a workspace with a visible window is visible. */
  lemma VisibleFirst(c: Core, ws: int)
    requires Sane(c) && 0 <= ws < |c.tb.lists| && Fullscreen(c, ws)
    ensures Shown(c.tb.index, Focused(c.tb.index, c.tb.lists[ws], c.tb.cursors[ws]))
  {
    var list := c.tb.lists[ws];
    var id :| id in list && id in c.tb.index && CoversNow(c.tb.index[id]);
    var i :| 0 <= i < |list| && list[i] == id;
    assert Shown(c.tb.index, list[i]);
    assert Candidate(c.tb.index, list, list[i]);
  }

  /** The stacking requests for the focused window `f` of a workspace in fullscreen mode. */
  function Restacking(c: Core, f: nat, others: seq<nat>): seq<Effect>
    requires f in c.tb.index
  {
    if !CoversNow(c.tb.index[f]) then [RaiseWindow(f)] + Lowers(others)
    else if c.topo.monitors == [] || c.tb.index[f].OwnsGeometry() then [RaiseWindow(f)]
    else [UpdateWindow(f), RaiseWindow(f)]
  }

  /**
   * Evaluating a workspace: it is in fullscreen mode exactly if a visible window of it covers the screen,
   * and the docks are restacked when that changes. In fullscreen mode the focused window is raised; if it
   * covers the screen it is pinned to its monitor first, else all that cover the screen are lowered, in list
   * order. Nothing else is emitted.
   */
  lemma StackingEffects(c: Core, ws: int, others: seq<nat>)
    requires Inv(c) && 0 <= ws < |c.modes|
    requires CoversBut(c, ws, FocusedOn(c, ws), others)
    ensures Sane(c)
    ensures
      var d, f := Evaluate(c, ws), FocusedOn(c, ws);
      && d.modes == c.modes[ws := Fullscreen(c, ws)]
      && d.events == c.events + (if Fullscreen(c, ws) != c.modes[ws] then [RaiseDocks] else [])
      && (!Fullscreen(c, ws) ==> d.effects == c.effects && d.tb == c.tb && d.dirty == c.dirty)
      && (Fullscreen(c, ws) ==> f in c.tb.index && d.effects == c.effects + Restacking(c, f, others))
  {
    hide Focused, Inv, EvaluateMode, Restack, Fullscreen, CoversBut, Quiet;
    InvSane(c);
    ModeIs(c, ws);
    ModeDirty(c, ws);
    if Fullscreen(c, ws) {
      VisibleFirst(c, ws);
      var d := EvaluateMode(c, ws);
      RestackEffects(c, d, ws, others);
    }
  }

  lemma ModeDirty(c: Core, ws: int)
    requires Sane(c) && 0 <= ws < |c.modes|
    ensures EvaluateMode(c, ws).dirty == c.dirty
  {
  }

  lemma RestackEffects(c: Core, d: Core, ws: int, others: seq<nat>)
    requires Inv(c) && d.tb == c.tb && d.topo == c.topo && d.effects == c.effects && 0 <= ws < |c.modes| == |c.tb.lists|
    requires
      var f := FocusedOn(c, ws);
      CoversBut(c, ws, f, others) && Shown(c.tb.index, f)
    ensures
      var f := FocusedOn(c, ws);
      var r := Restack(d, ws, f);
      && r.events == d.events && r.modes == d.modes && r.effects == c.effects + Restacking(c, f, others)
  {
    hide FocusedOn, Inv, LowerOthers, Pin, Quiet, CoversBut, Kept;
    var f := FocusedOn(c, ws);
    if CoversNow(c.tb.index[f]) {
      PinEffects(c, d, f, ws);
    } else {
      RaiseAndLower(c, d, ws, f, others);
    }
  }

  lemma RaiseAndLower(c: Core, d: Core, ws: int, f: nat, others: seq<nat>)
    requires Inv(c) && d.tb == c.tb && d.effects == c.effects && 0 <= ws < |c.tb.lists| && CoversBut(c, ws, f, others)
    ensures
      var list := c.tb.lists[ws];
      var r := LowerOthers(Emit(d, RaiseWindow(f)), list, f, |list|);
      r.effects == c.effects + ([RaiseWindow(f)] + Lowers(others)) && r.events == d.events && r.modes == d.modes
  {
    hide LowerOthers, Inv, Lowers, Ordered, Kept, CoversNow, Quiet;
    var list := c.tb.lists[ws];
    var s := set id | id in c.tb.index && CoversNow(c.tb.index[id]) && id != f;
    LowerEffects(Emit(d, RaiseWindow(f)), list, f, |list|, s);
    assert list[..|list|] == list;
    ListDistinct(c, ws);
    KeptOrdered(list, s);
    OrderedUnique(list, others, Kept(list, s));
  }

  lemma PinEffects(c: Core, d: Core, f: nat, ws: int)
    requires Inv(c) && d.tb == c.tb && d.topo == c.topo && 0 <= ws < |c.modes| && f in c.tb.index
    ensures
      var r := Pin(d, f, ws);
      && r.events == d.events && r.modes == d.modes
      && r.effects == d.effects + if c.topo.monitors == [] || c.tb.index[f].OwnsGeometry() then [] else [UpdateWindow(f)]
  {
    hide Quiet;
    if c.topo.monitors != [] {
      OwnedBySome(c, ws);
    }
    hide Inv;
  }

  lemma ListDistinct(c: Core, ws: int)
    requires Inv(c) && 0 <= ws < |c.tb.lists|
    ensures Distinct(c.tb.lists[ws])
  {
    assert ListOk(c.tb, ws);
  }

  /** In fullscreen mode, a focused window that covers the screen takes its monitor's whole surface. */
  lemma EvaluatePins(c: Core, ws: int)
    requires Inv(c) && 0 <= ws < |c.modes| && c.topo.monitors != [] && FocusedOn(c, ws) in c.tb.index
    requires CoversNow(c.tb.index[FocusedOn(c, ws)]) && !c.tb.index[FocusedOn(c, ws)].OwnsGeometry()
    ensures Sane(c) && LiesOn(c, Evaluate(c, ws), FocusedOn(c, ws), ws)
  {
    hide Focused, Inv, EvaluateMode, Fullscreen, Pin, OnSurface, Quiet;
    InvSane(c);
    var f := FocusedOn(c, ws);
    FocusIsListed(c, ws);
    assert Fullscreen(c, ws);
    ModeIs(c, ws);
    var d := EvaluateMode(c, ws);
    QuietInv(c, d);
    OwnedBySome(c, ws);
    PinLies(d, f, ws);
    SameSettings(d, Pin(d, f, ws));
  }

  lemma FocusIsListed(c: Core, ws: int)
    requires Inv(c) && 0 <= ws < |c.modes| && FocusedOn(c, ws) in c.tb.index
    requires CoversNow(c.tb.index[FocusedOn(c, ws)])
    ensures FocusedOn(c, ws) in c.tb.home && c.tb.home[FocusedOn(c, ws)] == ws && Fullscreen(c, ws)
  {
    FocusedInList(c, ws);
  }
}
