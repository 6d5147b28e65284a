/**
 * When a workspace is in fullscreen mode (core/src/core/core_dispatch.cpp:176-215): the recorded mode is
 * exact again after every command that can change which windows cover the screen.
 */
module ModeProofs {
  import opened Seqs
  import opened Monitors
  import opened Topology
  import opened Windows
  import opened WindowProofs
  import opened Flush
  import opened Reducer
  import opened ReducerProofs
  import opened ArrangeProofs
  import opened SurfaceProofs
  import opened FocusCommands
  import opened ListProofs
  import opened WindowCommands

  /** The workspace is recorded to be in fullscreen mode exactly if a visible window of it covers the screen. */
  ghost predicate ModeExact(c: Core, ws: int) {
    0 <= ws < |c.modes| && ws < |c.tb.lists| ==> (c.modes[ws] <==> Fullscreen(c, ws))
  }

  /** The same windows are visible, and cover the screen, on the same workspaces. */
  ghost predicate SameCover(c: Core, d: Core) {
    && d.tb.lists == c.tb.lists && d.tb.index.Keys == c.tb.index.Keys && |d.modes| == |c.modes|
    && forall id :: id in c.tb.index ==> (CoversNow(d.tb.index[id]) <==> CoversNow(c.tb.index[id]))
  }

  lemma SameFullscreen(c: Core, d: Core, ws: int)
    requires SameCover(c, d) && 0 <= ws < |c.tb.lists|
    ensures Fullscreen(c, ws) <==> Fullscreen(d, ws)
  {
    hide CoversNow;
    if Fullscreen(c, ws) {
      var id :| id in c.tb.lists[ws] && id in c.tb.index && CoversNow(c.tb.index[id]);
      assert id in d.tb.lists[ws] && CoversNow(d.tb.index[id]);
    }
    if Fullscreen(d, ws) {
      var id :| id in d.tb.lists[ws] && id in d.tb.index && CoversNow(d.tb.index[id]);
      assert id in c.tb.lists[ws] && CoversNow(c.tb.index[id]);
    }
  }

  lemma QuietCover(c: Core, d: Core)
    requires Quiet(c, d)
    ensures SameCover(c, d)
  {
    forall id | id in c.tb.index
      ensures CoversNow(d.tb.index[id]) <==> CoversNow(c.tb.index[id])
    {
      assert SameFlags(c.tb.index[id], d.tb.index[id]);
    }
  }

  /** Evaluating a workspace makes its mode exact, and leaves all others as they are. */
  lemma EvaluateExact(c: Core, ws: int)
    requires Inv(c)
    ensures Sane(c) && ModeExact(Evaluate(c, ws), ws) && Inv(Evaluate(c, ws))
    ensures forall k :: ModeExact(c, k) ==> ModeExact(Evaluate(c, ws), k)
  {
    hide Evaluate, Inv, Quiet, Fullscreen;
    InvSane(c);
    var d := Evaluate(c, ws);
    QuietInv(c, d);
    QuietCover(c, d);
    EvaluateModes(c, ws);
    forall k | 0 <= k < |c.tb.lists|
      ensures Fullscreen(c, k) <==> Fullscreen(d, k)
    {
      SameFullscreen(c, d, k);
    }
  }

  lemma EvaluateModes(c: Core, ws: int)
    requires Sane(c)
    ensures Evaluate(c, ws).modes == if 0 <= ws < |c.modes| then c.modes[ws := Fullscreen(c, ws)] else c.modes
  {
    hide EvaluateMode, Pin, Focused, Fullscreen, Quiet;
    if 0 <= ws < |c.modes| {
      ModeIs(c, ws);
      var c1 := EvaluateMode(c, ws);
      var f := Focused(c1.tb.index, c1.tb.lists[ws], c1.tb.cursors[ws]);
      PinModes(c1, f, ws);
      LowersModes(Emit(c1, RaiseWindow(f)), c1.tb.lists[ws], f, |c1.tb.lists[ws]|);
    }
  }

  lemma PinModes(c: Core, id: nat, ws: int)
    ensures Pin(c, id, ws).modes == c.modes
  {
    hide Quiet;
  }

  lemma {:induction false} LowersModes(c: Core, list: seq<nat>, except: nat, k: nat)
    requires k <= |list|
    ensures LowerOthers(c, list, except, k).modes == c.modes
  {
    hide Quiet;
    if k > 0 {
      LowersModes(c, list, except, k - 1);
    }
  }

  lemma SameExact(c: Core, d: Core)
    requires SameCover(c, d) && d.modes == c.modes
    ensures forall k :: ModeExact(c, k) ==> ModeExact(d, k)
  {
    hide Fullscreen;
    forall k | 0 <= k < |c.tb.lists|
      ensures Fullscreen(c, k) <==> Fullscreen(d, k)
    {
      SameFullscreen(c, d, k);
    }
  }

  lemma FocusExact(c: Core, id: nat)
    requires Inv(c)
    ensures Sane(c) && Inv(Focus(c, id))
    ensures forall k :: ModeExact(c, k) ==> ModeExact(Focus(c, id), k)
    ensures FocusTarget(c, id) != NO_WINDOW && FocusTarget(c, id) in c.tb.home ==>
      ModeExact(Focus(c, id), c.tb.home[FocusTarget(c, id)])
  {
    hide Evaluate, FocusWorkspace, PointAt, Inv, ModeExact;
    InvSane(c);
    FocusInv(c, id);
    var w := FocusTarget(c, id);
    if w != NO_WINDOW {
      FocusStateInv(c, w);
      PostedInv(c, w);
      EvaluateExact(Focusing(c, w), c.tb.home[w]);
      PointCover(c, w);
      SameExact(c, Focusing(c, w));
    } else {
      RootCover(c);
      SameExact(c, Focus(c, id));
    }
  }

  lemma RootCover(c: Core)
    ensures SameCover(c, Post(Emit(c, FocusRoot), FocusChanged(NO_WINDOW)))
  {
  }

  lemma PointCover(c: Core, w: nat)
    requires Inv(c) && w in c.tb.index && IsWs(c.tb, c.tb.home[w])
    ensures SameCover(c, Focusing(c, w)) && Focusing(c, w).modes == c.modes
  {
    hide FocusWorkspace;
    PointAtKeeps(c.tb, w);
  }

  lemma PostExact(c: Core, e: Event)
    ensures forall k :: ModeExact(c, k) <==> ModeExact(Post(c, e), k)
  {
    hide Fullscreen;
    forall k | 0 <= k < |c.tb.lists|
      ensures Fullscreen(c, k) <==> Fullscreen(Post(c, e), k)
    {
      SamePosted(c, e, k);
    }
  }

  lemma SamePosted(c: Core, e: Event, k: int)
    requires 0 <= k < |c.tb.lists|
    ensures Fullscreen(c, k) <==> Fullscreen(Post(c, e), k)
  {
  }

  // --- The commands ------------------------------------------------------------------------------

  /** After a switch the mode of that workspace is exact. */
  lemma SwitchExact(c: Core, ws: int, hint: Option<int>)
    requires Inv(c) && 0 <= ws < |c.topo.wsAlias| && c.topo.monitors != []
    ensures Sane(c) && ModeExact(Step(c, CSwitchWorkspace(ws, hint)), ws)
  {
    hide Step, SwitchTo, Refresh, Focus, Evaluate, Inv, ModeExact;
    InvSane(c);
    SwitchIs(c, ws, hint);
    var h := if hint.Some? then hint.value else NONE;
    SwitchedInv(c, ws, h);
    var c1 := c.(topo := SwitchTo(c.topo, ws, h, c.settings.aliases, c.settings.compose));
    RefreshInv(c1);
    var c2 := Refresh(c1);
    InvSane(c2);
    FocusInv(c2, NO_WINDOW);
    EvaluateExact(c2, ws);
    EvaluateExact(Focus(c2, NO_WINDOW), ws);
    PostExact(Evaluate(c2, ws), WorkspaceSwitched(ws));
    PostExact(Evaluate(Focus(c2, NO_WINDOW), ws), WorkspaceSwitched(ws));
  }

  /** After fullscreen is switched on or off, the mode of the window's workspace is exact. */
  lemma FullscreenExact(c: Core, id: nat, enabled: bool, preserve: bool)
    requires Inv(c) && id in c.tb.index && (enabled || c.tb.index[id].props.fullscreen)
    ensures Sane(c) && id in c.tb.home && ModeExact(Step(c, CSetFullscreen(id, enabled, preserve)), c.tb.home[id])
  {
    hide Step, DoEnter, DoLeave, Inv, ModeExact, KeepsWindows;
    InvSane(c);
    FullscreenIs(c, id, enabled, preserve);
    InvHome(c, id);
    hide Sane;
    EnterExact(c, id, preserve);
    LeaveExact(c, id);
  }

  lemma EnterExact(c: Core, id: nat, preserve: bool)
    requires Inv(c) && id in c.tb.index
    ensures Sane(c) && id in c.tb.home && ModeExact(DoEnter(c, id, preserve), c.tb.home[id])
  {
    hide EnterFullscreen, Arrange, Focus, Evaluate, Inv, ModeExact, Quiet, Silent, IsShown;
    InvSane(c);
    InvHome(c, id);
    InvNoWindow(c, id);
    EnterSays(c, id, preserve);
    EnterLists(c, id, preserve);
    var e := EnterFullscreen(c, id, preserve);
    QuietInv(e, Arrange(e));
    SameSettings(e, Arrange(e));
    DocksSays(Arrange(e));
    var p := Post(Arrange(e), RaiseDocks);
    InvSane(p);
    if IsShown(p.topo.monitors, c.tb.home[id]) && Shown(p.tb.index, id) {
      FocusExact(p, id);
    } else {
      EvaluateExact(p, c.tb.home[id]);
    }
  }

  lemma LeaveExact(c: Core, id: nat)
    requires Inv(c) && id in c.tb.index
    ensures Sane(c) && id in c.tb.home && ModeExact(DoLeave(c, id), c.tb.home[id])
  {
    hide LeaveFullscreen, Arrange, Evaluate, Inv, ModeExact, Quiet, Silent;
    InvSane(c);
    InvHome(c, id);
    InvNoWindow(c, id);
    var e := LeaveFullscreen(c, id);
    LeaveEffects(c, id);
    SameListsInv(c, e);
    QuietInv(e, Arrange(e));
    EvaluateExact(Arrange(e), c.tb.home[id]);
    PostExact(Evaluate(Arrange(e), c.tb.home[id]), RaiseDocks);
  }

  /** After a window loses or gets its decorations, and after one is removed, the mode of its workspace is exact. */
  lemma RemovalExact(c: Core, id: nat, flag: bool)
    requires Inv(c) && id in c.tb.index
    ensures Sane(c) && id in c.tb.home
    ensures ModeExact(Step(c, CRemoveWindow(id)), c.tb.home[id])
    ensures ModeExact(Step(c, CSetBorderless(id, flag)), c.tb.home[id])
  {
    hide Step, DoRemove, DoBorderless, Inv, ModeExact, KeepsWindows;
    InvSane(c);
    RemoveIs(c, id);
    BorderlessIs(c, id, flag);
    InvHome(c, id);
    hide Sane;
    RemovedExact(c, id);
    BorderlessExact(c, id, flag);
  }

  lemma RemovedExact(c: Core, id: nat)
    requires Inv(c) && id in c.tb.index
    ensures Sane(c) && id in c.tb.home && ModeExact(DoRemove(c, id), c.tb.home[id])
  {
    hide Evaluate, Drop, ModeExact;
    InvSane(c);
    InvHome(c, id);
    InvNoWindow(c, id);
    DropKeeps(c.tb, id);
    EvaluateExact(c.(tb := Drop(c.tb, id), dirty := c.dirty - {id}), c.tb.home[id]);
  }

  lemma BorderlessExact(c: Core, id: nat, flag: bool)
    requires Inv(c) && id in c.tb.index
    ensures Sane(c) && id in c.tb.home && ModeExact(DoBorderless(c, id, flag), c.tb.home[id])
  {
    hide Evaluate, Inv, ModeExact, Quiet;
    InvSane(c);
    InvHome(c, id);
    InvNoWindow(c, id);
    var w0 := c.tb.index[id];
    var w := w0.(props := w0.props.(borderless := flag, promoteToBorderless := false));
    var a, b := Put(c, id, w), Emit(Put(c, id, WithBorder(w, 0)), UpdateWindow(id));
    PutInv(c, id, w);
    PutInv(c, id, WithBorder(w, 0));
    SameListsInv(Put(c, id, WithBorder(w, 0)), b);
    EvaluateExact(a, c.tb.home[id]);
    EvaluateExact(b, c.tb.home[id]);
  }

  /** After a window that covers the screen is moved, the modes of both workspaces are exact. */
  lemma MoveExact(c: Core, cmd: Command, id: nat, ws: int)
    requires Inv(c) && id in c.tb.index && 0 <= ws < |c.modes| && Moves(c, cmd, id, ws) && c.tb.index[id].Covers()
    ensures Sane(c) && id in c.tb.home && ModeExact(Step(c, cmd), c.tb.home[id]) && ModeExact(Step(c, cmd), ws)
  {
    hide Step, StepMove, DoMove, CurrentFocused, KeepsWindows, Inv, Sane, ModeExact;
    InvSane(c);
    InvNoWindow(c, id);
    InvHome(c, id);
    assert MoveCommand(cmd);
    StepIsMove(c, cmd);
    MoveIs(c, cmd, id, ws);
    MovedExact(c, id, ws);
  }

  lemma MovedExact(c: Core, id: nat, ws: int)
    requires Inv(c) && id in c.tb.index && 0 <= ws < |c.modes| && c.tb.index[id].Covers()
    ensures Sane(c) && id in c.tb.home && ModeExact(DoMove(c, id, ws), c.tb.home[id]) && ModeExact(DoMove(c, id, ws), ws)
  {
    hide Move, Refresh, Pin, Evaluate, Focus, Inv, ModeExact, Quiet, IsShown;
    InvSane(c);
    InvHome(c, id);
    InvNoWindow(c, id);
    Replaced(c, id, ws);
    var c1 := Post(c.(tb := Move(c.tb, id, ws)), WindowAssigned(id, ws));
    RefreshInv(c1);
    var c2 := Refresh(c1);
    InvSane(c2);
    var p := Pin(c2, id, ws);
    QuietInv(c2, p);
    InvSane(p);
    EvaluateExact(p, c.tb.home[id]);
    var e := Evaluate(p, c.tb.home[id]);
    EvaluateExact(e, ws);
    FocusExact(Evaluate(e, ws), id);
    FocusExact(Evaluate(e, ws), NO_WINDOW);
  }
}
