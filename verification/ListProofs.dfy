/**
 * The order of a workspace's windows and its cursor (core/src/core/workspace_manager.cpp:27-80, 766-894,
 * 996-1030): which window the cursor is on before and after windows come, go, are moved or swapped.
 */
module ListProofs {
  import opened Seqs
  import opened Monitors
  import opened Topology
  import opened TopologyProofs
  import opened Windows
  import opened WindowProofs
  import opened Reducer
  import opened ReducerProofs
  import opened ArrangeProofs
  import opened SurfaceProofs
  import opened FocusCommands

  // --- The focused window of a workspace ---------------------------------------------------------

  predicate VisibleAt(index: Index, list: seq<nat>, i: int) {
    0 <= i < |list| && list[i] in index &&
    var v := index[list[i]].vis;
    v.mapped && !v.hiddenByWs && !v.hiddenExplicitly
  }

  /** The first visible position of a list. */
  predicate FirstVisible(index: Index, list: seq<nat>, k: int) {
    VisibleAt(index, list, k) && forall i | 0 <= i < k :: !VisibleAt(index, list, i)
  }

  lemma {:induction false} FirstFrom(index: Index, list: seq<nat>, from: nat, k: nat)
    requires FirstVisible(index, list, k) && from <= k
    ensures FirstCandidate(index, list, from) == list[k]
    decreases k - from
  {
    assert Shown(index, list[k]);
    assert VisibleAt(index, list, from) <==> Shown(index, list[from]);
    if from < k {
      FirstFrom(index, list, from + 1, k);
    }
  }

  /**
   * The focused window of a workspace is the one at the cursor, if that is visible or none is; else it is
   * the first visible one. An empty workspace has none.
   */
  lemma FocusedIs(index: Index, list: seq<nat>, cursor: int)
    ensures list == [] ==> Focused(index, list, cursor) == NO_WINDOW
    ensures VisibleAt(index, list, cursor) ==> Focused(index, list, cursor) == list[cursor]
    ensures forall k :: FirstVisible(index, list, k) && !VisibleAt(index, list, cursor) ==>
      Focused(index, list, cursor) == list[k]
    ensures (forall i :: !VisibleAt(index, list, i)) && list != [] ==>
      Focused(index, list, cursor) == list[if 0 <= cursor < |list| then cursor else 0]
  {
    hide FirstCandidate;
    assert forall i :: 0 <= i < |list| ==> (VisibleAt(index, list, i) <==> Shown(index, list[i]));
    forall k | FirstVisible(index, list, k) && !VisibleAt(index, list, cursor)
      ensures Focused(index, list, cursor) == list[k]
    {
      FirstFrom(index, list, 0, k);
    }
    NoCandidates(index, list);
  }

  lemma NoCandidates(index: Index, list: seq<nat>)
    ensures list == [] ==> FirstCandidate(index, list, 0) == NO_WINDOW
    ensures !AnyShown(index, list) && list != [] ==> FirstCandidate(index, list, 0) == list[0]
  {
  }

  // --- Taking a window off its list --------------------------------------------------------------

  /** The cursor of workspace `ws` is on window `x`. */
  predicate CursorOn(tb: Table, ws: int, x: nat) {
    0 <= ws < |tb.lists| && ws < |tb.cursors| && 0 <= tb.cursors[ws] < |tb.lists[ws]| && tb.lists[ws][tb.cursors[ws]] == x
  }

  /**
   * `id` was taken off workspace `ws`: the others keep their order, and the cursor stays on its window. If it
   * was on `id`, it is now on the window after it, else on the last one, else nowhere.
   */
  ghost predicate TakenOff(a: Table, b: Table, ws: int, id: nat)
    requires 0 <= ws < |a.lists| == |b.lists| && |b.cursors| == |b.lists|
  {
    exists i :: 0 <= i < |a.lists[ws]| && a.lists[ws][i] == id && OffAt(a, b, ws, i)
  }

  ghost predicate OffAt(a: Table, b: Table, ws: int, i: int)
    requires 0 <= ws < |a.lists| == |b.lists| && |b.cursors| == |b.lists| && 0 <= i < |a.lists[ws]|
  {
    var list := a.lists[ws];
    && b.lists[ws] == list[..i] + list[i + 1..]
    && (forall x :: CursorOn(a, ws, x) && x != list[i] ==> CursorOn(b, ws, x))
    && (CursorOn(a, ws, list[i]) ==>
          if i + 1 < |list| then CursorOn(b, ws, list[i + 1])
          else if i > 0 then CursorOn(b, ws, list[i - 1])
          else b.cursors[ws] == -1)
  }

  /** The cursor after position `i` was erased points at the window it pointed at, or else at a neighbour. */
  lemma ErasedCursor(list: seq<nat>, cursor: int, i: nat)
    requires Distinct(list) && 0 <= cursor < |list| && i < |list|
    ensures
      var r, k := Erase(list, i), CursorAfterErase(cursor, i, |list| - 1);
      && |r| == |list| - 1
      && (if r == [] then k == -1
          else 0 <= k < |r| && r[k] == if cursor != i then list[cursor] else if i + 1 < |list| then list[i + 1] else list[i - 1])
  {
    var r := Erase(list, i);
    assert forall k :: 0 <= k < |r| ==> r[k] == if k < i then list[k] else list[k + 1];
  }

  lemma UnlistTakesOff(tb: Table, id: nat)
    requires TableOk(tb) && id in tb.home
    ensures 0 <= tb.home[id] < |tb.lists| && TakenOff(tb, Unlist(tb, tb.home[id], id), tb.home[id], id)
  {
    var ws := tb.home[id];
    assert ListOk(tb, ws) && id in tb.lists[ws];
    hide TableOk, CursorAfterErase, Erase;
    var list := tb.lists[ws];
    var i := IndexOf(list, id);
    var r := Unlist(tb, ws, id);
    ErasedCursor(list, tb.cursors[ws], i);
    Apart(list, tb.cursors[ws], i);
    ErasedIs(list, i);
    assert OffAt(tb, r, ws, i);
  }

  lemma Apart(list: seq<nat>, i: int, j: int)
    requires Distinct(list) && 0 <= i < |list| && 0 <= j < |list|
    ensures list[i] == list[j] ==> i == j
  {
  }

  lemma ErasedIs(list: seq<nat>, i: nat)
    requires i < |list|
    ensures Erase(list, i) == list[..i] + list[i + 1..]
  {
  }

  /** Removing a window takes it off its list and out of the indexes; other workspaces and windows keep all. */
  lemma RemoveTakesOff(c: Core, id: nat)
    requires Inv(c) && id in c.tb.index
    ensures Sane(c) && Removed(c.tb, Step(c, CRemoveWindow(id)).tb, id) && Step(c, CRemoveWindow(id)).topo == c.topo
  {
    hide Step, DoRemove, Removed, Inv, Sane, KeepsWindows;
    InvSane(c);
    RemoveIs(c, id);
    RemovedTable(c, id);
    MoveKeepsTable(c, id, 0);
    UnlistRemoves(c.tb, DoRemove(c, id).tb, id);
  }

  lemma RemoveIs(c: Core, id: nat)
    requires Sane(c)
    ensures Step(c, CRemoveWindow(id)) == DoRemove(c, id)
  {
    hide StepVisibility, StepFlag, StepGeometry, StepLayout, StepFocus, StepMove, DoApplySettings, Sane;
    hide DoFullscreen, DoEnsure, DoAssign, DoMetadata, DoBorderless, DoRemove, KeepsWindows, Quiet, Silent, SameLists;
  }

  ghost predicate Removed(a: Table, b: Table, id: nat) {
    && id in a.home && 0 <= a.home[id] < |a.lists| && |b.lists| == |b.cursors| == |a.lists| == |a.cursors|
    && TakenOff(a, b, a.home[id], id)
    && (forall k :: 0 <= k < |a.lists| && k != a.home[id] ==> b.lists[k] == a.lists[k] && b.cursors[k] == a.cursors[k])
    && b.home == a.home - {id} && b.index.Keys == a.index.Keys - {id}
  }

  lemma UnlistRemoves(a: Table, b: Table, id: nat)
    requires TableOk(a) && id in a.home
    requires
      var u := Unlist(a, a.home[id], id);
      b.lists == u.lists && b.cursors == u.cursors && b.home == a.home - {id} && b.index.Keys == a.index.Keys - {id}
    ensures Removed(a, b, id)
  {
    hide TakenOff, Unlist, ListOk;
    UnlistFacts(a, id);
    UnlistTakesOff(a, id);
    SameTakenOff(a, Unlist(a, a.home[id], id), b, a.home[id], id);
  }

  lemma SameTakenOff(a: Table, u: Table, b: Table, ws: int, id: nat)
    requires 0 <= ws < |a.lists| == |u.lists| && |u.cursors| == |u.lists| && TakenOff(a, u, ws, id)
    requires b.lists == u.lists && b.cursors == u.cursors
    ensures TakenOff(a, b, ws, id)
  {
    var i :| 0 <= i < |a.lists[ws]| && a.lists[ws][i] == id && OffAt(a, u, ws, i);
    assert forall x :: CursorOn(u, ws, x) <==> CursorOn(b, ws, x);
    assert OffAt(a, b, ws, i);
  }

  lemma RemovedTable(c: Core, id: nat)
    requires Inv(c) && id in c.tb.index
    ensures Sane(c) && id in c.tb.home
    ensures
      var d, u := DoRemove(c, id), Unlist(c.tb, c.tb.home[id], id);
      && d.tb.lists == u.lists && d.tb.cursors == u.cursors && d.tb.home == c.tb.home - {id} && d.topo == c.topo
      && d.tb.index.Keys == c.tb.index.Keys - {id}
  {
    hide Evaluate, Unlist, Quiet;
    InvSane(c);
    DropKeeps(c.tb, id);
    var e := c.(tb := Drop(c.tb, id), dirty := c.dirty - {id});
    SameSettings(e, Evaluate(e, HomeOf(c.tb, id)));
    QuietWindows(e, Evaluate(e, HomeOf(c.tb, id)));
  }

  // --- Moving and creating -----------------------------------------------------------------------

  /** `id` went from the end of no list to the end of workspace `ws`, whose cursor stays unless it was empty. */
  ghost predicate AddedTo(a: Table, b: Table, ws: int, id: nat)
    requires 0 <= ws < |a.lists| == |b.lists| && |a.cursors| == |a.lists| && |b.cursors| == |b.lists|
  {
    && b.lists[ws] == a.lists[ws] + [id]
    && b.cursors[ws] == if a.lists[ws] == [] then 0 else a.cursors[ws]
  }

  /**
   * Moving a window takes it off its list and appends it to the other one; every other list, cursor, home
   * and window stays. Moving it to where it is changes nothing.
   */
  lemma MovePlaces(tb: Table, id: nat, ws: int)
    requires TableOk(tb) && id in tb.index && IsWs(tb, ws)
    ensures id in tb.home && 0 <= tb.home[id] < |tb.lists|
    ensures
      var r, src := Move(tb, id, ws), tb.home[id];
      if src == ws then r == tb
      else
        && |r.lists| == |r.cursors| == |tb.lists| && TakenOff(tb, r, src, id) && AddedTo(tb, r, ws, id)
        && (forall k :: 0 <= k < |tb.lists| && k != src && k != ws ==> r.lists[k] == tb.lists[k] && r.cursors[k] == tb.cursors[k])
        && r.home == tb.home[id := ws] && r.index == tb.index
  {
    var src := tb.home[id];
    if src != ws {
      hide TakenOff;
      UnlistFacts(tb, id);
      UnlistTakesOff(tb, id);
      assert ListOk(tb, ws);
      var u, r := Unlist(tb, src, id), Move(tb, id, ws);
      assert tb.index[id := tb.index[id]] == tb.index;
      OnlyThere(tb, u, r, src, id);
    }
  }

  lemma OnlyThere(a: Table, u: Table, b: Table, ws: int, id: nat)
    requires 0 <= ws < |a.lists| == |u.lists| && |u.cursors| == |u.lists| && TakenOff(a, u, ws, id)
    requires |b.lists| == |b.cursors| == |u.lists| && b.lists[ws] == u.lists[ws] && b.cursors[ws] == u.cursors[ws]
    ensures TakenOff(a, b, ws, id)
  {
    var i :| 0 <= i < |a.lists[ws]| && a.lists[ws][i] == id && OffAt(a, u, ws, i);
    assert forall x :: CursorOn(u, ws, x) <==> CursorOn(b, ws, x);
    assert OffAt(a, b, ws, i);
  }

  lemma FocusLists(c: Core, id: nat)
    requires Inv(c)
    ensures Sane(c) && Focus(c, id).tb.lists == c.tb.lists && Focus(c, id).tb.home == c.tb.home
  {
    hide Evaluate, FocusWorkspace, Inv, Quiet;
    InvSane(c);
    var w := FocusTarget(c, id);
    if w != NO_WINDOW {
      FocusStateInv(c, w);
      PointAtLists(c.tb, w);
      SameSettings(Focusing(c, w), Evaluate(Focusing(c, w), c.tb.home[w]));
    }
  }

  lemma PointAtLists(tb: Table, id: nat)
    requires id in tb.index && id in tb.home && IsWs(tb, tb.home[id])
    ensures PointAt(tb, id).lists == tb.lists && PointAt(tb, id).home == tb.home
  {
  }

  lemma RefreshLists(c: Core)
    requires Inv(c)
    ensures Sane(c) && Inv(Refresh(c)) && Refresh(c).tb.lists == c.tb.lists && Refresh(c).tb.home == c.tb.home
  {
    hide Arrange, SyncVisibility, Quiet, Inv;
    InvSane(c);
    RefreshInv(c);
    SameSettings(SyncVisibility(c), Arrange(SyncVisibility(c)));
  }

  lemma MovedLists(c: Core, id: nat, ws: int)
    requires Inv(c) && id in c.tb.index && 0 <= ws < |c.modes|
    ensures Sane(c)
    ensures DoMove(c, id, ws).tb.lists == Move(c.tb, id, ws).lists && DoMove(c, id, ws).tb.home == Move(c.tb, id, ws).home
  {
    hide Move, Refresh, Repin, Focus, Inv, Quiet;
    InvSane(c);
    Replaced(c, id, ws);
    var c1 := Post(c.(tb := Move(c.tb, id, ws)), WindowAssigned(id, ws));
    RefreshLists(c1);
    var c2 := Refresh(c1);
    InvSane(c2);
    var c3 := Repin(c2, id, HomeOf(c.tb, id), ws);
    QuietInv(c2, c3);
    SameSettings(c2, c3);
    FocusLists(c2, id);
    FocusLists(c2, NO_WINDOW);
    FocusLists(c3, id);
    FocusLists(c3, NO_WINDOW);
  }

  /** `b` is `a` without `id`, in the same order. */
  ghost predicate OneLess(a: seq<nat>, b: seq<nat>, id: nat) {
    exists i :: 0 <= i < |a| && a[i] == id && b == a[..i] + a[i + 1..]
  }

  /** Window `id` is last on workspace `ws`, if it was elsewhere before; the other windows keep list and order. */
  ghost predicate Placed(a: Table, b: Table, id: nat, ws: int) {
    && id in a.home && |b.lists| == |a.lists| && b.home == a.home[id := ws]
    && var src := a.home[id];
       if src == ws then b.lists == a.lists
       else
         && 0 <= src < |a.lists| && 0 <= ws < |a.lists|
         && b.lists[ws] == a.lists[ws] + [id] && OneLess(a.lists[src], b.lists[src], id)
         && forall k :: 0 <= k < |a.lists| && k != src && k != ws ==> b.lists[k] == a.lists[k]
  }

  /** Whichever command moves a window: it ends up last on that workspace, and the others keep their order. */
  lemma MoveCommandPlaces(c: Core, cmd: Command, id: nat, ws: int)
    requires Inv(c) && id in c.tb.index && 0 <= ws < |c.modes| && Moves(c, cmd, id, ws)
    ensures Sane(c) && Placed(c.tb, Step(c, cmd).tb, id, ws)
  {
    hide Step, StepMove, DoMove, Move, CurrentFocused, KeepsWindows, Placed, Inv, Sane;
    InvSane(c);
    InvNoWindow(c, id);
    assert MoveCommand(cmd);
    StepIsMove(c, cmd);
    MoveIs(c, cmd, id, ws);
    MovedPlaced(c, id, ws);
  }

  lemma MovedPlaced(c: Core, id: nat, ws: int)
    requires Inv(c) && id in c.tb.index && 0 <= ws < |c.modes|
    ensures Sane(c) && Placed(c.tb, DoMove(c, id, ws).tb, id, ws)
  {
    hide DoMove, Move, Inv, KeepsWindows;
    InvSane(c);
    MovedLists(c, id, ws);
    MoveKeepsTable(c, id, ws);
    MovePlaces(c.tb, id, ws);
  }

  lemma MoveKeepsTable(c: Core, id: nat, ws: int)
    requires Inv(c)
    ensures TableOk(c.tb)
  {
  }

  /**
   * A new window is listed last on the workspace it names, else on the one the focused monitor shows, else on
   * the first one; nothing else changes.
   */
  lemma EnsurePlaces(c: Core, id: nat, ws: int)
    requires Inv(c) && id != NO_WINDOW && id !in c.tb.index && c.tb.lists != []
    ensures Sane(c)
    ensures
      var d, shown := Step(c, CEnsureWindow(id, ws)), ActiveWs(c.topo, c.topo.focused);
      var dst := if 0 <= ws < |c.tb.lists| then ws else if 0 <= shown < |c.tb.lists| then shown else 0;
      && |d.tb.lists| == |c.tb.lists| == |d.tb.cursors| == |c.tb.cursors| && AddedTo(c.tb, d.tb, dst, id)
      && (forall k :: 0 <= k < |c.tb.lists| && k != dst ==> d.tb.lists[k] == c.tb.lists[k] && d.tb.cursors[k] == c.tb.cursors[k])
      && d.tb.home == c.tb.home[id := dst] && d.tb.index == c.tb.index[id := FRESH] && d == c.(tb := d.tb)
  {
    hide Step, ActiveWs, StepVisibility, StepFlag, StepGeometry, StepLayout, DoApplySettings, DoBorderless, DoRemove;
    InvSane(c);
    StepIsSilent(c, CEnsureWindow(id, ws));
    var shown := ActiveWs(c.topo, c.topo.focused);
    var dst := if 0 <= ws < |c.tb.lists| then ws else if 0 <= shown < |c.tb.lists| then shown else 0;
    assert ListOk(c.tb, dst);
  }

  // --- Zooming -----------------------------------------------------------------------------------

  predicate TiledAt(index: Index, list: seq<nat>, i: int) {
    0 <= i < |list| && list[i] in index && !index[list[i]].props.floating
  }

  /** `p` and `q` are the first two positions of `list` with windows that do not float. */
  ghost predicate FirstTwo(index: Index, list: seq<nat>, p: int, q: int) {
    && TiledAt(index, list, p) && TiledAt(index, list, q) && p < q
    && forall i :: TiledAt(index, list, i) ==> i == p || i >= q
  }

  lemma {:induction false} TiledPositionsAre(index: Index, list: seq<nat>, k: nat)
    requires k <= |list|
    ensures forall i :: 0 <= i < |TiledPositions(index, list, k)| ==> TiledAt(index, list, TiledPositions(index, list, k)[i])
    ensures forall i, j :: 0 <= i < j < |TiledPositions(index, list, k)| ==>
      TiledPositions(index, list, k)[i] < TiledPositions(index, list, k)[j]
    ensures forall p :: 0 <= p < k && TiledAt(index, list, p) ==> p in TiledPositions(index, list, k)
  {
    if k > 0 {
      TiledPositionsAre(index, list, k - 1);
      var rest, ps := TiledPositions(index, list, k - 1), TiledPositions(index, list, k);
      forall p | 0 <= p < k && TiledAt(index, list, p)
        ensures p in ps
      {
        if p < k - 1 {
          assert p in rest;
        } else {
          assert ps[|rest|] == p;
        }
      }
    }
  }

  lemma TwoTiled(index: Index, list: seq<nat>, p: int, q: int)
    requires FirstTwo(index, list, p, q)
    ensures
      var ps := TiledPositions(index, list, |list|);
      |ps| >= 2 && ps[0] == p && ps[1] == q
  {
    TiledPositionsAre(index, list, |list|);
    var ps := TiledPositions(index, list, |list|);
    assert p in ps && q in ps;
    assert ps[0] == p || ps[0] >= q;
    var i :| 0 <= i < |ps| && ps[i] == p;
    var j :| 0 <= j < |ps| && ps[j] == q;
    assert i == 0;
    assert ps[1] == p || ps[1] >= q;
  }

  /** Windows `p` and `q` of the list changed places. */
  predicate Swapped(a: seq<nat>, b: seq<nat>, p: int, q: int) {
    0 <= p < |a| && 0 <= q < |a| && |b| == |a| && b[p] == a[q] && b[q] == a[p] &&
    forall i | 0 <= i < |a| && i != p && i != q :: b[i] == a[i]
  }

  /**
   * Zoom swaps the focused window with the first one that does not float or, if it is that one, with the
   * second; the cursor goes with the focused window, and the other workspaces stay. It does nothing if the
   * focused window floats, or no other window is tiled.
   */
  lemma ZoomSwaps(c: Core, ws: int, f: nat, p: int, q: int)
    requires Inv(c) && ws == CurrentWs(c) && 0 <= ws < |c.tb.lists| && f == FocusedOn(c, ws)
    requires FirstTwo(c.tb.index, c.tb.lists[ws], p, q)
    ensures Sane(c)
    ensures
      var d := Step(c, CZoom);
      if !Tiled(c.tb.index, f) then d == c
      else
        && Zoomed(c.tb, d.tb, ws, f, p, q) && d.topo == c.topo
  {
    hide Step, DoZoom, CurrentWs, FocusedOn, Inv, FirstTwo, Zoomed, Sane;
    hide StepVisibility, StepFlag, StepGeometry, DoApplySettings, DoEnsure, DoBorderless, DoRemove, DoConfigure, DoReserve;
    InvSane(c);
    StepIsSilent(c, CZoom);
    DoesZoom(c, ws, f, p, q);
  }

  lemma DoesZoom(c: Core, ws: int, f: nat, p: int, q: int)
    requires Inv(c) && ws == CurrentWs(c) && 0 <= ws < |c.tb.lists| && f == FocusedOn(c, ws)
    requires FirstTwo(c.tb.index, c.tb.lists[ws], p, q)
    ensures Sane(c)
    ensures if Tiled(c.tb.index, f) then Zoomed(c.tb, DoZoom(c).tb, ws, f, p, q) && DoZoom(c).topo == c.topo else DoZoom(c) == c
  {
    hide CurrentWs, FocusedOn, Arrange, Inv, Quiet, TiledPositions, ZoomTable, Zoomed, FirstTwo;
    InvSane(c);
    TwoTiled(c.tb.index, c.tb.lists[ws], p, q);
    assert p < q by {
      TwoApart(c.tb.index, c.tb.lists[ws], p, q);
    }
    FocusedListed(c, ws);
    ListDistinct(c, ws);
    if Tiled(c.tb.index, f) {
      TiledLive(c, f);
      ZoomedTable(c.tb, ws, f, p, q);
      var e := c.(tb := ZoomTable(c.tb, ws));
      SameSettings(e, Arrange(e));
      SameZoomed(c.tb, e.tb, Arrange(e).tb, ws, f, p, q);
    }
  }

  lemma TwoApart(index: Index, list: seq<nat>, p: int, q: int)
    requires FirstTwo(index, list, p, q)
    ensures p < q
  {
  }

  /** The focused window `f` of workspace `ws` changed places with another one, and the cursor follows it. */
  ghost predicate Zoomed(a: Table, b: Table, ws: int, f: nat, p: int, q: int)
    requires 0 <= ws < |a.lists|
  {
    && |b.lists| == |a.lists| && |b.cursors| == |a.cursors| && b.home == a.home
    && (exists at :: 0 <= at < |a.lists[ws]| && a.lists[ws][at] == f &&
          Swapped(a.lists[ws], b.lists[ws], p, if at == p then q else at))
    && CursorOn(b, ws, f)
    && (forall k :: 0 <= k < |a.lists| && k != ws ==> b.lists[k] == a.lists[k])
    && (forall k :: 0 <= k < |a.cursors| && k != ws ==> b.cursors[k] == a.cursors[k])
  }

  lemma SameZoomed(a: Table, e: Table, b: Table, ws: int, f: nat, p: int, q: int)
    requires 0 <= ws < |a.lists| && Zoomed(a, e, ws, f, p, q)
    requires b.lists == e.lists && b.cursors == e.cursors && b.home == e.home
    ensures Zoomed(a, b, ws, f, p, q)
  {
  }

  lemma TiledLive(c: Core, f: nat)
    requires Inv(c) && Tiled(c.tb.index, f)
    ensures f != NO_WINDOW
  {
  }

  lemma FocusedListed(c: Core, ws: int)
    requires Sane(c) && 0 <= ws < |c.tb.lists|
    ensures FocusedOn(c, ws) == Focused(c.tb.index, c.tb.lists[ws], c.tb.cursors[ws])
    ensures FocusedOn(c, ws) != NO_WINDOW ==> FocusedOn(c, ws) in c.tb.lists[ws]
  {
  }

  lemma ZoomedTable(tb: Table, ws: int, f: nat, p: int, q: int)
    requires IsWs(tb, ws) && f == Focused(tb.index, tb.lists[ws], tb.cursors[ws]) && f in tb.lists[ws]
    requires Tiled(tb.index, f) && Distinct(tb.lists[ws])
    requires
      var ps := TiledPositions(tb.index, tb.lists[ws], |tb.lists[ws]|);
      |ps| >= 2 && ps[0] == p && ps[1] == q && p < q
    ensures Zoomed(tb, ZoomTable(tb, ws), ws, f, p, q)
  {
    hide TiledPositions, Focused;
    var list := tb.lists[ws];
    var at := IndexOf(list, f);
    var r := ZoomTable(tb, ws);
    assert r.lists[ws] == list[p := list[if at == p then q else at]][if at == p then q else at := list[p]];
    assert Swapped(list, r.lists[ws], p, if at == p then q else at);
  }
}
