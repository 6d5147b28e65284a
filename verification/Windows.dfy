/**
 * Windows and the workspaces that list them (core/include/domain/window_state.hpp, ws.hpp and the
 * window half of core/src/core/workspace_manager.cpp).
 *
 * A shared window object is an entry of `index`; the workspaces list window ids. `index` and `home`
 * are the source's two hash maps, `lists` and `cursors` the vectors they must agree with.
 */
module Windows {
  import opened Seqs
  import opened Monitors

  const NO_WINDOW: nat := 0
  const NO_WS: int := -1

  datatype WindowType = Normal | Dialog | Utility | Splash | Modal | Dock | Desktop

  datatype Visibility = Visibility(mapped: bool, hiddenByWs: bool, hiddenExplicitly: bool)

  datatype Geometry = Geometry(pos: Vec, size: Vec, border: int)

  datatype Hints = Hints(sizeMin: Vec, sizeMax: Vec, sizeInc: Vec, sizeBase: Vec)

  datatype Props = Props(
    floating: bool, fullscreen: bool, borderless: bool,
    selfManaged: bool, preservePosition: bool, sizeLocked: bool, promoteToBorderless: bool,
    urgent: bool, suppressFocusOnce: bool, kind: WindowType, hints: Hints)

  /** WindowState, its fields grouped; `saved` is what the *_before_fullscreen fields hold. */
  datatype Window = Window(vis: Visibility, geo: Geometry, saved: Geometry, props: Props)
  {
    predicate Visible() { vis.mapped && !vis.hiddenByWs && !vis.hiddenExplicitly }

    predicate OwnsGeometry() { props.selfManaged || props.preservePosition }

    predicate Covers() { props.fullscreen || props.borderless }
  }

  const ZERO := Vec(0, 0)

  const FRESH := Window(
    Visibility(false, false, false), Geometry(ZERO, ZERO, 0), Geometry(ZERO, ZERO, 0),
    Props(false, false, false, false, false, false, false, false, false, Normal, Hints(ZERO, ZERO, ZERO, ZERO)))

  type Index = map<nat, Window>

  datatype Table = Table(lists: seq<seq<nat>>, cursors: seq<int>, index: Index, home: map<nat, int>)

  // --- One workspace -----------------------------------------------------------------------------

  predicate Shown(index: Index, id: nat) { id in index && index[id].Visible() }

  predicate Tiled(index: Index, id: nat) { id in index && !index[id].props.floating }

  predicate AnyShown(index: Index, list: seq<nat>) {
    exists i | 0 <= i < |list| :: Shown(index, list[i])
  }

  /** A window that may take the focus: any window if none is visible, else a visible one. */
  predicate Candidate(index: Index, list: seq<nat>, id: nat) {
    !AnyShown(index, list) || Shown(index, id)
  }

  function FirstCandidate(index: Index, list: seq<nat>, k: nat): (id: nat)
    requires k <= |list|
    ensures id == NO_WINDOW || (id in list && Candidate(index, list, id))
    ensures (exists i | k <= i < |list| :: Candidate(index, list, list[i])) ==> id in list && Candidate(index, list, id)
    decreases |list| - k
  {
    if k == |list| then NO_WINDOW
    else if Candidate(index, list, list[k]) then list[k]
    else FirstCandidate(index, list, k + 1)
  }

  /** Workspace::focused: the cursor's window if it may take the focus, else the first that may. */
  function Focused(index: Index, list: seq<nat>, cursor: int): nat {
    if 0 <= cursor < |list| && Candidate(index, list, list[cursor]) then list[cursor]
    else FirstCandidate(index, list, 0)
  }

  function CursorAfterAdd(cursor: int): int { if cursor == -1 then 0 else cursor }

  /** The cursor after position `i` was erased and `n` windows remain. */
  function CursorAfterErase(cursor: int, i: nat, n: nat): int {
    if n == 0 then -1
    else if cursor > i then cursor - 1
    else if cursor == i then Min(i, n - 1)
    else if cursor >= n then n - 1
    else cursor
  }

  function Erase(list: seq<nat>, i: nat): seq<nat>
    requires i < |list|
  {
    list[..i] + list[i + 1..]
  }

  // --- The table ---------------------------------------------------------------------------------

  /** Same number of workspaces, and the two maps still have the same keys. */
  predicate SameShape(a: Table, b: Table) {
    |b.lists| == |a.lists| && |b.cursors| == |a.cursors| && (a.index.Keys == a.home.Keys ==> b.index.Keys == b.home.Keys)
  }

  predicate IsWs(tb: Table, ws: int) { 0 <= ws < |tb.lists| && ws < |tb.cursors| }

  /** Workspace::remove_window on workspace `ws`. */
  function Unlist(tb: Table, ws: int, id: nat): (r: Table)
    ensures SameShape(tb, r) && r.index == tb.index && r.home == tb.home
  {
    if !IsWs(tb, ws) || id !in tb.lists[ws] then tb
    else
      var i := IndexOf(tb.lists[ws], id);
      var list := Erase(tb.lists[ws], i);
      tb.(lists := tb.lists[ws := list], cursors := tb.cursors[ws := CursorAfterErase(tb.cursors[ws], i, |list|)])
  }

  /** Workspace::add_window on workspace `ws`, then index_window. */
  function Enlist(tb: Table, ws: int, id: nat, w: Window): (r: Table)
    requires IsWs(tb, ws)
    ensures SameShape(tb, r)
  {
    Table(tb.lists[ws := tb.lists[ws] + [id]], tb.cursors[ws := CursorAfterAdd(tb.cursors[ws])],
          tb.index[id := w], tb.home[id := ws])
  }

  function UnlistAll(tb: Table, id: nat, k: nat): (r: Table)
    requires k <= |tb.lists|
    ensures SameShape(tb, r) && r.index == tb.index && r.home == tb.home
  {
    if k == 0 then tb else Unlist(UnlistAll(tb, id, k - 1), k - 1, id)
  }

  /** remove_window_from_all. */
  function Drop(tb: Table, id: nat): (r: Table)
    ensures SameShape(tb, r)
  {
    var tb' := if id in tb.home && IsWs(tb, tb.home[id]) then Unlist(tb, tb.home[id], id) else UnlistAll(tb, id, |tb.lists|);
    tb'.(index := tb'.index - {id}, home := tb'.home - {id})
  }

  /** The workspace a new window goes to: the one asked for, the one in use, or the first. */
  function TargetWs(tb: Table, ws: int, inUse: int): int {
    if IsWs(tb, ws) then ws else if IsWs(tb, inUse) then inUse else 0
  }

  /**
   * create_window: a fresh window is listed on its target. An id that is listed there already stays as it
   * is; one that is listed elsewhere is taken off that list first, and the fresh window replaces it.
   */
  function Create(tb: Table, id: nat, ws: int, inUse: int): (r: Table)
    requires |tb.lists| == |tb.cursors|
    ensures SameShape(tb, r)
  {
    var target := TargetWs(tb, ws, inUse);
    if tb.lists == [] || (id in tb.home && tb.home[id] == target) then tb
    else Enlist(if id in tb.home then Unlist(tb, tb.home[id], id) else tb, target, id, FRESH)
  }

  /** move_window_to for an indexed window. */
  function Move(tb: Table, id: nat, ws: int): (r: Table)
    requires id in tb.index && |tb.lists| == |tb.cursors|
    ensures SameShape(tb, r) && r.index == tb.index
  {
    if !IsWs(tb, ws) then tb
    else if id in tb.home && IsWs(tb, tb.home[id]) then
      if tb.home[id] == ws then tb else Enlist(Unlist(tb, tb.home[id], id), ws, id, tb.index[id])
    else
      Enlist(UnlistAll(tb, id, |tb.lists|), ws, id, tb.index[id])
  }

  function Update(tb: Table, id: nat, w: Window): Table { tb.(index := tb.index[id := w]) }

  function Calm(w: Window): Window { w.(props := w.props.(urgent := false)) }

  /** The window side of focus_window: the cursor moves to `id`, which stops being urgent. */
  function PointAt(tb: Table, id: nat): (r: Table)
    requires id in tb.index && id in tb.home && IsWs(tb, tb.home[id])
    ensures SameShape(tb, r)
  {
    var ws := tb.home[id];
    var i := IndexOf(tb.lists[ws], id);
    if i < 0 then tb
    else Update(tb.(cursors := tb.cursors[ws := i]), id, Calm(tb.index[id]))
  }

  function HomeOf(tb: Table, id: nat): int {
    if id != NO_WINDOW && id in tb.home && IsWs(tb, tb.home[id]) then tb.home[id] else NO_WS
  }

  /** All windows of workspace `src` join workspace `dst`. */
  function Evacuate(tb: Table, src: int, dst: int): Table
    requires IsWs(tb, src) && IsWs(tb, dst)
  {
    var ids := tb.lists[src];
    Table(tb.lists[dst := tb.lists[dst] + ids][src := []],
          tb.cursors[dst := if ids == [] then tb.cursors[dst] else CursorAfterAdd(tb.cursors[dst])][src := -1],
          tb.index,
          map id | id in tb.home.Keys + (set x | x in ids) :: if id in ids then dst else tb.home[id])
  }

  /** Workspaces n..k are emptied into the fallbacks chosen for them. */
  function EvacuateUpTo(tb: Table, n: nat, k: nat, dst: seq<int>): (r: Table)
    requires 0 < n <= k <= |tb.lists| == |tb.cursors| == |dst|
    requires forall ws :: n <= ws < k ==> 0 <= dst[ws] < n
    ensures |r.lists| == |r.cursors| == |tb.lists|
  {
    if k == n then tb
    else
      var r := EvacuateUpTo(tb, n, k - 1, dst);
      assert IsWs(r, k - 1) && IsWs(r, dst[k - 1]);
      Evacuate(r, k - 1, dst[k - 1])
  }

  /** The window half of update_workspace_defs: `n` workspaces remain. */
  function Resize(tb: Table, n: nat, dst: seq<int>): Table
    requires |tb.lists| == |tb.cursors| == |dst| && (n == 0 ==> tb.lists == [])
    requires forall ws :: n <= ws < |dst| ==> 0 <= dst[ws] < n
  {
    if n >= |tb.lists| then
      tb.(lists := tb.lists + seq(n - |tb.lists|, _ => []), cursors := tb.cursors + seq(n - |tb.lists|, _ => -1))
    else
      var r := EvacuateUpTo(tb, n, |tb.lists|, dst);
      r.(lists := r.lists[..n], cursors := r.cursors[..n])
  }

  // --- The invariant -----------------------------------------------------------------------------

  /** The lists, the cursors and the two hash maps agree, and every window is listed exactly once. */
  ghost predicate TableOk(tb: Table) {
    && |tb.cursors| == |tb.lists|
    && tb.index.Keys == tb.home.Keys && NO_WINDOW !in tb.index
    && (forall ws :: 0 <= ws < |tb.lists| ==> ListOk(tb, ws))
    && (forall id :: id in tb.home ==> 0 <= tb.home[id] < |tb.lists| && id in tb.lists[tb.home[id]])
  }

  ghost predicate ListOk(tb: Table, ws: int)
    requires 0 <= ws < |tb.lists| == |tb.cursors|
  {
    && Distinct(tb.lists[ws])
    && (forall i :: 0 <= i < |tb.lists[ws]| ==> tb.lists[ws][i] in tb.home && tb.home[tb.lists[ws][i]] == ws)
    && (if tb.lists[ws] == [] then tb.cursors[ws] == -1 else 0 <= tb.cursors[ws] < |tb.lists[ws]|)
  }
}
