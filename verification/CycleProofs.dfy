/**
 * Which window FocusNextWindow and FocusPrevWindow go to (core/src/core/workspace_manager.cpp:107-166,
 * core/src/core/core_dispatch.cpp:698-709): the nearest eligible one in list order, around the end.
 */
module CycleProofs {
  import opened Seqs
  import opened Monitors
  import opened Topology
  import opened Windows
  import opened WindowProofs
  import Cycle = FocusCycle
  import opened Reducer
  import opened ReducerProofs
  import opened FocusProofs
  import opened FocusCommands
  import opened ListProofs
  import opened ArrangeProofs
  import opened SurfaceProofs

  /** `to` is the first flagged position after `at`, going up and around the end; `at` itself comes last. */
  ghost predicate Ahead(ok: seq<bool>, at: int, to: int) {
    && 0 <= to < |ok| && ok[to]
    && forall p :: 0 <= p < |ok| && ok[p] ==> if at < to then p <= at || p >= to else to <= p <= at
  }

  /** The same going down. */
  ghost predicate Behind(ok: seq<bool>, at: int, to: int) {
    && 0 <= to < |ok| && ok[to]
    && forall p :: 0 <= p < |ok| && ok[p] ==> if to < at then p >= at || p <= to else at <= p <= to
  }

  lemma {:induction false} SearchFirst(ok: seq<bool>, base: int, dir: int, i: nat)
    requires ok != [] && i <= |ok| + 1 && Cycle.Search(ok, base, dir, i) >= 0
    ensures exists k :: i <= k <= |ok| && FoundAt(ok, base, dir, i, k)
    decreases |ok| + 1 - i
  {
    hide Cycle.Offset;
    if ok[Cycle.Offset(base, dir, i, |ok|)] {
      assert FoundAt(ok, base, dir, i, i);
    } else {
      SearchFirst(ok, base, dir, i + 1);
      var k :| i + 1 <= k <= |ok| && FoundAt(ok, base, dir, i + 1, k);
      assert FoundAt(ok, base, dir, i, k);
    }
  }

  /** The search from step `i` on ends at step `k`. */
  ghost predicate FoundAt(ok: seq<bool>, base: int, dir: int, i: nat, k: nat)
    requires ok != []
  {
    && i <= |ok| + 1 && Cycle.Search(ok, base, dir, i) == Cycle.Offset(base, dir, k, |ok|)
    && ok[Cycle.Offset(base, dir, k, |ok|)] && forall j :: i <= j < k ==> !ok[Cycle.Offset(base, dir, j, |ok|)]
  }

  lemma UpFrom(base: int, k: nat, n: nat)
    requires 0 <= base < n && k <= n
    ensures Cycle.Offset(base, 1, k, n) == if base + k < n then base + k else base + k - n
  {
    Cycle.ModBy(base + 1 * k, n, if base + k < n then base + k else base + k - n, if base + k < n then 0 else 1);
  }

  lemma DownFrom(base: int, k: nat, n: nat)
    requires 0 <= base < n && k <= n
    ensures Cycle.Offset(base, -1, k, n) == if base - k >= 0 then base - k else base - k + n
  {
    Cycle.ModBy(base + -1 * k, n, if base - k >= 0 then base - k else base - k + n, if base - k >= 0 then 0 else -1);
  }

  lemma SearchAhead(ok: seq<bool>, base: int)
    requires 0 <= base < |ok| && Cycle.Search(ok, base, 1, 1) >= 0
    ensures Ahead(ok, base, Cycle.Search(ok, base, 1, 1))
  {
    hide Cycle.Offset, Cycle.Search;
    var n := |ok|;
    SearchFirst(ok, base, 1, 1);
    var k :| 1 <= k <= n && FoundAt(ok, base, 1, 1, k);
    UpFrom(base, k, n);
    var to := Cycle.Search(ok, base, 1, 1);
    forall p | 0 <= p < n && ok[p]
      ensures if base < to then p <= base || p >= to else to <= p <= base
    {
      var j := if p > base then p - base else p - base + n;
      UpFrom(base, j, n);
      assert j >= k;
    }
  }

  lemma SearchBehind(ok: seq<bool>, base: int)
    requires 0 <= base < |ok| && Cycle.Search(ok, base, -1, 1) >= 0
    ensures Behind(ok, base, Cycle.Search(ok, base, -1, 1))
  {
    hide Cycle.Offset, Cycle.Search;
    var n := |ok|;
    SearchFirst(ok, base, -1, 1);
    var k :| 1 <= k <= n && FoundAt(ok, base, -1, 1, k);
    DownFrom(base, k, n);
    var to := Cycle.Search(ok, base, -1, 1);
    forall p | 0 <= p < n && ok[p]
      ensures if to < base then p >= base || p <= to else base <= p <= to
    {
      var j := if p < base then base - p else base - p + n;
      DownFrom(base, j, n);
      assert j >= k;
    }
  }

  lemma SearchFinds(ok: seq<bool>, base: int, dir: int)
    requires 0 <= base < |ok| && true in ok && (dir == 1 || dir == -1)
    ensures Cycle.Search(ok, base, dir, 1) >= 0
  {
    hide Cycle.Offset, Cycle.Search;
    var n := |ok|;
    var p :| 0 <= p < n && ok[p];
    if dir == 1 {
      var j := if p > base then p - base else p - base + n;
      UpFrom(base, j, n);
      Cycle.SearchReaches(ok, base, 1, 1, j);
    } else {
      var j := if p < base then base - p else base - p + n;
      DownFrom(base, j, n);
      Cycle.SearchReaches(ok, base, -1, 1, j);
    }
  }

  // --- The windows that take the focus in turn ---------------------------------------------------

  /** Visible or, if no window is, any window. */
  ghost predicate CandidateAt(index: Index, list: seq<nat>, i: int) {
    0 <= i < |list| && (VisibleAt(index, list, i) || forall j :: !VisibleAt(index, list, j))
  }

  /** The candidates that do not float or, if all do, all candidates. */
  ghost predicate TakesTurn(index: Index, list: seq<nat>, i: int) {
    CandidateAt(index, list, i) && (TiledAt(index, list, i) || forall j :: CandidateAt(index, list, j) ==> !TiledAt(index, list, j))
  }

  /** The positions as flags. */
  ghost predicate AreTurns(index: Index, list: seq<nat>, ok: seq<bool>) {
    |ok| == |list| && forall i :: 0 <= i < |ok| ==> (ok[i] <==> TakesTurn(index, list, i))
  }

  lemma CandidatesAre(index: Index, list: seq<nat>, i: int)
    requires 0 <= i < |list|
    ensures CandidateAt(index, list, i) <==> Candidate(index, list, list[i])
  {
    assert forall j :: 0 <= j < |list| ==> (VisibleAt(index, list, j) <==> Shown(index, list[j]));
  }

  lemma EligibleAre(index: Index, list: seq<nat>)
    ensures AreTurns(index, list, Cycle.Eligible(index, list))
  {
    var tiled := Cycle.Flags(index, list, true);
    hide CandidateAt, Candidate;
    forall i | 0 <= i < |list|
      ensures CandidateAt(index, list, i) <==> Candidate(index, list, list[i])
    {
      CandidatesAre(index, list, i);
    }
    CandidatesListed(index, list);
    if true in tiled {
      var k :| 0 <= k < |tiled| && tiled[k];
      assert CandidateAt(index, list, k) && TiledAt(index, list, k);
    } else {
      assert forall i :: 0 <= i < |list| && CandidateAt(index, list, i) && TiledAt(index, list, i) ==> tiled[i];
    }
  }

  lemma CandidatesListed(index: Index, list: seq<nat>)
    ensures forall i :: CandidateAt(index, list, i) ==> 0 <= i < |list|
  {
  }

  lemma SomeTurn(index: Index, list: seq<nat>)
    requires list != []
    ensures true in Cycle.Eligible(index, list)
  {
    var p := Cycle.SomeCandidate(index, list);
    assert true in Cycle.Flags(index, list, false);
  }

  lemma StepIsSearch(index: Index, list: seq<nat>, cursor: int, dir: int)
    requires 0 <= cursor < |list| && (dir == 1 || dir == -1)
    ensures Cycle.Step(index, list, cursor, dir) == Cycle.Search(Cycle.Eligible(index, list), cursor, dir, 1) >= 0
  {
    hide Cycle.Search, Cycle.Eligible;
    SomeTurn(index, list);
    SearchFinds(Cycle.Eligible(index, list), cursor, dir);
    Cycle.StepFollowsRing(index, list, cursor, dir);
  }

  /** focus_next goes to the next position whose turn it is, focus_prev to the one before, wherever the cursor is. */
  lemma NextIsAhead(index: Index, list: seq<nat>, cursor: int, ok: seq<bool>)
    requires 0 <= cursor < |list| && AreTurns(index, list, ok)
    ensures Ahead(ok, cursor, Cycle.NextCursor(index, list, cursor))
    ensures Behind(ok, cursor, Cycle.PrevCursor(index, list, cursor))
  {
    hide Cycle.Step, TakesTurn, Ahead, Behind;
    EligibleAre(index, list);
    assert ok == Cycle.Eligible(index, list);
    StepIsSearch(index, list, cursor, 1);
    StepIsSearch(index, list, cursor, -1);
    SearchAhead(ok, cursor);
    SearchBehind(ok, cursor);
  }

  // --- The commands ------------------------------------------------------------------------------

  /** Windows of the current workspace are there, and one of them is visible. */
  ghost predicate CanCycle(c: Core, ws: int) {
    ws == CurrentWs(c) && 0 <= ws < |c.tb.lists| && ws < |c.tb.cursors| && 0 <= c.tb.cursors[ws] < |c.tb.lists[ws]| &&
    exists i :: VisibleAt(c.tb.index, c.tb.lists[ws], i)
  }

  /** The one eligible position a cycling command goes to, and the window there takes the focus. */
  ghost predicate CyclesTo(c: Core, d: Core, ws: int, to: int)
    requires 0 <= ws < |c.tb.lists|
  {
    && 0 <= to < |c.tb.lists[ws]| && 0 <= ws < |d.tb.lists| && CursorOn(d.tb, ws, c.tb.lists[ws][to])
    && VisibleFocus(d) == c.tb.lists[ws][to] && VisibleAt(c.tb.index, c.tb.lists[ws], to)
  }

  /**
   * FocusNextWindow focuses the next visible window of the current workspace that does not float, in list
   * order and around the end; only if all visible windows float, the next visible one. FocusPrevWindow goes
   * the other way.
   */
  lemma CycleGoes(c: Core, ws: int, ok: seq<bool>, forward: bool)
    requires Inv(c) && c.topo.monitors != [] && CanCycle(c, ws) && AreTurns(c.tb.index, c.tb.lists[ws], ok)
    ensures Sane(c)
    ensures exists to :: Goes(ok, c.tb.cursors[ws], to, forward) && CyclesTo(c, Step(c, CycleCommand(forward)), ws, to)
  {
    hide Step, DoCycle, AreTurns, Goes, CyclesTo, KeepsWindows, Inv, Sane, Cycle.NextCursor, Cycle.PrevCursor;
    InvSane(c);
    CycleIs(c, forward);
    var list, at := c.tb.lists[ws], c.tb.cursors[ws];
    NextGoes(c.tb.index, list, at, ok);
    var to := if forward then Cycle.NextCursor(c.tb.index, list, at) else Cycle.PrevCursor(c.tb.index, list, at);
    TurnIsVisible(c.tb.index, list, ok, at, to, forward);
    CycleFocuses(c, ws, if forward then 1 else -1, to);
  }

  ghost predicate Goes(ok: seq<bool>, at: int, to: int, forward: bool) {
    if forward then Ahead(ok, at, to) else Behind(ok, at, to)
  }

  function CycleCommand(forward: bool): Command { if forward then CFocusNext else CFocusPrev }

  lemma CycleIs(c: Core, forward: bool)
    requires Sane(c)
    ensures Step(c, CycleCommand(forward)) == DoCycle(c, if forward then 1 else -1)
  {
    hide Step, DoCycle, KeepsWindows, Sane;
    StepIsFocus(c, CycleCommand(forward));
  }

  lemma NextGoes(index: Index, list: seq<nat>, cursor: int, ok: seq<bool>)
    requires 0 <= cursor < |list| && AreTurns(index, list, ok)
    ensures Goes(ok, cursor, Cycle.NextCursor(index, list, cursor), true)
    ensures Goes(ok, cursor, Cycle.PrevCursor(index, list, cursor), false)
  {
    NextIsAhead(index, list, cursor, ok);
  }

  lemma TurnIsVisible(index: Index, list: seq<nat>, ok: seq<bool>, at: int, to: int, forward: bool)
    requires AreTurns(index, list, ok) && Goes(ok, at, to, forward)
    requires exists i :: VisibleAt(index, list, i)
    ensures VisibleAt(index, list, to)
  {
    assert TakesTurn(index, list, to);
  }

  lemma CycleFocuses(c: Core, ws: int, dir: int, to: int)
    requires Inv(c) && c.topo.monitors != [] && CanCycle(c, ws) && VisibleAt(c.tb.index, c.tb.lists[ws], to)
    requires
      to == if dir == 1 then Cycle.NextCursor(c.tb.index, c.tb.lists[ws], c.tb.cursors[ws])
            else Cycle.PrevCursor(c.tb.index, c.tb.lists[ws], c.tb.cursors[ws])
    ensures Sane(c) && CyclesTo(c, DoCycle(c, dir), ws, to)
  {
    hide Focus, Inv, CurrentWs, Cycle.NextCursor, Cycle.PrevCursor, VisibleFocus, Focused, Sane, KeepsWindows;
    InvSane(c);
    CycledInv(c, ws, dir);
    var c1 := c.(tb := Cycled(c.tb, ws, dir));
    SameCurrent(c, c1);
    var w := c.tb.lists[ws][to];
    FocusedIs(c1.tb.index, c1.tb.lists[ws], to);
    assert CurrentFocused(c1) == w;
    FocusOneTells(c1, w);
    FocusPoints(c1, w, ws);
  }

  lemma SameCurrent(c: Core, d: Core)
    requires d.topo == c.topo && |d.tb.lists| == |c.tb.lists|
    ensures CurrentWs(d) == CurrentWs(c)
  {
  }

  lemma FocusPoints(c: Core, w: nat, ws: int)
    requires Inv(c) && Shown(c.tb.index, w) && 0 <= ws < |c.tb.lists| && w in c.tb.lists[ws]
    ensures Sane(c) && CursorOn(Focus(c, w).tb, ws, w)
  {
    hide Evaluate, FocusWorkspace, PointAt, Quiet;
    InvSane(c);
    assert ListOk(c.tb, ws);
    assert w != NO_WINDOW && c.tb.home[w] == ws;
    FocusStateInv(c, w);
    PointAtKeeps(c.tb, w);
    ListOfPoint(c, w, ws);
    hide Inv;
    var e := Focusing(c, w);
    SameSettings(e, Evaluate(e, ws));
  }

  lemma ListOfPoint(c: Core, w: nat, ws: int)
    requires Inv(c) && w in c.tb.index && c.tb.home[w] == ws
    ensures IsWs(c.tb, ws) && CursorOn(PointAt(c.tb, w), ws, w)
  {
    PointAtKeeps(c.tb, w);
    assert ListOk(PointAt(c.tb, w), ws);
  }
}
