/** Core::focus and the derived focus chain name the same window (core/src/core/core_dispatch.cpp:110-160). */
module FocusProofs {
  import opened Monitors
  import opened Topology
  import opened TopologyProofs
  import opened Windows
  import opened WindowProofs
  import opened Reducer
  import opened ReducerProofs

  function FocusEffect(w: nat): Effect { if w == NO_WINDOW then FocusRoot else FocusWindow(w) }

  /** `b` is `a`, one focus effect naming `w`, and then nothing that concerns the focus. */
  ghost predicate OneFocus(a: seq<Effect>, b: seq<Effect>, w: nat) {
    |a| < |b| && a == b[..|a|] && b[|a|] == FocusEffect(w) && forall i :: |a| < i < |b| ==> QuietEffect(b[i])
  }

  ghost predicate OneFocusEvent(a: seq<Event>, b: seq<Event>, w: nat) {
    |a| < |b| && a == b[..|a|] && b[|a|] == FocusChanged(w) && forall i :: |a| < i < |b| ==> b[i].RaiseDocks?
  }

  /** Every call emits exactly one focus effect and one FocusChanged, and both name the target. */
  lemma FocusEmitsOnce(c: Core, id: nat)
    requires Inv(c)
    ensures OneFocus(c.effects, Focus(c, id).effects, FocusTarget(c, id))
    ensures OneFocusEvent(c.events, Focus(c, id).events, FocusTarget(c, id))
  {
    hide Evaluate, FocusState;
    var w := FocusTarget(c, id);
    if w != NO_WINDOW {
      FocusStateInv(c, w);
      FocusStateEmitsNothing(c, w);
      QuietAfterFocus(c, Focusing(c, w), Focus(c, id), w);
    }
  }

  lemma QuietAfterFocus(c: Core, c1: Core, r: Core, w: nat)
    requires Quiet(c1, r) && w != NO_WINDOW
    requires c1.effects == c.effects + [FocusWindow(w)] && c1.events == c.events + [FocusChanged(w)]
    ensures OneFocus(c.effects, r.effects, w) && OneFocusEvent(c.events, r.events, w)
  {
    assert r.effects[|c.effects|] == c1.effects[|c.effects|];
    assert r.events[|c.events|] == c1.events[|c.events|];
    assert r.effects[..|c.effects|] == c1.effects[..|c.effects|] == c.effects;
    assert r.events[..|c.events|] == c1.events[..|c.events|] == c.events;
  }

  lemma FocusStateEmitsNothing(c: Core, w: nat)
    requires Sane(c) && w in c.tb.index && IsWs(c.tb, c.tb.home[w])
    ensures FocusState(c, w).effects == c.effects && FocusState(c, w).events == c.events
  {
  }

  /** The derived chain after focusing a visible window leads to that window. */
  lemma FocusLeadsTo(c: Core, w: nat)
    requires Inv(c) && c.topo.monitors != [] && Shown(c.tb.index, w)
    ensures IsWs(c.tb, c.tb.home[w]) && DerivedFocus(FocusState(c, w)) == w
    ensures Shown(FocusState(c, w).tb.index, w)
  {
    hide FocusWorkspace;
    PointAtKeeps(c.tb, w);
    FocusWorkspaceShows(c.topo, c.tb.home[w]);
    var r := FocusState(c, w);
    var ws := c.tb.home[w];
    assert ListOk(r.tb, ws);
    assert Candidate(r.tb.index, r.tb.lists[ws], w);
  }

  /** Quiet steps do not change which window the chain leads to. */
  lemma QuietDerives(c: Core, d: Core)
    requires Quiet(c, d)
    ensures DerivedFocus(d) == DerivedFocus(c)
    ensures forall id :: Shown(d.tb.index, id) <==> Shown(c.tb.index, id)
  {
    var ws := ActiveWs(c.topo, c.topo.focused);
    if IsWs(c.tb, ws) {
      SameFocused(c.tb.index, d.tb.index, c.tb.lists[ws], c.tb.cursors[ws]);
    }
  }

  lemma SameFocused(a: Index, b: Index, list: seq<nat>, cursor: int)
    requires SameWindows(a, b)
    ensures Focused(a, list, cursor) == Focused(b, list, cursor)
  {
    assert forall i :: 0 <= i < |list| ==> (Shown(a, list[i]) <==> Shown(b, list[i]));
    SameFirst(a, b, list, 0);
  }

  lemma {:induction false} SameFirst(a: Index, b: Index, list: seq<nat>, k: nat)
    requires SameWindows(a, b) && k <= |list|
    ensures FirstCandidate(a, list, k) == FirstCandidate(b, list, k)
    decreases |list| - k
  {
    assert forall i :: 0 <= i < |list| ==> (Shown(a, list[i]) <==> Shown(b, list[i]));
    if k < |list| {
      SameFirst(a, b, list, k + 1);
    }
  }

  /** The focused window the state derives, or NO_WINDOW if that window is not visible. */
  function VisibleFocus(c: Core): nat {
    if Shown(c.tb.index, DerivedFocus(c)) then DerivedFocus(c) else NO_WINDOW
  }

  /**
   * What Core::focus announces is what the chain focused monitor -> active workspace -> focused window
   * derives afterwards, exactly when it was asked for NO_WINDOW or for a visible window, or no visible
   * window was focused before. (Asked for an invisible window it announces the root window instead.)
   */
  lemma FocusAgrees(c: Core, id: nat)
    requires Inv(c) && c.topo.monitors != []
    ensures FocusTarget(c, id) == VisibleFocus(Focus(c, id)) <==>
      (id == NO_WINDOW || Shown(c.tb.index, id) || VisibleFocus(c) == NO_WINDOW)
  {
    hide Evaluate, FocusState, DerivedFocus, CurrentFocused;
    var w := FocusTarget(c, id);
    if w != NO_WINDOW {
      FocusStateInv(c, w);
      FocusLeadsTo(c, w);
      PostDerives(c, w);
      QuietDerives(Focusing(c, w), Focus(c, id));
    } else {
      RootDerives(c, Focus(c, id));
      if id == NO_WINDOW {
        CurrentOrNone(c);
      }
    }
  }

  lemma PostDerives(c: Core, w: nat)
    requires Sane(c) && w in c.tb.index && IsWs(c.tb, c.tb.home[w])
    ensures DerivedFocus(Focusing(c, w)) == DerivedFocus(FocusState(c, w))
    ensures Focusing(c, w).tb == FocusState(c, w).tb
  {
    hide FocusState;
  }

  lemma RootDerives(c: Core, d: Core)
    requires d.tb == c.tb && d.topo == c.topo
    ensures DerivedFocus(d) == DerivedFocus(c)
  {
  }

  /** If the current workspace has no visible focused window, the chain leads to no visible window either. */
  lemma CurrentOrNone(c: Core)
    requires Inv(c) && !Shown(c.tb.index, CurrentFocused(c))
    ensures !Shown(c.tb.index, DerivedFocus(c))
  {
  }
}
