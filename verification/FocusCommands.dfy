/**
 * Which commands move the keyboard focus (core/src/core/core_dispatch.cpp:110-160, 217-225, 344-913): how
 * often each command focuses, what it announces, and in which order with its other announcements.
 */
module FocusCommands {
  import opened Seqs
  import opened Monitors
  import opened Topology
  import opened TopologyProofs
  import opened Windows
  import opened WindowProofs
  import opened Flush
  import opened Reducer
  import opened ReducerProofs
  import opened EffectProofs
  import opened FocusProofs
  import opened TopologySteps
  import opened ArrangeProofs
  import opened SurfaceProofs

  // --- What a step says --------------------------------------------------------------------------

  /** Mapping, redrawing and stacking; not the focus, the pointer or a request to close. */
  predicate Drawing(e: Effect) {
    e.MapWindow? || e.UnmapWindow? || e.UpdateWindow? || e.RaiseWindow? || e.LowerWindow?
  }

  /** The effects that are not mere drawing. */
  function Acts(es: seq<Effect>): seq<Effect> {
    if es == [] then []
    else if Drawing(es[|es| - 1]) then Acts(es[..|es| - 1])
    else Acts(es[..|es| - 1]) + [es[|es| - 1]]
  }

  /** The events but for those that only restack the docks. */
  function News(es: seq<Event>): seq<Event> {
    if es == [] then []
    else if es[|es| - 1].RaiseDocks? then News(es[..|es| - 1])
    else News(es[..|es| - 1]) + [es[|es| - 1]]
  }

  lemma {:induction false} ActsAppend(a: seq<Effect>, b: seq<Effect>)
    ensures Acts(a + b) == Acts(a) + Acts(b)
    decreases |b|
  {
    if b == [] {
      assert a + b == a;
    } else {
      ActsAppend(a, b[..|b| - 1]);
      assert (a + b)[..|a + b| - 1] == a + b[..|b| - 1];
    }
  }

  lemma {:induction false} NewsAppend(a: seq<Event>, b: seq<Event>)
    ensures News(a + b) == News(a) + News(b)
    decreases |b|
  {
    if b == [] {
      assert a + b == a;
    } else {
      NewsAppend(a, b[..|b| - 1]);
      assert (a + b)[..|a + b| - 1] == a + b[..|b| - 1];
    }
  }

  lemma {:induction false} ActsOfDrawing(es: seq<Effect>)
    requires forall i :: 0 <= i < |es| ==> Drawing(es[i])
    ensures Acts(es) == []
  {
    if es != [] {
      ActsOfDrawing(es[..|es| - 1]);
    }
  }

  lemma {:induction false} NewsOfDocks(es: seq<Event>)
    requires forall i :: 0 <= i < |es| ==> es[i].RaiseDocks?
    ensures News(es) == []
  {
    if es != [] {
      NewsOfDocks(es[..|es| - 1]);
    }
  }

  /** What happened so far stays; apart from drawing, `acts` and `news` were added. */
  ghost predicate Says(c: Core, d: Core, acts: seq<Effect>, news: seq<Event>) {
    && c.effects <= d.effects && Acts(d.effects[|c.effects|..]) == acts
    && c.events <= d.events && News(d.events[|c.events|..]) == news
  }

  /** The focus was set once, to the window the resulting state derives, with other news around it. */
  ghost predicate Tells(c: Core, d: Core, before: seq<Event>, after: seq<Event>) {
    Says(c, d, [FocusEffect(VisibleFocus(d))], before + [FocusChanged(VisibleFocus(d))] + after)
  }

  lemma SaysTrans(a: Core, b: Core, c: Core, acts: seq<Effect>, news: seq<Event>, acts': seq<Effect>, news': seq<Event>)
    requires Says(a, b, acts, news) && Says(b, c, acts', news')
    ensures Says(a, c, acts + acts', news + news')
  {
    var e, e' := b.effects[|a.effects|..], c.effects[|b.effects|..];
    var v, v' := b.events[|a.events|..], c.events[|b.events|..];
    assert c.effects[|a.effects|..] == e + e' && c.events[|a.events|..] == v + v';
    ActsAppend(e, e');
    NewsAppend(v, v');
  }

  lemma SaysNothing(c: Core, d: Core)
    requires d.effects == c.effects && d.events == c.events
    ensures Says(c, d, [], [])
  {
  }

  lemma SaysEvent(c: Core, e: Event)
    requires !e.RaiseDocks?
    ensures Says(c, Post(c, e), [], [e])
  {
    assert Post(c, e).events[|c.events|..] == [e];
  }

  lemma SaysEffect(c: Core, d: Core, e: Effect)
    requires !Drawing(e) && d.effects == c.effects + [e] && d.events == c.events
    ensures Says(c, d, [e], [])
  {
    assert d.effects[|c.effects|..] == [e];
  }

  lemma QuietSays(c: Core, d: Core)
    requires Quiet(c, d)
    ensures Says(c, d, [], [])
  {
    ActsOfDrawing(d.effects[|c.effects|..]);
    NewsOfDocks(d.events[|c.events|..]);
  }

  lemma SyncOneSays(c: Core, id: nat, shown: bool)
    ensures Says(c, SyncOne(c, id, shown), [], [])
  {
    var d := SyncOne(c, id, shown);
    assert d.effects == c.effects || (|d.effects| == |c.effects| + 1 && c.effects == d.effects[..|c.effects|]);
    assert d.effects != c.effects ==> Drawing(d.effects[|c.effects|]);
    ActsOfDrawing(d.effects[|c.effects|..]);
  }

  lemma {:induction false} SyncListSays(c: Core, list: seq<nat>, shown: bool, k: nat)
    requires k <= |list|
    ensures Says(c, SyncList(c, list, shown, k), [], [])
  {
    hide Says, SyncOne, Synced;
    if k == 0 {
      SaysNothing(c, c);
    } else {
      var d := SyncList(c, list, shown, k - 1);
      SyncListSays(c, list, shown, k - 1);
      SyncOneSays(d, list[k - 1], shown);
      SaysTrans(c, d, SyncOne(d, list[k - 1], shown), [], [], [], []);
    }
  }

  lemma {:induction false} SyncSays(c: Core, k: nat)
    requires k <= |c.tb.lists|
    ensures Says(c, SyncUpTo(c, k), [], [])
  {
    hide Says, SyncList, IsShown;
    if k == 0 {
      SaysNothing(c, c);
    } else {
      var d, list := SyncUpTo(c, k - 1), c.tb.lists[k - 1];
      var shown := IsShown(c.topo.monitors, k - 1);
      SyncSays(c, k - 1);
      SyncListSays(d, list, shown, |list|);
      SaysTrans(c, d, SyncList(d, list, shown, |list|), [], [], [], []);
    }
  }

  lemma RefreshSays(c: Core)
    requires Sane(c)
    ensures Says(c, Refresh(c), [], [])
  {
    hide Says, SyncUpTo, Arrange;
    SyncSays(c, |c.tb.lists|);
    var d := SyncVisibility(c);
    QuietSays(d, Arrange(d));
    SaysTrans(c, d, Arrange(d), [], [], [], []);
  }

  // --- One call of Core::focus -------------------------------------------------------------------

  lemma FocusSays(c: Core, id: nat)
    requires Inv(c)
    ensures Sane(c) && Says(c, Focus(c, id), [FocusEffect(FocusTarget(c, id))], [FocusChanged(FocusTarget(c, id))])
  {
    hide Focus, FocusTarget, Inv;
    InvSane(c);
    FocusEmitsOnce(c, id);
    OneFocusSays(c, Focus(c, id), FocusTarget(c, id));
  }

  lemma OneFocusSays(c: Core, d: Core, w: nat)
    requires OneFocus(c.effects, d.effects, w) && OneFocusEvent(c.events, d.events, w)
    ensures Says(c, d, [FocusEffect(w)], [FocusChanged(w)])
  {
    var e, v := d.effects[|c.effects|..], d.events[|c.events|..];
    assert e == [FocusEffect(w)] + e[1..] && v == [FocusChanged(w)] + v[1..];
    ActsAppend([FocusEffect(w)], e[1..]);
    NewsAppend([FocusChanged(w)], v[1..]);
    ActsOfDrawing(e[1..]);
    NewsOfDocks(v[1..]);
  }

  /** There is a monitor, or nothing to be seen. */
  ghost predicate Watched(c: Core) {
    c.topo.monitors != [] || forall id :: id in c.tb.index ==> !c.tb.index[id].Visible()
  }

  /** Focusing nothing in particular tells what the state derives. */
  lemma FocusNoneTells(c: Core)
    requires Inv(c) && Watched(c)
    ensures Sane(c) && Tells(c, Focus(c, NO_WINDOW), [], [])
  {
    hide Focus, Inv, Says, VisibleFocus;
    InvSane(c);
    FocusSays(c, NO_WINDOW);
    Alone(FocusTarget(c, NO_WINDOW));
    if c.topo.monitors != [] {
      FocusAgrees(c, NO_WINDOW);
    } else {
      NothingToFocus(c);
    }
  }

  lemma NothingToFocus(c: Core)
    requires Sane(c) && forall id :: id in c.tb.index ==> !c.tb.index[id].Visible()
    ensures FocusTarget(c, NO_WINDOW) == NO_WINDOW && VisibleFocus(Focus(c, NO_WINDOW)) == NO_WINDOW
  {
    hide CurrentFocused, DerivedFocus;
  }

  /** Focusing a visible window tells that window. */
  lemma FocusOneTells(c: Core, id: nat)
    requires Inv(c) && c.topo.monitors != [] && Shown(c.tb.index, id)
    ensures Sane(c) && Tells(c, Focus(c, id), [], []) && VisibleFocus(Focus(c, id)) == id
  {
    hide Focus, Says, VisibleFocus;
    assert id != NO_WINDOW;
    hide Inv;
    InvSane(c);
    FocusSays(c, id);
    Alone(id);
    FocusAgrees(c, id);
  }

  lemma Alone(w: nat)
    ensures [] + [FocusChanged(w)] + [] == [FocusChanged(w)]
  {
  }

  /** Quiet steps and other news around a call of focus. */
  lemma TellsAround(a: Core, b: Core, c: Core, d: Core, before: seq<Event>)
    requires Says(a, b, [], before) && Tells(b, c, [], []) && Quiet(c, d)
    ensures Tells(a, d, before, [])
  {
    hide Says, VisibleFocus, Quiet;
    var v := VisibleFocus(c);
    QuietVisible(c, d);
    SaysTrans(a, b, c, [], before, [FocusEffect(v)], [] + [FocusChanged(v)] + []);
    QuietSays(c, d);
    SaysTrans(a, c, d, [] + [FocusEffect(v)], before + ([] + [FocusChanged(v)] + []), [], []);
    assert before + ([] + [FocusChanged(v)] + []) + [] == before + [FocusChanged(v)] + [];
    assert [] + [FocusEffect(v)] + [] == [FocusEffect(v)];
  }

  lemma QuietVisible(c: Core, d: Core)
    requires Quiet(c, d)
    ensures VisibleFocus(d) == VisibleFocus(c)
  {
    QuietDerives(c, d);
  }

  lemma QuietRefl(c: Core)
    ensures Quiet(c, c)
  {
  }

  lemma TellsThen(c: Core, d: Core, before: seq<Event>, e: Event)
    requires Tells(c, d, before, []) && !e.RaiseDocks?
    ensures Tells(c, Post(d, e), before, [e])
  {
    hide Says, VisibleFocus;
    var v := VisibleFocus(d);
    PostVisible(d, e);
    SaysEvent(d, e);
    SaysTrans(c, d, Post(d, e), [FocusEffect(v)], before + [FocusChanged(v)] + [], [], [e]);
    assert before + [FocusChanged(v)] + [] + [e] == before + [FocusChanged(v)] + [e];
    assert [FocusEffect(v)] + [] == [FocusEffect(v)];
  }

  lemma PostVisible(c: Core, e: Event)
    ensures VisibleFocus(Post(c, e)) == VisibleFocus(c)
  {
  }

  /** Focusing nothing in particular keeps the focused monitor, if that one shows a workspace. */
  lemma FocusNoneStays(c: Core)
    requires Inv(c) && ActiveWs(c.topo, c.topo.focused) >= 0
    ensures Sane(c) && Focus(c, NO_WINDOW).topo.focused == c.topo.focused
  {
    hide Evaluate, PointAt, CurrentFocused;
    var w := FocusTarget(c, NO_WINDOW);
    var t := c.topo;
    if t.monitors != [] {
      ShownByOwner(t, t.focused);
      if w != NO_WINDOW {
        CurrentFocusedHome(c);
      }
    }
  }

  // --- Switching ---------------------------------------------------------------------------------

  lemma StepIsFocus(c: Core, cmd: Command)
    requires Sane(c) && FocusCommand(cmd)
    ensures Step(c, cmd) == StepFocus(c, cmd)
  {
    hide StepVisibility, StepFlag, StepGeometry, StepLayout, StepFocus, StepWindow, StepMove, DoApplySettings, Sane;
    hide KeepsWindows, Quiet, Silent, SameLists;
  }

  lemma SwitchIs(c: Core, ws: int, hint: Option<int>)
    requires Sane(c)
    ensures Step(c, CSwitchWorkspace(ws, hint)) == DoSwitch(c, ws, hint)
  {
    hide Step, DoSwitch, Sane, KeepsWindows;
    StepIsFocus(c, CSwitchWorkspace(ws, hint));
  }

  /** The monitor a switch is about: the one named, the focused one if a negative number is, else the owner. */
  function AskedMonitor(c: Core, ws: int, hint: Option<int>): int
    requires 0 <= ws < |c.topo.owner|
  {
    if hint.None? then c.topo.owner[ws] else if hint.value < 0 then c.topo.focused else hint.value
  }

  /** What a switch says, and that it keeps the focused monitor unless that one shows nothing. */
  ghost predicate Switches(c: Core, d: Core, ws: int, hint: Option<int>) {
    && 0 <= ws < |c.topo.owner|
    && (if AskedMonitor(c, ws, hint) == c.topo.focused then Tells(c, d, [], [WorkspaceSwitched(ws)])
        else Says(c, d, [], [WorkspaceSwitched(ws)]))
    && (d.topo.focused == c.topo.focused ||
        (AskedMonitor(c, ws, hint) == c.topo.focused && c.topo.owner[ws] != c.topo.focused &&
         ActiveWs(c.topo, c.topo.focused) < 0))
    && ActiveWs(d.topo, c.topo.owner[ws]) == ws
  }

  /**
   * A switch sets the focus once, to the window the new state derives, exactly if the monitor it is about is
   * the focused one; a switch on another monitor leaves focus and focused monitor alone. Then it announces the
   * workspace. A switch to a workspace that does not exist, or without monitors, does nothing.
   */
  lemma SwitchAnnounces(c: Core, ws: int, hint: Option<int>)
    requires Inv(c)
    ensures Sane(c)
    ensures 0 <= ws < |c.topo.wsAlias| && c.topo.monitors != [] ==>
      Switches(c, Step(c, CSwitchWorkspace(ws, hint)), ws, hint)
    ensures !(0 <= ws < |c.topo.wsAlias| && c.topo.monitors != []) ==> Step(c, CSwitchWorkspace(ws, hint)) == c
  {
    hide Step, SwitchTo, Refresh, Focus, Evaluate, Switches, Inv;
    InvSane(c);
    SwitchIs(c, ws, hint);
    if 0 <= ws < |c.topo.wsAlias| && c.topo.monitors != [] {
      SwitchSays(c, ws, hint);
    }
  }

  lemma SwitchSays(c: Core, ws: int, hint: Option<int>)
    requires Inv(c) && 0 <= ws < |c.topo.wsAlias| && c.topo.monitors != []
    ensures Sane(c) && Switches(c, DoSwitch(c, ws, hint), ws, hint)
  {
    hide SwitchTo, Refresh, Focus, Evaluate, Inv, Says, Tells, Quiet, ActiveWs;
    InvSane(c);
    var h := if hint.Some? then hint.value else NONE;
    SwitchedInv(c, ws, h);
    Switched(c, ws, h);
    OwnedBySome(c, ws);
    var c1 := c.(topo := SwitchTo(c.topo, ws, h, c.settings.aliases, c.settings.compose));
    InvSane(c1);
    RefreshInv(c1);
    RefreshSays(c1);
    var c2 := Refresh(c1);
    InvSane(c2);
    SaysNothing(c, c1);
    SaysTrans(c, c1, c2, [], [], [], []);
    if AskedMonitor(c, ws, hint) == c.topo.focused {
      FocusNoneTells(c2);
      var c3 := Focus(c2, NO_WINDOW);
      FocusInv(c2, NO_WINDOW);
      InvSane(c3);
      SameSettings(c3, Evaluate(c3, ws));
      TellsAround(c, c2, c3, Evaluate(c3, ws), []);
      TellsThen(c, Evaluate(c3, ws), [], WorkspaceSwitched(ws));
      FocusCurrent(c2);
      SameActive(c2.topo, c3.topo, c.topo.owner[ws]);
      if ActiveWs(c2.topo, c2.topo.focused) >= 0 {
        FocusNoneStays(c2);
      }
    } else {
      SameSettings(c2, Evaluate(c2, ws));
      QuietSays(c2, Evaluate(c2, ws));
      SaysTrans(c, c2, Evaluate(c2, ws), [], [], [], []);
      SaysEvent(Evaluate(c2, ws), WorkspaceSwitched(ws));
      SaysTrans(c, Evaluate(c2, ws), Post(Evaluate(c2, ws), WorkspaceSwitched(ws)), [], [], [], [WorkspaceSwitched(ws)]);
      assert [] + [WorkspaceSwitched(ws)] == [WorkspaceSwitched(ws)];
    }
  }

  lemma SameActive(t: Topology, r: Topology, m: int)
    requires SameButFocus(t, r)
    ensures ActiveWs(r, m) == ActiveWs(t, m)
  {
  }

  lemma Switched(c: Core, ws: int, h: int)
    requires Inv(c) && 0 <= ws < |c.topo.wsAlias| && c.topo.monitors != []
    ensures Sane(c) && |c.topo.owner| == |c.topo.wsAlias|
    ensures
      var r := SwitchTo(c.topo, ws, h, c.settings.aliases, c.settings.compose);
      && ActiveWs(r, c.topo.owner[ws]) == ws && r.focused == c.topo.focused && |r.monitors| == |c.topo.monitors|
      && (c.topo.focused != c.topo.owner[ws] ==> ActiveWs(r, c.topo.focused) == ActiveWs(c.topo, c.topo.focused))
  {
    hide SwitchTo, ActiveWs;
    SwitchShows(c.topo, ws, h, c.settings.aliases, c.settings.compose);
  }

  // --- Moving ------------------------------------------------------------------------------------

  lemma NobodyWatches(c: Core)
    requires Inv(c) && HiddenExactly(c)
    ensures Watched(c)
  {
    if c.topo.monitors == [] {
      forall id | id in c.tb.index
        ensures !c.tb.index[id].Visible()
      {
        InvHome(c, id);
        var ws := c.tb.home[id];
        assert !IsShown(c.topo.monitors, ws);
      }
    }
  }

  lemma QuietWatched(c: Core, d: Core)
    requires Watched(c) && Quiet(c, d)
    ensures Watched(d)
  {
    forall id | id in d.tb.index
      ensures c.tb.index[id].Visible() <==> d.tb.index[id].Visible()
    {
      assert SameFlags(c.tb.index[id], d.tb.index[id]);
    }
  }

  /** Focus follows the window: its workspace is shown, it is visible and it did not ask to be left out. */
  ghost predicate Follows(c: Core, d: Core, id: nat, ws: int) {
    && OnDisplay(c, ws) && id in c.tb.index && id in d.tb.index && d.tb.index[id].Visible()
    && !c.tb.index[id].props.suppressFocusOnce
  }

  lemma FocusMovedTells(c: Core, id: nat, ws: int)
    requires Inv(c) && Watched(c)
    ensures Sane(c) && Tells(c, FocusMoved(c, id, ws), [], [])
    ensures OnDisplay(c, ws) && Shown(c.tb.index, id) && !c.tb.index[id].props.suppressFocusOnce ==>
      VisibleFocus(FocusMoved(c, id, ws)) == id
  {
    hide Focus, Inv, Tells, VisibleFocus, Watched;
    InvSane(c);
    ShownIsOnDisplay(c, ws);
    if OnDisplay(c, ws) && Shown(c.tb.index, id) && !c.tb.index[id].props.suppressFocusOnce {
      FocusOneTells(c, id);
    } else {
      FocusNoneTells(c);
    }
  }

  lemma ShownIsOnDisplay(c: Core, ws: int)
    ensures IsShown(c.topo.monitors, ws) <==> OnDisplay(c, ws)
    ensures OnDisplay(c, ws) ==> c.topo.monitors != []
  {
  }

  /** Setting the focus changes nobody's visibility. */
  lemma FocusMovedVisible(c: Core, id: nat, ws: int, x: nat)
    requires Inv(c) && x in c.tb.index
    ensures Sane(c) && x in FocusMoved(c, id, ws).tb.index
    ensures FocusMoved(c, id, ws).tb.index[x].vis == c.tb.index[x].vis
  {
    hide Focus, Inv;
    InvSane(c);
    FocusVisible(c, id, x);
    FocusVisible(c, NO_WINDOW, x);
  }

  lemma FocusVisible(c: Core, id: nat, x: nat)
    requires Inv(c) && x in c.tb.index
    ensures Sane(c) && x in Focus(c, id).tb.index && Focus(c, id).tb.index[x].vis == c.tb.index[x].vis
  {
    hide Evaluate, FocusWorkspace, Inv;
    InvSane(c);
    var w := FocusTarget(c, id);
    if w != NO_WINDOW {
      FocusStateInv(c, w);
      FlagsKept(Focusing(c, w), Evaluate(Focusing(c, w), c.tb.home[w]), x);
    }
  }

  lemma RepinSays(c: Core, id: nat, src: int, ws: int)
    requires Inv(c) && Watched(c) && id in c.tb.index
    ensures Sane(c)
    ensures
      var d := Repin(c, id, src, ws);
      && Says(c, d, [], []) && Inv(d) && Watched(d) && d.topo == c.topo
      && id in d.tb.index && d.tb.index[id].props == c.tb.index[id].props && d.tb.index[id].vis == c.tb.index[id].vis
  {
    hide Repin, Inv, Quiet, Says, Watched;
    InvSane(c);
    var d := Repin(c, id, src, ws);
    QuietSays(c, d);
    QuietInv(c, d);
    QuietWatched(c, d);
    FlagsKept(c, d, id);
    SameSettings(c, d);
  }

  /** The steps of a move up to the call of focus. */
  lemma MovedSays(c: Core, id: nat, ws: int)
    requires Inv(c) && id in c.tb.index && 0 <= ws < |c.modes|
    ensures Sane(c)
    ensures
      var c2 := Refresh(Post(c.(tb := Move(c.tb, id, ws)), WindowAssigned(id, ws)));
      && Sane(c2) && Inv(c2) && Watched(c2) && id in c2.tb.index && c2.tb.index[id].props == c.tb.index[id].props
      && c2.topo == c.topo && Says(c, c2, [], [WindowAssigned(id, ws)])
  {
    hide Move, Refresh, Inv, Watched, Says;
    InvSane(c);
    Replaced(c, id, ws);
    var b := c.(tb := Move(c.tb, id, ws));
    var c1 := Post(b, WindowAssigned(id, ws));
    Refreshed(c1, id);
    RefreshHides(c1);
    NobodyWatches(Refresh(c1));
    InvSane(Refresh(c1));
    SaysNothing(c, b);
    SaysEvent(b, WindowAssigned(id, ws));
    SaysTrans(c, b, c1, [], [], [], [WindowAssigned(id, ws)]);
    RefreshSays(c1);
    SaysTrans(c, c1, Refresh(c1), [], [] + [WindowAssigned(id, ws)], [], []);
    assert [] + [WindowAssigned(id, ws)] + [] == [WindowAssigned(id, ws)];
  }

  /** What a move says, and when the focus goes along. */
  ghost predicate MovesFocus(c: Core, d: Core, id: nat, ws: int) {
    && Tells(c, d, [WindowAssigned(id, ws)], [])
    && (Follows(c, d, id, ws) ==> VisibleFocus(d) == id)
  }

  lemma MoveSays(c: Core, id: nat, ws: int)
    requires Inv(c) && id in c.tb.index && 0 <= ws < |c.modes|
    ensures Sane(c) && MovesFocus(c, DoMove(c, id, ws), id, ws)
  {
    hide Move, Refresh, Repin, FocusMoved, Inv, Watched, Says, Tells, VisibleFocus, OnDisplay;
    MovedSays(c, id, ws);
    var c2 := Refresh(Post(c.(tb := Move(c.tb, id, ws)), WindowAssigned(id, ws)));
    var c3 := if c.tb.index[id].Covers() then Repin(c2, id, HomeOf(c.tb, id), ws) else c2;
    if c.tb.index[id].Covers() {
      RepinSays(c2, id, HomeOf(c.tb, id), ws);
      SaysTrans(c, c2, c3, [], [WindowAssigned(id, ws)], [], []);
      assert [WindowAssigned(id, ws)] + [] == [WindowAssigned(id, ws)];
    }
    InvSane(c3);
    FocusMovedTells(c3, id, ws);
    FocusMovedVisible(c3, id, ws, id);
    SameDisplay(c, c3, ws);
    var d := FocusMoved(c3, id, ws);
    QuietRefl(d);
    TellsAround(c, c3, d, d, [WindowAssigned(id, ws)]);
  }

  lemma SameDisplay(c: Core, d: Core, ws: int)
    requires d.topo == c.topo
    ensures OnDisplay(c, ws) <==> OnDisplay(d, ws)
  {
  }

  /**
   * Moving a window announces its new workspace and then sets the focus once, to the window the new state
   * derives. That is the moved window if its workspace is shown, it is visible and did not ask to be left out.
   */
  lemma MoveAnnounces(c: Core, cmd: Command, id: nat, ws: int)
    requires Inv(c) && id in c.tb.index && 0 <= ws < |c.modes| && Moves(c, cmd, id, ws)
    ensures Sane(c) && MovesFocus(c, Step(c, cmd), id, ws)
  {
    hide Step, StepMove, DoMove, CurrentFocused, KeepsWindows, MovesFocus, Sane;
    assert id != NO_WINDOW && MoveCommand(cmd);
    hide Inv;
    InvSane(c);
    MoveSays(c, id, ws);
    StepIsMove(c, cmd);
    MoveIs(c, cmd, id, ws);
  }

  // --- Cycling, focusing a window, focusing a monitor --------------------------------------------

  lemma CycleSays(c: Core, dir: int)
    requires Inv(c) && c.topo.monitors != []
    ensures Sane(c) && Tells(c, DoCycle(c, dir), [], [])
  {
    hide Focus, Inv, Says, Cycled, CurrentFocused, CurrentWs, VisibleFocus, Sane;
    InvSane(c);
    var ws := CurrentWs(c);
    if !IsWs(c.tb, ws) {
      FocusNoneTells(c);
    } else {
      var c1 := c.(tb := Cycled(c.tb, ws, dir));
      CycledInv(c, ws, dir);
      var w := CurrentFocused(c1);
      if Shown(c1.tb.index, w) {
        FocusOneTells(c1, w);
        TellsFrom(c, c1, Focus(c1, w));
      } else {
        FocusNoneTells(c1);
        TellsFrom(c, c1, Focus(c1, NO_WINDOW));
      }
    }
  }

  lemma TellsFrom(c: Core, c1: Core, d: Core)
    requires c1.effects == c.effects && c1.events == c.events && Tells(c1, d, [], [])
    ensures Tells(c, d, [], [])
  {
  }

  lemma CycledInv(c: Core, ws: int, dir: int)
    requires Inv(c) && IsWs(c.tb, ws)
    ensures
      var d := c.(tb := Cycled(c.tb, ws, dir));
      Inv(d) && Sane(d)
  {
    CycledKeeps(c.tb, ws, dir);
  }

  /** Cycling sets the focus once, to the window the new state derives. */
  lemma CycleAnnounces(c: Core, forward: bool)
    requires Inv(c) && c.topo.monitors != []
    ensures Sane(c) && Tells(c, Step(c, if forward then CFocusNext else CFocusPrev), [], [])
  {
    hide Step, DoCycle, KeepsWindows, Tells;
    InvSane(c);
    hide Inv, Sane;
    CycleSays(c, if forward then 1 else -1);
    StepIsFocus(c, if forward then CFocusNext else CFocusPrev);
  }

  /** Focusing a window sets the focus once, to that window if it is visible and else to the root window. */
  lemma FocusWindowAnnounces(c: Core, id: nat)
    requires Inv(c)
    ensures Sane(c)
    ensures
      var d, w := Step(c, CFocusWindow(id)), if Shown(c.tb.index, id) then id else NO_WINDOW;
      if id !in c.tb.index then d == c
      else
        && Says(c, d, [FocusEffect(w)], [FocusChanged(w)])
        && (Shown(c.tb.index, id) && c.topo.monitors != [] ==> VisibleFocus(d) == id)
  {
    hide Step, Focus, KeepsWindows, Says, VisibleFocus;
    assert id in c.tb.index ==> id != NO_WINDOW;
    InvSane(c);
    hide Inv, Sane;
    StepIsFocus(c, CFocusWindow(id));
    if id in c.tb.index {
      FocusSays(c, id);
      if Shown(c.tb.index, id) && c.topo.monitors != [] {
        FocusOneTells(c, id);
      }
    }
  }

  /** The middle of the usable area, rounded towards its upper left corner where its size is not negative. */
  predicate AtCentre(p: Vec, m: Monitor) {
    && (m.w >= 0 ==> 0 <= m.w - 2 * (p.x - m.x) <= 1) && (m.w < 0 ==> -1 <= m.w - 2 * (p.x - m.x) <= 0)
    && (m.h >= 0 ==> 0 <= m.h - 2 * (p.y - m.y) <= 1) && (m.h < 0 ==> -1 <= m.h - 2 * (p.y - m.y) <= 0)
  }

  lemma Centre(m: Monitor)
    ensures AtCentre(Vec(m.x + TruncDiv(m.w, 2), m.y + TruncDiv(m.h, 2)), m)
  {
  }

  /** The focus goes to monitor `m`: one focus effect, and `m` stays focused if it shows a workspace. */
  ghost predicate GoesTo(c: Core, d: Core, m: int) {
    && Tells(c, d, [], [])
    && (ActiveWs(c.topo, m) >= 0 ==> d.topo.focused == m)
  }

  lemma MonitorFocused(c: Core, m: int)
    requires Inv(c) && 0 <= m < |c.topo.monitors|
    ensures
      var c1 := c.(topo := FocusMonitor(c.topo, m));
      Sane(c1) && GoesTo(c, Focus(c1, NO_WINDOW), m)
  {
    hide Focus, Inv, Tells, Says, ActiveWs;
    var c1 := c.(topo := FocusMonitor(c.topo, m));
    FocusMonitorInv(c, m);
    InvSane(c1);
    FocusNoneTells(c1);
    var d := Focus(c1, NO_WINDOW);
    TellsFrom(c, c1, d);
    SameActive(c.topo, c1.topo, m);
    if ActiveWs(c1.topo, m) >= 0 {
      FocusNoneStays(c1);
    }
  }

  /** What FocusMonitor does: the focus goes there if it was elsewhere, then the pointer to the middle. */
  ghost predicate Warps(c: Core, d: Core, m: int) {
    0 <= m < |c.topo.monitors| && exists p: Vec ::
      && AtCentre(p, c.topo.monitors[m]) && d.topo.focused == m
      && if m == c.topo.focused then d == c.(effects := c.effects + [WarpPointer(p)])
         else Says(c, d, [FocusEffect(VisibleFocus(d)), WarpPointer(p)], [FocusChanged(VisibleFocus(d))])
  }

  /** Focusing a monitor that shows a workspace; any other number or monitor is ignored. */
  lemma FocusMonitorAnnounces(c: Core, m: int)
    requires Inv(c)
    ensures Sane(c)
    ensures
      var d := Step(c, CFocusMonitor(m));
      if 0 <= m < |c.topo.monitors| && c.topo.monitors[m].activeWs >= 0 then Warps(c, d, m) else d == c
  {
    hide Step, DoFocusMonitor, KeepsWindows, Warps;
    InvSane(c);
    StepIsFocus(c, CFocusMonitor(m));
    if 0 <= m < |c.topo.monitors| && c.topo.monitors[m].activeWs >= 0 {
      hide Inv, Sane;
      WarpsThere(c, m);
    } else {
      NoMonitorThere(c, m);
    }
  }

  lemma NoMonitorThere(c: Core, m: int)
    requires Sane(c) && !(0 <= m < |c.topo.monitors| && c.topo.monitors[m].activeWs >= 0)
    ensures DoFocusMonitor(c, m) == c
  {
    hide Focus;
  }

  lemma WarpsThere(c: Core, m: int)
    requires Inv(c) && 0 <= m < |c.topo.monitors| && c.topo.monitors[m].activeWs >= 0
    ensures Sane(c) && Warps(c, DoFocusMonitor(c, m), m)
  {
    hide Focus, Inv, Says, AtCentre, VisibleFocus;
    InvSane(c);
    var mon := c.topo.monitors[m];
    var p := Vec(mon.x + TruncDiv(mon.w, 2), mon.y + TruncDiv(mon.h, 2));
    Centre(mon);
    if m != c.topo.focused {
      ShowsActive(c, m);
      MonitorFocused(c, m);
      var d := Focus(c.(topo := FocusMonitor(c.topo, m)), NO_WINDOW);
      var r := Emit(d, WarpPointer(p));
      Alone(VisibleFocus(d));
      EmitVisible(d, WarpPointer(p));
      SaysEffect(d, r, WarpPointer(p));
      SaysTrans(c, d, r, [FocusEffect(VisibleFocus(d))], [FocusChanged(VisibleFocus(d))], [WarpPointer(p)], []);
      assert [FocusEffect(VisibleFocus(d))] + [WarpPointer(p)] == [FocusEffect(VisibleFocus(d)), WarpPointer(p)];
      assert [FocusChanged(VisibleFocus(d))] + [] == [FocusChanged(VisibleFocus(d))];
    }
  }

  lemma ShowsActive(c: Core, m: int)
    requires Inv(c) && 0 <= m < |c.topo.monitors|
    ensures ActiveWs(c.topo, m) == c.topo.monitors[m].activeWs
  {
  }

  lemma EmitVisible(c: Core, e: Effect)
    ensures VisibleFocus(Emit(c, e)) == VisibleFocus(c)
  {
  }

  /** The point lies on the monitor's whole surface. */
  predicate Within(m: Monitor, x: int, y: int) {
    && 0 <= x - (m.x - Max(0, m.left)) < Max(1, m.w + Max(0, m.left) + Max(0, m.right))
    && 0 <= y - (m.y - Max(0, m.top)) < Max(1, m.h + Max(0, m.top) + Max(0, m.bottom))
  }

  /** `m` is the first monitor the point lies on. */
  ghost predicate FirstWithin(ms: seq<Monitor>, x: int, y: int, m: int) {
    0 <= m < |ms| && Within(ms[m], x, y) && forall i :: 0 <= i < m ==> !Within(ms[i], x, y)
  }

  lemma {:induction false} MonitorAtIs(ms: seq<Monitor>, x: int, y: int, k: nat)
    requires k <= |ms| && forall i :: 0 <= i < k ==> !Within(ms[i], x, y)
    ensures
      var m := MonitorAt(ms, x, y, k);
      if m < 0 then forall i :: 0 <= i < |ms| ==> !Within(ms[i], x, y) else FirstWithin(ms, x, y, m)
    decreases |ms| - k
  {
    if k < |ms| && !Within(ms[k], x, y) {
      MonitorAtIs(ms, x, y, k + 1);
    }
  }

  /**
   * The pointer enters a monitor: the focus goes to the first monitor whose surface holds the point, if that
   * is not the focused one already.
   */
  lemma FocusMonitorAtAnnounces(c: Core, x: int, y: int)
    requires Inv(c)
    ensures Sane(c)
    ensures
      var d := Step(c, CFocusMonitorAt(x, y));
      && (forall m :: FirstWithin(c.topo.monitors, x, y, m) && m != c.topo.focused ==> GoesTo(c, d, m))
      && (FirstWithin(c.topo.monitors, x, y, c.topo.focused) ==> d == c)
      && ((forall m :: 0 <= m < |c.topo.monitors| ==> !Within(c.topo.monitors[m], x, y)) ==> d == c)
  {
    hide Step, MonitorAt, Within, Focus, KeepsWindows, GoesTo;
    InvSane(c);
    StepIsFocus(c, CFocusMonitorAt(x, y));
    MonitorAtIs(c.topo.monitors, x, y, 0);
    var m := MonitorAt(c.topo.monitors, x, y, 0);
    hide Inv, Sane;
    if m >= 0 && m != c.topo.focused {
      MonitorFocused(c, m);
    }
  }

  // --- Local switches and hot-plugs --------------------------------------------------------------

  lemma ReconcileTells(c: Core)
    requires Inv(c)
    ensures Sane(c) && Tells(c, Reconcile(c), [], [])
    ensures ActiveWs(c.topo, c.topo.focused) >= 0 ==> Reconcile(c).topo.focused == c.topo.focused
    ensures SameButFocus(c.topo, Reconcile(c).topo)
  {
    hide Refresh, Focus, Inv, Watched, Says, Tells, ActiveWs;
    InvSane(c);
    RefreshInv(c);
    RefreshHides(c);
    RefreshSays(c);
    var c2 := Refresh(c);
    NobodyWatches(c2);
    FocusNoneTells(c2);
    FocusCurrent(c2);
    var d := Focus(c2, NO_WINDOW);
    QuietRefl(d);
    TellsAround(c, c2, d, d, []);
    if ActiveWs(c.topo, c.topo.focused) >= 0 {
      FocusNoneStays(c2);
    }
  }

  /** A position of the focused monitor's pool is shown, and the focus set once, before the switch is announced. */
  ghost predicate SwitchesLocally(c: Core, d: Core, li: int) {
    var m := c.topo.focused;
    && 0 <= m < |c.topo.pools| && 0 <= li < |c.topo.pools[m]|
    && Tells(c, d, [], [WorkspaceSwitched(c.topo.pools[m][li])])
    && d.topo.focused == m && ActiveWs(d.topo, m) == c.topo.pools[m][li]
  }

  lemma SwitchLocalAnnounces(c: Core, li: int)
    requires Inv(c)
    ensures Sane(c)
    ensures
      var d, m := Step(c, CSwitchLocal(li)), c.topo.focused;
      if 0 <= m < |c.topo.pools| && 0 <= li < |c.topo.pools[m]| then SwitchesLocally(c, d, li) else d == c
  {
    hide Step, DoSwitchLocal, KeepsWindows, SwitchesLocally;
    InvSane(c);
    StepIsFocus(c, CSwitchLocal(li));
    var m := c.topo.focused;
    if 0 <= m < |c.topo.pools| && 0 <= li < |c.topo.pools[m]| {
      hide Inv, Sane;
      SwitchLocalSays(c, li);
    } else {
      NoSuchPosition(c, li);
    }
  }

  lemma NoSuchPosition(c: Core, li: int)
    requires Sane(c) && !(0 <= c.topo.focused < |c.topo.pools| && 0 <= li < |c.topo.pools[c.topo.focused]|)
    ensures DoSwitchLocal(c, li) == c
  {
    hide Reconcile;
  }

  lemma SwitchLocalSays(c: Core, li: int)
    requires Inv(c) && 0 <= c.topo.focused < |c.topo.pools| && 0 <= li < |c.topo.pools[c.topo.focused]|
    ensures Sane(c) && SwitchesLocally(c, DoSwitchLocal(c, li), li)
  {
    hide Reconcile, Says, Tells, ActiveWs, Inv;
    InvSane(c);
    var m := c.topo.focused;
    ShownLocally(c, li);
    var c1 := c.(topo := Show(c.topo, m, li));
    ReconcileTells(c1);
    var d := Reconcile(c1);
    SameActive(c1.topo, d.topo, m);
    TellsFrom(c, c1, d);
    TellsThen(c, d, [], WorkspaceSwitched(c.topo.pools[m][li]));
  }

  lemma ShownLocally(c: Core, li: int)
    requires Inv(c) && 0 <= c.topo.focused < |c.topo.pools| && 0 <= li < |c.topo.pools[c.topo.focused]|
    ensures c.topo.focused < |c.topo.activeLocal|
    ensures
      var m := c.topo.focused;
      var c1 := c.(topo := Show(c.topo, m, li));
      && Inv(c1) && Sane(c1) && ActiveWs(c1.topo, m) == c.topo.pools[m][li] && c.topo.pools[m][li] >= 0
      && c1.topo.focused == m
  {
    var m := c.topo.focused;
    ShowKeeps(c.topo, m, li);
    SameOwnersHonour(c.topo, Show(c.topo, m, li), c.settings.aliases);
    assert PoolMatches(c.topo.owner, m, c.topo.pools[m]);
    assert c.topo.pools[m][li] in c.topo.pools[m];
  }

  /** A change of monitors sets the focus once, to the window the new state derives, whatever monitors are left. */
  lemma TopologyAnnounces(c: Core, ms: seq<Monitor>)
    requires Inv(c)
    ensures Sane(c) && Tells(c, Step(c, CApplyTopology(ms)), [], [])
  {
    hide Step, Replug, Reconcile, KeepsWindows, Tells;
    InvSane(c);
    StepIsFocus(c, CApplyTopology(ms));
    var c1 := c.(topo := Replug(c.topo, ms, c.settings.aliases, c.settings.compose));
    Replugged(c, ms);
    hide Inv, Sane;
    ReconcileTells(c1);
    TellsFrom(c, c1, Reconcile(c1));
  }

  lemma Replugged(c: Core, ms: seq<Monitor>)
    requires Inv(c)
    ensures
      var c1 := c.(topo := Replug(c.topo, ms, c.settings.aliases, c.settings.compose));
      Inv(c1) && Sane(c1)
  {
    hide Replug;
    ReplugSettles(c.topo, ms, c.settings.aliases, c.settings.compose);
    ReplugSized(c.topo, ms, c.settings.aliases, c.settings.compose);
  }

  // --- Fullscreen --------------------------------------------------------------------------------

  lemma Drawn(c: Core, d: Core, es: seq<Effect>)
    requires d.effects == c.effects + es && d.events == c.events && forall i :: 0 <= i < |es| ==> Drawing(es[i])
    ensures Says(c, d, [], [])
  {
    assert d.effects[|c.effects|..] == es;
    ActsOfDrawing(es);
  }

  lemma EnterSays(c: Core, id: nat, preserve: bool)
    requires Inv(c) && id in c.tb.index
    ensures
      var e := EnterFullscreen(c, id, preserve);
      Says(c, e, [], []) && Inv(e) && e.topo == c.topo && id in e.tb.index && e.tb.index[id].vis == c.tb.index[id].vis
  {
    hide FullscreenMonitor, Inv, Says, Quiet, Silent;
    var e := EnterFullscreen(c, id, preserve);
    EnterEffects(c, id, preserve);
    EnterLists(c, id, preserve);
    SameListsInv(c, e);
    var u := UpdateWindow(id);
    Drawn(c, e, e.effects[|c.effects|..]);
  }

  lemma EnterEffects(c: Core, id: nat, preserve: bool)
    requires id in c.tb.index
    ensures
      var e, u := EnterFullscreen(c, id, preserve), UpdateWindow(id);
      && e.events == c.events && (e.effects == c.effects + [u] || e.effects == c.effects + [u, u])
      && id in e.tb.index && e.tb.index[id].vis == c.tb.index[id].vis
  {
    hide FullscreenMonitor, Quiet, Silent;
    var u := UpdateWindow(id);
    assert c.effects + [u] + [u] == c.effects + [u, u];
  }

  lemma EnterLists(c: Core, id: nat, preserve: bool)
    requires id in c.tb.index
    ensures SameLists(c, EnterFullscreen(c, id, preserve))
  {
    hide EnterFullscreen;
  }

  lemma LeaveEffects(c: Core, id: nat)
    requires id in c.tb.index
    ensures SameLists(c, LeaveFullscreen(c, id))
    ensures
      var e, u := LeaveFullscreen(c, id), UpdateWindow(id);
      e.events == c.events && (e.effects == c.effects + [u] || e.effects == c.effects + [u, u])
  {
    var u := UpdateWindow(id);
    assert c.effects + [u] + [u] == c.effects + [u, u];
  }

  lemma FullscreenIs(c: Core, id: nat, enabled: bool, preserve: bool)
    requires Sane(c)
    ensures Step(c, CSetFullscreen(id, enabled, preserve)) == DoFullscreen(c, id, enabled, preserve)
  {
    hide StepVisibility, StepFlag, StepGeometry, StepLayout, StepFocus, StepMove, DoApplySettings, Sane;
    hide DoFullscreen, DoEnsure, DoAssign, DoMetadata, DoBorderless, DoRemove, KeepsWindows, Quiet, Silent, SameLists;
  }

  /** Two quiet steps with a restacking of the docks between them. */
  lemma QuietTwice(c: Core, a: Core, b: Core)
    requires Quiet(c, a) && Quiet(Post(a, RaiseDocks), b)
    ensures Quiet(c, b)
  {
    QuietTrans(c, Post(a, RaiseDocks), b);
  }

  lemma EnteredSays(c: Core, id: nat, preserve: bool)
    requires Inv(c) && id in c.tb.index
    ensures Sane(c) && id in c.tb.home
    ensures
      var d := DoEnter(c, id, preserve);
      if OnDisplay(c, c.tb.home[id]) && c.tb.index[id].Visible()
      then Tells(c, d, [], []) && VisibleFocus(d) == id
      else Says(c, d, [], [])
  {
    hide EnterFullscreen, Arrange, Focus, Evaluate, Inv, Quiet, Silent, Says, Tells, VisibleFocus, OnDisplay;
    InvSane(c);
    InvHome(c, id);
    EnterSays(c, id, preserve);
    var e := EnterFullscreen(c, id, preserve);
    var a := Arrange(e);
    var p := Post(a, RaiseDocks);
    QuietSays(e, a);
    QuietInv(e, a);
    SameSettings(e, a);
    FlagsKept(e, a, id);
    DocksSays(a);
    SaysTrans(c, e, a, [], [], [], []);
    SaysTrans(c, a, p, [], [], [], []);
    InvSane(p);
    SameDisplay(c, p, c.tb.home[id]);
    ShownIsOnDisplay(p, c.tb.home[id]);
    assert id != NO_WINDOW ==> HomeOf(c.tb, id) == c.tb.home[id];
    InvNoWindow(c, id);
    if OnDisplay(c, c.tb.home[id]) && c.tb.index[id].Visible() {
      FocusOneTells(p, id);
      var d := Focus(p, id);
      QuietRefl(d);
      TellsAround(c, p, d, d, []);
    } else {
      var d := Evaluate(p, c.tb.home[id]);
      QuietSays(p, d);
      SaysTrans(c, p, d, [], [], [], []);
    }
  }

  lemma InvNoWindow(c: Core, id: nat)
    requires Inv(c) && id in c.tb.index
    ensures id != NO_WINDOW
  {
  }

  lemma DocksSays(c: Core)
    requires Inv(c)
    ensures Says(c, Post(c, RaiseDocks), [], []) && Inv(Post(c, RaiseDocks))
  {
    assert Post(c, RaiseDocks).events[|c.events|..] == [RaiseDocks];
  }

  lemma LeftSays(c: Core, id: nat)
    requires Inv(c) && id in c.tb.index
    ensures Sane(c) && Says(c, DoLeave(c, id), [], [])
  {
    hide LeaveFullscreen, Arrange, Evaluate, Inv, Quiet, Silent, Says;
    InvSane(c);
    var e := LeaveFullscreen(c, id);
    LeaveEffects(c, id);
    SameListsInv(c, e);
    Drawn(c, e, e.effects[|c.effects|..]);
    var a := Arrange(e);
    QuietInv(e, a);
    InvSane(a);
    var b := Evaluate(a, HomeOf(c.tb, id));
    QuietInv(a, b);
    QuietSays(e, a);
    QuietSays(a, b);
    DocksSays(b);
    SaysTrans(c, e, a, [], [], [], []);
    SaysTrans(c, a, b, [], [], [], []);
    SaysTrans(c, b, Post(b, RaiseDocks), [], [], [], []);
  }

  /**
   * Enabling fullscreen focuses the window if it is visible on a monitor, and says nothing else; disabling it
   * says nothing about the focus.
   */
  lemma FullscreenAnnounces(c: Core, id: nat, enabled: bool, preserve: bool)
    requires Inv(c)
    ensures Sane(c)
    ensures
      var d := Step(c, CSetFullscreen(id, enabled, preserve));
      if id !in c.tb.index then d == c
      else
        && id in c.tb.home
        && if enabled && OnDisplay(c, c.tb.home[id]) && c.tb.index[id].Visible()
           then Says(c, d, [FocusWindow(id)], [FocusChanged(id)]) && VisibleFocus(d) == id
           else Says(c, d, [], [])
  {
    hide Step, DoEnter, DoLeave, OnDisplay, KeepsWindows, Says, VisibleFocus;
    InvSane(c);
    FullscreenIs(c, id, enabled, preserve);
    hide Sane;
    if id in c.tb.index {
      InvHome(c, id);
      InvNoWindow(c, id);
      hide Inv;
      Alone(id);
      if enabled {
        EnteredSays(c, id, preserve);
      } else if c.tb.index[id].props.fullscreen {
        LeftSays(c, id);
      } else {
        SaysNothing(c, c);
      }
    }
  }

  // --- The other commands ------------------------------------------------------------------------

  /** Commands that only change windows, layout or settings. */
  predicate Unannounced(cmd: Command) {
    || VisibilityCommand(cmd) || GeometryCommand(cmd) || LayoutCommand(cmd) || (FlagCommand(cmd) && !cmd.CCloseWindow?)
    || cmd.CEnsureWindow? || cmd.CSetBorderless? || cmd.CRemoveWindow? || cmd.CApplySettings?
  }

  lemma VisibilitySays(c: Core, cmd: Command)
    requires Sane(c)
    ensures Says(c, StepVisibility(c, cmd), [], [])
  {
    hide SameSaved, SameGeometry, SameLists;
    var d := StepVisibility(c, cmd);
    var es := if d.effects == c.effects then [] else [d.effects[|c.effects|]];
    assert d.effects == c.effects + es;
    Drawn(c, d, es);
  }

  lemma FlagSays(c: Core, cmd: Command)
    requires Sane(c)
    ensures
      var closing := cmd.CCloseWindow? && cmd.win in c.tb.index;
      Says(c, StepFlag(c, cmd), if closing then [CloseWindow(cmd.win)] else [], [])
  {
    hide Silent, SameSaved, SameGeometry;
    var d := StepFlag(c, cmd);
    if cmd.CCloseWindow? && cmd.win in c.tb.index {
      SaysEffect(c, d, CloseWindow(cmd.win));
    } else {
      SaysNothing(c, d);
    }
  }

  lemma ArrangedSays(c: Core, e: Core)
    requires e.effects == c.effects && e.events == c.events
    ensures Says(c, Arrange(e), [], [])
  {
    hide Arrange, Says, Quiet;
    SaysNothing(c, e);
    QuietSays(e, Arrange(e));
    SaysTrans(c, e, Arrange(e), [], [], [], []);
  }

  lemma LayoutSays(c: Core, cmd: Command)
    requires Sane(c)
    ensures Says(c, StepLayout(c, cmd), [], [])
  {
    hide Arrange, Says, CanZoom, ZoomTable, Configured, CurrentFocused, Sane, KeepsWindows, Quiet, Silent;
    SaysNothing(c, c);
    ArrangedSays(c, c);
    if ConfigCommand(cmd) {
      ArrangedSays(c, Configured(c, cmd));
    } else if cmd.CReserveArea? {
      SaysNothing(c, DoReserve(c, cmd.monitor, cmd.edge, cmd.px));
    } else if cmd.CZoom? {
      ArrangedSays(c, c.(tb := ZoomTable(c.tb, CurrentWs(c))));
    } else if cmd.CToggleFocusedFloating? && CurrentFocused(c) in c.tb.index {
      ArrangedSays(c, ToggledFloating(c, CurrentFocused(c)));
    }
  }

  lemma EvaluatedSays(c: Core, e: Core, es: seq<Effect>, ws: int)
    requires Sane(e) && e.effects == c.effects + es && e.events == c.events && forall i :: 0 <= i < |es| ==> Drawing(es[i])
    ensures Says(c, Evaluate(e, ws), [], [])
  {
    hide Evaluate, Says, Quiet, Sane;
    Drawn(c, e, es);
    QuietSays(e, Evaluate(e, ws));
    SaysTrans(c, e, Evaluate(e, ws), [], [], [], []);
  }

  lemma BorderlessSays(c: Core, id: nat, flag: bool)
    requires Sane(c)
    ensures Says(c, DoBorderless(c, id, flag), [], [])
  {
    hide Evaluate, Says, WithBorder, HomeOf, Quiet, KeepsWindows;
    SaysNothing(c, c);
    if id in c.tb.index {
      var w0 := c.tb.index[id];
      var w := w0.(props := w0.props.(borderless := flag, promoteToBorderless := false));
      if flag && w.geo.border != 0 && !w.OwnsGeometry() {
        var e := Emit(Put(c, id, WithBorder(w, 0)), UpdateWindow(id));
        EvaluatedSays(c, e, [UpdateWindow(id)], HomeOf(e.tb, id));
      } else {
        var e := Put(c, id, w);
        EvaluatedSays(c, e, [], HomeOf(e.tb, id));
      }
    }
  }

  lemma RemoveSays(c: Core, id: nat)
    requires Sane(c)
    ensures Says(c, DoRemove(c, id), [], [])
  {
    hide Evaluate, Says, Drop;
    EvaluatedSays(c, c.(tb := Drop(c.tb, id), dirty := c.dirty - {id}), [], HomeOf(c.tb, id));
  }

  lemma StepIsSilent(c: Core, cmd: Command)
    requires Sane(c) && Allowed(c, cmd) && Unannounced(cmd)
    ensures
      Step(c, cmd) ==
        if VisibilityCommand(cmd) then StepVisibility(c, cmd)
        else if FlagCommand(cmd) then StepFlag(c, cmd)
        else if GeometryCommand(cmd) then StepGeometry(c, cmd)
        else if LayoutCommand(cmd) then StepLayout(c, cmd)
        else if cmd.CApplySettings? then DoApplySettings(c, cmd.next)
        else if cmd.CEnsureWindow? then DoEnsure(c, cmd.win, cmd.ws)
        else if cmd.CSetBorderless? then DoBorderless(c, cmd.win, cmd.flag)
        else DoRemove(c, cmd.win)
  {
    hide StepVisibility, StepFlag, StepGeometry, StepLayout, StepFocus, StepMove, DoApplySettings, Sane;
    hide DoFullscreen, DoEnsure, DoAssign, DoMetadata, DoBorderless, DoRemove, KeepsWindows, Quiet, Silent, SameLists;
  }

  /** These commands leave the keyboard focus alone: no focus effect, no event but a restacking of the docks. */
  lemma OthersAnnounceNothing(c: Core, cmd: Command)
    requires Inv(c) && Allowed(c, cmd) && Unannounced(cmd)
    ensures Sane(c) && Says(c, Step(c, cmd), [], [])
  {
    hide Step, StepVisibility, StepFlag, StepGeometry, StepLayout, DoApplySettings, DoEnsure, DoBorderless, DoRemove;
    hide Says, Inv, Quiet, Silent, SameLists, SameSaved, SameGeometry, KeepsWindows;
    InvSane(c);
    StepIsSilent(c, cmd);
    if VisibilityCommand(cmd) {
      VisibilitySays(c, cmd);
    } else if FlagCommand(cmd) {
      FlagSays(c, cmd);
    } else if GeometryCommand(cmd) {
      QuietSays(c, StepGeometry(c, cmd));
    } else if LayoutCommand(cmd) {
      LayoutSays(c, cmd);
    } else if cmd.CApplySettings? {
      SettingsSays(c, cmd.next);
    } else if cmd.CEnsureWindow? {
      EnsureSays(c, cmd.win, cmd.ws);
    } else if cmd.CSetBorderless? {
      BorderlessSays(c, cmd.win, cmd.flag);
    } else {
      RemoveSays(c, cmd.win);
    }
  }

  lemma SettingsSays(c: Core, next: Settings)
    requires Sane(c) && Applicable(c, next)
    ensures Says(c, DoApplySettings(c, next), [], [])
  {
    hide Resize, Reload;
    SaysNothing(c, DoApplySettings(c, next));
  }

  lemma EnsureSays(c: Core, id: nat, ws: int)
    requires Sane(c)
    ensures Says(c, DoEnsure(c, id, ws), [], [])
  {
    hide Create, Move, Says;
    SaysNothing(c, DoEnsure(c, id, ws));
  }

  lemma AssignSays(c: Core, id: nat, ws: int)
    requires Sane(c) && id in c.tb.index
    ensures Says(c, DoAssign(c, id, ws), [], [WindowAssigned(id, ws)])
  {
    hide Move;
    SaysEvent(c.(tb := Move(c.tb, id, ws)), WindowAssigned(id, ws));
  }

  lemma MetadataSays(c: Core, id: nat, kind: WindowType, h: MapHints, transientFor: nat)
    requires Inv(c) && id in c.tb.index
    ensures Sane(c)
    ensures
      var d := DoMetadata(c, id, kind, h, transientFor);
      Says(c, d, [], if transientFor in c.tb.home then [WindowAssigned(id, c.tb.home[transientFor])] else [])
  {
    hide Classified, Floats, DoAssign, PutProps, Inv, Silent, SameSaved, SameGeometry, SameVis, Says;
    InvSane(c);
    ParentHome(c, transientFor);
    var c1 := PutProps(c, id, Classified(c.tb.index[id].props, kind, h));
    PropsHome(c, id, Classified(c.tb.index[id].props, kind, h));
    var c2 := RouteTransient(c1, id, transientFor);
    var d := DoMetadata(c, id, kind, h, transientFor);
    SaysNothing(c, c1);
    var parent := if transientFor == NO_WINDOW then NO_WS else HomeOf(c1.tb, transientFor);
    if parent >= 0 {
      var p := c1.tb.index[id].props.(suppressFocusOnce := true);
      PropsHome(c1, id, p);
      SaysNothing(c1, PutProps(c1, id, p));
      AssignSays(PutProps(c1, id, p), id, parent);
      SaysTrans(c1, PutProps(c1, id, p), c2, [], [], [], [WindowAssigned(id, parent)]);
      SaysTrans(c, c1, c2, [], [], [] + [], [] + [WindowAssigned(id, parent)]);
      assert [] + ([] + [WindowAssigned(id, parent)]) == [WindowAssigned(id, parent)];
    }
    if d != c2 {
      PropsHome(c2, id, c2.tb.index[id].props.(floating := true));
    }
    SaysNothing(c2, d);
    if parent >= 0 {
      SaysTrans(c, c2, d, [], [WindowAssigned(id, parent)], [], []);
      assert [WindowAssigned(id, parent)] + [] == [WindowAssigned(id, parent)];
    } else {
      SaysTrans(c, c2, d, [], [], [], []);
    }
  }

  lemma ParentHome(c: Core, parent: nat)
    requires Inv(c)
    ensures parent in c.tb.home <==> parent != NO_WINDOW && HomeOf(c.tb, parent) >= 0
    ensures parent in c.tb.home ==> HomeOf(c.tb, parent) == c.tb.home[parent]
  {
  }

  lemma PropsHome(c: Core, id: nat, p: Props)
    requires Sane(c) && id in c.tb.index && p.fullscreen == c.tb.index[id].props.fullscreen
    ensures
      var d := PutProps(c, id, p);
      Sane(d) && d.tb.home == c.tb.home && d.tb.lists == c.tb.lists && d.tb.cursors == c.tb.cursors && id in d.tb.index
  {
  }

  lemma WindowStepIs(c: Core, cmd: Command)
    requires Sane(c) && (cmd.CAssignWorkspace? || cmd.CSetMetadata?)
    ensures
      Step(c, cmd) ==
        if cmd.CAssignWorkspace? then DoAssign(c, cmd.win, cmd.ws)
        else DoMetadata(c, cmd.win, cmd.kind, cmd.hints, cmd.transientFor)
  {
    hide StepVisibility, StepFlag, StepGeometry, StepLayout, StepFocus, StepMove, DoApplySettings, Sane;
    hide DoFullscreen, DoEnsure, DoAssign, DoMetadata, DoBorderless, DoRemove, KeepsWindows, Quiet, Silent, SameLists;
  }

  lemma FlagStepIs(c: Core, cmd: Command)
    requires Sane(c) && FlagCommand(cmd)
    ensures Step(c, cmd) == StepFlag(c, cmd)
  {
    hide StepVisibility, StepFlag, StepGeometry, StepLayout, StepFocus, StepMove, DoApplySettings, Sane, StepWindow;
    hide KeepsWindows, Quiet, Silent, SameLists;
  }

  /**
   * Closing a window asks its client and says nothing else; assigning it, and routing it to its parent's
   * workspace, announces the workspace and leaves the focus alone.
   */
  lemma RequestsAnnounce(c: Core, cmd: Command)
    requires Inv(c) && (cmd.CCloseWindow? || cmd.CAssignWorkspace? || cmd.CSetMetadata?)
    ensures Sane(c)
    ensures
      var d := Step(c, cmd);
      if cmd.win !in c.tb.index then d == c
      else if cmd.CCloseWindow? then Says(c, d, [CloseWindow(cmd.win)], [])
      else if cmd.CAssignWorkspace? then Says(c, d, [], [WindowAssigned(cmd.win, cmd.ws)])
      else if cmd.transientFor in c.tb.home then
        Says(c, d, [], [WindowAssigned(cmd.win, c.tb.home[cmd.transientFor])])
      else Says(c, d, [], [])
  {
    hide Step, StepFlag, Inv, Says, Quiet, Silent, SameLists, SameSaved, SameGeometry, KeepsWindows;
    InvSane(c);
    if cmd.CCloseWindow? {
      FlagStepIs(c, cmd);
      FlagSays(c, cmd);
      if cmd.win !in c.tb.index {
        CloseUnknown(c, cmd.win);
      }
    } else {
      WindowStepIs(c, cmd);
      if cmd.win in c.tb.index {
        if cmd.CAssignWorkspace? {
          AssignSays(c, cmd.win, cmd.ws);
        } else {
          MetadataSays(c, cmd.win, cmd.kind, cmd.hints, cmd.transientFor);
        }
      }
    }
  }

  lemma CloseUnknown(c: Core, id: nat)
    requires Sane(c) && id !in c.tb.index
    ensures StepFlag(c, CCloseWindow(id)) == c
  {
  }
}
