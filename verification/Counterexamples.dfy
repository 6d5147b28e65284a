/**
 * Inputs at which a promise fails. Elsewhere it is proved exactly when these promises hold; here each of
 * them fails on something the code can be given: a run from start-up, or a configuration that the
 * validator accepts.
 */
module Counterexamples {
  import opened Config
  import opened Monitors
  import opened Topology
  import opened TopologyProofs
  import opened Windows
  import opened WindowProofs
  import opened Flush
  import opened Reducer
  import opened ReducerProofs
  import Announcing = FocusCommands
  import Assigning = Assignment
  import Compose
  import Effects = EffectProofs
  import Focusing = FocusProofs
  import Geo = GeometryProtocol
  import opened Hotplug
  import HotplugRuns
  import Reloading = ReloadProofs
  import opened TopologySteps
  import Validator

  // --- Single commands ---------------------------------------------------------------------------

  lemma EnsureStep(c: Core, id: nat, ws: int)
    requires Sane(c)
    ensures Step(c, CEnsureWindow(id, ws)) == DoEnsure(c, id, ws)
  {
    hide DoRemove, StepVisibility, StepFlag, StepGeometry, StepLayout, StepFocus, DoApplySettings, StepMove;
    hide DoFullscreen, DoEnsure, DoAssign, DoMetadata, DoBorderless, Sane;
  }

  /** Mapping a fresh window. */
  lemma MapStep(c: Core, id: nat)
    requires Sane(c) && id in c.tb.index && c.tb.index[id] == FRESH
    ensures Step(c, CMapWindow(id)) == Emit(Put(c, id, FRESH.(vis := Visibility(true, false, false))), MapWindow(id))
  {
    hide StepFlag, StepGeometry, StepLayout, StepFocus, StepMove, StepWindow, DoApplySettings, SameLists, SameSaved;
    hide SameGeometry;
  }

  // --- A window id used again --------------------------------------------------------------------

  const OPENED: seq<Command> := [CEnsureWindow(5, 0), CMapWindow(5)]

  /** From start-up, window 5 is created and mapped. */
  lemma Opened(settings: Settings, monitors: seq<Monitor>) returns (d: Core)
    ensures Runs(Init(settings, monitors), OPENED, d) && Inv(d) && d.tb.lists != []
    ensures 5 in d.tb.index && d.tb.index[5].Visible() && d.effects == [MapWindow(5)]
  {
    hide Step, Inv, Init, Runs;
    var c0 := Init(settings, monitors);
    InitInv(settings, monitors);
    InitStart(settings, monitors);
    FirstWindow(c0, 5, 0);
    var c1 := Step(c0, CEnsureWindow(5, 0));
    MapStep(c1, 5);
    d := Step(c1, CMapWindow(5));
    StepInv(c1, CMapWindow(5));
    NoCommands(c0);
    RunsSnoc(c0, [], c0, CEnsureWindow(5, 0));
    assert [] + [CEnsureWindow(5, 0)] == [CEnsureWindow(5, 0)];
    RunsSnoc(c0, [CEnsureWindow(5, 0)], c1, CMapWindow(5));
    assert [CEnsureWindow(5, 0)] + [CMapWindow(5)] == OPENED;
  }

  /**
   * Window 5 is created, mapped and removed, and one of the same id is created before the backend looks:
   * the new window was never mapped, but the pending effects map it.
   */
  lemma MappedBeforeItsTime(settings: Settings, monitors: seq<Monitor>) returns (d: Core)
    ensures Runs(Init(settings, monitors), OPENED + [CRemoveWindow(5)] + [CEnsureWindow(5, 0)], d)
    ensures 5 in d.tb.index && !d.tb.index[5].Visible() && 5 in Effects.Replay({}, d.effects)
  {
    hide Step, Inv, Init, Runs, DoRemove, Effects.Replay;
    var c0 := Init(settings, monitors);
    InitInv(settings, monitors);
    var c2 := Opened(settings, monitors);
    InvSane(c2);
    RemoveIsStep(c2, 5);
    RemovedStillReplayed(c2, 5);
    var c3 := Step(c2, CRemoveWindow(5));
    StepInv(c2, CRemoveWindow(5));
    FirstWindow(c3, 5, 0);
    d := Step(c3, CEnsureWindow(5, 0));
    RunsSnoc(c0, OPENED, c2, CRemoveWindow(5));
    RunsSnoc(c0, OPENED + [CRemoveWindow(5)], c3, CEnsureWindow(5, 0));
  }

  lemma InitStart(settings: Settings, monitors: seq<Monitor>)
    ensures
      var c := Init(settings, monitors);
      c.tb.lists != [] && c.tb.index == map[] && c.effects == [] && c.dirty == map[]
  {
  }

  /** A window that was not known is fresh after its creation, and nothing was emitted for it. */
  lemma FirstWindow(c: Core, id: nat, ws: int)
    requires Inv(c) && c.tb.lists != [] && id !in c.tb.index && id != NO_WINDOW
    ensures Sane(c)
    ensures
      var d := Step(c, CEnsureWindow(id, ws));
      && Inv(d) && Sane(d) && d.tb.lists != [] && d.tb.index == c.tb.index[id := FRESH]
      && d.effects == c.effects && d.topo == c.topo && d.dirty == c.dirty
      && id in d.tb.home && d.tb.home[id] == TargetWs(c.tb, ws, ActiveWs(c.topo, c.topo.focused))
      && |d.tb.lists| == |c.tb.lists|
      && (forall x :: x in c.tb.home ==> x in d.tb.home && d.tb.home[x] == c.tb.home[x])
  {
    hide Step, Create;
    StepInv(c, CEnsureWindow(id, ws));
    EnsureStep(c, id, ws);
    CreateKeeps(c.tb, id, ws, ActiveWs(c.topo, c.topo.focused));
  }

  lemma RemovedStillReplayed(c: Core, id: nat)
    requires Inv(c) && c.tb.lists != [] && id in c.tb.index
    requires c.effects == [MapWindow(id)]
    ensures
      var d := DoRemove(c, id);
      Sane(c) && d.tb.lists != [] && id !in d.tb.index && id in Effects.Replay({}, d.effects)
  {
    hide Evaluate, Drop;
    DropKeeps(c.tb, id);
    var e := c.(tb := Drop(c.tb, id), dirty := c.dirty - {id});
    assert Effects.Replay({}, c.effects) == {id} by {
      assert c.effects[..0] == [];
      assert Effects.Replay({}, []) == {};
    }
    Effects.ReplayIgnores({}, c.effects, Evaluate(e, HomeOf(c.tb, id)).effects);
  }

  // --- The focus on an invisible window ----------------------------------------------------------

  /** With one monitor, that monitor is focused and shows a workspace from the start. */
  lemma OneMonitorShows(settings: Settings, m: Monitor)
    ensures
      var c := Init(settings, [m]);
      && c.topo.focused == 0 && |c.topo.monitors| == 1 && |c.tb.lists| == |c.topo.wsAlias|
      && 0 <= ActiveWs(c.topo, 0) < |c.topo.wsAlias|
  {
    hide Assign, SetMonitors;
    var c := Init(settings, [m]);
    InitSettles(settings, [m]);
    InitNames(settings, m);
    assert |Names(c.topo.monitors)| == |c.topo.monitors|;
    PoolsCover(c.topo, 0);
    ActiveIsWs(c.topo, 0);
  }

  lemma InitNames(settings: Settings, m: Monitor)
    ensures Names(InitTopology(settings, [m]).monitors) == [m.name]
  {
    hide Assign, SetMonitors;
    var empty := Topology([], [], [], [], [], map[], map[], 0);
    var t := SetMonitors(empty, [m]);
    SetMonitorsNames(empty, [m]);
    var aliases := InitAliases(settings);
    AssignSettles(t.(wsAlias := aliases, owner := seq(|aliases|, _ => NONE),
                     pools := seq(|t.monitors|, _ => []), activeLocal := seq(|t.monitors|, _ => NONE),
                     parkedPools := map[], parkedActive := map[]),
                  settings.aliases, settings.compose);
  }

  const TWO_WINDOWS: seq<Command> := [CEnsureWindow(1, NO_WS), CMapWindow(1)] + [CEnsureWindow(2, NO_WS)]

  /** Two windows on the workspace that is shown; the first is mapped, the second is not. */
  lemma TwoWindows(settings: Settings, m: Monitor) returns (d: Core)
    ensures Runs(Init(settings, [m]), TWO_WINDOWS, d) && Inv(d)
    ensures 1 in d.tb.index && d.tb.index[1].Visible() && 2 in d.tb.index && !d.tb.index[2].Visible()
    ensures d.tb.index.Keys == {1, 2} && IsWs(d.tb, ActiveWs(d.topo, d.topo.focused))
    ensures 1 in d.tb.home && d.tb.home[1] == ActiveWs(d.topo, d.topo.focused)
  {
    hide Step, Inv, Init, Runs;
    var c0 := Init(settings, [m]);
    InitInv(settings, [m]);
    InitStart(settings, [m]);
    OneMonitorShows(settings, m);
    InvSane(c0);
    FirstWindow(c0, 1, NO_WS);
    var c1 := Step(c0, CEnsureWindow(1, NO_WS));
    MapStep(c1, 1);
    var c2 := Step(c1, CMapWindow(1));
    StepInv(c1, CMapWindow(1));
    FirstWindow(c2, 2, NO_WS);
    d := Step(c2, CEnsureWindow(2, NO_WS));
    NoCommands(c0);
    RunsSnoc(c0, [], c0, CEnsureWindow(1, NO_WS));
    assert [] + [CEnsureWindow(1, NO_WS)] == [CEnsureWindow(1, NO_WS)];
    RunsSnoc(c0, [CEnsureWindow(1, NO_WS)], c1, CMapWindow(1));
    assert [CEnsureWindow(1, NO_WS)] + [CMapWindow(1)] == [CEnsureWindow(1, NO_WS), CMapWindow(1)];
    RunsSnoc(c0, [CEnsureWindow(1, NO_WS), CMapWindow(1)], c2, CEnsureWindow(2, NO_WS));
  }

  /** The only visible window of the workspace shown is the one that state derives as focused. */
  lemma OnlyVisibleDerived(c: Core, id: nat)
    requires Inv(c) && id in c.tb.index && c.tb.index[id].Visible()
    requires IsWs(c.tb, ActiveWs(c.topo, c.topo.focused)) && c.tb.home[id] == ActiveWs(c.topo, c.topo.focused)
    requires forall x :: x in c.tb.index && x != id ==> !c.tb.index[x].Visible()
    ensures Focusing.VisibleFocus(c) == id
  {
    var ws := c.tb.home[id];
    var list := c.tb.lists[ws];
    var i :| 0 <= i < |list| && list[i] == id;
    assert Shown(c.tb.index, list[i]) && AnyShown(c.tb.index, list);
    assert Candidate(c.tb.index, list, list[i]);
  }

  /**
   * Focusing the unmapped one of two windows announces that nothing is focused, although the focused
   * monitor, its workspace and that workspace's window still say that it is the mapped one.
   */
  lemma RootThoughOneIsVisible(settings: Settings, m: Monitor) returns (d: Core)
    ensures Runs(Init(settings, [m]), TWO_WINDOWS + [CFocusWindow(2)], d)
    ensures d.effects != [] && d.effects[|d.effects| - 1] == FocusRoot
    ensures d.events != [] && d.events[|d.events| - 1] == FocusChanged(NO_WINDOW)
    ensures Focusing.VisibleFocus(d) == 1
  {
    hide Step, Inv, Init, Runs, Focusing.VisibleFocus;
    var c := TwoWindows(settings, m);
    InitInv(settings, [m]);
    InvSane(c);
    FocusStep(c, 2);
    d := Step(c, CFocusWindow(2));
    RunsSnoc(Init(settings, [m]), TWO_WINDOWS, c, CFocusWindow(2));
    OnlyVisibleDerived(c, 1);
    InvKeys(c);
    RootKeepsFocus(c, d);
  }

  lemma InvKeys(c: Core)
    requires Inv(c)
    ensures NO_WINDOW !in c.tb.index
  {
  }

  lemma FocusStep(c: Core, id: nat)
    requires Sane(c) && id in c.tb.index && !c.tb.index[id].Visible() && id != NO_WINDOW
    ensures Step(c, CFocusWindow(id)) == Post(Emit(c, FocusRoot), FocusChanged(NO_WINDOW))
  {
    hide StepVisibility, StepFlag, StepGeometry, StepLayout, StepMove, StepWindow, DoApplySettings, KeepsWindows;
    hide DoSwitch, DoCycle, DoSwitchLocal, DoApplyTopology, DoFocusMonitor, DoFocusMonitorAt, Evaluate, FocusState;
    hide Sane;
  }

  lemma RootKeepsFocus(c: Core, d: Core)
    requires d.tb == c.tb && d.topo == c.topo
    ensures Focusing.VisibleFocus(d) == Focusing.VisibleFocus(c)
  {
    Focusing.RootDerives(c, d);
  }

  // --- The border of a borderless window ---------------------------------------------------------

  /** A window just created, of which core and server have the same geometry, with nothing under way. */
  ghost predicate JustCreated(s: Geo.Link, settings: Settings, monitors: seq<Monitor>) {
    && Runs(Init(settings, monitors), [CEnsureWindow(5, 0)], s.core)
    && s.requests == [] && s.echoes == [] && s.server == map[5 := Geometry(ZERO, ZERO, 0)]
  }

  lemma BorderStep(c: Core, id: nat, width: int)
    requires Sane(c) && id in c.tb.index
    ensures Step(c, CSetBorderWidth(id, width)) == SetBorderWidth(c, id, width)
  {
    hide StepVisibility, StepFlag, StepLayout, StepFocus, StepMove, StepWindow, DoApplySettings, SetBorderWidth;
    hide Quiet, Sane;
  }

  lemma BorderlessStep(c: Core, id: nat, flag: bool)
    requires Sane(c)
    ensures Step(c, CSetBorderless(id, flag)) == DoBorderless(c, id, flag)
  {
    hide StepVisibility, StepFlag, StepGeometry, StepLayout, StepFocus, StepMove, DoApplySettings, DoBorderless;
    hide DoFullscreen, DoEnsure, DoAssign, DoMetadata, DoRemove, Sane;
  }

  /** Core and server agree on a window without geometry of its own and with a border of 1; nothing is pending. */
  ghost predicate AgreedBorder(s: Geo.Link) {
    && Inv(s.core) && 5 in s.core.tb.index && 5 in s.server && s.requests == [] && s.echoes == []
    && DirtyOf(s.core, 5) == CLEAN && s.core.tb.index[5].geo.border == 1 == s.server[5].border
    && !s.core.tb.index[5].OwnsGeometry()
  }

  lemma {:induction false} LinkSnoc(s: Geo.Link, actions: seq<Geo.Action>, t: Geo.Link, a: Geo.Action)
    requires Geo.LinkRuns(s, actions, t, 5) && Sane(t.core) && Geo.Fair(t, a, 5)
    ensures Geo.LinkRuns(s, actions + [a], Geo.After(t, a), 5)
    decreases |actions|
  {
    hide Geo.After, Sane, Allowed;
    var all := actions + [a];
    if actions == [] {
      assert all[1..] == [];
      assert Geo.LinkRuns(Geo.After(t, a), [], Geo.After(t, a), 5);
    } else {
      assert all[0] == actions[0] && all[1..] == actions[1..] + [a];
      LinkSnoc(Geo.After(s, actions[0]), actions[1..], t, a);
    }
  }

  const AGREEING: seq<Geo.Action> := [Geo.Command(CSetBorderWidth(5, 1)), Geo.FlushWindow(5), Geo.Serve, Geo.Deliver]

  /** A border width is set and sent. */
  lemma BorderSent(s: Geo.Link) returns (t: Geo.Link)
    requires Inv(s.core) && s.core.tb.index == map[5 := FRESH] && s.core.dirty == map[]
    requires s.requests == [] && s.echoes == []
    ensures Geo.LinkRuns(s, AGREEING[..2], t, 5) && Inv(t.core)
    ensures t.core.tb.index == map[5 := WithBorder(FRESH, 1)] && t.core.dirty == map[] && t.echoes == [] && t.server == s.server
    ensures t.requests == [Geo.Encode(5, BORDER, Geometry(ZERO, ZERO, 1))]
  {
    hide Step, Inv, Geo.Encode, Geo.LinkRuns;
    InvSane(s.core);
    var cmd := CSetBorderWidth(5, 1);
    BorderStep(s.core, 5, 1);
    StepInv(s.core, cmd);
    var s1 := Geo.After(s, Geo.Command(cmd));
    InvSane(s1.core);
    assert s1.core.dirty == map[5 := BORDER] && s1.core.tb.index == map[5 := WithBorder(FRESH, 1)];
    Geo.FlushInv(s1.core, 5);
    t := Geo.After(s1, Geo.FlushWindow(5));
    NoActions(s);
    LinkSnoc(s, [], s, AGREEING[0]);
    assert [] + [AGREEING[0]] == [AGREEING[0]];
    LinkSnoc(s, [AGREEING[0]], s1, AGREEING[1]);
    assert [AGREEING[0]] + [AGREEING[1]] == AGREEING[..2];
  }

  /** The server takes it over and echoes it. */
  lemma BorderServed(s: Geo.Link) returns (t: Geo.Link)
    requires Inv(s.core) && s.core.tb.index == map[5 := WithBorder(FRESH, 1)] && s.core.dirty == map[] && s.echoes == []
    requires s.requests == [Geo.Encode(5, BORDER, Geometry(ZERO, ZERO, 1))] && s.server == map[5 := Geometry(ZERO, ZERO, 0)]
    ensures Sane(s.core)
    ensures
      var s1 := Geo.After(s, Geo.Serve);
      Sane(s1.core) && t == Geo.After(s1, Geo.Deliver)
    ensures AgreedBorder(t)
  {
    hide Step, Inv, Geo.Encode, Geo.Decode;
    InvSane(s.core);
    var g := Geometry(ZERO, ZERO, 1);
    Geo.EncodeWin(5, BORDER, g);
    Geo.RequestRoundTrip(5, BORDER, g, s.server[5]);
    var s1 := Geo.After(s, Geo.Serve);
    assert s1.echoes == [Geo.Echo(5, g)] && s1.server[5] == g && s1.requests == [];
    Geo.DeliverEffect(s1.core, s1.echoes[0], 5);
    EchoKeepsProps(s1.core, s1.echoes[0], 5);
    t := Geo.After(s1, Geo.Deliver);
  }

  lemma EchoKeepsProps(c: Core, e: Geo.Echo, id: nat)
    requires Inv(c) && id in c.tb.index
    ensures Sane(c)
    ensures
      var d := Step(c, Geo.EchoCommand(e));
      id in d.tb.index && d.tb.index[id].props == c.tb.index[id].props
  {
    hide StepVisibility, StepFlag, StepGeometry, StepLayout, StepFocus, StepMove, StepWindow, DoApplySettings, Inv;
    InvSane(c);
    hide Sane;
    assert SameFlags(c.tb.index[id], StepGeometry(c, Geo.EchoCommand(e)).tb.index[id]);
  }

  /**
   * A window gets a border of 1, which the server takes over and echoes; then it is made borderless. With
   * no dirty bit set and no message under way, the core has border 0 and the server border 1.
   */
  lemma BordersApart(s: Geo.Link, settings: Settings, monitors: seq<Monitor>) returns (t: Geo.Link)
    requires JustCreated(s, settings, monitors)
    ensures Geo.LinkRuns(s, AGREEING + [Geo.Command(CSetBorderless(5, true))], t, 5) && t.requests == [] && t.echoes == []
    ensures 5 in t.core.tb.index && 5 in t.server && !DirtyOf(t.core, 5).border
    ensures t.core.tb.index[5].geo.border != t.server[5].border
  {
    hide Step, Inv, Init, DoBorderless, Geo.LinkRuns, Geo.Encode, Geo.Decode;
    CreatedOnly(settings, monitors, s.core);
    var s2 := BorderSent(s);
    var a := BorderServed(s2);
    InvSane(a.core);
    BorderlessStep(a.core, 5, true);
    t := Geo.After(a, Geo.Command(CSetBorderless(5, true)));
    Geo.BorderlessForgetsBorder(a, 5);
    BorderRun(s, s2, a);
    LinkSnoc(s, AGREEING, a, Geo.Command(CSetBorderless(5, true)));
  }

  lemma BorderRun(s: Geo.Link, s2: Geo.Link, t: Geo.Link)
    requires Geo.LinkRuns(s, AGREEING[..2], s2, 5) && Sane(s2.core) && Sane(Geo.After(s2, Geo.Serve).core)
    requires t == Geo.After(Geo.After(s2, Geo.Serve), Geo.Deliver)
    ensures Geo.LinkRuns(s, AGREEING, t, 5)
  {
    hide Geo.LinkRuns, Geo.After, Sane;
    LinkSnoc(s, AGREEING[..2], s2, Geo.Serve);
    LinkSnoc(s, AGREEING[..2] + [Geo.Serve], Geo.After(s2, Geo.Serve), Geo.Deliver);
    assert AGREEING[..2] + [Geo.Serve] + [Geo.Deliver] == AGREEING;
  }

  lemma NoActions(s: Geo.Link)
    ensures Geo.LinkRuns(s, [], s, 5)
  {
  }

  lemma CreatedOnly(settings: Settings, monitors: seq<Monitor>, d: Core)
    requires Runs(Init(settings, monitors), [CEnsureWindow(5, 0)], d)
    ensures Inv(d) && d.tb.index == map[5 := FRESH] && d.dirty == map[]
  {
    hide Step, Inv, Init;
    InitInv(settings, monitors);
    InitStart(settings, monitors);
    FirstWindow(Init(settings, monitors), 5, 0);
    assert [CEnsureWindow(5, 0)][1..] == [];
  }

  // --- A composition with a negative coordinate --------------------------------------------------

  const WIDE: MonitorAlias := MonitorAlias("wide", "DP-1", Compose.INT_MAX, 1080, "normal", false)
  const BESIDE: MonitorAlias := MonitorAlias("beside", "DP-2", 1920, 1080, "normal", true)
  const SLANTED: MonitorCompose := MonitorCompose("wide", [MonitorComposeLink("beside", "wide", "right", -5)], true)

  /** The only enabled monitor lies right of a disabled primary as wide as the sentinel, and five pixels higher. */
  lemma NegativeThoughAccepted(raw: Compose.Positions)
    requires Compose.Composed(Compose.GraphOf([WIDE, BESIDE], SLANTED), [WIDE, BESIDE], raw)
    ensures Validator.MonitorsOk([WIDE, BESIDE]) && Validator.ComposeOk([WIDE, BESIDE], SLANTED)
    ensures
      var pos := Compose.Shifted(raw, Compose.Shift([WIDE, BESIDE], raw));
      "beside" in pos && pos["beside"] == Vec(Compose.INT_MAX, -5)
  {
    hide Compose.Reachable, Compose.PlacedAt, Compose.Shifted, Compose.Shift, Compose.GraphOf, Compose.Composed;
    SlantedGraph();
    SlantedAccepted();
    SlantedPlaced(raw);
    SlantedNotShifted(raw);
  }

  lemma SlantedGraph()
    ensures
      var g := Compose.GraphOf([WIDE, BESIDE], SLANTED);
      && g.byAlias == map["wide" := WIDE, "beside" := BESIDE] && g.primary == "wide"
      && g.byMonitor == map["beside" := SLANTED.layout[0]]
  {
    var links := SLANTED.layout;
    assert [WIDE, BESIDE][..1] == [WIDE] && [WIDE][..0] == [];
    assert Compose.AliasMap([WIDE]) == map["wide" := WIDE] by {
      assert Compose.AliasMap([]) == map[];
    }
    assert Compose.AliasMap([WIDE, BESIDE]) == Compose.AliasMap([WIDE])["beside" := BESIDE];
    assert links[..0] == [] && Compose.LinkMap([]) == map[];
    assert Compose.LinkMap(links) == map["beside" := links[0]];
  }

  /** "beside" reaches the primary in one step, and lies there. */
  lemma SlantedReaches()
    ensures
      var g := Compose.GraphOf([WIDE, BESIDE], SLANTED);
      && Compose.Reaches(g, "beside", 1) && Compose.ChainPos(g, "beside", 1) == Vec(Compose.INT_MAX, -5)
  {
    hide Compose.GraphOf;
    SlantedGraph();
    var g := Compose.GraphOf([WIDE, BESIDE], SLANTED);
    assert Compose.Rooted(g, "wide") && Compose.Linked(g, "beside") && Compose.Anchor(g, "beside") == "wide";
    assert Compose.Reaches(g, "wide", 0) && Compose.ChainPos(g, "wide", 0) == Vec(0, 0);
    assert Compose.Offset(g, "beside") == Vec(Compose.INT_MAX, -5);
  }

  lemma SlantedAccepted()
    ensures Validator.MonitorsOk([WIDE, BESIDE]) && Validator.ComposeOk([WIDE, BESIDE], SLANTED)
  {
    hide Compose.GraphOf, Compose.Reaches;
    SlantedGraph();
    SlantedReaches();
    var ms := [WIDE, BESIDE];
    assert ms[0] == WIDE && ms[1] == BESIDE;
    assert WIDE.alias != BESIDE.alias && WIDE.output != BESIDE.output by {
      assert |WIDE.alias| != |BESIDE.alias| && WIDE.output[3] != BESIDE.output[3];
    }
    assert Compose.Reachable(Compose.GraphOf(ms, SLANTED), "beside");
    assert Validator.HasAlias(ms, "wide") && Validator.HasAlias(ms, "beside");
  }

  lemma SlantedPlaced(raw: Compose.Positions)
    requires Compose.Composed(Compose.GraphOf([WIDE, BESIDE], SLANTED), [WIDE, BESIDE], raw)
    ensures "beside" in raw && raw["beside"] == Vec(Compose.INT_MAX, -5)
  {
    hide Compose.GraphOf, Compose.Reaches, Compose.ChainPos;
    var g := Compose.GraphOf([WIDE, BESIDE], SLANTED);
    SlantedReaches();
    assert [WIDE, BESIDE][1] == BESIDE;
    assert Compose.Reachable(g, "beside");
    var k: nat :| Compose.Reaches(g, "beside", k) && raw["beside"] == Compose.ChainPos(g, "beside", k);
    Compose.ChainUnique(g, "beside", 1, k);
  }

  lemma SlantedNotShifted(raw: Compose.Positions)
    requires "beside" in raw && raw["beside"] == Vec(Compose.INT_MAX, -5)
    ensures Compose.Shifted(raw, Compose.Shift([WIDE, BESIDE], raw)) == raw
  {
    var ms := [WIDE, BESIDE];
    assert !Compose.Placed(WIDE, raw);
    assert Compose.Lowest(ms, raw, true) == Compose.INT_MAX;
  }

  // --- A reload that changes what is shown -------------------------------------------------------

  function Workspaces(n: nat): seq<WorkspaceDef> { seq(n, _ => WorkspaceDef("", "")) }

  const NO_COMPOSE: MonitorCompose := MonitorCompose("", [], false)

  const FOUR: Settings := Settings([], NO_COMPOSE, Workspaces(4), 0, 0)
  const THREE: Settings := Settings([], NO_COMPOSE, Workspaces(3), 0, 0)

  const LEFT: Monitor := Monitor("A", 0, 0, 1000, 800, NONE, 0, 0, 0, 0)
  const RIGHT: Monitor := Monitor("B", 1000, 0, 1000, 800, NONE, 0, 0, 0, 0)

  /** Four workspaces are dealt to two monitors in turn. */
  lemma DealtInTurn()
    ensures
      var c := Init(FOUR, [LEFT, RIGHT]);
      && Inv(c) && |c.topo.owner| == 4 && |c.topo.monitors| == 2 && Names(c.topo.monitors) == ["A", "B"]
      && c.topo.owner[0] == 0 && c.topo.owner[1] == 1 && c.topo.owner[3] == 1 && c.settings == FOUR
  {
    hide Assign, SetMonitors, Assigning.StandsFor, Inv;
    var empty := Topology([], [], [], [], [], map[], map[], 0);
    InitInv(FOUR, [LEFT, RIGHT]);
    var s := SetMonitors(empty, [LEFT, RIGHT]);
    SetMonitorsNames(empty, [LEFT, RIGHT]);
    assert Names([LEFT, RIGHT]) == ["A", "B"];
    assert |s.monitors| == |Names(s.monitors)|;
    var aliases := InitAliases(FOUR);
    assert |aliases| == 4 && forall w :: 0 <= w < 4 ==> aliases[w] == "";
    var t := s.(wsAlias := aliases, owner := seq(4, _ => NONE),
                pools := seq(2, _ => []), activeLocal := seq(2, _ => NONE), parkedPools := map[], parkedActive := map[]);
    AssignSettles(t, [], NO_COMPOSE);
    Assigning.AssignDecides(t, [], NO_COMPOSE);
    NobodyAsked(t);
    var owner := Assign(t, [], NO_COMPOSE).owner;
    assert Init(FOUR, [LEFT, RIGHT]).topo == Assign(t, [], NO_COMPOSE);
    assert |Names(Assign(t, [], NO_COMPOSE).monitors)| == 2;
  }

  lemma NobodyAsked(t: Topology)
    requires |t.wsAlias| == 4 && t.owner == seq(4, _ => NONE) && |t.monitors| == 2
    requires forall w :: 0 <= w < 4 ==> t.wsAlias[w] == ""
    ensures Assigning.DealtFrom(t, [], NO_COMPOSE, 0)
    ensures forall w :: 0 <= w < 4 ==> Assigning.Undecided(t, [], w)
    ensures Assigning.Turn(0, Assigning.UndecidedBefore(t, [], 0), 2) == 0
    ensures Assigning.Turn(0, Assigning.UndecidedBefore(t, [], 1), 2) == 1
    ensures Assigning.Turn(0, Assigning.UndecidedBefore(t, [], 3), 2) == 1
  {
    hide Assigning.StandsFor;
    assert forall w :: 0 <= w < 4 ==> Assigning.Undecided(t, [], w);
    assert Assigning.UndecidedBefore(t, [], 1) == 1;
    assert Assigning.UndecidedBefore(t, [], 2) == 2;
    assert Assigning.UndecidedBefore(t, [], 3) == 3;
  }

  /** With "A" gone, "B" lists workspaces 1 and 3, which it had, before workspace 0. */
  lemma OnlyRight(c: Core)
    requires c == Init(FOUR, [LEFT, RIGHT])
    ensures Inv(c) && Sane(c)
    ensures
      var d := Step(c, CApplyTopology([RIGHT]));
      && Inv(d) && d.settings == FOUR && |d.topo.monitors| == 1 && |d.topo.wsAlias| == 4 && |d.topo.pools| == 1
      && exists k :: OneAndThreeFirst(d.topo.pools[0], k)
  {
    hide Init, Step, Inv, Replug, DoApplyTopology, RemembersSurvivor;
    DealtInTurn();
    InvSane(c);
    Announcing.StepIsFocus(c, CApplyTopology([RIGHT]));
    StepInv(c, CApplyTopology([RIGHT]));
    HotplugRuns.ApplyTopology(c, [RIGHT]);
    var u := Replug(c.topo, [RIGHT], [], NO_COMPOSE);
    assert Names([RIGHT]) == ["B"] && Names(c.topo.monitors)[1] == "B" && "A" != "B";
    SettledInv(c);
    UnplugSurvivor(c.topo, [RIGHT], [], NO_COMPOSE, 0);
    ReplugSettles(c.topo, [RIGHT], [], NO_COMPOSE);
    ReplugSized(c.topo, [RIGHT], [], NO_COMPOSE);
    assert |Names(u.monitors)| == 1;
    FirstAreRemembered(c.topo, u);
  }

  lemma SettledInv(c: Core)
    requires Inv(c)
    ensures Settled(c.topo, c.settings.aliases) && |c.topo.wsAlias| == |c.topo.owner|
  {
  }

  /** The first k of a pool have workspaces 1 and 3, and not 0. */
  ghost predicate OneAndThreeFirst(pool: seq<int>, k: int) {
    0 <= k <= |pool| && 1 in pool[..k] && 3 in pool[..k] && 0 !in pool[..k]
  }

  lemma FirstAreRemembered(t: Topology, u: Topology)
    requires Consistent(t) && |t.monitors| == 2 && |t.owner| == 4 && t.owner[0] == 0 && t.owner[1] == 1 && t.owner[3] == 1
    requires Names(t.monitors) == ["A", "B"] && RemembersSurvivor(t, u, 0, Home(["A", "B"], ["B"], 0))
    ensures |u.pools| > 0 && OneAndThreeFirst(u.pools[0], |t.pools[1]|)
  {
    assert Home(["A", "B"], ["B"], 0) == 1;
    assert PoolMatches(t.owner, 1, t.pools[1]);
    assert u.pools[0][..|t.pools[1]|] == t.pools[1];
  }

  /** It shows workspace 0 after a switch. */
  lemma SwitchedToFirst(c: Core)
    requires Inv(c) && c.settings == FOUR && |c.topo.monitors| == 1 && |c.topo.wsAlias| == 4 && |c.topo.pools| == 1
    requires exists k :: OneAndThreeFirst(c.topo.pools[0], k)
    ensures Sane(c)
    ensures
      var d := Step(c, CSwitchWorkspace(0, None));
      && Inv(d) && d.settings == FOUR && |d.topo.monitors| == 1 && |d.topo.wsAlias| == 4 && |d.topo.pools| == 1
      && d.topo.monitors[0].activeWs == 0 && exists k :: OneAndThreeFirst(d.topo.pools[0], k)
  {
    hide Step, Inv, SwitchTo, DoSwitch, OneAndThreeFirst;
    InvSane(c);
    Announcing.SwitchIs(c, 0, None);
    StepInv(c, CSwitchWorkspace(0, None));
    SwitchTopology(c, 0, None);
    SettledInv(c);
    SwitchShows(c.topo, 0, NONE, [], NO_COMPOSE);
  }

  /** A pool position after both a removed and a remaining workspace. */
  lemma ShownLater(t: Topology)
    requires Consistent(t) && |t.monitors| == 1 && |t.wsAlias| == 4 && t.monitors[0].activeWs == 0
    requires exists k :: OneAndThreeFirst(t.pools[0], k)
    ensures t.activeLocal[0] >= 0 && Reloading.ShouldShow(t.pools[0], t.activeLocal[0], 3, t.activeLocal[0])
    ensures t.pools[0][t.activeLocal[0]] == 0 && !Reloading.Unshifted(t.pools[0], 3, t.activeLocal[0])
  {
    var pool, p := t.pools[0], t.activeLocal[0];
    var k :| OneAndThreeFirst(pool, k);
    assert PoolMatches(t.owner, 0, pool);
    assert p >= k;
    var i :| 0 <= i < k && pool[..k][i] == 1;
    var j :| 0 <= j < k && pool[..k][j] == 3;
    assert pool[i] == 1 && pool[j] == 3;
  }

  /**
   * Two monitors share four workspaces, one is unplugged, the other shows workspace 0; then a reload removes
   * workspace 3 only. Workspace 0 remains, on the same monitor, but the monitor no longer shows it.
   */
  lemma ReloadShowsAnother() returns (c: Core, d: Core)
    ensures Runs(Init(FOUR, [LEFT, RIGHT]), [CApplyTopology([RIGHT])] + [CSwitchWorkspace(0, None)], c)
    ensures |c.topo.monitors| == 1 && c.topo.monitors[0].activeWs == 0
    ensures Sane(c) && Allowed(c, CApplySettings(THREE)) && d == Step(c, CApplySettings(THREE))
    ensures |d.topo.monitors| == 1 && |d.topo.owner| == 3 && d.topo.owner[0] == 0 && d.topo.monitors[0].activeWs != 0
  {
    hide Step, Inv, Init, Runs, OneAndThreeFirst, DoApplySettings, Reload;
    var c0 := Init(FOUR, [LEFT, RIGHT]);
    OnlyRight(c0);
    var c1 := Step(c0, CApplyTopology([RIGHT]));
    SwitchedToFirst(c1);
    c := Step(c1, CSwitchWorkspace(0, None));
    InvSane(c);
    NoCommands(c0);
    RunsSnoc(c0, [], c0, CApplyTopology([RIGHT]));
    assert [] + [CApplyTopology([RIGHT])] == [CApplyTopology([RIGHT])];
    RunsSnoc(c0, [CApplyTopology([RIGHT])], c1, CSwitchWorkspace(0, None));
    d := Step(c, CApplySettings(THREE));
    ReloadedTopology(c);
    SettledInv(c);
    Reloaded(c.topo);
  }

  lemma ReloadedTopology(c: Core)
    requires Sane(c)
    ensures Allowed(c, CApplySettings(THREE)) && Step(c, CApplySettings(THREE)).topo == Reload(c.topo, Workspaces(3), [], NO_COMPOSE)
  {
    hide StepVisibility, StepFlag, StepGeometry, StepLayout, StepFocus, StepMove, StepWindow, Reload, Resize;
  }

  lemma Reloaded(t: Topology)
    requires Consistent(t) && |t.monitors| == 1 && |t.wsAlias| == 4 && t.monitors[0].activeWs == 0
    requires exists k :: OneAndThreeFirst(t.pools[0], k)
    ensures
      var r := Reload(t, Workspaces(3), [], NO_COMPOSE);
      |r.monitors| == 1 && |r.owner| == 3 && r.owner[0] == 0 && r.monitors[0].activeWs != 0
  {
    hide Reload, OneAndThreeFirst, Reloading.Unshifted, Reloading.ShouldShow;
    ShownLater(t);
    Reloading.ReloadShows(t, Workspaces(3), [], NO_COMPOSE, 0, t.activeLocal[0]);
    Reloading.ReloadDecides(t, Workspaces(3), [], NO_COMPOSE, 0);
  }
}
