/**
 * Exec-restart: what the old window manager saves, the new one reads and gives back to the windows it
 * adopts (core/src/runtime/runtime.cpp:120-237, 841-891; backends/x11/src/backend/adopt.cpp).
 */
module Restart {
  import opened Seqs
  import opened Monitors
  import opened Topology
  import opened Windows
  import opened WindowProofs
  import opened Reducer
  import opened ReducerProofs
  import opened Flush
  import opened RestartFile

  /** What a restart is to preserve of a window. */
  function Flags(c: Core, id: nat): WinState
    requires id in c.tb.index && id in c.tb.home
  {
    var w := c.tb.index[id];
    WinState(c.tb.home[id], w.props.floating, w.props.fullscreen, w.vis.hiddenExplicitly, w.props.borderless)
  }

  // --- Saving ------------------------------------------------------------------------------------

  /** all_window_ids: the windows of all workspaces, in order. */
  function AllIds(lists: seq<seq<nat>>): seq<nat> {
    if lists == [] then [] else AllIds(lists[..|lists| - 1]) + lists[|lists| - 1]
  }

  lemma {:induction false} AllIdsHas(lists: seq<seq<nat>>, id: nat)
    ensures id in AllIds(lists) <==> exists ws :: 0 <= ws < |lists| && id in lists[ws]
  {
    if lists != [] {
      AllIdsHas(lists[..|lists| - 1], id);
      assert forall ws :: 0 <= ws < |lists| - 1 ==> lists[..|lists| - 1][ws] == lists[ws];
    }
  }

  /** A window without a workspace, or one its application manages itself, is not saved. */
  predicate Worth(tb: Table, id: nat) {
    id in tb.index && HomeOf(tb, id) >= 0 && !(tb.index[id].props.borderless && tb.index[id].props.selfManaged)
  }

  function RecordOf(tb: Table, id: nat): Record
    requires Worth(tb, id)
  {
    var w := tb.index[id];
    Record(id, WinState(HomeOf(tb, id), w.props.floating, w.props.fullscreen, w.vis.hiddenExplicitly, w.props.borderless))
  }

  /** The records of the first `k` of the listed windows; a window listed twice is saved once. */
  function Records(tb: Table, ids: seq<nat>, k: nat): seq<Record>
    requires k <= |ids|
  {
    if k == 0 then []
    else
      var rest := Records(tb, ids, k - 1);
      if ids[k - 1] in ids[..k - 1] || !Worth(tb, ids[k - 1]) then rest else rest + [RecordOf(tb, ids[k - 1])]
  }

  function ActiveSpaces(ms: seq<Monitor>): seq<int> { seq(|ms|, i requires 0 <= i < |ms| => ms[i].activeWs) }

  function SavedRecords(c: Core): seq<Record> { Records(c.tb, AllIds(c.tb.lists), |AllIds(c.tb.lists)|) }

  function SavedText(c: Core): string { FileText(ActiveSpaces(c.topo.monitors), SavedRecords(c)) }

  /** save_restart_state. */
  method SaveRestartState(c: Core) returns (text: string)
    requires c.tb.index.Keys == c.tb.home.Keys
    ensures text == SavedText(c)
  {
    text := "";
    var ms := c.topo.monitors;
    for i := 0 to |ms|
      invariant text == MonText(ActiveSpaces(ms[..i]))
    {
      text := text + MonLine(i, ms[i].activeWs) + "\n";
      assert ActiveSpaces(ms[..i + 1])[..i] == ActiveSpaces(ms[..i]);
    }
    assert ms[..|ms|] == ms;
    var ids := AllIds(c.tb.lists);
    var windows := SaveWindows(c, ids);
    text := text + windows;
  }

  /** The second loop of save_restart_state. */
  method SaveWindows(c: Core, ids: seq<nat>) returns (text: string)
    ensures text == WinText(Records(c.tb, ids, |ids|))
  {
    hide WinLine, HomeOf;
    text := "";
    var seen: set<nat> := {};
    for k := 0 to |ids|
      invariant text == WinText(Records(c.tb, ids, k))
      invariant forall x :: x in seen <==> x in ids[..k]
    {
      var id := ids[k];
      assert ids[..k + 1] == ids[..k] + [id];
      if id in seen {
        continue;
      }
      seen := seen + {id};
      if HomeOf(c.tb, id) < 0 || id !in c.tb.index {
        continue;
      }
      var w := c.tb.index[id];
      if w.props.borderless && w.props.selfManaged {
        continue;
      }
      text := text + WinLine(RecordOf(c.tb, id)) + "\n";
    }
  }

  lemma {:induction false} RecordsHas(tb: Table, ids: seq<nat>, k: nat, id: nat)
    requires k <= |ids|
    ensures forall j :: 0 <= j < |Records(tb, ids, k)| ==>
      var r := Records(tb, ids, k)[j];
      r.win in ids[..k] && Worth(tb, r.win) && r == RecordOf(tb, r.win)
    ensures forall i, j :: 0 <= i < j < |Records(tb, ids, k)| ==>
      Records(tb, ids, k)[i].win != Records(tb, ids, k)[j].win
    ensures id in ids[..k] && Worth(tb, id) ==> RecordOf(tb, id) in Records(tb, ids, k)
  {
    hide Worth, RecordOf;
    if k > 0 {
      RecordsHas(tb, ids, k - 1, id);
      RecordOfWin(tb, ids[k - 1]);
      assert ids[..k] == ids[..k - 1] + [ids[k - 1]];
    }
  }

  lemma RecordOfWin(tb: Table, id: nat)
    ensures Worth(tb, id) ==> RecordOf(tb, id).win == id
  {
  }

  /** What the new window manager reads is, window by window, what the old one had. */
  lemma SavedIsRead(c: Core, id: nat)
    requires Inv(c)
    ensures
      var r := Parse(NOTHING, SavedText(c));
      && (id in r.windows <==> Worth(c.tb, id))
      && (id in r.windows ==> r.windows[id] == Flags(c, id))
    ensures
      Parse(NOTHING, SavedText(c)).monitors == MonMap(ActiveSpaces(c.topo.monitors))
  {
    var ids := AllIds(c.tb.lists);
    var records := SavedRecords(c);
    FileRoundTrip(ActiveSpaces(c.topo.monitors), records);
    RecordsHas(c.tb, ids, |ids|, id);
    assert ids[..|ids|] == ids;
    if Worth(c.tb, id) {
      AllIdsHas(c.tb.lists, id);
      var j :| 0 <= j < |records| && records[j] == RecordOf(c.tb, id);
      WinMapHas(records, j);
    }
    if id in WinMap(records) {
      WinMapOnly(records, id);
    }
  }

  // --- Adopting ----------------------------------------------------------------------------------

  /** A window found by the scan, with what the window system and the hooks say about it. */
  datatype Existing = Existing(
    win: nat, viewable: bool, defaultManage: bool, hookManage: bool, kind: WindowType, fixedSize: bool,
    geometry: Option<(Vec, Vec)>)

  const NO_HINTS := Hints(ZERO, ZERO, ZERO, ZERO)

  predicate Adopted(e: Existing, r: Restored) {
    e.win != NO_WINDOW && (e.win in r.windows || e.defaultManage) && e.hookManage
  }

  /** The commands that any adopted window causes first. */
  function Arrivals(e: Existing, r: Restored): (cmds: seq<Command>)
    ensures |cmds| == 2 && cmds[0].CEnsureWindow? && cmds[1].CSetMetadata?
  {
    var ws := if e.win in r.windows then r.windows[e.win].ws else NO_WS;
    [CEnsureWindow(e.win, ws),
     CSetMetadata(e.win, e.kind, MapHints(e.fixedSize, false, false, false, false, false, NO_HINTS), NO_WINDOW)]
  }

  /** The commands that give a window back what the restart file says. */
  function Restorals(win: nat, s: WinState, n: int): (cmds: seq<Command>)
    ensures LaterFor(cmds, win)
  {
    (if 0 <= s.ws < n then [CAssignWorkspace(win, s.ws)] else []) +
    [CSetFloating(win, s.floating)] +
    (if s.fullscreen then [CSetFullscreen(win, true, false)] else []) +
    (if s.borderless then [CSetBorderless(win, true), CFocusWindow(win)] else []) +
    (if s.hidden then [CHideWindow(win)] else [])
  }

  function Placing(e: Existing): seq<Command> {
    if e.geometry.Some? then [CSetGeometry(e.win, e.geometry.value.0, e.geometry.value.1)] else []
  }

  /** All commands of one window; `n` is the number of workspaces. */
  function Adoption(e: Existing, r: Restored, n: int): seq<Command> {
    if !Adopted(e, r) then []
    else
      Arrivals(e, r) + [CSetMapped(e.win, e.viewable), CSetHiddenByWorkspace(e.win, true)] +
      (if e.win in r.windows then Restorals(e.win, r.windows[e.win], n) else []) + Placing(e)
  }

  /** The commands of adoption whose effect on a window's flags depends on its flags alone. */
  predicate LaterCommand(cmd: Command) {
    cmd.CSetMapped? || cmd.CSetHiddenByWorkspace? || cmd.CAssignWorkspace? || cmd.CSetFloating? ||
    (cmd.CSetFullscreen? && cmd.enabled) || cmd.CSetBorderless? || cmd.CFocusWindow? || cmd.CHideWindow? || cmd.CSetGeometry?
  }

  ghost predicate Live(c: Core, id: nat) { Inv(c) && id in c.tb.index && id in c.tb.home }

  /** `id` is live before and after, and keeps its workspace and flags. */
  ghost predicate Keeps(c: Core, d: Core, id: nat) {
    Becomes(c, d, id) && Flags(d, id) == Flags(c, id)
  }

  /** `id` is live before and after, among the same windows and as many workspaces. */
  ghost predicate Becomes(c: Core, d: Core, id: nat) {
    && id in c.tb.index && id in c.tb.home && id in d.tb.index && id in d.tb.home
    && |d.tb.lists| == |c.tb.lists| && d.tb.index.Keys == c.tb.index.Keys
  }

  lemma QuietKeeps(c: Core, d: Core, id: nat)
    requires Live(c, id) && Quiet(c, d)
    ensures Keeps(c, d, id)
  {
    assert SameFlags(c.tb.index[id], d.tb.index[id]);
  }

  lemma FocusingKeeps(c: Core, w: nat, id: nat)
    requires Live(c, id) && w in c.tb.index && IsWs(c.tb, c.tb.home[w])
    ensures Keeps(c, Focusing(c, w), id)
  {
  }

  lemma FocusKeeps(c: Core, w: nat, id: nat)
    requires Live(c, id)
    ensures Keeps(c, Focus(c, w), id)
  {
    hide Evaluate, FocusState;
    var t := FocusTarget(c, w);
    if t != NO_WINDOW {
      FocusStateInv(c, t);
      FocusingKeeps(c, t, id);
      QuietKeeps(Focusing(c, t), Evaluate(Focusing(c, t), c.tb.home[t]), id);
    }
  }

  lemma RefreshKeeps(c: Core, id: nat)
    requires Live(c, id)
    ensures Inv(Refresh(c)) && Keeps(c, Refresh(c), id)
  {
    hide SyncVisibility, Arrange;
    RefreshInv(c);
    SyncedInv(c, SyncVisibility(c));
    QuietKeeps(SyncVisibility(c), Arrange(SyncVisibility(c)), id);
  }

  lemma SwitchKeeps(c: Core, ws: int, hint: Option<int>, id: nat)
    requires Live(c, id)
    ensures Keeps(c, DoSwitch(c, ws, hint), id)
  {
    hide Refresh, Focus, Evaluate, SwitchTo, Inv, Quiet;
    InvSane(c);
    if 0 <= ws < |c.topo.wsAlias| && c.topo.monitors != [] {
      var h := if hint.Some? then hint.value else NONE;
      var c1 := c.(topo := SwitchTo(c.topo, ws, h, c.settings.aliases, c.settings.compose));
      SwitchedInv(c, ws, h);
      RefreshKeeps(c1, id);
      var c2 := Refresh(c1);
      FocusKeeps(c2, NO_WINDOW, id);
      FocusInv(c2, NO_WINDOW);
      QuietKeeps(c2, Evaluate(c2, ws), id);
      QuietKeeps(Focus(c2, NO_WINDOW), Evaluate(Focus(c2, NO_WINDOW), ws), id);
    }
  }

  /** What a later command does to the flags of window `id`. */
  function FlagEffect(cmd: Command, id: nat, s: WinState, n: int): WinState
    requires LaterCommand(cmd)
  {
    if cmd.win != id then s
    else match cmd
      case CAssignWorkspace(_, ws) => if 0 <= ws < n then s.(ws := ws) else s
      case CSetFloating(_, flag) => s.(floating := flag)
      case CSetFullscreen(_, _, _) => s.(fullscreen := true)
      case CSetBorderless(_, flag) => s.(borderless := flag)
      case CHideWindow(_) => s.(hidden := true)
      case _ => s
  }

  lemma EnterFlags(c: Core, win: nat, preserve: bool, id: nat)
    requires Live(c, id) && win in c.tb.index
    ensures
      var d := EnterFullscreen(c, win, preserve);
      Live(d, id) && Becomes(c, d, id) &&
      Flags(d, id) == if win == id then Flags(c, id).(fullscreen := true) else Flags(c, id)
  {
    hide Inv, PinTo;
    var c1 := MarkDirty(Put(c, win, Covering(c.tb.index[win])), win, BORDER);
    PutInv(c, win, Covering(c.tb.index[win]));
    SameInv(Put(c, win, Covering(c.tb.index[win])), c1);
    var m := FullscreenMonitor(c, HomeOf(c.tb, win));
    if !preserve && m >= 0 {
      QuietKeeps(c1, PinTo(c1, win, m), id);
      QuietInv(c1, PinTo(c1, win, m));
    }
  }

  lemma SameInv(c: Core, d: Core)
    requires Inv(c) && d == c.(effects := d.effects, dirty := d.dirty, events := d.events)
    ensures Inv(d)
  {
  }

  lemma FullscreenFlags(c: Core, win: nat, preserve: bool, id: nat)
    requires Live(c, id) && win in c.tb.index
    ensures Keeps(EnterFullscreen(c, win, preserve), DoFullscreen(c, win, true, preserve), id)
  {
    hide EnterFullscreen, Arrange, Focus, Evaluate, Inv, Quiet;
    EnterFlags(c, win, preserve, id);
    InvSane(c);
    var a := EnterFullscreen(c, win, preserve);
    var b := Arrange(a);
    QuietInv(a, b);
    QuietKeeps(a, b, id);
    var e := Post(b, RaiseDocks);
    SameInv(b, e);
    InvSane(e);
    var ws := HomeOf(c.tb, win);
    FocusKeeps(e, win, id);
    QuietKeeps(e, Evaluate(e, ws), id);
  }

  lemma BorderlessFlags(c: Core, win: nat, flag: bool, id: nat)
    requires Live(c, id) && win in c.tb.index
    ensures
      var d := DoBorderless(c, win, flag);
      && Becomes(c, d, id)
      && Flags(d, id) == if win == id then Flags(c, id).(borderless := flag) else Flags(c, id)
  {
    hide Evaluate, Inv, Quiet;
    InvSane(c);
    var w0 := c.tb.index[win];
    var w := w0.(props := w0.props.(borderless := flag, promoteToBorderless := false));
    var a, b := Put(c, win, w), Emit(Put(c, win, WithBorder(w, 0)), UpdateWindow(win));
    PutInv(c, win, w);
    PutInv(c, win, WithBorder(w, 0));
    SameInv(Put(c, win, WithBorder(w, 0)), b);
    QuietKeeps(a, Evaluate(a, HomeOf(a.tb, win)), id);
    QuietKeeps(b, Evaluate(b, HomeOf(b.tb, win)), id);
  }

  lemma VisibilityFlags(c: Core, cmd: Command, id: nat)
    requires Live(c, id) && LaterCommand(cmd) && cmd.win in c.tb.index && VisibilityCommand(cmd)
    ensures
      var d := StepVisibility(c, cmd);
      Becomes(c, d, id) && Flags(d, id) == FlagEffect(cmd, id, Flags(c, id), |c.tb.lists|)
  {
    hide Inv, SameLists, SameSaved, SameGeometry;
    InvSane(c);
    hide Sane;
  }

  lemma FloatingFlags(c: Core, cmd: Command, id: nat)
    requires Live(c, id) && cmd.CSetFloating? && cmd.win in c.tb.index
    ensures
      var d := StepFlag(c, cmd);
      Becomes(c, d, id) && Flags(d, id) == FlagEffect(cmd, id, Flags(c, id), |c.tb.lists|)
  {
    hide Inv, Silent, SameSaved, SameGeometry, SameVis;
    InvSane(c);
    hide Sane;
  }

  lemma AssignFlags(c: Core, win: nat, ws: int, id: nat)
    requires Live(c, id) && win in c.tb.index
    ensures
      var d := DoAssign(c, win, ws);
      && Becomes(c, d, id)
      && Flags(d, id) == if win == id && 0 <= ws < |c.tb.lists| then Flags(c, id).(ws := ws) else Flags(c, id)
  {
  }

  /** What the window commands among the later ones lead to. */
  function Placed(c: Core, cmd: Command): (d: Core)
    requires Sane(c)
  {
    match cmd
    case CAssignWorkspace(win, ws) => DoAssign(c, win, ws)
    case CSetFullscreen(win, _, preserve) => DoFullscreen(c, win, true, preserve)
    case CSetBorderless(win, flag) => DoBorderless(c, win, flag)
    case _ => c
  }

  lemma PlacedStep(c: Core, cmd: Command)
    requires Sane(c) && (cmd.CAssignWorkspace? || (cmd.CSetFullscreen? && cmd.enabled) || cmd.CSetBorderless?)
    ensures StepWindow(c, cmd) == Placed(c, cmd)
  {
    hide DoFullscreen, DoBorderless, DoAssign, KeepsWindows, Sane;
  }

  lemma WindowLaterFlags(c: Core, cmd: Command, id: nat)
    requires Live(c, id) && LaterCommand(cmd) && cmd.win in c.tb.index
    requires cmd.CAssignWorkspace? || cmd.CSetFullscreen? || cmd.CSetBorderless?
    ensures
      var d := StepWindow(c, cmd);
      Becomes(c, d, id) && Flags(d, id) == FlagEffect(cmd, id, Flags(c, id), |c.tb.lists|)
  {
    hide StepWindow, DoFullscreen, DoBorderless, DoAssign, Inv, Flags, KeepsWindows;
    InvSane(c);
    PlacedStep(c, cmd);
    hide Sane;
    match cmd
    case CSetFullscreen(win, _, preserve) =>
      FullscreenFlags(c, win, preserve, id);
      EnterFlags(c, win, preserve, id);
    case CSetBorderless(win, flag) => BorderlessFlags(c, win, flag, id);
    case CAssignWorkspace(win, ws) => AssignFlags(c, win, ws, id);
  }

  lemma FocusLaterFlags(c: Core, cmd: Command, id: nat)
    requires Live(c, id) && cmd.CFocusWindow? && cmd.win in c.tb.index
    ensures Keeps(c, StepFocus(c, cmd), id)
  {
    hide Focus, Inv, Flags;
    InvSane(c);
    hide Sane;
    FocusKeeps(c, cmd.win, id);
  }

  lemma LaterFlags(c: Core, cmd: Command, id: nat)
    requires Live(c, id) && LaterCommand(cmd) && cmd.win in c.tb.index
    ensures Sane(c) && Live(Step(c, cmd), id) && Becomes(c, Step(c, cmd), id)
    ensures Flags(Step(c, cmd), id) == FlagEffect(cmd, id, Flags(c, id), |c.tb.lists|)
  {
    hide StepVisibility, StepFlag, StepGeometry, StepLayout, StepFocus, StepMove, StepWindow, DoApplySettings, Inv;
    hide Flags, FlagEffect;
    hide Quiet, Silent, SameLists, SameSaved, SameGeometry, KeepsWindows, Becomes;
    InvSane(c);
    StepInv(c, cmd);
    hide Sane;
    if VisibilityCommand(cmd) {
      VisibilityFlags(c, cmd, id);
    } else if FlagCommand(cmd) {
      FloatingFlags(c, cmd, id);
    } else if GeometryCommand(cmd) {
      QuietKeeps(c, StepGeometry(c, cmd), id);
      GeometryEffect(cmd, id, Flags(c, id), |c.tb.lists|);
    } else if FocusCommand(cmd) {
      FocusLaterFlags(c, cmd, id);
      GeometryEffect(cmd, id, Flags(c, id), |c.tb.lists|);
    } else {
      WindowLaterFlags(c, cmd, id);
    }
    StaysLive(c, Step(c, cmd), id);
  }

  lemma StaysLive(c: Core, d: Core, id: nat)
    requires Becomes(c, d, id) && Inv(d)
    ensures Live(d, id)
  {
  }

  lemma GeometryEffect(cmd: Command, id: nat, s: WinState, n: int)
    requires cmd.CSetGeometry? || cmd.CFocusWindow?
    ensures FlagEffect(cmd, id, s, n) == s
  {
  }

  // --- The commands of one window ----------------------------------------------------------------

  ghost function StepAll(c: Core, cmds: seq<Command>): (d: Core)
    requires Inv(c) && forall i :: 0 <= i < |cmds| ==> !cmds[i].CApplySettings?
    ensures Inv(d)
    decreases |cmds|
  {
    if cmds == [] then c
    else
      InvSane(c);
      StepInv(c, cmds[0]);
      StepAll(Step(c, cmds[0]), cmds[1..])
  }

  lemma {:induction false} StepAllAppend(c: Core, a: seq<Command>, b: seq<Command>)
    requires Inv(c) && forall i :: 0 <= i < |a + b| ==> !(a + b)[i].CApplySettings?
    ensures (forall i :: 0 <= i < |a| ==> !a[i].CApplySettings?) && (forall i :: 0 <= i < |b| ==> !b[i].CApplySettings?)
    ensures StepAll(c, a + b) == StepAll(StepAll(c, a), b)
    decreases |a|
  {
    hide Inv, Step;
    assert forall i :: 0 <= i < |a| ==> (a + b)[i] == a[i];
    assert forall i :: 0 <= i < |b| ==> (a + b)[|a| + i] == b[i];
    if a == [] {
      assert a + b == b;
    } else {
      assert (a + b)[0] == a[0] && (a + b)[1..] == a[1..] + b;
      InvSane(c);
      StepInv(c, a[0]);
      StepAllAppend(Step(c, a[0]), a[1..], b);
    }
  }

  /** All commands are later ones, about window `win`. */
  ghost predicate LaterFor(cmds: seq<Command>, win: nat) {
    forall i :: 0 <= i < |cmds| ==> LaterCommand(cmds[i]) && cmds[i].win == win
  }

  function EffectAll(cmds: seq<Command>, id: nat, s: WinState, n: int): WinState
    requires forall i :: 0 <= i < |cmds| ==> LaterCommand(cmds[i])
    decreases |cmds|
  {
    if cmds == [] then s else EffectAll(cmds[1..], id, FlagEffect(cmds[0], id, s, n), n)
  }

  lemma {:induction false} LaterAll(c: Core, cmds: seq<Command>, win: nat, id: nat)
    requires Live(c, id) && win in c.tb.index && LaterFor(cmds, win)
    ensures
      var d := StepAll(c, cmds);
      Becomes(c, d, id) && Flags(d, id) == EffectAll(cmds, id, Flags(c, id), |c.tb.lists|)
    decreases |cmds|
  {
    hide Inv, Step, FlagEffect, Flags;
    if cmds != [] {
      LaterFlags(c, cmds[0], id);
      LaterAll(Step(c, cmds[0]), cmds[1..], win, id);
    }
  }

  /** Commands about one window do not touch another. */
  lemma {:induction false} OthersUntouched(cmds: seq<Command>, win: nat, id: nat, s: WinState, n: int)
    requires LaterFor(cmds, win) && win != id
    ensures EffectAll(cmds, id, s, n) == s
    decreases |cmds|
  {
    if cmds != [] {
      OthersUntouched(cmds[1..], win, id, s, n);
    }
  }

  lemma {:induction false} EffectAppend(a: seq<Command>, b: seq<Command>, id: nat, s: WinState, n: int)
    requires forall i :: 0 <= i < |a| ==> LaterCommand(a[i])
    requires forall i :: 0 <= i < |b| ==> LaterCommand(b[i])
    ensures EffectAll(a + b, id, s, n) == EffectAll(b, id, EffectAll(a, id, s, n), n)
    decreases |a|
  {
    hide FlagEffect;
    if a == [] {
      assert a + b == b;
    } else {
      assert (a + b)[0] == a[0] && (a + b)[1..] == a[1..] + b;
      EffectAppend(a[1..], b, id, FlagEffect(a[0], id, s, n), n);
    }
  }

  lemma EffectOne(cmd: Command, id: nat, s: WinState, n: int)
    requires LaterCommand(cmd)
    ensures EffectAll([cmd], id, s, n) == FlagEffect(cmd, id, s, n)
  {
    assert [cmd][1..] == [];
  }

  lemma MarkEffects(win: nat, s: WinState, n: int, t: WinState)
    ensures EffectAll([CSetFullscreen(win, true, false)], win, t, n) == t.(fullscreen := true)
    ensures EffectAll([CSetBorderless(win, true), CFocusWindow(win)], win, t, n) == t.(borderless := true)
    ensures EffectAll([CHideWindow(win)], win, t, n) == t.(hidden := true)
    ensures EffectAll([CSetFloating(win, s.floating)], win, t, n) == t.(floating := s.floating)
    ensures 0 <= s.ws < n ==> EffectAll([CAssignWorkspace(win, s.ws)], win, t, n) == t.(ws := s.ws)
    ensures EffectAll([], win, t, n) == t
  {
    EffectOne(CSetFullscreen(win, true, false), win, t, n);
    EffectOne(CHideWindow(win), win, t, n);
    EffectOne(CSetFloating(win, s.floating), win, t, n);
    EffectOne(CAssignWorkspace(win, s.ws), win, t, n);
    var two: seq<Command> := [CSetBorderless(win, true), CFocusWindow(win)];
    assert two[1..] == [CFocusWindow(win)];
    EffectOne(CFocusWindow(win), win, t.(borderless := true), n);
  }

  /** On a window without any of the three marks, the restorals produce the saved state; the workspace only if it exists. */
  lemma RestoralsRestore(win: nat, s: WinState, n: int, t: WinState)
    requires !t.fullscreen && !t.hidden && !t.borderless
    ensures LaterFor(Restorals(win, s, n), win)
    ensures EffectAll(Restorals(win, s, n), win, t, n) == if 0 <= s.ws < n then s else s.(ws := t.ws)
  {
    hide EffectAll, FlagEffect;
    var a: seq<Command> := if 0 <= s.ws < n then [CAssignWorkspace(win, s.ws)] else [];
    var b: seq<Command> := [CSetFloating(win, s.floating)];
    var f: seq<Command> := if s.fullscreen then [CSetFullscreen(win, true, false)] else [];
    var g: seq<Command> := if s.borderless then [CSetBorderless(win, true), CFocusWindow(win)] else [];
    var h: seq<Command> := if s.hidden then [CHideWindow(win)] else [];
    var t1 := if 0 <= s.ws < n then t.(ws := s.ws) else t;
    var t2 := t1.(floating := s.floating);
    var t3 := t2.(fullscreen := s.fullscreen);
    var t4 := t3.(borderless := s.borderless);
    EffectAppend(a, b, win, t, n);
    EffectAppend(a + b, f, win, t, n);
    EffectAppend(a + b + f, g, win, t, n);
    EffectAppend(a + b + f + g, h, win, t, n);
    MarkEffects(win, s, n, t);
    MarkEffects(win, s, n, t1);
    MarkEffects(win, s, n, t2);
    MarkEffects(win, s, n, t3);
    MarkEffects(win, s, n, t4);
  }

  // --- One window adopted ------------------------------------------------------------------------

  /** A window that was just created and classified: on its workspace, and unmarked. */
  lemma ArrivalFlags(c: Core, e: Existing, r: Restored, id: nat)
    requires Inv(c) && c.tb.lists != [] && e.win !in c.tb.index && e.win != NO_WINDOW
    ensures
      var d := StepAll(c, Arrivals(e, r));
      && Inv(d) && |d.tb.lists| == |c.tb.lists| && d.tb.index.Keys == c.tb.index.Keys + {e.win}
      && (id in c.tb.index && id in c.tb.home ==> id in d.tb.home && Flags(d, id) == Flags(c, id))
      && e.win in d.tb.home && !Flags(d, e.win).fullscreen && !Flags(d, e.win).hidden && !Flags(d, e.win).borderless
      && (!(0 <= Arrivals(e, r)[0].ws < |c.tb.lists|) ==> Flags(d, e.win).ws == WsInUse(c))
  {
    hide Step, DoEnsure, DoMetadata, Inv, Flags, WsInUse, KeepsWindows, SameSaved, SameVis, SameGeometry;
    InvSane(c);
    var cmds := Arrivals(e, r);
    StepInv(c, cmds[0]);
    var c1 := Step(c, cmds[0]);
    EnsureIsStep(c, e.win, cmds[0].ws);
    InvSane(c1);
    hide Sane;
    CreatedFlags(c, e.win, cmds[0].ws, id);
    StepInv(c1, cmds[1]);
    MetadataIsStep(c1, cmds[1]);
    MetadataFlags(c1, cmds[1], id);
    MetadataFlags(c1, cmds[1], e.win);
    assert cmds[1..] == [cmds[1]] && cmds[1..][1..] == [];
    assert StepAll(c, cmds) == StepAll(c1, cmds[1..]) == StepAll(Step(c1, cmds[1]), []);
  }

  lemma ArrivalSpace(e: Existing, r: Restored)
    ensures e.win in r.windows ==> Arrivals(e, r)[0].ws == r.windows[e.win].ws
  {
  }

  lemma EnsureIsStep(c: Core, id: nat, ws: int)
    requires Sane(c)
    ensures Step(c, CEnsureWindow(id, ws)) == DoEnsure(c, id, ws)
  {
    hide DoRemove, StepVisibility, StepFlag, StepGeometry, StepLayout, StepFocus, DoApplySettings;
    hide StepMove, DoFullscreen, DoEnsure, DoAssign, DoMetadata, DoBorderless, Sane;
  }

  lemma MetadataIsStep(c: Core, cmd: Command)
    requires Sane(c) && cmd.CSetMetadata?
    ensures Step(c, cmd) == DoMetadata(c, cmd.win, cmd.kind, cmd.hints, cmd.transientFor)
  {
    hide DoRemove, StepVisibility, StepFlag, StepGeometry, StepLayout, StepFocus, DoApplySettings;
    hide StepMove, DoFullscreen, DoEnsure, DoAssign, DoMetadata, DoBorderless, Sane;
  }

  lemma CreatedFlags(c: Core, win: nat, ws: int, id: nat)
    requires Inv(c) && c.tb.lists != [] && win !in c.tb.index && win != NO_WINDOW
    ensures
      var d := DoEnsure(c, win, ws);
      && |d.tb.lists| == |c.tb.lists| && d.tb.index.Keys == c.tb.index.Keys + {win}
      && (id in c.tb.index && id in c.tb.home ==> id in d.tb.home && Flags(d, id) == Flags(c, id))
      && win in d.tb.home && !Flags(d, win).fullscreen && !Flags(d, win).hidden && !Flags(d, win).borderless
      && (!(0 <= ws < |c.tb.lists|) ==> Flags(d, win).ws == WsInUse(c))
  {
  }

  /** Where a window goes whose workspace does not exist: the focused monitor's active workspace, else the first. */
  function WsInUse(c: Core): int { TargetWs(c.tb, NO_WS, ActiveWs(c.topo, c.topo.focused)) }

  lemma MetadataFlags(c: Core, cmd: Command, id: nat)
    requires Inv(c) && cmd.CSetMetadata? && cmd.transientFor == NO_WINDOW && cmd.win in c.tb.index
    ensures
      var d := DoMetadata(c, cmd.win, cmd.kind, cmd.hints, cmd.transientFor);
      && |d.tb.lists| == |c.tb.lists| && d.tb.index.Keys == c.tb.index.Keys && d.tb.home == c.tb.home
      && (id in c.tb.index && id in c.tb.home ==>
            Flags(d, id) == if id == cmd.win then Flags(c, id).(floating := Flags(d, id).floating) else Flags(c, id))
  {
    hide Inv, Floats;
    InvSane(c);
    hide Sane, SameSaved, SameGeometry, SameVis, Silent;
  }

  /** What one scanned window leads to. */
  ghost function AdoptOne(c: Core, e: Existing, r: Restored): (d: Core)
    requires Inv(c)
    ensures Inv(d)
  {
    StepAll(c, Adoption(e, r, |c.tb.lists|))
  }

  lemma LaterPart(e: Existing, r: Restored, n: int)
    requires Adopted(e, r)
    ensures
      var later := Adoption(e, r, n)[2..];
      && Adoption(e, r, n) == Arrivals(e, r) + later && LaterFor(later, e.win)
      && later == [CSetMapped(e.win, e.viewable), CSetHiddenByWorkspace(e.win, true)] +
                  (if e.win in r.windows then Restorals(e.win, r.windows[e.win], n) else []) + Placing(e)
  {
    hide Restorals;
  }

  lemma LaterRestores(e: Existing, r: Restored, n: int, t: WinState)
    requires Adopted(e, r) && e.win in r.windows && !t.fullscreen && !t.hidden && !t.borderless
    ensures LaterFor(Adoption(e, r, n)[2..], e.win)
    ensures
      var s := r.windows[e.win];
      EffectAll(Adoption(e, r, n)[2..], e.win, t, n) == if 0 <= s.ws < n then s else s.(ws := t.ws)
  {
    hide EffectAll, FlagEffect, Adoption, Restorals;
    LaterPart(e, r, n);
    var s := r.windows[e.win];
    var a: seq<Command> := [CSetMapped(e.win, e.viewable)];
    var b: seq<Command> := [CSetHiddenByWorkspace(e.win, true)];
    assert a + b == [CSetMapped(e.win, e.viewable), CSetHiddenByWorkspace(e.win, true)];
    RestoralsRestore(e.win, s, n, t);
    EffectAppend(a, b, e.win, t, n);
    EffectAppend(a + b, Restorals(e.win, s, n), e.win, t, n);
    EffectAppend(a + b + Restorals(e.win, s, n), Placing(e), e.win, t, n);
    QuietEffects(e, t, n);
    QuietEffects(e, if 0 <= s.ws < n then s else s.(ws := t.ws), n);
  }

  lemma QuietEffects(e: Existing, t: WinState, n: int)
    ensures EffectAll([CSetMapped(e.win, e.viewable)], e.win, t, n) == t
    ensures EffectAll([CSetHiddenByWorkspace(e.win, true)], e.win, t, n) == t
    ensures EffectAll(Placing(e), e.win, t, n) == t
  {
    EffectOne(CSetMapped(e.win, e.viewable), e.win, t, n);
    EffectOne(CSetHiddenByWorkspace(e.win, true), e.win, t, n);
    if e.geometry.Some? {
      EffectOne(Placing(e)[0], e.win, t, n);
    }
  }

  /** `win` has the saved flags `s` again, and the saved workspace exactly if that is one of the `n` there are. */
  ghost predicate GivenBack(d: Core, win: nat, s: WinState, n: int) {
    && win in d.tb.index && win in d.tb.home
    && Flags(d, win) == s.(ws := Flags(d, win).ws)
    && (Flags(d, win).ws == s.ws <==> 0 <= s.ws < n)
  }

  /**
   * An adopted window gets back what the file says; if its workspace no longer exists, it is left on the
   * workspace in use. No other window's flags change.
   */
  lemma AdoptOneFlags(c: Core, e: Existing, r: Restored, id: nat)
    requires Inv(c) && c.tb.lists != [] && e.win !in c.tb.index
    ensures
      var d := AdoptOne(c, e, r);
      && |d.tb.lists| == |c.tb.lists|
      && d.tb.index.Keys == c.tb.index.Keys + (if Adopted(e, r) then {e.win} else {})
      && (id in c.tb.index && id in c.tb.home ==> id in d.tb.home && Flags(d, id) == Flags(c, id))
      && (Adopted(e, r) && e.win in r.windows ==>
            && GivenBack(d, e.win, r.windows[e.win], |c.tb.lists|)
            && (!(0 <= r.windows[e.win].ws < |c.tb.lists|) ==> Flags(d, e.win).ws == WsInUse(c)))
  {
    hide Inv, Step, Flags, EffectAll, Adoption, Arrivals;
    if !Adopted(e, r) {
      NothingAdopted(c, e, r);
    } else {
      var n := |c.tb.lists|;
      LaterPart(e, r, n);
      var later := Adoption(e, r, n)[2..];
      assert Arrivals(e, r) + later == Adoption(e, r, n);
      ArrivalFlags(c, e, r, id);
      var c1 := StepAll(c, Arrivals(e, r));
      StepAllAppend(c, Arrivals(e, r), later);
      LaterAll(c1, later, e.win, e.win);
      if e.win in r.windows {
        LaterRestores(e, r, n, Flags(c1, e.win));
        ArrivalSpace(e, r);
        HomeInRange(c1, e.win);
        HomeInRange(AdoptOne(c, e, r), e.win);
      }
      if id in c.tb.index && id in c.tb.home {
        LaterAll(c1, later, e.win, id);
        OthersUntouched(later, e.win, id, Flags(c1, id), n);
      }
    }
  }

  lemma HomeInRange(c: Core, id: nat)
    requires Live(c, id)
    ensures 0 <= Flags(c, id).ws < |c.tb.lists|
  {
  }

  lemma NothingAdopted(c: Core, e: Existing, r: Restored)
    requires Inv(c) && !Adopted(e, r)
    ensures AdoptOne(c, e, r) == c
  {
    hide Inv, Step, Adopted;
    assert Adoption(e, r, |c.tb.lists|) == [];
    assert StepAll(c, []) == c;
    assert AdoptOne(c, e, r) == StepAll(c, []);
  }

  // --- All windows adopted -----------------------------------------------------------------------

  ghost function AdoptUpTo(c: Core, es: seq<Existing>, r: Restored, k: nat): (d: Core)
    requires Inv(c) && k <= |es|
    ensures Inv(d)
  {
    if k == 0 then c else AdoptOne(AdoptUpTo(c, es, r, k - 1), es[k - 1], r)
  }

  /** The scan lists each window once. */
  ghost predicate Scanned(es: seq<Existing>) {
    forall i, j :: 0 <= i < j < |es| ==> es[i].win != es[j].win
  }

  lemma {:induction false} AdoptUpToFlags(c: Core, es: seq<Existing>, r: Restored, k: nat, i: nat)
    requires Inv(c) && c.tb.lists != [] && c.tb.index == map[] && Scanned(es) && i < |es| && k <= |es|
    ensures
      var d := AdoptUpTo(c, es, r, k);
      && |d.tb.lists| == |c.tb.lists|
      && (forall id :: id in d.tb.index ==> exists j :: 0 <= j < k && es[j].win == id)
      && (i < k && Adopted(es[i], r) && es[i].win in r.windows ==>
            GivenBack(d, es[i].win, r.windows[es[i].win], |c.tb.lists|))
  {
    hide AdoptOne, Inv, Flags, Adopted;
    if k > 0 {
      AdoptUpToFlags(c, es, r, k - 1, i);
      AdoptOneFlags(AdoptUpTo(c, es, r, k - 1), es[k - 1], r, es[i].win);
    }
  }

  /** The workspaces that were shown before the restart are switched to, monitor by monitor. */
  function SwitchFor(c: Core, r: Restored, m: nat): int
    requires m < |c.topo.monitors|
  {
    if m in r.monitors && 0 <= r.monitors[m] < |c.tb.lists| then r.monitors[m] else c.topo.monitors[m].activeWs
  }

  predicate Switches(c: Core, r: Restored, m: nat) { m < |c.topo.monitors| && SwitchFor(c, r, m) >= 0 }

  ghost function SwitchUpTo(c: Core, r: Restored, k: nat): (d: Core)
    requires Inv(c)
    ensures Inv(d)
  {
    if k == 0 then c
    else
      var b := SwitchUpTo(c, r, k - 1);
      if Switches(b, r, k - 1) then
        InvSane(b);
        SwitchInv(b, SwitchFor(b, r, k - 1), Some(k - 1));
        DoSwitch(b, SwitchFor(b, r, k - 1), Some(k - 1))
      else b
  }

  /** Some monitor among the first `k` was switched. */
  ghost predicate AnySwitched(c: Core, r: Restored, k: nat)
    requires Inv(c)
  {
    k > 0 && (AnySwitched(c, r, k - 1) || Switches(SwitchUpTo(c, r, k - 1), r, k - 1))
  }

  lemma {:induction false} SwitchUpToKeeps(c: Core, r: Restored, k: nat, id: nat)
    requires Live(c, id)
    ensures Keeps(c, SwitchUpTo(c, r, k), id)
  {
    hide DoSwitch, Inv, Flags, SwitchFor;
    if k > 0 {
      SwitchUpToKeeps(c, r, k - 1, id);
      var b := SwitchUpTo(c, r, k - 1);
      if Switches(b, r, k - 1) {
        SwitchKeeps(b, SwitchFor(b, r, k - 1), Some(k - 1 as int), id);
      }
    }
  }

  /** After a restart every monitor is switched; if none could be, windows are only arranged. */
  ghost function SwitchMonitors(c: Core, r: Restored): (d: Core)
    requires Inv(c)
    ensures Inv(d)
  {
    var n := |c.topo.monitors|;
    ArrangeInv(SwitchUpTo(c, r, n));
    if AnySwitched(c, r, n) then SwitchUpTo(c, r, n) else Arrange(SwitchUpTo(c, r, n))
  }

  /** Without a restart the focused monitor's workspace is switched to. */
  ghost function SwitchFocused(c: Core): (d: Core)
    requires Inv(c)
    ensures Inv(d)
  {
    var m := c.topo.focused;
    var ws := if 0 <= m < |c.topo.monitors| then c.topo.monitors[m].activeWs else NO_WS;
    InvSane(c);
    SwitchInv(c, ws, None);
    ArrangeInv(c);
    if ws >= 0 then DoSwitch(c, ws, None) else Arrange(c)
  }

  predicate AnyAdopted(es: seq<Existing>, r: Restored, k: nat)
    requires k <= |es|
  {
    exists i | 0 <= i < k :: Adopted(es[i], r)
  }

  predicate AnyRestored(es: seq<Existing>, r: Restored, k: nat)
    requires k <= |es|
  {
    exists i | 0 <= i < k :: Adopted(es[i], r) && es[i].win in r.windows
  }

  /** adopt_existing_windows: adopt the scanned windows, then switch to what is to be shown. */
  ghost function Adopt(c: Core, es: seq<Existing>, r: Restored): (d: Core)
    requires Inv(c)
    ensures Inv(d)
  {
    var adopted := AdoptUpTo(c, es, r, |es|);
    if AnyRestored(es, r, |es|) then SwitchMonitors(adopted, r)
    else if AnyAdopted(es, r, |es|) then SwitchFocused(adopted)
    else adopted
  }

  lemma SwitchMonitorsKeeps(c: Core, r: Restored, id: nat)
    requires Live(c, id)
    ensures Keeps(c, SwitchMonitors(c, r), id)
  {
    hide SwitchUpTo, AnySwitched, Arrange, Inv, Flags;
    SwitchUpToKeeps(c, r, |c.topo.monitors|, id);
    var d := SwitchUpTo(c, r, |c.topo.monitors|);
    QuietKeeps(d, Arrange(d), id);
  }

  /** What Core::init leaves behind is a start for the theorems below. */
  lemma InitIsStart(settings: Settings, monitors: seq<Monitor>)
    ensures
      var c := Init(settings, monitors);
      Inv(c) && c.tb.lists != [] && c.tb.index == map[]
  {
    InitInv(settings, monitors);
  }

  /**
   * Exec-restart: the old window manager saves its state, a fresh one reads the file and adopts the windows
   * that are still there. Each one that was saved has its old floating, fullscreen, explicitly-hidden and
   * borderless flags again, and its old workspace exactly if the new configuration still has that workspace.
   */
  lemma RestartRestores(before: Core, started: Core, es: seq<Existing>, i: nat)
    requires Inv(before) && Inv(started) && started.tb.index == map[] && started.tb.lists != []
    requires Scanned(es) && i < |es| && es[i].hookManage && Worth(before.tb, es[i].win)
    ensures
      var after := Adopt(started, es, Parse(NOTHING, SavedText(before)));
      var id := es[i].win;
      && id in before.tb.home && id in after.tb.index && id in after.tb.home
      && Flags(after, id) == Flags(before, id).(ws := Flags(after, id).ws)
      && (Flags(after, id).ws == Flags(before, id).ws <==> before.tb.home[id] < |started.tb.lists|)
  {
    hide AdoptUpTo, SwitchMonitors, Parse, SavedText, Adopted;
    var r := Parse(NOTHING, SavedText(before));
    var id := es[i].win;
    SavedIsRead(before, id);
    HomeInRange(before, id);
    AdoptedAgain(es[i], r);
    AdoptUpToFlags(started, es, r, |es|, i);
    SwitchMonitorsKeeps(AdoptUpTo(started, es, r, |es|), r, id);
  }

  lemma AdoptedAgain(e: Existing, r: Restored)
    requires e.win != NO_WINDOW && e.win in r.windows && e.hookManage
    ensures Adopted(e, r)
  {
  }
}
