/** adopt_existing_windows (core/src/runtime/runtime.cpp:120-237), giving its commands to the core one by one. */
module Adoption {
  import opened Monitors
  import opened Topology
  import opened Windows
  import opened Reducer
  import opened ReducerProofs
  import opened RestartFile
  import opened Restart
  import opened Dispatch

  lemma StepAllSnoc(c: Reducer.Core, cmds: seq<Command>, cmd: Command)
    requires Inv(c) && (forall i :: 0 <= i < |cmds| ==> !cmds[i].CApplySettings?) && !cmd.CApplySettings?
    ensures Sane(StepAll(c, cmds)) && StepAll(c, cmds + [cmd]) == Step(StepAll(c, cmds), cmd)
  {
    hide Step, Inv;
    StepAllAppend(c, cmds, [cmd]);
    var d := StepAll(c, cmds);
    InvSane(d);
    assert [cmd][1..] == [];
    StepInv(d, cmd);
    assert StepAll(Step(d, cmd), []) == Step(d, cmd);
  }

  /** `d` is where the commands `done` lead from `c`. */
  ghost predicate Obeyed(c: Reducer.Core, done: seq<Command>, d: Reducer.Core) {
    Inv(c) && (forall i :: 0 <= i < |done| ==> !done[i].CApplySettings?) && d == StepAll(c, done)
  }

  /** One more command for a core that has obeyed `done` since it was `c`. */
  method Give(core: Dispatch.Core, cmd: Command, ghost c: Reducer.Core, ghost done: seq<Command>)
    returns (ghost all: seq<Command>)
    requires core.Valid() && Obeyed(c, done, core.State()) && !cmd.CApplySettings?
    modifies core, core.wsman
    ensures core.Valid() && all == done + [cmd]
    ensures Obeyed(c, all, core.State())
  {
    hide StepAll, Step, Inv;
    StepAllSnoc(c, done, cmd);
    core.Dispatch(cmd);
    all := done + [cmd];
  }

  /** A command that is given only if the file asks for it. */
  method GiveIf(core: Dispatch.Core, asked: bool, cmd: Command, ghost c: Reducer.Core, ghost done: seq<Command>)
    returns (ghost all: seq<Command>)
    requires core.Valid() && Obeyed(c, done, core.State()) && !cmd.CApplySettings?
    modifies core, core.wsman
    ensures core.Valid() && all == done + Opt(asked, cmd)
    ensures Obeyed(c, all, core.State())
  {
    hide Obeyed;
    all := done;
    if asked {
      all := Give(core, cmd, c, done);
    }
  }

  /** The part about the restart file; `n` is the number of workspaces. */
  method GiveRestorals(core: Dispatch.Core, win: nat, s: WinState, n: int, ghost c: Reducer.Core, ghost done: seq<Command>)
    returns (ghost all: seq<Command>)
    requires core.Valid() && Obeyed(c, done, core.State())
    modifies core, core.wsman
    ensures core.Valid() && all == done + Restorals(win, s, n)
    ensures Obeyed(c, all, core.State())
  {
    hide Obeyed, LaterFor, Restorals, Opt;
    all := GiveIf(core, s.ws >= 0 && s.ws < n, CAssignWorkspace(win, s.ws), c, done);
    all := Give(core, CSetFloating(win, s.floating), c, all);
    all := GiveIf(core, s.fullscreen, CSetFullscreen(win, true, false), c, all);
    all := GiveIf(core, s.borderless, CSetBorderless(win, true), c, all);
    all := GiveIf(core, s.borderless, CFocusWindow(win), c, all);
    all := GiveIf(core, s.hidden, CHideWindow(win), c, all);
    RestoralsInOrder(win, s, n, done);
  }

  function Opt(asked: bool, cmd: Command): seq<Command> { if asked then [cmd] else [] }

  /** The restorals, one after the other. */
  lemma RestoralsInOrder(win: nat, s: WinState, n: int, done: seq<Command>)
    ensures done + Restorals(win, s, n) ==
      done + Opt(s.ws >= 0 && s.ws < n, CAssignWorkspace(win, s.ws)) + [CSetFloating(win, s.floating)] +
      Opt(s.fullscreen, CSetFullscreen(win, true, false)) + Opt(s.borderless, CSetBorderless(win, true)) +
      Opt(s.borderless, CFocusWindow(win)) + Opt(s.hidden, CHideWindow(win))
  {
    hide LaterFor;
    var a, b := Opt(s.ws >= 0 && s.ws < n, CAssignWorkspace(win, s.ws)), [CSetFloating(win, s.floating)];
    var f, g := Opt(s.fullscreen, CSetFullscreen(win, true, false)), Opt(s.borderless, CSetBorderless(win, true));
    var h, i := Opt(s.borderless, CFocusWindow(win)), Opt(s.hidden, CHideWindow(win));
    assert g + h == if s.borderless then [CSetBorderless(win, true), CFocusWindow(win)] else [];
    assert Restorals(win, s, n) == a + b + f + (g + h) + i;
    Regroup(done, a, b, f, g, h, i);
  }

  lemma Regroup<T>(s: seq<T>, a: seq<T>, b: seq<T>, c: seq<T>, d: seq<T>, e: seq<T>, f: seq<T>)
    ensures s + (a + b + c + (d + e) + f) == s + a + b + c + d + e + f
  {
    assert a + b + c + (d + e) == a + b + c + d + e;
  }

  method GivePlacing(core: Dispatch.Core, e: Existing, ghost c: Reducer.Core, ghost done: seq<Command>)
    returns (ghost all: seq<Command>)
    requires core.Valid() && Obeyed(c, done, core.State())
    modifies core, core.wsman
    ensures core.Valid() && all == done + Placing(e)
    ensures Obeyed(c, all, core.State())
  {
    hide Obeyed;
    all := done;
    if e.geometry.Some? {
      all := Give(core, CSetGeometry(e.win, e.geometry.value.0, e.geometry.value.1), c, all);
    }
  }

  /** The body of the loop over the scanned windows. */
  method AdoptWindow(core: Dispatch.Core, e: Existing, r: Restored) returns (adopted: bool)
    requires core.Valid()
    modifies core, core.wsman
    ensures core.Valid() && Inv(old(core.State())) && core.State() == AdoptOne(old(core.State()), e, r)
    ensures adopted == Adopted(e, r)
  {
    hide Obeyed, StepAll, Inv, Restorals, Placing, LaterFor, Adoption, Adopted;
    ghost var c := core.State();
    var n := |core.wsman.lists|;
    Nothing(c);
    IsAdopted(e, r);
    if e.win == NO_WINDOW {
      NotAdopted(c, e, r);
      return false;
    }
    if e.win !in r.windows && !e.defaultManage {
      NotAdopted(c, e, r);
      return false;
    }
    if !e.hookManage {
      NotAdopted(c, e, r);
      return false;
    }
    var ws := if e.win in r.windows then r.windows[e.win].ws else NO_WS;
    ghost var all: seq<Command> := [];
    all := Give(core, CEnsureWindow(e.win, ws), c, all);
    all := Give(core, CSetMetadata(e.win, e.kind, MapHints(e.fixedSize, false, false, false, false, false, NO_HINTS), NO_WINDOW), c, all);
    all := Give(core, CSetMapped(e.win, e.viewable), c, all);
    all := Give(core, CSetHiddenByWorkspace(e.win, true), c, all);
    if e.win in r.windows {
      all := GiveRestorals(core, e.win, r.windows[e.win], n, c, all);
    }
    all := GivePlacing(core, e, c, all);
    AdoptionInOrder(e, r, n);
    ObeyedAll(c, e, r, core.State());
    adopted := true;
  }

  /** The commands of one adopted window, one after the other. */
  lemma AdoptionInOrder(e: Existing, r: Restored, n: int)
    requires Adopted(e, r)
    ensures
      var first := [] + [CEnsureWindow(e.win, if e.win in r.windows then r.windows[e.win].ws else NO_WS)] +
        [CSetMetadata(e.win, e.kind, MapHints(e.fixedSize, false, false, false, false, false, NO_HINTS), NO_WINDOW)] +
        [CSetMapped(e.win, e.viewable)] + [CSetHiddenByWorkspace(e.win, true)];
      Adoption(e, r, n) == (if e.win in r.windows then first + Restorals(e.win, r.windows[e.win], n) else first) + Placing(e)
  {
    hide Restorals, Placing, LaterFor;
  }

  lemma IsAdopted(e: Existing, r: Restored)
    ensures Adopted(e, r) <==> e.win != NO_WINDOW && (e.win in r.windows || e.defaultManage) && e.hookManage
  {
  }

  lemma Nothing(c: Reducer.Core)
    requires Inv(c)
    ensures Obeyed(c, [], c)
  {
  }

  lemma NotAdopted(c: Reducer.Core, e: Existing, r: Restored)
    requires Inv(c) && !Adopted(e, r)
    ensures AdoptOne(c, e, r) == c
  {
    NothingAdopted(c, e, r);
  }

  lemma ObeyedAll(c: Reducer.Core, e: Existing, r: Restored, d: Reducer.Core)
    requires Obeyed(c, Adoption(e, r, |c.tb.lists|), d)
    ensures Inv(c) && d == AdoptOne(c, e, r)
  {
  }

  /** After a restart: every monitor switches to the workspace the file names, or to the one it shows. */
  method SwitchAll(core: Dispatch.Core, r: Restored) returns (anySwitched: bool)
    requires core.Valid()
    modifies core, core.wsman
    ensures core.Valid() && Inv(old(core.State()))
    ensures
      var a := old(core.State());
      core.State() == SwitchUpTo(a, r, |a.topo.monitors|) && (anySwitched <==> AnySwitched(a, r, |a.topo.monitors|))
  {
    hide Inv, DoSwitch, SwitchFor;
    ghost var a := core.State();
    var n := |core.wsman.monitors|;
    anySwitched := false;
    for m := 0 to n
      invariant core.Valid() && core.State() == SwitchUpTo(a, r, m) && (anySwitched <==> AnySwitched(a, r, m))
    {
      ghost var b := core.State();
      InvSane(b);
      if m < |core.wsman.monitors| {
        var ws := core.wsman.monitors[m].activeWs;
        if m in r.monitors && 0 <= r.monitors[m] < |core.wsman.lists| {
          ws := r.monitors[m];
        }
        assert ws == SwitchFor(b, r, m) by {
          SwitchForIs(b, r, m);
        }
        if ws >= 0 {
          core.SwitchWorkspace(ws, Some(m));
          anySwitched := true;
        }
      }
    }
  }

  /** Without a restart: the focused monitor's workspace is switched to. */
  method SwitchToFocused(core: Dispatch.Core) returns (anySwitched: bool)
    requires core.Valid()
    modifies core, core.wsman
    ensures core.Valid() && Inv(old(core.State()))
    ensures SwitchFocused(old(core.State())) == if anySwitched then core.State() else Arrange(core.State())
    ensures !anySwitched ==> core.State() == old(core.State())
  {
    hide Inv, DoSwitch, Arrange, Quiet;
    InvSane(core.State());
    var ws := NO_WS;
    var m := core.wsman.focusedMonitor;
    if m >= 0 && m < |core.wsman.monitors| {
      ws := core.wsman.monitors[m].activeWs;
    }
    anySwitched := ws >= 0;
    if anySwitched {
      core.SwitchWorkspace(ws, None);
    }
  }

  /** ReconcileNow, for when nothing was switched. */
  method ArrangeUnless(core: Dispatch.Core, anySwitched: bool)
    requires core.Valid()
    modifies core, core.wsman
    ensures core.Valid() && core.State() == if anySwitched then old(core.State()) else Arrange(old(core.State()))
  {
    hide Inv, Arrange, Quiet;
    ArrangeInv(core.State());
    if !anySwitched {
      core.ArrangeAll();
    }
  }

  /** adopt_existing_windows, after a restart or at a first start. */
  method AdoptExistingWindows(core: Dispatch.Core, es: seq<Existing>, r: Restored)
    requires core.Valid()
    modifies core, core.wsman
    ensures core.Valid() && Inv(old(core.State()))
    ensures core.State() == Adopt(old(core.State()), es, r)
  {
    hide AdoptOne, Inv, SwitchUpTo, AnySwitched, SwitchFocused, Arrange, Adopted;
    ghost var c := core.State();
    var adopted := 0;
    var anyRestart := false;
    for k := 0 to |es|
      invariant core.Valid() && core.State() == AdoptUpTo(c, es, r, k)
      invariant adopted >= 0 && (adopted > 0 <==> AnyAdopted(es, r, k)) && (anyRestart <==> AnyRestored(es, r, k))
    {
      var done := AdoptWindow(core, es[k], r);
      if done {
        if es[k].win in r.windows {
          anyRestart := true;
        }
        adopted := adopted + 1;
      }
    }
    if adopted <= 0 {
      return;
    }
    var anySwitched;
    if anyRestart {
      anySwitched := SwitchAll(core, r);
    } else {
      anySwitched := SwitchToFocused(core);
    }
    ArrangeUnless(core, anySwitched);
  }

  lemma SwitchForIs(c: Reducer.Core, r: Restored, m: nat)
    requires m < |c.topo.monitors|
    ensures SwitchFor(c, r, m) ==
      if m in r.monitors && 0 <= r.monitors[m] < |c.tb.lists| then r.monitors[m] else c.topo.monitors[m].activeWs
  {
  }
}
