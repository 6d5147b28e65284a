/**
 * What the commands about a single window and about the layout leave
 * (core/src/core/core_dispatch.cpp:429-450, 543-659, 764-773, 802-828): the window they name, all others, and
 * the effects.
 */
module WindowCommands {
  import opened Monitors
  import opened Topology
  import opened Windows
  import opened WindowProofs
  import opened Flush
  import opened Reducer
  import opened ReducerProofs
  import opened ArrangeProofs
  import opened SurfaceProofs
  import opened FocusCommands

  /** Only window `id` may differ, and no window comes or goes. */
  ghost predicate OthersStay(c: Core, d: Core, id: nat) {
    d.tb.index.Keys == c.tb.index.Keys && forall x :: x in c.tb.index && x != id ==> d.tb.index[x] == c.tb.index[x]
  }

  // --- Visibility and flags ----------------------------------------------------------------------

  /** A flag that is set, or cleared, or stays. */
  predicate Becomes(was: bool, now: bool, sets: bool, clears: bool) {
    if sets then now else if clears then !now else now == was
  }

  ghost predicate SetsVisibility(c: Core, d: Core, cmd: Command)
    requires VisibilityCommand(cmd) && cmd.win in c.tb.index
  {
    var id := cmd.win;
    && id in d.tb.index && OthersStay(c, d, id)
    && var w, v := c.tb.index[id], d.tb.index[id];
       && d == c.(tb := c.tb.(index := d.tb.index), effects := d.effects) && v == w.(vis := v.vis)
       && Becomes(w.vis.mapped, v.vis.mapped,
                  cmd.CMapWindow? || cmd == CSetMapped(id, true), cmd.CUnmapWindow? || cmd == CSetMapped(id, false))
       && Becomes(w.vis.hiddenByWs, v.vis.hiddenByWs,
                  cmd == CSetHiddenByWorkspace(id, true), cmd == CSetHiddenByWorkspace(id, false))
       && Becomes(w.vis.hiddenExplicitly, v.vis.hiddenExplicitly, cmd.CHideWindow?, false)
       && d.effects == c.effects +
            if cmd.CMapWindow? && !w.vis.mapped && v.Visible() then [MapWindow(id)]
            else if (cmd.CUnmapWindow? && w.vis.mapped) || (cmd.CHideWindow? && w.Visible()) then [UnmapWindow(id)]
            else []
  }

  /**
   * Each visibility command sets or clears one flag of its window and nothing else. Mapping asks for the
   * window to be mapped if it was not and is visible now; unmapping asks for it to be unmapped if it was
   * mapped, and hiding if it was visible. The other two ask for nothing.
   */
  lemma VisibilityLaw(c: Core, cmd: Command)
    requires Sane(c) && VisibilityCommand(cmd)
    ensures if cmd.win in c.tb.index then SetsVisibility(c, Step(c, cmd), cmd) else Step(c, cmd) == c
  {
    hide Step, SetsVisibility;
    StepIsSilent(c, cmd);
    hide Sane;
    VisibilityOf(c, cmd);
  }

  lemma VisibilityOf(c: Core, cmd: Command)
    requires Sane(c) && VisibilityCommand(cmd)
    ensures
      if cmd.win in c.tb.index then SetsVisibility(c, StepVisibility(c, cmd), cmd) else StepVisibility(c, cmd) == c
  {
    hide SameLists, SameSaved, SameGeometry, Sane;
  }

  ghost predicate SetsFlag(c: Core, d: Core, cmd: Command)
    requires FlagCommand(cmd) && cmd.win in c.tb.index
  {
    var id := cmd.win;
    && id in d.tb.index && OthersStay(c, d, id)
    && var p, q := c.tb.index[id].props, d.tb.index[id].props;
       && d.tb.index[id] == c.tb.index[id].(props := q)
       && q == p.(floating := q.floating, suppressFocusOnce := q.suppressFocusOnce)
       && Becomes(p.floating, q.floating, cmd == CSetFloating(id, true) || (cmd.CToggleFloating? && !p.floating),
                  cmd == CSetFloating(id, false) || (cmd.CToggleFloating? && p.floating))
       && Becomes(p.suppressFocusOnce, q.suppressFocusOnce,
                  cmd == CSetSuppressFocusOnce(id, true), cmd == CSetSuppressFocusOnce(id, false))
       && d == c.(tb := c.tb.(index := d.tb.index), effects := c.effects + if cmd.CCloseWindow? then [CloseWindow(id)] else [])
  }

  /** A flag command sets or clears one flag of its window; closing only asks the client. */
  lemma FlagLaw(c: Core, cmd: Command)
    requires Sane(c) && FlagCommand(cmd)
    ensures if cmd.win in c.tb.index then SetsFlag(c, Step(c, cmd), cmd) else Step(c, cmd) == c
  {
    hide Step, SetsFlag;
    FlagStepIs(c, cmd);
    hide Sane;
    FlagOf(c, cmd);
  }

  lemma FlagOf(c: Core, cmd: Command)
    requires Sane(c) && FlagCommand(cmd)
    ensures if cmd.win in c.tb.index then SetsFlag(c, StepFlag(c, cmd), cmd) else StepFlag(c, cmd) == c
  {
    hide SameSaved, SameGeometry, Silent, Sane, SameLists, SameVis;
    if cmd.win in c.tb.index {
      assert c.tb.index[cmd.win := c.tb.index[cmd.win]] == c.tb.index;
    }
  }

  // --- Metadata ----------------------------------------------------------------------------------

  predicate FloatingKind(kind: WindowType) { kind.Dialog? || kind.Modal? || kind.Utility? || kind.Splash? }

  /** What metadata makes of a window, in terms of what the backend reported. */
  ghost predicate Classifies(c: Core, d: Core, cmd: Command)
    requires cmd.CSetMetadata? && cmd.win in c.tb.index
  {
    var id := cmd.win;
    && id in d.tb.index && OthersStay(c, d, id)
    && var w, v, h := c.tb.index[id], d.tb.index[id], cmd.hints;
       v == w.(props := v.props) && ClassifiesProps(w.props, v.props, cmd, cmd.transientFor in c.tb.home)
  }

  ghost predicate ClassifiesProps(p: Props, q: Props, cmd: Command, routed: bool)
    requires cmd.CSetMetadata?
  {
    var h := cmd.hints;
    && q.kind == cmd.kind && q.sizeLocked == h.fixedSize && q.urgent == h.urgent
    && q.preservePosition == h.staticGravity && q.hints == h.sizes
    && q.fullscreen == p.fullscreen && q.borderless == p.borderless
    && (q.selfManaged <==> h.coversMonitor && h.preFullscreen && !h.xembed)
    && (q.promoteToBorderless <==> h.coversMonitor && (h.fixedSize || (h.preFullscreen && !h.xembed)))
    && (q.floating <==>
          || p.floating || cmd.transientFor != NO_WINDOW || FloatingKind(cmd.kind)
          || (h.fixedSize && !h.coversMonitor && !p.borderless))
    && (q.suppressFocusOnce <==> p.suppressFocusOnce || routed)
  }

  /**
   * Metadata classifies its window and leaves all others: it is promoted to borderless if it covers its
   * monitor and is of fixed size or was fullscreen before; it floats if it did, belongs to another window, is
   * of a floating kind, or has a fixed size, decorations and a monitor larger than itself. A window of a
   * known one is not focused once.
   */
  lemma MetadataLaw(c: Core, cmd: Command)
    requires Inv(c) && cmd.CSetMetadata?
    ensures Sane(c)
    ensures if cmd.win in c.tb.index then Classifies(c, Step(c, cmd), cmd) else Step(c, cmd) == c
  {
    hide Step, Inv, Classifies;
    InvSane(c);
    WindowStepIs(c, cmd);
    if cmd.win in c.tb.index {
      hide Sane;
      MetadataOf(c, cmd);
    }
  }

  lemma MetadataOf(c: Core, cmd: Command)
    requires Inv(c) && cmd.CSetMetadata? && cmd.win in c.tb.index
    ensures Sane(c) && Classifies(c, DoMetadata(c, cmd.win, cmd.kind, cmd.hints, cmd.transientFor), cmd)
  {
    hide Inv, SameSaved, SameVis, SameGeometry, Silent, HomeOf, Move, DoAssign;
    InvSane(c);
    ParentHome(c, cmd.transientFor);
    var id := cmd.win;
    var c1 := PutProps(c, id, Classified(c.tb.index[id].props, cmd.kind, cmd.hints));
    PropsHome(c, id, Classified(c.tb.index[id].props, cmd.kind, cmd.hints));
    SameHomes(c, c1, cmd.transientFor);
    var c2 := RouteTransient(c1, id, cmd.transientFor);
    RoutedProps(c1, id, cmd.transientFor);
    var p := c2.tb.index[id].props;
    ClassifiedLaw(c.tb.index[id].props, p, cmd, cmd.transientFor in c.tb.home);
    hide Classified, RouteTransient, ClassifiesProps, Floats;
    assert c2.tb.index[id] == c.tb.index[id].(props := p);
  }

  lemma ClassifiedLaw(p: Props, q: Props, cmd: Command, routed: bool)
    requires cmd.CSetMetadata?
    requires
      var r := Classified(p, cmd.kind, cmd.hints);
      q == if routed then r.(suppressFocusOnce := true) else r
    ensures ClassifiesProps(p, if Floats(q, cmd.transientFor) then q.(floating := true) else q, cmd, routed)
  {
  }

  lemma SameHomes(c: Core, d: Core, id: nat)
    requires d.tb.home == c.tb.home && |d.tb.lists| == |c.tb.lists| && |d.tb.cursors| == |c.tb.cursors|
    ensures HomeOf(d.tb, id) == HomeOf(c.tb, id)
  {
  }

  lemma RoutedProps(c: Core, id: nat, parent: nat)
    requires Sane(c) && id in c.tb.index
    ensures
      var d, w := RouteTransient(c, id, parent), c.tb.index[id];
      var routed := parent != NO_WINDOW && HomeOf(c.tb, parent) >= 0;
      && id in d.tb.index
      && d.tb.index == c.tb.index[id := if routed then w.(props := w.props.(suppressFocusOnce := true)) else w]
  {
    hide HomeOf, SameSaved, SameVis, SameGeometry, Silent;
    assert c.tb.index[id := c.tb.index[id]] == c.tb.index;
  }

  // --- Borderless --------------------------------------------------------------------------------

  /**
   * A window loses or gets its decorations: the flag is set, a promotion is over, and a borderless window that
   * leaves its geometry to the window manager has no border. Nothing else of it changes, but that it may take
   * its monitor's surface.
   */
  lemma BorderlessLaw(c: Core, id: nat, flag: bool)
    requires Inv(c) && id in c.tb.index
    ensures Sane(c)
    ensures
      var d, w := Step(c, CSetBorderless(id, flag)), c.tb.index[id];
      && id in d.tb.index && d.tb.index[id].vis == w.vis && d.tb.index[id].saved == w.saved
      && d.tb.index[id].props == w.props.(borderless := flag, promoteToBorderless := false)
      && d.tb.index[id].geo.border == (if flag && !w.OwnsGeometry() then 0 else w.geo.border)
  {
    hide Step, DoBorderless, Inv, KeepsWindows;
    InvSane(c);
    BorderlessIs(c, id, flag);
    hide Sane;
    BorderlessOf(c, id, flag);
  }

  lemma BorderlessIs(c: Core, id: nat, flag: bool)
    requires Sane(c)
    ensures Step(c, CSetBorderless(id, flag)) == DoBorderless(c, id, flag)
  {
    hide StepVisibility, StepFlag, StepGeometry, StepLayout, StepFocus, StepMove, DoApplySettings, Sane;
    hide DoFullscreen, DoEnsure, DoAssign, DoMetadata, DoBorderless, DoRemove, KeepsWindows, Quiet, Silent, SameLists;
  }

  lemma BorderlessOf(c: Core, id: nat, flag: bool)
    requires Inv(c) && id in c.tb.index
    ensures Sane(c)
    ensures
      var d, w := DoBorderless(c, id, flag), c.tb.index[id];
      && id in d.tb.index && d.tb.index[id].vis == w.vis && d.tb.index[id].saved == w.saved
      && d.tb.index[id].props == w.props.(borderless := flag, promoteToBorderless := false)
      && d.tb.index[id].geo.border == (if flag && !w.OwnsGeometry() then 0 else w.geo.border)
  {
    hide Evaluate, HomeOf, Quiet, Inv, StaysOrPinned;
    InvSane(c);
    var w0 := c.tb.index[id];
    var w := w0.(props := w0.props.(borderless := flag, promoteToBorderless := false));
    var e := if flag && w.geo.border != 0 && !w.OwnsGeometry()
             then Emit(Put(c, id, WithBorder(w, 0)), UpdateWindow(id)) else Put(c, id, w);
    PutInv(c, id, w);
    PutInv(c, id, WithBorder(w, 0));
    SameListsInv(Put(c, id, e.tb.index[id]), e);
    InvHome(e, id);
    FlagsKept(e, Evaluate(e, HomeOf(e.tb, id)), id);
    EvaluateStays(e, HomeOf(e.tb, id), id);
    StaysBorder(e, Evaluate(e, HomeOf(e.tb, id)), id);
  }

  lemma StaysBorder(c: Core, d: Core, x: nat)
    requires StaysOrPinned(c, d, x)
    ensures x in c.tb.index && x in d.tb.index && d.tb.index[x].geo.border == c.tb.index[x].geo.border
  {
  }

  // --- The layout and its parameters -------------------------------------------------------------

  predicate Between(lo: real, x: real, hi: real) { lo <= x <= hi }

  function Distance(x: real, y: real): real { if x < y then y - x else x - y }

  /** `factor` is the one nearest to `wanted` that is allowed. */
  ghost predicate Nearest(wanted: real, factor: real) {
    Between(0.1, factor, 0.9) && forall x :: Between(0.1, x, 0.9) ==> Distance(wanted, factor) <= Distance(wanted, x)
  }

  lemma ClampNearest(wanted: real)
    ensures Nearest(wanted, Clamp(wanted))
  {
  }

  /** Each of these commands sets one parameter, to the allowed value nearest to what it asks for. */
  ghost predicate Configures(c: Core, d: Core, cmd: Command)
    requires ConfigCommand(cmd)
  {
    match cmd
    case CSetLayout(name) => d.layout == name && d.masterFactor == c.masterFactor && d.nmaster == c.nmaster
    case CSetMasterFactor(f) => d.layout == c.layout && Nearest(f, d.masterFactor) && d.nmaster == c.nmaster
    case CAdjustMasterFactor(delta) =>
      d.layout == c.layout && Nearest(c.masterFactor + delta, d.masterFactor) && d.nmaster == c.nmaster
    case CIncMaster(count) =>
      && d.layout == c.layout && d.masterFactor == c.masterFactor
      && if c.nmaster + count >= 1 then d.nmaster == c.nmaster + count else d.nmaster == 1
  }

  /** Only an unknown layout name is refused. */
  lemma ConfigLaw(c: Core, cmd: Command)
    requires Sane(c) && ConfigCommand(cmd)
    ensures
      var refused := cmd.CSetLayout? && cmd.name != "tile" && cmd.name != "monocle" && cmd.name != "unmanaged";
      if refused then Step(c, cmd) == c else Configures(c, Step(c, cmd), cmd)
  {
    hide Step, DoConfigure, Configures, KeepsWindows;
    ConfigIs(c, cmd);
    hide Sane;
    ConfigOf(c, cmd);
  }

  lemma ConfigIs(c: Core, cmd: Command)
    requires Sane(c) && ConfigCommand(cmd)
    ensures Step(c, cmd) == DoConfigure(c, cmd)
  {
    hide StepVisibility, StepFlag, StepGeometry, StepFocus, StepMove, StepWindow, DoApplySettings, Sane;
    hide DoConfigure, DoReserve, DoZoom, DoToggleFocused, KeepsWindows, Quiet, Silent, SameLists;
  }

  lemma ConfigOf(c: Core, cmd: Command)
    requires Sane(c) && ConfigCommand(cmd)
    ensures
      var refused := cmd.CSetLayout? && cmd.name != "tile" && cmd.name != "monocle" && cmd.name != "unmanaged";
      if refused then DoConfigure(c, cmd) == c else Configures(c, DoConfigure(c, cmd), cmd)
  {
    hide Arrange, Clamp, Nearest, Sane, Quiet, KeepsWindows;
    if cmd.CSetMasterFactor? {
      ClampNearest(cmd.factor);
    } else if cmd.CAdjustMasterFactor? {
      ClampNearest(c.masterFactor + cmd.delta);
    }
    var e := Configured(c, cmd);
    SameSettings(e, Arrange(e));
  }
}
