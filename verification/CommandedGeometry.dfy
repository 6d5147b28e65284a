/**
 * What geometry commands ask for is what core and server end up with
 * (core/src/core/core_dispatch.cpp:6-31, 851-880; backends/x11/src/backend/loop.cpp:219-231).
 */
module CommandedGeometry {
  import opened Arith
  import opened Monitors
  import opened Windows
  import opened Flush
  import opened Reducer
  import opened ReducerProofs
  import opened GeometryProtocol

  // --- Size hints --------------------------------------------------------------------------------

  /** The requested value kept within the limits that are set; of two limits that clash the maximum wins. */
  ghost predicate Limited(req: int, min: int, max: int, b: int) {
    && (max > 0 ==> b <= max)
    && (min > 0 && (max <= 0 || min <= max) ==> b >= min)
    && ((min <= 0 || req >= min) && (max <= 0 || req <= max) ==> b == req)
    && (min > 0 && req < min && (max <= 0 || min <= max) ==> b == min)
    && (max > 0 && req > max ==> b == max)
    && (min > 0 && max > 0 && min > max && req <= max ==> b == max)
  }

  /** Where the grid of resize increments starts. */
  ghost predicate Origin(min: int, base: int, o: int) {
    && (base > 0 ==> o == base) && (base <= 0 && min > 0 ==> o == min) && (base <= 0 && min <= 0 ==> o == 0)
  }

  /**
   * The size `f` that a request is fitted to on one axis: the limited request itself or, with an increment,
   * the nearest grid point between it and the grid's origin, and never below the minimum.
   */
  ghost predicate Fitted(req: int, min: int, max: int, inc: int, base: int, f: int) {
    exists b, o :: Limited(req, min, max, b) && Origin(min, base, o) && FittedTo(b, o, min, inc, f)
  }

  ghost predicate FittedTo(b: int, o: int, min: int, inc: int, f: int) {
    if inc <= 1 then f == b else exists g, n :: GridPoint(b, o, inc, g, n) && f == Max(g, if min > 0 then min else g)
  }

  /** `g` is n increments from the origin, and the last such point on the way to `b`. */
  predicate GridPoint(b: int, o: int, inc: int, g: int, n: int) {
    && g == o + n * inc
    && (b >= o ==> n >= 0 && b - inc < g <= b) && (b < o ==> n <= 0 && b <= g < b + inc)
  }

  lemma TruncSteps(v: int, inc: int)
    requires inc > 1
    ensures
      var n := TruncDiv(v, inc);
      && (v >= 0 ==> n >= 0 && v - inc < n * inc <= v)
      && (v < 0 ==> n <= 0 && v <= n * inc < v + inc)
  {
    var u := if v >= 0 then v else -v;
    DivBounds(u, inc);
    Negated(u / inc, inc);
    QuotientSign(u, inc);
  }

  lemma QuotientSign(u: int, inc: int)
    requires u >= 0 && inc > 0
    ensures u / inc >= 0
  {
  }

  lemma AxisFitted(req: int, min: int, max: int, inc: int, base: int)
    ensures Fitted(req, min, max, inc, base, HintAxis(req, min, max, inc, base))
  {
    var a := if min > 0 then Max(req, min) else req;
    var b := if max > 0 then Min(a, max) else a;
    var o := if base > 0 then base else if min > 0 then min else 0;
    assert Limited(req, min, max, b) && Origin(min, base, o);
    if inc > 1 {
      TruncSteps(b - o, inc);
      var n := TruncDiv(b - o, inc);
      assert GridPoint(b, o, inc, o + n * inc, n);
    }
    assert FittedTo(b, o, min, inc, HintAxis(req, min, max, inc, base));
  }

  /** Limits that do not contradict each other. */
  predicate Agreeing(min: int, max: int) { min <= 0 || max <= 0 || min <= max }

  /**
   * A fitted size is never below the minimum. It stays within an agreeing maximum, and does not exceed a
   * request of at least the minimum, exactly if the limited request is not off the grid below its origin.
   */
  lemma FittedBounds(req: int, min: int, max: int, inc: int, base: int, f: int, b: int, o: int)
    requires Fitted(req, min, max, inc, base, f) && Limited(req, min, max, b) && Origin(min, base, o) && Agreeing(min, max)
    ensures min > 0 ==> f >= min
    ensures f <= b <==> inc <= 1 || b >= o || (o - b) % inc == 0
    ensures inc > 1 ==> (f - o) % inc == 0 || f == min
    ensures f <= b && max > 0 ==> f <= max
    ensures f <= b ==> f <= req || f <= min
  {
    var b', o' :| Limited(req, min, max, b') && Origin(min, base, o') && FittedTo(b', o', min, inc, f);
    assert b' == b && o' == o;
    if inc > 1 {
      var g, n :| GridPoint(b, o, inc, g, n) && f == Max(g, if min > 0 then min else g);
      GridRemainder(b, o, inc, g, n);
    }
  }

  lemma GridRemainder(b: int, o: int, inc: int, g: int, n: int)
    requires inc > 1 && GridPoint(b, o, inc, g, n)
    ensures (g - o) % inc == 0
    ensures b < o ==> (g == b <==> (o - b) % inc == 0)
  {
    MultipleOf(n, inc);
    assert g - o == n * inc;
    if b < o {
      var k := g - b;
      Negated(n, inc);
      assert o - b == (-n) * inc + k;
      RemainderIs(-n, inc, k);
    }
  }

  lemma MultipleOf(n: int, inc: int)
    requires inc > 0
    ensures (n * inc) % inc == 0
  {
    RemainderIs(n, inc, 0);
  }

  /** With a base size of 100, increments of 10 and a maximum of 55, a window is given 60. */
  lemma AboveMaximum(w: Window, req: Vec)
    requires w.props.hints == Hints(ZERO, Vec(55, 55), Vec(10, 10), Vec(100, 100)) && req == Vec(200, 200)
    ensures ApplyHints(w, req) == Vec(60, 60)
  {
  }

  // --- End to end --------------------------------------------------------------------------------

  /** The core and the server both have this position and size, and nothing is under way. */
  predicate BothAt(t: Link, id: nat, pos: Vec, size: Vec) {
    && id in t.core.tb.index && t.core.tb.index[id].geo.pos == pos && t.core.tb.index[id].geo.size == size
    && id in t.server && t.server[id].pos == pos && t.server[id].size == size
    && Quiescent(t, id)
  }

  /** One flush of window `id`, and then every message under way is handled. */
  function FlushedAndSettled(s: Link, id: nat): Link
    requires Sane(s.core)
  {
    FlushedSane(s, id);
    Settle(Flushed(s, id))
  }

  lemma FlushedSane(s: Link, id: nat)
    requires Sane(s.core)
    ensures Sane(Flushed(s, id).core)
  {
  }

  /** Once the command has left the core with a geometry and its dirty bits, both sides reach it. */
  lemma SettlesAt(s: Link, id: nat)
    requires InStep(s, id) && Representable(s.core.tb.index[id].geo)
    ensures Sane(s.core) && BothAt(FlushedAndSettled(s, id), id, Target(s, id).pos, Target(s, id).size)
  {
    hide Settle, Flushed, Target, InStep, Inv;
    InStepInv(s, id);
    InvSane(s.core);
    FlushSettles(s, id);
    FlushInStep(s, id, id);
    SettleReaches(Flushed(s, id), id);
    InStepInv(FlushedAndSettled(s, id), id);
  }

  /** The protocol state after a command. */
  function Commanded(s: Link, cmd: Command): Link
    requires Sane(s.core) && Allowed(s.core, cmd)
  {
    s.(core := Step(s.core, cmd))
  }

  lemma PositionStep(c: Core, id: nat, pos: Vec)
    requires Sane(c) && id in c.tb.index
    ensures
      var d := Step(c, CSetPosition(id, pos));
      && id in d.tb.index && d.tb.index[id].geo == Geometry(pos, c.tb.index[id].geo.size, c.tb.index[id].geo.border)
      && DirtyOf(d, id) == DirtyOf(c, id).(x := true, y := true)
  {
    hide StepVisibility, StepFlag, StepLayout, StepFocus, StepMove, StepWindow, DoApplySettings, Sane, Quiet;
  }

  lemma SizeStep(c: Core, id: nat, size: Vec)
    requires Sane(c) && id in c.tb.index
    ensures
      var w, d := c.tb.index[id], Step(c, CSetSize(id, size));
      && id in d.tb.index && d.tb.index[id].geo.pos == w.geo.pos
      && d.tb.index[id].geo.size == (if w.props.floating || w.props.borderless then ApplyHints(w, size) else size)
      && DirtyOf(d, id) == DirtyOf(c, id).(w := true, h := true)
  {
    hide StepVisibility, StepFlag, StepLayout, StepFocus, StepMove, StepWindow, DoApplySettings, Sane, Quiet, ApplyHints;
  }

  lemma GeometryStep(c: Core, id: nat, pos: Vec, size: Vec)
    requires Sane(c) && id in c.tb.index
    ensures
      var w, d := c.tb.index[id], Step(c, CSetGeometry(id, pos, size));
      && id in d.tb.index && d.tb.index[id].geo.pos == pos
      && d.tb.index[id].geo.size == (if w.props.floating then ApplyHints(w, size) else size)
      && DirtyOf(d, id) == DirtyOf(c, id).(x := true, y := true, w := true, h := true)
  {
    hide StepVisibility, StepFlag, StepLayout, StepFocus, StepMove, StepWindow, DoApplySettings, Sane, Quiet, ApplyHints;
  }

  /** A size that was asked for, on a window whose hints apply or do not. */
  ghost predicate Granted(w: Window, hinted: bool, asked: Vec, got: Vec) {
    var h := w.props.hints;
    if !hinted then got == asked
    else
      && Fitted(asked.x, h.sizeMin.x, h.sizeMax.x, h.sizeInc.x, h.sizeBase.x, got.x)
      && Fitted(asked.y, h.sizeMin.y, h.sizeMax.y, h.sizeInc.y, h.sizeBase.y, got.y)
  }

  lemma HintsGranted(w: Window, asked: Vec)
    ensures Granted(w, true, asked, ApplyHints(w, asked))
  {
    hide HintAxis, Fitted;
    var h := w.props.hints;
    AxisFitted(asked.x, h.sizeMin.x, h.sizeMax.x, h.sizeInc.x, h.sizeBase.x);
    AxisFitted(asked.y, h.sizeMin.y, h.sizeMax.y, h.sizeInc.y, h.sizeBase.y);
  }

  predicate IsVec32(v: Vec) { IsInt32(v.x) && IsInt32(v.y) }

  /** A position that is commanded, flushed and handled is the position on both sides; the size is what it was heading for. */
  lemma PositionArrives(s: Link, id: nat, pos: Vec)
    requires InStep(s, id) && IsVec32(pos) && Representable(s.core.tb.index[id].geo)
    ensures Sane(s.core) && Sane(Commanded(s, CSetPosition(id, pos)).core)
    ensures BothAt(FlushedAndSettled(Commanded(s, CSetPosition(id, pos)), id), id, pos, Target(s, id).size)
  {
    hide Step, Inv, FlushedAndSettled, BothAt;
    InStepInv(s, id);
    InvSane(s.core);
    CommandInStep(s, CSetPosition(id, pos), id);
    PositionStep(s.core, id, pos);
    SettlesAt(Commanded(s, CSetPosition(id, pos)), id);
  }

  /** A size that is commanded arrives on both sides, as asked for or, for floating and borderless windows, as fitted. */
  lemma SizeArrives(s: Link, id: nat, size: Vec) returns (got: Vec)
    requires InStep(s, id) && Representable(s.core.tb.index[id].geo)
    ensures Sane(s.core) && Sane(Commanded(s, CSetSize(id, size)).core)
    ensures
      var w := s.core.tb.index[id];
      Granted(w, w.props.floating || w.props.borderless, size, got)
    ensures IsVec32(got) ==>
      BothAt(FlushedAndSettled(Commanded(s, CSetSize(id, size)), id), id, Target(s, id).pos, got)
  {
    hide Step, Inv, FlushedAndSettled, BothAt, ApplyHints, Fitted;
    InStepInv(s, id);
    InvSane(s.core);
    var w, t := s.core.tb.index[id], Commanded(s, CSetSize(id, size));
    CommandInStep(s, CSetSize(id, size), id);
    SizeStep(s.core, id, size);
    HintsGranted(w, size);
    got := t.core.tb.index[id].geo.size;
    InStepInv(t, id);
    InvSane(t.core);
    if IsVec32(got) {
      SameBorder(s.core, id, size);
      SettlesAt(t, id);
    }
  }

  lemma SameBorder(c: Core, id: nat, size: Vec)
    requires Sane(c) && id in c.tb.index
    ensures id in Step(c, CSetSize(id, size)).tb.index
    ensures Step(c, CSetSize(id, size)).tb.index[id].geo.border == c.tb.index[id].geo.border
    ensures forall pos :: id in Step(c, CSetGeometry(id, pos, size)).tb.index
    ensures forall pos :: Step(c, CSetGeometry(id, pos, size)).tb.index[id].geo.border == c.tb.index[id].geo.border
  {
    hide StepVisibility, StepFlag, StepLayout, StepFocus, StepMove, StepWindow, DoApplySettings, Sane, Quiet, ApplyHints;
  }

  /** Position and size together; only floating windows are fitted. */
  lemma GeometryArrives(s: Link, id: nat, pos: Vec, size: Vec) returns (got: Vec)
    requires InStep(s, id) && IsVec32(pos) && Representable(s.core.tb.index[id].geo)
    ensures Sane(s.core) && Sane(Commanded(s, CSetGeometry(id, pos, size)).core)
    ensures Granted(s.core.tb.index[id], s.core.tb.index[id].props.floating, size, got)
    ensures IsVec32(got) ==>
      BothAt(FlushedAndSettled(Commanded(s, CSetGeometry(id, pos, size)), id), id, pos, got)
  {
    hide Step, Inv, FlushedAndSettled, BothAt, ApplyHints, Fitted;
    InStepInv(s, id);
    InvSane(s.core);
    var w, t := s.core.tb.index[id], Commanded(s, CSetGeometry(id, pos, size));
    CommandInStep(s, CSetGeometry(id, pos, size), id);
    GeometryStep(s.core, id, pos, size);
    HintsGranted(w, size);
    got := t.core.tb.index[id].geo.size;
    InStepInv(t, id);
    InvSane(t.core);
    if IsVec32(got) {
      SameBorder(s.core, id, size);
      SettlesAt(t, id);
    }
  }
}
