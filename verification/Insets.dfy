/**
 * Reserved screen areas over any sequence of reservations (core/src/core/core_dispatch.cpp:787-800,
 * core/src/core/workspace_manager.cpp:613-637, core/include/domain/monitor.hpp:24-31, 63-78).
 */
module Insets {
  import opened Monitors

  function Opposite(e: Edge): Edge {
    match e
    case Top => Bottom
    case Bottom => Top
    case Left => Right
    case Right => Left
  }

  /** How long a rectangle is along the axis of an edge. */
  function Extent(r: Rect, e: Edge): int { if e.Top? || e.Bottom? then r.h else r.w }

  /** A monitor of at least one pixel, with non-negative reservations. */
  predicate Proper(m: Monitor) {
    && m.top >= 0 && m.bottom >= 0 && m.left >= 0 && m.right >= 0 && m.w >= 0 && m.h >= 0
    && m.w + m.left + m.right >= 1 && m.h + m.top + m.bottom >= 1
  }

  datatype Request = Request(edge: Edge, px: int)

  /** A reservation that leaves room for the one at the opposite edge. */
  predicate Fits(m: Monitor, r: Request) {
    r.px >= 0 && r.px + m.Inset(Opposite(r.edge)) <= Extent(m.Physical(), r.edge)
  }

  /** A reservation leaves the monitor's surface alone exactly if it fits. */
  lemma ReserveKeepsPhysical(m: Monitor, r: Request)
    requires Proper(m) && r.px >= 0
    ensures Reserve(m, r.edge, r.px).Physical() == m.Physical() <==> Fits(m, r)
    ensures Fits(m, r) ==> Proper(Reserve(m, r.edge, r.px))
    ensures forall e :: Reserve(m, r.edge, r.px).Inset(e) == if e == r.edge then r.px else m.Inset(e)
  {
    forall e: Edge
      ensures Reserve(m, r.edge, r.px).Inset(e) == if e == r.edge then r.px else m.Inset(e)
    {
      InsetReserved(m, r, e);
    }
    match r.edge
    case Top =>
    case Bottom =>
    case Left =>
    case Right =>
  }

  lemma InsetReserved(m: Monitor, r: Request, e: Edge)
    ensures Reserve(m, r.edge, r.px).Inset(e) == if e == r.edge then r.px else m.Inset(e)
  {
  }

  /** One that does not: a bar of thirty pixels makes the surface of a monitor of twenty grow. */
  lemma BarTallerThanMonitor(m: Monitor)
    requires m.Usable() == Rect(0, 0, 100, 20) && m.top == m.bottom == m.left == m.right == 0
    ensures Proper(m) && m.Physical() == Rect(0, 0, 100, 20)
    ensures Reserve(m, Top, 30).Physical() == Rect(0, 0, 100, 30)
  {
    assert AdjustInset(m, Top, 30) == m.(y := 30, h := 0, top := 30);
  }

  function ReserveRun(m: Monitor, rs: seq<Request>): Monitor {
    if rs == [] then m
    else
      var b := ReserveRun(m, rs[..|rs| - 1]);
      Reserve(b, rs[|rs| - 1].edge, rs[|rs| - 1].px)
  }

  ghost predicate AllFit(m: Monitor, rs: seq<Request>) {
    forall k :: 0 <= k < |rs| ==> Fits(ReserveRun(m, rs[..k]), rs[k])
  }

  /** What an edge asked for last. */
  function LastAsked(rs: seq<Request>, e: Edge, initial: int): int {
    if rs == [] then initial
    else if rs[|rs| - 1].edge == e then rs[|rs| - 1].px
    else LastAsked(rs[..|rs| - 1], e, initial)
  }

  /** The surface minus what the four edges reserve. */
  function Minus(p: Rect, top: int, bottom: int, left: int, right: int): Rect {
    Rect(p.x + left, p.y + top, p.w - left - right, p.h - top - bottom)
  }

  /**
   * After any sequence of fitting reservations: the surface is unchanged, each edge reserves what it asked
   * for last, and the usable area is the surface minus the four reservations.
   */
  lemma {:induction false} ReservationsConserve(m: Monitor, rs: seq<Request>)
    requires Proper(m) && AllFit(m, rs)
    ensures
      var r := ReserveRun(m, rs);
      && Proper(r) && r.Physical() == m.Physical()
      && (forall e :: r.Inset(e) == LastAsked(rs, e, m.Inset(e)))
      && r.Usable() == Minus(m.Physical(), r.top, r.bottom, r.left, r.right)
  {
    hide Reserve, Fits, Proper;
    UsableIsRest(m);
    if rs != [] {
      var front, last := rs[..|rs| - 1], rs[|rs| - 1];
      assert forall k :: 0 <= k < |front| ==> front[..k] == rs[..k] && front[k] == rs[k];
      ReservationsConserve(m, front);
      FitsIsNonNegative(ReserveRun(m, front), last);
      ReserveKeepsPhysical(ReserveRun(m, front), last);
      UsableIsRest(ReserveRun(m, rs));
    }
  }

  lemma UsableIsRest(m: Monitor)
    requires Proper(m)
    ensures m.Usable() == Minus(m.Physical(), m.top, m.bottom, m.left, m.right)
  {
  }

  lemma FitsIsNonNegative(m: Monitor, r: Request)
    requires Fits(m, r)
    ensures r.px >= 0
  {
  }

  lemma {:induction false} RestUnchanged(m: Monitor, rs: seq<Request>)
    ensures ReserveRun(m, rs).name == m.name && ReserveRun(m, rs).activeWs == m.activeWs
  {
    if rs != [] {
      RestUnchanged(m, rs[..|rs| - 1]);
    }
  }

  /** Only the last word of each edge counts: the order in which the edges asked does not matter. */
  lemma OrderOfEdgesIrrelevant(m: Monitor, rs: seq<Request>, qs: seq<Request>)
    requires Proper(m) && AllFit(m, rs) && AllFit(m, qs)
    requires forall e :: LastAsked(rs, e, m.Inset(e)) == LastAsked(qs, e, m.Inset(e))
    ensures ReserveRun(m, rs) == ReserveRun(m, qs)
  {
    ReservationsConserve(m, rs);
    ReservationsConserve(m, qs);
    RestUnchanged(m, rs);
    RestUnchanged(m, qs);
    var r, q := ReserveRun(m, rs), ReserveRun(m, qs);
    assert r.Inset(Top) == q.Inset(Top) && r.Inset(Bottom) == q.Inset(Bottom);
    assert r.Inset(Left) == q.Inset(Left) && r.Inset(Right) == q.Inset(Right);
  }
}
