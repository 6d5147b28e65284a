/** A monitor and the areas reserved at its edges (core/include/domain/monitor.hpp). */
module Monitors {

  datatype Edge = Top | Bottom | Left | Right

  datatype Vec = Vec(x: int, y: int)

  datatype Rect = Rect(x: int, y: int, w: int, h: int)

  /** `x, y, w, h` is the usable area: reserved edges are already subtracted. */
  datatype Monitor = Monitor(
    name: string, x: int, y: int, w: int, h: int, activeWs: int,
    top: int, bottom: int, left: int, right: int)
  {
    function Inset(e: Edge): int {
      match e
      case Top => top
      case Bottom => bottom
      case Left => left
      case Right => right
    }

    function Usable(): Rect { Rect(x, y, w, h) }

    /** The whole monitor surface, recovered from the usable area. */
    function Physical(): Rect {
      var (t, b, l, r) := (Max(0, top), Max(0, bottom), Max(0, left), Max(0, right));
      Rect(x - l, y - t, Max(1, w + l + r), Max(1, h + t + b))
    }
  }

  function Max(a: int, b: int): int { if a < b then b else a }

  function Min(a: int, b: int): int { if a < b then a else b }

  /** C++ integer division, which rounds toward zero. */
  function TruncDiv(a: int, b: int): int
    requires b > 0
  {
    if a >= 0 then a / b else -((-a) / b)
  }

  /** C++ conversion of a real number to an integer. */
  function Trunc(r: real): int { if r >= 0.0 then r.Floor else -((-r).Floor) }

  /** adjust_monitor_inset: one edge's reservation grows by `delta` and the usable area shrinks by it. */
  function AdjustInset(m: Monitor, e: Edge, delta: int): Monitor {
    match e
    case Top => m.(y := m.y + delta, h := Max(0, m.h - delta), top := m.top + delta)
    case Bottom => m.(h := Max(0, m.h - delta), bottom := m.bottom + delta)
    case Left => m.(x := m.x + delta, w := Max(0, m.w - delta), left := m.left + delta)
    case Right => m.(w := Max(0, m.w - delta), right := m.right + delta)
  }

  /** ReserveMonitorArea on one monitor: edge `e` reserves `px` from now on. */
  function Reserve(m: Monitor, e: Edge, px: int): Monitor {
    if px == m.Inset(e) then m else AdjustInset(m, e, px - m.Inset(e))
  }
}
