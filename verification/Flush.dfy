/** Pending geometry changes of one window (WindowFlush in core/include/domain/core.hpp:75-92). */
module Flush {

  /** The dirty bits. */
  datatype Dirty = Dirty(x: bool, y: bool, w: bool, h: bool, border: bool)
  {
    function Or(d: Dirty): Dirty { Dirty(x || d.x, y || d.y, w || d.w, h || d.h, border || d.border) }

    predicate Any() { x || y || w || h || border }
  }

  const CLEAN := Dirty(false, false, false, false, false)
  const POSITION := Dirty(true, true, false, false, false)
  const SIZE := Dirty(false, false, true, true, false)
  const GEOMETRY := Dirty(true, true, true, true, false)
  const BORDER := Dirty(false, false, false, false, true)
}
