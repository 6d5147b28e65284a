/** The master/stack layout (core/include/domain/layout.hpp). */
module Tile {
  import opened Monitors

  type Positive = n: int | n >= 1 witness 1

  /** `nmaster` starts at 1 and only IncMaster changes it, never below 1. */
  datatype Config = Config(masterFactor: real, nmaster: Positive, gap: int, border: int)

  datatype Placement = Placement(win: nat, pos: Vec, size: Vec, border: int)
  {
    /** The outer rectangle: X draws the border outside the placed size. */
    function Outer(): Rect { Rect(pos.x, pos.y, size.x + 2 * border, size.y + 2 * border) }
  }

  // --- What the layout computes ------------------------------------------------------------------

  function Unit(n: nat, h: int, gap: int): int
    requires n > 0
  {
    TruncDiv(h - gap * (n - 1), n)
  }

  function CellHeight(n: nat, i: nat, h: int, gap: int): int
    requires i < n
  {
    var u := Unit(n, h, gap);
    if i == n - 1 then h - i * (u + gap) else u
  }

  function Cell(wins: seq<nat>, i: nat, area: Rect, gap: int, b: int): Placement
    requires i < |wins|
  {
    var u := Unit(|wins|, area.h, gap);
    Placement(wins[i], Vec(area.x, area.y + i * (u + gap)),
              Vec(Max(1, area.w - b * 2), Max(1, CellHeight(|wins|, i, area.h, gap) - b * 2)), Max(0, b))
  }

  /** The windows of one column, top to bottom, filling `area`. */
  function Column(wins: seq<nat>, area: Rect, gap: int, b: int): (r: seq<Placement>)
    ensures |r| == |wins| && forall i :: 0 <= i < |r| ==> r[i] == Cell(wins, i, area, gap, b)
  {
    seq(|wins|, i requires 0 <= i < |wins| => Cell(wins, i, area, gap, b))
  }

  /** The usable area of the monitor less one gap all round. */
  function Inner(mon: Monitor, gap: int): Rect {
    Rect(mon.x + gap, mon.y + gap, mon.w - gap * 2, mon.h - gap * 2)
  }

  function MasterWidth(inner: Rect, cfg: Config): int {
    Trunc(inner.w as real * cfg.masterFactor) - TruncDiv(cfg.gap, 2)
  }

  function MasterArea(inner: Rect, cfg: Config): Rect {
    inner.(w := MasterWidth(inner, cfg))
  }

  function StackArea(inner: Rect, cfg: Config): Rect {
    inner.(x := inner.x + MasterWidth(inner, cfg) + cfg.gap, w := inner.w - MasterWidth(inner, cfg) - cfg.gap)
  }

  function Placements(wins: seq<nat>, mon: Monitor, cfg: Config): seq<Placement>
  {
    var inner := Inner(mon, cfg.gap);
    if |wins| <= cfg.nmaster then Column(wins, inner, cfg.gap, cfg.border)
    else
      Column(wins[..cfg.nmaster], MasterArea(inner, cfg), cfg.gap, cfg.border) +
      Column(wins[cfg.nmaster..], StackArea(inner, cfg), cfg.gap, cfg.border)
  }

  /** layout::monocle. */
  function Monocle(wins: seq<nat>, mon: Monitor, b: int): seq<Placement> {
    seq(|wins|, i requires 0 <= i < |wins| =>
      Placement(wins[i], Vec(mon.x + b, mon.y + b), Vec(Max(1, mon.w - b * 2), Max(1, mon.h - b * 2)), Max(0, b)))
  }

  /** One of the three loops of layout::tile: place `wins` down a column that starts at (x, y). */
  method PlaceColumn(wins: seq<nat>, x: int, y: int, w: int, h: int, g: int, b: int, placed: seq<Placement>)
    returns (r: seq<Placement>)
    requires wins != []
    ensures r == placed + Column(wins, Rect(x, y, w, h), g, b)
  {
    r := placed;
    var n := |wins|;
    var unit := TruncDiv(h - g * (n - 1), n);
    for i := 0 to n
      invariant r == placed + Column(wins, Rect(x, y, w, h), g, b)[..i]
    {
      // What rounding leaves over goes to the last cell.
      var cellH := if i == n - 1 then h - i * (unit + g) else unit;
      r := r + [Placement(wins[i], Vec(x, y + i * (unit + g)),
                          Vec(Max(1, w - b * 2), Max(1, cellH - b * 2)), Max(0, b))];
    }
  }

  /** layout::tile, with the calls of its placement sink collected in order. */
  method Tile(wins: seq<nat>, mon: Monitor, cfg: Config) returns (placed: seq<Placement>)
    ensures placed == Placements(wins, mon, cfg)
  {
    placed := [];
    var n := |wins|;
    if n == 0 {
      return;
    }
    var b := cfg.border;
    var g := cfg.gap;
    var mx := mon.x + g;
    var my := mon.y + g;
    var mw := mon.w - g * 2;
    var mh := mon.h - g * 2;
    var nm := Min(cfg.nmaster, n);
    ghost var inner := Inner(mon, g);

    if n <= nm {
      assert Rect(mx, my, mw, mh) == inner;
      placed := PlaceColumn(wins, mx, my, mw, mh, g, b, placed);
      return;
    }

    var masterW := Trunc(mw as real * cfg.masterFactor) - TruncDiv(g, 2);
    var stackX := mx + masterW + g;
    var stackW := mw - masterW - g;
    assert Rect(mx, my, masterW, mh) == MasterArea(inner, cfg);
    assert Rect(stackX, my, stackW, mh) == StackArea(inner, cfg);
    placed := PlaceColumn(wins[..nm], mx, my, masterW, mh, g, b, placed);
    placed := PlaceColumn(wins[nm..], stackX, my, stackW, mh, g, b, placed);
  }

  // --- What the result means ---------------------------------------------------------------------

  function Outers(ps: seq<Placement>): (r: seq<Rect>)
    ensures |r| == |ps| && forall i :: 0 <= i < |ps| ==> r[i] == ps[i].Outer()
  {
    seq(|ps|, i requires 0 <= i < |ps| => ps[i].Outer())
  }

  /** The cells fill `area` exactly: full width, top to bottom, exactly one gap between neighbours. */
  ghost predicate Fills(cells: seq<Rect>, area: Rect, gap: int) {
    && cells != []
    && (forall i :: 0 <= i < |cells| ==> cells[i].x == area.x && cells[i].w == area.w)
    && cells[0].y == area.y
    && (forall i, j :: 0 <= i < |cells| && j == i + 1 < |cells| ==> cells[j].y == cells[i].y + cells[i].h + gap)
    && cells[|cells| - 1].y + cells[|cells| - 1].h == area.y + area.h
  }

  /** Enough room: a cell keeps at least one pixel inside its borders. */
  predicate Room(n: nat, area: Rect, gap: int, b: int)
    requires n > 0
  {
    area.w >= 2 * b + 1 && Unit(n, area.h, gap) >= 2 * b + 1
  }

  lemma UnitBounds(n: nat, h: int, gap: int)
    requires n > 0
    ensures Unit(n, h, gap) >= 1 ==>
      n * Unit(n, h, gap) <= h - gap * (n - 1) < n * Unit(n, h, gap) + n
  {
  }

  /** The last cell absorbs the rounding remainder: at least a unit, less than a unit plus the cell count. */
  lemma LastCellHeight(n: nat, h: int, gap: int)
    requires n > 0 && Unit(n, h, gap) >= 1
    ensures Unit(n, h, gap) <= CellHeight(n, n - 1, h, gap) < Unit(n, h, gap) + n
  {
    var u := Unit(n, h, gap);
    UnitBounds(n, h, gap);
    assert (n - 1) * (u + gap) == (n - 1) * u + (n - 1) * gap;
    assert (n - 1) * u == n * u - u && (n - 1) * gap == gap * (n - 1);
  }

  lemma StepDown(k: nat, s: int)
    ensures (k + 1) * s == k * s + s
  {
  }

  lemma ColumnFillsWithRoom(wins: seq<nat>, area: Rect, gap: int, b: int)
    requires wins != [] && b >= 0 && Room(|wins|, area, gap, b)
    ensures Fills(Outers(Column(wins, area, gap, b)), area, gap)
  {
    var n := |wins|;
    var cells := Outers(Column(wins, area, gap, b));
    var u := Unit(n, area.h, gap);
    LastCellHeight(n, area.h, gap);
    forall i, j | 0 <= i < n && j == i + 1 < n
      ensures cells[j].y == cells[i].y + cells[i].h + gap
    {
      StepDown(i, u + gap);
    }
  }

  lemma ColumnNeedsRoom(wins: seq<nat>, area: Rect, gap: int, b: int)
    requires wins != [] && b >= 0 && Fills(Outers(Column(wins, area, gap, b)), area, gap)
    ensures Room(|wins|, area, gap, b)
  {
    var cells := Outers(Column(wins, area, gap, b));
    assert cells[0].w == area.w;
    if |wins| > 1 {
      assert cells[1].y == area.y + 1 * (Unit(|wins|, area.h, gap) + gap);
      assert cells[1].y == cells[0].y + cells[0].h + gap;
    } else {
      assert Unit(1, area.h, gap) == area.h;
    }
  }

  /** A column fills its area exactly if and only if there is room for its cells. */
  lemma ColumnFills(wins: seq<nat>, area: Rect, gap: int, b: int)
    requires wins != [] && b >= 0
    ensures Fills(Outers(Column(wins, area, gap, b)), area, gap) <==> Room(|wins|, area, gap, b)
  {
    if Room(|wins|, area, gap, b) {
      ColumnFillsWithRoom(wins, area, gap, b);
    } else if Fills(Outers(Column(wins, area, gap, b)), area, gap) {
      ColumnNeedsRoom(wins, area, gap, b);
    }
  }

  /** The two columns share the inner area: side by side, one gap apart, full width and height. */
  ghost predicate Split(inner: Rect, master: Rect, stack: Rect, gap: int) {
    && master.x == inner.x && stack.x + stack.w == inner.x + inner.w
    && master.x + master.w + gap == stack.x
    && master.y == stack.y == inner.y && master.h == stack.h == inner.h
  }

  /** With half the gap, the master column is `factor` of the width, rounded down. */
  ghost predicate Share(master: Rect, inner: Rect, factor: real, gap: int) {
    inner.w >= 0 && factor >= 0.0 && gap >= 0 ==>
      exists half :: (gap == 2 * half || gap == 2 * half + 1) &&
        (master.w + half) as real <= inner.w as real * factor < (master.w + half) as real + 1.0
  }

  /** The cells tile the gap-inset area: the first `nmaster` in the master column, the rest in the stack. */
  ghost predicate Tiles(cells: seq<Rect>, mon: Monitor, cfg: Config)
  {
    var inner, k := Rect(mon.x + cfg.gap, mon.y + cfg.gap, mon.w - 2 * cfg.gap, mon.h - 2 * cfg.gap), cfg.nmaster;
    if |cells| <= k then Fills(cells, inner, cfg.gap)
    else
      exists master: Rect, stack: Rect ::
        Fills(cells[..k], master, cfg.gap) && Fills(cells[k..], stack, cfg.gap) &&
        Split(inner, master, stack, cfg.gap) && Share(master, inner, cfg.masterFactor, cfg.gap)
  }

  /** Everything the layout promises about the windows it places. */
  ghost predicate Exact(wins: seq<nat>, mon: Monitor, cfg: Config)
  {
    var ps := Placements(wins, mon, cfg);
    && |ps| == |wins|
    && (forall i :: 0 <= i < |wins| ==> ps[i].win == wins[i])
    && Tiles(Outers(ps), mon, cfg)
  }

  lemma MasterShare(inner: Rect, cfg: Config)
    ensures Share(MasterArea(inner, cfg), inner, cfg.masterFactor, cfg.gap)
  {
    var v, half := inner.w as real * cfg.masterFactor, TruncDiv(cfg.gap, 2);
    if inner.w >= 0 && cfg.masterFactor >= 0.0 && cfg.gap >= 0 {
      NotNegative(inner.w as real, cfg.masterFactor);
      assert MasterWidth(inner, cfg) + half == v.Floor;
      assert cfg.gap == 2 * half || cfg.gap == 2 * half + 1;
    }
  }

  lemma NotNegative(a: real, b: real)
    requires a >= 0.0 && b >= 0.0
    ensures a * b >= 0.0
  {
  }

  /** Enough room on the monitor, as the caller can check it before asking for the layout. */
  predicate RoomFor(n: nat, mon: Monitor, cfg: Config)
    requires n > 0
  {
    var inner, k := Inner(mon, cfg.gap), cfg.nmaster;
    if n <= k then Room(n, inner, cfg.gap, cfg.border)
    else Room(k, MasterArea(inner, cfg), cfg.gap, cfg.border) && Room(n - k, StackArea(inner, cfg), cfg.gap, cfg.border)
  }

  /** Columns that are filled and split the inner area are the master and the stack column. */
  lemma ColumnsForced(wins: seq<nat>, inner: Rect, cfg: Config, master: Rect, stack: Rect)
    requires cfg.border >= 0 && |wins| > cfg.nmaster
    requires Fills(Outers(Column(wins[..cfg.nmaster], MasterArea(inner, cfg), cfg.gap, cfg.border)), master, cfg.gap)
    requires Fills(Outers(Column(wins[cfg.nmaster..], StackArea(inner, cfg), cfg.gap, cfg.border)), stack, cfg.gap)
    requires Split(inner, master, stack, cfg.gap)
    ensures master == MasterArea(inner, cfg) && stack == StackArea(inner, cfg)
  {
    hide CellHeight, Unit, MasterWidth;
    var ms := Outers(Column(wins[..cfg.nmaster], MasterArea(inner, cfg), cfg.gap, cfg.border));
    var ss := Outers(Column(wins[cfg.nmaster..], StackArea(inner, cfg), cfg.gap, cfg.border));
    assert ms[0].x == master.x && ss[0].x == stack.x;
  }

  /** Two columns, one after the other. */
  lemma TwoColumns(wins: seq<nat>, mon: Monitor, cfg: Config)
    requires |wins| > cfg.nmaster
    ensures
      var inner, k, outers := Inner(mon, cfg.gap), cfg.nmaster, Outers(Placements(wins, mon, cfg));
      && |outers| == |wins|
      && outers[..k] == Outers(Column(wins[..k], MasterArea(inner, cfg), cfg.gap, cfg.border))
      && outers[k..] == Outers(Column(wins[k..], StackArea(inner, cfg), cfg.gap, cfg.border))
    ensures forall i :: 0 <= i < |wins| ==> Placements(wins, mon, cfg)[i].win == wins[i]
  {
    hide MasterArea, StackArea, Column;
    var inner, k := Inner(mon, cfg.gap), cfg.nmaster;
    ColumnWins(wins[..k], MasterArea(inner, cfg), cfg.gap, cfg.border);
    ColumnWins(wins[k..], StackArea(inner, cfg), cfg.gap, cfg.border);
  }

  lemma TwoColumnsTile(cells: seq<Rect>, mon: Monitor, cfg: Config)
    requires |cells| > cfg.nmaster
    requires Fills(cells[..cfg.nmaster], MasterArea(Inner(mon, cfg.gap), cfg), cfg.gap)
    requires Fills(cells[cfg.nmaster..], StackArea(Inner(mon, cfg.gap), cfg), cfg.gap)
    ensures Tiles(cells, mon, cfg)
  {
    hide Share, Fills, MasterArea, StackArea, Split;
    MasterShare(Inner(mon, cfg.gap), cfg);
    AreasSplit(Inner(mon, cfg.gap), cfg);
  }

  lemma TwoColumnsExact(wins: seq<nat>, mon: Monitor, cfg: Config)
    requires cfg.border >= 0 && |wins| > cfg.nmaster
    ensures Exact(wins, mon, cfg) <==> RoomFor(|wins|, mon, cfg)
  {
    hide Share, Fills, Room, Column, MasterArea, StackArea, Split, Placements;
    var inner, k, outers := Inner(mon, cfg.gap), cfg.nmaster, Outers(Placements(wins, mon, cfg));
    var m, s := MasterArea(inner, cfg), StackArea(inner, cfg);
    TwoColumns(wins, mon, cfg);
    ColumnFills(wins[..k], m, cfg.gap, cfg.border);
    ColumnFills(wins[k..], s, cfg.gap, cfg.border);
    if RoomFor(|wins|, mon, cfg) {
      TwoColumnsTile(outers, mon, cfg);
    } else if Tiles(outers, mon, cfg) {
      var master: Rect, stack: Rect :|
        Fills(outers[..k], master, cfg.gap) && Fills(outers[k..], stack, cfg.gap) &&
        Split(inner, master, stack, cfg.gap) && Share(master, inner, cfg.masterFactor, cfg.gap);
      ColumnsForced(wins, inner, cfg, master, stack);
    }
  }

  lemma ColumnWins(wins: seq<nat>, area: Rect, gap: int, b: int)
    ensures |Column(wins, area, gap, b)| == |wins|
    ensures forall i :: 0 <= i < |wins| ==> Column(wins, area, gap, b)[i].win == wins[i]
  {
  }

  lemma AreasSplit(inner: Rect, cfg: Config)
    ensures Split(inner, MasterArea(inner, cfg), StackArea(inner, cfg), cfg.gap)
  {
  }

  /** The windows tile the gap-inset monitor area exactly if and only if there is room for every cell. */
  lemma TileExact(wins: seq<nat>, mon: Monitor, cfg: Config)
    requires cfg.border >= 0 && wins != []
    ensures Exact(wins, mon, cfg) <==> RoomFor(|wins|, mon, cfg)
  {
    if |wins| <= cfg.nmaster {
      ColumnFills(wins, Inner(mon, cfg.gap), cfg.gap, cfg.border);
    } else {
      TwoColumnsExact(wins, mon, cfg);
    }
  }

  /** Without: on a monitor ten pixels wide, a window with a border of five is wider than the monitor. */
  lemma WiderThanMonitor(win: nat, mon: Monitor, cfg: Config)
    requires mon.Usable() == Rect(0, 0, 10, 100) && cfg.gap == 0 && cfg.border == 5
    ensures !Exact([win], mon, cfg)
    ensures |Placements([win], mon, cfg)| == 1 && Placements([win], mon, cfg)[0].Outer().w == 11
  {
    TileExact([win], mon, cfg);
  }

  predicate Disjoint(a: Rect, b: Rect) {
    a.x + a.w <= b.x || b.x + b.w <= a.x || a.y + a.h <= b.y || b.y + b.h <= a.y
  }

  predicate Inside(a: Rect, b: Rect) {
    b.x <= a.x && a.x + a.w <= b.x + b.w && b.y <= a.y && a.y + a.h <= b.y + b.h
  }

  /** In a filled column a lower cell starts at least a gap below the end of any higher one. */
  lemma {:induction false} FilledOrder(cells: seq<Rect>, area: Rect, gap: int, i: nat, j: nat)
    requires Fills(cells, area, gap) && gap >= 0 && (forall k :: 0 <= k < |cells| ==> cells[k].h > 0)
    requires i < j < |cells|
    ensures cells[i].y + cells[i].h + gap <= cells[j].y
    decreases j - i
  {
    if j > i + 1 {
      FilledOrder(cells, area, gap, i, j - 1);
    }
  }

  lemma FilledInside(cells: seq<Rect>, area: Rect, gap: int, i: nat)
    requires Fills(cells, area, gap) && gap >= 0 && (forall k :: 0 <= k < |cells| ==> cells[k].h > 0)
    requires i < |cells|
    ensures Inside(cells[i], area)
  {
    if i > 0 {
      FilledOrder(cells, area, gap, 0, i);
    }
    if i < |cells| - 1 {
      FilledOrder(cells, area, gap, i, |cells| - 1);
    }
  }

  lemma CellsPositive(wins: seq<nat>, area: Rect, gap: int, b: int)
    requires wins != [] && b >= 0
    ensures forall i :: 0 <= i < |wins| ==> Outers(Column(wins, area, gap, b))[i].h > 0
  {
  }

  /** With room, no two windows overlap and none leaves the gap-inset area of its monitor. */
  lemma TileDisjoint(wins: seq<nat>, mon: Monitor, cfg: Config, i: nat, j: nat)
    requires cfg.border >= 0 && cfg.gap >= 0 && wins != []
    requires RoomFor(|wins|, mon, cfg) && i < |wins| && j < |wins| && i != j
    ensures |Placements(wins, mon, cfg)| == |wins|
    ensures Inside(Placements(wins, mon, cfg)[i].Outer(), Inner(mon, cfg.gap))
    ensures Disjoint(Placements(wins, mon, cfg)[i].Outer(), Placements(wins, mon, cfg)[j].Outer())
  {
    var inner, k := Inner(mon, cfg.gap), cfg.nmaster;
    if |wins| <= k {
      ColumnDisjoint(wins, inner, cfg.gap, cfg.border, i, j);
    } else {
      var m, s := MasterArea(inner, cfg), StackArea(inner, cfg);
      if i < k {
        ColumnDisjoint(wins[..k], m, cfg.gap, cfg.border, i, if j < k then j else i);
      } else {
        ColumnDisjoint(wins[k..], s, cfg.gap, cfg.border, i - k, if j < k then i - k else j - k);
      }
    }
  }

  lemma ColumnDisjoint(wins: seq<nat>, area: Rect, gap: int, b: int, i: nat, j: nat)
    requires wins != [] && b >= 0 && gap >= 0 && Room(|wins|, area, gap, b) && i < |wins| && j < |wins|
    ensures Inside(Column(wins, area, gap, b)[i].Outer(), area)
    ensures Column(wins, area, gap, b)[j].Outer().x == area.x && Column(wins, area, gap, b)[j].Outer().w == area.w
    ensures i != j ==> Disjoint(Column(wins, area, gap, b)[i].Outer(), Column(wins, area, gap, b)[j].Outer())
  {
    var cells := Outers(Column(wins, area, gap, b));
    ColumnFills(wins, area, gap, b);
    CellsPositive(wins, area, gap, b);
    FilledInside(cells, area, gap, i);
    if i < j {
      FilledOrder(cells, area, gap, i, j);
    } else if j < i {
      FilledOrder(cells, area, gap, j, i);
    }
  }
}
