/**
 * What arranging does to the windows (core/src/core/core_dispatch.cpp:251-342): in the window table, the
 * tiled windows of every monitor tile its area, and all other windows keep their place.
 */
module ArrangeProofs {
  import opened Seqs
  import opened Monitors
  import opened Topology
  import opened TopologyProofs
  import opened Windows
  import opened Flush
  import Tile
  import opened Reducer
  import opened ReducerProofs

  // --- The windows that are tiled ----------------------------------------------------------------

  /** Visible, not floating, not covering the screen, and not in charge of its own geometry. */
  predicate Tileable(w: Window) {
    && w.vis.mapped && !w.vis.hiddenByWs && !w.vis.hiddenExplicitly
    && !w.props.floating && !w.props.fullscreen && !w.props.borderless
    && !w.props.selfManaged && !w.props.preservePosition
  }

  /** `tiles` are the windows of a workspace that are tiled, in the workspace's order. */
  ghost predicate TileList(index: Index, list: seq<nat>, tiles: seq<nat>) {
    && (forall id :: id in tiles <==> id in list && id in index && Tileable(index[id]))
    && Ordered(list, tiles)
  }

  ghost predicate Ordered(list: seq<nat>, tiles: seq<nat>) {
    forall i, j :: 0 <= i < j < |tiles| ==> IndexOf(list, tiles[i]) < IndexOf(list, tiles[j])
  }

  lemma {:induction false} LaidOutMembers(index: Index, list: seq<nat>, id: nat)
    ensures id in LaidOutIds(index, list) <==> id in list && id in index && Tileable(index[id])
  {
    if list != [] {
      LaidOutMembers(index, list[..|list| - 1], id);
      assert list == list[..|list| - 1] + [list[|list| - 1]];
    }
  }

  lemma IndexOfFront(front: seq<nat>, last: nat, id: nat)
    requires id in front
    ensures IndexOf(front + [last], id) == IndexOf(front, id)
  {
    var list, i := front + [last], IndexOf(front, id);
    assert list[i] == id && list[..i] == front[..i];
  }

  lemma {:induction false} LaidOutOrdered(index: Index, list: seq<nat>)
    requires Distinct(list)
    ensures Ordered(list, LaidOutIds(index, list))
  {
    hide IndexOf, LaidOut;
    if list != [] {
      var front, last := list[..|list| - 1], list[|list| - 1];
      LaidOutOrdered(index, front);
      assert list == front + [last];
      var ids := LaidOutIds(index, front);
      forall i | 0 <= i < |ids|
        ensures ids[i] in front && IndexOf(list, ids[i]) == IndexOf(front, ids[i]) < |front|
      {
        LaidOutMembers(index, front, ids[i]);
        assert ids[i] in ids;
        IndexOfFront(front, last, ids[i]);
      }
      IndexOfDistinct(list, |list| - 1);
    }
  }

  lemma LaidOutIsTileList(index: Index, list: seq<nat>)
    requires Distinct(list)
    ensures TileList(index, list, LaidOutIds(index, list))
  {
    hide LaidOutIds;
    LaidOutOrdered(index, list);
    forall id
      ensures id in LaidOutIds(index, list) <==> id in list && id in index && Tileable(index[id])
    {
      LaidOutMembers(index, list, id);
    }
  }

  lemma Ends(a: seq<nat>)
    ensures a != [] ==> a[0] in a && a[|a| - 1] in a && a == a[..|a| - 1] + [a[|a| - 1]]
  {
  }

  /** Nothing in `a` comes after its last element. */
  lemma LastIsLargest(list: seq<nat>, a: seq<nat>, id: nat)
    requires Ordered(list, a) && id in a
    ensures IndexOf(list, id) <= IndexOf(list, a[|a| - 1])
  {
    var i :| 0 <= i < |a| && a[i] == id;
    assert i < |a| - 1 || i == |a| - 1;
  }

  /** What is ordered by `list` is determined by its elements. */
  lemma {:induction false} OrderedUnique(list: seq<nat>, a: seq<nat>, b: seq<nat>)
    requires Ordered(list, a) && Ordered(list, b) && forall id :: id in a <==> id in b
    requires forall id :: id in b ==> id in list
    ensures a == b
    decreases |a|
  {
    hide Ordered, IndexOf;
    Ends(a);
    Ends(b);
    if a != [] {
      SameLast(list, a, b);
      var a', b' := a[..|a| - 1], b[..|b| - 1];
      OrderedFront(list, a);
      OrderedFront(list, b);
      OrderedUnique(list, a', b');
    }
  }

  lemma SameLast(list: seq<nat>, a: seq<nat>, b: seq<nat>)
    requires Ordered(list, a) && Ordered(list, b) && forall id :: id in a <==> id in b
    requires a != [] && b != [] && a[|a| - 1] in list && b[|b| - 1] in list
    ensures a[|a| - 1] == b[|b| - 1]
  {
    Ends(a);
    Ends(b);
    LastIsLargest(list, a, b[|b| - 1]);
    LastIsLargest(list, b, a[|a| - 1]);
  }

  lemma OrderedFront(list: seq<nat>, a: seq<nat>)
    requires Ordered(list, a) && a != []
    ensures
      var front := a[..|a| - 1];
      Ordered(list, front) && forall id :: id in front <==> id in a && id != a[|a| - 1]
  {
    LastNotBefore(list, a);
    Ends(a);
  }

  lemma LastNotBefore(list: seq<nat>, a: seq<nat>)
    requires Ordered(list, a) && a != []
    ensures a[|a| - 1] !in a[..|a| - 1]
  {
  }

  lemma TileListIs(index: Index, list: seq<nat>, tiles: seq<nat>)
    requires Distinct(list) && TileList(index, list, tiles)
    ensures tiles == LaidOutIds(index, list) && Distinct(tiles)
  {
    hide LaidOutIds, LaidOut;
    LaidOutIsTileList(index, list);
    OrderedUnique(list, tiles, LaidOutIds(index, list));
  }

  // --- One placement after the other -------------------------------------------------------------

  /** Where a placement puts a window; one of fixed size keeps the size it has. */
  function PlacedGeometry(w: Window, p: Tile.Placement): Geometry {
    var locked := w.props.sizeLocked && w.geo.size.x > 0 && w.geo.size.y > 0;
    Geometry(p.pos, if locked then w.geo.size else p.size, p.border)
  }

  lemma PlaceOneGeometry(c: Core, p: Tile.Placement, id: nat)
    requires id in c.tb.index && (id == p.win ==> !c.tb.index[id].props.floating)
    ensures id in PlaceOne(c, p).tb.index
    ensures PlaceOne(c, p).tb.index[id].geo ==
      if id == p.win then PlacedGeometry(c.tb.index[id], p) else c.tb.index[id].geo
  {
    hide ApplyHints, Quiet;
  }

  ghost predicate DistinctWins(ps: seq<Tile.Placement>) {
    forall i, j :: 0 <= i < j < |ps| ==> ps[i].win != ps[j].win
  }

  lemma {:induction false} PlaceUpToGeometry(c: Core, ps: seq<Tile.Placement>, k: nat, id: nat)
    requires k <= |ps| && DistinctWins(ps) && id in c.tb.index
    requires (exists i :: 0 <= i < |ps| && ps[i].win == id) ==> !c.tb.index[id].props.floating
    ensures id in PlaceUpTo(c, ps, k).tb.index
    ensures (forall i :: 0 <= i < k ==> ps[i].win != id) ==> PlaceUpTo(c, ps, k).tb.index[id].geo == c.tb.index[id].geo
    ensures forall i :: 0 <= i < k && ps[i].win == id ==>
      PlaceUpTo(c, ps, k).tb.index[id].geo == PlacedGeometry(c.tb.index[id], ps[i])
  {
    hide PlaceOne, Quiet;
    if k > 0 {
      var d := PlaceUpTo(c, ps, k - 1);
      PlaceUpToGeometry(c, ps, k - 1, id);
      FlagsKept(c, d, id);
      PlaceOneGeometry(d, ps[k - 1], id);
    }
  }

  lemma FlagsKept(c: Core, d: Core, id: nat)
    requires Quiet(c, d) && id in c.tb.index
    ensures id in d.tb.index && SameFlags(c.tb.index[id], d.tb.index[id])
  {
  }

  // --- Borders of floating windows ---------------------------------------------------------------

  /** A visible floating window that does not cover the screen gets the theme's border. */
  predicate Bordered(w: Window) { w.Visible() && w.props.floating && !w.Covers() }

  function BorderedGeometry(c: Core, w: Window): Geometry {
    if Bordered(w) then w.geo.(border := c.settings.borderThickness % 0x1_0000_0000) else w.geo
  }

  lemma {:induction false} BorderUpToGeometry(c: Core, list: seq<nat>, k: nat, id: nat)
    requires k <= |list| && id in c.tb.index
    ensures id in BorderUpTo(c, list, k).tb.index
    ensures BorderUpTo(c, list, k).tb.index[id].geo ==
      if id in list[..k] then BorderedGeometry(c, c.tb.index[id]) else c.tb.index[id].geo
  {
    hide BorderOne, Quiet;
    if k > 0 {
      var d := BorderUpTo(c, list, k - 1);
      BorderUpToGeometry(c, list, k - 1, id);
      FlagsKept(c, d, id);
      SameSettings(c, d);
      BorderOneGeometry(d, list[k - 1], id);
      assert list[..k] == list[..k - 1] + [list[k - 1]];
    }
  }

  lemma SameSettings(c: Core, d: Core)
    requires Quiet(c, d)
    ensures d.settings == c.settings && d.topo == c.topo && d.tb.lists == c.tb.lists && d.tb.home == c.tb.home
    ensures d.layout == c.layout && d.masterFactor == c.masterFactor && d.nmaster == c.nmaster
    ensures d.tb.cursors == c.tb.cursors && |d.modes| == |c.modes|
  {
  }

  lemma BorderOneGeometry(c: Core, win: nat, id: nat)
    requires id in c.tb.index
    ensures id in BorderOne(c, win).tb.index
    ensures BorderOne(c, win).tb.index[id].geo ==
      if id == win then BorderedGeometry(c, c.tb.index[id]) else c.tb.index[id].geo
  {
    hide Quiet;
  }

  // --- One monitor -------------------------------------------------------------------------------

  lemma PlacementWins(c: Core, wins: seq<nat>, mon: Monitor)
    requires Distinct(wins)
    ensures
      var ps := LayoutPlacements(c, wins, mon);
      && DistinctWins(ps) && (c.layout == "tile" || c.layout == "monocle" ==> |ps| == |wins|) && |ps| <= |wins|
      && forall i :: 0 <= i < |ps| ==> ps[i].win == wins[i]
  {
    if c.layout == "tile" {
      TileWins(wins, mon, LayoutConfig(c));
    }
  }

  lemma TileWins(wins: seq<nat>, mon: Monitor, cfg: Tile.Config)
    ensures |Tile.Placements(wins, mon, cfg)| == |wins|
    ensures forall i :: 0 <= i < |wins| ==> Tile.Placements(wins, mon, cfg)[i].win == wins[i]
  {
    if |wins| > cfg.nmaster {
      Tile.TwoColumns(wins, mon, cfg);
    }
  }

  /** The geometry a window of the shown workspace gets, given the placements of the tiled ones. */
  ghost predicate ArrangedAs(c: Core, list: seq<nat>, ps: seq<Tile.Placement>, id: nat, g: Geometry)
    requires id in c.tb.index
  {
    var w := c.tb.index[id];
    && (forall i :: 0 <= i < |ps| && ps[i].win == id ==> g == PlacedGeometry(w, ps[i]))
    && ((forall i :: 0 <= i < |ps| ==> ps[i].win != id) ==> g == if id in list then BorderedGeometry(c, w) else w.geo)
  }

  lemma ArrangeMonitorGeometry(c: Core, mon: Monitor, id: nat)
    requires id in c.tb.index && 0 <= mon.activeWs < |c.tb.lists| && Distinct(c.tb.lists[mon.activeWs])
    ensures
      var list := c.tb.lists[mon.activeWs];
      && id in ArrangeMonitor(c, mon).tb.index
      && ArrangedAs(c, list, LayoutPlacements(c, LaidOutIds(c.tb.index, list), mon), id, ArrangeMonitor(c, mon).tb.index[id].geo)
  {
    hide PlaceUpTo, BorderUpTo, LayoutPlacements, LaidOutIds, Quiet;
    var list := c.tb.lists[mon.activeWs];
    var wins := LaidOutIds(c.tb.index, list);
    var ps := LayoutPlacements(c, wins, mon);
    LaidOutIsTileList(c.tb.index, list);
    TileListIs(c.tb.index, list, wins);
    PlacementWins(c, wins, mon);
    forall i | 0 <= i < |ps|
      ensures ps[i].win in list && !Bordered(c.tb.index[ps[i].win]) && !c.tb.index[ps[i].win].props.floating
    {
      assert wins[i] in wins;
    }
    PlaceUpToGeometry(c, ps, |ps|, id);
    var d := PlaceUpTo(c, ps, |ps|);
    FlagsKept(c, d, id);
    SameSettings(c, d);
    BorderUpToGeometry(d, list, |list|, id);
    assert list[..|list|] == list;
    if !Bordered(d.tb.index[id]) {
      UnborderedStays(d, d.tb.index[id]);
    }
  }

  lemma UnborderedStays(c: Core, w: Window)
    requires !Bordered(w)
    ensures BorderedGeometry(c, w) == w.geo
  {
  }

  // --- All monitors ------------------------------------------------------------------------------

  /** Windows are the same but for geometry, so the same ones are laid out. */
  lemma {:induction false} SameLaidOut(a: Index, b: Index, list: seq<nat>)
    requires SameWindows(a, b)
    ensures LaidOutIds(a, list) == LaidOutIds(b, list)
  {
    if list != [] {
      SameLaidOut(a, b, list[..|list| - 1]);
      var id := list[|list| - 1];
      assert id in a ==> SameFlags(a[id], b[id]);
    }
  }

  lemma ShownIndex(c: Core, m: int)
    requires Inv(c) && 0 <= m < |c.topo.monitors| && c.topo.monitors[m].activeWs >= 0
    ensures c.topo.monitors[m].activeWs < |c.tb.lists| && Distinct(c.tb.lists[c.topo.monitors[m].activeWs])
  {
    ShownByOwner(c.topo, m);
    assert ListOk(c.tb, c.topo.monitors[m].activeWs);
  }

  lemma HomeList(c: Core, id: nat, ws: int)
    requires Inv(c) && id in c.tb.index && 0 <= ws < |c.tb.lists|
    ensures id in c.tb.home && (id in c.tb.lists[ws] <==> c.tb.home[id] == ws)
  {
    assert ListOk(c.tb, ws);
  }

  /** A monitor that shows another workspace, or none, leaves the window alone. */
  lemma OtherMonitor(c: Core, m: int, id: nat)
    requires Inv(c) && id in c.tb.index && 0 <= m < |c.topo.monitors|
    requires id in c.tb.home && c.topo.monitors[m].activeWs != c.tb.home[id]
    ensures
      var d := ArrangeMonitor(c, c.topo.monitors[m]);
      id in d.tb.index && d.tb.index[id].geo == c.tb.index[id].geo
  {
    hide ArrangeMonitor, LayoutPlacements, LaidOutIds, Inv;
    var mon := c.topo.monitors[m];
    if mon.activeWs >= 0 {
      ShownIndex(c, m);
      var list := c.tb.lists[mon.activeWs];
      HomeList(c, id, mon.activeWs);
      LaidOutIsTileList(c.tb.index, list);
      var wins := LaidOutIds(c.tb.index, list);
      TileListIs(c.tb.index, list, wins);
      PlacementWins(c, wins, mon);
      forall i | 0 <= i < |LayoutPlacements(c, wins, mon)|
        ensures LayoutPlacements(c, wins, mon)[i].win != id
      {
        assert wins[i] in wins;
      }
      ArrangeMonitorGeometry(c, mon, id);
    } else {
      NothingShown(c, mon);
    }
  }

  lemma NothingShown(c: Core, mon: Monitor)
    requires mon.activeWs < 0
    ensures ArrangeMonitor(c, mon) == c
  {
  }

  /** What one monitor does depends on the window alone, not on the monitors arranged before it. */
  lemma ThisMonitor(c: Core, b: Core, m: int, id: nat)
    requires Inv(c) && Quiet(c, b) && id in c.tb.index && 0 <= m < |c.topo.monitors|
    requires id in c.tb.home && c.topo.monitors[m].activeWs == c.tb.home[id]
    requires id in b.tb.index && b.tb.index[id].geo == c.tb.index[id].geo
    ensures 0 <= c.tb.home[id] < |c.tb.lists|
    ensures
      var d, list := ArrangeMonitor(b, c.topo.monitors[m]), c.tb.lists[c.tb.home[id]];
      && id in d.tb.index
      && ArrangedAs(c, list, LayoutPlacements(c, LaidOutIds(c.tb.index, list), c.topo.monitors[m]), id, d.tb.index[id].geo)
  {
    hide ArrangeMonitor, LaidOutIds, Inv, Quiet;
    InvHome(c, id);
    var mon := c.topo.monitors[m];
    var list := c.tb.lists[mon.activeWs];
    SameSettings(c, b);
    FlagsKept(c, b, id);
    ShownIndex(c, m);
    ArrangeMonitorGeometry(b, mon, id);
    QuietWindows(c, b);
    SameLaidOut(c.tb.index, b.tb.index, list);
    SamePlacements(c, b, LaidOutIds(c.tb.index, list), mon);
  }

  lemma QuietWindows(c: Core, d: Core)
    requires Quiet(c, d)
    ensures SameWindows(c.tb.index, d.tb.index)
  {
  }

  lemma SamePlacements(c: Core, d: Core, wins: seq<nat>, mon: Monitor)
    requires d.layout == c.layout && d.masterFactor == c.masterFactor && d.nmaster == c.nmaster && d.settings == c.settings
    ensures LayoutPlacements(d, wins, mon) == LayoutPlacements(c, wins, mon)
  {
  }

  lemma InvHome(c: Core, id: nat)
    requires Inv(c) && id in c.tb.index
    ensures id in c.tb.home && 0 <= c.tb.home[id] < |c.tb.lists| && id in c.tb.lists[c.tb.home[id]]
  {
  }

  /** The monitor that shows the window's workspace decides; before its turn and on all others nothing happens. */
  lemma {:induction false} ArrangeUpToGeometry(c: Core, k: nat, id: nat)
    requires Inv(c) && id in c.tb.index && k <= |c.topo.monitors|
    ensures
      var d := ArrangeUpTo(c, k);
      && id in c.tb.home && 0 <= c.tb.home[id] < |c.tb.lists| && id in d.tb.index && Inv(d)
      && ((forall m :: 0 <= m < k ==> c.topo.monitors[m].activeWs != c.tb.home[id]) ==>
            d.tb.index[id].geo == c.tb.index[id].geo)
      && (forall m :: 0 <= m < k && c.topo.monitors[m].activeWs == c.tb.home[id] ==>
            var list := c.tb.lists[c.tb.home[id]];
            ArrangedAs(c, list, LayoutPlacements(c, LaidOutIds(c.tb.index, list), c.topo.monitors[m]), id, d.tb.index[id].geo))
  {
    hide ArrangeMonitor, ArrangedAs, LayoutPlacements, LaidOutIds, Inv, Quiet;
    InvHome(c, id);
    if k > 0 {
      ArrangeUpToGeometry(c, k - 1, id);
      var b := ArrangeUpTo(c, k - 1);
      SameSettings(c, b);
      QuietInv(c, ArrangeUpTo(c, k));
      if c.topo.monitors[k - 1].activeWs == c.tb.home[id] {
        forall m | 0 <= m < k - 1
          ensures c.topo.monitors[m].activeWs != c.tb.home[id]
        {
          ShownOnce(c, m, k - 1);
        }
        ThisMonitor(c, b, k - 1, id);
      } else {
        OtherMonitor(b, k - 1, id);
      }
    }
  }

  lemma ShownOnce(c: Core, m: int, k: int)
    requires Inv(c) && 0 <= m < k < |c.topo.monitors| && c.topo.monitors[k].activeWs >= 0
    ensures c.topo.monitors[m].activeWs != c.topo.monitors[k].activeWs
  {
    if c.topo.monitors[m].activeWs == c.topo.monitors[k].activeWs {
      NoWorkspaceShownTwice(c.topo, m, k);
    }
  }

  // --- What arranging means ----------------------------------------------------------------------

  function TileConfig(c: Core): Tile.Config {
    Tile.Config(c.masterFactor, c.nmaster, c.settings.gap, c.settings.borderThickness)
  }

  lemma ArrangedGeometry(c: Core, m: int, id: nat)
    requires Inv(c) && id in c.tb.index && KnownLayout(c.layout) && 0 <= m < |c.topo.monitors|
    requires id in c.tb.home && c.topo.monitors[m].activeWs == c.tb.home[id]
    ensures
      var d := Arrange(c);
      && 0 <= c.tb.home[id] < |c.tb.lists| && id in d.tb.index && Distinct(c.tb.lists[c.tb.home[id]])
      && var list := c.tb.lists[c.tb.home[id]];
         ArrangedAs(c, list, LayoutPlacements(c, LaidOutIds(c.tb.index, list), c.topo.monitors[m]), id, d.tb.index[id].geo)
  {
    hide ArrangeUpTo, ArrangedAs, LayoutPlacements, LaidOutIds, Inv, Quiet;
    ArrangeUpToGeometry(c, |c.topo.monitors|, id);
    ShownIndex(c, m);
  }

  /** In layout "tile" the i-th tiled window of a monitor gets the i-th cell; one of fixed size only its position. */
  lemma TilePlaced(c: Core, m: int, tiles: seq<nat>, i: nat)
    requires Inv(c) && c.layout == "tile" && 0 <= m < |c.topo.monitors| && 0 <= c.topo.monitors[m].activeWs < |c.tb.lists|
    requires TileList(c.tb.index, c.tb.lists[c.topo.monitors[m].activeWs], tiles) && i < |tiles|
    ensures |Tile.Placements(tiles, c.topo.monitors[m], TileConfig(c))| == |tiles|
    ensures
      var d, id := Arrange(c), tiles[i];
      var cell := Tile.Placements(tiles, c.topo.monitors[m], TileConfig(c))[i];
      && id in c.tb.index && id in d.tb.index
      && d.tb.index[id].geo == PlacedGeometry(c.tb.index[id], cell)
  {
    hide Arrange, LaidOutIds, Inv, Tile.Placements, PlacedGeometry;
    var ws, id := c.topo.monitors[m].activeWs, tiles[i];
    assert id in tiles;
    HomeList(c, id, ws);
    ArrangedGeometry(c, m, id);
    TileListIs(c.tb.index, c.tb.lists[ws], tiles);
    TileWins(tiles, c.topo.monitors[m], TileConfig(c));
    var ps := LayoutPlacements(c, tiles, c.topo.monitors[m]);
    assert ps == Tile.Placements(tiles, c.topo.monitors[m], TileConfig(c)) && ps[i].win == id;
  }

  /** The outer rectangles of windows: X draws the border outside the position and size. */
  function OuterRects(index: Index, ids: seq<nat>): (r: seq<Rect>)
    requires forall i :: 0 <= i < |ids| ==> ids[i] in index
    ensures |r| == |ids|
    ensures forall i :: 0 <= i < |ids| ==>
      var g := index[ids[i]].geo;
      r[i] == Rect(g.pos.x, g.pos.y, g.size.x + 2 * g.border, g.size.y + 2 * g.border)
  {
    seq(|ids|, i requires 0 <= i < |ids| =>
      var g := index[ids[i]].geo;
      Rect(g.pos.x, g.pos.y, g.size.x + 2 * g.border, g.size.y + 2 * g.border))
  }

  /** A window whose own size is honoured. */
  predicate Locked(w: Window) { w.props.sizeLocked && w.geo.size.x > 0 && w.geo.size.y > 0 }

  /**
   * Arranging in layout "tile": on every monitor that shows a workspace, the outer rectangles that the
   * window table then holds for its tiled windows, in list order, tile the gap-inset area - master column
   * and stack - if and only if there is room for every cell. (Fixed-size windows keep their size instead.)
   */
  lemma ArrangeTiles(c: Core, m: int, tiles: seq<nat>)
    requires Inv(c) && c.layout == "tile" && 0 <= m < |c.topo.monitors| && 0 <= c.topo.monitors[m].activeWs < |c.tb.lists|
    requires TileList(c.tb.index, c.tb.lists[c.topo.monitors[m].activeWs], tiles) && tiles != []
    requires c.settings.borderThickness >= 0
    requires forall i :: 0 <= i < |tiles| && tiles[i] in c.tb.index ==> !Locked(c.tb.index[tiles[i]])
    ensures forall i :: 0 <= i < |tiles| ==> tiles[i] in Arrange(c).tb.index
    ensures Tile.Tiles(OuterRects(Arrange(c).tb.index, tiles), c.topo.monitors[m], TileConfig(c)) <==>
      Tile.RoomFor(|tiles|, c.topo.monitors[m], TileConfig(c))
  {
    hide Arrange, Inv, TileList, Tile.Placements, Tile.Tiles, Tile.RoomFor;
    var mon, cfg := c.topo.monitors[m], TileConfig(c);
    var ps := Tile.Placements(tiles, mon, cfg);
    Tile.TileExact(tiles, mon, cfg);
    TileWins(tiles, mon, cfg);
    forall i | 0 <= i < |tiles|
      ensures tiles[i] in Arrange(c).tb.index
      ensures Arrange(c).tb.index[tiles[i]].geo == Geometry(ps[i].pos, ps[i].size, ps[i].border)
    {
      TilePlaced(c, m, tiles, i);
    }
    assert OuterRects(Arrange(c).tb.index, tiles) == Tile.Outers(ps);
  }

  /** In layout "monocle" every tiled window takes the whole usable area, moved and shrunk by its border. */
  lemma MonoclePlaced(c: Core, m: int, id: nat)
    requires Inv(c) && c.layout == "monocle" && 0 <= m < |c.topo.monitors| && id in c.tb.index && Tileable(c.tb.index[id])
    requires id in c.tb.home && c.topo.monitors[m].activeWs == c.tb.home[id] && !Locked(c.tb.index[id])
    ensures
      var d, mon, b := Arrange(c), c.topo.monitors[m], c.settings.borderThickness;
      && id in d.tb.index
      && d.tb.index[id].geo ==
           Geometry(Vec(mon.x + b, mon.y + b), Vec(Max(1, mon.w - 2 * b), Max(1, mon.h - 2 * b)), Max(0, b))
  {
    hide Arrange, LaidOutIds, Inv;
    ArrangedGeometry(c, m, id);
    InvHome(c, id);
    var list, mon, b := c.tb.lists[c.tb.home[id]], c.topo.monitors[m], c.settings.borderThickness;
    LaidOutIsTileList(c.tb.index, list);
    var wins := LaidOutIds(c.tb.index, list);
    var i :| 0 <= i < |wins| && wins[i] == id;
    var ps := LayoutPlacements(c, wins, mon);
    assert ps[i] == Tile.Placement(id, Vec(mon.x + b, mon.y + b), Vec(Max(1, mon.w - b * 2), Max(1, mon.h - b * 2)), Max(0, b));
  }

  /** Some monitor shows the workspace. */
  predicate OnDisplay(c: Core, ws: int) { exists m | 0 <= m < |c.topo.monitors| :: c.topo.monitors[m].activeWs == ws }

  /**
   * Every other window keeps its position and size: floating ones, those that cover the screen or own their
   * geometry, invisible ones, and all windows of workspaces that are not shown. Its border stays too, unless
   * it floats visibly on a monitor; then it is the theme's.
   */
  lemma ArrangeLeaves(c: Core, id: nat)
    requires Inv(c) && id in c.tb.index && id in c.tb.home
    requires !Tileable(c.tb.index[id]) || !OnDisplay(c, c.tb.home[id])
    ensures
      var d, w := Arrange(c), c.tb.index[id];
      && id in d.tb.index && d.tb.index[id].geo.pos == w.geo.pos && d.tb.index[id].geo.size == w.geo.size
      && d.tb.index[id].geo.border ==
           if KnownLayout(c.layout) && OnDisplay(c, c.tb.home[id]) && Bordered(w)
           then c.settings.borderThickness % 0x1_0000_0000 else w.geo.border
  {
    hide ArrangeUpTo, LaidOutIds, Inv, LayoutPlacements, Quiet;
    if KnownLayout(c.layout) {
      ArrangeUpToGeometry(c, |c.topo.monitors|, id);
      InvHome(c, id);
      if OnDisplay(c, c.tb.home[id]) {
        var m :| 0 <= m < |c.topo.monitors| && c.topo.monitors[m].activeWs == c.tb.home[id];
        ShownIndex(c, m);
        var list, mon := c.tb.lists[c.tb.home[id]], c.topo.monitors[m];
        LaidOutIsTileList(c.tb.index, list);
        var wins := LaidOutIds(c.tb.index, list);
        TileListIs(c.tb.index, list, wins);
        PlacementWins(c, wins, mon);
        forall i | 0 <= i < |LayoutPlacements(c, wins, mon)|
          ensures LayoutPlacements(c, wins, mon)[i].win != id
        {
          assert wins[i] in wins;
        }
      }
    }
  }

  /** Layout "unmanaged", or a name that is no layout, moves and resizes nothing. */
  lemma UnmanagedLeaves(c: Core, id: nat)
    requires Inv(c) && id in c.tb.index && c.layout != "tile" && c.layout != "monocle"
    ensures
      var d, w := Arrange(c), c.tb.index[id];
      id in d.tb.index && d.tb.index[id].geo.pos == w.geo.pos && d.tb.index[id].geo.size == w.geo.size
  {
    hide ArrangeUpTo, LaidOutIds, Inv, Quiet;
    if KnownLayout(c.layout) {
      ArrangeUpToGeometry(c, |c.topo.monitors|, id);
    }
  }
}
