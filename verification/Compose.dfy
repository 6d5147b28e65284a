/**
 * Monitor composition (core/src/monitor_layout.cpp): where each monitor lies, given a user-supplied graph
 * that places monitors beside one another. The graph may be cyclic, dangling or incomplete.
 */
module Compose {
  import opened Monitors
  import opened Config

  // --- The graph ---------------------------------------------------------------------------------

  datatype Graph = Graph(
    byAlias: map<string, MonitorAlias>, byMonitor: map<string, MonitorComposeLink>, primary: string)

  /** by_alias: of two entries with one name the later one counts. */
  function AliasMap(aliases: seq<MonitorAlias>): (m: map<string, MonitorAlias>)
    ensures forall name :: name in m <==> exists i | 0 <= i < |aliases| :: aliases[i].alias == name
  {
    if aliases == [] then map[]
    else
      var a := aliases[|aliases| - 1];
      AliasMap(aliases[..|aliases| - 1])[a.alias := a]
  }

  function LinkMap(links: seq<MonitorComposeLink>): (m: map<string, MonitorComposeLink>)
    ensures forall name :: name in m <==> exists i | 0 <= i < |links| :: links[i].monitor == name
  {
    if links == [] then map[]
    else
      var l := links[|links| - 1];
      LinkMap(links[..|links| - 1])[l.monitor := l]
  }

  function GraphOf(aliases: seq<MonitorAlias>, compose: MonitorCompose): Graph {
    Graph(AliasMap(aliases), LinkMap(compose.layout), compose.primary)
  }

  predicate ValidSide(s: string) { s == "left" || s == "right" || s == "top" || s == "bottom" }

  function Anchor(g: Graph, name: string): string
    requires name in g.byMonitor
  {
    g.byMonitor[name].relativeTo
  }

  predicate Rooted(g: Graph, name: string) { name in g.byAlias && name == g.primary }

  predicate Linked(g: Graph, name: string) {
    name in g.byAlias && name in g.byMonitor && name != g.primary && Anchor(g, name) != "" &&
    ValidSide(g.byMonitor[name].side)
  }

  /** `k` valid links lead from `name` to the primary monitor. */
  predicate Reaches(g: Graph, name: string, k: nat)
    decreases k
  {
    if k == 0 then Rooted(g, name) else Linked(g, name) && Reaches(g, Anchor(g, name), k - 1)
  }

  ghost predicate Reachable(g: Graph, name: string) { exists k: nat :: Reaches(g, name, k) }

  predicate IsRotated(rotation: string) { rotation == "left" || rotation == "right" }

  function RotatedSize(a: MonitorAlias): Vec {
    if IsRotated(a.rotation) then Vec(a.height, a.width) else Vec(a.width, a.height)
  }

  function Add(a: Vec, b: Vec): Vec { Vec(a.x + b.x, a.y + b.y) }

  /** How far a monitor lies from its anchor: on the side it asks for, shifted along that side. */
  function Displacement(link: MonitorComposeLink, self: Vec, anchor: Vec): Vec
    requires ValidSide(link.side)
  {
    if link.side == "left" then Vec(-self.x, link.shift)
    else if link.side == "right" then Vec(anchor.x, link.shift)
    else if link.side == "top" then Vec(link.shift, -self.y)
    else Vec(link.shift, anchor.y)
  }

  function Offset(g: Graph, name: string): Vec
    requires Linked(g, name) && Anchor(g, name) in g.byAlias
  {
    Displacement(g.byMonitor[name], RotatedSize(g.byAlias[name]), RotatedSize(g.byAlias[Anchor(g, name)]))
  }

  /** The plain sum of the displacements along the chain to the primary. */
  function ChainPos(g: Graph, name: string, k: nat): Vec
    requires Reaches(g, name, k)
    decreases k
  {
    if k == 0 then Vec(0, 0) else Add(ChainPos(g, Anchor(g, name), k - 1), Offset(g, name))
  }

  ghost predicate PlacedAt(g: Graph, name: string, p: Vec) {
    exists k: nat :: Reaches(g, name, k) && p == ChainPos(g, name, k)
  }

  lemma {:induction false} ChainUnique(g: Graph, name: string, j: nat, k: nat)
    requires Reaches(g, name, j) && Reaches(g, name, k)
    ensures j == k
    decreases k
  {
    if j > 0 && k > 0 {
      ChainUnique(g, Anchor(g, name), j - 1, k - 1);
    }
  }

  function Follower(path: seq<string>, name: string, i: int): string {
    if 0 <= i + 1 < |path| then path[i + 1] else name
  }

  /** Names under visit: each is placed relative to the next, and the last one relative to `name`. */
  predicate IsPath(g: Graph, path: seq<string>, name: string) {
    forall i :: 0 <= i < |path| ==>
      path[i] in g.byMonitor && path[i] != g.primary &&
      Anchor(g, path[i]) == Follower(path, name, i)
  }

  lemma {:induction false} PathDown(g: Graph, path: seq<string>, name: string, i: nat, k: nat)
    requires IsPath(g, path, name) && i < |path| && Reaches(g, path[i], k)
    ensures k >= |path| - i && Reaches(g, name, k - (|path| - i))
    decreases |path| - i
  {
    assert k > 0 && Reaches(g, Anchor(g, path[i]), k - 1);
    if i + 1 < |path| {
      PathDown(g, path, name, i + 1, k - 1);
      assert k - 1 - (|path| - (i + 1)) == k - (|path| - i);
    }
  }

  lemma PathLonger(g: Graph, path: seq<string>, name: string)
    requires IsPath(g, path, name) && name in g.byMonitor && name != g.primary
    ensures IsPath(g, path + [name], Anchor(g, name))
  {
    var longer := path + [name];
    forall i | 0 <= i < |longer|
      ensures longer[i] in g.byMonitor && longer[i] != g.primary
      ensures Anchor(g, longer[i]) == Follower(longer, Anchor(g, name), i)
    {
      if i < |path| {
        assert longer[i] == path[i] && Follower(longer, Anchor(g, name), i) == Follower(path, name, i);
      }
    }
  }

  /** A name that is met again while it is under visit lies on a cycle, which never reaches the primary. */
  lemma CycleUnreachable(g: Graph, path: seq<string>, name: string)
    requires IsPath(g, path, name) && name in path
    ensures !Reachable(g, name)
  {
    var i :| 0 <= i < |path| && path[i] == name;
    forall k: nat | Reaches(g, name, k)
      ensures false
    {
      PathDown(g, path, name, i, k);
      ChainUnique(g, name, k, k - (|path| - i));
    }
  }

  lemma ReachableStep(g: Graph, name: string)
    requires Linked(g, name)
    ensures Reachable(g, name) <==> Reachable(g, Anchor(g, name))
  {
    if Reachable(g, name) {
      var k: nat :| Reaches(g, name, k);
      assert Reaches(g, Anchor(g, name), k - 1);
    }
    if Reachable(g, Anchor(g, name)) {
      var k: nat :| Reaches(g, Anchor(g, name), k);
      assert Reaches(g, name, k + 1);
    }
  }

  lemma NotLinked(g: Graph, name: string)
    requires !Rooted(g, name) && !Linked(g, name)
    ensures !Reachable(g, name)
  {
  }

  lemma RootPlaced(g: Graph, name: string)
    requires Rooted(g, name)
    ensures PlacedAt(g, name, Vec(0, 0)) && Reachable(g, name)
  {
    assert Reaches(g, name, 0);
    assert ChainPos(g, name, 0) == Vec(0, 0);
  }

  lemma PlacedReachable(g: Graph, name: string, p: Vec)
    requires PlacedAt(g, name, p)
    ensures Reachable(g, name) && name in g.byAlias
  {
  }

  lemma PlaceNext(g: Graph, name: string, p: Vec)
    requires Linked(g, name) && PlacedAt(g, Anchor(g, name), p)
    ensures Anchor(g, name) in g.byAlias && PlacedAt(g, name, Add(p, Offset(g, name)))
  {
    var k: nat :| Reaches(g, Anchor(g, name), k) && p == ChainPos(g, Anchor(g, name), k);
    assert Reaches(g, name, k + 1);
    assert ChainPos(g, name, k + 1) == Add(p, Offset(g, name));
  }

  // --- The resolver ------------------------------------------------------------------------------

  const UNKNOWN := 0
  const VISITING := 1
  const DONE := 2

  /** The position of a monitor whose anchor lies at `at`. */
  method Beside(link: MonitorComposeLink, self: Vec, rel: Vec, at: Vec) returns (p: Vec)
    requires ValidSide(link.side)
    ensures p == Add(at, Displacement(link, self, rel))
  {
    var x, y := at.x, at.y;
    if link.side == "left" {
      x, y := at.x - self.x, at.y + link.shift;
    } else if link.side == "right" {
      x, y := at.x + rel.x, at.y + link.shift;
    } else if link.side == "top" {
      x, y := at.x + link.shift, at.y - self.y;
    } else {
      x, y := at.x + link.shift, at.y + rel.y;
    }
    p := Vec(x, y);
  }

  /** Memoised depth-first search; `pos` and `state` are filled as names are resolved. */
  class ComposeResolver {
    const g: Graph
    var pos: map<string, Vec>
    var state: map<string, int>

    constructor (aliases: seq<MonitorAlias>, compose: MonitorCompose)
      ensures g == GraphOf(aliases, compose) && pos == map[] && state == map[]
    {
      var byAlias: map<string, MonitorAlias> := map[];
      for i := 0 to |aliases|
        invariant byAlias == AliasMap(aliases[..i])
      {
        assert aliases[..i + 1][..i] == aliases[..i];
        byAlias := byAlias[aliases[i].alias := aliases[i]];
      }
      var byMonitor: map<string, MonitorComposeLink> := map[];
      for i := 0 to |compose.layout|
        invariant byMonitor == LinkMap(compose.layout[..i])
      {
        assert compose.layout[..i + 1][..i] == compose.layout[..i];
        byMonitor := byMonitor[compose.layout[i].monitor := compose.layout[i]];
      }
      assert aliases[..|aliases|] == aliases && compose.layout[..|compose.layout|] == compose.layout;
      g, pos, state := Graph(byAlias, byMonitor, compose.primary), map[], map[];
    }

    function StateOf(name: string): int
      reads this`state
    {
      if name in state then state[name] else UNKNOWN
    }

    /** What is stored is right, and a finished name that can be placed has been placed. */
    ghost predicate Valid()
      reads this
    {
      && (forall n :: n in state ==> state[n] == VISITING || state[n] == DONE)
      && (forall n :: n in pos ==> PlacedAt(g, n, pos[n]) && StateOf(n) == DONE)
      && (forall n :: n in state && state[n] == DONE && Reachable(g, n) ==> n in pos)
      && (forall n :: n in pos && n != g.primary ==> n in g.byMonitor && Anchor(g, n) in pos)
    }

    ghost predicate VisitingIs(path: seq<string>)
      reads this
    {
      forall n :: StateOf(n) == VISITING <==> n in path
    }

    ghost function Unvisited(): set<string>
      reads this
    {
      set n | n in g.byAlias && StateOf(n) == UNKNOWN
    }

    /** The flag says that the name has a position, or that it was finished before, perhaps without one. */
    method Resolve(name: string, ghost path: seq<string>) returns (ok: bool)
      requires Valid() && VisitingIs(path) && IsPath(g, path, name)
      modifies this
      ensures Valid() && VisitingIs(path)
      ensures name in pos <==> Reachable(g, name)
      ensures ok <==> name in pos || old(StateOf(name)) == DONE
      ensures forall n :: n in old(pos) ==> n in pos && pos[n] == old(pos[n])
      decreases Unvisited(), 1
    {
      hide Reachable, PlacedAt, Reaches, ChainPos;
      if StateOf(name) == DONE {
        PosReachable(name);
        return true;
      }
      if StateOf(name) == VISITING {
        CycleUnreachable(g, path, name);
        return false;
      }
      PosReachable(name);
      if name !in g.byAlias {
        NotLinked(g, name);
        return false;
      }
      var implicitPrimary := name == g.primary && name !in g.byMonitor;
      if name !in g.byMonitor && !implicitPrimary {
        NotLinked(g, name);
        return false;
      }
      assert name !in path;
      ghost var before := Unvisited();
      state := state[name := VISITING];
      if implicitPrimary || name == g.primary {
        RootPlaced(g, name);
        pos := pos[name := Vec(0, 0)];
        state := state[name := DONE];
        return true;
      }
      ok := ResolveLink(name, path, before);
    }

    /** The second half of a visit: `name` is marked as under visit and has an entry in the layout. */
    method ResolveLink(name: string, ghost path: seq<string>, ghost before: set<string>) returns (ok: bool)
      requires Valid() && VisitingIs(path + [name]) && name !in path && IsPath(g, path, name)
      requires name in g.byAlias && name in g.byMonitor && name != g.primary && name !in pos
      requires name in before && Unvisited() == before - {name}
      modifies this
      ensures Valid() && VisitingIs(path)
      ensures name in pos <==> Reachable(g, name)
      ensures ok <==> name in pos
      ensures forall n :: n in old(pos) ==> n in pos && pos[n] == old(pos[n])
      decreases before, 0
    {
      hide Reachable, PlacedAt, Reaches, ChainPos, Valid, Displacement, RotatedSize, IsPath;
      var link := g.byMonitor[name];
      if link.relativeTo == "" {
        NotLinked(g, name);
        GiveUp(name, path);
        return false;
      }
      PathLonger(g, path, name);
      var found := Resolve(link.relativeTo, path + [name]);
      if !found || link.relativeTo !in g.byAlias || link.relativeTo !in pos || !ValidSide(link.side) {
        PosReachable(link.relativeTo);
        if Linked(g, name) {
          ReachableStep(g, name);
        } else {
          NotLinked(g, name);
        }
        GiveUp(name, path);
        return false;
      }
      var self, rel := RotatedSize(g.byAlias[name]), RotatedSize(g.byAlias[link.relativeTo]);
      var at := pos[link.relativeTo];
      PosPlaced(link.relativeTo);
      var p := Beside(link, self, rel, at);
      PlaceNext(g, name, at);
      PlacedReachable(g, name, p);
      Finish(name, p, path);
      return true;
    }

    /** The end of a visit that found no position. */
    method GiveUp(name: string, ghost path: seq<string>)
      requires Valid() && VisitingIs(path + [name]) && name !in path && !Reachable(g, name)
      modifies this`state
      ensures Valid() && VisitingIs(path) && name !in pos
    {
      hide Reachable, PlacedAt;
      PosReachable(name);
      assert forall n :: n in path + [name] <==> n in path || n == name;
      state := state[name := DONE];
    }

    /** The end of a visit that found one. */
    method Finish(name: string, p: Vec, ghost path: seq<string>)
      requires Valid() && VisitingIs(path + [name]) && name !in path && PlacedAt(g, name, p)
      requires name in g.byMonitor && Anchor(g, name) in pos
      modifies this`state, this`pos
      ensures Valid() && VisitingIs(path) && pos == old(pos)[name := p]
    {
      hide Reachable, PlacedAt;
      assert forall n :: n in path + [name] <==> n in path || n == name;
      pos := pos[name := p];
      state := state[name := DONE];
    }

    lemma PosPlaced(name: string)
      requires Valid() && name in pos
      ensures PlacedAt(g, name, pos[name])
    {
    }

    lemma PosReachable(name: string)
      requires Valid()
      ensures name in pos ==> Reachable(g, name) && name in g.byAlias
    {
    }
  }


  // --- Normalisation -----------------------------------------------------------------------------

  const INT_MAX := 0x7FFF_FFFF

  type Positions = map<string, Vec>

  predicate Placed(a: MonitorAlias, pos: Positions) { a.enabled && a.alias in pos }

  /** The smallest x (or y) of a placed enabled monitor, starting from INT_MAX. */
  function Lowest(aliases: seq<MonitorAlias>, pos: Positions, horizontal: bool): (low: int)
    ensures low <= INT_MAX
    ensures forall a :: a in aliases && Placed(a, pos) ==> low <= Coord(pos[a.alias], horizontal)
    ensures low == INT_MAX || exists a :: a in aliases && Placed(a, pos) && low == Coord(pos[a.alias], horizontal)
  {
    if aliases == [] then INT_MAX
    else
      var rest := Lowest(aliases[..|aliases| - 1], pos, horizontal);
      var a := aliases[|aliases| - 1];
      assert aliases == aliases[..|aliases| - 1] + [a];
      if Placed(a, pos) then Min(rest, Coord(pos[a.alias], horizontal)) else rest
  }

  function Coord(p: Vec, horizontal: bool): int { if horizontal then p.x else p.y }

  function Shift(aliases: seq<MonitorAlias>, pos: Positions): Vec {
    var lowX, lowY := Lowest(aliases, pos, true), Lowest(aliases, pos, false);
    if lowX == INT_MAX || lowY == INT_MAX then Vec(0, 0) else Vec(Max(0, -lowX), Max(0, -lowY))
  }

  function Shifted(pos: Positions, d: Vec): Positions { map n | n in pos :: Add(pos[n], d) }

  /** What compose_positions stores: right positions, and one for each enabled alias that has one. */
  ghost predicate Composed(g: Graph, aliases: seq<MonitorAlias>, pos: Positions) {
    && (forall n :: n in pos ==> PlacedAt(g, n, pos[n]))
    && (forall n :: n in pos && n != g.primary ==> n in g.byMonitor && Anchor(g, n) in pos)
    && (forall i :: 0 <= i < |aliases| && aliases[i].enabled ==>
          (aliases[i].alias in pos <==> Reachable(g, aliases[i].alias)))
  }

  /**
   * compose_positions. In the map before it is normalised in place, an enabled alias has an entry exactly
   * if its chain reaches the primary, and every entry is the sum of the offsets along the chain.
   */
  method ComposePositions(aliases: seq<MonitorAlias>, compose: MonitorCompose) returns (r: Positions)
    ensures exists raw :: Composed(GraphOf(aliases, compose), aliases, raw) && r == Shifted(raw, Shift(aliases, raw))
  {
    hide Reachable, PlacedAt;
    var resolver := new ComposeResolver(aliases, compose);
    if compose.primary != "" {
      var _ := resolver.Resolve(compose.primary, []);
    }
    for i := 0 to |aliases|
      invariant resolver.g == GraphOf(aliases, compose)
      invariant resolver.Valid() && resolver.VisitingIs([])
      invariant forall j :: 0 <= j < i && aliases[j].enabled ==>
        (aliases[j].alias in resolver.pos <==> Reachable(resolver.g, aliases[j].alias))
    {
      if aliases[i].enabled {
        ghost var before := resolver.pos;
        var _ := resolver.Resolve(aliases[i].alias, []);
        forall n
          ensures n in resolver.pos ==> Reachable(resolver.g, n)
        {
          resolver.PosReachable(n);
        }
      }
    }
    assert Composed(GraphOf(aliases, compose), aliases, resolver.pos);
    r := Normalize(aliases, resolver.pos);
  }

  lemma LowestSnoc(aliases: seq<MonitorAlias>, pos: Positions, i: nat, horizontal: bool)
    requires i < |aliases|
    ensures
      var low := Lowest(aliases[..i], pos, horizontal);
      Lowest(aliases[..i + 1], pos, horizontal) ==
        if Placed(aliases[i], pos) then Min(low, Coord(pos[aliases[i].alias], horizontal)) else low
  {
    assert aliases[..i + 1][..i] == aliases[..i];
  }

  /** The tail of compose_positions: no enabled monitor may end up left of or above the origin. */
  method Normalize(aliases: seq<MonitorAlias>, raw: Positions) returns (pos: Positions)
    ensures pos == Shifted(raw, Shift(aliases, raw))
  {
    hide Lowest;
    pos := raw;
    var lowX, lowY := INT_MAX, INT_MAX;
    LowestOfNone(raw);
    assert aliases[..0] == [];
    for i := 0 to |aliases|
      invariant lowX == Lowest(aliases[..i], raw, true) && lowY == Lowest(aliases[..i], raw, false)
    {
      LowestSnoc(aliases, raw, i, true);
      LowestSnoc(aliases, raw, i, false);
      if aliases[i].enabled && aliases[i].alias in pos {
        lowX := Min(lowX, pos[aliases[i].alias].x);
        lowY := Min(lowY, pos[aliases[i].alias].y);
      }
    }
    assert aliases[..|aliases|] == aliases;
    if lowX == INT_MAX || lowY == INT_MAX {
      NotShifted(raw);
      return;
    }
    var shiftX := if lowX < 0 then -lowX else 0;
    var shiftY := if lowY < 0 then -lowY else 0;
    if shiftX != 0 || shiftY != 0 {
      pos := ShiftAll(pos, shiftX, shiftY);
    } else {
      NotShifted(raw);
    }
  }

  lemma NotShifted(raw: Positions)
    ensures Shifted(raw, Vec(0, 0)) == raw
  {
  }

  lemma LowestOfNone(pos: Positions)
    ensures Lowest([], pos, true) == INT_MAX && Lowest([], pos, false) == INT_MAX
  {
  }

  /** The loop over all entries of the map, in whatever order it visits them. */
  method ShiftAll(raw: Positions, shiftX: int, shiftY: int) returns (pos: Positions)
    ensures pos == Shifted(raw, Vec(shiftX, shiftY))
  {
    pos := raw;
    var todo := pos.Keys;
    while todo != {}
      invariant pos.Keys == raw.Keys && todo <= raw.Keys
      invariant forall n :: n in raw ==> pos[n] == if n in todo then raw[n] else Add(raw[n], Vec(shiftX, shiftY))
      decreases |todo|
    {
      var n :| n in todo;
      pos := pos[n := Vec(pos[n].x + shiftX, pos[n].y + shiftY)];
      todo := todo - {n};
    }
  }

  /** Normalisation keeps every distance between two monitors and shifts no further than needed. */
  lemma NormalizeKeepsOffsets(aliases: seq<MonitorAlias>, raw: Positions, m: string, n: string)
    requires m in raw && n in raw
    ensures
      var pos := Shifted(raw, Shift(aliases, raw));
      && pos.Keys == raw.Keys
      && pos[m].x - pos[n].x == raw[m].x - raw[n].x && pos[m].y - pos[n].y == raw[m].y - raw[n].y
    ensures (forall a :: a in aliases && Placed(a, raw) ==> raw[a.alias].x >= 0 && raw[a.alias].y >= 0) ==>
      Shifted(raw, Shift(aliases, raw)) == raw
  {
    var lowX, lowY := Lowest(aliases, raw, true), Lowest(aliases, raw, false);
    if forall a :: a in aliases && Placed(a, raw) ==> raw[a.alias].x >= 0 && raw[a.alias].y >= 0 {
      assert lowX >= 0 && lowY >= 0;
    }
  }

  predicate NonNegative(aliases: seq<MonitorAlias>, pos: Positions) {
    forall i :: 0 <= i < |aliases| && Placed(aliases[i], pos) ==> pos[aliases[i].alias].x >= 0 && pos[aliases[i].alias].y >= 0
  }

  /** Some placed enabled monitor lies below the INT_MAX sentinel on each axis. */
  predicate BelowSentinel(aliases: seq<MonitorAlias>, pos: Positions) {
    && (exists i :: 0 <= i < |aliases| && Placed(aliases[i], pos) && pos[aliases[i].alias].x < INT_MAX)
    && (exists i :: 0 <= i < |aliases| && Placed(aliases[i], pos) && pos[aliases[i].alias].y < INT_MAX)
  }

  /**
   * All placed enabled monitors end up at non-negative coordinates, unless one was negative and on one
   * axis all of them sit at the sentinel: then the map is left as it is.
   */
  lemma NonNegativeIff(aliases: seq<MonitorAlias>, raw: Positions)
    ensures NonNegative(aliases, Shifted(raw, Shift(aliases, raw))) <==>
      NonNegative(aliases, raw) || BelowSentinel(aliases, raw)
  {
    var lowX, lowY := Lowest(aliases, raw, true), Lowest(aliases, raw, false);
    var pos := Shifted(raw, Shift(aliases, raw));
    assert forall a :: Placed(a, pos) <==> Placed(a, raw);
    if BelowSentinel(aliases, raw) {
      assert lowX < INT_MAX && lowY < INT_MAX;
      forall i | 0 <= i < |aliases| && Placed(aliases[i], pos)
        ensures pos[aliases[i].alias].x >= 0 && pos[aliases[i].alias].y >= 0
      {
        var a := aliases[i];
        assert lowX <= Coord(raw[a.alias], true) && lowY <= Coord(raw[a.alias], false);
      }
    } else {
      if lowX != INT_MAX && lowY != INT_MAX {
        SentinelMissed(aliases, raw);
        assert false;
      }
      assert pos == raw;
    }
  }

  lemma SentinelMissed(aliases: seq<MonitorAlias>, raw: Positions)
    requires Lowest(aliases, raw, true) != INT_MAX && Lowest(aliases, raw, false) != INT_MAX
    ensures BelowSentinel(aliases, raw)
  {
    var a :| a in aliases && Placed(a, raw) && Lowest(aliases, raw, true) == Coord(raw[a.alias], true);
    var b :| b in aliases && Placed(b, raw) && Lowest(aliases, raw, false) == Coord(raw[b.alias], false);
  }

  // --- What the layout promises ------------------------------------------------------------------

  /** Every placed monitor touches its anchor on the side it asked for, also after normalisation. */
  lemma TouchesAnchor(g: Graph, aliases: seq<MonitorAlias>, raw: Positions, n: string)
    requires Composed(g, aliases, raw) && n in raw && n != g.primary
    ensures Linked(g, n) && Anchor(g, n) in raw && Anchor(g, n) in g.byAlias
    ensures
      var pos := Shifted(raw, Shift(aliases, raw));
      var (p, q, link) := (pos[n], pos[Anchor(g, n)], g.byMonitor[n]);
      var (self, rel) := (RotatedSize(g.byAlias[n]), RotatedSize(g.byAlias[Anchor(g, n)]));
      match link.side
      case "left" => p.x + self.x == q.x && p.y == q.y + link.shift
      case "right" => p.x == q.x + rel.x && p.y == q.y + link.shift
      case "top" => p.y + self.y == q.y && p.x == q.x + link.shift
      case _ => p.y == q.y + rel.y && p.x == q.x + link.shift
  {
    var a := Anchor(g, n);
    var k: nat :| Reaches(g, n, k) && raw[n] == ChainPos(g, n, k);
    var j: nat :| Reaches(g, a, j) && raw[a] == ChainPos(g, a, j);
    ChainUnique(g, a, j, k - 1);
    assert raw[n] == Add(raw[a], Offset(g, n));
  }

  /** Two position maps for the same graph agree wherever both have an entry. */
  lemma PositionUnique(g: Graph, n: string, p: Vec, q: Vec)
    requires PlacedAt(g, n, p) && PlacedAt(g, n, q)
    ensures p == q
  {
    var j: nat :| Reaches(g, n, j) && p == ChainPos(g, n, j);
    var k: nat :| Reaches(g, n, k) && q == ChainPos(g, n, k);
    ChainUnique(g, n, j, k);
  }

  ghost predicate UniqueNames(aliases: seq<MonitorAlias>) {
    forall i, j :: 0 <= i < j < |aliases| ==> aliases[i].alias != aliases[j].alias
  }

  lemma {:induction false} AliasMapOfMember(aliases: seq<MonitorAlias>, a: MonitorAlias)
    requires UniqueNames(aliases) && a in aliases
    ensures a.alias in AliasMap(aliases) && AliasMap(aliases)[a.alias] == a
  {
    var last := aliases[|aliases| - 1];
    if a != last {
      assert a in aliases[..|aliases| - 1];
      AliasMapOfMember(aliases[..|aliases| - 1], a);
      var i :| 0 <= i < |aliases| - 1 && aliases[i] == a;
      assert a.alias != last.alias;
    }
  }

  /** The order in which the monitors are listed does not matter. */
  lemma OrderIrrelevant(
    xs: seq<MonitorAlias>, ys: seq<MonitorAlias>, compose: MonitorCompose, rawX: Positions, rawY: Positions,
    a: MonitorAlias)
    requires UniqueNames(xs) && UniqueNames(ys) && forall b :: b in xs <==> b in ys
    requires Composed(GraphOf(xs, compose), xs, rawX) && Composed(GraphOf(ys, compose), ys, rawY)
    requires a in xs && a.enabled
    ensures Placed(a, rawX) <==> Placed(a, rawY)
    ensures Placed(a, rawX) ==> Shifted(rawX, Shift(xs, rawX))[a.alias] == Shifted(rawY, Shift(ys, rawY))[a.alias]
  {
    hide Reachable, PlacedAt, ChainPos, AliasMap;
    SameAliasMap(xs, ys);
    var g := GraphOf(xs, compose);
    assert g == GraphOf(ys, compose);
    forall b | b in xs
      ensures Placed(b, rawX) <==> Placed(b, rawY)
      ensures Placed(b, rawX) ==> rawX[b.alias] == rawY[b.alias]
    {
      if Placed(b, rawX) && Placed(b, rawY) {
        PositionUnique(g, b.alias, rawX[b.alias], rawY[b.alias]);
      }
      var i :| 0 <= i < |xs| && xs[i] == b;
      var j :| 0 <= j < |ys| && ys[j] == b;
    }
    LowestSame(xs, ys, rawX, rawY);
  }

  lemma LowestSame(xs: seq<MonitorAlias>, ys: seq<MonitorAlias>, rawX: Positions, rawY: Positions)
    requires forall b :: b in xs <==> b in ys
    requires forall b :: b in xs ==> (Placed(b, rawX) <==> Placed(b, rawY))
    requires forall b :: b in xs && Placed(b, rawX) && Placed(b, rawY) ==> rawX[b.alias] == rawY[b.alias]
    ensures Shift(xs, rawX) == Shift(ys, rawY)
  {
    assert Lowest(xs, rawX, true) == Lowest(ys, rawY, true);
    assert Lowest(xs, rawX, false) == Lowest(ys, rawY, false);
  }

  lemma SameAliasMap(xs: seq<MonitorAlias>, ys: seq<MonitorAlias>)
    requires UniqueNames(xs) && UniqueNames(ys) && forall b :: b in xs <==> b in ys
    ensures AliasMap(xs) == AliasMap(ys)
  {
    forall i | 0 <= i < |xs|
      ensures xs[i].alias in AliasMap(ys) && AliasMap(xs)[xs[i].alias] == xs[i] == AliasMap(ys)[xs[i].alias]
    {
      AliasMapOfMember(xs, xs[i]);
      AliasMapOfMember(ys, xs[i]);
    }
    forall i | 0 <= i < |ys|
      ensures ys[i].alias in AliasMap(xs)
    {
      AliasMapOfMember(xs, ys[i]);
    }
  }
}
