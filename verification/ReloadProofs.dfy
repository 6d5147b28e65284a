/**
 * What a settings reload keeps when it adds or removes workspaces
 * (core/src/core/workspace_manager.cpp:364-444, core/include/domain/core.hpp:208-215): who owns the
 * remaining workspaces, what each monitor shows and where the windows go.
 */
module ReloadProofs {
  import opened Seqs
  import opened Config
  import opened Monitors
  import opened Topology
  import opened TopologyProofs
  import opened Windows
  import opened WindowProofs
  import opened Reducer
  import opened ReducerProofs
  import opened Assignment
  import opened MonitorProofs

  // --- Owners ------------------------------------------------------------------------------------

  /** The configuration that is loaded asks for workspace `w` to be on monitor `m`. */
  ghost predicate NewlyAsked(t: Topology, defs: seq<WorkspaceDef>, aliases: seq<MonitorAlias>, w: int, m: int) {
    0 <= w < |defs| && defs[w].monitor != "" && StandsFor(aliases, t.monitors, defs[w].monitor, m)
  }

  /** A remaining workspace goes where the new configuration asks, and else stays with its owner. */
  lemma ReloadDecides(t: Topology, defs: seq<WorkspaceDef>, aliases: seq<MonitorAlias>, compose: MonitorCompose, w: int)
    requires Consistent(t) && defs != [] && t.monitors != [] && 0 <= w < |defs|
    ensures
      var r := Reload(t, defs, aliases, compose);
      && |r.owner| == |defs|
      && (forall m :: NewlyAsked(t, defs, aliases, w, m) ==> r.owner[w] == m)
      && (w < |t.owner| && (forall m :: !NewlyAsked(t, defs, aliases, w, m)) ==> r.owner[w] == t.owner[w])
  {
    hide Assign, StandsFor;
    var u := UpdateDefs(t, defs);
    AssignDecides(u, aliases, compose);
    forall m
      ensures NewlyAsked(t, defs, aliases, w, m) <==> Asked(u, aliases, w, m)
    {
    }
    assert w < |t.owner| ==> HasOwner(u, w);
  }

  // --- What a monitor shows ----------------------------------------------------------------------

  lemma {:induction false} KeepBelowConcat(a: seq<int>, b: seq<int>, n: int)
    ensures KeepBelow(a + b, n) == KeepBelow(a, n) + KeepBelow(b, n)
    decreases |a|
  {
    if a == [] {
      assert a + b == b;
    } else {
      assert (a + b)[1..] == a[1..] + b;
      KeepBelowConcat(a[1..], b, n);
    }
  }

  lemma {:induction false} KeepBelowCounts(a: seq<int>, n: int)
    ensures |KeepBelow(a, n)| <= |a|
    ensures |KeepBelow(a, n)| == |a| <==> forall i :: 0 <= i < |a| ==> a[i] < n
    ensures |KeepBelow(a, n)| == 0 <==> forall i :: 0 <= i < |a| ==> a[i] >= n
  {
    if a != [] {
      KeepBelowCounts(a[1..], n);
      assert forall i :: 0 <= i < |a| ==> a[i] == if i == 0 then a[0] else a[1..][i - 1];
      assert forall i :: 0 <= i < |a| - 1 ==> a[1..][i] == a[i + 1];
    }
  }

  lemma {:induction false} KeepBelowDistinct(a: seq<int>, n: int)
    requires Distinct(a)
    ensures Distinct(KeepBelow(a, n))
  {
    if a != [] {
      KeepBelowDistinct(a[1..], n);
      var rest := KeepBelow(a[1..], n);
      assert forall i :: 0 <= i < |rest| ==> rest[i] in rest;
    }
  }

  /** Among the remaining workspaces, the one at position p comes after those that remain before it. */
  lemma KeptAt(pool: seq<int>, n: int, p: int)
    requires 0 <= p < |pool| && pool[p] < n
    ensures |KeepBelow(pool[..p], n)| < |KeepBelow(pool, n)|
    ensures KeepBelow(pool, n)[|KeepBelow(pool[..p], n)|] == pool[p]
  {
    var a, x, b := pool[..p], [pool[p]], pool[p + 1..];
    assert pool == a + (x + b) && x + b == pool[p..];
    KeepBelowConcat(a, x + b, n);
  }

  /** The position a monitor should show: the one it shows if that remains, else the first that remains. */
  predicate ShouldShow(pool: seq<int>, now: int, n: int, p: int) {
    && 0 <= p < |pool| && pool[p] < n && 0 <= now < |pool|
    && (p == now || (pool[now] >= n && forall i | 0 <= i < p :: pool[i] >= n))
  }

  /**
   * No workspace before position p is removed or, if all of them are, there are too few left for p to be a
   * position among them.
   */
  predicate Unshifted(pool: seq<int>, n: int, p: int)
    requires 0 <= p < |pool|
  {
    || (forall i | 0 <= i < p :: pool[i] < n)
    || ((forall i | 0 <= i < p :: pool[i] >= n) && |KeepBelow(pool, n)| <= p)
  }

  /** The recorded position is that of the whole pool, but is looked up in what remains of it. */
  lemma LookedUp(pool: seq<int>, n: int, p: int)
    requires Distinct(pool) && 0 <= p < |pool| && pool[p] < n
    ensures KeepBelow(pool, n) != []
    ensures
      var k := KeepBelow(pool, n);
      (if p < |k| then k[p] else k[0]) == pool[p] <==> Unshifted(pool, n, p)
  {
    var k, q := KeepBelow(pool, n), |KeepBelow(pool[..p], n)|;
    KeptAt(pool, n, p);
    KeepBelowDistinct(pool, n);
    KeepBelowCounts(pool[..p], n);
    assert forall i :: 0 <= i < p ==> pool[..p][i] == pool[i];
  }

  lemma {:induction false} FirstBelowIs(pool: seq<int>, n: int, p: int)
    requires 0 <= p < |pool| && pool[p] < n && forall i :: 0 <= i < p ==> pool[i] >= n
    ensures FirstBelow(pool, n) == pool[p]
  {
    if p > 0 {
      FirstBelowIs(pool[1..], n, p - 1);
    }
  }

  lemma ShrunkPosition(t: Topology, n: nat, m: int, p: int)
    requires Consistent(t) && 0 <= m < |t.monitors|
    requires t.activeLocal[m] >= 0 && ShouldShow(t.pools[m], t.activeLocal[m], n, p)
    ensures ShrunkActive(t, n, m) == p
  {
    var pool, now := t.pools[m], t.activeLocal[m];
    assert PoolMatches(t.owner, m, pool);
    assert pool[now] in pool && pool[p] in pool;
    if pool[now] >= n {
      FirstBelowIs(pool, n, p);
      assert FallbackFor(t, pool[now], n) == pool[p];
      IndexOfDistinct(pool, p);
    }
  }

  /**
   * When workspaces are removed, a monitor shows the workspace it should, exactly if no workspace before it in the
   * monitor's pool is removed, or all are and it happens to be looked up first. Nothing corrects the position.
   */
  lemma ShrinkShows(t: Topology, defs: seq<WorkspaceDef>, m: int, p: int)
    requires Consistent(t) && defs != [] && 0 <= m < |t.monitors|
    requires t.activeLocal[m] >= 0 && ShouldShow(t.pools[m], t.activeLocal[m], |defs|, p)
    ensures ActiveWs(UpdateDefs(t, defs), m) in KeepBelow(t.pools[m], |defs|)
    ensures ActiveWs(UpdateDefs(t, defs), m) == t.pools[m][p] <==> Unshifted(t.pools[m], |defs|, p)
  {
    hide Unshifted, ShrunkActive, UpdateDefs, KeepBelow;
    if |defs| < |t.wsAlias| {
      ShrunkPosition(t, |defs|, m, p);
      ShrunkIs(t, defs, m);
      AllDistinct(t, m);
      LookedUp(t.pools[m], |defs|, p);
    } else {
      GrownShows(t, defs, m, p);
    }
  }

  lemma AllDistinct(t: Topology, m: int)
    requires Consistent(t) && 0 <= m < |t.monitors|
    ensures Distinct(t.pools[m])
  {
    assert PoolMatches(t.owner, m, t.pools[m]);
  }

  lemma ShrunkIs(t: Topology, defs: seq<WorkspaceDef>, m: int)
    requires Consistent(t) && 0 < |defs| < |t.wsAlias| && 0 <= m < |t.monitors|
    ensures
      var kept, at := KeepBelow(t.pools[m], |defs|), ShrunkActive(t, |defs|, m);
      kept != [] ==> ActiveWs(UpdateDefs(t, defs), m) == if 0 <= at < |kept| then kept[at] else kept[0]
  {
    hide ShrunkActive, KeepBelow;
  }

  lemma GrownShows(t: Topology, defs: seq<WorkspaceDef>, m: int, p: int)
    requires Consistent(t) && |defs| >= |t.wsAlias| && defs != [] && 0 <= m < |t.monitors|
    requires t.activeLocal[m] >= 0 && ShouldShow(t.pools[m], t.activeLocal[m], |defs|, p)
    ensures ActiveWs(UpdateDefs(t, defs), m) == t.pools[m][p] && t.pools[m][p] in KeepBelow(t.pools[m], |defs|)
    ensures Unshifted(t.pools[m], |defs|, p)
  {
    assert PoolMatches(t.owner, m, t.pools[m]);
    assert forall i :: 0 <= i < |t.pools[m]| ==> t.pools[m][i] in t.pools[m];
  }

  /**
   * The same of the whole reload, for a monitor that keeps its remaining workspaces: it goes on showing the
   * workspace it shows, or if that one is removed the first that remains, exactly under this condition.
   */
  lemma ReloadShows(t: Topology, defs: seq<WorkspaceDef>, aliases: seq<MonitorAlias>, compose: MonitorCompose, m: int, p: int)
    requires Consistent(t) && defs != [] && 0 <= m < |t.monitors|
    requires t.activeLocal[m] >= 0 && ShouldShow(t.pools[m], t.activeLocal[m], |defs|, p)
    requires forall w, k :: w in t.pools[m] && NewlyAsked(t, defs, aliases, w, k) ==> k == m
    ensures
      var r := Reload(t, defs, aliases, compose);
      |r.monitors| == |t.monitors| &&
      (r.monitors[m].activeWs == t.pools[m][p] <==> Unshifted(t.pools[m], |defs|, p))
  {
    hide Assign, Unshifted, ShouldShow, NewlyAsked, SeedFirst, ActiveOf, UpdateDefs;
    var u := UpdateDefs(t, defs);
    ShrinkShows(t, defs, m, p);
    KeptMonitors(t, defs);
    AssignArranges(u, aliases, compose, m);
    var y := ActiveWs(u, m);
    assert PoolMatches(t.owner, m, t.pools[m]);
    assert y in t.pools[m] && 0 <= y < |defs| && t.owner[y] == m;
    ReloadDecides(t, defs, aliases, compose, y);
    var r := Reload(t, defs, aliases, compose);
    assert r.owner[y] == m by {
      if exists k :: NewlyAsked(t, defs, aliases, y, k) {
        var k :| NewlyAsked(t, defs, aliases, y, k);
      }
    }
    assert y in r.pools[m];
  }

  lemma KeptMonitors(t: Topology, defs: seq<WorkspaceDef>)
    requires Consistent(t) && defs != []
    ensures UpdateDefs(t, defs).monitors == t.monitors
  {
  }

  // --- Where the windows go ----------------------------------------------------------------------

  /** The first remaining workspace on the monitor of a removed one, else workspace 0. */
  ghost predicate FallsTo(t: Topology, ws: int, n: int, dst: int) {
    if exists p :: FirstKept(t, ws, n, p) then exists p :: FirstKept(t, ws, n, p) && dst == t.pools[t.owner[ws]][p]
    else dst == 0
  }

  ghost predicate FirstKept(t: Topology, ws: int, n: int, p: int) {
    && 0 <= ws < |t.owner| && 0 <= t.owner[ws] < |t.pools|
    && var pool := t.pools[t.owner[ws]];
       0 <= p < |pool| && 0 <= pool[p] < n && forall i :: 0 <= i < p ==> pool[i] >= n
  }

  lemma {:induction false} NoneBelow(pool: seq<int>, n: int)
    requires forall i :: 0 <= i < |pool| ==> pool[i] >= n
    ensures FirstBelow(pool, n) == NONE
  {
    if pool != [] {
      NoneBelow(pool[1..], n);
    }
  }

  lemma FirstPosition(pool: seq<int>, n: int) returns (p: nat)
    ensures p <= |pool| && (forall i :: 0 <= i < p ==> pool[i] >= n) && (p < |pool| ==> pool[p] < n)
  {
    p := 0;
    while p < |pool| && pool[p] >= n
      invariant p <= |pool| && forall i :: 0 <= i < p ==> pool[i] >= n
    {
      p := p + 1;
    }
  }

  lemma FallbackIs(t: Topology, ws: int, n: nat)
    requires Consistent(t) && 0 <= ws < |t.owner|
    ensures FallsTo(t, ws, n, FallbackFor(t, ws, n))
  {
    var m := t.owner[ws];
    if 0 <= m < |t.pools| {
      var pool := t.pools[m];
      assert PoolMatches(t.owner, m, pool);
      assert forall i :: 0 <= i < |pool| ==> pool[i] in pool;
      var p := FirstPosition(pool, n);
      if p < |pool| {
        FirstBelowIs(pool, n, p);
        assert FirstKept(t, ws, n, p);
      } else {
        NoneBelow(pool, n);
      }
    }
  }

  /**
   * A reload leaves every window on its workspace; those of removed workspaces join the first remaining one
   * of the same monitor, or workspace 0 if the monitor keeps none.
   */
  lemma SettingsRehome(c: Core, next: Settings, id: nat)
    requires Inv(c) && Applicable(c, next) && id in c.tb.index
    ensures Sane(c) && id in c.tb.home
    ensures
      var d, n := DoApplySettings(c, next), |next.defs|;
      && id in d.tb.home && d.tb.index == c.tb.index
      && if c.tb.home[id] < n then d.tb.home[id] == c.tb.home[id] else FallsTo(c.topo, c.tb.home[id], n, d.tb.home[id])
  {
    hide Resize, Reload, FallsTo, FallbackFor;
    var n := |next.defs|;
    ResizeKeeps(c.tb, n, Fallbacks(c.topo, n));
    FallbackIs(c.topo, c.tb.home[id], n);
  }
}
