/** Pools partition the workspaces, and every operation on a topology keeps it so. */
module TopologyProofs {
  import opened Seqs
  import opened Config
  import opened Monitors
  import opened Topology

  // --- AppendOwned and PoolFor -------------------------------------------------------------------

  lemma {:induction false} AppendOwnedMembers(owner: seq<int>, m: int, acc: seq<int>, ids: seq<int>)
    ensures acc <= AppendOwned(owner, m, acc, ids)
    ensures Distinct(acc) ==> Distinct(AppendOwned(owner, m, acc, ids))
    ensures forall id :: id in AppendOwned(owner, m, acc, ids) <==>
      id in acc || (id in ids && 0 <= id < |owner| && owner[id] == m)
    decreases |ids|
  {
    if ids != [] {
      var front := ids[..|ids| - 1];
      AppendOwnedMembers(owner, m, acc, front);
      assert ids == front + [ids[|ids| - 1]];
    }
  }

  lemma {:induction false} AppendOwnedConcat(owner: seq<int>, m: int, acc: seq<int>, a: seq<int>, b: seq<int>)
    ensures AppendOwned(owner, m, acc, a + b) == AppendOwned(owner, m, AppendOwned(owner, m, acc, a), b)
    decreases |b|
  {
    if b == [] {
      assert a + b == a;
    } else {
      AppendOwnedConcat(owner, m, acc, a, b[..|b| - 1]);
      assert (a + b)[..|a + b| - 1] == a + b[..|b| - 1];
    }
  }

  /** Ids that are already listed or belong elsewhere leave the pool alone. */
  lemma {:induction false} AppendOwnedSkips(owner: seq<int>, m: int, acc: seq<int>, ids: seq<int>)
    requires forall id :: id in ids && 0 <= id < |owner| && owner[id] == m ==> id in acc
    ensures AppendOwned(owner, m, acc, ids) == acc
    decreases |ids|
  {
    if ids != [] {
      AppendOwnedSkips(owner, m, acc, ids[..|ids| - 1]);
    }
  }

  lemma {:induction false} AppendOwnedKeeps(owner: seq<int>, m: int, ids: seq<int>)
    requires Distinct(ids) && forall i :: 0 <= i < |ids| ==> 0 <= ids[i] < |owner| && owner[ids[i]] == m
    ensures AppendOwned(owner, m, [], ids) == ids
    decreases |ids|
  {
    if ids != [] {
      AppendOwnedKeeps(owner, m, ids[..|ids| - 1]);
      assert ids == ids[..|ids| - 1] + [ids[|ids| - 1]];
    }
  }

  lemma PoolForMatches(owner: seq<int>, m: int, seed: seq<int>)
    ensures PoolMatches(owner, m, PoolFor(owner, m, seed))
  {
    var head := AppendOwned(owner, m, [], seed);
    AppendOwnedMembers(owner, m, [], seed);
    AppendOwnedMembers(owner, m, head, Range(|owner|));
    forall id | 0 <= id < |owner|
      ensures id in Range(|owner|)
    {
      assert Range(|owner|)[id] == id;
    }
  }

  /** A seed that starts with the right pool and continues with foreign workspaces rebuilds that pool. */
  lemma PoolForRestores(owner: seq<int>, m: int, pool: seq<int>, extra: seq<int>)
    requires PoolMatches(owner, m, pool)
    requires forall id :: id in extra && 0 <= id < |owner| ==> owner[id] != m
    ensures PoolFor(owner, m, pool + extra) == pool
  {
    AppendOwnedConcat(owner, m, [], pool, extra);
    assert forall i :: 0 <= i < |pool| ==> pool[i] in pool;
    AppendOwnedKeeps(owner, m, pool);
    AppendOwnedSkips(owner, m, pool, extra);
    AppendOwnedSkips(owner, m, pool, Range(|owner|));
  }

  /** A seed the monitor still owns stays in front. */
  lemma PoolForExtends(owner: seq<int>, m: int, seed: seq<int>)
    requires Distinct(seed) && forall id :: id in seed ==> 0 <= id < |owner| && owner[id] == m
    ensures seed <= PoolFor(owner, m, seed)
  {
    assert forall i :: 0 <= i < |seed| ==> seed[i] in seed;
    AppendOwnedKeeps(owner, m, seed);
    AppendOwnedMembers(owner, m, seed, Range(|owner|));
  }

  lemma PoolForSame(owner: seq<int>, m: int, pool: seq<int>)
    requires PoolMatches(owner, m, pool)
    ensures PoolFor(owner, m, pool) == pool
  {
    PoolForRestores(owner, m, pool, []);
    assert pool + [] == pool;
  }

  // --- Rebuild -----------------------------------------------------------------------------------

  /** Whatever the seeds were, rebuilt pools match the owners and every active position is valid. */
  lemma RebuildMatches(t: Topology, owner: seq<int>, seeds: seq<seq<int>>, preferred: seq<int>, focused: int)
    requires |owner| == |t.wsAlias|
    ensures
      var r := Rebuild(t, owner, seeds, preferred, focused);
      && Sized(r) && r.owner == owner && Names(r.monitors) == Names(t.monitors)
      && PoolsMatch(r.owner, r.pools) && ActiveInRange(r.pools, r.activeLocal)
      && (forall m :: 0 <= m < |r.monitors| ==> r.monitors[m].activeWs == ActiveWs(r, m))
      && (if r.monitors == [] then r.focused == 0 else 0 <= r.focused < |r.monitors|)
  {
    forall m | 0 <= m < |t.monitors|
      ensures PoolMatches(owner, m, RebuildPools(owner, |t.monitors|, seeds)[m])
    {
      PoolForMatches(owner, m, SeedOf(seeds, m));
    }
  }

  /** A monitor keeps showing the workspace it preferred, when that workspace is in its pool. */
  lemma RebuildShowsPreferred(pools: seq<seq<int>>, preferred: seq<int>, m: int)
    requires 0 <= m < |pools| && PreferredOf(preferred, m) in pools[m]
    ensures ActiveOf(pools, RebuildActive(pools, preferred), m) == PreferredOf(preferred, m)
  {
  }

  // --- assign_workspaces -------------------------------------------------------------------------

  /** Every workspace with a reachable alias is owned by the monitor the alias names. */
  ghost predicate AliasesHonoured(t: Topology, aliases: seq<MonitorAlias>) {
    |t.owner| == |t.wsAlias| &&
    forall w :: 0 <= w < |t.wsAlias| && AliasOwner(t, aliases, w) >= 0 ==> t.owner[w] == AliasOwner(t, aliases, w)
  }

  ghost predicate Settled(t: Topology, aliases: seq<MonitorAlias>) {
    Consistent(t) && AliasesHonoured(t, aliases)
  }

  /**
   * assign_workspaces leaves a consistent topology that honours the aliases, whatever it starts from; only
   * without monitors it leaves the focused monitor's number as it is, which then has to be 0 already.
   */
  lemma AssignSettles(t: Topology, aliases: seq<MonitorAlias>, compose: MonitorCompose)
    ensures Settled(Assign(t, aliases, compose), aliases) <==> (t.monitors == [] ==> t.focused == 0)
    ensures Names(Assign(t, aliases, compose).monitors) == Names(t.monitors)
  {
    hide Assign, Settled;
    if t.monitors == [] {
      NobodyAssigned(t, aliases, compose);
    } else {
      AllAssigned(t, aliases, compose);
    }
  }

  lemma AllAssigned(t: Topology, aliases: seq<MonitorAlias>, compose: MonitorCompose)
    requires t.monitors != []
    ensures Settled(Assign(t, aliases, compose), aliases)
    ensures Names(Assign(t, aliases, compose).monitors) == Names(t.monitors)
  {
    var owner := AssignedOwners(t, aliases, compose);
    RebuildMatches(t, owner, t.pools, ActiveList(t, |t.monitors|), t.focused);
  }

  lemma NobodyAssigned(t: Topology, aliases: seq<MonitorAlias>, compose: MonitorCompose)
    requires t.monitors == []
    ensures Settled(Assign(t, aliases, compose), aliases) <==> t.focused == 0
    ensures Names(Assign(t, aliases, compose).monitors) == Names(t.monitors)
  {
  }

  lemma {:induction false} RoundRobinDone(owner: seq<int>, rr: int, n: nat)
    requires 0 <= rr < n && NONE !in owner
    ensures RoundRobin(owner, rr, n) == owner
  {
    if owner != [] {
      RoundRobinDone(owner[1..], rr, n);
    }
  }

  /** A pool that already matches its owners, and a position in range, survive being rebuilt. */
  lemma RebuildKeeps(owner: seq<int>, pools: seq<seq<int>>, activeLocal: seq<int>, preferred: seq<int>)
    requires PoolsMatch(owner, pools) && ActiveInRange(pools, activeLocal) && |preferred| == |pools|
    requires forall m :: 0 <= m < |pools| && pools[m] != [] ==> preferred[m] == pools[m][activeLocal[m]]
    ensures RebuildPools(owner, |pools|, pools) == pools && RebuildActive(pools, preferred) == activeLocal
  {
    var r := RebuildPools(owner, |pools|, pools);
    var a := RebuildActive(pools, preferred);
    forall m | 0 <= m < |pools|
      ensures r[m] == pools[m] && a[m] == activeLocal[m]
    {
      assert PoolMatches(owner, m, pools[m]);
      PoolForSame(owner, m, pools[m]);
      if pools[m] != [] {
        IndexOfDistinct(pools[m], activeLocal[m]);
      }
    }
    assert r == pools && a == activeLocal;
  }

  /** On a settled topology assign_workspaces changes only which monitor is focused, if anything. */
  lemma AssignKeepsSettled(t: Topology, aliases: seq<MonitorAlias>, compose: MonitorCompose)
    requires Settled(t, aliases)
    ensures Assign(t, aliases, compose) ==
      t.(focused := SelectFocused(|t.monitors|, t.pools, t.activeLocal, t.focused))
  {
    var r := Assign(t, aliases, compose);
    if t.monitors == [] {
      assert r.owner == t.owner;
    } else {
      assert AliasedOwners(t, aliases) == t.owner;
      RoundRobinDone(t.owner, PrimaryMonitor(Names(t.monitors), aliases, compose), |t.monitors|);
      RebuildKeeps(t.owner, t.pools, t.activeLocal, ActiveList(t, |t.monitors|));
      assert r.monitors == t.monitors;
    }
  }

  lemma FirstActiveMonitorShows(n: nat, pools: seq<seq<int>>, activeLocal: seq<int>, k: nat)
    requires k <= n
    ensures
      var m := FirstActiveMonitor(n, pools, activeLocal, k);
      ActiveOf(pools, activeLocal, m) >= 0 || forall i :: k <= i < n ==> ActiveOf(pools, activeLocal, i) < 0
    decreases n - k
  {
  }

  lemma SelectFocusedTwice(n: nat, pools: seq<seq<int>>, activeLocal: seq<int>, focused: int)
    ensures
      var f := SelectFocused(n, pools, activeLocal, focused);
      SelectFocused(n, pools, activeLocal, f) == f
  {
    FirstActiveMonitorShows(n, pools, activeLocal, 0);
    NoActiveMonitor(n, pools, activeLocal, 0);
  }

  lemma NoActiveMonitor(n: nat, pools: seq<seq<int>>, activeLocal: seq<int>, k: nat)
    requires k <= n
    ensures (forall i :: k <= i < n ==> ActiveOf(pools, activeLocal, i) < 0) ==>
      FirstActiveMonitor(n, pools, activeLocal, k) == 0
    decreases n - k
  {
  }

  /** Assigning twice is assigning once, from any starting state. */
  lemma AssignIdempotent(t: Topology, aliases: seq<MonitorAlias>, compose: MonitorCompose)
    ensures Assign(Assign(t, aliases, compose), aliases, compose) == Assign(t, aliases, compose)
  {
    var r := Assign(t, aliases, compose);
    if t.monitors != [] {
      AssignSettles(t, aliases, compose);
      AssignKeepsSettled(r, aliases, compose);
      SelectFocusedTwice(|t.monitors|, r.pools, r.activeLocal, t.focused);
    }
  }

  // --- The other operations ----------------------------------------------------------------------

  /** A topology change settles whatever topology it starts from. */
  lemma ReplugSettles(t: Topology, mons: seq<Monitor>, aliases: seq<MonitorAlias>, compose: MonitorCompose)
    ensures Settled(Replug(t, mons, aliases, compose), aliases)
    ensures Names(Replug(t, mons, aliases, compose).monitors) == Names(mons)
  {
    var taken := TakeUpTo(t, Names(mons), |mons|);
    var t1 := t.(monitors := mons, parkedPools := taken.parkedPools, parkedActive := taken.parkedActive);
    RebuildMatches(t1, taken.owner, taken.seeds, taken.preferred, CarriedFocus(t, Names(mons)));
    AssignSettles(SetMonitors(t, mons), aliases, compose);
  }

  /** A settings reload settles the topology again, even when it removes the workspaces being shown. */
  lemma ReloadSettles(t: Topology, defs: seq<WorkspaceDef>, aliases: seq<MonitorAlias>, compose: MonitorCompose)
    requires Consistent(t) && (defs == [] ==> t.wsAlias == [])
    ensures Settled(Reload(t, defs, aliases, compose), aliases)
    ensures |Reload(t, defs, aliases, compose).wsAlias| == |defs|
  {
    AssignSettles(UpdateDefs(t, defs), aliases, compose);
  }

  /** Showing another position of a pool keeps everything else. */
  lemma ShowKeeps(t: Topology, m: int, li: int)
    requires Consistent(t) && 0 <= m < |t.monitors| && 0 <= li < |t.pools[m]|
    ensures Consistent(Show(t, m, li))
    ensures ActiveWs(Show(t, m, li), m) == t.pools[m][li]
    ensures forall k :: k != m ==> ActiveWs(Show(t, m, li), k) == ActiveWs(t, k)
  {
  }

  /** A successful switch shows `ws` on its owner, whatever the hint was, and on no other monitor. */
  lemma SwitchShows(t: Topology, ws: int, hint: int, aliases: seq<MonitorAlias>, compose: MonitorCompose)
    requires Consistent(t) && 0 <= ws < |t.wsAlias| && t.monitors != []
    ensures
      var r := SwitchTo(t, ws, hint, aliases, compose);
      && Consistent(r) && r.owner == t.owner && r.pools == t.pools && r.focused == t.focused
      && ActiveWs(r, t.owner[ws]) == ws
      && (forall k :: k != t.owner[ws] ==> ActiveWs(r, k) == ActiveWs(t, k))
  {
    var m := t.owner[ws];
    assert PoolMatches(t.owner, m, t.pools[m]);
    assert ws in t.pools[m];
    ShowKeeps(t, m, IndexOf(t.pools[m], ws));
  }

  /** Focusing a window's workspace shows it on its owner and focuses that monitor. */
  lemma FocusWorkspaceShows(t: Topology, ws: int)
    requires Consistent(t) && 0 <= ws < |t.wsAlias| && t.monitors != []
    ensures
      var r := FocusWorkspace(t, ws);
      && Consistent(r) && r.owner == t.owner && r.pools == t.pools
      && r.focused == t.owner[ws] && ActiveWs(r, r.focused) == ws
      && (forall k :: k != t.owner[ws] ==> ActiveWs(r, k) == ActiveWs(t, k))
  {
    var m := t.owner[ws];
    assert PoolMatches(t.owner, m, t.pools[m]);
    assert ws in t.pools[m];
    ShowKeeps(t, m, IndexOf(t.pools[m], ws));
  }

  // --- The partition -----------------------------------------------------------------------------

  /** Each workspace is in its owner's pool ... */
  lemma PoolsCover(t: Topology, ws: int)
    requires Consistent(t) && t.monitors != [] && 0 <= ws < |t.wsAlias|
    ensures 0 <= t.owner[ws] < |t.pools| && ws in t.pools[t.owner[ws]]
  {
    assert PoolMatches(t.owner, t.owner[ws], t.pools[t.owner[ws]]);
  }

  /** ... and nowhere else: two entries of the pools with the same workspace are the same entry. */
  lemma PoolsDisjoint(t: Topology, m1: int, i1: int, m2: int, i2: int)
    requires Consistent(t)
    requires 0 <= m1 < |t.pools| && 0 <= i1 < |t.pools[m1]| && 0 <= m2 < |t.pools| && 0 <= i2 < |t.pools[m2]|
    requires t.pools[m1][i1] == t.pools[m2][i2]
    ensures m1 == m2 && i1 == i2
  {
    assert PoolMatches(t.owner, m1, t.pools[m1]) && PoolMatches(t.owner, m2, t.pools[m2]);
    assert t.pools[m1][i1] in t.pools[m1] && t.pools[m2][i2] in t.pools[m2];
  }

  /** A workspace is shown by its owner or by nobody. */
  lemma ShownByOwner(t: Topology, m: int)
    requires Consistent(t) && 0 <= m < |t.monitors| && t.monitors[m].activeWs >= 0
    ensures 0 <= t.monitors[m].activeWs < |t.wsAlias|
    ensures t.owner[t.monitors[m].activeWs] == m
    ensures MonitorOf(t, t.monitors[m].activeWs) == m
  {
    assert PoolMatches(t.owner, m, t.pools[m]);
    assert t.pools[m] == [] || t.pools[m][t.activeLocal[m]] in t.pools[m];
  }

  lemma NoWorkspaceShownTwice(t: Topology, m1: int, m2: int)
    requires Consistent(t) && 0 <= m1 < |t.monitors| && 0 <= m2 < |t.monitors|
    requires t.monitors[m1].activeWs == t.monitors[m2].activeWs >= 0
    ensures m1 == m2
  {
    ShownByOwner(t, m1);
    ShownByOwner(t, m2);
  }
}
