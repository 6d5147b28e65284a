/**
 * What each monitor shows, in which order it lists its workspaces and which monitor is focused, after
 * workspaces are assigned, monitors change or a reload removes workspaces
 * (core/src/core/workspace_manager.cpp:224-325, 472-611).
 */
module MonitorProofs {
  import opened Seqs
  import opened Config
  import opened Monitors
  import opened Topology
  import opened TopologyProofs
  import opened Assignment
  import opened Hotplug
  import opened ReducerProofs

  // --- The focused monitor -----------------------------------------------------------------------

  predicate ShowsSome(ms: seq<Monitor>, m: int) { 0 <= m < |ms| && ms[m].activeWs >= 0 }

  /** The monitor chosen for the focus: `f` if it shows a workspace, else the first one that does, else number 0. */
  ghost predicate Chosen(ms: seq<Monitor>, f: int, m: int) {
    if ShowsSome(ms, f) then m == f
    else if exists k :: ShowsSome(ms, k) then ShowsSome(ms, m) && forall k :: 0 <= k < m ==> !ShowsSome(ms, k)
    else m == 0
  }

  lemma {:induction false} FirstActiveIs(n: nat, pools: seq<seq<int>>, active: seq<int>, ms: seq<Monitor>, k: nat)
    requires k <= n == |ms| && forall m :: 0 <= m < n ==> ms[m].activeWs == ActiveOf(pools, active, m)
    requires forall m :: 0 <= m < k ==> !ShowsSome(ms, m)
    ensures
      var m := FirstActiveMonitor(n, pools, active, k);
      if exists j :: ShowsSome(ms, j) then ShowsSome(ms, m) && forall j :: 0 <= j < m ==> !ShowsSome(ms, j) else m == 0
    decreases n - k
  {
    if k < n && ActiveOf(pools, active, k) < 0 {
      FirstActiveIs(n, pools, active, ms, k + 1);
    }
  }

  lemma RebuildChooses(t: Topology, owner: seq<int>, seeds: seq<seq<int>>, preferred: seq<int>, focused: int)
    requires t.monitors != []
    ensures
      var r := Rebuild(t, owner, seeds, preferred, focused);
      |r.monitors| == |t.monitors| && Chosen(r.monitors, if 0 <= focused < |t.monitors| then focused else 0, r.focused)
  {
    var r := Rebuild(t, owner, seeds, preferred, focused);
    FirstActiveIs(|t.monitors|, r.pools, r.activeLocal, r.monitors, 0);
  }

  /** assign_workspaces keeps the focused monitor while it shows a workspace, and else takes the first that does. */
  lemma AssignChooses(t: Topology, aliases: seq<MonitorAlias>, compose: MonitorCompose)
    requires t.monitors != []
    ensures
      var r := Assign(t, aliases, compose);
      |r.monitors| == |t.monitors| && Chosen(r.monitors, if 0 <= t.focused < |t.monitors| then t.focused else 0, r.focused)
  {
    hide Rebuild, Chosen;
    RebuildChooses(t, AssignedOwners(t, aliases, compose), t.pools, ActiveList(t, |t.monitors|), t.focused);
  }

  function FocusedName(t: Topology): string {
    if 0 <= t.focused < |t.monitors| then t.monitors[t.focused].name else ""
  }

  /** Where the focus is looked for after the monitors changed: by name, else the same number, else number 0. */
  ghost predicate Follows(t: Topology, mons: seq<Monitor>, f: int) {
    if exists m :: FirstNamed(mons, FocusedName(t), m) then FirstNamed(mons, FocusedName(t), f)
    else f == if t.focused < |mons| then t.focused else 0
  }

  lemma CarriedIs(t: Topology, mons: seq<Monitor>, f: int)
    requires mons != [] && Follows(t, mons, f) && t.focused >= 0
    ensures 0 <= f < |mons| && CarriedFocus(t, Names(mons)) == f
  {
    hide FirstNamed;
    var name := FocusedName(t);
    assert |Names(mons)| == |mons|;
    NamedIs(mons, name, IndexOf(Names(mons), name));
    forall m | FirstNamed(mons, name, m)
      ensures m == IndexOf(Names(mons), name)
    {
      NamedIs(mons, name, m);
    }
  }

  /** set_monitors: the focus follows the name of the focused monitor, as long as that one shows a workspace. */
  lemma SetMonitorsFollows(t: Topology, mons: seq<Monitor>, f: int)
    requires mons != [] && Follows(t, mons, f) && t.focused >= 0
    ensures
      var s := SetMonitors(t, mons);
      |s.monitors| == |mons| && 0 <= f < |mons| && Chosen(s.monitors, f, s.focused)
  {
    hide Rebuild, Chosen, CarriedFocus;
    CarriedIs(t, mons, f);
    var taken := TakeUpTo(t, Names(mons), |mons|);
    var t1 := t.(monitors := mons, parkedPools := taken.parkedPools, parkedActive := taken.parkedActive);
    RebuildChooses(t1, taken.owner, taken.seeds, taken.preferred, CarriedFocus(t, Names(mons)));
  }

  /**
   * A topology change keeps the focus on the monitor of the same name, if that one still shows a workspace
   * when monitors are carried over and when workspaces are assigned.
   */
  lemma ReplugFollows(t: Topology, mons: seq<Monitor>, aliases: seq<MonitorAlias>, compose: MonitorCompose, f: int)
    requires 0 <= t.focused < |t.monitors| && FirstNamed(mons, t.monitors[t.focused].name, f)
    ensures
      var s, r := SetMonitors(t, mons), Replug(t, mons, aliases, compose);
      && |s.monitors| == |r.monitors| == |mons|
      && (ShowsSome(s.monitors, f) && ShowsSome(r.monitors, f) ==> r.focused == f)
  {
    hide SetMonitors, Assign;
    SetMonitorsFollows(t, mons, f);
    AssignChooses(SetMonitors(t, mons), aliases, compose);
  }

  /** When monitors are only unplugged, the focused one stays focused if it survives and showed a workspace. */
  lemma UnplugKeepsFocus(t: Topology, mons: seq<Monitor>, aliases: seq<MonitorAlias>, compose: MonitorCompose, f: int)
    requires Settled(t, aliases) && Within(Names(mons), Names(t.monitors))
    requires 0 <= t.focused < |t.monitors| && t.monitors[t.focused].activeWs >= 0
    requires FirstNamed(mons, t.monitors[t.focused].name, f)
    ensures Replug(t, mons, aliases, compose).focused == f
  {
    hide SetMonitors, Assign, Settled, Replug;
    ReplugFollows(t, mons, aliases, compose, f);
    SurvivorShows(t, mons, aliases, compose, f);
  }

  lemma SurvivorShows(t: Topology, mons: seq<Monitor>, aliases: seq<MonitorAlias>, compose: MonitorCompose, f: int)
    requires Settled(t, aliases) && Within(Names(mons), Names(t.monitors))
    requires 0 <= t.focused < |t.monitors| && t.monitors[t.focused].activeWs >= 0
    requires FirstNamed(mons, t.monitors[t.focused].name, f)
    ensures ShowsSome(SetMonitors(t, mons).monitors, f) && ShowsSome(Replug(t, mons, aliases, compose).monitors, f)
  {
    hide SetMonitors, Replug, RemembersSurvivor;
    var j := Home(Names(t.monitors), Names(mons), f);
    IndexOfDistinct(Names(t.monitors), t.focused);
    assert j == t.focused;
    PoolShown(t, j);
    assert |Names(mons)| == |mons|;
    SurvivorAfterSet(t, mons, f);
    SetMonitorsActive(t, mons, f);
    UnplugSurvivor(t, mons, aliases, compose, f);
    ReplugSettles(t, mons, aliases, compose);
    assert |Names(Replug(t, mons, aliases, compose).monitors)| == |mons|;
    KeptPool(t, Replug(t, mons, aliases, compose), f, j);
    PoolShown(Replug(t, mons, aliases, compose), f);
  }

  lemma KeptPool(t: Topology, u: Topology, i: int, j: int)
    requires RemembersSurvivor(t, u, i, j) && t.pools[j] != []
    ensures 0 <= i < |u.pools| && u.pools[i] != []
  {
  }

  /** A monitor shows a workspace exactly if its pool has one. */
  lemma PoolShown(t: Topology, m: int)
    requires Consistent(t) && 0 <= m < |t.monitors|
    ensures t.monitors[m].activeWs == ActiveWs(t, m) && (t.monitors[m].activeWs >= 0 <==> t.pools[m] != [])
  {
    assert PoolMatches(t.owner, m, t.pools[m]);
    if t.pools[m] != [] {
      assert t.pools[m][t.activeLocal[m]] in t.pools[m];
    }
  }

  lemma SetMonitorsActive(t: Topology, mons: seq<Monitor>, m: int)
    requires 0 <= m < |mons|
    ensures
      var s := SetMonitors(t, mons);
      |s.monitors| == |mons| && s.monitors[m].activeWs == ActiveWs(s, m)
  {
  }

  // --- Pools in order ----------------------------------------------------------------------------

  /** What was in `seed` comes first, in its order; the rest follows in ascending order. */
  ghost predicate SeedFirst(seed: seq<int>, pool: seq<int>) {
    forall i, j :: 0 <= i < j < |pool| ==>
      if pool[j] in seed then pool[i] in seed && IndexOf(seed, pool[i]) < IndexOf(seed, pool[j])
      else pool[i] in seed || pool[i] < pool[j]
  }

  lemma IndexOfSnoc(front: seq<int>, last: int, id: int)
    ensures IndexOf(front + [last], id) == if id in front then IndexOf(front, id) else if id == last then |front| else -1
  {
    var list := front + [last];
    if id in front {
      var i := IndexOf(front, id);
      assert forall k :: 0 <= k < i ==> list[k] == front[..i][k];
      FirstIs(list, id, i);
    } else if id == last {
      assert forall k :: 0 <= k < |front| ==> list[k] == front[k];
      FirstIs(list, id, |front|);
    }
  }

  lemma FirstIs(list: seq<int>, id: int, i: int)
    requires 0 <= i < |list| && list[i] == id && forall k :: 0 <= k < i ==> list[k] != id
    ensures IndexOf(list, id) == i
  {
    var r := IndexOf(list, id);
    assert forall k :: 0 <= k < r ==> list[k] == list[..r][k];
  }

  lemma {:induction false} OwnedInOrder(owner: seq<int>, m: int, ids: seq<int>)
    ensures SeedFirst(ids, AppendOwned(owner, m, [], ids))
    ensures forall id :: id in AppendOwned(owner, m, [], ids) ==> id in ids
    decreases |ids|
  {
    hide IndexOf;
    AppendOwnedMembers(owner, m, [], ids);
    if ids != [] {
      var front, last := ids[..|ids| - 1], ids[|ids| - 1];
      OwnedInOrder(owner, m, front);
      AppendOwnedMembers(owner, m, [], front);
      assert ids == front + [last];
      var done, r := AppendOwned(owner, m, [], front), AppendOwned(owner, m, [], ids);
      forall i, j | 0 <= i < j < |r|
        ensures r[j] in ids && r[i] in ids && IndexOf(ids, r[i]) < IndexOf(ids, r[j])
      {
        IndexOfSnoc(front, last, r[i]);
        IndexOfSnoc(front, last, r[j]);
        assert r[i] == done[i] && done[i] in done;
        assert r[j] in r;
        if j < |done| {
          assert done[j] in done;
        } else if r[j] in front {
          NotThere(owner, m, front, last);
        }
      }
    }
  }

  /** What was skipped is there already. */
  lemma NotThere(owner: seq<int>, m: int, front: seq<int>, last: int)
    requires last in front && last !in AppendOwned(owner, m, [], front)
    ensures !(0 <= last < |owner| && owner[last] == m)
  {
    AppendOwnedMembers(owner, m, [], front);
  }

  lemma {:induction false} RestAscending(owner: seq<int>, m: int, acc: seq<int>, seed: seq<int>, k: nat)
    requires k <= |owner| && SeedFirst(seed, acc) && (forall id :: id in acc ==> id in seed)
    requires forall id :: id in seed && 0 <= id < |owner| && owner[id] == m ==> id in acc
    ensures
      var r := AppendOwned(owner, m, acc, Range(k));
      SeedFirst(seed, r) && (forall id :: id in r ==> id in acc || (0 <= id < k && id !in seed))
  {
    hide IndexOf;
    if k > 0 {
      RestAscending(owner, m, acc, seed, k - 1);
      assert Range(k)[..k - 1] == Range(k - 1) && Range(k)[k - 1] == k - 1;
      var done, r := AppendOwned(owner, m, acc, Range(k - 1)), AppendOwned(owner, m, acc, Range(k));
      AppendOwnedMembers(owner, m, acc, Range(k - 1));
      forall i, j | 0 <= i < j < |r|
        ensures if r[j] in seed then r[i] in seed && IndexOf(seed, r[i]) < IndexOf(seed, r[j]) else r[i] in seed || r[i] < r[j]
      {
        assert r[i] == done[i] && done[i] in done;
        if j < |done| {
          assert r[j] == done[j];
        }
      }
    } else {
      assert Range(0) == [];
    }
  }

  /** Rebuilding a pool keeps the order it had; what is new to the monitor comes after, in ascending order. */
  lemma PoolForOrdered(owner: seq<int>, m: int, seed: seq<int>)
    ensures SeedFirst(seed, PoolFor(owner, m, seed)) && PoolMatches(owner, m, PoolFor(owner, m, seed))
  {
    hide SeedFirst;
    var head := AppendOwned(owner, m, [], seed);
    OwnedInOrder(owner, m, seed);
    AppendOwnedMembers(owner, m, [], seed);
    RestAscending(owner, m, head, seed, |owner|);
    PoolForMatches(owner, m, seed);
  }

  /** A pool shows its monitor's preferred workspace or, if that is not in it, its first one. */
  ghost predicate ShowsFrom(pool: seq<int>, preferred: int, active: int) {
    if pool == [] then active == NONE else active == if preferred in pool then preferred else pool[0]
  }

  /**
   * assign_workspaces: each monitor keeps the order of its workspaces and shows what it showed, while it owns
   * that; new workspaces follow in ascending order, and a monitor that lost what it showed shows its first one.
   */
  lemma AssignArranges(t: Topology, aliases: seq<MonitorAlias>, compose: MonitorCompose, m: int)
    requires 0 <= m < |t.monitors|
    ensures
      var r := Assign(t, aliases, compose);
      && |r.pools| == |r.monitors| == |t.monitors|
      && SeedFirst(if m < |t.pools| then t.pools[m] else [], r.pools[m]) && PoolMatches(r.owner, m, r.pools[m])
      && ShowsFrom(r.pools[m], ActiveWs(t, m), r.monitors[m].activeWs)
  {
    hide SeedFirst, AssignedOwners, PoolMatches, AppendOwned, PoolFor;
    var owner := AssignedOwners(t, aliases, compose);
    PoolForOrdered(owner, m, SeedOf(t.pools, m));
  }
}
