/**
 * Unplugging monitors and plugging them back in restores the workspace assignment, whatever the
 * aliases and the round robin did with the orphaned workspaces in between.
 */
module Hotplug {
  import opened Seqs
  import opened Config
  import opened Monitors
  import opened Topology
  import opened TopologyProofs

  /** The output name an alias stands for. */
  function AliasTarget(aliases: seq<MonitorAlias>, alias: string): string {
    if aliases == [] then alias
    else if aliases[0].alias == alias then aliases[0].output
    else AliasTarget(aliases[1..], alias)
  }

  lemma ResolveByTarget(names: seq<string>, aliases: seq<MonitorAlias>, alias: string)
    ensures ResolveAlias(names, aliases, alias) == IndexOf(names, AliasTarget(aliases, alias))
  {
  }

  ghost predicate Within(sub: seq<string>, names: seq<string>) {
    Distinct(sub) && Distinct(names) && forall i :: 0 <= i < |sub| ==> sub[i] in names
  }

  /** Position in `names` of the i-th surviving monitor. */
  function Home(names: seq<string>, sub: seq<string>, i: int): (j: int)
    requires 0 <= i < |sub| && sub[i] in names
    ensures 0 <= j < |names| && names[j] == sub[i]
  {
    IndexOf(names, sub[i])
  }

  // --- Unplugging --------------------------------------------------------------------------------

  /**
   * What unplugging remembers: survivors keep their pool in front and their workspaces, and what they show
   * leads back to the position they had in their old pool; the rest is parked.
   */
  ghost predicate Remembers(t: Topology, u: Topology) {
    var names, sub := Names(t.monitors), Names(u.monitors);
    && Consistent(u) && u.wsAlias == t.wsAlias && Within(sub, names)
    && (forall i :: 0 <= i < |sub| ==> RemembersSurvivor(t, u, i, Home(names, sub, i)))
    && (forall j :: 0 <= j < |names| && names[j] !in sub ==> RemembersParked(t, u, j))
    && (forall n :: n !in names ==> SameParked(t, u, n))
  }

  ghost predicate RemembersSurvivor(t: Topology, u: Topology, i: int, j: int) {
    && 0 <= i < |u.pools| && 0 <= j < |t.pools|
    && t.pools[j] <= u.pools[i]
    && (t.pools[j] != [] ==> j < |t.activeLocal| && ActiveLocalFor(t.pools[j], ActiveWs(u, i)) == t.activeLocal[j])
    && (forall w :: 0 <= w < |t.owner| && t.owner[w] == j ==> w < |u.owner| && u.owner[w] == i)
  }

  ghost predicate RemembersParked(t: Topology, u: Topology, j: int) {
    && 0 <= j < |t.pools| && j < |t.monitors|
    && t.monitors[j].name in u.parkedPools && u.parkedPools[t.monitors[j].name] == t.pools[j]
    && t.monitors[j].name in u.parkedActive && u.parkedActive[t.monitors[j].name] == ActiveWs(t, j)
  }

  ghost predicate SameParked(t: Topology, u: Topology, n: string) {
    && (n in t.parkedPools <==> n in u.parkedPools) && (n in t.parkedPools ==> u.parkedPools[n] == t.parkedPools[n])
    && (n in t.parkedActive <==> n in u.parkedActive) && (n in t.parkedActive ==> u.parkedActive[n] == t.parkedActive[n])
  }

  lemma {:induction false} ParkLookup(t: Topology, sub: seq<string>, k: nat)
    requires k <= |t.monitors| && Distinct(Names(t.monitors)) && Sized(t)
    ensures
      var pp, pa := ParkPools(t, sub, k), ParkActive(t, sub, k);
      && (forall j :: 0 <= j < k && t.monitors[j].name !in sub ==>
            && t.monitors[j].name in pp && pp[t.monitors[j].name] == t.pools[j]
            && t.monitors[j].name in pa && pa[t.monitors[j].name] == ActiveWs(t, j))
      && (forall n :: n in sub || n !in Names(t.monitors)[..k] ==>
            && (n in pp <==> n in t.parkedPools) && (n in pp ==> pp[n] == t.parkedPools[n])
            && (n in pa <==> n in t.parkedActive) && (n in pa ==> pa[n] == t.parkedActive[n]))
  {
    if k > 0 {
      ParkLookup(t, sub, k - 1);
      PrefixSnoc(Names(t.monitors), k - 1);
    }
  }

  /** After `|r.seeds|` turns, each survivor found its old pool, and owners and parked pools are those of `r0`. */
  ghost predicate TookSurvivors(t: Topology, sub: seq<string>, r0: Takeover, r: Takeover)
    requires Within(sub, Names(t.monitors)) && Sized(t)
  {
    && |r.seeds| == |r.preferred| <= |sub|
    && r.owner == r0.owner && r.parkedPools == r0.parkedPools && r.parkedActive == r0.parkedActive
    && (forall i :: 0 <= i < |r.seeds| ==>
          r.seeds[i] == t.pools[Home(Names(t.monitors), sub, i)] &&
          r.preferred[i] == ActiveWs(t, Home(Names(t.monitors), sub, i)))
  }

  lemma TookNext(t: Topology, sub: seq<string>, r0: Takeover, r: Takeover)
    requires Within(sub, Names(t.monitors)) && Sized(t) && TookSurvivors(t, sub, r0, r) && |r.seeds| < |sub|
    ensures TookSurvivors(t, sub, r0, TakeNext(t, r, sub[|r.seeds|]))
  {
    var j := Home(Names(t.monitors), sub, |r.seeds|);
    IndexOfDistinct(Names(t.monitors), j);
    assert LastIndexOf(Names(t.monitors), sub[|r.seeds|]) == j;
  }

  lemma {:induction false} TakeSurvivors(t: Topology, sub: seq<string>, k: nat)
    requires k <= |sub| && Within(sub, Names(t.monitors)) && Sized(t)
    ensures TookSurvivors(t, sub, TakeNone(t, sub), TakeUpTo(t, sub, k))
  {
    if k > 0 {
      TakeSurvivors(t, sub, k - 1);
      TookNext(t, sub, TakeNone(t, sub), TakeUpTo(t, sub, k - 1));
    }
  }

  /** A survivor owns under its new number exactly what it owned under its old one. */
  lemma CarriedToSurvivor(t: Topology, sub: seq<string>, i: int, w: int)
    requires Consistent(t) && Within(sub, Names(t.monitors)) && 0 <= i < |sub| && 0 <= w < |t.owner|
    ensures CarriedOwner(t, sub, w) == i <==> t.owner[w] == Home(Names(t.monitors), sub, i)
  {
    IndexOfDistinct(sub, i);
  }

  /** After set_monitors alone, each survivor has exactly its old pool and shows what it showed. */
  lemma SurvivorAfterSet(t: Topology, mons: seq<Monitor>, i: int)
    requires Consistent(t) && Within(Names(mons), Names(t.monitors)) && 0 <= i < |mons|
    ensures
      var s, j := SetMonitors(t, mons), Home(Names(t.monitors), Names(mons), i);
      && |s.owner| == |t.owner| && |s.pools| == |mons|
      && s.pools[i] == t.pools[j]
      && (t.pools[j] != [] ==> ActiveWs(s, i) == ActiveWs(t, j))
      && (forall w :: 0 <= w < |t.owner| ==> (s.owner[w] == i <==> t.owner[w] == j))
  {
    var sub, names := Names(mons), Names(t.monitors);
    var taken, j := TakeUpTo(t, sub, |sub|), Home(names, sub, i);
    TakeSurvivors(t, sub, |sub|);
    forall w | 0 <= w < |t.owner|
      ensures taken.owner[w] == i <==> t.owner[w] == j
    {
      CarriedToSurvivor(t, sub, i, w);
    }
    SurvivorPool(t, taken, i, j);
  }

  lemma SurvivorPool(t: Topology, taken: Takeover, i: int, j: int)
    requires Consistent(t) && 0 <= j < |t.pools| && |taken.owner| == |t.owner|
    requires 0 <= i < |taken.seeds| == |taken.preferred|
    requires forall w :: 0 <= w < |t.owner| ==> (taken.owner[w] == i <==> t.owner[w] == j)
    requires taken.seeds[i] == t.pools[j] && taken.preferred[i] == ActiveWs(t, j)
    ensures
      var pools := RebuildPools(taken.owner, |taken.seeds|, taken.seeds);
      pools[i] == t.pools[j] &&
      (t.pools[j] != [] ==> ActiveOf(pools, RebuildActive(pools, taken.preferred), i) == ActiveWs(t, j))
  {
    var pools := RebuildPools(taken.owner, |taken.seeds|, taken.seeds);
    assert PoolMatches(t.owner, j, t.pools[j]);
    PoolForSame(taken.owner, i, t.pools[j]);
    if t.pools[j] != [] {
      assert ActiveWs(t, j) in t.pools[j];
      RebuildShowsPreferred(pools, taken.preferred, i);
    }
  }

  /** An alias never takes a workspace from the survivor that owns it. */
  lemma AliasKeepsOwned(t: Topology, s: Topology, aliases: seq<MonitorAlias>, w: int)
    requires Settled(t, aliases) && Within(Names(s.monitors), Names(t.monitors))
    requires s.wsAlias == t.wsAlias && |s.owner| == |t.owner| && 0 <= w < |t.owner|
    requires s.owner[w] == CarriedOwner(t, Names(s.monitors), w) >= 0
    ensures AliasedOwners(s, aliases)[w] == s.owner[w]
  {
    var sub, names := Names(s.monitors), Names(t.monitors);
    if t.wsAlias[w] != "" {
      var x := AliasTarget(aliases, t.wsAlias[w]);
      ResolveByTarget(sub, aliases, t.wsAlias[w]);
      ResolveByTarget(names, aliases, t.wsAlias[w]);
      assert x in sub ==> names[t.owner[w]] == x;
    }
  }

  lemma SetMonitorsCarries(t: Topology, mons: seq<Monitor>)
    requires Consistent(t) && Within(Names(mons), Names(t.monitors))
    ensures
      var s := SetMonitors(t, mons);
      && Names(s.monitors) == Names(mons) && s.wsAlias == t.wsAlias && |s.owner| == |t.owner|
      && forall w :: 0 <= w < |t.owner| ==> s.owner[w] == CarriedOwner(t, Names(mons), w)
  {
    TakeSurvivors(t, Names(mons), |mons|);
  }

  lemma OwnedStays(t: Topology, s: Topology, aliases: seq<MonitorAlias>, compose: MonitorCompose, w: int)
    requires Settled(t, aliases) && Within(Names(s.monitors), Names(t.monitors)) && s.monitors != []
    requires s.wsAlias == t.wsAlias && |s.owner| == |t.owner| && 0 <= w < |t.owner|
    requires s.owner[w] == CarriedOwner(t, Names(s.monitors), w) >= 0
    ensures AssignedOwners(s, aliases, compose)[w] == s.owner[w]
  {
    AliasKeepsOwned(t, s, aliases, w);
  }

  /** Rebuilding around pool `j` of `t`, which monitor `i` of `s` holds and goes on owning. */
  lemma ExtendedPool(t: Topology, s: Topology, owner: seq<int>, i: int, j: int)
    requires Consistent(t) && 0 <= j < |t.pools| && 0 <= i < |s.pools| == |s.monitors| && s.pools[i] == t.pools[j]
    requires |owner| == |t.owner| && forall w :: 0 <= w < |t.owner| && t.owner[w] == j ==> owner[w] == i
    requires t.pools[j] != [] ==> ActiveWs(s, i) == ActiveWs(t, j)
    ensures
      var pools := RebuildPools(owner, |s.monitors|, s.pools);
      && t.pools[j] <= pools[i]
      && (t.pools[j] != [] ==>
            ActiveOf(pools, RebuildActive(pools, ActiveList(s, |s.monitors|)), i) == t.pools[j][t.activeLocal[j]])
  {
    var pools := RebuildPools(owner, |s.monitors|, s.pools);
    assert PoolMatches(t.owner, j, t.pools[j]);
    PoolForExtends(owner, i, t.pools[j]);
    if t.pools[j] != [] {
      assert ActiveWs(t, j) in t.pools[j];
      RebuildShowsPreferred(pools, ActiveList(s, |s.monitors|), i);
    }
  }

  /** The survivors of an unplug keep their pool in front, and keep showing what they showed. */
  lemma UnplugSurvivor(t: Topology, mons: seq<Monitor>, aliases: seq<MonitorAlias>, compose: MonitorCompose, i: int)
    requires Settled(t, aliases) && Within(Names(mons), Names(t.monitors)) && 0 <= i < |mons|
    ensures RemembersSurvivor(t, Replug(t, mons, aliases, compose), i, Home(Names(t.monitors), Names(mons), i))
  {
    hide SetMonitors, AssignedOwners, CarriedOwner, RebuildPools, ActiveOf;
    var s, j := SetMonitors(t, mons), Home(Names(t.monitors), Names(mons), i);
    SurvivorAfterSet(t, mons, i);
    SetMonitorsCarries(t, mons);
    assert |Names(s.monitors)| == |mons|;
    var owner := AssignedOwners(s, aliases, compose);
    forall w | 0 <= w < |t.owner| && t.owner[w] == j
      ensures owner[w] == i
    {
      OwnedStays(t, s, aliases, compose, w);
    }
    ExtendedPool(t, s, owner, i, j);
    if t.pools[j] != [] {
      assert PoolMatches(t.owner, j, t.pools[j]);
      IndexOfDistinct(t.pools[j], t.activeLocal[j]);
    }
  }

  /** What a topology change leaves parked: set_monitors decides it, assign_workspaces does not touch it. */
  lemma ReplugParks(t: Topology, mons: seq<Monitor>, aliases: seq<MonitorAlias>, compose: MonitorCompose)
    requires Consistent(t) && Within(Names(mons), Names(t.monitors))
    ensures
      var u := Replug(t, mons, aliases, compose);
      && u.wsAlias == t.wsAlias
      && u.parkedPools == ParkPools(t, Names(mons), |t.monitors|)
      && u.parkedActive == ParkActive(t, Names(mons), |t.monitors|)
  {
    TakeSurvivors(t, Names(mons), |mons|);
  }

  lemma UnplugRemembers(t: Topology, mons: seq<Monitor>, aliases: seq<MonitorAlias>, compose: MonitorCompose)
    requires Settled(t, aliases) && Within(Names(mons), Names(t.monitors))
    ensures Remembers(t, Replug(t, mons, aliases, compose))
  {
    hide Replug, RemembersSurvivor, RemembersParked, SameParked;
    var u := Replug(t, mons, aliases, compose);
    var names, sub := Names(t.monitors), Names(mons);
    ReplugSettles(t, mons, aliases, compose);
    ReplugParks(t, mons, aliases, compose);
    ParkLookup(t, sub, |names|);
    forall i | 0 <= i < |sub|
      ensures RemembersSurvivor(t, u, i, Home(names, sub, i))
    {
      UnplugSurvivor(t, mons, aliases, compose, i);
    }
    ParkedRemembered(t, u);
  }

  lemma ParkedRemembered(t: Topology, u: Topology)
    requires Consistent(t) && Distinct(Names(t.monitors))
    requires u.parkedPools == ParkPools(t, Names(u.monitors), |t.monitors|)
    requires u.parkedActive == ParkActive(t, Names(u.monitors), |t.monitors|)
    ensures forall j :: 0 <= j < |t.monitors| && t.monitors[j].name !in Names(u.monitors) ==> RemembersParked(t, u, j)
    ensures forall n :: n !in Names(t.monitors) ==> SameParked(t, u, n)
  {
    ParkLookup(t, Names(u.monitors), |t.monitors|);
    assert Names(t.monitors)[..|t.monitors|] == Names(t.monitors);
  }

  // --- Plugging back in --------------------------------------------------------------------------

  /** The takeover of the first |r.seeds| original monitors, from a state that remembers them. */
  ghost predicate TakenBack(t: Topology, u: Topology, r: Takeover) {
    && |r.seeds| <= |t.monitors| && |r.preferred| == |r.seeds| && |r.owner| == |t.owner| && Sized(t)
    && OwnersBack(t, Names(u.monitors), r)
    && (forall j :: 0 <= j < |r.seeds| ==> SeedBack(t, j, r.seeds[j], r.preferred[j]))
    && (forall j :: |r.seeds| <= j < |t.monitors| && t.monitors[j].name !in Names(u.monitors) ==> StillParked(t, j, r))
  }

  ghost predicate OwnersBack(t: Topology, sub: seq<string>, r: Takeover) {
    |r.owner| == |t.owner| &&
    forall w | 0 <= w < |t.owner| && 0 <= t.owner[w] < |t.monitors| ::
      (t.monitors[t.owner[w]].name in sub || t.owner[w] < |r.seeds|) ==> r.owner[w] == t.owner[w]
  }

  ghost predicate SeedBack(t: Topology, j: int, seed: seq<int>, preferred: int) {
    && 0 <= j < |t.pools| && t.pools[j] <= seed && OnlyForeign(t, j, seed[|t.pools[j]|..])
    && (t.pools[j] != [] ==> j < |t.activeLocal| && ActiveLocalFor(t.pools[j], preferred) == t.activeLocal[j])
  }

  ghost predicate StillParked(t: Topology, j: int, r: Takeover) {
    && 0 <= j < |t.pools| && j < |t.monitors|
    && t.monitors[j].name in r.parkedPools && r.parkedPools[t.monitors[j].name] == t.pools[j]
    && t.monitors[j].name in r.parkedActive && r.parkedActive[t.monitors[j].name] == ActiveWs(t, j)
  }

  ghost predicate OnlyForeign(t: Topology, j: int, ids: seq<int>) {
    forall id :: id in ids && 0 <= id < |t.owner| ==> t.owner[id] != j
  }

  lemma {:induction false} NothingParked(u: Topology, names: seq<string>, k: nat)
    requires k <= |u.monitors| && forall i :: 0 <= i < |u.monitors| ==> u.monitors[i].name in names
    ensures ParkPools(u, names, k) == u.parkedPools && ParkActive(u, names, k) == u.parkedActive
  {
    if k > 0 {
      NothingParked(u, names, k - 1);
    }
  }

  lemma ForeignTail(t: Topology, j: int, pool: seq<int>)
    requires Consistent(t) && 0 <= j < |t.pools| && Distinct(pool) && t.pools[j] <= pool
    ensures OnlyForeign(t, j, pool[|t.pools[j]|..])
  {
    assert PoolMatches(t.owner, j, t.pools[j]);
    var tail := pool[|t.pools[j]|..];
    forall id | id in tail && 0 <= id < |t.owner|
      ensures t.owner[id] != j
    {
      var i :| 0 <= i < |tail| && tail[i] == id;
      assert pool[|t.pools[j]| + i] == id;
    }
  }

  lemma TakeBackFirst(t: Topology, u: Topology)
    requires Consistent(t) && Remembers(t, u)
    ensures TakenBack(t, u, TakeNone(u, Names(t.monitors)))
  {
    var names, sub := Names(t.monitors), Names(u.monitors);
    NothingParked(u, names, |u.monitors|);
    forall w | 0 <= w < |t.owner| && 0 <= t.owner[w] < |names| && names[t.owner[w]] in sub
      ensures CarriedOwner(u, names, w) == t.owner[w]
    {
      var i := IndexOf(sub, names[t.owner[w]]);
      IndexOfDistinct(names, t.owner[w]);
      assert RemembersSurvivor(t, u, i, Home(names, sub, i));
    }
  }

  /** The seed of monitor k when it survived. */
  lemma SurvivorSeed(t: Topology, u: Topology, k: nat)
    requires Consistent(t) && Remembers(t, u) && k < |t.monitors| && t.monitors[k].name in Names(u.monitors)
    ensures
      var i := LastIndexOf(Names(u.monitors), t.monitors[k].name);
      0 <= i < |u.pools| && SeedBack(t, k, u.pools[i], ActiveWs(u, i))
  {
    var names, sub := Names(t.monitors), Names(u.monitors);
    var i := LastIndexOf(sub, names[k]);
    IndexOfDistinct(names, k);
    assert RemembersSurvivor(t, u, i, Home(names, sub, i));
    assert PoolMatches(u.owner, i, u.pools[i]);
    ForeignTail(t, k, u.pools[i]);
  }

  lemma RememberedSized(t: Topology, u: Topology)
    requires Remembers(t, u)
    ensures Sized(u)
  {
  }

  lemma SurvivorTaken(u: Topology, r: Takeover, name: string)
    requires name in Names(u.monitors) && Sized(u)
    ensures
      var i := LastIndexOf(Names(u.monitors), name);
      TakeNext(u, r, name) == r.(seeds := r.seeds + [u.pools[i]], preferred := r.preferred + [ActiveWs(u, i)])
  {
  }

  lemma TakeBackSurvivor(t: Topology, u: Topology, r: Takeover)
    requires Consistent(t) && Remembers(t, u) && |r.seeds| < |t.monitors| && TakenBack(t, u, r)
    requires t.monitors[|r.seeds|].name in Names(u.monitors)
    ensures TakenBack(t, u, TakeNext(u, r, t.monitors[|r.seeds|].name))
  {
    hide SeedBack, ActiveLocalFor, Consistent, ActiveOf, TakeNext, RemembersSurvivor, RemembersParked, SameParked;
    var k := |r.seeds|;
    var r' := TakeNext(u, r, t.monitors[k].name);
    SurvivorSeed(t, u, k);
    RememberedSized(t, u);
    SurvivorTaken(u, r, t.monitors[k].name);
    assert SeedBack(t, k, r'.seeds[k], r'.preferred[k]);
    forall j | |r'.seeds| <= j < |t.monitors| && t.monitors[j].name !in Names(u.monitors)
      ensures StillParked(t, j, r')
    {
      assert StillParked(t, j, r);
    }
  }

  lemma TakeBackParked(t: Topology, u: Topology, r: Takeover)
    requires Consistent(t) && Remembers(t, u) && |r.seeds| < |t.monitors| && TakenBack(t, u, r)
    requires t.monitors[|r.seeds|].name !in Names(u.monitors)
    ensures TakenBack(t, u, TakeNext(u, r, t.monitors[|r.seeds|].name))
  {
    var k := |r.seeds|;
    var r' := TakeNext(u, r, t.monitors[k].name);
    assert StillParked(t, k, r);
    assert PoolMatches(t.owner, k, t.pools[k]);
    ForeignTail(t, k, t.pools[k]);
    if t.pools[k] != [] {
      IndexOfDistinct(t.pools[k], t.activeLocal[k]);
    }
    assert SeedBack(t, k, r'.seeds[k], r'.preferred[k]);
    forall j | |r'.seeds| <= j < |t.monitors| && t.monitors[j].name !in Names(u.monitors)
      ensures StillParked(t, j, r')
    {
      assert StillParked(t, j, r);
      assert Names(t.monitors)[j] != Names(t.monitors)[k];
    }
  }

  lemma {:induction false} TakeBack(t: Topology, u: Topology, k: nat)
    requires Consistent(t) && Remembers(t, u) && k <= |t.monitors|
    ensures TakenBack(t, u, TakeUpTo(u, Names(t.monitors), k))
  {
    if k == 0 {
      TakeBackFirst(t, u);
    } else {
      TakeBack(t, u, k - 1);
      var r := TakeUpTo(u, Names(t.monitors), k - 1);
      if t.monitors[k - 1].name in Names(u.monitors) {
        TakeBackSurvivor(t, u, r);
      } else {
        TakeBackParked(t, u, r);
      }
    }
  }

  lemma RestoredPool(t: Topology, u: Topology, r: Takeover, j: int)
    requires Consistent(t) && 0 <= j < |t.monitors| && TakenBack(t, u, r) && |r.seeds| == |t.monitors| && r.owner == t.owner
    ensures
      && PoolFor(r.owner, j, r.seeds[j]) == t.pools[j]
      && ActiveLocalFor(t.pools[j], r.preferred[j]) == t.activeLocal[j]
  {
    var tail := r.seeds[j][|t.pools[j]|..];
    assert r.seeds[j] == t.pools[j] + tail;
    assert PoolMatches(t.owner, j, t.pools[j]);
    PoolForRestores(t.owner, j, t.pools[j], tail);
  }

  lemma RestoredPools(t: Topology, u: Topology, r: Takeover)
    requires Consistent(t) && TakenBack(t, u, r) && |r.seeds| == |t.monitors| && r.owner == t.owner
    ensures
      var pools := RebuildPools(r.owner, |t.monitors|, r.seeds);
      pools == t.pools && RebuildActive(pools, r.preferred) == t.activeLocal
  {
    var pools := RebuildPools(r.owner, |t.monitors|, r.seeds);
    forall j | 0 <= j < |t.monitors|
      ensures pools[j] == t.pools[j] && ActiveLocalFor(pools[j], r.preferred[j]) == t.activeLocal[j]
    {
      RestoredPool(t, u, r, j);
    }
    assert pools == t.pools && RebuildActive(pools, r.preferred) == t.activeLocal;
  }

  lemma RestoredOwners(t: Topology, u: Topology, r: Takeover)
    requires Consistent(t) && Remembers(t, u) && TakenBack(t, u, r) && |r.seeds| == |t.monitors|
    requires t.monitors == [] ==> r == TakeNone(u, [])
    ensures r.owner == t.owner
  {
    forall w | 0 <= w < |t.owner|
      ensures r.owner[w] == t.owner[w]
    {
    }
  }

  /** set_monitors with the original list already restores owners, pools and active positions. */
  lemma SetMonitorsRestores(t: Topology, u: Topology, mons: seq<Monitor>)
    requires Consistent(t) && Remembers(t, u) && Names(mons) == Names(t.monitors)
    ensures
      var s := SetMonitors(u, mons);
      s.owner == t.owner && s.pools == t.pools && s.activeLocal == t.activeLocal && s.wsAlias == t.wsAlias
  {
    var names := Names(t.monitors);
    assert |mons| == |Names(mons)| == |t.monitors|;
    TakeBack(t, u, |names|);
    RestoredOwners(t, u, TakeUpTo(u, names, |names|));
    RestoredPools(t, u, TakeUpTo(u, names, |names|));
  }

  lemma SetMonitorsNames(u: Topology, mons: seq<Monitor>)
    ensures Names(SetMonitors(u, mons).monitors) == Names(mons)
  {
  }

  lemma SetMonitorsConsistent(u: Topology, mons: seq<Monitor>)
    ensures
      var s := SetMonitors(u, mons);
      OwnersInRange(s.owner, |mons|) ==> Consistent(s)
  {
    var taken := TakeUpTo(u, Names(mons), |mons|);
    RebuildMatches(u.(monitors := mons, parkedPools := taken.parkedPools, parkedActive := taken.parkedActive),
                   taken.owner, taken.seeds, taken.preferred, CarriedFocus(u, Names(mons)));
  }

  /** Once set_monitors has restored everything, assign_workspaces finds nothing to do. */
  lemma AssignAfterRestore(t: Topology, s: Topology, aliases: seq<MonitorAlias>, compose: MonitorCompose)
    requires Settled(t, aliases) && Consistent(s) && Names(s.monitors) == Names(t.monitors)
    requires s.owner == t.owner && s.pools == t.pools && s.activeLocal == t.activeLocal && s.wsAlias == t.wsAlias
    ensures Restored(t, Assign(s, aliases, compose), aliases)
  {
    assert |s.monitors| == |Names(s.monitors)| == |t.monitors|;
    AssignKeepsSettled(s, aliases, compose);
    AssignSettles(s, aliases, compose);
  }

  /** `back` assigns workspaces, orders pools and shows workspaces exactly as `t` does. */
  ghost predicate Restored(t: Topology, back: Topology, aliases: seq<MonitorAlias>) {
    && Settled(back, aliases) && Names(back.monitors) == Names(t.monitors)
    && back.owner == t.owner && back.pools == t.pools && back.activeLocal == t.activeLocal
    && (forall m :: 0 <= m < |t.monitors| && m < |back.monitors| ==>
          back.monitors[m].activeWs == t.monitors[m].activeWs)
  }

  /**
   * From a settled topology, unplug any monitors (the survivors may come back in any order), then plug the
   * original list back in. Every owner, every pool in its original order and every monitor's active
   * workspace are what they were. HotplugRuns.dfy says the same of the core, with commands in between.
   */
  lemma ReplugRestores(t: Topology, fewer: seq<Monitor>, mons: seq<Monitor>,
                         aliases: seq<MonitorAlias>, compose: MonitorCompose)
    requires Settled(t, aliases)
    requires Distinct(Names(t.monitors)) && Names(mons) == Names(t.monitors)
    requires Distinct(Names(fewer)) && forall i :: 0 <= i < |fewer| ==> fewer[i].name in Names(t.monitors)
    ensures Restored(t, Replug(Replug(t, fewer, aliases, compose), mons, aliases, compose), aliases)
  {
    hide SetMonitors, Assign, Remembers, Restored;
    var u := Replug(t, fewer, aliases, compose);
    assert |mons| == |Names(mons)| == |t.monitors|;
    UnplugRemembers(t, fewer, aliases, compose);
    SetMonitorsRestores(t, u, mons);
    SetMonitorsConsistent(u, mons);
    SetMonitorsNames(u, mons);
    AssignAfterRestore(t, SetMonitors(u, mons), aliases, compose);
  }
}
