/**
 * Which monitor owns which workspace (core/src/core/workspace_manager.cpp).
 *
 * A topology keeps the same facts several times over: an owner per workspace, an ordered pool per
 * monitor, the active position in each pool, the active workspace copied into each monitor, and the
 * pools parked for monitors that were unplugged. The functions below say what each operation of
 * WorkspaceManager computes; the class in Manager.dfy does the same with the source's loops.
 */
module Topology {
  import opened Seqs
  import opened Config
  import opened Monitors

  const NONE: int := -1

  datatype Topology = Topology(
    wsAlias: seq<string>,              // preferred monitor alias of each workspace, "" = any
    monitors: seq<Monitor>,
    owner: seq<int>,                   // workspace -> monitor
    pools: seq<seq<int>>,              // monitor -> ordered workspaces
    activeLocal: seq<int>,             // monitor -> position in its pool
    parkedPools: map<string, seq<int>>,
    parkedActive: map<string, int>,
    focused: int)

  function Names(ms: seq<Monitor>): (r: seq<string>)
    ensures |r| == |ms| && forall i :: 0 <= i < |ms| ==> r[i] == ms[i].name
  {
    seq(|ms|, i requires 0 <= i < |ms| => ms[i].name)
  }

  // --- Lookups ---------------------------------------------------------------------------------

  function ActiveOf(pools: seq<seq<int>>, activeLocal: seq<int>, m: int): int {
    if !(0 <= m < |pools|) || pools[m] == [] then NONE
    else
      var i := if m < |activeLocal| then activeLocal[m] else NONE;
      if 0 <= i < |pools[m]| then pools[m][i] else pools[m][0]
  }

  function ActiveWs(t: Topology, m: int): int { ActiveOf(t.pools, t.activeLocal, m) }

  function MonitorOf(t: Topology, ws: int): int {
    if 0 <= ws < |t.wsAlias| && ws < |t.owner| && 0 <= t.owner[ws] < |t.monitors| then t.owner[ws] else NONE
  }

  function LocalIndexOf(t: Topology, m: int, ws: int): int {
    if 0 <= m < |t.pools| then IndexOf(t.pools[m], ws) else NONE
  }

  /** The monitor an alias names: the first matching alias decides, else the name itself is an output. */
  function ResolveAlias(names: seq<string>, aliases: seq<MonitorAlias>, alias: string): (m: int)
    ensures NONE <= m < |names|
  {
    if aliases == [] then IndexOf(names, alias)
    else if aliases[0].alias == alias then IndexOf(names, aliases[0].output)
    else ResolveAlias(names, aliases[1..], alias)
  }

  function PrimaryMonitor(names: seq<string>, aliases: seq<MonitorAlias>, compose: MonitorCompose): (m: int)
    ensures NONE <= m < |names|
  {
    var byAlias := if compose.primary != "" then ResolveAlias(names, aliases, compose.primary) else NONE;
    if byAlias >= 0 then byAlias else if names == [] then NONE else 0
  }

  // --- Rebuilding pools from owners --------------------------------------------------------------

  /** `acc` followed by those of `ids` that monitor `m` owns, each once. */
  function AppendOwned(owner: seq<int>, m: int, acc: seq<int>, ids: seq<int>): seq<int>
    decreases |ids|
  {
    if ids == [] then acc
    else
      var done := AppendOwned(owner, m, acc, ids[..|ids| - 1]);
      var id := ids[|ids| - 1];
      if 0 <= id < |owner| && owner[id] == m && id !in done then done + [id] else done
  }

  /** Monitor `m`'s pool: its seed order first, then the rest of what it owns in ascending order. */
  function PoolFor(owner: seq<int>, m: int, seed: seq<int>): seq<int> {
    AppendOwned(owner, m, AppendOwned(owner, m, [], seed), Range(|owner|))
  }

  function SeedOf(seeds: seq<seq<int>>, m: int): seq<int> {
    if 0 <= m < |seeds| then seeds[m] else []
  }

  function RebuildPools(owner: seq<int>, n: nat, seeds: seq<seq<int>>): (r: seq<seq<int>>)
    ensures |r| == n && forall m :: 0 <= m < n ==> r[m] == PoolFor(owner, m, SeedOf(seeds, m))
  {
    seq(n, m => PoolFor(owner, m, SeedOf(seeds, m)))
  }

  function ActiveLocalFor(pool: seq<int>, preferred: int): int {
    if pool == [] then NONE
    else
      var li := IndexOf(pool, preferred);
      if li >= 0 then li else 0
  }

  function PreferredOf(preferred: seq<int>, m: int): int {
    if 0 <= m < |preferred| then preferred[m] else NONE
  }

  function RebuildActive(pools: seq<seq<int>>, preferred: seq<int>): (r: seq<int>)
    ensures |r| == |pools|
    ensures forall m :: 0 <= m < |pools| ==> r[m] == ActiveLocalFor(pools[m], PreferredOf(preferred, m))
  {
    seq(|pools|, m requires 0 <= m < |pools| => ActiveLocalFor(pools[m], PreferredOf(preferred, m)))
  }

  /** sync_monitors_active_ws. */
  function SyncActive(ms: seq<Monitor>, pools: seq<seq<int>>, activeLocal: seq<int>): (r: seq<Monitor>)
    ensures |r| == |ms| && Names(r) == Names(ms)
    ensures forall m :: 0 <= m < |ms| ==> r[m] == ms[m].(activeWs := ActiveOf(pools, activeLocal, m))
  {
    seq(|ms|, m requires 0 <= m < |ms| => ms[m].(activeWs := ActiveOf(pools, activeLocal, m)))
  }

  /** The first monitor from `k` on that shows a workspace, or 0. */
  function FirstActiveMonitor(n: nat, pools: seq<seq<int>>, activeLocal: seq<int>, k: nat): (m: int)
    requires k <= n
    ensures m == 0 || k <= m < n
    decreases n - k
  {
    if k == n then 0
    else if ActiveOf(pools, activeLocal, k) >= 0 then k
    else FirstActiveMonitor(n, pools, activeLocal, k + 1)
  }

  /** select_valid_focused_monitor. */
  function SelectFocused(n: nat, pools: seq<seq<int>>, activeLocal: seq<int>, focused: int): (m: int)
    ensures n > 0 ==> 0 <= m < n
    ensures n == 0 ==> m == 0
  {
    if n == 0 then 0
    else
      var f := if 0 <= focused < n then focused else 0;
      if ActiveOf(pools, activeLocal, f) >= 0 then f else FirstActiveMonitor(n, pools, activeLocal, 0)
  }

  /** Everything that is recomputed once the owners are decided. */
  function Rebuild(t: Topology, owner: seq<int>, seeds: seq<seq<int>>, preferred: seq<int>, focused: int): Topology {
    var pools := RebuildPools(owner, |t.monitors|, seeds);
    var active := RebuildActive(pools, preferred);
    t.(owner := owner, pools := pools, activeLocal := active,
       monitors := SyncActive(t.monitors, pools, active),
       focused := SelectFocused(|t.monitors|, pools, active, focused))
  }

  // --- assign_workspaces -------------------------------------------------------------------------

  function KeptOwner(t: Topology, ws: int): int {
    if |t.owner| == |t.wsAlias| && 0 <= ws < |t.owner| && 0 <= t.owner[ws] < |t.monitors| then t.owner[ws] else NONE
  }

  function AliasOwner(t: Topology, aliases: seq<MonitorAlias>, ws: int): (m: int)
    requires 0 <= ws < |t.wsAlias|
    ensures NONE <= m < |t.monitors|
  {
    if t.wsAlias[ws] == "" then NONE else ResolveAlias(Names(t.monitors), aliases, t.wsAlias[ws])
  }

  /** Owners before round robin: the alias wins, else the old owner if it is still there. */
  function AliasedOwners(t: Topology, aliases: seq<MonitorAlias>): (r: seq<int>)
    ensures |r| == |t.wsAlias|
    ensures forall w :: 0 <= w < |r| ==>
      r[w] == (if AliasOwner(t, aliases, w) >= 0 then AliasOwner(t, aliases, w) else KeptOwner(t, w))
  {
    seq(|t.wsAlias|, w requires 0 <= w < |t.wsAlias| =>
      if AliasOwner(t, aliases, w) >= 0 then AliasOwner(t, aliases, w) else KeptOwner(t, w))
  }

  /** Unowned workspaces are dealt to monitors in turn, starting at `rr`. */
  function RoundRobin(owner: seq<int>, rr: int, n: nat): (r: seq<int>)
    requires 0 <= rr < n
    ensures |r| == |owner|
    ensures forall w :: 0 <= w < |r| ==> if owner[w] != NONE then r[w] == owner[w] else 0 <= r[w] < n
  {
    if owner == [] then []
    else if owner[0] != NONE then [owner[0]] + RoundRobin(owner[1..], rr, n)
    else [rr] + RoundRobin(owner[1..], (rr + 1) % n, n)
  }

  function AssignedOwners(t: Topology, aliases: seq<MonitorAlias>, compose: MonitorCompose): (r: seq<int>)
    requires t.monitors != []
    ensures |r| == |t.wsAlias|
  {
    RoundRobin(AliasedOwners(t, aliases), PrimaryMonitor(Names(t.monitors), aliases, compose), |t.monitors|)
  }

  function ActiveList(t: Topology, n: nat): (r: seq<int>)
    ensures |r| == n && forall m :: 0 <= m < n ==> r[m] == ActiveWs(t, m)
  {
    seq(n, m => ActiveWs(t, m))
  }

  function Assign(t: Topology, aliases: seq<MonitorAlias>, compose: MonitorCompose): Topology {
    if t.monitors == [] then
      t.(owner := seq(|t.wsAlias|, _ => NONE), pools := [], activeLocal := [])
    else
      Rebuild(t, AssignedOwners(t, aliases, compose), t.pools, ActiveList(t, |t.monitors|), t.focused)
  }

  // --- set_monitors ------------------------------------------------------------------------------

  /** The old monitors' active workspaces as set_monitors reads them. */
  function OldActive(t: Topology, i: int): int {
    if 0 <= i < |t.pools| && i < |t.activeLocal| then ActiveWs(t, i) else NONE
  }

  /** parked_pools after the first `k` old monitors were looked at. */
  function ParkPools(t: Topology, newNames: seq<string>, k: nat): map<string, seq<int>>
    requires k <= |t.monitors|
  {
    if k == 0 then t.parkedPools
    else
      var p := ParkPools(t, newNames, k - 1);
      var name := t.monitors[k - 1].name;
      if name in newNames then p else p[name := SeedOf(t.pools, k - 1)]
  }

  function ParkActive(t: Topology, newNames: seq<string>, k: nat): map<string, int>
    requires k <= |t.monitors|
  {
    if k == 0 then t.parkedActive
    else
      var p := ParkActive(t, newNames, k - 1);
      var name := t.monitors[k - 1].name;
      if name in newNames then p else p[name := OldActive(t, k - 1)]
  }

  /** Owners carried over by monitor name. */
  function CarriedOwner(t: Topology, newNames: seq<string>, ws: int): (m: int)
    ensures NONE <= m < |newNames|
  {
    if 0 <= ws < |t.owner| && 0 <= t.owner[ws] < |t.monitors| then IndexOf(newNames, t.monitors[t.owner[ws]].name)
    else NONE
  }

  /** What the new monitors 0..k have taken over: owners, seed pools, preferred workspaces, what stays parked. */
  datatype Takeover = Takeover(
    owner: seq<int>, seeds: seq<seq<int>>, preferred: seq<int>,
    parkedPools: map<string, seq<int>>, parkedActive: map<string, int>)

  function TakeOwners(owner: seq<int>, ids: seq<int>, m: int): (r: seq<int>)
    ensures |r| == |owner|
    ensures forall w :: 0 <= w < |r| ==> r[w] == (if w in ids then m else owner[w])
  {
    seq(|owner|, w requires 0 <= w < |owner| => if w in ids then m else owner[w])
  }

  /** One turn of the loop over the new monitors: monitor number |r.seeds|, called `name`. */
  function TakeNext(t: Topology, r: Takeover, name: string): (r': Takeover)
    ensures |r'.owner| == |r.owner| && |r'.seeds| == |r.seeds| + 1 && |r'.preferred| == |r.preferred| + 1
  {
    var oi := LastIndexOf(Names(t.monitors), name);
    if oi >= 0 then
      r.(seeds := r.seeds + [SeedOf(t.pools, oi)], preferred := r.preferred + [OldActive(t, oi)])
    else if name in r.parkedPools then
      var active := if name in r.parkedActive then r.parkedActive[name] else NONE;
      Takeover(TakeOwners(r.owner, r.parkedPools[name], |r.seeds|),
               r.seeds + [r.parkedPools[name]], r.preferred + [active],
               r.parkedPools - {name}, r.parkedActive - {name})
    else
      r.(seeds := r.seeds + [[]], preferred := r.preferred + [NONE])
  }

  function TakeNone(t: Topology, newNames: seq<string>): (r: Takeover)
    ensures |r.owner| == |t.wsAlias| && |r.seeds| == |r.preferred| == 0
  {
    Takeover(seq(|t.wsAlias|, w => CarriedOwner(t, newNames, w)), [], [],
             ParkPools(t, newNames, |t.monitors|), ParkActive(t, newNames, |t.monitors|))
  }

  function TakeUpTo(t: Topology, newNames: seq<string>, k: nat): (r: Takeover)
    requires k <= |newNames|
    ensures |r.owner| == |t.wsAlias| && |r.seeds| == |r.preferred| == k
  {
    if k == 0 then TakeNone(t, newNames) else TakeNext(t, TakeUpTo(t, newNames, k - 1), newNames[k - 1])
  }

  function CarriedFocus(t: Topology, newNames: seq<string>): int {
    var oldName := if 0 <= t.focused < |t.monitors| then t.monitors[t.focused].name else "";
    var byName := IndexOf(newNames, oldName);
    if byName >= 0 then byName else if t.focused >= |newNames| then 0 else t.focused
  }

  function SetMonitors(t: Topology, mons: seq<Monitor>): Topology {
    var taken := TakeUpTo(t, Names(mons), |mons|);
    Rebuild(t.(monitors := mons, parkedPools := taken.parkedPools, parkedActive := taken.parkedActive),
            taken.owner, taken.seeds, taken.preferred, CarriedFocus(t, Names(mons)))
  }

  /** One hot-plug: the body of ApplyMonitorTopology before it reconciles windows. */
  function Replug(t: Topology, mons: seq<Monitor>, aliases: seq<MonitorAlias>, compose: MonitorCompose): Topology {
    Assign(SetMonitors(t, mons), aliases, compose)
  }

  // --- switching ---------------------------------------------------------------------------------

  function SwitchTarget(t: Topology, ws: int, hint: int, aliases: seq<MonitorAlias>, compose: MonitorCompose): (m: int)
    requires 0 <= ws < |t.wsAlias| && t.monitors != []
    ensures 0 <= m < |t.monitors|
  {
    var names := Names(t.monitors);
    if MonitorOf(t, ws) >= 0 then MonitorOf(t, ws)
    else if 0 <= hint < |t.monitors| then hint
    else
      var a := if t.wsAlias[ws] != "" then ResolveAlias(names, aliases, t.wsAlias[ws]) else NONE;
      if a >= 0 then a else PrimaryMonitor(names, aliases, compose)
  }

  /** Monitor `m` shows position `li` of its pool. */
  function Show(t: Topology, m: int, li: int): Topology
    requires 0 <= m < |t.activeLocal|
  {
    var active := t.activeLocal[m := li];
    t.(activeLocal := active, monitors := SyncActive(t.monitors, t.pools, active))
  }

  function SwitchTo(t: Topology, ws: int, hint: int, aliases: seq<MonitorAlias>, compose: MonitorCompose): (r: Topology)
    requires Sized(t)
    ensures Sized(r) && r.wsAlias == t.wsAlias
  {
    if !(0 <= ws < |t.wsAlias|) || t.monitors == [] then t
    else
      var m := SwitchTarget(t, ws, hint, aliases, compose);
      var t1 := if MonitorOf(t, ws) >= 0 then t else t.(owner := t.owner[ws := m]);
      var t2 := if LocalIndexOf(t1, m, ws) >= 0 then t1 else t1.(pools := t1.pools[m := t1.pools[m] + [ws]]);
      Show(t2, m, LocalIndexOf(t2, m, ws))
  }

  function SwitchLocal(t: Topology, m: int, li: int): (r: Topology)
    requires Sized(t)
    ensures Sized(r) && r.wsAlias == t.wsAlias
  {
    if 0 <= m < |t.pools| && 0 <= li < |t.pools[m]| then Show(t, m, li) else t
  }

  /** The monitor side of focusing a window that sits on workspace `ws`. */
  function FocusWorkspace(t: Topology, ws: int): (r: Topology)
    requires Sized(t)
    ensures Sized(r) && r.wsAlias == t.wsAlias
  {
    var m := MonitorOf(t, ws);
    if m < 0 then t
    else
      var li := LocalIndexOf(t, m, ws);
      var t1 := if li >= 0 then t.(activeLocal := t.activeLocal[m := li]) else t;
      t1.(focused := m, monitors := SyncActive(t1.monitors, t1.pools, t1.activeLocal))
  }

  function FocusMonitor(t: Topology, m: int): Topology {
    if 0 <= m < |t.monitors| then t.(focused := m) else t
  }

  // --- update_workspace_defs ---------------------------------------------------------------------

  /** The first kept workspace of a list, or -1. */
  function FirstBelow(pool: seq<int>, n: int): (r: int)
    ensures r == NONE || (r in pool && r < n)
  {
    if pool == [] then NONE else if pool[0] < n then pool[0] else FirstBelow(pool[1..], n)
  }

  /** Where the windows of a removed workspace go: first kept workspace of its monitor, else workspace 0. */
  function FallbackFor(t: Topology, ws: int, n: int): int {
    var m := if 0 <= ws < |t.owner| then t.owner[ws] else NONE;
    var r := if 0 <= m < |t.pools| then FirstBelow(t.pools[m], n) else NONE;
    if r >= 0 then r else 0
  }

  function KeepBelow(ids: seq<int>, n: int): (r: seq<int>)
    ensures forall id :: id in r <==> id in ids && id < n
  {
    if ids == [] then []
    else if ids[0] < n then [ids[0]] + KeepBelow(ids[1..], n)
    else KeepBelow(ids[1..], n)
  }

  function DefAliases(defs: seq<WorkspaceDef>): (r: seq<string>)
    ensures |r| == |defs| && forall i :: 0 <= i < |defs| ==> r[i] == defs[i].monitor
  {
    seq(|defs|, i requires 0 <= i < |defs| => defs[i].monitor)
  }

  /** The active position a monitor gets while its pool still holds removed workspaces. */
  function ShrunkActive(t: Topology, n: int, m: int): int
    requires 0 <= m < |t.monitors|
  {
    var active := ActiveWs(t, m);
    var now := if m < |t.activeLocal| then t.activeLocal[m] else NONE;
    if active < n || m >= |t.pools| then now
    else
      var li := IndexOf(t.pools[m], FallbackFor(t, active, n));
      if li >= 0 then li else if t.pools[m] != [] then 0 else now
  }

  function UpdateDefs(t: Topology, defs: seq<WorkspaceDef>): Topology
    requires Sized(t) && (defs == [] ==> t.wsAlias == [])
  {
    var n := |defs|;
    var was := |t.wsAlias|;
    if n >= was then
      t.(wsAlias := DefAliases(defs), owner := t.owner + seq(n - was, _ => NONE))
    else
      t.(wsAlias := DefAliases(defs),
         owner := t.owner[..n],
         activeLocal := seq(|t.monitors|, m requires 0 <= m < |t.monitors| => ShrunkActive(t, n, m)),
         pools := seq(|t.pools|, m requires 0 <= m < |t.pools| => KeepBelow(t.pools[m], n)),
         parkedPools := map name | name in t.parkedPools :: KeepBelow(t.parkedPools[name], n),
         parkedActive := map name | name in t.parkedActive ::
           (if t.parkedActive[name] >= n then 0 else t.parkedActive[name]))
  }

  /** A settings reload on a running window manager: update_workspace_defs, then assign_workspaces. */
  function Reload(t: Topology, defs: seq<WorkspaceDef>, aliases: seq<MonitorAlias>, compose: MonitorCompose): Topology
    requires Sized(t) && (defs == [] ==> t.wsAlias == [])
  {
    Assign(UpdateDefs(t, defs), aliases, compose)
  }

  // --- The invariant -----------------------------------------------------------------------------

  predicate Sized(t: Topology) {
    |t.owner| == |t.wsAlias| && |t.pools| == |t.activeLocal| == |t.monitors|
  }

  /** Every pool lists, once each, exactly the workspaces its monitor owns. */
  ghost predicate PoolsMatch(owner: seq<int>, pools: seq<seq<int>>) {
    forall m :: 0 <= m < |pools| ==> PoolMatches(owner, m, pools[m])
  }

  ghost predicate PoolMatches(owner: seq<int>, m: int, pool: seq<int>) {
    Distinct(pool) && forall id :: id in pool <==> 0 <= id < |owner| && owner[id] == m
  }

  ghost predicate ActiveInRange(pools: seq<seq<int>>, activeLocal: seq<int>) {
    |activeLocal| == |pools| &&
    forall m :: 0 <= m < |pools| ==>
      if pools[m] == [] then activeLocal[m] == NONE else 0 <= activeLocal[m] < |pools[m]|
  }

  ghost predicate OwnersInRange(owner: seq<int>, n: nat) {
    forall w :: 0 <= w < |owner| ==> if n == 0 then owner[w] == NONE else 0 <= owner[w] < n
  }

  ghost predicate Consistent(t: Topology) {
    Sized(t) &&
    OwnersInRange(t.owner, |t.monitors|) &&
    PoolsMatch(t.owner, t.pools) &&
    ActiveInRange(t.pools, t.activeLocal) &&
    (forall m :: 0 <= m < |t.monitors| ==> t.monitors[m].activeWs == ActiveWs(t, m)) &&
    (if t.monitors == [] then t.focused == 0 else 0 <= t.focused < |t.monitors|)
  }
}
