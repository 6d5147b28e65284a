/**
 * WorkspaceManager as the source runs it (core/src/core/workspace_manager.cpp): fields that are changed in
 * place, by loops. Every method computes what the functions in Topology.dfy and Windows.dfy say.
 */
module Manager {
  import opened Seqs
  import opened Config
  import opened Monitors
  import opened Topology
  import Spec = Topology
  import opened TopologyProofs
  import opened Windows
  import Cycle = FocusCycle
  import opened Reducer

  // --- Searches ----------------------------------------------------------------------------------

  /** Any linear search for the first equal element. */
  method FindFirst<T(==)>(s: seq<T>, x: T) returns (i: int)
    ensures i == IndexOf(s, x)
  {
    i := 0;
    while i < |s|
      invariant 0 <= i <= |s| && x !in s[..i]
    {
      if s[i] == x {
        FoundAt(s, x, i);
        return;
      }
      PrefixSnoc(s, i);
      i := i + 1;
    }
    assert s[..|s|] == s;
    i := -1;
  }

  lemma FoundAt<T>(s: seq<T>, x: T, i: int)
    requires 0 <= i < |s| && s[i] == x && x !in s[..i]
    ensures IndexOf(s, x) == i
  {
  }

  class WorkspaceManager {
    // the workspaces, in parallel: alias, windows, cursor
    var wsAlias: seq<string>
    var lists: seq<seq<nat>>
    var cursors: seq<int>
    // the hash indexes
    var windowIndex: Index
    var windowWorkspace: map<nat, int>
    // the monitors and what they show
    var monitors: seq<Monitor>
    var wsOwner: seq<int>
    var monitorPools: seq<seq<int>>
    var monitorActiveLocal: seq<int>
    var parkedPools: map<string, seq<int>>
    var parkedActiveWs: map<string, int>
    var focusedMonitor: int

    ghost function Topo(): Topology
      reads this
    {
      Topology(wsAlias, monitors, wsOwner, monitorPools, monitorActiveLocal, parkedPools, parkedActiveWs, focusedMonitor)
    }

    ghost function Tab(): Table
      reads this
    {
      Table(lists, cursors, windowIndex, windowWorkspace)
    }

    constructor ()
      ensures Topo() == Topology([], [], [], [], [], map[], map[], 0)
      ensures Tab() == Table([], [], map[], map[])
    {
      wsAlias, lists, cursors := [], [], [];
      windowIndex, windowWorkspace := map[], map[];
      monitors, wsOwner, monitorPools, monitorActiveLocal := [], [], [], [];
      parkedPools, parkedActiveWs, focusedMonitor := map[], map[], 0;
    }

    // --- Lookups -----------------------------------------------------------------------------------

    predicate IsMonValid(m: int)
      reads this`monitors
    {
      0 <= m < |monitors|
    }

    predicate IsWsValid(ws: int)
      reads this`wsAlias
    {
      0 <= ws < |wsAlias|
    }

    method MonitorIndexByName(name: string) returns (m: int)
      ensures m == IndexOf(Names(monitors), name)
    {
      m := FindFirst(Names(monitors), name);
    }

    method ResolveAliasMonitor(alias: string, aliases: seq<MonitorAlias>) returns (m: int)
      ensures m == ResolveAlias(Names(monitors), aliases, alias)
    {
      var i := 0;
      while i < |aliases|
        invariant 0 <= i <= |aliases|
        invariant ResolveAlias(Names(monitors), aliases[i..], alias) == ResolveAlias(Names(monitors), aliases, alias)
      {
        assert aliases[i..][1..] == aliases[i + 1..];
        if aliases[i].alias == alias {
          m := MonitorIndexByName(aliases[i].output);
          return;
        }
        i := i + 1;
      }
      m := MonitorIndexByName(alias);
    }

    method PrimaryMonitorIndex(aliases: seq<MonitorAlias>, compose: MonitorCompose) returns (m: int)
      ensures m == PrimaryMonitor(Names(monitors), aliases, compose)
    {
      if compose.primary != "" {
        m := ResolveAliasMonitor(compose.primary, aliases);
        if m >= 0 {
          return;
        }
      }
      m := if monitors == [] then NONE else 0;
    }

    /** workspace_of_window. */
    function WorkspaceOfWindow(id: nat): (ws: int)
      reads this
      ensures ws == HomeOf(Tab(), id)
    {
      if id == NO_WINDOW || id !in windowWorkspace then NO_WS
      else if 0 <= windowWorkspace[id] < |lists| && windowWorkspace[id] < |cursors| then windowWorkspace[id]
      else NO_WS
    }

    function ActiveWsOfMonitor(m: int): int
      reads this`monitorPools, this`monitorActiveLocal
    {
      ActiveOf(monitorPools, monitorActiveLocal, m)
    }

    function MonitorOfWs(ws: int): int
      reads this`wsAlias, this`wsOwner, this`monitors
    {
      if IsWsValid(ws) && ws < |wsOwner| && IsMonValid(wsOwner[ws]) then wsOwner[ws] else NONE
    }

    // --- What monitors show ------------------------------------------------------------------------

    method SyncMonitorsActiveWs()
      modifies this`monitors
      ensures monitors == SyncActive(old(monitors), monitorPools, monitorActiveLocal)
    {
      for i := 0 to |monitors|
        invariant |monitors| == |old(monitors)|
        invariant forall m | 0 <= m < |monitors| ::
          monitors[m] == if m < i then old(monitors)[m].(activeWs := ActiveWsOfMonitor(m)) else old(monitors)[m]
      {
        monitors := monitors[i := monitors[i].(activeWs := ActiveWsOfMonitor(i))];
      }
    }

    method SelectValidFocusedMonitor()
      modifies this`focusedMonitor
      ensures focusedMonitor == SelectFocused(|monitors|, monitorPools, monitorActiveLocal, old(focusedMonitor))
    {
      if monitors == [] {
        focusedMonitor := 0;
        return;
      }
      if !IsMonValid(focusedMonitor) {
        focusedMonitor := 0;
      }
      if ActiveWsOfMonitor(focusedMonitor) >= 0 {
        return;
      }
      var i := 0;
      while i < |monitors|
        invariant 0 <= i <= |monitors|
        invariant FirstActiveMonitor(|monitors|, monitorPools, monitorActiveLocal, i) ==
                  FirstActiveMonitor(|monitors|, monitorPools, monitorActiveLocal, 0)
      {
        if ActiveWsOfMonitor(i) >= 0 {
          focusedMonitor := i;
          return;
        }
        i := i + 1;
      }
      focusedMonitor := 0;
    }

    method SetFocusedMonitor(m: int)
      modifies this`focusedMonitor
      ensures Topo() == FocusMonitor(old(Topo()), m)
    {
      if !IsMonValid(m) {
        return;
      }
      focusedMonitor := m;
    }

    // --- Rebuilding the pools ----------------------------------------------------------------------

    /** append_if_owned: `placed` marks the workspaces that are in a pool already. */
    method AppendIfOwned(m: int, ws: int, placed: array<bool>)
      requires placed.Length == |wsAlias|
      requires |monitorPools| == |monitors| && |wsOwner| == |wsAlias| && PlacedMarks(placed[..])
      modifies this`monitorPools, placed
      ensures |monitorPools| == |monitors| && PlacedMarks(placed[..])
      ensures forall j | 0 <= j < |monitors| ::
        monitorPools[j] == if j == m then AppendOwned(wsOwner, m, old(monitorPools)[m], [ws]) else old(monitorPools)[j]
    {
      if 0 <= m < |monitors| {
        AppendOwnedOne(wsOwner, m, monitorPools[m], ws);
      }
      if !IsMonValid(m) || !IsWsValid(ws) {
        return;
      }
      if ws >= |wsOwner| {
        return;
      }
      if wsOwner[ws] != m {
        return;
      }
      if placed[ws] {
        return;
      }
      monitorPools := monitorPools[m := monitorPools[m] + [ws]];
      placed[ws] := true;
    }

    /** A workspace is marked exactly if the pool of its owner lists it. */
    ghost predicate PlacedMarks(placed: seq<bool>)
      reads this`monitorPools, this`wsOwner, this`monitors
    {
      |placed| == |wsOwner| && |monitorPools| == |monitors| &&
      forall ws :: 0 <= ws < |wsOwner| && IsMonValid(wsOwner[ws]) ==>
        (placed[ws] <==> ws in monitorPools[wsOwner[ws]])
    }

    /** The seeds come first, in their order. */
    method PlaceSeeds(seeds: seq<seq<int>>, placed: array<bool>)
      requires placed.Length == |wsAlias| == |wsOwner| && PlacedMarks(placed[..])
      requires forall j :: 0 <= j < |monitors| ==> monitorPools[j] == []
      modifies this`monitorPools, placed
      ensures PlacedMarks(placed[..])
      ensures forall j :: 0 <= j < |monitors| ==> monitorPools[j] == AppendOwned(wsOwner, j, [], SeedOf(seeds, j))
    {
      hide AppendOwned;
      NothingOwned(wsOwner);
      var seeded := Min(|seeds|, |monitors|);
      for m := 0 to seeded
        invariant PlacedMarks(placed[..])
        invariant forall j | 0 <= j < |monitors| ::
          monitorPools[j] == if j < m then AppendOwned(wsOwner, j, [], seeds[j]) else []
      {
        var ids := seeds[m];
        for k := 0 to |ids|
          invariant PlacedMarks(placed[..])
          invariant monitorPools[m] == AppendOwned(wsOwner, m, [], ids[..k])
          invariant forall j | 0 <= j < |monitors| && j != m ::
            monitorPools[j] == if j < m then AppendOwned(wsOwner, j, [], seeds[j]) else []
        {
          AppendIfOwned(m, ids[k], placed);
          AppendOwnedSnoc(wsOwner, m, [], ids, k);
        }
        assert ids[..|ids|] == ids;
      }
    }

    /** Every other workspace follows, in ascending order. */
    method PlaceRest(placed: array<bool>)
      requires placed.Length == |wsAlias| == |wsOwner| && PlacedMarks(placed[..])
      modifies this`monitorPools, placed
      ensures |monitorPools| == |monitors|
      ensures forall j :: 0 <= j < |monitors| ==>
        monitorPools[j] == AppendOwned(wsOwner, j, old(monitorPools)[j], Range(|wsOwner|))
    {
      var all := Range(|wsOwner|);
      for ws := 0 to |wsAlias|
        invariant PlacedMarks(placed[..])
        invariant forall j :: 0 <= j < |monitors| ==>
          monitorPools[j] == AppendOwned(wsOwner, j, old(monitorPools)[j], all[..ws])
      {
        ghost var before := monitorPools;
        var m := MonitorOfWs(ws);
        AppendIfOwned(m, ws, placed);
        forall j | 0 <= j < |monitors|
          ensures monitorPools[j] == AppendOwned(wsOwner, j, old(monitorPools)[j], all[..ws + 1])
        {
          AppendOwnedSnoc(wsOwner, j, old(monitorPools)[j], all, ws);
          AppendOwnedOne(wsOwner, j, before[j], ws);
        }
      }
      assert all[..|all|] == all;
    }

    method RebuildPoolsFromOwner(seeds: seq<seq<int>>, preferred: seq<int>)
      requires |wsOwner| == |wsAlias|
      modifies this`monitorPools, this`monitorActiveLocal
      ensures monitorPools == RebuildPools(wsOwner, |monitors|, seeds)
      ensures monitorActiveLocal == RebuildActive(monitorPools, preferred)
    {
      monitorPools := seq(|monitors|, _ => []);
      monitorActiveLocal :=
        if |monitorActiveLocal| >= |monitors| then monitorActiveLocal[..|monitors|]
        else monitorActiveLocal + seq(|monitors| - |monitorActiveLocal|, _ => -1);
      var placed := new bool[|wsAlias|](_ => false);
      PlaceSeeds(seeds, placed);
      PlaceRest(placed);
      ghost var pools := monitorPools;
      for m := 0 to |monitorPools|
        invariant monitorPools == pools && |monitorActiveLocal| == |pools|
        invariant forall j :: 0 <= j < m ==> monitorActiveLocal[j] == ActiveLocalFor(monitorPools[j], PreferredOf(preferred, j))
      {
        var pool := monitorPools[m];
        if pool == [] {
          monitorActiveLocal := monitorActiveLocal[m := -1];
          continue;
        }
        var ws := if m < |preferred| then preferred[m] else -1;
        var li := FindFirst(pool, ws);
        monitorActiveLocal := monitorActiveLocal[m := if li >= 0 then li else 0];
      }
    }

    // --- assign_workspaces -------------------------------------------------------------------------

    /** The first two loops: forget owners that are gone, then let aliases decide. */
    method ApplyAliases(aliases: seq<MonitorAlias>)
      modifies this`wsOwner
      ensures wsOwner == AliasedOwners(old(Topo()), aliases)
    {
      ghost var t := Topo();
      if |wsOwner| != |wsAlias| {
        wsOwner := seq(|wsAlias|, _ => -1);
      }
      for ws := 0 to |wsOwner|
        invariant |wsOwner| == |wsAlias|
        invariant forall w :: 0 <= w < ws ==> wsOwner[w] == KeptOwner(t, w)
        invariant forall w :: ws <= w < |wsOwner| ==> wsOwner[w] == if |t.owner| == |t.wsAlias| then t.owner[w] else -1
      {
        if !IsMonValid(wsOwner[ws]) {
          wsOwner := wsOwner[ws := -1];
        }
      }
      for ws := 0 to |wsAlias|
        invariant |wsOwner| == |wsAlias|
        invariant forall w :: 0 <= w < ws ==> wsOwner[w] == AliasedOwners(t, aliases)[w]
        invariant forall w :: ws <= w < |wsOwner| ==> wsOwner[w] == KeptOwner(t, w)
      {
        if wsAlias[ws] == "" {
          continue;
        }
        var target := ResolveAliasMonitor(wsAlias[ws], aliases);
        if target >= 0 {
          wsOwner := wsOwner[ws := target];
        } else if !IsMonValid(wsOwner[ws]) {
          wsOwner := wsOwner[ws := -1];
        }
      }
    }

    /** The third loop: what is still unowned is dealt out. */
    method DealOut(start: int)
      requires 0 <= start < |monitors|
      modifies this`wsOwner
      ensures wsOwner == RoundRobin(old(wsOwner), start, |monitors|)
    {
      var rr := start;
      var n := |monitors|;
      ghost var was, goal := wsOwner, RoundRobin(wsOwner, start, n);
      assert was[0..] == was && goal[0..] == goal;
      for ws := 0 to |wsOwner|
        invariant |wsOwner| == |was| && 0 <= rr < n
        invariant forall w :: 0 <= w < |was| ==> wsOwner[w] == if w < ws then goal[w] else was[w]
        invariant RoundRobin(was[ws..], rr, n) == goal[ws..]
      {
        DealOne(was[ws..], rr, n);
        assert was[ws..][1..] == was[ws + 1..] && goal[ws..][1..] == goal[ws + 1..];
        if wsOwner[ws] != -1 {
          continue;
        }
        wsOwner := wsOwner[ws := rr];
        rr := (rr + 1) % n;
      }
    }

    method AssignWorkspaces(aliases: seq<MonitorAlias>, compose: MonitorCompose)
      modifies this`monitors, this`wsOwner, this`monitorPools, this`monitorActiveLocal, this`focusedMonitor
      ensures Topo() == Assign(old(Topo()), aliases, compose)
    {
      hide RoundRobin, RebuildPools, RebuildActive, SelectFocused, SyncActive, ActiveOf;
      ghost var t := Topo();
      if |wsOwner| != |wsAlias| {
        wsOwner := seq(|wsAlias|, _ => -1);
      }
      if monitors == [] {
        wsOwner := seq(|wsOwner|, _ => -1);
        monitorPools, monitorActiveLocal := [], [];
        return;
      }
      assert AliasedOwners(Topo(), aliases) == AliasedOwners(t, aliases);
      ApplyAliases(aliases);
      var rr := PrimaryMonitorIndex(aliases, compose);
      if rr < 0 {
        rr := 0;
      }
      DealOut(rr);
      var preferred := seq(|monitors|, _ => -1);
      for m := 0 to |monitors|
        invariant |preferred| == |monitors|
        invariant forall j :: 0 <= j < m ==> preferred[j] == ActiveWsOfMonitor(j)
      {
        preferred := preferred[m := ActiveWsOfMonitor(m)];
      }
      assert preferred == ActiveList(t, |monitors|);
      var seeds := monitorPools;
      RebuildPoolsFromOwner(seeds, preferred);
      SelectValidFocusedMonitor();
      SyncMonitorsActiveWs();
    }

    // --- set_monitors ------------------------------------------------------------------------------

    /** The pools and active workspaces of monitors that are gone are parked under their names. */
    method Park(newNames: seq<string>)
      modifies this`parkedPools, this`parkedActiveWs
      ensures parkedPools == ParkPools(old(Topo()), newNames, |monitors|)
      ensures parkedActiveWs == ParkActive(old(Topo()), newNames, |monitors|)
    {
      ghost var t := Topo();
      for i := 0 to |monitors|
        invariant parkedPools == ParkPools(t, newNames, i) && parkedActiveWs == ParkActive(t, newNames, i)
      {
        var name := monitors[i].name;
        if name in newNames {
          continue;
        }
        var active := if i < |monitorPools| && i < |monitorActiveLocal| then ActiveWsOfMonitor(i) else NONE;
        parkedPools := parkedPools[name := if i < |monitorPools| then monitorPools[i] else []];
        parkedActiveWs := parkedActiveWs[name := active];
      }
    }

    /** Owners of the old monitors, carried over by name. */
    method CarryOwners(newNames: seq<string>) returns (owner: seq<int>)
      ensures |owner| == |wsAlias| && forall w :: 0 <= w < |owner| ==> owner[w] == CarriedOwner(Topo(), newNames, w)
    {
      owner := seq(|wsAlias|, _ => -1);
      for ws := 0 to |wsAlias|
        invariant |owner| == |wsAlias|
        invariant forall w :: 0 <= w < ws ==> owner[w] == CarriedOwner(Topo(), newNames, w)
        invariant forall w :: ws <= w < |owner| ==> owner[w] == -1
      {
        if ws >= |wsOwner| {
          continue;
        }
        var oldMon := wsOwner[ws];
        if oldMon < 0 || oldMon >= |monitors| {
          continue;
        }
        var m := FindFirst(newNames, monitors[oldMon].name);
        if m >= 0 {
          owner := owner[ws := m];
        }
      }
    }

    /** `old_index`: of two old monitors with one name the later one counts. */
    method OldIndex() returns (index: map<string, int>)
      ensures forall name :: name in index <==> LastIndexOf(Names(monitors), name) >= 0
      ensures forall name :: name in index ==> index[name] == LastIndexOf(Names(monitors), name)
    {
      index := map[];
      var names := Names(monitors);
      for i := 0 to |names|
        invariant forall name :: name in index <==> LastIndexOf(names[..i], name) >= 0
        invariant forall name :: name in index ==> index[name] == LastIndexOf(names[..i], name)
      {
        PrefixSnoc(names, i);
        index := index[names[i] := i];
      }
      assert names[..|names|] == names;
    }

    /** A monitor that was unplugged before gets its parked workspaces back. */
    method Unpark(name: string, m: int, carried: seq<int>) returns (owner: seq<int>, seed: seq<int>, active: int)
      requires name in parkedPools && |carried| == |wsAlias|
      modifies this`parkedPools, this`parkedActiveWs
      ensures owner == TakeOwners(carried, old(parkedPools)[name], m) && seed == old(parkedPools)[name]
      ensures active == if name in old(parkedActiveWs) then old(parkedActiveWs)[name] else NONE
      ensures parkedPools == old(parkedPools) - {name} && parkedActiveWs == old(parkedActiveWs) - {name}
    {
      seed, owner := parkedPools[name], carried;
      for k := 0 to |seed|
        invariant parkedPools == old(parkedPools) && parkedActiveWs == old(parkedActiveWs)
        invariant |owner| == |carried|
        invariant forall w :: 0 <= w < |owner| ==> owner[w] == if w in seed[..k] then m else carried[w]
      {
        PrefixSnoc(seed, k);
        if IsWsValid(seed[k]) {
          owner := owner[seed[k] := m];
        }
      }
      assert seed[..|seed|] == seed;
      active := -1;
      if name in parkedActiveWs {
        active := parkedActiveWs[name];
      }
      parkedPools, parkedActiveWs := parkedPools - {name}, parkedActiveWs - {name};
    }

    /** The loop over the new monitors: `t` is the manager before the change, apart from what is parked by now. */
    method TakeOver(ghost t: Topology, names: seq<string>, oldIndex: map<string, int>, oldPools: seq<seq<int>>,
                    oldActive: seq<int>, carried: seq<int>)
      returns (owner: seq<int>, seeds: seq<seq<int>>, preferred: seq<int>)
      requires t.wsAlias == wsAlias && t.pools == oldPools && |oldActive| == |t.monitors|
      requires forall j :: 0 <= j < |t.monitors| ==> oldActive[j] == OldActive(t, j)
      requires forall name :: name in oldIndex <==> LastIndexOf(Names(t.monitors), name) >= 0
      requires forall name :: name in oldIndex ==> oldIndex[name] == LastIndexOf(Names(t.monitors), name)
      requires TakeNone(t, names) == Takeover(carried, [], [], parkedPools, parkedActiveWs)
      modifies this`parkedPools, this`parkedActiveWs
      ensures TakeUpTo(t, names, |names|) == Takeover(owner, seeds, preferred, parkedPools, parkedActiveWs)
    {
      hide LastIndexOf, TakeNone, TakeOwners, OldActive, TakeNext;
      owner, seeds, preferred := carried, seq(|names|, _ => []), seq(|names|, _ => -1);
      assert seeds[..0] == [] && preferred[..0] == [];
      for i := 0 to |names|
        invariant |seeds| == |preferred| == |names| && |owner| == |wsAlias|
        invariant forall j :: i <= j < |names| ==> seeds[j] == [] && preferred[j] == -1
        invariant TakeUpTo(t, names, i) == Takeover(owner, seeds[..i], preferred[..i], parkedPools, parkedActiveWs)
      {
        var name := names[i];
        ghost var ps, qs := seeds[..i], preferred[..i];
        TakenNext(t, Takeover(owner, ps, qs, parkedPools, parkedActiveWs), name);
        if name in oldIndex {
          var oi := oldIndex[name];
          if oi < |oldPools| {
            seeds := seeds[i := oldPools[oi]];
          }
          if oi < |oldActive| {
            preferred := preferred[i := oldActive[oi]];
          }
        } else if name in parkedPools {
          var seed, active;
          owner, seed, active := Unpark(name, i, owner);
          seeds := seeds[i := seed];
          preferred := preferred[i := active];
        }
        assert seeds[..i + 1] == ps + [seeds[i]] && preferred[..i + 1] == qs + [preferred[i]];
      }
      assert seeds[..|names|] == seeds && preferred[..|names|] == preferred;
    }

    /** The rest of set_monitors: rebuild, find the focused monitor again by its name, copy what is shown. */
    method Settle(seeds: seq<seq<int>>, preferred: seq<int>, oldFocusedName: string)
      requires |wsOwner| == |wsAlias|
      modifies this`monitors, this`monitorPools, this`monitorActiveLocal, this`focusedMonitor
      ensures
        var byName := IndexOf(Names(old(monitors)), oldFocusedName);
        var focus := if byName >= 0 then byName else if old(focusedMonitor) >= |old(monitors)| then 0 else old(focusedMonitor);
        Topo() == Rebuild(old(Topo()), wsOwner, seeds, preferred, focus)
    {
      hide RebuildPools, RebuildActive, SelectFocused, SyncActive, IndexOf;
      RebuildPoolsFromOwner(seeds, preferred);
      var byName := MonitorIndexByName(oldFocusedName);
      if byName >= 0 {
        focusedMonitor := byName;
      } else if focusedMonitor >= |monitors| {
        focusedMonitor := 0;
      }
      SelectValidFocusedMonitor();
      SyncMonitorsActiveWs();
    }

    method SetMonitors(mons: seq<Monitor>)
      modifies this`monitors, this`wsOwner, this`monitorPools, this`monitorActiveLocal, this`focusedMonitor
      modifies this`parkedPools, this`parkedActiveWs
      ensures Topo() == Spec.SetMonitors(old(Topo()), mons)
    {
      hide TakeUpTo, Rebuild, ParkPools, ParkActive, CarriedOwner, IndexOf, LastIndexOf, OldActive;
      ghost var t := Topo();
      var newNames := Names(mons);
      var oldPools := monitorPools;
      var oldActive := OldActives();
      var oldFocusedName := if 0 <= focusedMonitor < |monitors| then monitors[focusedMonitor].name else "";
      var oldIndex := OldIndex();
      Park(newNames);
      var carried := CarryOwners(newNames);
      CarriedIgnoresParked(t, Topo(), newNames);
      assert TakeNone(t, newNames) == Takeover(carried, [], [], parkedPools, parkedActiveWs);
      monitors := mons;
      var owner, seeds, preferred := TakeOver(t, newNames, oldIndex, oldPools, oldActive, carried);
      TakenSize(t, newNames);
      wsOwner := owner;
      RebuildIgnoresOwner(t.(monitors := mons, parkedPools := parkedPools, parkedActive := parkedActiveWs), Topo());
      Settle(seeds, preferred, oldFocusedName);
    }

    method OldActives() returns (active: seq<int>)
      ensures |active| == |monitors| && forall i :: 0 <= i < |active| ==> active[i] == OldActive(Topo(), i)
    {
      active := seq(|monitors|, _ => NONE);
      for i := 0 to |monitors|
        invariant |active| == |monitors| && forall j :: 0 <= j < i ==> active[j] == OldActive(Topo(), j)
      {
        active := active[i := if i < |monitorPools| && i < |monitorActiveLocal| then ActiveWsOfMonitor(i) else NONE];
      }
    }

    // --- Switching and focusing --------------------------------------------------------------------

    /** A workspace without an owner goes to the hinted monitor, its alias's, the primary or the focused one. */
    method ChooseMonitor(ws: int, aliases: seq<MonitorAlias>, hint: int, compose: MonitorCompose) returns (target: int)
      requires IsWsValid(ws) && monitors != [] && MonitorOfWs(ws) < 0
      ensures target == SwitchTarget(Topo(), ws, hint, aliases, compose)
    {
      target := NONE;
      if IsMonValid(hint) {
        return hint;
      }
      if wsAlias[ws] != "" {
        target := ResolveAliasMonitor(wsAlias[ws], aliases);
      }
      if !IsMonValid(target) {
        target := PrimaryMonitorIndex(aliases, compose);
      }
      if !IsMonValid(target) {
        target := if IsMonValid(focusedMonitor) then focusedMonitor else 0;
      }
    }

    /** switch_to; `hint` is NONE when there is none. */
    method SwitchTo(ws: int, aliases: seq<MonitorAlias>, hint: int, compose: MonitorCompose) returns (ok: bool)
      requires Sized(Topo())
      modifies this`monitors, this`wsOwner, this`monitorPools, this`monitorActiveLocal
      ensures Topo() == Spec.SwitchTo(old(Topo()), ws, hint, aliases, compose)
      ensures ok <==> 0 <= ws < |wsAlias| && old(monitors) != []
    {
      hide SyncActive, IndexOf, SwitchTarget;
      if !IsWsValid(ws) || monitors == [] {
        return false;
      }
      var target := MonitorOfWs(ws);
      OwnedTarget(Topo(), ws, hint, aliases, compose);
      if target < 0 {
        target := ChooseMonitor(ws, aliases, hint, compose);
        wsOwner := wsOwner[ws := target];
      }
      var li := FindFirst(monitorPools[target], ws);
      if li < 0 {
        AppendedAt(monitorPools[target], ws);
        monitorPools := monitorPools[target := monitorPools[target] + [ws]];
        li := |monitorPools[target]| - 1;
      }
      monitorActiveLocal := monitorActiveLocal[target := li];
      SyncMonitorsActiveWs();
      ok := true;
    }

    method SwitchLocalIndex(m: int, li: int) returns (ok: bool)
      requires Sized(Topo())
      modifies this`monitors, this`monitorActiveLocal
      ensures Topo() == SwitchLocal(old(Topo()), m, li)
      ensures ok <==> 0 <= m < |monitorPools| && 0 <= li < |monitorPools[m]|
    {
      if m < 0 || m >= |monitorPools| {
        return false;
      }
      if li < 0 || li >= |monitorPools[m]| {
        return false;
      }
      monitorActiveLocal := monitorActiveLocal[m := li];
      SyncMonitorsActiveWs();
      ok := true;
    }

    // --- Windows on workspaces ---------------------------------------------------------------------

    /** Workspace::add_window. */
    method AddToWorkspace(ws: int, id: nat)
      requires IsWs(Tab(), ws)
      modifies this`lists, this`cursors
      ensures lists == old(lists)[ws := old(lists)[ws] + [id]]
      ensures cursors == old(cursors)[ws := CursorAfterAdd(old(cursors)[ws])]
    {
      lists := lists[ws := lists[ws] + [id]];
      if cursors[ws] == -1 {
        cursors := cursors[ws := 0];
      } else {
        assert cursors == cursors[ws := cursors[ws]];
      }
    }

    /** Workspace::remove_window. */
    method RemoveFromWorkspace(ws: int, id: nat) returns (ok: bool)
      requires IsWs(Tab(), ws)
      modifies this`lists, this`cursors
      ensures Tab() == Unlist(old(Tab()), ws, id)
      ensures ok <==> id in old(lists)[ws]
    {
      var i := FindFirst(lists[ws], id);
      if i < 0 {
        return false;
      }
      lists := lists[ws := Erase(lists[ws], i)];
      var n := |lists[ws]|;
      if n == 0 {
        cursors := cursors[ws := -1];
      } else if cursors[ws] > i {
        cursors := cursors[ws := cursors[ws] - 1];
      } else if cursors[ws] == i {
        cursors := cursors[ws := Min(i, n - 1)];
      } else if cursors[ws] >= n {
        cursors := cursors[ws := n - 1];
      } else {
        assert cursors == cursors[ws := cursors[ws]];
      }
      ok := true;
    }

    method AnyVisible(list: seq<nat>) returns (any: bool)
      ensures any == AnyShown(windowIndex, list)
    {
      any := false;
      for i := 0 to |list|
        invariant forall j :: 0 <= j < i ==> !Shown(windowIndex, list[j])
      {
        if Shown(windowIndex, list[i]) {
          return true;
        }
      }
    }

    /** Workspace::focused. */
    method FocusedIn(list: seq<nat>, cursor: int) returns (id: nat)
      ensures id == Focused(windowIndex, list, cursor)
    {
      var anyVisible := AnyVisible(list);
      if cursor >= 0 && cursor < |list| {
        if !anyVisible || Shown(windowIndex, list[cursor]) {
          return list[cursor];
        }
      }
      var i := 0;
      while i < |list|
        invariant 0 <= i <= |list|
        invariant FirstCandidate(windowIndex, list, i) == FirstCandidate(windowIndex, list, 0)
      {
        if anyVisible && !Shown(windowIndex, list[i]) {
          i := i + 1;
          continue;
        }
        return list[i];
      }
      id := NO_WINDOW;
    }

    /** One of the loops of focus_next and focus_prev: `tiled` asks for windows that do not float. */
    method CycleSearch(list: seq<nat>, base: int, dir: int, tiled: bool, anyVisible: bool) returns (found: int)
      requires list != [] && anyVisible == AnyShown(windowIndex, list)
      ensures found == Cycle.Search(Cycle.Flags(windowIndex, list, tiled), base, dir, 1)
    {
      hide Cycle.Offset;
      ghost var flags := Cycle.Flags(windowIndex, list, tiled);
      var n := |list|;
      var i := 1;
      while i <= n
        invariant 1 <= i <= n + 1
        invariant Cycle.Search(flags, base, dir, i) == Cycle.Search(flags, base, dir, 1)
      {
        var at := Cycle.Offset(base, dir, i, n);
        if (anyVisible && !Shown(windowIndex, list[at])) || (tiled && !Tiled(windowIndex, list[at])) {
          i := i + 1;
          continue;
        }
        return at;
      }
      found := -1;
    }

    method FocusNextIn(ws: int)
      requires IsWs(Tab(), ws)
      modifies this`cursors
      ensures cursors == old(cursors)[ws := Cycle.NextCursor(windowIndex, lists[ws], old(cursors)[ws])]
    {
      hide Cycle.Search, Cycle.Flags, AnyShown;
      var list := lists[ws];
      if list == [] {
        assert cursors == cursors[ws := cursors[ws]];
        return;
      }
      var anyVisible := AnyVisible(list);
      var at := CycleSearch(list, cursors[ws], 1, true, anyVisible);
      if at >= 0 {
        cursors := cursors[ws := at];
        return;
      }
      at := CycleSearch(list, cursors[ws], 1, false, anyVisible);
      assert cursors == cursors[ws := cursors[ws]];
      if at >= 0 {
        cursors := cursors[ws := at];
      }
    }

    method FocusPrevIn(ws: int)
      requires IsWs(Tab(), ws)
      modifies this`cursors
      ensures cursors == old(cursors)[ws := Cycle.PrevCursor(windowIndex, lists[ws], old(cursors)[ws])]
    {
      hide Cycle.Search, Cycle.Flags, AnyShown;
      var list := lists[ws];
      assert cursors == cursors[ws := cursors[ws]];
      if list == [] {
        return;
      }
      var base := if 0 <= cursors[ws] < |list| then cursors[ws] else 0;
      var anyVisible := AnyVisible(list);
      var at := CycleSearch(list, base, -1, true, anyVisible);
      if at >= 0 {
        cursors := cursors[ws := at];
        return;
      }
      at := CycleSearch(list, base, -1, false, anyVisible);
      ghost var p := Cycle.SomeCandidate(windowIndex, list);
      Cycle.SearchBackFinds(Cycle.Flags(windowIndex, list, false), base, p);
      if at >= 0 {
        cursors := cursors[ws := at];
      }
    }

    // --- The hash indexes --------------------------------------------------------------------------

    method IndexWindow(id: nat, w: Window, ws: int)
      requires id != NO_WINDOW && IsWsValid(ws)
      modifies this`windowIndex, this`windowWorkspace
      ensures windowIndex == old(windowIndex)[id := w] && windowWorkspace == old(windowWorkspace)[id := ws]
    {
      windowIndex := windowIndex[id := w];
      windowWorkspace := windowWorkspace[id := ws];
    }

    method UnindexWindow(id: nat)
      modifies this`windowIndex, this`windowWorkspace
      ensures windowIndex == old(windowIndex) - {id} && windowWorkspace == old(windowWorkspace) - {id}
    {
      windowIndex := windowIndex - {id};
      windowWorkspace := windowWorkspace - {id};
    }

    ghost predicate SameCount()
      reads this`wsAlias, this`lists, this`cursors
    {
      |lists| == |cursors| == |wsAlias|
    }

    /** create_window, with add_window. */
    method CreateWindow(id: nat, ws: int)
      requires SameCount() && id != NO_WINDOW
      modifies this`lists, this`cursors, this`windowIndex, this`windowWorkspace
      ensures Tab() == Create(old(Tab()), id, ws, ActiveWs(Topo(), focusedMonitor))
    {
      if lists == [] {
        return;
      }
      var target := if IsWsValid(ws) then ws else ActiveWsOfMonitor(focusedMonitor);
      if !IsWsValid(target) {
        target := 0;
      }
      if id in windowWorkspace {
        var oldWs := windowWorkspace[id];
        if IsWsValid(oldWs) && oldWs == target {
          return;
        }
        if IsWsValid(oldWs) {
          var _ := RemoveFromWorkspace(oldWs, id);
        }
      }
      AddToWorkspace(target, id);
      IndexWindow(id, FRESH, target);
    }

    /** The loop over all workspaces, for a window whose workspace is not known. */
    method RemoveFromEach(id: nat)
      requires SameCount()
      modifies this`lists, this`cursors
      ensures Tab() == UnlistAll(old(Tab()), id, |old(lists)|)
    {
      ghost var tb := Tab();
      for ws := 0 to |lists|
        invariant Tab() == UnlistAll(tb, id, ws)
      {
        var _ := RemoveFromWorkspace(ws, id);
      }
    }

    method RemoveWindowFromAll(id: nat)
      requires SameCount()
      modifies this`lists, this`cursors, this`windowIndex, this`windowWorkspace
      ensures Tab() == Drop(old(Tab()), id)
    {
      hide Unlist, UnlistAll;
      if id in windowWorkspace && IsWsValid(windowWorkspace[id]) {
        var _ := RemoveFromWorkspace(windowWorkspace[id], id);
        UnindexWindow(id);
        return;
      }
      RemoveFromEach(id);
      UnindexWindow(id);
    }

    method MoveWindowTo(ws: int, id: nat)
      requires SameCount() && id in windowIndex && id != NO_WINDOW
      modifies this`lists, this`cursors, this`windowIndex, this`windowWorkspace
      ensures Tab() == Move(old(Tab()), id, ws)
    {
      hide Unlist, UnlistAll;
      if !IsWsValid(ws) {
        return;
      }
      if id in windowWorkspace && IsWsValid(windowWorkspace[id]) {
        if windowWorkspace[id] == ws {
          return;
        }
        var _ := RemoveFromWorkspace(windowWorkspace[id], id);
      } else {
        RemoveFromEach(id);
      }
      AddToWorkspace(ws, id);
      IndexWindow(id, windowIndex[id], ws);
    }

    /** focus_window: cursor, urgency, active workspace and focused monitor follow the window. */
    method FocusWindow(id: nat) returns (ok: bool)
      requires SameCount() && Sized(Topo()) && windowIndex.Keys == windowWorkspace.Keys
      modifies this`cursors, this`windowIndex, this`monitors, this`monitorActiveLocal, this`focusedMonitor
      ensures ok <==> id in old(windowWorkspace) && IsWs(old(Tab()), old(windowWorkspace)[id]) &&
                      id in lists[old(windowWorkspace)[id]]
      ensures ok ==> Tab() == PointAt(old(Tab()), id) && Topo() == FocusWorkspace(old(Topo()), old(windowWorkspace)[id])
      ensures !ok ==> Tab() == old(Tab()) && Topo() == old(Topo())
    {
      hide FocusWorkspace, IndexOf;
      if id !in windowWorkspace || !IsWsValid(windowWorkspace[id]) {
        return false;
      }
      var ws := windowWorkspace[id];
      var i := FindFirst(lists[ws], id);
      if i < 0 {
        return false;
      }
      cursors := cursors[ws := i];
      windowIndex := windowIndex[id := Calm(windowIndex[id])];
      FocusSpace(ws);
      ok := true;
    }

    /** The monitor side of focus_window, for a window on workspace `ws`. */
    method FocusSpace(ws: int)
      requires Sized(Topo())
      modifies this`monitors, this`monitorActiveLocal, this`focusedMonitor
      ensures Topo() == FocusWorkspace(old(Topo()), ws)
    {
      hide SyncActive, IndexOf;
      var m := MonitorOfWs(ws);
      if m >= 0 {
        var li := FindFirst(monitorPools[m], ws);
        if li >= 0 {
          monitorActiveLocal := monitorActiveLocal[m := li];
        }
        focusedMonitor := m;
        SyncMonitorsActiveWs();
      }
    }

    // --- zoom_focused ------------------------------------------------------------------------------

    /** current, as the number of a workspace; NO_WS stands for the fallback workspace. */
    method CurrentWorkspace() returns (ws: int)
      ensures
        var n, active := |lists|, ActiveWs(Topo(), focusedMonitor);
        ws == if n == 0 then NO_WS else if 0 <= active < n then active else FirstShownWs(Topo(), n, 0)
    {
      if lists == [] {
        return NO_WS;
      }
      ws := ActiveWsOfMonitor(focusedMonitor);
      if 0 <= ws < |lists| {
        return;
      }
      var m := 0;
      while m < |monitors|
        invariant 0 <= m <= |monitors|
        invariant FirstShownWs(Topo(), |lists|, m) == FirstShownWs(Topo(), |lists|, 0)
      {
        ws := ActiveWsOfMonitor(m);
        if 0 <= ws < |lists| {
          return;
        }
        m := m + 1;
      }
      ws := 0;
    }

    /** zoom_focused on workspace `ws`. */
    method ZoomFocused(ws: int) returns (ok: bool)
      requires IsWs(Tab(), ws)
      modifies this`lists, this`cursors
      ensures Tab() == ZoomTable(old(Tab()), ws)
      ensures ok <==>
        var f := Focused(windowIndex, old(lists)[ws], old(cursors)[ws]);
        Tiled(windowIndex, f) && f in old(lists)[ws] &&
        |TiledPositions(windowIndex, old(lists)[ws], |old(lists)[ws]|)| >= 2
    {
      hide Focused, IndexOf;
      var list := lists[ws];
      var f := FocusedIn(list, cursors[ws]);
      if !Tiled(windowIndex, f) {
        return false;
      }
      var tiled: seq<nat> := [];
      for i := 0 to |list|
        invariant tiled == TiledPositions(windowIndex, list, i)
      {
        if Tiled(windowIndex, list[i]) {
          tiled := tiled + [i];
        }
      }
      if |tiled| < 2 {
        return false;
      }
      var at := FindFirst(list, f);
      if at < 0 {
        return false;
      }
      if at == tiled[0] {
        lists := lists[ws := list[tiled[0] := list[tiled[1]]][tiled[1] := list[tiled[0]]]];
        cursors := cursors[ws := tiled[1]];
      } else {
        lists := lists[ws := list[tiled[0] := list[at]][at := list[tiled[0]]]];
        cursors := cursors[ws := tiled[0]];
      }
      ok := true;
    }

    // --- Monitors ----------------------------------------------------------------------------------

    method AdjustMonitorInset(m: int, edge: Edge, delta: int)
      modifies this`monitors
      ensures |monitors| == |old(monitors)|
      ensures forall i | 0 <= i < |monitors| ::
        monitors[i] == if i == m && delta != 0 then AdjustInset(old(monitors)[i], edge, delta) else old(monitors)[i]
    {
      if m < 0 || m >= |monitors| || delta == 0 {
        return;
      }
      var mon := monitors[m];
      match edge {
        case Top => mon := mon.(y := mon.y + delta, h := Max(0, mon.h - delta), top := mon.top + delta);
        case Bottom => mon := mon.(h := Max(0, mon.h - delta), bottom := mon.bottom + delta);
        case Left => mon := mon.(x := mon.x + delta, w := Max(0, mon.w - delta), left := mon.left + delta);
        case Right => mon := mon.(w := Max(0, mon.w - delta), right := mon.right + delta);
      }
      monitors := monitors[m := mon];
    }

    /** monitor_at_physical_point. */
    method MonitorAtPoint(x: int, y: int) returns (m: int)
      ensures m == MonitorAt(monitors, x, y, 0)
    {
      m := 0;
      while m < |monitors|
        invariant 0 <= m <= |monitors| && MonitorAt(monitors, x, y, m) == MonitorAt(monitors, x, y, 0)
      {
        if PhysicallyContains(monitors[m], x, y) {
          return;
        }
        m := m + 1;
      }
      m := NONE;
    }

    method FocusMonitorAtPoint(x: int, y: int) returns (changed: bool)
      modifies this`focusedMonitor
      ensures
        var m := MonitorAt(monitors, x, y, 0);
        focusedMonitor == (if m < 0 then old(focusedMonitor) else m) && (changed <==> m >= 0 && m != old(focusedMonitor))
    {
      var m := MonitorAtPoint(x, y);
      if m < 0 {
        return false;
      }
      changed := m != focusedMonitor;
      focusedMonitor := m;
    }

    method FreshAliases(settings: Settings) returns (aliases: seq<string>)
      ensures aliases == InitAliases(settings)
    {
      aliases := [];
      if settings.defs == [] {
        for i := 0 to 9
          invariant aliases == seq(i, _ => "")
        {
          aliases := aliases + [""];
        }
      } else {
        for i := 0 to |settings.defs|
          invariant |aliases| == i && forall j :: 0 <= j < i ==> aliases[j] == settings.defs[j].monitor
        {
          aliases := aliases + [settings.defs[i].monitor];
        }
      }
    }

    /** Everything but the monitors starts over. */
    method StartOver(aliases: seq<string>)
      modifies this
      ensures Topo() == BlankTopology(aliases, old(monitors), old(focusedMonitor)) && Tab() == BlankTable(|aliases|)
    {
      hide BlankTopology, BlankTable;
      BlankFields(aliases, monitors, focusedMonitor);
      windowIndex, windowWorkspace := map[], map[];
      parkedPools, parkedActiveWs := map[], map[];
      wsAlias := aliases;
      lists, cursors := BlankTable(|aliases|).lists, BlankTable(|aliases|).cursors;
      var blank := BlankTopology(aliases, monitors, focusedMonitor);
      wsOwner, monitorPools, monitorActiveLocal := blank.owner, blank.pools, blank.activeLocal;
    }

    /** init_from_defs: nine workspaces if the configuration names none. */
    method InitFromDefs(settings: Settings)
      modifies this
      ensures Tab() == BlankTable(|InitAliases(settings)|)
      ensures Topo() ==
        Assign(BlankTopology(InitAliases(settings), old(monitors), old(focusedMonitor)), settings.aliases, settings.compose)
    {
      hide Assign, BlankTopology, BlankTable;
      var aliases := FreshAliases(settings);
      StartOver(aliases);
      AssignWorkspaces(settings.aliases, settings.compose);
    }

    // --- update_workspace_defs ---------------------------------------------------------------------

    /** Where the windows of a removed workspace go. */
    method FallbackOf(ws: int, n: nat) returns (dst: int)
      requires PoolsMatch(wsOwner, monitorPools)
      ensures dst == FallbackFor(Topo(), ws, n)
    {
      var m := if 0 <= ws < |wsOwner| then wsOwner[ws] else -1;
      if m >= 0 && m < |monitorPools| {
        var pool := monitorPools[m];
        var i := 0;
        while i < |pool|
          invariant 0 <= i <= |pool| && FirstBelow(pool[i..], n) == FirstBelow(pool, n)
        {
          assert pool[i..][1..] == pool[i + 1..];
          if pool[i] < n {
            assert PoolMatches(wsOwner, m, pool) && pool[i] in pool;
            return pool[i];
          }
          i := i + 1;
        }
      }
      dst := 0;
    }

    /** The windows of workspace `src` join workspace `dst`, one after the other. */
    method MoveAll(src: int, dst: int)
      requires IsWs(Tab(), src) && IsWs(Tab(), dst) && src != dst && SameCount()
      requires forall id :: id in lists[src] ==> id in windowIndex && id != NO_WINDOW
      modifies this`lists, this`cursors, this`windowIndex, this`windowWorkspace
      ensures Tab() == Evacuate(old(Tab()), src, dst)
    {
      ghost var tb := Tab();
      var ids := lists[src];
      assert ids[..0] == [];
      for k := 0 to |ids|
        invariant IsWs(Tab(), dst) && lists == tb.lists[dst := lists[dst]] && lists[dst] == tb.lists[dst] + ids[..k]
        invariant cursors == tb.cursors[dst := if k == 0 then tb.cursors[dst] else CursorAfterAdd(tb.cursors[dst])]
        invariant windowIndex == tb.index
        invariant forall id :: id in windowWorkspace <==> id in tb.home || id in ids[..k]
        invariant forall id :: id in windowWorkspace ==> windowWorkspace[id] == if id in ids[..k] then dst else tb.home[id]
      {
        PrefixSnoc(ids, k);
        AddToWorkspace(dst, ids[k]);
        IndexWindow(ids[k], windowIndex[ids[k]], dst);
        assert windowIndex == tb.index;
      }
      assert ids[..|ids|] == ids;
      lists := lists[src := []];
      cursors := cursors[src := -1];
    }

    /** Names and aliases of the kept workspaces, then new workspaces at the end. */
    method Rename(defs: seq<WorkspaceDef>)
      requires SameCount() && |wsOwner| == |wsAlias|
      modifies this`wsAlias, this`lists, this`cursors, this`wsOwner
      ensures SameCount() && |wsOwner| == |wsAlias|
      ensures
        var n, was := |defs|, |old(wsAlias)|;
        && (n >= was ==> wsAlias == DefAliases(defs))
        && (n < was ==> |wsAlias| == was && wsAlias[..n] == DefAliases(defs))
        && (n <= was ==> lists == old(lists) && cursors == old(cursors) && wsOwner == old(wsOwner))
        && lists == old(lists) + seq(Max(0, n - was), _ => [])
        && cursors == old(cursors) + seq(Max(0, n - was), _ => -1)
        && wsOwner == old(wsOwner) + seq(Max(0, n - was), _ => NONE)
    {
      ghost var l, c, o := lists, cursors, wsOwner;
      var oldCount, newCount := |wsAlias|, |defs|;
      for i := 0 to Min(newCount, oldCount)
        invariant |wsAlias| == oldCount && lists == l && cursors == c && wsOwner == o
        invariant forall j :: 0 <= j < i ==> wsAlias[j] == defs[j].monitor
      {
        wsAlias := wsAlias[i := defs[i].monitor];
      }
      if oldCount >= newCount {
        assert wsAlias[..newCount] == DefAliases(defs);
        return;
      }
      for i := oldCount to newCount
        invariant |wsAlias| == i && forall j :: 0 <= j < i ==> wsAlias[j] == defs[j].monitor
        invariant lists == l + seq(i - oldCount, _ => []) && cursors == c + seq(i - oldCount, _ => -1)
        invariant wsOwner == o + seq(i - oldCount, _ => NONE)
      {
        wsAlias := wsAlias + [defs[i].monitor];
        lists, cursors, wsOwner := lists + [[]], cursors + [-1], wsOwner + [-1];
      }
    }

    /** The loop over the workspaces that go: their windows move to the fallbacks. */
    method EvacuateFrom(n: nat)
      requires SameCount() && 0 < n < |lists| && TableOk(Tab())
      requires PoolsMatch(wsOwner, monitorPools)
      modifies this`lists, this`cursors, this`windowIndex, this`windowWorkspace
      ensures SameCount() && Tab() == EvacuateUpTo(old(Tab()), n, |lists|, Fallbacks(Topo(), n))
    {
      hide TableOk, PoolsMatch, Evacuate, FallbackFor;
      ghost var tb, dst := Tab(), Fallbacks(Topo(), n);
      for ws := n to |lists|
        invariant SameCount() && |lists| == |tb.lists|
        invariant Tab() == EvacuateUpTo(tb, n, ws, dst)
        invariant (forall j :: ws <= j < |lists| ==> lists[j] == tb.lists[j]) && windowIndex == tb.index
      {
        var d := FallbackOf(ws, n);
        KnownIds(tb, ws);
        EvacuateLeaves(Tab(), ws, d);
        MoveAll(ws, d);
      }
    }

    /** A monitor whose active workspace goes shows the fallback, if it owns it. */
    method Reactivate(n: nat)
      requires Sized(Topo()) && PoolsMatch(wsOwner, monitorPools)
      modifies this`monitorActiveLocal
      ensures |monitorActiveLocal| == |monitors|
      ensures forall m :: 0 <= m < |monitors| ==> monitorActiveLocal[m] == ShrunkActive(old(Topo()), n, m)
    {
      ghost var t := Topo();
      for m := 0 to |monitors|
        invariant |monitorActiveLocal| == |monitors|
        invariant forall j :: 0 <= j < m ==> monitorActiveLocal[j] == ShrunkActive(t, n, j)
        invariant forall j :: m <= j < |monitors| ==> monitorActiveLocal[j] == t.activeLocal[j]
      {
        var active := ActiveWsOfMonitor(m);
        if active >= n {
          var dst := FallbackOf(active, n);
          var li := FindFirst(monitorPools[m], dst);
          if li >= 0 {
            monitorActiveLocal := monitorActiveLocal[m := li];
          } else if monitorPools[m] != [] {
            monitorActiveLocal := monitorActiveLocal[m := 0];
          }
        }
      }
    }

    /** Removed workspaces leave the pools and what is parked. */
    method Prune(n: nat)
      modifies this`monitorPools, this`parkedPools, this`parkedActiveWs
      ensures monitorPools == seq(|old(monitorPools)|, m requires 0 <= m < |old(monitorPools)| => KeepBelow(old(monitorPools)[m], n))
      ensures parkedPools == map name | name in old(parkedPools) :: KeepBelow(old(parkedPools)[name], n)
      ensures parkedActiveWs == map name | name in old(parkedActiveWs) ::
        (if old(parkedActiveWs)[name] >= n then 0 else old(parkedActiveWs)[name])
    {
      ghost var pools, parked, active := monitorPools, parkedPools, parkedActiveWs;
      for m := 0 to |monitorPools|
        invariant |monitorPools| == |pools| && parkedPools == parked && parkedActiveWs == active
        invariant forall j :: 0 <= j < |pools| ==> monitorPools[j] == if j < m then KeepBelow(pools[j], n) else pools[j]
      {
        var kept := FilterBelow(monitorPools[m], n);
        monitorPools := monitorPools[m := kept];
      }
      PruneParked(n);
    }

    /** The loops over the two parked maps. */
    method PruneParked(n: nat)
      modifies this`parkedPools, this`parkedActiveWs
      ensures parkedPools == map name | name in old(parkedPools) :: KeepBelow(old(parkedPools)[name], n)
      ensures parkedActiveWs == map name | name in old(parkedActiveWs) ::
        (if old(parkedActiveWs)[name] >= n then 0 else old(parkedActiveWs)[name])
    {
      hide KeepBelow;
      ghost var parked, active := parkedPools, parkedActiveWs;
      var todo := parkedPools.Keys;
      while todo != {}
        invariant parkedActiveWs == active
        invariant parkedPools.Keys == parked.Keys && todo <= parked.Keys
        invariant forall name :: name in parked ==> parkedPools[name] == if name in todo then parked[name] else KeepBelow(parked[name], n)
        decreases |todo|
      {
        var name :| name in todo;
        var kept := FilterBelow(parkedPools[name], n);
        parkedPools, todo := parkedPools[name := kept], todo - {name};
      }
      ghost var pruned := parkedPools;
      todo := parkedActiveWs.Keys;
      while todo != {}
        invariant parkedPools == pruned
        invariant parkedActiveWs.Keys == active.Keys && todo <= active.Keys
        invariant forall name :: name in active ==>
          parkedActiveWs[name] == if name in todo || active[name] < n then active[name] else 0
        decreases |todo|
      {
        var name :| name in todo;
        if parkedActiveWs[name] >= n {
          parkedActiveWs := parkedActiveWs[name := 0];
        }
        todo := todo - {name};
      }
    }

    /** The source's update_workspace_defs; validated settings keep at least one workspace. */
    method UpdateWorkspaceDefs(defs: seq<WorkspaceDef>)
      requires SameCount() && Sized(Topo()) && TableOk(Tab()) && PoolsMatch(wsOwner, monitorPools)
      requires defs == [] ==> wsAlias == []
      modifies this`wsAlias, this`lists, this`cursors, this`wsOwner, this`windowIndex, this`windowWorkspace
      modifies this`monitorActiveLocal, this`monitorPools, this`parkedPools, this`parkedActiveWs
      ensures Topo() == UpdateDefs(old(Topo()), defs)
      ensures Tab() == Resize(old(Tab()), |defs|, Fallbacks(old(Topo()), |defs|))
    {
      hide PoolsMatch, TableOk, ShrunkActive, FallbackFor, KeepBelow, EvacuateUpTo;
      ghost var t := Topo();
      var was := |wsAlias|;
      Rename(defs);
      if |defs| >= was {
        return;
      }
      RenameIgnored(t, Topo(), |defs|);
      Shrink(|defs|, defs);
    }

    /** The half of update_workspace_defs that removes workspaces. */
    method Shrink(n: nat, ghost defs: seq<WorkspaceDef>)
      requires SameCount() && Sized(Topo()) && TableOk(Tab()) && PoolsMatch(wsOwner, monitorPools)
      requires 0 < n == |defs| < |wsAlias| && wsAlias[..n] == DefAliases(defs)
      modifies this`wsAlias, this`lists, this`cursors, this`wsOwner, this`windowIndex, this`windowWorkspace
      modifies this`monitorActiveLocal, this`monitorPools, this`parkedPools, this`parkedActiveWs
      ensures Topo() == UpdateDefs(old(Topo()), defs)
      ensures Tab() == Resize(old(Tab()), n, Fallbacks(old(Topo()), n))
    {
      hide EvacuateUpTo, KeepBelow, ShrunkActive, PoolsMatch, TableOk, FallbackFor;
      EvacuateFrom(n);
      Reactivate(n);
      Prune(n);
      wsAlias, lists, cursors, wsOwner := wsAlias[..n], lists[..n], cursors[..n], wsOwner[..n];
    }
  }

  /** One turn of the loop over the new monitors, case by case. */
  lemma TakenNext(t: Topology, r: Takeover, name: string)
    ensures
      var oi := LastIndexOf(Names(t.monitors), name);
      var next := TakeNext(t, r, name);
      && (oi >= 0 ==> next == r.(seeds := r.seeds + [SeedOf(t.pools, oi)], preferred := r.preferred + [OldActive(t, oi)]))
      && (oi < 0 && name in r.parkedPools ==>
            next == Takeover(TakeOwners(r.owner, r.parkedPools[name], |r.seeds|), r.seeds + [r.parkedPools[name]],
                             r.preferred + [if name in r.parkedActive then r.parkedActive[name] else NONE],
                             r.parkedPools - {name}, r.parkedActive - {name}))
      && (oi < 0 && name !in r.parkedPools ==> next == r.(seeds := r.seeds + [[]], preferred := r.preferred + [NONE]))
  {
    hide LastIndexOf, TakeOwners, OldActive;
  }

  /** Workspaces that nobody owns or sees yet. */
  function BlankTopology(aliases: seq<string>, monitors: seq<Monitor>, focused: int): Topology {
    Topology(aliases, monitors, seq(|aliases|, _ => NONE), seq(|monitors|, _ => []), seq(|monitors|, _ => NONE),
             map[], map[], focused)
  }

  function BlankTable(n: nat): Table { Table(seq(n, _ => []), seq(n, _ => -1), map[], map[]) }

  lemma BlankFields(aliases: seq<string>, monitors: seq<Monitor>, focused: int)
    ensures
      var t, tb := BlankTopology(aliases, monitors, focused), BlankTable(|aliases|);
      && t.wsAlias == aliases && t.monitors == monitors && t.focused == focused
      && t.parkedPools == map[] && t.parkedActive == map[] && tb.index == map[] && tb.home == map[]
  {
  }

  method FilterBelow(ids: seq<int>, n: int) returns (kept: seq<int>)
    ensures kept == KeepBelow(ids, n)
  {
    kept := [];
    for i := 0 to |ids|
      invariant kept + KeepBelow(ids[i..], n) == KeepBelow(ids, n)
    {
      assert ids[i..][1..] == ids[i + 1..];
      if ids[i] < n {
        kept := kept + [ids[i]];
      }
    }
  }

  lemma KnownIds(tb: Table, ws: int)
    requires TableOk(tb) && 0 <= ws < |tb.lists|
    ensures forall id :: id in tb.lists[ws] ==> id in tb.index && id != NO_WINDOW
  {
    assert ListOk(tb, ws);
  }

  lemma EvacuateLeaves(tb: Table, src: int, dst: int)
    requires IsWs(tb, src) && IsWs(tb, dst)
    ensures
      var r := Evacuate(tb, src, dst);
      r.index == tb.index && |r.lists| == |tb.lists| && |r.cursors| == |tb.cursors| &&
      forall j :: 0 <= j < |tb.lists| && j != src && j != dst ==> r.lists[j] == tb.lists[j]
  {
  }

  /** Aliases play no part in where windows and active workspaces fall back to. */
  lemma RenameIgnored(t: Topology, u: Topology, n: nat)
    requires u == t.(wsAlias := u.wsAlias) && |u.wsAlias| == |t.wsAlias|
    ensures Fallbacks(u, n) == Fallbacks(t, n)
    ensures forall m :: 0 <= m < |t.monitors| ==> ShrunkActive(u, n, m) == ShrunkActive(t, n, m)
  {
  }

  /** What parks changes no carried owner. */
  lemma CarriedIgnoresParked(t: Topology, u: Topology, newNames: seq<string>)
    requires u == t.(parkedPools := u.parkedPools, parkedActive := u.parkedActive)
    ensures forall w :: CarriedOwner(u, newNames, w) == CarriedOwner(t, newNames, w)
  {
  }

  lemma TakenSize(t: Topology, names: seq<string>)
    ensures |TakeUpTo(t, names, |names|).owner| == |t.wsAlias|
  {
  }

  /** A rebuild does not look at the owners that it replaces. */
  lemma RebuildIgnoresOwner(t: Topology, u: Topology)
    requires u == t.(owner := u.owner)
    ensures forall owner, seeds, preferred, focus ::
      Rebuild(u, owner, seeds, preferred, focus) == Rebuild(t, owner, seeds, preferred, focus)
  {
  }

  lemma OwnedTarget(t: Topology, ws: int, hint: int, aliases: seq<MonitorAlias>, compose: MonitorCompose)
    requires 0 <= ws < |t.wsAlias| && t.monitors != []
    ensures MonitorOf(t, ws) >= 0 ==> SwitchTarget(t, ws, hint, aliases, compose) == MonitorOf(t, ws)
  {
  }

  lemma AppendedAt(pool: seq<int>, ws: int)
    requires ws !in pool
    ensures IndexOf(pool + [ws], ws) == |pool|
  {
    assert (pool + [ws])[|pool|] == ws;
    assert forall i :: 0 <= i < |pool| ==> (pool + [ws])[i] == pool[i];
  }

  lemma DealOne(owner: seq<int>, rr: int, n: nat)
    requires 0 <= rr < n && owner != []
    ensures
      var r := RoundRobin(owner, rr, n);
      r[0] == (if owner[0] != NONE then owner[0] else rr) &&
      r[1..] == RoundRobin(owner[1..], if owner[0] != NONE then rr else (rr + 1) % n, n)
  {
  }

  lemma AppendOwnedSnoc(owner: seq<int>, m: int, acc: seq<int>, ids: seq<int>, k: nat)
    requires k < |ids|
    ensures AppendOwned(owner, m, acc, ids[..k + 1]) == AppendOwned(owner, m, AppendOwned(owner, m, acc, ids[..k]), [ids[k]])
  {
    PrefixSnoc(ids, k);
    AppendOwnedOne(owner, m, AppendOwned(owner, m, acc, ids[..k]), ids[k]);
  }

  lemma NothingOwned(owner: seq<int>)
    ensures forall m, acc: seq<int> :: AppendOwned(owner, m, acc, []) == acc
  {
  }

  lemma AppendOwnedOne(owner: seq<int>, m: int, acc: seq<int>, id: int)
    ensures AppendOwned(owner, m, acc, [id]) == if 0 <= id < |owner| && owner[id] == m && id !in acc then acc + [id] else acc
  {
    assert [id][..0] == [];
  }
}
