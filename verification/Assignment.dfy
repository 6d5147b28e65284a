/**
 * Which monitor gets which workspace (core/src/core/workspace_manager.cpp:268-277, 279-320, 472-518),
 * in terms of the configuration alone: aliases first, then owners there were before, then the rest in turn.
 */
module Assignment {
  import opened Arith
  import opened Seqs
  import opened Config
  import opened Monitors
  import opened Topology
  import opened TopologyProofs
  import opened Reducer
  import opened ReducerProofs

  /** `m` is the first monitor called `name`. */
  predicate FirstNamed(ms: seq<Monitor>, name: string, m: int) {
    0 <= m < |ms| && ms[m].name == name && forall k | 0 <= k < m :: ms[k].name != name
  }

  /** `i` is the first entry for `alias`. */
  predicate FirstEntry(aliases: seq<MonitorAlias>, alias: string, i: int) {
    0 <= i < |aliases| && aliases[i].alias == alias && forall k | 0 <= k < i :: aliases[k].alias != alias
  }

  predicate HasEntry(aliases: seq<MonitorAlias>, alias: string) {
    exists i | 0 <= i < |aliases| :: aliases[i].alias == alias
  }

  /** `alias` stands for monitor `m`: by the output of its first entry or, without an entry, as an output itself. */
  ghost predicate StandsFor(aliases: seq<MonitorAlias>, ms: seq<Monitor>, alias: string, m: int) {
    || (exists i :: FirstEntry(aliases, alias, i) && FirstNamed(ms, aliases[i].output, m))
    || (!HasEntry(aliases, alias) && FirstNamed(ms, alias, m))
  }

  lemma NamedIs(ms: seq<Monitor>, name: string, m: int)
    ensures FirstNamed(ms, name, m) <==> m >= 0 && IndexOf(Names(ms), name) == m
  {
    var r := IndexOf(Names(ms), name);
    if r >= 0 {
      assert forall k :: 0 <= k < r ==> Names(ms)[..r][k] == ms[k].name;
    }
    if FirstNamed(ms, name, m) {
      assert Names(ms)[m] == name;
    }
  }

  /** The lookup of an alias finds what it stands for, and nothing if it stands for nothing. */
  lemma {:induction false} ResolveStands(aliases: seq<MonitorAlias>, ms: seq<Monitor>, alias: string, m: int)
    ensures StandsFor(aliases, ms, alias, m) <==> m >= 0 && ResolveAlias(Names(ms), aliases, alias) == m
    decreases |aliases|
  {
    if aliases == [] {
      NamedIs(ms, alias, m);
    } else if aliases[0].alias == alias {
      NamedIs(ms, aliases[0].output, m);
      assert FirstEntry(aliases, alias, 0);
    } else {
      ResolveStands(aliases[1..], ms, alias, m);
      EntryRest(aliases, ms, alias, m);
    }
  }

  lemma EntryRest(aliases: seq<MonitorAlias>, ms: seq<Monitor>, alias: string, m: int)
    requires aliases != [] && aliases[0].alias != alias
    ensures StandsFor(aliases, ms, alias, m) <==> StandsFor(aliases[1..], ms, alias, m)
  {
    hide FirstNamed;
    var rest := aliases[1..];
    forall i
      ensures FirstEntry(aliases, alias, i + 1) <==> FirstEntry(rest, alias, i)
    {
      if FirstEntry(aliases, alias, i + 1) && i >= 0 {
        assert forall k :: 0 <= k < i ==> rest[k] == aliases[k + 1];
      }
    }
    if HasEntry(aliases, alias) {
      var i :| 0 <= i < |aliases| && aliases[i].alias == alias;
      assert rest[i - 1] == aliases[i];
    }
    if exists i :: FirstEntry(aliases, alias, i) && FirstNamed(ms, aliases[i].output, m) {
      var i :| FirstEntry(aliases, alias, i) && FirstNamed(ms, aliases[i].output, m);
      assert FirstEntry(rest, alias, i - 1) && rest[i - 1] == aliases[i];
    }
    if exists i :: FirstEntry(rest, alias, i) && FirstNamed(ms, rest[i].output, m) {
      var i :| FirstEntry(rest, alias, i) && FirstNamed(ms, rest[i].output, m);
      assert FirstEntry(aliases, alias, i + 1) && rest[i] == aliases[i + 1];
    }
  }

  // --- Owners ------------------------------------------------------------------------------------

  /** The configuration asks for workspace `w` to be on monitor `m`. */
  ghost predicate Asked(t: Topology, aliases: seq<MonitorAlias>, w: int, m: int) {
    0 <= w < |t.wsAlias| && t.wsAlias[w] != "" && StandsFor(aliases, t.monitors, t.wsAlias[w], m)
  }

  /** Workspace `w` has an owner from before, on a monitor that is still there. */
  predicate HasOwner(t: Topology, w: int) {
    |t.owner| == |t.wsAlias| && 0 <= w < |t.owner| && 0 <= t.owner[w] < |t.monitors|
  }

  /** Neither the configuration nor an earlier owner decides about `w`. */
  ghost predicate Undecided(t: Topology, aliases: seq<MonitorAlias>, w: int) {
    0 <= w < |t.wsAlias| && !HasOwner(t, w) && forall m :: !Asked(t, aliases, w, m)
  }

  /** How many workspaces before `k` are undecided. */
  ghost function UndecidedBefore(t: Topology, aliases: seq<MonitorAlias>, k: nat): nat {
    if k == 0 then 0 else UndecidedBefore(t, aliases, k - 1) + (if Undecided(t, aliases, k - 1) then 1 else 0)
  }

  /** The monitor from which undecided workspaces are dealt: what the primary stands for, else the first. */
  ghost predicate DealtFrom(t: Topology, aliases: seq<MonitorAlias>, compose: MonitorCompose, p: int) {
    if compose.primary != "" && exists m :: StandsFor(aliases, t.monitors, compose.primary, m)
    then StandsFor(aliases, t.monitors, compose.primary, p)
    else p == 0
  }

  /** Everything about the owners that assigning leaves. */
  ghost predicate OwnersDecided(t: Topology, aliases: seq<MonitorAlias>, compose: MonitorCompose, owner: seq<int>) {
    |owner| == |t.wsAlias| &&
    (forall w, m :: Asked(t, aliases, w, m) ==> owner[w] == m) &&
    (forall w :: 0 <= w < |owner| && HasOwner(t, w) && (forall m :: !Asked(t, aliases, w, m)) ==> owner[w] == t.owner[w]) &&
    (forall p, w :: DealtFrom(t, aliases, compose, p) && Undecided(t, aliases, w) && t.monitors != [] ==>
       owner[w] == Turn(p, UndecidedBefore(t, aliases, w), |t.monitors|))
  }

  lemma AskedIs(t: Topology, aliases: seq<MonitorAlias>, w: int)
    requires 0 <= w < |t.wsAlias|
    ensures forall m :: Asked(t, aliases, w, m) <==> m >= 0 && AliasOwner(t, aliases, w) == m
  {
    forall m
      ensures Asked(t, aliases, w, m) <==> m >= 0 && AliasOwner(t, aliases, w) == m
    {
      ResolveStands(aliases, t.monitors, t.wsAlias[w], m);
    }
  }

  /** The monitor whose turn it is `k` turns after `rr`. */
  function Turn(rr: int, k: nat, n: nat): int
    requires n > 0
  {
    (rr + k) % n
  }

  /** Round robin deals the k-th unowned workspace to the k-th monitor from `rr` on. */
  lemma {:induction false} RoundRobinDeals(owner: seq<int>, rr: int, n: nat, w: nat)
    requires 0 <= rr < n && w < |owner| && owner[w] == NONE
    ensures RoundRobin(owner, rr, n)[w] == Turn(rr, Unowned(owner, w), n)
    decreases |owner|
  {
    hide Turn;
    if w == 0 {
      TurnNow(rr, n);
    } else {
      UnownedRest(owner, w);
      if owner[0] == NONE {
        TurnStays(rr, n);
        RoundRobinDeals(owner[1..], Turn(rr, 1, n), n, w - 1);
        NextTurn(rr, Unowned(owner[1..], w - 1), n);
      } else {
        RoundRobinDeals(owner[1..], rr, n, w - 1);
      }
    }
  }

  lemma TurnNow(rr: int, n: nat)
    requires 0 <= rr < n
    ensures Turn(rr, 0, n) == rr
  {
    RemainderIs(0, n, rr);
  }

  lemma TurnStays(rr: int, n: nat)
    requires 0 <= rr < n
    ensures Turn(rr, 1, n) == (rr + 1) % n && 0 <= Turn(rr, 1, n) < n
  {
  }

  /** How many of the first `k` have no owner. */
  function Unowned(owner: seq<int>, k: nat): nat
    requires k <= |owner|
  {
    if k == 0 then 0 else Unowned(owner, k - 1) + (if owner[k - 1] == NONE then 1 else 0)
  }

  lemma {:induction false} UnownedRest(owner: seq<int>, k: nat)
    requires 0 < k <= |owner|
    ensures Unowned(owner, k) == (if owner[0] == NONE then 1 else 0) + Unowned(owner[1..], k - 1)
  {
    if k > 1 {
      UnownedRest(owner, k - 1);
    }
  }

  lemma NextTurn(rr: int, k: nat, n: nat)
    requires 0 <= rr < n
    ensures Turn(Turn(rr, 1, n), k, n) == Turn(rr, 1 + k, n)
  {
    if rr + 1 < n {
      RemainderIs(0, n, rr + 1);
    } else {
      RemainderIs(1, n, 0);
      TurnsDrop(k, n, 1);
    }
  }

  lemma {:induction false} UnownedIsUndecided(t: Topology, aliases: seq<MonitorAlias>, k: nat)
    requires k <= |t.wsAlias|
    ensures Unowned(AliasedOwners(t, aliases), k) == UndecidedBefore(t, aliases, k)
  {
    if k > 0 {
      UnownedIsUndecided(t, aliases, k - 1);
      UndecidedIs(t, aliases, k - 1);
    }
  }

  lemma UndecidedIs(t: Topology, aliases: seq<MonitorAlias>, w: int)
    requires 0 <= w < |t.wsAlias|
    ensures Undecided(t, aliases, w) <==> AliasedOwners(t, aliases)[w] == NONE
  {
    hide AliasOwner, Asked;
    AskedIs(t, aliases, w);
    var m := AliasOwner(t, aliases, w);
    assert m >= 0 ==> Asked(t, aliases, w, m);
  }

  lemma DealtFromIs(t: Topology, aliases: seq<MonitorAlias>, compose: MonitorCompose, p: int)
    requires t.monitors != []
    ensures DealtFrom(t, aliases, compose, p) <==> p == PrimaryMonitor(Names(t.monitors), aliases, compose)
  {
    var r := ResolveAlias(Names(t.monitors), aliases, compose.primary);
    ResolveStands(aliases, t.monitors, compose.primary, p);
    ResolveStands(aliases, t.monitors, compose.primary, r);
    forall m | StandsFor(aliases, t.monitors, compose.primary, m)
      ensures m == r
    {
      ResolveStands(aliases, t.monitors, compose.primary, m);
    }
  }

  lemma OwnerDecided(t: Topology, aliases: seq<MonitorAlias>, rr: int, w: int)
    requires 0 <= w < |t.wsAlias| && 0 <= rr < |t.monitors|
    ensures
      var owner := RoundRobin(AliasedOwners(t, aliases), rr, |t.monitors|);
      && (forall m :: Asked(t, aliases, w, m) ==> owner[w] == m)
      && (HasOwner(t, w) && (forall m :: !Asked(t, aliases, w, m)) ==> owner[w] == t.owner[w])
      && (Undecided(t, aliases, w) ==> owner[w] == Turn(rr, UndecidedBefore(t, aliases, w), |t.monitors|))
  {
    hide AliasOwner, Asked, Turn;
    AskedIs(t, aliases, w);
    UndecidedIs(t, aliases, w);
    var aliased := AliasedOwners(t, aliases);
    var m := AliasOwner(t, aliases, w);
    assert m >= 0 ==> Asked(t, aliases, w, m);
    if aliased[w] == NONE {
      RoundRobinDeals(aliased, rr, |t.monitors|, w);
      UnownedIsUndecided(t, aliases, w);
    }
  }

  /** assign_workspaces: the alias decides, then the owner from before; the rest is dealt in turn, starting at the primary. */
  lemma AssignDecides(t: Topology, aliases: seq<MonitorAlias>, compose: MonitorCompose)
    requires t.monitors != []
    ensures OwnersDecided(t, aliases, compose, Assign(t, aliases, compose).owner)
  {
    hide AliasOwner, PrimaryMonitor, Asked, DealtFrom, Rebuild, Turn;
    RebuildOwner(t, AssignedOwners(t, aliases, compose), t.pools, ActiveList(t, |t.monitors|), t.focused);
    var owner := Assign(t, aliases, compose).owner;
    var rr := PrimaryMonitor(Names(t.monitors), aliases, compose);
    assert |Names(t.monitors)| == |t.monitors|;
    PrimaryExists(t, aliases, compose);
    forall w | 0 <= w < |owner|
      ensures forall m :: Asked(t, aliases, w, m) ==> owner[w] == m
      ensures HasOwner(t, w) && (forall m :: !Asked(t, aliases, w, m)) ==> owner[w] == t.owner[w]
      ensures Undecided(t, aliases, w) ==> owner[w] == Turn(rr, UndecidedBefore(t, aliases, w), |t.monitors|)
    {
      OwnerDecided(t, aliases, rr, w);
    }
    forall w, m | Asked(t, aliases, w, m)
      ensures 0 <= w < |owner|
    {
      AskedInRange(t, aliases, w, m);
    }
    forall p | DealtFrom(t, aliases, compose, p)
      ensures p == rr
    {
      DealtFromIs(t, aliases, compose, p);
    }
  }

  lemma AskedInRange(t: Topology, aliases: seq<MonitorAlias>, w: int, m: int)
    requires Asked(t, aliases, w, m)
    ensures 0 <= w < |t.wsAlias| && 0 <= m < |t.monitors|
  {
  }

  lemma PrimaryExists(t: Topology, aliases: seq<MonitorAlias>, compose: MonitorCompose)
    requires t.monitors != []
    ensures 0 <= PrimaryMonitor(Names(t.monitors), aliases, compose) < |t.monitors|
  {
  }

  lemma RebuildOwner(t: Topology, owner: seq<int>, seeds: seq<seq<int>>, preferred: seq<int>, focused: int)
    ensures Rebuild(t, owner, seeds, preferred, focused).owner == owner
  {
  }

  // --- In every state that is reached ------------------------------------------------------------

  /** In a settled topology every workspace is on the monitor the configuration asks for. */
  lemma SettledAsAsked(t: Topology, aliases: seq<MonitorAlias>, w: int, m: int)
    requires Settled(t, aliases) && Asked(t, aliases, w, m)
    ensures t.owner[w] == m
  {
    AskedIs(t, aliases, w);
  }

  /**
   * From start-up, after any run of commands, hot-plugs and settings reloads included: a workspace that the
   * configuration puts on a monitor which is connected is owned by that monitor.
   */
  lemma RunsAsAsked(settings: Settings, monitors: seq<Monitor>, cmds: seq<Command>, d: Core, w: int, m: int)
    requires Runs(Init(settings, monitors), cmds, d) && Asked(d.topo, d.settings.aliases, w, m)
    ensures 0 <= w < |d.topo.owner| && d.topo.owner[w] == m
  {
    hide Asked;
    InitInv(settings, monitors);
    RunInv(Init(settings, monitors), cmds, d);
    SettledAsAsked(d.topo, d.settings.aliases, w, m);
    AskedInRange(d.topo, d.settings.aliases, w, m);
  }
}
