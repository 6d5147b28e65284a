/**
 * Runtime::validate_settings (core/src/runtime/runtime.cpp:280-413): the list of complaints about a
 * configuration. Its own depth-first search over the placement graph is meant to guarantee that the
 * resolver in Compose.dfy finds a position for every enabled monitor.
 */
module Validator {
  import opened Config
  import opened Seqs
  import opened Compose

  datatype Problem =
    | NoWorkspaces | NoMonitors | EmptyAlias | EmptyOutput(name: string) | BadMode(name: string)
    | BadRotation(name: string) | DuplicateAlias(name: string) | DuplicateOutput(name: string)
    | ComposeMissing | PrimaryMissing | PrimaryUnknown(name: string)
    | LinkUnnamed | LinkUnknown(name: string) | LinkDuplicate(name: string) | LinkSide(name: string)
    | EntryMissing(name: string) | Cycle(name: string) | NotLinkedYet(name: string)
    | PrimaryHasAnchor(name: string) | PrimaryHasSide(name: string) | AnchorMissing(name: string)
    | SideMissing(name: string) | AnchorUnknown(name: string) | AnchorItself(name: string)
    | WorkspaceMonitorUnknown(name: string)
    | Other(text: string)

  // --- What a good configuration is --------------------------------------------------------------

  predicate HasAlias(ms: seq<MonitorAlias>, name: string) {
    exists i | 0 <= i < |ms| :: ms[i].alias == name
  }

  predicate ValidRotation(s: string) { s == "normal" || s == "left" || s == "right" || s == "inverted" }

  predicate MonitorOk(m: MonitorAlias) {
    m.alias != "" && m.output != "" && m.width > 0 && m.height > 0 && ValidRotation(m.rotation)
  }

  ghost predicate MonitorsOk(ms: seq<MonitorAlias>) {
    && (forall i :: 0 <= i < |ms| ==> MonitorOk(ms[i]))
    && (forall i, j :: 0 <= i < j < |ms| ==> ms[i].alias != ms[j].alias && ms[i].output != ms[j].output)
  }

  predicate LinkOk(ms: seq<MonitorAlias>, l: MonitorComposeLink) {
    l.monitor != "" && HasAlias(ms, l.monitor) && (l.side == "" || ValidSide(l.side))
  }

  ghost predicate LinksOk(ms: seq<MonitorAlias>, links: seq<MonitorComposeLink>) {
    && (forall i :: 0 <= i < |links| ==> LinkOk(ms, links[i]))
    && (forall i, j :: 0 <= i < j < |links| ==> links[i].monitor != links[j].monitor)
  }

  /** The primary monitor is not placed relative to another one. */
  predicate PrimaryClean(g: Graph) {
    g.primary in g.byMonitor ==> g.byMonitor[g.primary].relativeTo == "" && g.byMonitor[g.primary].side == ""
  }

  ghost predicate Good(g: Graph, name: string) { Reachable(g, name) && PrimaryClean(g) }

  ghost predicate ComposeOk(ms: seq<MonitorAlias>, compose: MonitorCompose) {
    && compose.defined && compose.primary != "" && HasAlias(ms, compose.primary) && LinksOk(ms, compose.layout)
    && forall i :: 0 <= i < |ms| && ms[i].enabled ==> Good(GraphOf(ms, compose), ms[i].alias)
  }

  ghost predicate WorkspacesOk(ms: seq<MonitorAlias>, defs: seq<WorkspaceDef>) {
    forall i :: 0 <= i < |defs| && defs[i].monitor != "" ==> HasAlias(ms, defs[i].monitor)
  }

  // --- The search --------------------------------------------------------------------------------

  /** The links by monitor; of two entries for one monitor the earlier one counts. */
  function FirstLinks(links: seq<MonitorComposeLink>): (m: map<string, MonitorComposeLink>)
    ensures forall name :: name in m <==> exists i | 0 <= i < |links| :: links[i].monitor == name
  {
    if links == [] then map[]
    else
      var l := links[|links| - 1];
      var m := FirstLinks(links[..|links| - 1]);
      if l.monitor in m then m else m[l.monitor := l]
  }

  lemma {:induction false} FirstIsLast(links: seq<MonitorComposeLink>)
    requires forall i, j :: 0 <= i < j < |links| ==> links[i].monitor != links[j].monitor
    ensures FirstLinks(links) == LinkMap(links)
  {
    if links != [] {
      FirstIsLast(links[..|links| - 1]);
    }
  }

  lemma {:induction false} FirstLinksMember(links: seq<MonitorComposeLink>, name: string)
    requires name in FirstLinks(links)
    ensures FirstLinks(links)[name] in links
  {
    var front := links[..|links| - 1];
    if name in FirstLinks(front) {
      FirstLinksMember(front, name);
    }
  }

  class ComposeChecker {
    const g: Graph
    var errs: seq<Problem>
    var state: map<string, int>

    constructor (g: Graph, errs: seq<Problem>)
      ensures this.g == g && this.errs == errs && this.state == map[]
    {
      this.g, this.errs, this.state := g, errs, map[];
    }

    function StateOf(name: string): int
      reads this`state
    {
      if name in state then state[name] else UNKNOWN
    }

    ghost predicate SidesOk() {
      forall n :: n in g.byMonitor ==> g.byMonitor[n].side == "" || ValidSide(g.byMonitor[n].side)
    }

    /** As long as nothing was found wrong, every finished name is good. */
    ghost predicate Valid()
      reads this
    {
      && (forall n :: n in state ==> state[n] == VISITING || state[n] == DONE)
      && (errs == [] ==> SidesOk() && forall n :: StateOf(n) == DONE ==> Good(g, n))
    }

    ghost predicate VisitingIs(path: seq<string>)
      reads this
    {
      forall n :: StateOf(n) == VISITING <==> n in path
    }

    ghost function Unvisited(): set<string>
      reads this
    {
      set n | n in g.byAlias && StateOf(n) == UNKNOWN
    }

    method Complain(p: Problem)
      modifies this`errs
      ensures errs == old(errs) + [p]
    {
      errs := errs + [p];
    }

    /** The complaints about one name's own entry. */
    method CheckEntry(name: string, link: MonitorComposeLink)
      modifies this`errs
      ensures old(errs) <= errs
      ensures errs == old(errs) <==>
        if name == g.primary then link.relativeTo == "" && link.side == "" else link.relativeTo != "" && link.side != ""
    {
      if name == g.primary {
        if link.relativeTo != "" {
          Complain(PrimaryHasAnchor(name));
        }
        if link.side != "" {
          Complain(PrimaryHasSide(name));
        }
      } else {
        if link.relativeTo == "" {
          Complain(AnchorMissing(name));
        }
        if link.side == "" {
          Complain(SideMissing(name));
        }
      }
    }

    /** No complaint for a good name; and if there is no complaint at all, the name is good. */
    method Dfs(name: string, ghost path: seq<string>)
      requires Valid() && VisitingIs(path) && name in g.byAlias
      requires PrimaryClean(g) ==> IsPath(g, path, name)
      modifies this
      ensures Valid() && VisitingIs(path) && old(errs) <= errs
      ensures Good(g, name) ==> errs == old(errs)
      ensures errs == [] ==> Good(g, name)
      decreases Unvisited(), 1
    {
      hide Reachable, Reaches, PrimaryClean;
      if StateOf(name) == DONE {
        return;
      }
      if StateOf(name) == VISITING {
        if PrimaryClean(g) {
          CycleUnreachable(g, path, name);
        }
        Complain(Cycle(name));
        return;
      }
      ghost var before := Unvisited();
      state := state[name := VISITING];
      if name !in g.byMonitor {
        if name == g.primary {
          PrimaryGood(g, name);
        } else {
          NotLinked(g, name);
          Complain(NotLinkedYet(name));
        }
        state := state[name := DONE];
        return;
      }
      DfsLink(name, path, before);
    }

    /** The rest of a visit, for a name with an entry in the layout. */
    method DfsLink(name: string, ghost path: seq<string>, ghost before: set<string>)
      requires Valid() && VisitingIs(path + [name]) && name !in path && name in g.byAlias && name in g.byMonitor
      requires PrimaryClean(g) ==> IsPath(g, path, name)
      requires name in before && Unvisited() == before - {name}
      modifies this
      ensures Valid() && VisitingIs(path) && old(errs) <= errs
      ensures Good(g, name) ==> errs == old(errs)
      ensures errs == [] ==> Good(g, name)
      decreases before, 0
    {
      hide Reachable, Reaches, PrimaryClean;
      assert forall n :: n in path + [name] <==> n in path || n == name;
      var link := g.byMonitor[name];
      CheckEntry(name, link);
      EntryGood(g, name);
      if link.relativeTo != "" {
        if link.relativeTo !in g.byAlias {
          Complain(AnchorUnknown(name));
        } else if link.relativeTo == name {
          Complain(AnchorItself(name));
        } else {
          if PrimaryClean(g) {
            PathLonger(g, path, name);
          }
          assert Unvisited() == before - {name};
          Dfs(link.relativeTo, path + [name]);
        }
      }
      state := state[name := DONE];
    }
  }

  lemma PrimaryGood(g: Graph, name: string)
    requires name in g.byAlias && name == g.primary
    ensures Good(g, name) <==> PrimaryClean(g)
    ensures PrimaryClean(g) <==>
      name in g.byMonitor ==> g.byMonitor[name].relativeTo == "" && g.byMonitor[name].side == ""
  {
    RootPlaced(g, name);
  }

  /** When a name with an entry is good. */
  lemma EntryGood(g: Graph, name: string)
    requires name in g.byAlias && name in g.byMonitor
    ensures name == g.primary ==>
      (Good(g, name) <==> PrimaryClean(g)) &&
      (PrimaryClean(g) <==> g.byMonitor[name].relativeTo == "" && g.byMonitor[name].side == "")
    ensures name != g.primary ==>
      (Good(g, name) <==>
        Linked(g, name) && Anchor(g, name) in g.byAlias && Anchor(g, name) != name && Good(g, Anchor(g, name)))
  {
    if name == g.primary {
      PrimaryGood(g, name);
    } else if Linked(g, name) {
      ReachableStep(g, name);
      if Anchor(g, name) == name {
        CycleUnreachable(g, [name], name);
      }
      if Reachable(g, Anchor(g, name)) {
        ReachableKnown(g, Anchor(g, name));
      }
    } else {
      NotLinked(g, name);
    }
  }

  lemma ReachableKnown(g: Graph, name: string)
    requires Reachable(g, name)
    ensures name in g.byAlias
  {
  }

  // --- The whole check ---------------------------------------------------------------------------

  method CheckMonitor(m: MonitorAlias) returns (errs: seq<Problem>)
    ensures errs == [] <==> MonitorOk(m)
  {
    errs := [];
    if m.alias == "" {
      errs := errs + [EmptyAlias];
    }
    if m.output == "" {
      errs := errs + [EmptyOutput(m.alias)];
    }
    if m.width <= 0 || m.height <= 0 {
      errs := errs + [BadMode(m.alias)];
    }
    if !ValidRotation(m.rotation) {
      errs := errs + [BadRotation(m.alias)];
    }
  }

  /** The loop over the monitors, which remembers the aliases and outputs it has seen. */
  method CheckMonitors(ms: seq<MonitorAlias>) returns (errs: seq<Problem>)
    ensures errs == [] <==> MonitorsOk(ms)
  {
    hide MonitorsOk, MonitorOk;
    errs := [];
    var aliases: set<string>, outputs: set<string> := {}, {};
    EmptyMonitorsOk();
    assert ms[..0] == [];
    for i := 0 to |ms|
      invariant forall a :: a in aliases <==> exists j | 0 <= j < i :: ms[j].alias == a
      invariant forall o :: o in outputs <==> exists j | 0 <= j < i :: ms[j].output == o
      invariant errs == [] <==> MonitorsOk(ms[..i])
    {
      var m := ms[i];
      PrefixSnoc(ms, i);
      var es := CheckMonitor(m);
      errs := errs + es;
      if m.alias in aliases {
        errs := errs + [DuplicateAlias(m.alias)];
      }
      if m.output in outputs {
        errs := errs + [DuplicateOutput(m.output)];
      }
      MonitorsSnoc(ms[..i], m);
      aliases, outputs := aliases + {m.alias}, outputs + {m.output};
    }
    assert ms[..|ms|] == ms;
  }

  lemma EmptyMonitorsOk()
    ensures MonitorsOk([])
  {
  }

  lemma MonitorsSnoc(ms: seq<MonitorAlias>, m: MonitorAlias)
    ensures MonitorsOk(ms + [m]) <==>
      MonitorsOk(ms) && MonitorOk(m) && forall j :: 0 <= j < |ms| ==> ms[j].alias != m.alias && ms[j].output != m.output
  {
    var all := ms + [m];
    if MonitorsOk(all) {
      assert forall j :: 0 <= j < |ms| ==> all[j] == ms[j];
      assert all[|ms|] == m;
    }
  }

  /** The loop over the layout; it also builds the map that the search uses. */
  method CheckLinks(ms: seq<MonitorAlias>, links: seq<MonitorComposeLink>)
    returns (errs: seq<Problem>, byMonitor: map<string, MonitorComposeLink>)
    ensures errs == [] <==> LinksOk(ms, links)
    ensures byMonitor == FirstLinks(links)
  {
    errs, byMonitor := [], map[];
    for i := 0 to |links|
      invariant byMonitor == FirstLinks(links[..i])
      invariant errs == [] <==> LinksOk(ms, links[..i])
    {
      var l := links[i];
      PrefixSnoc(links, i);
      ghost var was := errs;
      if l.monitor == "" {
        errs := errs + [LinkUnnamed];
      }
      if !HasAlias(ms, l.monitor) {
        errs := errs + [LinkUnknown(l.monitor)];
      }
      ghost var duplicate := l.monitor in byMonitor;
      if l.monitor in byMonitor {
        errs := errs + [LinkDuplicate(l.monitor)];
      } else {
        byMonitor := byMonitor[l.monitor := l];
      }
      if l.side != "" && !ValidSide(l.side) {
        errs := errs + [LinkSide(l.monitor)];
      }
      assert errs == was <==> LinkOk(ms, l) && !duplicate;
      LinksSnoc(ms, links[..i], l);
    }
    assert links[..|links|] == links;
  }

  lemma LinksSnoc(ms: seq<MonitorAlias>, links: seq<MonitorComposeLink>, l: MonitorComposeLink)
    ensures LinksOk(ms, links + [l]) <==>
      LinksOk(ms, links) && LinkOk(ms, l) && l.monitor !in FirstLinks(links)
  {
    var all := links + [l];
    assert all[|links|] == l;
    assert forall j :: 0 <= j < |links| ==> all[j] == links[j];
    if LinksOk(ms, all) {
      assert forall j :: 0 <= j < |links| ==> links[j].monitor != l.monitor;
    }
  }

  /** The part of validate_settings about the composition. */
  method CheckCompose(ms: seq<MonitorAlias>, compose: MonitorCompose) returns (errs: seq<Problem>)
    ensures errs == [] <==> ComposeOk(ms, compose)
  {
    hide Good, LinksOk, GraphOf;
    errs := [];
    if !compose.defined {
      return [ComposeMissing];
    }
    if compose.primary == "" {
      errs := errs + [PrimaryMissing];
    }
    var linkErrs, byMonitor := CheckLinks(ms, compose.layout);
    errs := errs + linkErrs;
    if compose.primary != "" && !HasAlias(ms, compose.primary) {
      errs := errs + [PrimaryUnknown(compose.primary)];
    }
    ghost var basics := errs == [];
    var g := Graph(AliasMap(ms), byMonitor, compose.primary);
    var missing := CheckEntries(ms, g);
    errs := errs + missing;
    if LinksOk(ms, compose.layout) {
      LinksGiveSides(ms, compose.layout);
      GraphsAgree(ms, compose);
    }
    errs := CheckReach(ms, g, errs);
  }

  /** The search from every enabled monitor. */
  method CheckReach(ms: seq<MonitorAlias>, g: Graph, before: seq<Problem>) returns (errs: seq<Problem>)
    requires g.byAlias == AliasMap(ms)
    requires before == [] ==> forall n :: n in g.byMonitor ==> g.byMonitor[n].side == "" || ValidSide(g.byMonitor[n].side)
    ensures before <= errs
    ensures (forall j :: 0 <= j < |ms| && ms[j].enabled ==> Good(g, ms[j].alias)) ==> errs == before
    ensures errs == [] ==> forall j :: 0 <= j < |ms| && ms[j].enabled ==> Good(g, ms[j].alias)
  {
    hide Good;
    var checker := new ComposeChecker(g, before);
    for i := 0 to |ms|
      invariant checker.g == g && checker.Valid() && checker.VisitingIs([]) && before <= checker.errs
      invariant (forall j :: 0 <= j < i && ms[j].enabled ==> Good(g, ms[j].alias)) ==> checker.errs == before
      invariant checker.errs == [] ==> forall j :: 0 <= j < i && ms[j].enabled ==> Good(g, ms[j].alias)
    {
      if ms[i].enabled {
        checker.Dfs(ms[i].alias, []);
      }
    }
    errs := checker.errs;
  }

  /** Every enabled monitor other than the primary needs an entry; a good one has it. */
  method CheckEntries(ms: seq<MonitorAlias>, g: Graph) returns (errs: seq<Problem>)
    ensures (forall j :: 0 <= j < |ms| && ms[j].enabled ==> Good(g, ms[j].alias)) ==> errs == []
  {
    errs := [];
    for i := 0 to |ms|
      invariant (forall j :: 0 <= j < i && ms[j].enabled ==> Good(g, ms[j].alias)) ==> errs == []
    {
      if ms[i].enabled && ms[i].alias != g.primary && ms[i].alias !in g.byMonitor {
        NotLinked(g, ms[i].alias);
        errs := errs + [EntryMissing(ms[i].alias)];
      }
    }
  }

  lemma LinksGiveSides(ms: seq<MonitorAlias>, links: seq<MonitorComposeLink>)
    requires LinksOk(ms, links)
    ensures forall n :: n in FirstLinks(links) ==> FirstLinks(links)[n].side == "" || ValidSide(FirstLinks(links)[n].side)
  {
    forall n | n in FirstLinks(links)
      ensures FirstLinks(links)[n].side == "" || ValidSide(FirstLinks(links)[n].side)
    {
      FirstLinksMember(links, n);
      var i :| 0 <= i < |links| && links[i] == FirstLinks(links)[n];
      assert LinkOk(ms, links[i]);
    }
  }

  /** Without duplicate entries the checker's graph is the resolver's graph. */
  lemma GraphsAgree(ms: seq<MonitorAlias>, compose: MonitorCompose)
    requires LinksOk(ms, compose.layout)
    ensures Graph(AliasMap(ms), FirstLinks(compose.layout), compose.primary) == GraphOf(ms, compose)
  {
    FirstIsLast(compose.layout);
  }

  /** The loop over the workspaces. */
  method CheckWorkspaces(ms: seq<MonitorAlias>, defs: seq<WorkspaceDef>) returns (errs: seq<Problem>)
    ensures errs == [] <==> WorkspacesOk(ms, defs)
  {
    errs := [];
    for i := 0 to |defs|
      invariant errs == [] <==> WorkspacesOk(ms, defs[..i])
    {
      PrefixSnoc(defs, i);
      if defs[i].monitor != "" && !HasAlias(ms, defs[i].monitor) {
        errs := errs + [WorkspaceMonitorUnknown(defs[i].name)];
      }
      assert WorkspacesOk(ms, defs[..i + 1]) <==>
        WorkspacesOk(ms, defs[..i]) && (defs[i].monitor != "" ==> HasAlias(ms, defs[i].monitor)) by {
        assert forall j :: 0 <= j < i ==> defs[..i + 1][j] == defs[..i][j];
        assert defs[..i + 1][i] == defs[i];
      }
    }
    assert defs[..|defs|] == defs;
  }

  ghost predicate SettingsOk(ms: seq<MonitorAlias>, compose: MonitorCompose, defs: seq<WorkspaceDef>) {
    defs != [] && ms != [] && MonitorsOk(ms) && ComposeOk(ms, compose) && WorkspacesOk(ms, defs)
  }

  /**
   * validate_settings: no complaint exactly for a good configuration. `perSetting` are the complaints of
   * the individual settings, `bar` those of the bar and theme cross-checks.
   */
  method ValidateSettings(
    perSetting: seq<Problem>, ms: seq<MonitorAlias>, compose: MonitorCompose, defs: seq<WorkspaceDef>,
    bar: seq<Problem>)
    returns (errs: seq<Problem>)
    ensures errs == [] <==> perSetting == [] && bar == [] && SettingsOk(ms, compose, defs)
  {
    hide MonitorsOk, ComposeOk, WorkspacesOk;
    errs := perSetting;
    if defs == [] {
      errs := errs + [NoWorkspaces];
    }
    if ms == [] {
      errs := errs + [NoMonitors];
    } else {
      var es := CheckMonitors(ms);
      errs := errs + es;
    }
    var cs := CheckCompose(ms, compose);
    errs := errs + cs;
    var ws := CheckWorkspaces(ms, defs);
    errs := errs + ws;
    errs := errs + bar;
  }

  /**
   * The validator's promise: whatever the resolver stores for a configuration without complaints, every
   * enabled monitor has a position.
   */
  lemma ValidatedIsPlaced(ms: seq<MonitorAlias>, compose: MonitorCompose, defs: seq<WorkspaceDef>, raw: Positions)
    requires SettingsOk(ms, compose, defs) && Composed(GraphOf(ms, compose), ms, raw)
    ensures forall i :: 0 <= i < |ms| && ms[i].enabled ==> ms[i].alias in Shifted(raw, Shift(ms, raw))
  {
    forall i | 0 <= i < |ms| && ms[i].enabled
      ensures ms[i].alias in raw
    {
      assert Good(GraphOf(ms, compose), ms[i].alias);
    }
  }

  /**
   * And back: if the entries themselves are in order, the primary is clean and every enabled monitor gets
   * a position, then the validator has no complaint about the composition.
   */
  lemma PlacedIsValidated(ms: seq<MonitorAlias>, compose: MonitorCompose, raw: Positions)
    requires Composed(GraphOf(ms, compose), ms, raw)
    requires compose.defined && compose.primary != "" && HasAlias(ms, compose.primary) && LinksOk(ms, compose.layout)
    requires exists i :: 0 <= i < |ms| && ms[i].enabled
    ensures ComposeOk(ms, compose) <==>
      PrimaryClean(GraphOf(ms, compose)) && forall i :: 0 <= i < |ms| && ms[i].enabled ==> ms[i].alias in raw
  {
    hide Reachable;
    if ComposeOk(ms, compose) {
      var i :| 0 <= i < |ms| && ms[i].enabled;
      assert Good(GraphOf(ms, compose), ms[i].alias);
      forall i | 0 <= i < |ms| && ms[i].enabled
        ensures ms[i].alias in raw
      {
        assert Good(GraphOf(ms, compose), ms[i].alias);
      }
    }
  }
}
