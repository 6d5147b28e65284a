/**
 * The geometry protocol between the core and the X server: commands set dirty bits, a flush turns them
 * into a configure request, the server applies requests in order and echoes its full geometry on each
 * change, and the core takes over an echo except where a dirty bit is pending
 * (core/src/core/core_dispatch.cpp:33-68, 851-905; backends/x11/src/backend/loop.cpp:21-52).
 */
module GeometryProtocol {
  import opened Monitors
  import opened Windows
  import opened Flush
  import opened Reducer
  import opened ReducerProofs
  import opened GeometryTracking

  // --- Configure requests on the wire ------------------------------------------------------------

  /** A ConfigureWindow request: which fields, and one 32-bit word for each, in the order of the bits. */
  datatype Request = Request(win: nat, mask: Dirty, words: seq<int>)

  predicate IsInt32(v: int) { -0x8000_0000 <= v < 0x8000_0000 }

  /** A C++ int as the 32-bit word that is sent. */
  function ToWord(v: int): int { v % 0x1_0000_0000 }

  /** The word as the signed number it stands for. */
  function FromWord(u: int): int { if u >= 0x8000_0000 then u - 0x1_0000_0000 else u }

  lemma WordRoundTrip(v: int)
    requires IsInt32(v)
    ensures FromWord(ToWord(v)) == v
  {
  }

  predicate Representable(g: Geometry) {
    IsInt32(g.pos.x) && IsInt32(g.pos.y) && IsInt32(g.size.x) && IsInt32(g.size.y) && IsInt32(g.border)
  }

  function Word(on: bool, v: int): seq<int> { if on then [ToWord(v)] else [] }

  /** What apply_window_flush sends. */
  function Encode(win: nat, d: Dirty, g: Geometry): Request {
    Request(win, d, Word(d.x, g.pos.x) + Word(d.y, g.pos.y) + Word(d.w, g.size.x) + Word(d.h, g.size.y) +
                    Word(d.border, g.border))
  }

  /** apply_window_flush: the value array is filled step by step, in the order of the mask bits. */
  method ApplyWindowFlush(win: nat, d: Dirty, g: Geometry) returns (r: Option<Request>)
    ensures r == if d.Any() then Some(Encode(win, d, g)) else None
  {
    if !d.Any() {
      return None;
    }
    var mask := CLEAN;
    var values := [];
    if d.x {
      mask := mask.(x := true);
      values := values + [ToWord(g.pos.x)];
    }
    if d.y {
      mask := mask.(y := true);
      values := values + [ToWord(g.pos.y)];
    }
    assert values == Word(d.x, g.pos.x) + Word(d.y, g.pos.y);
    if d.w {
      mask := mask.(w := true);
      values := values + [ToWord(g.size.x)];
    }
    assert values == Word(d.x, g.pos.x) + Word(d.y, g.pos.y) + Word(d.w, g.size.x);
    if d.h {
      mask := mask.(h := true);
      values := values + [ToWord(g.size.y)];
    }
    assert values == Word(d.x, g.pos.x) + Word(d.y, g.pos.y) + Word(d.w, g.size.x) + Word(d.h, g.size.y);
    if d.border {
      mask := mask.(border := true);
      values := values + [ToWord(g.border)];
    }
    assert values == Encode(win, d, g).words;
    r := Some(Request(win, mask, values));
  }

  /** The next word, if its bit is set and a word is left. */
  function Take(on: bool, words: seq<int>, prior: int): (r: (int, seq<int>))
    ensures |r.1| <= |words|
  {
    if on && words != [] then (FromWord(words[0]), words[1..]) else (prior, words)
  }

  /** The server reads one word per mask bit, in the order of the bits, and keeps the other fields. */
  function Decode(r: Request, g: Geometry): Geometry {
    var x := Take(r.mask.x, r.words, g.pos.x);
    var y := Take(r.mask.y, x.1, g.pos.y);
    var w := Take(r.mask.w, y.1, g.size.x);
    var h := Take(r.mask.h, w.1, g.size.y);
    var b := Take(r.mask.border, h.1, g.border);
    Geometry(Vec(x.0, y.0), Vec(w.0, h.0), b.0)
  }

  /** `g` where a bit is set, `prior` elsewhere. */
  function Overlay(d: Dirty, g: Geometry, prior: Geometry): Geometry {
    Geometry(Vec(if d.x then g.pos.x else prior.pos.x, if d.y then g.pos.y else prior.pos.y),
             Vec(if d.w then g.size.x else prior.size.x, if d.h then g.size.y else prior.size.y),
             if d.border then g.border else prior.border)
  }

  /** Reading one word where it was written, or none. */
  lemma TakeWord(on: bool, v: int, rest: seq<int>, prior: int)
    requires IsInt32(v)
    ensures Take(on, Word(on, v) + rest, prior) == (if on then v else prior, rest)
  {
    if on {
      WordRoundTrip(v);
      assert (Word(on, v) + rest)[1..] == rest;
    } else {
      assert Word(on, v) + rest == rest;
    }
  }

  /** The server understands a request as the core meant it: exactly the dirty fields change. */
  lemma RequestRoundTrip(win: nat, d: Dirty, g: Geometry, prior: Geometry)
    requires Representable(g)
    ensures Decode(Encode(win, d, g), prior) == Overlay(d, g, prior)
  {
    hide Take, Word, ToWord, FromWord;
    var x, y, w := Word(d.x, g.pos.x), Word(d.y, g.pos.y), Word(d.w, g.size.x);
    var h, b := Word(d.h, g.size.y), Word(d.border, g.border);
    assert x + y + w + h + b == x + (y + (w + (h + (b + []))));
    TakeWord(d.x, g.pos.x, y + (w + (h + (b + []))), prior.pos.x);
    TakeWord(d.y, g.pos.y, w + (h + (b + [])), prior.pos.y);
    TakeWord(d.w, g.size.x, h + (b + []), prior.size.x);
    TakeWord(d.h, g.size.y, b + [], prior.size.y);
    TakeWord(d.border, g.border, [], prior.border);
  }

  // --- The protocol ------------------------------------------------------------------------------

  datatype Echo = Echo(win: nat, geo: Geometry)

  /** The core, the requests on their way to the server, the server's windows, the echoes on their way back. */
  datatype Link = Link(core: Core, requests: seq<Request>, server: map<nat, Geometry>, echoes: seq<Echo>)

  datatype Action =
    | Command(cmd: Command)        // the core reduces a command
    | FlushWindow(win: nat)        // the backend takes a window's pending flush and sends it
    | Serve                        // the server applies the oldest request
    | ClientChange(win: nat, geo: Geometry) // the server changes a window on its own account
    | Deliver                      // the backend hands the oldest echo to the core

  /** A run about window `id`: it stays alive, only the server echoes for it, and its numbers are C++ ints. */
  predicate Fair(s: Link, a: Action, id: nat) {
    match a
    case Command(cmd) => Allowed(s.core, cmd) && cmd != CRemoveWindow(id) && !(cmd.CSyncFromNotify? && cmd.win == id)
    case FlushWindow(win) => win == id && id in s.core.tb.index ==> Representable(s.core.tb.index[id].geo)
    case _ => true
  }

  /** The server sets a window's geometry, and echoes it in full if that changed anything. */
  function Configure(s: Link, win: nat, g: Geometry): Link {
    if win !in s.server || s.server[win] == g then s
    else s.(server := s.server[win := g], echoes := s.echoes + [Echo(win, g)])
  }

  function EchoCommand(e: Echo): Command { CSyncFromNotify(e.win, e.geo.pos, e.geo.size, e.geo.border) }

  function After(s: Link, a: Action): Link
    requires Sane(s.core) && (a.Command? ==> Allowed(s.core, a.cmd))
  {
    match a
    case Command(cmd) => s.(core := Step(s.core, cmd))
    case FlushWindow(win) => Flushed(s, win)
    case Serve =>
      if s.requests == [] then s
      else
        var r := s.requests[0];
        var rest := s.(requests := s.requests[1..]);
        if r.win in s.server then Configure(rest, r.win, Decode(r, s.server[r.win])) else rest
    case ClientChange(win, g) => Configure(s, win, g)
    case Deliver =>
      if s.echoes == [] then s
      else s.(core := Step(s.core, EchoCommand(s.echoes[0])), echoes := s.echoes[1..])
  }

  /** take_window_flush followed by apply_window_flush. */
  function Flushed(s: Link, win: nat): Link {
    var d := DirtyOf(s.core, win);
    var taken := s.(core := s.core.(dirty := s.core.dirty - {win}));
    if d.Any() && win in s.core.tb.index
    then taken.(requests := s.requests + [Encode(win, d, s.core.tb.index[win].geo)])
    else taken
  }

  // --- The invariant -----------------------------------------------------------------------------

  /** Position and size agree wherever no bit of `d` is set. */
  predicate AgreeOutside(d: Dirty, g: Geometry, h: Geometry) {
    && (!d.x ==> g.pos.x == h.pos.x) && (!d.y ==> g.pos.y == h.pos.y)
    && (!d.w ==> g.size.x == h.size.x) && (!d.h ==> g.size.y == h.size.y)
  }

  /** No request on its way changes window `id`. */
  predicate NoEffect(requests: seq<Request>, id: nat, g: Geometry) {
    forall i :: 0 <= i < |requests| && requests[i].win == id ==> Decode(requests[i], g) == g
  }

  function LastEcho(echoes: seq<Echo>, id: nat): (r: Option<Geometry>)
    ensures r.None? <==> forall i :: 0 <= i < |echoes| ==> echoes[i].win != id
    decreases |echoes|
  {
    if echoes == [] then None
    else
      var e := echoes[|echoes| - 1];
      if e.win == id then Some(e.geo) else LastEcho(echoes[..|echoes| - 1], id)
  }

  /**
   * The newest echo under way is the server's geometry; and if no echo is under way and no request will
   * cause one, the core already has the server's position and size wherever it has nothing to send.
   */
  ghost predicate InStep(s: Link, id: nat) {
    && Inv(s.core) && id in s.core.tb.index && id in s.server
    && (LastEcho(s.echoes, id).Some? ==> LastEcho(s.echoes, id).value == s.server[id])
    && (LastEcho(s.echoes, id).None? && NoEffect(s.requests, id, s.server[id]) ==>
          AgreeOutside(DirtyOf(s.core, id), s.core.tb.index[id].geo, s.server[id]))
  }

  lemma CommandInStep(s: Link, cmd: Command, id: nat)
    requires InStep(s, id) && Fair(s, Command(cmd), id)
    ensures InStep(s.(core := Step(s.core, cmd)), id)
  {
    hide Step, Inv, Allowed;
    InvSane(s.core);
    StepInv(s.core, cmd);
    StepTracked(s.core, cmd, id);
  }

  lemma EncodeNoEffect(win: nat, d: Dirty, g: Geometry, prior: Geometry)
    requires Representable(g) && Decode(Encode(win, d, g), prior) == prior
    ensures AgreeOutside(CLEAN, Overlay(d, g, prior), prior)
    ensures (d.x ==> g.pos.x == prior.pos.x) && (d.y ==> g.pos.y == prior.pos.y)
    ensures (d.w ==> g.size.x == prior.size.x) && (d.h ==> g.size.y == prior.size.y)
  {
    RequestRoundTrip(win, d, g, prior);
  }

  lemma FlushInv(c: Core, win: nat)
    requires Inv(c)
    ensures Inv(c.(dirty := c.dirty - {win}))
  {
  }

  lemma FlushInStep(s: Link, win: nat, id: nat)
    requires InStep(s, id) && Fair(s, FlushWindow(win), id)
    ensures InStep(Flushed(s, win), id)
  {
    hide Inv, Encode, Decode;
    FlushInv(s.core, win);
    var t := Flushed(s, win);
    if LastEcho(t.echoes, id).None? && NoEffect(t.requests, id, t.server[id]) {
      assert NoEffect(s.requests, id, s.server[id]) by {
        forall i | 0 <= i < |s.requests| && s.requests[i].win == id
          ensures Decode(s.requests[i], s.server[id]) == s.server[id]
        {
          assert t.requests[i] == s.requests[i];
        }
      }
      var d := DirtyOf(s.core, id);
      if win == id && d.Any() {
        var g := s.core.tb.index[id].geo;
        assert t.requests[|s.requests|] == Encode(id, d, g);
        EncodeWin(id, d, g);
        EncodeNoEffect(id, d, g, s.server[id]);
      }
    }
  }

  lemma EncodeWin(win: nat, d: Dirty, g: Geometry)
    ensures Encode(win, d, g).win == win
  {
  }

  lemma LastEchoAppend(echoes: seq<Echo>, e: Echo, id: nat)
    ensures LastEcho(echoes + [e], id) == if e.win == id then Some(e.geo) else LastEcho(echoes, id)
  {
    assert (echoes + [e])[..|echoes|] == echoes;
  }

  lemma ConfigureInStep(s: Link, win: nat, g: Geometry, id: nat)
    requires InStep(s, id)
    ensures InStep(Configure(s, win, g), id)
  {
    hide Inv, Decode;
    LastEchoAppend(s.echoes, Echo(win, g), id);
  }

  lemma ServeInStep(s: Link, id: nat)
    requires InStep(s, id) && s.requests != []
    ensures
      var r, rest := s.requests[0], s.(requests := s.requests[1..]);
      InStep(if r.win in s.server then Configure(rest, r.win, Decode(r, s.server[r.win])) else rest, id)
  {
    hide Inv, Decode;
    var r, rest := s.requests[0], s.(requests := s.requests[1..]);
    if r.win == id {
      var g := Decode(r, s.server[id]);
      LastEchoAppend(s.echoes, Echo(id, g), id);
      if g == s.server[id] {
        NoEffectRest(s.requests, id, g);
      }
    } else {
      NoEffectRest(s.requests, id, s.server[id]);
      if r.win in s.server {
        LastEchoAppend(s.echoes, Echo(r.win, Decode(r, s.server[r.win])), id);
      }
    }
  }

  lemma NoEffectRest(requests: seq<Request>, id: nat, g: Geometry)
    requires requests != [] && (requests[0].win == id ==> Decode(requests[0], g) == g)
    ensures NoEffect(requests[1..], id, g) <==> NoEffect(requests, id, g)
  {
    hide Decode;
    if NoEffect(requests[1..], id, g) {
      forall i | 0 <= i < |requests| && requests[i].win == id
        ensures Decode(requests[i], g) == g
      {
        if i > 0 {
          assert requests[1..][i - 1] == requests[i];
        }
      }
    }
  }

  lemma {:induction false} LastEchoRest(echoes: seq<Echo>, id: nat)
    requires echoes != []
    ensures LastEcho(echoes[1..], id).Some? ==> LastEcho(echoes, id) == LastEcho(echoes[1..], id)
    ensures LastEcho(echoes[1..], id).None? ==>
      LastEcho(echoes, id) == if echoes[0].win == id then Some(echoes[0].geo) else None
    decreases |echoes|
  {
    if |echoes| > 1 {
      var front := echoes[..|echoes| - 1];
      LastEchoRest(front, id);
      assert echoes[1..][..|echoes[1..]| - 1] == front[1..];
    }
  }

  /** What an echo does to a window: dirty fields stay, the others take the echoed values. */
  lemma DeliverEffect(c: Core, e: Echo, id: nat)
    requires Inv(c) && id in c.tb.index
    ensures
      var d := Step(c, EchoCommand(e));
      && Inv(d) && id in d.tb.index && DirtyOf(d, id) == DirtyOf(c, id)
      && d.tb.index[id].geo ==
           if e.win == id then Overlay(DirtyOf(c, id), c.tb.index[id].geo, e.geo) else c.tb.index[id].geo
  {
    hide StepVisibility, StepFlag, StepGeometry, StepLayout, StepFocus, StepMove, StepWindow, DoApplySettings, Inv;
    hide Quiet, Overlay, Sane;
    StepInv(c, EchoCommand(e));
    SyncEffect(c, e, id);
  }

  /** The command an echo is turned into. */
  lemma SyncEffect(c: Core, e: Echo, id: nat)
    requires Inv(c) && id in c.tb.index
    ensures Sane(c)
    ensures
      var d := StepGeometry(c, EchoCommand(e));
      && id in d.tb.index && DirtyOf(d, id) == DirtyOf(c, id)
      && d.tb.index[id].geo ==
           if e.win == id then Overlay(DirtyOf(c, id), c.tb.index[id].geo, e.geo) else c.tb.index[id].geo
  {
    hide Inv, Quiet;
    InvSane(c);
    hide Sane;
  }

  lemma DeliverInStep(s: Link, id: nat)
    requires InStep(s, id) && s.echoes != []
    ensures InStep(s.(core := Step(s.core, EchoCommand(s.echoes[0])), echoes := s.echoes[1..]), id)
  {
    hide Inv, Decode, Step;
    DeliverEffect(s.core, s.echoes[0], id);
    LastEchoRest(s.echoes, id);
  }

  /** Every step of a fair run keeps the window in step. */
  lemma StepInStep(s: Link, a: Action, id: nat)
    requires InStep(s, id) && Fair(s, a, id)
    ensures Sane(s.core) && InStep(After(s, a), id)
  {
    hide InStep, Step, Decode, Inv, Configure, Flushed;
    assert Inv(s.core) by {
      InStepInv(s, id);
    }
    InvSane(s.core);
    match a
    case Command(cmd) => CommandInStep(s, cmd, id);
    case FlushWindow(win) => FlushInStep(s, win, id);
    case Serve =>
      if s.requests != [] {
        ServeInStep(s, id);
      }
    case ClientChange(win, g) => ConfigureInStep(s, win, g, id);
    case Deliver =>
      if s.echoes != [] {
        DeliverInStep(s, id);
      }
  }

  lemma InStepInv(s: Link, id: nat)
    requires InStep(s, id)
    ensures Inv(s.core)
  {
  }

  ghost predicate LinkRuns(s: Link, actions: seq<Action>, t: Link, id: nat)
    decreases |actions|
  {
    if actions == [] then t == s
    else Sane(s.core) && Fair(s, actions[0], id) && LinkRuns(After(s, actions[0]), actions[1..], t, id)
  }

  lemma {:induction false} RunInStep(s: Link, actions: seq<Action>, t: Link, id: nat)
    requires InStep(s, id) && LinkRuns(s, actions, t, id)
    ensures InStep(t, id)
    decreases |actions|
  {
    hide InStep, After;
    if actions != [] {
      StepInStep(s, actions[0], id);
      RunInStep(After(s, actions[0]), actions[1..], t, id);
    }
  }

  /** Nothing is pending for window `id` anywhere: no dirty bit, no request, no echo. */
  predicate Quiescent(s: Link, id: nat) {
    && !DirtyOf(s.core, id).x && !DirtyOf(s.core, id).y && !DirtyOf(s.core, id).w && !DirtyOf(s.core, id).h
    && (forall i :: 0 <= i < |s.requests| ==> s.requests[i].win != id)
    && (forall i :: 0 <= i < |s.echoes| ==> s.echoes[i].win != id)
  }

  /** Core and server have the same position and size for window `id`. */
  predicate Converged(s: Link, id: nat) {
    id in s.core.tb.index && id in s.server && AgreeOutside(CLEAN, s.core.tb.index[id].geo, s.server[id])
  }

  /**
   * Geometry convergence: start in agreement with nothing pending; then, for every interleaving of any
   * commands, flushes, in-order server configures, changes by the client and first-in-first-out echoes,
   * whenever nothing is pending for the window the core's position and size are the server's.
   */
  lemma GeometryConverges(s: Link, actions: seq<Action>, t: Link, id: nat)
    requires Inv(s.core) && Quiescent(s, id) && Converged(s, id)
    requires LinkRuns(s, actions, t, id) && Quiescent(t, id)
    ensures Converged(t, id)
  {
    hide Inv, Fair;
    RunInStep(s, actions, t, id);
  }

  /** An echo, stale or not, never overwrites a field whose dirty bit is set. */
  lemma EchoSparesDirty(s: Link, id: nat)
    requires Inv(s.core) && id in s.core.tb.index && s.echoes != []
    ensures
      var d, g, h := DirtyOf(s.core, id), s.core.tb.index[id].geo, After(s, Deliver).core.tb.index[id].geo;
      && id in After(s, Deliver).core.tb.index
      && (d.x ==> h.pos.x == g.pos.x) && (d.y ==> h.pos.y == g.pos.y)
      && (d.w ==> h.size.x == g.size.x) && (d.h ==> h.size.y == g.size.y) && (d.border ==> h.border == g.border)
  {
    hide Step, Inv;
    InvSane(s.core);
    DeliverEffect(s.core, s.echoes[0], id);
  }

  // --- No commanded value is lost ----------------------------------------------------------------

  /** The server's geometry of `id` once it has applied all requests. */
  function Fold(requests: seq<Request>, id: nat, g: Geometry): Geometry
    decreases |requests|
  {
    if requests == [] then g
    else
      var r := requests[|requests| - 1];
      var h := Fold(requests[..|requests| - 1], id, g);
      if r.win == id then Decode(r, h) else h
  }

  /** What the window converges to if nothing else happens: pending values, else what the server will have. */
  function Target(s: Link, id: nat): Geometry
    requires id in s.core.tb.index && id in s.server
  {
    Overlay(DirtyOf(s.core, id), s.core.tb.index[id].geo, Fold(s.requests, id, s.server[id]))
  }

  lemma {:induction false} FoldFirst(requests: seq<Request>, id: nat, g: Geometry)
    requires requests != []
    ensures Fold(requests, id, g) ==
      Fold(requests[1..], id, if requests[0].win == id then Decode(requests[0], g) else g)
    decreases |requests|
  {
    hide Decode;
    if |requests| > 1 {
      var front := requests[..|requests| - 1];
      FoldFirst(front, id, g);
      assert requests[1..][..|requests[1..]| - 1] == front[1..];
    }
  }

  /** Flushing, serving and delivering do not change where the window is heading. */
  lemma TargetKept(s: Link, a: Action, id: nat)
    requires Inv(s.core) && id in s.core.tb.index && id in s.server && Fair(s, a, id)
    requires a.FlushWindow? || a.Serve? || a.Deliver?
    ensures Sane(s.core)
    ensures
      var t := After(s, a);
      id in t.core.tb.index && id in t.server && Target(t, id) == Target(s, id)
  {
    hide Step, Inv, Encode, Decode;
    InvSane(s.core);
    match a
    case FlushWindow(win) => FlushTarget(s, win, id);
    case Serve =>
      if s.requests != [] {
        FoldFirst(s.requests, id, s.server[id]);
      }
    case Deliver =>
      if s.echoes != [] {
        DeliverEffect(s.core, s.echoes[0], id);
      }
  }

  lemma FlushTarget(s: Link, win: nat, id: nat)
    requires id in s.core.tb.index && id in s.server && Fair(s, FlushWindow(win), id)
    ensures Target(Flushed(s, win), id) == Target(s, id)
  {
    hide Encode, Decode;
    var d := DirtyOf(s.core, win);
    if d.Any() && win in s.core.tb.index {
      var r := Encode(win, d, s.core.tb.index[win].geo);
      EncodeWin(win, d, s.core.tb.index[win].geo);
      assert (s.requests + [r])[..|s.requests|] == s.requests;
      if win == id {
        RequestRoundTrip(id, d, s.core.tb.index[id].geo, Fold(s.requests, id, s.server[id]));
      }
    }
  }

  /** The messages under way, all handled in order. */
  function Settle(s: Link): Link
    requires Sane(s.core)
    decreases |s.requests|, |s.echoes|
  {
    if s.requests != [] then
      var t := After(s, Serve);
      Settle(t)
    else if s.echoes != [] then
      assert Sane(After(s, Deliver).core) by {
        EchoSane(s.core, s.echoes[0]);
      }
      Settle(After(s, Deliver))
    else s
  }

  lemma EchoSane(c: Core, e: Echo)
    requires Sane(c)
    ensures Sane(Step(c, EchoCommand(e)))
  {
    hide StepVisibility, StepFlag, StepLayout, StepFocus, StepMove, StepWindow, DoApplySettings;
  }

  lemma {:induction false} SettleReaches(s: Link, id: nat)
    requires InStep(s, id)
    ensures Sane(s.core)
    ensures
      var t := Settle(s);
      && InStep(t, id) && t.requests == [] && t.echoes == []
      && DirtyOf(t.core, id) == DirtyOf(s.core, id) && Target(t, id) == Target(s, id)
    decreases |s.requests|, |s.echoes|
  {
    hide Step, Inv, Decode, Target;
    InStepInv(s, id);
    InvSane(s.core);
    if s.requests != [] {
      StepInStep(s, Serve, id);
      TargetKept(s, Serve, id);
      SettleReaches(After(s, Serve), id);
    } else if s.echoes != [] {
      StepInStep(s, Deliver, id);
      TargetKept(s, Deliver, id);
      DeliverEffect(s.core, s.echoes[0], id);
      EchoSane(s.core, s.echoes[0]);
      SettleReaches(After(s, Deliver), id);
    }
  }

  /**
   * No commanded value is lost: from any state in step, one flush and then the messages under way bring
   * core and server to the target - the values pending in the core, and for every other field what the
   * requests already sent ask for.
   */
  lemma FlushSettles(s: Link, id: nat)
    requires InStep(s, id) && Representable(s.core.tb.index[id].geo)
    ensures Sane(Flushed(s, id).core)
    ensures
      var t := Settle(Flushed(s, id));
      && Quiescent(t, id) && Converged(t, id)
      && AgreeOutside(CLEAN, t.core.tb.index[id].geo, Target(s, id))
  {
    hide Inv, Decode, Step;
    FlushInStep(s, id, id);
    FlushTarget(s, id, id);
    SettleReaches(Flushed(s, id), id);
  }

  // --- The border is not part of the promise -----------------------------------------------------

  /** Restacking never touches a border or its dirty bit. */
  lemma EvaluateKeepsBorder(c: Core, ws: int, id: nat)
    requires Sane(c) && id in c.tb.index
    ensures
      var d := Evaluate(c, ws);
      && id in d.tb.index && d.tb.index[id].geo.border == c.tb.index[id].geo.border
      && DirtyOf(d, id).border == DirtyOf(c, id).border
  {
    hide Focused, LowerOthers;
    if 0 <= ws < |c.modes| {
      var c1 := EvaluateMode(c, ws);
      var f := Focused(c1.tb.index, c1.tb.lists[ws], c1.tb.cursors[ws]);
      if f in c1.tb.index {
        RestackKeepsBorder(c1, ws, f, id);
      }
    }
  }

  lemma RestackKeepsBorder(c: Core, ws: nat, f: nat, id: nat)
    requires ws < |c.tb.lists| && f in c.tb.index && id in c.tb.index
    ensures
      var d := Restack(c, ws, f);
      && id in d.tb.index && d.tb.index[id].geo.border == c.tb.index[id].geo.border
      && DirtyOf(d, id).border == DirtyOf(c, id).border
  {
    LowerOthersKeeps(Emit(c, RaiseWindow(f)), c.tb.lists[ws], f, |c.tb.lists[ws]|);
  }

  lemma {:induction false} LowerOthersKeeps(c: Core, list: seq<nat>, except: nat, k: nat)
    requires k <= |list|
    ensures LowerOthers(c, list, except, k).tb == c.tb && LowerOthers(c, list, except, k).dirty == c.dirty
  {
    if k > 0 {
      LowerOthersKeeps(c, list, except, k - 1);
    }
  }

  /**
   * SetWindowBorderless writes the border without a dirty bit. So from an agreed border it leaves core
   * and server apart, with nothing pending to repair it, exactly when the border was not zero and the
   * client does not own its geometry.
   */
  lemma BorderlessForgetsBorder(s: Link, id: nat)
    requires Sane(s.core) && id in s.core.tb.index && id in s.server
    requires !DirtyOf(s.core, id).border && s.core.tb.index[id].geo.border == s.server[id].border
    ensures
      var w, d := s.core.tb.index[id], DoBorderless(s.core, id, true);
      && !DirtyOf(d, id).border
      && (d.tb.index[id].geo.border != s.server[id].border <==> w.geo.border != 0 && !w.OwnsGeometry())
  {
    hide Evaluate;
    var w0 := s.core.tb.index[id];
    var w := w0.(props := w0.props.(borderless := true, promoteToBorderless := false));
    var c1 := if w.geo.border != 0 && !w.OwnsGeometry()
              then Emit(Put(s.core, id, WithBorder(w, 0)), UpdateWindow(id))
              else Put(s.core, id, w);
    EvaluateKeepsBorder(c1, HomeOf(c1.tb, id), id);
  }
}
