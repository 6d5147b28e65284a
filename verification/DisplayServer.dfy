/**
 * The two ends of the control connection, changing their tables in place: the display server
 * (libwlserver/src/runtime/display_state.cpp, libwlserver/src/ipc/backend_control_server.cpp) and the
 * window manager's backend (backends/wayland/src/backend/display_server_backend.cpp).
 */
module DisplayServer {
  import opened Mirror

  const NO_COPY := Copy(map[], map[], false, false, 0)

  // --- Sending in pieces -------------------------------------------------------------------------

  lemma {:induction false} SendAllAppend(w: World, a: seq<Message>, b: seq<Message>)
    ensures SendAll(w, a + b) == SendAll(SendAll(w, a), b)
    decreases |b|
  {
    if b == [] {
      assert a + b == a;
    } else {
      var front, last := b[..|b| - 1], b[|b| - 1];
      assert (a + b)[..|a + b| - 1] == a + front && (a + b)[|a + b| - 1] == last;
      SendAllAppend(w, a, front);
    }
  }

  lemma SendAllOne(w: World, msg: Message)
    ensures SendAll(w, [msg]) == Send(w, msg)
  {
    assert [msg][..0] == [];
  }

  lemma {:induction false} SendAllDead(w: World, msgs: seq<Message>)
    requires !w.client
    ensures SendAll(w, msgs) == w
  {
    if msgs != [] {
      SendAllDead(w, msgs[..|msgs| - 1]);
    }
  }

  lemma {:induction false} SendAllTables(w: World, t: Tables, msgs: seq<Message>)
    ensures SendAll(w.(tables := t), msgs) == SendAll(w, msgs).(tables := t)
  {
    if msgs != [] {
      SendAllTables(w, t, msgs[..|msgs| - 1]);
    }
  }

  predicate IsLeast(m: nat, ids: set<nat>) { m in ids && forall x :: x in ids ==> m <= x }

  lemma LeastExists(ids: set<nat>)
    requires ids != {}
    ensures exists m :: IsLeast(m, ids)
  {
    var x :| x in ids;
    var rest := ids - {x};
    if rest == {} {
      assert ids == {x};
      assert IsLeast(x, ids);
    } else {
      LeastExists(rest);
      var m :| IsLeast(m, rest);
      assert forall y :: y in ids <==> y == x || y in rest;
      assert IsLeast(if m < x then m else x, ids);
    }
  }

  /** The ids of a table in the order in which the snapshot lists them. */
  method SortedIds(ids: set<nat>) returns (list: seq<nat>)
    ensures Sorts(list, ids)
  {
    list := [];
    var rest := ids;
    while rest != {}
      invariant rest <= ids && Sorts(list, ids - rest)
      invariant forall i, x :: 0 <= i < |list| && x in rest ==> list[i] < x
      decreases |rest|
    {
      LeastExists(rest);
      var id: nat :| IsLeast(id, rest);
      list, rest := list + [id], rest - {id};
    }
  }

  // --- The server's end --------------------------------------------------------------------------

  class DisplayServer {
    var surfaces: map<nat, Surface>
    var outputs: map<nat, Output>
    var nextSurfaceId: nat
    var client: bool
    var room: nat
    var wire: seq<Message>
    var generation: nat

    /** This end of the world; nothing is said here about the other one. */
    ghost function Side(): World
      reads this
    {
      World(Tables(surfaces, outputs, nextSurfaceId), client, room, wire, generation, NO_COPY, false)
    }

    constructor ()
      ensures Initial(Side()) && InStep(Side())
    {
      surfaces, outputs, nextSurfaceId, client, room, wire, generation := map[], map[], 1, false, 0, [], 0;
    }

    method DisconnectClient()
      modifies this
      ensures Side() == Act(old(Side()), Leaves)
    {
      client := false;
    }

    /** accept_pending: a new client replaces the one before. */
    method Accept(newRoom: nat)
      modifies this
      ensures Side() == Act(old(Side()), Connects(NO_COPY, newRoom))
    {
      if client {
        DisconnectClient();
      }
      client, room, wire := true, newRoom, [];
    }

    method SendEvent(msg: Message) returns (ok: bool)
      modifies this
      ensures Side() == Send(old(Side()), msg)
      ensures ok <==> (old(client) ==> client)
    {
      if !client {
        return true;
      }
      if room > 0 {
        room, wire := room - 1, wire + [msg];
        return true;
      }
      DisconnectClient();
      return false;
    }

    method CreateSurface(appId: string, title: string, pid: nat) returns (id: nat)
      modifies this
      ensures Side() == Act(old(Side()), Happens(AddSurface(appId, title, pid))) && id == old(nextSurfaceId)
    {
      id := nextSurfaceId;
      nextSurfaceId := nextSurfaceId + 1;
      if id !in surfaces {
        surfaces := surfaces[id := Surface(appId, title, pid, false, 0, 0)];
      }
      SendAllOne(old(Side()), CreatedMsg(id, surfaces[id]));
      var _ := SendEvent(CreatedMsg(id, surfaces[id]));
    }

    method MapSurface(id: nat)
      modifies this
      ensures Side() == Act(old(Side()), Happens(Map(id)))
    {
      if id !in surfaces {
        return;
      }
      surfaces := surfaces[id := surfaces[id].(mapped := true)];
      SendAllOne(old(Side()), SurfaceMapped(id));
      var _ := SendEvent(SurfaceMapped(id));
    }

    method UnmapSurface(id: nat)
      modifies this
      ensures Side() == Act(old(Side()), Happens(Unmap(id)))
    {
      if id !in surfaces {
        return;
      }
      surfaces := surfaces[id := surfaces[id].(mapped := false)];
      SendAllOne(old(Side()), SurfaceUnmapped(id));
      var _ := SendEvent(SurfaceUnmapped(id));
    }

    method DestroySurface(id: nat)
      modifies this
      ensures Side() == Act(old(Side()), Happens(Destroy(id)))
    {
      if id !in surfaces {
        return;
      }
      SendAllOne(old(Side()), SurfaceDestroyed(id));
      var _ := SendEvent(SurfaceDestroyed(id));
      surfaces := surfaces - {id};
    }

    method ChangeTitle(id: nat, title: string)
      modifies this
      ensures Side() == Act(old(Side()), Happens(Retitle(id, title)))
    {
      if id !in surfaces {
        return;
      }
      surfaces := surfaces[id := surfaces[id].(title := title)];
      SendAllOne(old(Side()), SurfaceTitleChanged(id, Fit(title, TITLE_BYTES)));
      var _ := SendEvent(SurfaceTitleChanged(id, Fit(title, TITLE_BYTES)));
    }

    method ChangeAppId(id: nat, appId: string)
      modifies this
      ensures Side() == Act(old(Side()), Happens(SetAppId(id, appId)))
    {
      if id !in surfaces {
        return;
      }
      surfaces := surfaces[id := surfaces[id].(appId := appId)];
      SendAllOne(old(Side()), SurfaceAppIdChanged(id, Fit(appId, APP_ID_BYTES)));
      var _ := SendEvent(SurfaceAppIdChanged(id, Fit(appId, APP_ID_BYTES)));
    }

    method CommitSurface(id: nat, width: int, height: int)
      modifies this
      ensures Side() == Act(old(Side()), Happens(Commit(id, width, height)))
    {
      if id !in surfaces {
        return;
      }
      surfaces := surfaces[id := surfaces[id].(width := width, height := height)];
      SendAllOne(old(Side()), SurfaceCommitted(id, width, height));
      var _ := SendEvent(SurfaceCommitted(id, width, height));
    }

    /** The window manager's request; the command that goes on to the Wayland side is not part of this model. */
    method ConfigureSurface(id: nat, width: int, height: int)
      modifies this
      ensures Side() == Act(old(Side()), Happens(Configure(id, width, height)))
    {
      if id !in surfaces {
        return;
      }
      surfaces := surfaces[id := surfaces[id].(width := width, height := height)];
    }

    method AddOutput(id: nat, o: Output)
      modifies this
      ensures Side() == Act(old(Side()), Happens(PlaceOutput(id, o)))
    {
      outputs := outputs[id := o];
      SendAllOne(old(Side()), AddedMsg(id, o));
      var _ := SendEvent(AddedMsg(id, o));
    }

    method DropOutput(id: nat)
      modifies this
      ensures Side() == Act(old(Side()), Happens(RemoveOutput(id)))
    {
      outputs := outputs - {id};
      SendAllOne(old(Side()), OutputRemoved(id));
      var _ := SendEvent(OutputRemoved(id));
    }

    /** The first loop of send_snapshot. */
    method SendOutputs(ids: seq<nat>) returns (ok: bool)
      requires forall i :: 0 <= i < |ids| ==> ids[i] in outputs
      modifies this
      ensures Side() == SendAll(old(Side()), OutputMsgs(old(outputs), ids))
      ensures ok <==> (old(client) ==> client)
    {
      ghost var w := Side();
      for i := 0 to |ids|
        invariant Side() == SendAll(w, OutputMsgs(w.tables.outputs, ids[..i]))
        invariant w.client ==> client
      {
        assert ids[..i + 1][..i] == ids[..i];
        ok := SendEvent(AddedMsg(ids[i], outputs[ids[i]]));
        if !ok {
          Abandon(w, OutputMsgs(w.tables.outputs, ids[..i + 1]), OutputMsgs(w.tables.outputs, ids));
          OutputMsgsPrefix(w.tables.outputs, ids, i + 1);
          return false;
        }
      }
      assert ids[..|ids|] == ids;
      ok := true;
    }

    /** The second loop of send_snapshot; a surface takes up to three messages. */
    method SendSurfaces(ids: seq<nat>) returns (ok: bool)
      requires client && forall i :: 0 <= i < |ids| ==> ids[i] in surfaces
      modifies this
      ensures Side() == SendAll(old(Side()), SurfaceMsgs(old(surfaces), ids))
      ensures ok <==> client
    {
      ghost var w := Side();
      for i := 0 to |ids|
        invariant Side() == SendAll(w, SurfaceMsgs(w.tables.surfaces, ids[..i]))
        invariant client
      {
        assert ids[..i + 1][..i] == ids[..i];
        SendAllAppend(w, SurfaceMsgs(w.tables.surfaces, ids[..i]), SurfaceMsg(ids[i], surfaces[ids[i]]));
        SendSurface(ids[i]);
        if !client {
          Abandon(w, SurfaceMsgs(w.tables.surfaces, ids[..i + 1]), SurfaceMsgs(w.tables.surfaces, ids));
          SurfaceMsgsPrefix(w.tables.surfaces, ids, i + 1);
          return false;
        }
      }
      assert ids[..|ids|] == ids;
      ok := true;
    }

    method SendSurface(id: nat)
      requires client && id in surfaces
      modifies this
      ensures Side() == SendAll(old(Side()), SurfaceMsg(id, old(surfaces)[id]))
    {
      ghost var w := Side();
      var s := surfaces[id];
      ghost var first := [CreatedMsg(id, s)];
      ghost var second: seq<Message> := if s.mapped then [SurfaceMapped(id)] else [];
      ghost var third: seq<Message> := if s.width > 0 || s.height > 0 then [SurfaceCommitted(id, s.width, s.height)] else [];
      SendAllOne(w, CreatedMsg(id, s));
      SendAllAppend(w, first, second);
      SendAllAppend(w, first + second, third);
      var _ := SendEvent(CreatedMsg(id, s));
      if !client {
        SendAllDead(Side(), second);
        SendAllDead(Side(), third);
        return;
      }
      if s.mapped {
        SendAllOne(Side(), SurfaceMapped(id));
        var _ := SendEvent(SurfaceMapped(id));
      }
      if !client {
        SendAllDead(Side(), third);
        return;
      }
      if s.width > 0 || s.height > 0 {
        SendAllOne(Side(), SurfaceCommitted(id, s.width, s.height));
        var _ := SendEvent(SurfaceCommitted(id, s.width, s.height));
      }
    }

    /** send_snapshot, on request of the connected client. */
    method SendSnapshot() returns (ok: bool, ghost outputIds: seq<nat>, ghost surfaceIds: seq<nat>)
      requires client
      modifies this
      ensures Enabled(old(Side()), Asks(outputIds, surfaceIds))
      ensures Side() == Act(old(Side()), Asks(outputIds, surfaceIds)).(begun := false)
      ensures ok <==> client
    {
      hide SurfaceMsgs, OutputMsgs;
      ghost var t := Side().tables;
      generation := generation + 1;
      ghost var w, g := Side(), generation;
      var outs := SortedIds(outputs.Keys);
      var surfs := SortedIds(surfaces.Keys);
      outputIds, surfaceIds := outs, surfs;
      ghost var a, b, c, d := [SnapshotBegin(g)], OutputMsgs(t.outputs, outs), SurfaceMsgs(t.surfaces, surfs), [SnapshotEnd(g)];
      SendAllOne(w, SnapshotBegin(g));
      SendAllAppend(w, a, b);
      SendAllAppend(w, a + b, c);
      SendAllAppend(w, a + b + c, d);
      ok := SendEvent(SnapshotBegin(generation));
      if !ok {
        SendAllDead(Side(), b);
        SendAllDead(Side(), c);
        SendAllDead(Side(), d);
        return;
      }
      ok := SendOutputs(outs);
      if !ok {
        SendAllDead(Side(), c);
        SendAllDead(Side(), d);
        return;
      }
      ok := SendSurfaces(surfs);
      if !ok {
        SendAllDead(Side(), d);
        return;
      }
      SendAllOne(Side(), SnapshotEnd(g));
      ok := SendEvent(SnapshotEnd(generation));
    }
  }

  /** Once the client is gone, the rest of a snapshot makes no difference. */
  lemma Abandon(w: World, sent: seq<Message>, all: seq<Message>)
    ensures sent <= all && !SendAll(w, sent).client ==> SendAll(w, all) == SendAll(w, sent)
  {
    if sent <= all && !SendAll(w, sent).client {
      assert all == sent + all[|sent|..];
      SendAllAppend(w, sent, all[|sent|..]);
      SendAllDead(SendAll(w, sent), all[|sent|..]);
    }
  }

  lemma {:induction false} OutputMsgsPrefix(outputs: map<nat, Output>, ids: seq<nat>, k: nat)
    requires k <= |ids| && forall i :: 0 <= i < |ids| ==> ids[i] in outputs
    ensures OutputMsgs(outputs, ids[..k]) <= OutputMsgs(outputs, ids)
    decreases |ids|
  {
    if k < |ids| {
      OutputMsgsPrefix(outputs, ids[..|ids| - 1], k);
      assert ids[..|ids| - 1][..k] == ids[..k];
    } else {
      assert ids[..k] == ids;
    }
  }

  lemma {:induction false} SurfaceMsgsPrefix(surfaces: map<nat, Surface>, ids: seq<nat>, k: nat)
    requires k <= |ids| && forall i :: 0 <= i < |ids| ==> ids[i] in surfaces
    ensures SurfaceMsgs(surfaces, ids[..k]) <= SurfaceMsgs(surfaces, ids)
    decreases |ids|
  {
    if k < |ids| {
      SurfaceMsgsPrefix(surfaces, ids[..|ids| - 1], k);
      assert ids[..|ids| - 1][..k] == ids[..k];
    } else {
      assert ids[..k] == ids;
    }
  }

  // --- The window manager's end ------------------------------------------------------------------

  class DisplayServerBackend {
    var surfaces: map<nat, Shadow>
    var outputs: map<nat, Output>
    var complete: bool
    var started: bool
    var prevFocused: nat

    ghost function State(): Copy
      reads this
    {
      Copy(surfaces, outputs, complete, started, prevFocused)
    }

    constructor ()
      ensures State() == NO_COPY
    {
      surfaces, outputs, complete, started, prevFocused := map[], map[], false, false, 0;
    }

    /** manage_surface; the commands it gives to the core belong to the reducer. */
    method ManageSurface(id: nat)
      requires id in surfaces
      modifies this`surfaces
      ensures surfaces == old(surfaces)[id := old(surfaces)[id].(managed := true)]
    {
      if surfaces[id].managed {
        assert surfaces[id] == surfaces[id].(managed := true);
        assert surfaces == surfaces[id := surfaces[id]];
        return;
      }
      surfaces := surfaces[id := surfaces[id].(managed := true)];
    }

    method OnSurfaceMapped(id: nat)
      modifies this
      ensures State() == Handle(old(State()), SurfaceMapped(id))
    {
      if id !in surfaces {
        return;
      }
      surfaces := surfaces[id := surfaces[id].(mapped := true)];
      if started && !surfaces[id].managed && surfaces[id].width > 0 && surfaces[id].height > 0 {
        ManageSurface(id);
      }
    }

    method OnSurfaceCommitted(id: nat, width: int, height: int)
      modifies this
      ensures State() == Handle(old(State()), SurfaceCommitted(id, width, height))
    {
      if id !in surfaces {
        return;
      }
      surfaces := surfaces[id := surfaces[id].(width := width, height := height)];
      if started && surfaces[id].mapped && !surfaces[id].managed && width > 0 && height > 0 {
        ManageSurface(id);
      }
    }

    method OnSurfaceDestroyed(id: nat)
      modifies this
      ensures State() == Handle(old(State()), SurfaceDestroyed(id))
    {
      if id !in surfaces {
        return;
      }
      if !started || !surfaces[id].managed {
        if prevFocused == id {
          prevFocused := 0;
        }
        surfaces := surfaces - {id};
        return;
      }
      if prevFocused == id {
        prevFocused := 0;
      }
      surfaces := surfaces - {id};
    }

    /** dispatch_control_message. */
    method Receive(msg: Message)
      modifies this
      ensures State() == Handle(old(State()), msg)
    {
      match msg
      case SnapshotBegin(_) =>
        complete := false;
        surfaces, outputs, prevFocused := map[], map[], 0;
      case SnapshotEnd(_) => complete := true;
      case OutputAdded(id, o) => outputs := outputs[id := o];
      case OutputRemoved(id) => outputs := outputs - {id};
      case SurfaceCreated(id, appId, title, pid) =>
        surfaces := surfaces[id := Shadow(appId, title, pid, false, false, 0, 0)];
      case SurfaceMapped(id) => OnSurfaceMapped(id);
      case SurfaceUnmapped(id) =>
        if id in surfaces {
          surfaces := surfaces[id := surfaces[id].(mapped := false)];
        }
      case SurfaceDestroyed(id) => OnSurfaceDestroyed(id);
      case SurfaceCommitted(id, w, h) => OnSurfaceCommitted(id, w, h);
      case SurfaceTitleChanged(id, title) =>
        if id in surfaces {
          surfaces := surfaces[id := surfaces[id].(title := title)];
        }
      case SurfaceAppIdChanged(id, appId) =>
        if id in surfaces {
          surfaces := surfaces[id := surfaces[id].(appId := appId)];
        }
      case _ =>
    }

    /** on_start: the surfaces that were mapped before are managed, in whatever order the table has. */
    method OnStart()
      modifies this
      ensures State() == Start(old(State()))
    {
      started := true;
      var todo := surfaces.Keys;
      while todo != {}
        invariant State() == old(State()).(started := true, surfaces := surfaces)
        invariant surfaces.Keys == old(surfaces).Keys && todo <= surfaces.Keys
        invariant forall id :: id in surfaces ==>
          surfaces[id] == if id in todo then old(surfaces)[id] else Managed(old(surfaces)[id], true)
        decreases |todo|
      {
        var id :| id in todo;
        var s := surfaces[id];
        if s.mapped && !s.managed && s.width > 0 && s.height > 0 {
          ManageSurface(id);
        }
        todo := todo - {id};
      }
    }

    /**
     * bootstrap_snapshot: messages are handled until the snapshot has ended; `wire` is everything that will
     * arrive, and running out of it is the timeout, after which construction fails.
     */
    method Bootstrap(wire: seq<Message>) returns (ok: bool, rest: seq<Message>)
      modifies this
      ensures ok ==> complete && |rest| < |wire| && rest == wire[|wire| - |rest|..]
      ensures ok ==> State() == Replay(old(State()).(complete := false), wire[..|wire| - |rest|])
    {
      complete := false;
      ghost var c := State();
      var i := 0;
      while !complete
        invariant 0 <= i <= |wire| && (complete ==> i > 0)
        invariant State() == Replay(c, wire[..i])
        decreases |wire| - i, !complete
      {
        if i == |wire| {
          return false, [];
        }
        assert wire[..i + 1] == wire[..i] + [wire[i]];
        ReplayAppend(c, wire[..i], [wire[i]]);
        ReplayOne(Replay(c, wire[..i]), wire[i]);
        Receive(wire[i]);
        i := i + 1;
      }
      ok, rest := true, wire[i..];
    }
  }
}
