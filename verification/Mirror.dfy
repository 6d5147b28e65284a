/**
 * Replication of the display server's tables in the window manager: the server emits an event on each
 * table change and a full snapshot on request (libwlserver/src/runtime/display_state.cpp,
 * libwlserver/src/ipc/backend_control_server.cpp); the window manager replays what it receives
 * (backends/wayland/src/backend/display_server_backend.cpp).
 */
module Mirror {
  import opened Seqs

  // --- Strings on the wire -----------------------------------------------------------------------

  const OUTPUT_NAME_BYTES: nat := 64
  const APP_ID_BYTES: nat := 96
  const TITLE_BYTES: nat := 160

  /** What a C string function sees of `s`: everything before the first NUL. */
  function CString(s: string): (r: string)
    ensures r <= s && '\0' !in r
  {
    if s == "" || s[0] == '\0' then "" else [s[0]] + CString(s[1..])
  }

  /** A string after a trip through a fixed buffer of `n` bytes. */
  function Fit(s: string, n: nat): (r: string)
    ensures r <= s && (n > 0 ==> |r| < n)
  {
    var c := CString(s);
    if n == 0 then "" else if |c| >= n then c[..n - 1] else c
  }

  // --- The server's tables -----------------------------------------------------------------------

  datatype Surface = Surface(appId: string, title: string, pid: nat, mapped: bool, width: int, height: int)

  datatype Output = Output(name: string, x: int, y: int, w: int, h: int, refresh: int)

  datatype Tables = Tables(surfaces: map<nat, Surface>, outputs: map<nat, Output>, nextId: nat)

  datatype Message =
    | Hello
    | SnapshotBegin(generation: nat)
    | SnapshotEnd(generation: nat)
    | OutputAdded(id: nat, output: Output)
    | OutputRemoved(id: nat)
    | SurfaceCreated(id: nat, appId: string, title: string, pid: nat)
    | SurfaceMapped(id: nat)
    | SurfaceUnmapped(id: nat)
    | SurfaceDestroyed(id: nat)
    | SurfaceCommitted(id: nat, width: int, height: int)
    | SurfaceTitleChanged(id: nat, title: string)
    | SurfaceAppIdChanged(id: nat, appId: string)
    | Input // a key, button, pointer or overlay event: it changes no table

  function CreatedMsg(id: nat, s: Surface): Message {
    SurfaceCreated(id, Fit(s.appId, APP_ID_BYTES), Fit(s.title, TITLE_BYTES), s.pid)
  }

  function AddedMsg(id: nat, o: Output): Message {
    OutputAdded(id, Sent(o))
  }

  /** What happens to the tables. */
  datatype Change =
    | AddSurface(appId: string, title: string, pid: nat)
    | Map(id: nat) | Unmap(id: nat) | Destroy(id: nat)
    | Retitle(id: nat, title: string) | SetAppId(id: nat, appId: string)
    | Commit(id: nat, width: int, height: int)
    | Configure(id: nat, width: int, height: int) // by the window manager: no event
    | PlaceOutput(id: nat, output: Output) | RemoveOutput(id: nat)
    | Press

  function Put(t: Tables, id: nat, s: Surface): Tables { t.(surfaces := t.surfaces[id := s]) }

  function Changed(t: Tables, ch: Change): Tables {
    match ch
    case AddSurface(appId, title, pid) =>
      var t' := t.(nextId := t.nextId + 1);
      if t.nextId in t.surfaces then t' else Put(t', t.nextId, Surface(appId, title, pid, false, 0, 0))
    case Map(id) => if id in t.surfaces then Put(t, id, t.surfaces[id].(mapped := true)) else t
    case Unmap(id) => if id in t.surfaces then Put(t, id, t.surfaces[id].(mapped := false)) else t
    case Destroy(id) => t.(surfaces := t.surfaces - {id})
    case Retitle(id, title) => if id in t.surfaces then Put(t, id, t.surfaces[id].(title := title)) else t
    case SetAppId(id, appId) => if id in t.surfaces then Put(t, id, t.surfaces[id].(appId := appId)) else t
    case Commit(id, w, h) => if id in t.surfaces then Put(t, id, t.surfaces[id].(width := w, height := h)) else t
    case Configure(id, w, h) => if id in t.surfaces then Put(t, id, t.surfaces[id].(width := w, height := h)) else t
    case PlaceOutput(id, o) => t.(outputs := t.outputs[id := o])
    case RemoveOutput(id) => t.(outputs := t.outputs - {id})
    case Press => t
  }

  /** The event a change emits, if any. */
  function Emitted(t: Tables, ch: Change): seq<Message> {
    match ch
    case AddSurface(appId, title, pid) =>
      var s := if t.nextId in t.surfaces then t.surfaces[t.nextId] else Surface(appId, title, pid, false, 0, 0);
      [CreatedMsg(t.nextId, s)]
    case Map(id) => if id in t.surfaces then [SurfaceMapped(id)] else []
    case Unmap(id) => if id in t.surfaces then [SurfaceUnmapped(id)] else []
    case Destroy(id) => if id in t.surfaces then [SurfaceDestroyed(id)] else []
    case Retitle(id, title) => if id in t.surfaces then [SurfaceTitleChanged(id, Fit(title, TITLE_BYTES))] else []
    case SetAppId(id, appId) => if id in t.surfaces then [SurfaceAppIdChanged(id, Fit(appId, APP_ID_BYTES))] else []
    case Commit(id, w, h) => if id in t.surfaces then [SurfaceCommitted(id, w, h)] else []
    case Configure(_, _, _) => []
    case PlaceOutput(id, o) => [AddedMsg(id, o)]
    case RemoveOutput(id) => [OutputRemoved(id)]
    case Press => [Input]
  }

  /** Surface ids are handed out once. */
  predicate Fresh(t: Tables) { forall id :: id in t.surfaces ==> id < t.nextId }

  // --- Snapshots ---------------------------------------------------------------------------------

  function OutputMsgs(outputs: map<nat, Output>, ids: seq<nat>): seq<Message>
    requires forall i :: 0 <= i < |ids| ==> ids[i] in outputs
  {
    if ids == [] then []
    else OutputMsgs(outputs, ids[..|ids| - 1]) + [AddedMsg(ids[|ids| - 1], outputs[ids[|ids| - 1]])]
  }

  function SurfaceMsg(id: nat, s: Surface): seq<Message> {
    [CreatedMsg(id, s)] + (if s.mapped then [SurfaceMapped(id)] else []) +
    (if s.width > 0 || s.height > 0 then [SurfaceCommitted(id, s.width, s.height)] else [])
  }

  function SurfaceMsgs(surfaces: map<nat, Surface>, ids: seq<nat>): seq<Message>
    requires forall i :: 0 <= i < |ids| ==> ids[i] in surfaces
  {
    if ids == [] then []
    else SurfaceMsgs(surfaces, ids[..|ids| - 1]) + SurfaceMsg(ids[|ids| - 1], surfaces[ids[|ids| - 1]])
  }

  /** `list` holds the members of `ids` in increasing order. */
  ghost predicate Sorts(list: seq<nat>, ids: set<nat>) {
    && (forall i, j :: 0 <= i < j < |list| ==> list[i] < list[j])
    && (forall id :: id in list <==> id in ids)
  }

  /** What send_snapshot sends. */
  function Snapshot(t: Tables, generation: nat, outputs: seq<nat>, surfaces: seq<nat>): seq<Message>
    requires forall i :: 0 <= i < |outputs| ==> outputs[i] in t.outputs
    requires forall i :: 0 <= i < |surfaces| ==> surfaces[i] in t.surfaces
  {
    [SnapshotBegin(generation)] + OutputMsgs(t.outputs, outputs) + SurfaceMsgs(t.surfaces, surfaces) +
    [SnapshotEnd(generation)]
  }

  // --- The window manager's copy -----------------------------------------------------------------

  datatype Shadow = Shadow(
    appId: string, title: string, pid: nat, mapped: bool, managed: bool, width: int, height: int)

  datatype Copy = Copy(
    surfaces: map<nat, Shadow>, outputs: map<nat, Output>, complete: bool, started: bool, prevFocused: nat)

  /** manage_surface, as far as the table goes. */
  function Managed(s: Shadow, started: bool): Shadow {
    if started && s.mapped && s.width > 0 && s.height > 0 then s.(managed := true) else s
  }

  function PutShadow(c: Copy, id: nat, s: Shadow): Copy { c.(surfaces := c.surfaces[id := s]) }

  /** The handlers of the control messages. */
  function Handle(c: Copy, msg: Message): Copy {
    match msg
    case SnapshotBegin(_) => c.(surfaces := map[], outputs := map[], complete := false, prevFocused := 0)
    case SnapshotEnd(_) => c.(complete := true)
    case OutputAdded(id, o) => c.(outputs := c.outputs[id := o])
    case OutputRemoved(id) => c.(outputs := c.outputs - {id})
    case SurfaceCreated(id, appId, title, pid) => PutShadow(c, id, Shadow(appId, title, pid, false, false, 0, 0))
    case SurfaceDestroyed(id) =>
      if id !in c.surfaces then c
      else c.(surfaces := c.surfaces - {id}, prevFocused := if c.prevFocused == id then 0 else c.prevFocused)
    case SurfaceMapped(id) =>
      if id !in c.surfaces then c else PutShadow(c, id, Managed(c.surfaces[id].(mapped := true), c.started))
    case SurfaceUnmapped(id) =>
      if id !in c.surfaces then c else PutShadow(c, id, c.surfaces[id].(mapped := false))
    case SurfaceCommitted(id, w, h) =>
      if id !in c.surfaces then c else PutShadow(c, id, Managed(c.surfaces[id].(width := w, height := h), c.started))
    case SurfaceTitleChanged(id, title) =>
      if id !in c.surfaces then c else PutShadow(c, id, c.surfaces[id].(title := title))
    case SurfaceAppIdChanged(id, appId) =>
      if id !in c.surfaces then c else PutShadow(c, id, c.surfaces[id].(appId := appId))
    case _ => c
  }

  function Replay(c: Copy, msgs: seq<Message>): Copy
    decreases |msgs|
  {
    if msgs == [] then c else Replay(Handle(c, msgs[0]), msgs[1..])
  }

  lemma {:induction false} ReplayAppend(c: Copy, a: seq<Message>, b: seq<Message>)
    ensures Replay(c, a + b) == Replay(Replay(c, a), b)
    decreases |a|
  {
    if a == [] {
      assert a + b == b;
    } else {
      assert (a + b)[0] == a[0] && (a + b)[1..] == a[1..] + b;
      ReplayAppend(Handle(c, a[0]), a[1..], b);
    }
  }

  // --- What both sides agree on ------------------------------------------------------------------

  /** Strings as they fit on the wire, process id and mapped flag; sizes are not replicated. */
  predicate SameSurface(s: Surface, d: Shadow) {
    && d.appId == Fit(s.appId, APP_ID_BYTES) && d.title == Fit(s.title, TITLE_BYTES)
    && d.pid == s.pid && d.mapped == s.mapped
  }

  function Sent(o: Output): Output { o.(name := Fit(o.name, OUTPUT_NAME_BYTES)) }

  ghost predicate SameSurfaces(t: Tables, c: Copy) {
    c.surfaces.Keys == t.surfaces.Keys &&
    forall id :: id in t.surfaces ==> SameSurface(t.surfaces[id], c.surfaces[id])
  }

  ghost predicate SameOutputs(t: Tables, c: Copy) {
    c.outputs.Keys == t.outputs.Keys && forall id :: id in t.outputs ==> c.outputs[id] == Sent(t.outputs[id])
  }

  /** The copy holds the same surfaces and the same outputs as the server. */
  ghost predicate Agrees(t: Tables, c: Copy) { SameSurfaces(t, c) && SameOutputs(t, c) }

  function Heard(c: Copy, msgs: seq<Message>): Copy { if msgs == [] then c else Handle(c, msgs[0]) }

  /** A surface and its shadow after a change to that surface. */
  lemma SameAfterUpdate(s: Surface, d: Shadow, ch: Change, started: bool)
    requires SameSurface(s, d)
    ensures SameSurface(s.(mapped := true), Managed(d.(mapped := true), started))
    ensures SameSurface(s.(mapped := false), d.(mapped := false))
    ensures ch.Retitle? ==> SameSurface(s.(title := ch.title), d.(title := Fit(ch.title, TITLE_BYTES)))
    ensures ch.SetAppId? ==> SameSurface(s.(appId := ch.appId), d.(appId := Fit(ch.appId, APP_ID_BYTES)))
    ensures ch.Commit? || ch.Configure? ==>
      SameSurface(s.(width := ch.width, height := ch.height), d)
    ensures ch.Commit? ==>
      SameSurface(s.(width := ch.width, height := ch.height), Managed(d.(width := ch.width, height := ch.height), started))
  {
  }

  lemma UpdateReplicates(t: Tables, ch: Change, c: Copy)
    requires Agrees(t, c) && (ch.Map? || ch.Unmap? || ch.Retitle? || ch.SetAppId? || ch.Commit? || ch.Configure?)
    ensures Agrees(Changed(t, ch), Heard(c, Emitted(t, ch)))
  {
    hide Fit, Sent, SameSurface;
    if ch.id in t.surfaces {
      SameAfterUpdate(t.surfaces[ch.id], c.surfaces[ch.id], ch, c.started);
    }
  }

  lemma AddReplicates(t: Tables, ch: Change, c: Copy)
    requires Fresh(t) && Agrees(t, c) && (ch.AddSurface? || ch.PlaceOutput?)
    ensures Agrees(Changed(t, ch), Heard(c, Emitted(t, ch)))
  {
    hide Fit;
  }

  lemma RemoveReplicates(t: Tables, ch: Change, c: Copy)
    requires Agrees(t, c) && (ch.Destroy? || ch.RemoveOutput? || ch.Press?)
    ensures Agrees(Changed(t, ch), Heard(c, Emitted(t, ch)))
  {
    hide Fit, Sent;
  }

  /** One change and the event it emits keep the copy in agreement. */
  lemma ChangeReplicates(t: Tables, ch: Change, c: Copy)
    requires Fresh(t) && Agrees(t, c)
    ensures Fresh(Changed(t, ch)) && Agrees(Changed(t, ch), Replay(c, Emitted(t, ch)))
  {
    hide Fit, Handle, Agrees;
    var msgs := Emitted(t, ch);
    if msgs != [] {
      assert msgs[1..] == [];
    }
    assert Replay(c, msgs) == Heard(c, msgs);
    if ch.AddSurface? || ch.PlaceOutput? {
      AddReplicates(t, ch, c);
    } else if ch.Destroy? || ch.RemoveOutput? || ch.Press? {
      RemoveReplicates(t, ch, c);
    } else {
      UpdateReplicates(t, ch, c);
    }
  }

  // --- Snapshots replicate -----------------------------------------------------------------------

  lemma {:induction false} OutputsReplayed(c: Copy, outputs: map<nat, Output>, ids: seq<nat>)
    requires forall i :: 0 <= i < |ids| ==> ids[i] in outputs
    ensures
      var d := Replay(c, OutputMsgs(outputs, ids));
      && d == c.(outputs := d.outputs)
      && (forall id :: id in d.outputs <==> id in c.outputs || id in ids)
      && (forall id :: id in ids ==> d.outputs[id] == Sent(outputs[id]))
  {
    if ids != [] {
      var front, last := ids[..|ids| - 1], ids[|ids| - 1];
      OutputsReplayed(c, outputs, front);
      ReplayAppend(c, OutputMsgs(outputs, front), [AddedMsg(last, outputs[last])]);
      assert ids == front + [last];
    }
  }

  /** Only the entry of `id` may differ. */
  ghost predicate OnlyEntry(c: Copy, d: Copy, id: nat) {
    && d == c.(surfaces := d.surfaces) && d.surfaces.Keys == c.surfaces.Keys + {id}
    && forall x :: x in c.surfaces && x != id ==> d.surfaces[x] == c.surfaces[x]
  }

  lemma OptionalReplayed(c: Copy, on: bool, msg: Message, s: Surface)
    requires msg.SurfaceMapped? || msg.SurfaceCommitted?
    requires msg.id in c.surfaces && SameSurface(s.(mapped := c.surfaces[msg.id].mapped), c.surfaces[msg.id])
    ensures
      var d := Replay(c, if on then [msg] else []);
      && OnlyEntry(c, d, msg.id)
      && SameSurface(s.(mapped := c.surfaces[msg.id].mapped || (on && msg.SurfaceMapped?)), d.surfaces[msg.id])
  {
    hide Fit, Replay;
    ReplayOne(c, msg);
    ReplayNone(c);
  }

  lemma SurfaceReplayed(c: Copy, id: nat, s: Surface)
    ensures
      var d := Replay(c, SurfaceMsg(id, s));
      OnlyEntry(c, d, id) && SameSurface(s, d.surfaces[id])
  {
    hide Fit, Replay, Managed;
    var first := [CreatedMsg(id, s)];
    var second: seq<Message> := if s.mapped then [SurfaceMapped(id)] else [];
    var sized := s.width > 0 || s.height > 0;
    var third: seq<Message> := if sized then [SurfaceCommitted(id, s.width, s.height)] else [];
    ReplayOne(c, CreatedMsg(id, s));
    var c1 := Replay(c, first);
    assert SameSurface(s.(mapped := false), c1.surfaces[id]) && OnlyEntry(c, c1, id);
    hide Handle, SameSurface;
    ReplayAppend(c, first, second);
    OptionalReplayed(c1, s.mapped, SurfaceMapped(id), s);
    var c2 := Replay(c1, second);
    ReplayAppend(c, first + second, third);
    OptionalReplayed(c2, sized, SurfaceCommitted(id, s.width, s.height), s);
  }

  lemma ReplayOne(c: Copy, msg: Message)
    ensures Replay(c, [msg]) == Handle(c, msg)
  {
    assert [msg][1..] == [];
  }

  lemma ReplayNone(c: Copy)
    ensures Replay(c, []) == c
  {
  }

  lemma {:induction false} SurfacesReplayed(c: Copy, surfaces: map<nat, Surface>, ids: seq<nat>)
    requires forall i :: 0 <= i < |ids| ==> ids[i] in surfaces
    ensures
      var d := Replay(c, SurfaceMsgs(surfaces, ids));
      && d == c.(surfaces := d.surfaces)
      && (forall id :: id in d.surfaces <==> id in c.surfaces || id in ids)
      && (forall id :: id in ids ==> SameSurface(surfaces[id], d.surfaces[id]))
  {
    hide SurfaceMsg, SameSurface;
    if ids != [] {
      var front, last := ids[..|ids| - 1], ids[|ids| - 1];
      SurfacesReplayed(c, surfaces, front);
      ReplayAppend(c, SurfaceMsgs(surfaces, front), SurfaceMsg(last, surfaces[last]));
      SurfaceReplayed(Replay(c, SurfaceMsgs(surfaces, front)), last, surfaces[last]);
      assert ids == front + [last];
    }
  }

  /** Whatever the copy held before, a snapshot makes it agree with the server. */
  lemma SnapshotReplicates(t: Tables, generation: nat, outputs: seq<nat>, surfaces: seq<nat>, c: Copy)
    requires Sorts(outputs, t.outputs.Keys) && Sorts(surfaces, t.surfaces.Keys)
    ensures
      var d := Replay(c, Snapshot(t, generation, outputs, surfaces));
      Agrees(t, d) && d.complete
  {
    hide Handle, Replay, OutputMsgs, SurfaceMsgs, SameSurface;
    var c0 := Handle(c, SnapshotBegin(generation));
    SnapshotMarks(c, generation);
    ReplayOne(c, SnapshotBegin(generation));
    var outs, surfs := OutputMsgs(t.outputs, outputs), SurfaceMsgs(t.surfaces, surfaces);
    ReplayAppend(c, [SnapshotBegin(generation)], outs);
    OutputsReplayed(c0, t.outputs, outputs);
    var c1 := Replay(c0, outs);
    ReplayAppend(c, [SnapshotBegin(generation)] + outs, surfs);
    SurfacesReplayed(c1, t.surfaces, surfaces);
    var c2 := Replay(c1, surfs);
    ReplayAppend(c, [SnapshotBegin(generation)] + outs + surfs, [SnapshotEnd(generation)]);
    ReplayOne(c2, SnapshotEnd(generation));
    SnapshotMarks(c2, generation);
  }

  lemma SnapshotMarks(c: Copy, generation: nat)
    ensures
      var d := Handle(c, SnapshotBegin(generation));
      d.surfaces == map[] && d.outputs == map[]
    ensures Handle(c, SnapshotEnd(generation)) == c.(complete := true)
  {
  }

  // --- Runs --------------------------------------------------------------------------------------

  /**
   * The server's tables, its connection to the one control client, and that client's copy. `room` is how
   * many more messages the socket takes before a send fails, `begun` whether a snapshot was asked for on
   * this connection.
   */
  datatype World = World(
    tables: Tables, client: bool, room: nat, wire: seq<Message>, generation: nat, copy: Copy, begun: bool)

  /** send_event: without a client the message is dropped; a failing send ends the connection. */
  function Send(w: World, msg: Message): World {
    if !w.client then w
    else if w.room == 0 then w.(client := false)
    else w.(room := w.room - 1, wire := w.wire + [msg])
  }

  function SendAll(w: World, msgs: seq<Message>): (r: World)
    ensures r == w.(client := r.client, room := r.room, wire := r.wire)
    ensures r.client <==> w.client && w.room >= |msgs|
    ensures r.client ==> r.wire == w.wire + msgs && r.room == w.room - |msgs|
  {
    if msgs == [] then w
    else
      var front := SendAll(w, msgs[..|msgs| - 1]);
      assert msgs == msgs[..|msgs| - 1] + [msgs[|msgs| - 1]];
      Send(front, msgs[|msgs| - 1])
  }

  datatype Action =
    | Happens(change: Change)                         // something changes a table, or input arrives
    | Greets                                          // the client's Hello is answered
    | Asks(outputIds: seq<nat>, surfaceIds: seq<nat>) // the client's SnapshotRequest is handled
    | Connects(copy: Copy, room: nat)                 // a client connects, replacing the one before
    | Leaves                                          // the connection ends
    | Drains(room: nat)                               // the socket takes more messages
    | Receives                                        // the client handles the oldest message
    | Starts                                          // on_start in the client

  predicate Possible(w: World, a: Action) {
    match a
    case Connects(copy, _) => !copy.complete && !copy.started
    case _ => true
  }

  ghost predicate Enabled(w: World, a: Action) {
    Possible(w, a) &&
    (a.Asks? ==> w.client && Sorts(a.outputIds, w.tables.outputs.Keys) && Sorts(a.surfaceIds, w.tables.surfaces.Keys))
  }

  /** on_start: surfaces that were already mapped are managed now. */
  function Start(c: Copy): Copy {
    c.(started := true, surfaces := map id | id in c.surfaces :: Managed(c.surfaces[id], true))
  }

  ghost function Act(w: World, a: Action): World
    requires Enabled(w, a)
  {
    match a
    case Happens(ch) => SendAll(w, Emitted(w.tables, ch)).(tables := Changed(w.tables, ch))
    case Greets => Send(w, Hello)
    case Asks(outs, surfs) =>
      var w1 := w.(generation := w.generation + 1);
      SendAll(w1, Snapshot(w1.tables, w1.generation, outs, surfs)).(begun := true)
    case Connects(copy, room) => w.(client := true, room := room, wire := [], copy := copy, begun := false)
    case Leaves => w.(client := false)
    case Drains(room) => w.(room := room)
    case Receives => if w.wire == [] then w else w.(copy := Handle(w.copy, w.wire[0]), wire := w.wire[1..])
    case Starts => w.(copy := Start(w.copy))
  }

  /**
   * Once a snapshot was asked for, the copy agrees with the server as soon as it has handled what is on
   * the wire; and a copy is complete only after that.
   */
  ghost predicate InStep(w: World) {
    && Fresh(w.tables)
    && (w.client && w.begun ==> Agrees(w.tables, Replay(w.copy, w.wire)))
    && (w.copy.complete ==> w.begun)
    && (forall i :: 0 <= i < |w.wire| && w.wire[i].SnapshotEnd? ==> w.begun)
  }

  /** Once started, every mapped surface with a size is managed. */
  predicate AllManaged(c: Copy) {
    c.started ==> forall id :: id in c.surfaces ==> c.surfaces[id] == Managed(c.surfaces[id], true)
  }

  lemma EmittedNoEnd(t: Tables, ch: Change)
    ensures forall i :: 0 <= i < |Emitted(t, ch)| ==> !Emitted(t, ch)[i].SnapshotEnd?
  {
  }

  /** A started and an unstarted copy agree with the same tables. */
  lemma {:induction false} StartInStep(t: Tables, c: Copy, msgs: seq<Message>)
    requires Agrees(t, Replay(c, msgs))
    ensures Agrees(t, Replay(Start(c), msgs))
  {
    StartReplay(c, Start(c), msgs);
  }

  /** Shadows that differ in the managed flag only. */
  predicate AlikeShadow(s: Shadow, d: Shadow) { d == s.(managed := d.managed) }

  /** Copies that differ in `started` and in the managed flags only. */
  ghost predicate Alike(c: Copy, d: Copy) {
    && c.surfaces.Keys == d.surfaces.Keys && c.outputs == d.outputs
    && forall id :: id in c.surfaces ==> AlikeShadow(c.surfaces[id], d.surfaces[id])
  }

  lemma ManagedAlike(s: Shadow, started: bool, started': bool)
    ensures forall d :: AlikeShadow(s, d) ==> AlikeShadow(Managed(s, started), Managed(d, started'))
  {
  }

  lemma HandleAlike(c: Copy, d: Copy, msg: Message)
    requires Alike(c, d)
    ensures Alike(Handle(c, msg), Handle(d, msg))
  {
    hide Managed, AlikeShadow;
    if msg.SurfaceCreated? {
      SameAlike(Handle(c, msg).surfaces[msg.id]);
    } else if UpdatesSurface(msg) && msg.id in c.surfaces {
      UpdatedAlike(c.surfaces[msg.id], d.surfaces[msg.id], msg, c.started, d.started);
      PutAlike(c, d, msg.id, Handle(c, msg).surfaces[msg.id], Handle(d, msg).surfaces[msg.id]);
    }
  }

  predicate UpdatesSurface(msg: Message) {
    msg.SurfaceMapped? || msg.SurfaceUnmapped? || msg.SurfaceCommitted? || msg.SurfaceTitleChanged? || msg.SurfaceAppIdChanged?
  }

  lemma SameAlike(s: Shadow)
    ensures AlikeShadow(s, s)
  {
  }

  lemma PutAlike(c: Copy, d: Copy, id: nat, s: Shadow, s': Shadow)
    requires Alike(c, d) && AlikeShadow(s, s')
    ensures Alike(PutShadow(c, id, s), PutShadow(d, id, s'))
  {
    hide AlikeShadow;
  }

  /** What a message does to a surface, it does alike to two surfaces that are alike. */
  lemma UpdatedAlike(s: Shadow, d: Shadow, msg: Message, started: bool, started': bool)
    requires AlikeShadow(s, d)
    ensures msg.SurfaceMapped? ==> AlikeShadow(Managed(s.(mapped := true), started), Managed(d.(mapped := true), started'))
    ensures msg.SurfaceUnmapped? ==> AlikeShadow(s.(mapped := false), d.(mapped := false))
    ensures msg.SurfaceCommitted? ==>
      AlikeShadow(Managed(s.(width := msg.width, height := msg.height), started),
                  Managed(d.(width := msg.width, height := msg.height), started'))
    ensures msg.SurfaceTitleChanged? ==> AlikeShadow(s.(title := msg.title), d.(title := msg.title))
    ensures msg.SurfaceAppIdChanged? ==> AlikeShadow(s.(appId := msg.appId), d.(appId := msg.appId))
  {
    hide Managed;
    if msg.SurfaceMapped? {
      ManagedAlike(s.(mapped := true), started, started');
    } else if msg.SurfaceCommitted? {
      ManagedAlike(s.(width := msg.width, height := msg.height), started, started');
    }
  }

  lemma {:induction false} StartReplay(c: Copy, d: Copy, msgs: seq<Message>)
    requires Alike(c, d)
    ensures Alike(Replay(c, msgs), Replay(d, msgs))
    decreases |msgs|
  {
    hide Alike, Handle;
    if msgs != [] {
      HandleAlike(c, d, msgs[0]);
      StartReplay(Handle(c, msgs[0]), Handle(d, msgs[0]), msgs[1..]);
    }
  }

  lemma ActInStep(w: World, a: Action)
    requires Enabled(w, a) && InStep(w)
    ensures InStep(Act(w, a))
  {
    hide Agrees, Changed, Emitted, Handle, Snapshot, Start;
    match a
    case Happens(ch) =>
      var msgs := Emitted(w.tables, ch);
      EmittedNoEnd(w.tables, ch);
      FreshKept(w.tables, ch);
      var r := Act(w, a);
      WirePrefix(w, msgs);
      if r.client && r.begun {
        ReplayAppend(w.copy, w.wire, msgs);
        ChangeReplicates(w.tables, ch, Replay(w.copy, w.wire));
      }
    case Greets =>
      if w.client && w.room > 0 && w.begun {
        ReplayAppend(w.copy, w.wire, [Hello]);
        ReplayOne(Replay(w.copy, w.wire), Hello);
        HelloIgnored(Replay(w.copy, w.wire));
      }
    case Asks(outs, surfs) =>
      var w1 := w.(generation := w.generation + 1);
      var msgs := Snapshot(w1.tables, w1.generation, outs, surfs);
      ReplayAppend(w.copy, w.wire, msgs);
      SnapshotReplicates(w.tables, w1.generation, outs, surfs, Replay(w.copy, w.wire));
    case Connects(_, _) =>
    case Leaves =>
    case Drains(_) =>
    case Receives =>
      if w.wire != [] {
        CompleteOnlyByEnd(w.copy, w.wire[0]);
      }
    case Starts =>
      StartKeepsComplete(w.copy);
      if w.client && w.begun {
        StartInStep(w.tables, w.copy, w.wire);
      }
  }

  lemma FreshKept(t: Tables, ch: Change)
    requires Fresh(t)
    ensures Fresh(Changed(t, ch))
  {
  }

  lemma HelloIgnored(c: Copy)
    ensures Handle(c, Hello) == c
  {
  }

  lemma CompleteOnlyByEnd(c: Copy, msg: Message)
    ensures Handle(c, msg).complete ==> c.complete || msg.SnapshotEnd?
  {
  }

  lemma StartKeepsComplete(c: Copy)
    ensures Start(c).complete == c.complete
  {
  }

  lemma {:induction false} WirePrefix(w: World, msgs: seq<Message>)
    ensures forall i :: 0 <= i < |SendAll(w, msgs).wire| ==>
      SendAll(w, msgs).wire[i] in w.wire || SendAll(w, msgs).wire[i] in msgs
  {
    if msgs != [] {
      WirePrefix(w, msgs[..|msgs| - 1]);
    }
  }

  ghost predicate Runs(w: World, actions: seq<Action>, v: World)
    decreases |actions|
  {
    if actions == [] then v == w else Enabled(w, actions[0]) && Runs(Act(w, actions[0]), actions[1..], v)
  }

  lemma {:induction false} RunInStep(w: World, actions: seq<Action>, v: World)
    requires InStep(w) && Runs(w, actions, v)
    ensures InStep(v)
    decreases |actions|
  {
    hide InStep, Act;
    if actions != [] {
      ActInStep(w, actions[0]);
      RunInStep(Act(w, actions[0]), actions[1..], v);
    }
  }

  /** The server before its first client. */
  predicate Initial(w: World) {
    !w.client && w.tables.surfaces == map[] && w.wire == [] && !w.copy.complete && !w.begun
  }

  /**
   * After every run, with clients coming and going: once the connected client has seen the end of a
   * snapshot and its channel is drained, its tables are the server's.
   */
  lemma CopyIsTruthful(w: World, actions: seq<Action>, v: World)
    requires Initial(w) && Runs(w, actions, v)
    ensures v.client && v.copy.complete && v.wire == [] ==> Agrees(v.tables, v.copy)
  {
    hide Runs, Agrees;
    RunInStep(w, actions, v);
  }

  // --- Surfaces are managed ----------------------------------------------------------------------

  lemma HandleManages(c: Copy, msg: Message)
    requires AllManaged(c)
    ensures AllManaged(Handle(c, msg))
  {
  }

  /** From the moment the client has started, every mapped surface with a size is under management. */
  lemma {:induction false} ReplayManages(c: Copy, msgs: seq<Message>)
    ensures AllManaged(Replay(Start(c), msgs))
    ensures AllManaged(c) ==> AllManaged(Replay(c, msgs))
    decreases |msgs|
  {
    hide AllManaged, Handle, Start;
    StartManages(c);
    if msgs != [] {
      ReplayManagesOn(Start(c), msgs);
      if AllManaged(c) {
        ReplayManagesOn(c, msgs);
      }
    }
  }

  lemma StartManages(c: Copy)
    ensures AllManaged(Start(c))
  {
  }

  lemma {:induction false} ReplayManagesOn(c: Copy, msgs: seq<Message>)
    requires AllManaged(c)
    ensures AllManaged(Replay(c, msgs))
    decreases |msgs|
  {
    hide AllManaged, Handle;
    if msgs != [] {
      HandleManages(c, msgs[0]);
      ReplayManagesOn(Handle(c, msgs[0]), msgs[1..]);
    }
  }
}
