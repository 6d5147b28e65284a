/** Every operation on the window table keeps each window listed exactly once and both indexes exact. */
module WindowProofs {
  import opened Seqs
  import opened Monitors
  import opened Windows

  lemma EraseFacts(list: seq<nat>, i: nat)
    requires i < |list| && Distinct(list)
    ensures Distinct(Erase(list, i)) && |Erase(list, i)| == |list| - 1
    ensures forall id :: id in Erase(list, i) <==> id in list && id != list[i]
  {
    var r := Erase(list, i);
    assert forall k :: 0 <= k < |r| ==> r[k] == if k < i then list[k] else list[k + 1];
    forall id | id in list && id != list[i]
      ensures id in r
    {
      var k :| 0 <= k < |list| && list[k] == id;
      assert r[if k < i then k else k - 1] == id;
    }
  }

  /** Taking a window off its list keeps the other lists, and leaves no trace of it in its own. */
  lemma UnlistFacts(tb: Table, id: nat)
    requires TableOk(tb) && id in tb.home
    ensures
      var ws := tb.home[id];
      var r := Unlist(tb, ws, id);
      && |r.lists| == |r.cursors| == |tb.lists| && r.index == tb.index && r.home == tb.home
      && (forall k :: 0 <= k < |tb.lists| && k != ws ==> r.lists[k] == tb.lists[k] && r.cursors[k] == tb.cursors[k])
      && ListOk(r, ws)
      && (forall x :: x in r.lists[ws] <==> x in tb.lists[ws] && x != id)
  {
    var ws := tb.home[id];
    assert ListOk(tb, ws);
    EraseFacts(tb.lists[ws], IndexOf(tb.lists[ws], id));
  }

  /** remove_window_from_all removes the window from every structure and nothing else. */
  lemma DropKeeps(tb: Table, id: nat)
    requires TableOk(tb)
    ensures TableOk(Drop(tb, id))
    ensures Drop(tb, id).index == tb.index - {id}
    ensures |Drop(tb, id).lists| == |tb.lists|
  {
    if id in tb.home {
      UnlistFacts(tb, id);
      var r := Drop(tb, id);
      forall k | 0 <= k < |r.lists|
        ensures ListOk(r, k)
      {
        assert ListOk(tb, k);
      }
    } else {
      UnlistAllNothing(tb, id, |tb.lists|);
      assert tb.index - {id} == tb.index && tb.home - {id} == tb.home;
    }
  }

  lemma {:induction false} UnlistAllNothing(tb: Table, id: nat, k: nat)
    requires TableOk(tb) && id !in tb.home && k <= |tb.lists|
    ensures UnlistAll(tb, id, k) == tb
  {
    if k > 0 {
      UnlistAllNothing(tb, id, k - 1);
      assert ListOk(tb, k - 1);
    }
  }

  /** A window that was taken off its list may join any other one. */
  lemma RelistKeeps(tb: Table, id: nat, ws: int, w: Window)
    requires TableOk(tb) && id in tb.index && IsWs(tb, ws) && tb.home[id] != ws
    ensures TableOk(Enlist(Unlist(tb, tb.home[id], id), ws, id, w))
  {
    UnlistFacts(tb, id);
    var u := Unlist(tb, tb.home[id], id);
    var r := Enlist(u, ws, id, w);
    assert ListOk(tb, ws);
    assert r.lists[ws] == tb.lists[ws] + [id];
    forall k | 0 <= k < |r.lists|
      ensures ListOk(r, k)
    {
      assert ListOk(tb, k);
    }
    forall x | x in r.home
      ensures 0 <= r.home[x] < |r.lists| && x in r.lists[r.home[x]]
    {
      assert x == id || x in tb.home;
    }
  }

  /** A window that is not listed anywhere may join any list. */
  lemma EnlistKeeps(tb: Table, id: nat, ws: int, w: Window)
    requires TableOk(tb) && id !in tb.index && id != NO_WINDOW && IsWs(tb, ws)
    ensures TableOk(Enlist(tb, ws, id, w))
  {
    var r := Enlist(tb, ws, id, w);
    forall k | 0 <= k < |r.lists|
      ensures ListOk(r, k)
    {
      assert ListOk(tb, k);
    }
  }

  /** Creating lists the window once, on its target, whether or not the id was known before. */
  lemma CreateKeeps(tb: Table, id: nat, ws: int, inUse: int)
    requires TableOk(tb) && id != NO_WINDOW
    ensures
      var r := Create(tb, id, ws, inUse);
      var target := TargetWs(tb, ws, inUse);
      && TableOk(r) && |r.lists| == |tb.lists|
      && (tb.lists != [] ==>
            && id in r.home && r.home[id] == target
            && r.index == if id in tb.home && tb.home[id] == target then tb.index else tb.index[id := FRESH])
      && (forall x :: x in tb.home && x != id ==> x in r.home && r.home[x] == tb.home[x])
  {
    var target := TargetWs(tb, ws, inUse);
    if tb.lists != [] && id !in tb.home {
      EnlistKeeps(tb, id, target, FRESH);
    } else if tb.lists != [] && tb.home[id] != target {
      RelistKeeps(tb, id, target, FRESH);
    }
  }

  /** Moving changes where the window is listed and nothing about the windows themselves. */
  lemma MoveKeeps(tb: Table, id: nat, ws: int)
    requires TableOk(tb) && id in tb.index
    ensures TableOk(Move(tb, id, ws)) && |Move(tb, id, ws).lists| == |tb.lists|
    ensures Move(tb, id, ws).index == tb.index
    ensures forall x :: x in tb.home ==>
      (x in Move(tb, id, ws).home && Move(tb, id, ws).home[x] == if x == id && IsWs(tb, ws) then ws else tb.home[x])
  {
    if IsWs(tb, ws) && tb.home[id] != ws {
      RelistKeeps(tb, id, ws, tb.index[id]);
      assert tb.index[id := tb.index[id]] == tb.index;
    }
  }

  lemma PointAtKeeps(tb: Table, id: nat)
    requires TableOk(tb) && id in tb.index
    ensures IsWs(tb, tb.home[id]) && TableOk(PointAt(tb, id))
    ensures
      var r := PointAt(tb, id);
      && r.lists == tb.lists && r.home == tb.home && r.index == tb.index[id := Calm(tb.index[id])]
      && r.lists[tb.home[id]][r.cursors[tb.home[id]]] == id
  {
    var r := PointAt(tb, id);
    forall k | 0 <= k < |r.lists|
      ensures ListOk(r, k)
    {
      assert ListOk(tb, k);
    }
  }

  /** Emptying one workspace into another loses no window. */
  lemma EvacuateKeeps(tb: Table, src: int, dst: int)
    requires TableOk(tb) && IsWs(tb, src) && IsWs(tb, dst) && src != dst
    ensures TableOk(Evacuate(tb, src, dst))
    ensures Evacuate(tb, src, dst).lists[src] == [] && Evacuate(tb, src, dst).index == tb.index
    ensures forall k :: 0 <= k < |tb.lists| && k != src && k != dst ==> Evacuate(tb, src, dst).lists[k] == tb.lists[k]
    ensures forall id :: id in tb.home ==>
      (id in Evacuate(tb, src, dst).home &&
       Evacuate(tb, src, dst).home[id] == if tb.home[id] == src then dst else tb.home[id])
  {
    var r := Evacuate(tb, src, dst);
    assert ListOk(tb, src) && ListOk(tb, dst);
    assert r.home.Keys == tb.home.Keys by {
      assert forall id :: id in tb.lists[src] ==> id in tb.home;
    }
    forall id | id in tb.home
      ensures id in tb.lists[src] <==> tb.home[id] == src
    {
    }
    assert r.lists[dst] == tb.lists[dst] + tb.lists[src];
    forall k | 0 <= k < |r.lists|
      ensures ListOk(r, k)
    {
      assert ListOk(tb, k);
    }
  }

  /** Workspaces n..k are empty, their windows at their fallbacks, everything else is as in `tb`. */
  ghost predicate Evacuated(tb: Table, n: nat, k: nat, dst: seq<int>, r: Table)
    requires n <= k <= |tb.lists| == |dst|
  {
    && TableOk(r) && r.index == tb.index && |r.lists| == |tb.lists|
    && (forall ws :: n <= ws < k ==> r.lists[ws] == [])
    && (forall ws :: k <= ws < |tb.lists| ==> r.lists[ws] == tb.lists[ws])
    && (forall id :: id in tb.home && 0 <= tb.home[id] < |dst| ==>
          (id in r.home && r.home[id] == if n <= tb.home[id] < k then dst[tb.home[id]] else tb.home[id]))
  }

  lemma EvacuatedNext(tb: Table, n: nat, k: nat, dst: seq<int>, r: Table)
    requires TableOk(tb) && n <= k < |tb.lists| == |dst| && 0 <= dst[k] < n
    requires forall ws :: n <= ws < k ==> 0 <= dst[ws] < n
    requires Evacuated(tb, n, k, dst, r)
    ensures Evacuated(tb, n, k + 1, dst, Evacuate(r, k, dst[k]))
  {
    EvacuateKeeps(r, k, dst[k]);
  }

  lemma {:induction false} EvacuateUpToKeeps(tb: Table, n: nat, k: nat, dst: seq<int>)
    requires TableOk(tb) && 0 < n <= k <= |tb.lists| == |dst|
    requires forall ws :: n <= ws < k ==> 0 <= dst[ws] < n
    ensures Evacuated(tb, n, k, dst, EvacuateUpTo(tb, n, k, dst))
  {
    if k > n {
      EvacuateUpToKeeps(tb, n, k - 1, dst);
      EvacuatedNext(tb, n, k - 1, dst, EvacuateUpTo(tb, n, k - 1, dst));
    }
  }

  lemma TruncateKeeps(tb: Table, n: nat, dst: seq<int>, e: Table)
    requires TableOk(tb) && 0 < n <= |tb.lists| == |dst| && Evacuated(tb, n, |tb.lists|, dst, e)
    requires forall ws :: n <= ws < |dst| ==> 0 <= dst[ws] < n
    ensures TableOk(e.(lists := e.lists[..n], cursors := e.cursors[..n]))
  {
    var r := e.(lists := e.lists[..n], cursors := e.cursors[..n]);
    forall k | 0 <= k < |r.lists|
      ensures ListOk(r, k)
    {
      assert ListOk(e, k);
    }
    forall id | id in r.home
      ensures 0 <= r.home[id] < n && id in r.lists[r.home[id]]
    {
      assert id in e.lists[e.home[id]];
    }
  }

  /** Changing the number of workspaces loses no window: those of removed workspaces go to their fallback. */
  lemma ResizeKeeps(tb: Table, n: nat, dst: seq<int>)
    requires TableOk(tb) && |dst| == |tb.lists| && (n == 0 ==> tb.lists == [])
    requires forall ws :: n <= ws < |dst| ==> 0 <= dst[ws] < n
    ensures
      var r := Resize(tb, n, dst);
      && TableOk(r) && |r.lists| == n && r.index == tb.index
      && (forall id :: id in tb.home ==>
            (id in r.home && r.home[id] == if tb.home[id] < n then tb.home[id] else dst[tb.home[id]]))
  {
    var r := Resize(tb, n, dst);
    if n >= |tb.lists| {
      forall k | 0 <= k < |r.lists|
        ensures ListOk(r, k)
      {
        if k < |tb.lists| {
          assert ListOk(tb, k);
        }
      }
    } else {
      EvacuateUpToKeeps(tb, n, |tb.lists|, dst);
      TruncateKeeps(tb, n, dst, EvacuateUpTo(tb, n, |tb.lists|, dst));
    }
  }

  // --- The hash maps refine a scan of all workspaces ---------------------------------------------

  /** What a search through all workspaces finds: the first one that lists the window. */
  function ScanHome(lists: seq<seq<nat>>, id: nat, k: nat): (ws: int)
    requires k <= |lists|
    ensures ws == NO_WS || (k <= ws < |lists| && id in lists[ws])
    ensures ws == NO_WS ==> forall i :: k <= i < |lists| ==> id !in lists[i]
    decreases |lists| - k
  {
    if k == |lists| then NO_WS else if id in lists[k] then k else ScanHome(lists, id, k + 1)
  }

  /** How often a window is listed in the first `k` workspaces. */
  function Listings(lists: seq<seq<nat>>, id: nat, k: nat): nat
    requires k <= |lists|
  {
    if k == 0 then 0 else Listings(lists, id, k - 1) + multiset(lists[k - 1])[id]
  }

  lemma LookupsAgreeWithScan(tb: Table, id: nat)
    requires TableOk(tb)
    ensures HomeOf(tb, id) == ScanHome(tb.lists, id, 0)
    ensures id in tb.index <==> ScanHome(tb.lists, id, 0) >= 0
  {
    var ws := ScanHome(tb.lists, id, 0);
    if ws >= 0 {
      assert ListOk(tb, ws);
    }
  }

  lemma {:induction false} OnceInDistinct(list: seq<nat>, id: nat)
    requires Distinct(list)
    ensures multiset(list)[id] == if id in list then 1 else 0
  {
    if list != [] {
      var front := list[..|list| - 1];
      assert list == front + [list[|list| - 1]];
      OnceInDistinct(front, id);
    }
  }

  /** Each live window is listed exactly once over all workspaces, and no other id is listed at all. */
  lemma {:induction false} ListedOnce(tb: Table, id: nat, k: nat)
    requires TableOk(tb) && k <= |tb.lists|
    ensures Listings(tb.lists, id, k) == if id in tb.index && tb.home[id] < k then 1 else 0
  {
    if k > 0 {
      ListedOnce(tb, id, k - 1);
      assert ListOk(tb, k - 1);
      OnceInDistinct(tb.lists[k - 1], id);
    }
  }
}
