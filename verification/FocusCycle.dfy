/**
 * Workspace::focus_next and focus_prev (core/src/core/workspace_manager.cpp:107-166): cycling visits
 * every eligible window once and stepping back undoes stepping forward.
 */
module FocusCycle {
  import opened Arith
  import opened Seqs
  import opened Windows

  /** Which positions may take the focus: candidates, and tiled ones only if `tiled`. */
  function Flags(index: Index, list: seq<nat>, tiled: bool): (r: seq<bool>)
    ensures |r| == |list|
    ensures forall i :: 0 <= i < |list| ==>
      (r[i] <==> Candidate(index, list, list[i]) && (tiled ==> Tiled(index, list[i])))
  {
    seq(|list|, i requires 0 <= i < |list| => Candidate(index, list, list[i]) && (tiled ==> Tiled(index, list[i])))
  }

  /** `i` steps from `base` in direction `dir` around a ring of n positions. */
  function Offset(base: int, dir: int, i: int, n: nat): (r: int)
    requires n > 0
    ensures 0 <= r < n
  {
    (base + dir * i) % n
  }

  /** The first of base + dir * i, base + dir * (i + 1), ..., base + dir * n (mod n) that is flagged, or -1. */
  function Search(ok: seq<bool>, base: int, dir: int, i: nat): (r: int)
    requires ok != [] && i <= |ok| + 1
    ensures -1 <= r < |ok|
    decreases |ok| + 1 - i
  {
    if i > |ok| then -1
    else if ok[Offset(base, dir, i, |ok|)] then Offset(base, dir, i, |ok|)
    else Search(ok, base, dir, i + 1)
  }

  /** Where the cursor goes: to the next tiled candidate, else to the next candidate, else nowhere. */
  function Step(index: Index, list: seq<nat>, cursor: int, dir: int): int {
    if list == [] then cursor
    else
      var tiled := Search(Flags(index, list, true), cursor, dir, 1);
      if tiled >= 0 then tiled
      else
        var any := Search(Flags(index, list, false), cursor, dir, 1);
        if any >= 0 then any else cursor
  }

  function NextCursor(index: Index, list: seq<nat>, cursor: int): int { Step(index, list, cursor, 1) }

  function PrevCursor(index: Index, list: seq<nat>, cursor: int): int {
    if list == [] then cursor else Step(index, list, if 0 <= cursor < |list| then cursor else 0, -1)
  }

  /** Positions the cycle visits: tiled candidates if there are any, else all candidates. */
  function Eligible(index: Index, list: seq<nat>): (r: seq<bool>)
    ensures |r| == |list|
  {
    if true in Flags(index, list, true) then Flags(index, list, true) else Flags(index, list, false)
  }

  // --- The search over a ring of flags -----------------------------------------------------------

  /** Search stops at the first flagged position. */
  lemma {:induction false} SearchStops(ok: seq<bool>, base: int, dir: int, i: nat, k: nat)
    requires ok != [] && i <= k <= |ok| && ok[Offset(base, dir, k, |ok|)]
    requires forall j :: i <= j < k ==> !ok[Offset(base, dir, j, |ok|)]
    ensures Search(ok, base, dir, i) == Offset(base, dir, k, |ok|)
    decreases k - i
  {
    hide Offset;
    if i < k {
      SearchStops(ok, base, dir, i + 1, k);
    }
  }

  lemma {:induction false} SearchFails(ok: seq<bool>, base: int, dir: int, i: nat)
    requires ok != [] && i <= |ok| + 1 && true !in ok
    ensures Search(ok, base, dir, i) == -1
    decreases |ok| + 1 - i
  {
    if i <= |ok| {
      SearchFails(ok, base, dir, i + 1);
    }
  }

  /** The flagged positions below k, ascending. */
  function Positions(ok: seq<bool>, k: nat): seq<nat>
    requires k <= |ok|
  {
    if k == 0 then [] else if ok[k - 1] then Positions(ok, k - 1) + [k - 1] else Positions(ok, k - 1)
  }

  /** `el` lists the flagged positions below k in ascending order. */
  ghost predicate ListsFlagged(ok: seq<bool>, k: nat, el: seq<nat>)
    requires k <= |ok|
  {
    && (forall i :: 0 <= i < |el| ==> el[i] < k)
    && (forall i :: 0 <= i < |el| && el[i] < k ==> ok[el[i]])
    && (forall i, j :: 0 <= i < j < |el| ==> el[i] < el[j])
    && (forall p :: 0 <= p < k && ok[p] ==> p in el)
  }

  lemma {:induction false} PositionsFacts(ok: seq<bool>, k: nat)
    requires k <= |ok|
    ensures ListsFlagged(ok, k, Positions(ok, k))
  {
    if k > 0 {
      PositionsFacts(ok, k - 1);
      var front := Positions(ok, k - 1);
      forall p | 0 <= p < k && ok[p]
        ensures p in Positions(ok, k)
      {
        if p < k - 1 {
          assert p in front;
        } else {
          assert Positions(ok, k)[|front|] == p;
        }
      }
    }
  }

  /** The ring of flagged positions of `ok`. */
  function Ring(ok: seq<bool>): seq<nat> { Positions(ok, |ok|) }

  lemma RingFacts(ok: seq<bool>)
    ensures ListsFlagged(ok, |ok|, Ring(ok))
  {
    PositionsFacts(ok, |ok|);
  }

  lemma RingGap(ok: seq<bool>, j: nat, p: int)
    requires j < |Ring(ok)|
    ensures j + 1 < |Ring(ok)| && Ring(ok)[j] < p < Ring(ok)[j + 1] ==> 0 <= p < |ok| && !ok[p]
    ensures j == |Ring(ok)| - 1 && Ring(ok)[j] < p < |ok| ==> !ok[p]
    ensures j == 0 && 0 <= p < Ring(ok)[j] ==> p < |ok| && !ok[p]
  {
    RingFacts(ok);
  }

  /** Remainders of numbers at most one turn away. */
  lemma ModBy(a: int, n: nat, r: int, q: int)
    requires n > 0 && 0 <= r < n
    requires (q == 0 && a == r) || (q == 1 && a == r + n) || (q == -1 && a == r - n)
    ensures a % n == r
  {
    var d := a / n - q;
    assert a == n * (a / n) + a % n && a == n * q + r;
    assert n * d == r - a % n;
    MulGrows(n, d);
    MulShrinks(n, d);
  }

  lemma ForwardInside(ok: seq<bool>, j: nat)
    requires j + 1 < |Ring(ok)|
    ensures ok != [] && Search(ok, Ring(ok)[j], 1, 1) == Ring(ok)[j + 1]
  {
    RingFacts(ok);
    assert Ring(ok)[j] < Ring(ok)[j + 1] < |ok|;
    var b: nat, k: nat := Ring(ok)[j], Ring(ok)[j + 1] - Ring(ok)[j];
    forall i | 1 <= i < k
      ensures !ok[Offset(b, 1, i, |ok|)]
    {
      RingGap(ok, j, b + i);
      ModBy(b + 1 * i, |ok|, b + i, 0);
    }
    ModBy(b + 1 * k, |ok|, b + k, 0);
    SearchStops(ok, b, 1, 1, k);
  }

  lemma ForwardWraps(ok: seq<bool>)
    requires Ring(ok) != []
    ensures ok != [] && Search(ok, Ring(ok)[|Ring(ok)| - 1], 1, 1) == Ring(ok)[0]
  {
    RingFacts(ok);
    var n, m := |ok|, |Ring(ok)|;
    var b, f := Ring(ok)[m - 1], Ring(ok)[0];
    var k := f - b + n;
    forall i | 1 <= i < k
      ensures !ok[Offset(b, 1, i, n)]
    {
      if b + i < n {
        RingGap(ok, m - 1, b + i);
        ModBy(b + 1 * i, n, b + i, 0);
      } else {
        RingGap(ok, 0, b + i - n);
        ModBy(b + 1 * i, n, b + i - n, 1);
      }
    }
    ModBy(b + 1 * k, n, f, 1);
    SearchStops(ok, b, 1, 1, k);
  }

  lemma BackwardInside(ok: seq<bool>, j: nat)
    requires 0 < j < |Ring(ok)|
    ensures ok != [] && Search(ok, Ring(ok)[j], -1, 1) == Ring(ok)[j - 1]
  {
    RingFacts(ok);
    assert Ring(ok)[j - 1] < Ring(ok)[j] < |ok|;
    var b: nat, k: nat := Ring(ok)[j], Ring(ok)[j] - Ring(ok)[j - 1];
    forall i | 1 <= i < k
      ensures !ok[Offset(b, -1, i, |ok|)]
    {
      RingGap(ok, j - 1, b - i);
      ModBy(b + -1 * i, |ok|, b - i, 0);
    }
    ModBy(b + -1 * k, |ok|, b - k, 0);
    SearchStops(ok, b, -1, 1, k);
  }

  lemma BackwardWraps(ok: seq<bool>)
    requires Ring(ok) != []
    ensures ok != [] && Search(ok, Ring(ok)[0], -1, 1) == Ring(ok)[|Ring(ok)| - 1]
  {
    RingFacts(ok);
    var n, m := |ok|, |Ring(ok)|;
    var b, l := Ring(ok)[0], Ring(ok)[m - 1];
    assert b <= l < n && ok[l];
    var k: nat := b - l + n;
    forall i | 1 <= i < k
      ensures !ok[Offset(b, -1, i, n)]
    {
      if i <= b {
        RingGap(ok, 0, b - i);
        ModBy(b + -1 * i, n, b - i, 0);
      } else {
        RingGap(ok, m - 1, b - i + n);
        ModBy(b + -1 * i, n, b - i + n, -1);
      }
    }
    ModBy(b + -1 * k, n, l, -1);
    SearchStops(ok, b, -1, 1, k);
  }

  lemma {:induction false} SearchReaches(ok: seq<bool>, base: int, dir: int, i: nat, k: nat)
    requires ok != [] && i <= k <= |ok| && ok[Offset(base, dir, k, |ok|)]
    ensures Search(ok, base, dir, i) >= 0
    decreases k - i
  {
    hide Offset;
    if i < k {
      SearchReaches(ok, base, dir, i + 1, k);
    }
  }

  /** From any position, a search backwards finds a flagged position if there is one. */
  lemma SearchBackFinds(ok: seq<bool>, base: int, p: int)
    requires 0 <= base < |ok| && 0 <= p < |ok| && ok[p]
    ensures Search(ok, base, -1, 1) >= 0
  {
    var n := |ok|;
    if p < base {
      ModBy(base + -1 * (base - p), n, p, 0);
      SearchReaches(ok, base, -1, 1, base - p);
    } else {
      ModBy(base + -1 * (base - p + n), n, p, -1);
      SearchReaches(ok, base, -1, 1, base - p + n);
    }
  }

  /** There is always a window that may take the focus. */
  lemma SomeCandidate(index: Index, list: seq<nat>) returns (p: int)
    requires list != []
    ensures 0 <= p < |list| && Flags(index, list, false)[p]
  {
    p := 0;
    if AnyShown(index, list) {
      p :| 0 <= p < |list| && Shown(index, list[p]);
    }
  }

  // --- Cycling -----------------------------------------------------------------------------------

  /** On a ring position, Step follows the ring of eligible positions. */
  lemma StepFollowsRing(index: Index, list: seq<nat>, cursor: int, dir: int)
    requires list != []
    ensures true in Eligible(index, list) ==>
      Step(index, list, cursor, dir) == Search(Eligible(index, list), cursor, dir, 1) ||
      Search(Eligible(index, list), cursor, dir, 1) < 0
  {
    if true !in Flags(index, list, true) {
      SearchFails(Flags(index, list, true), cursor, dir, 1);
    }
  }

  lemma NextOnRing(index: Index, list: seq<nat>, j: nat)
    requires j < |Ring(Eligible(index, list))|
    ensures
      var ring := Ring(Eligible(index, list));
      NextCursor(index, list, ring[j]) == ring[if j + 1 < |ring| then j + 1 else 0]
  {
    var ok := Eligible(index, list);
    RingFacts(ok);
    assert ok[Ring(ok)[j]];
    if j + 1 < |Ring(ok)| {
      ForwardInside(ok, j);
    } else {
      ForwardWraps(ok);
    }
    StepFollowsRing(index, list, Ring(ok)[j], 1);
  }

  lemma PrevOnRing(index: Index, list: seq<nat>, j: nat)
    requires j < |Ring(Eligible(index, list))|
    ensures
      var ring := Ring(Eligible(index, list));
      PrevCursor(index, list, ring[j]) == ring[if j > 0 then j - 1 else |ring| - 1]
  {
    var ok := Eligible(index, list);
    RingFacts(ok);
    assert ok[Ring(ok)[j]];
    if j > 0 {
      BackwardInside(ok, j);
    } else {
      BackwardWraps(ok);
    }
    StepFollowsRing(index, list, Ring(ok)[j], -1);
  }

  lemma OnRing(ok: seq<bool>, p: int) returns (j: nat)
    requires 0 <= p < |ok| && ok[p]
    ensures j < |Ring(ok)| && Ring(ok)[j] == p
  {
    RingFacts(ok);
    j :| j < |Ring(ok)| && Ring(ok)[j] == p;
  }

  /** Starting on an eligible window, focus_prev undoes focus_next and focus_next undoes focus_prev. */
  lemma PrevUndoesNext(index: Index, list: seq<nat>, cursor: int)
    requires 0 <= cursor < |list| && Eligible(index, list)[cursor]
    ensures PrevCursor(index, list, NextCursor(index, list, cursor)) == cursor
    ensures NextCursor(index, list, PrevCursor(index, list, cursor)) == cursor
  {
    var ring := Ring(Eligible(index, list));
    var j := OnRing(Eligible(index, list), cursor);
    NextOnRing(index, list, j);
    PrevOnRing(index, list, j);
    PrevOnRing(index, list, if j + 1 < |ring| then j + 1 else 0);
    NextOnRing(index, list, if j > 0 then j - 1 else |ring| - 1);
  }

  /** The cursor after `k` calls of focus_next. */
  function NextTimes(index: Index, list: seq<nat>, cursor: int, k: nat): int {
    if k == 0 then cursor else NextCursor(index, list, NextTimes(index, list, cursor, k - 1))
  }

  function Around(j: nat, k: nat, m: nat): nat
    requires j < m && k <= m
  {
    if j + k < m then j + k else j + k - m
  }

  lemma {:induction false} NextTimesOnRing(index: Index, list: seq<nat>, j: nat, k: nat)
    requires j < |Ring(Eligible(index, list))| && k <= |Ring(Eligible(index, list))|
    ensures
      var ring := Ring(Eligible(index, list));
      Around(j, k, |ring|) < |ring| &&
      NextTimes(index, list, ring[j], k) == ring[Around(j, k, |ring|)]
  {
    if k > 0 {
      NextTimesOnRing(index, list, j, k - 1);
      NextOnRing(index, list, Around(j, k - 1, |Ring(Eligible(index, list))|));
    }
  }

  /** `k` is the one number of steps below m that reaches `target`. */
  ghost predicate ReachedOnce(index: Index, list: seq<nat>, cursor: int, target: int, k: nat, m: nat) {
    k < m && NextTimes(index, list, cursor, k) == target &&
    forall k' :: 0 <= k' < m && NextTimes(index, list, cursor, k') == target ==> k' == k
  }

  /** Steps from ring position j to ring position g. */
  function Steps(j: nat, g: nat, m: nat): (k: nat)
    requires j < m && g < m
    ensures k < m
  {
    if g >= j then g - j else g - j + m
  }

  lemma StepsDecide(index: Index, list: seq<nat>, j: nat, g: nat, k: nat)
    requires j < |Ring(Eligible(index, list))| && g < |Ring(Eligible(index, list))|
    requires k < |Ring(Eligible(index, list))|
    ensures
      var ring := Ring(Eligible(index, list));
      NextTimes(index, list, ring[j], k) == ring[g] <==> k == Steps(j, g, |ring|)
  {
    var ring := Ring(Eligible(index, list));
    NextTimesOnRing(index, list, j, k);
    RingFacts(Eligible(index, list));
    var a := Around(j, k, |ring|);
    assert a < g ==> ring[a] < ring[g];
    assert g < a ==> ring[g] < ring[a];
  }

  /**
   * With m eligible windows, m calls of focus_next return to the start, and on the way every eligible
   * window is reached by exactly one number of steps.
   */
  lemma CycleVisitsAll(index: Index, list: seq<nat>, cursor: int, target: int)
    requires 0 <= cursor < |list| && Eligible(index, list)[cursor]
    requires 0 <= target < |list| && Eligible(index, list)[target]
    ensures
      var m := |Ring(Eligible(index, list))|;
      && NextTimes(index, list, cursor, m) == cursor
      && exists k: nat :: ReachedOnce(index, list, cursor, target, k, m)
  {
    var ok := Eligible(index, list);
    var m := |Ring(ok)|;
    var j := OnRing(ok, cursor);
    var g := OnRing(ok, target);
    NextTimesOnRing(index, list, j, m);
    var k := Steps(j, g, m);
    StepsDecide(index, list, j, g, k);
    forall k' | 0 <= k' < m && NextTimes(index, list, cursor, k') == target
      ensures k' == k
    {
      StepsDecide(index, list, j, g, k');
    }
    assert ReachedOnce(index, list, cursor, target, k, m);
  }
}
