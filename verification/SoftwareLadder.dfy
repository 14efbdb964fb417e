/** What the software's segment tree does, whose lists also take the negative indices that prices below the ladder
    give. */
module SoftwareLadders {
  import opened Words
  import opened SegmentTree
  import opened TreeOrderBooks

  /** Tree entries are list indices or the sentinel. */
  predicate Shaped(t: seq<int>, q: seq<nat>) {
    && 2 <= |q| < 0x8000_0000 && |t| == 2 * |q|
    && forall k :: 0 <= k < |t| ==> t[k] == NO_LEVEL || -|q| <= t[k] < |q|
  }

  /** What bubble_up stores for a list index. */
  function Entry(q: seq<nat>, idx: int): (e: int)
    requires -|q| <= idx < |q|
  {
    if q[Element(|q|, idx)] > 0 then idx else NO_LEVEL
  }

  /** Rebuild node and its ancestors, each from its two children. */
  function Climb(t: seq<int>, node: nat, side: nat): (r: seq<int>)
    requires 2 * node + 1 < |t|
    ensures |r| == |t|
    decreases node
  {
    if node == 0 then t else Climb(t[node := ChoosePreferred(t[2 * node], t[2 * node + 1], side)], node / 2, side)
  }

  /** A negative index lands on an inner node instead of a leaf. */
  function Bubble(t: seq<int>, q: seq<nat>, side: nat, idx: int): (r: seq<int>)
    requires Shaped(t, q) && -|q| <= idx < |q|
    ensures Shaped(r, q)
  {
    ClimbShaped(t[idx + |q| := Entry(q, idx)], q, (idx + |q|) / 2, side);
    Climb(t[idx + |q| := Entry(q, idx)], (idx + |q|) / 2, side)
  }

  lemma {:induction false} ClimbShaped(t: seq<int>, q: seq<nat>, node: nat, side: nat)
    requires Shaped(t, q) && node < |q|
    ensures Shaped(Climb(t, node, side), q)
    decreases node
  {
    if node > 0 { ClimbShaped(t[node := ChoosePreferred(t[2 * node], t[2 * node + 1], side)], q, node / 2, side); }
  }

  // ---------- taking the top out and putting it back ----------

  datatype Taken = Taken(t: seq<int>, q: seq<nat>, saved: seq<int>, savedQty: seq<nat>)

  function Take(t: seq<int>, q: seq<nat>, side: nat, m: nat): (r: Taken)
    requires Shaped(t, q)
    ensures |r.q| == |q| && Shaped(r.t, r.q) && |r.saved| == |r.savedQty| <= m
    ensures forall j :: 0 <= j < |r.saved| ==> -|q| <= r.saved[j] < |q|
    decreases m
  {
    if m == 0 || t[1] == NO_LEVEL then Taken(t, q, [], [])
    else
      var e := t[1];
      var p: seq<nat> := q[Element(|q|, e) := 0];
      var r := Take(Bubble(t, p, side, e), p, side, m - 1);
      Taken(r.t, r.q, [e] + r.saved, [q[Element(|q|, e)]] + r.savedQty)
  }

  datatype Ladder = Ladder(t: seq<int>, q: seq<nat>)

  function PutBack(t: seq<int>, q: seq<nat>, side: nat, saved: seq<int>, savedQty: seq<nat>): (r: Ladder)
    requires Shaped(t, q) && |saved| == |savedQty|
    requires forall j :: 0 <= j < |saved| ==> -|q| <= saved[j] < |q|
    ensures |r.q| == |q| && Shaped(r.t, r.q)
    decreases |saved|
  {
    if saved == [] then Ladder(t, q)
    else
      var p: seq<nat> := q[Element(|q|, saved[0]) := savedQty[0]];
      PutBack(Bubble(t, p, side, saved[0]), p, side, saved[1..], savedQty[1..])
  }

  /** The ladder after its top five were read. */
  function AfterTop5(t: seq<int>, q: seq<nat>, side: nat): (r: Ladder)
    requires Shaped(t, q)
    ensures |r.q| == |q| && Shaped(r.t, r.q)
  {
    var k := Take(t, q, side, 5);
    PutBack(k.t, k.q, side, k.saved, k.savedQty)
  }

  // ---------- what a climb rebuilds ----------

  predicate Local(t: seq<int>, k: nat, side: nat)
    requires 2 * k + 1 < |t|
  {
    t[k] == ChoosePreferred(t[2 * k], t[2 * k + 1], side)
  }

  /** A climb writes on its path only. */
  lemma {:induction false} ClimbFrame(t: seq<int>, node: nat, side: nat, k: nat)
    requires 2 * node + 1 < |t| && k < |t| && (k == 0 || !OnPath(k, node))
    ensures Climb(t, node, side)[k] == t[k]
    decreases node
  {
    hide ChoosePreferred;
    if node > 0 { ClimbFrame(t[node := ChoosePreferred(t[2 * node], t[2 * node + 1], side)], node / 2, side, k); }
  }

  /** It makes every node of its path local, and leaves the others as local as they were. */
  lemma {:induction false} ClimbLocal(t: seq<int>, node: nat, side: nat, k: nat)
    requires 2 * node + 1 < |t| && 1 <= k && 2 * k + 1 < |t| && (OnPath(k, node) || Local(t, k, side))
    ensures Local(Climb(t, node, side), k, side)
    decreases node
  {
    hide ChoosePreferred;
    if node > 0 {
      var u := t[node := ChoosePreferred(t[2 * node], t[2 * node + 1], side)];
      if OnPath(2 * k, node / 2) { ParentOnPath(2 * k, node / 2); OnPathBelow(2 * k, node / 2); }
      if OnPath(2 * k + 1, node / 2) { ParentOnPath(2 * k + 1, node / 2); OnPathBelow(2 * k + 1, node / 2); }
      if k == node {
        if OnPath(node, node / 2) { OnPathBelow(node, node / 2); }
        ClimbFrame(u, node / 2, side, node);
        ClimbFrame(u, node / 2, side, 2 * node);
        ClimbFrame(u, node / 2, side, 2 * node + 1);
      } else if !OnPath(k, node / 2) {
        ChildOffPath(k, node);
        ClimbFrame(u, node / 2, side, k);
        ClimbFrame(u, node / 2, side, 2 * k);
        ClimbFrame(u, node / 2, side, 2 * k + 1);
      } else {
        ClimbLocal(u, node / 2, side, k);
      }
    }
  }

  // ---------- trees that have only seen the index -1 ----------

  /** Local but for the last inner node, which -1 may have overwritten; true leaves but for the last, whose level -1
      shares. */
  ghost predicate Near(t: seq<int>, q: seq<nat>, side: nat) {
    && Shaped(t, q)
    && (forall k :: 1 <= k < |q| - 1 ==> Local(t, k, side))
    && (forall l :: 0 <= l < |q| - 1 ==> t[|q| + l] == Entry(q, l))
    && (t[2 * |q| - 1] == |q| - 1 || t[2 * |q| - 1] == NO_LEVEL)
    && (Local(t, |q| - 1, side) || t[|q| - 1] == -1 || t[|q| - 1] == NO_LEVEL)
  }

  /** What bubbling up from idx does to node k. */
  lemma BubbleAt(t: seq<int>, q: seq<nat>, side: nat, idx: int, k: nat)
    requires Shaped(t, q) && -|q| < idx < |q| && 1 <= k < 2 * |q|
    ensures k == idx + |q| ==> Bubble(t, q, side, idx)[k] == Entry(q, idx)
    ensures k != idx + |q| && k > (idx + |q|) / 2 ==> Bubble(t, q, side, idx)[k] == t[k]
    ensures k < |q| && OnPath(k, (idx + |q|) / 2) ==> Local(Bubble(t, q, side, idx), k, side)
    ensures k < |q| && k != idx + |q| && Local(t, k, side) ==> Local(Bubble(t, q, side, idx), k, side)
  {
    var m, node := idx + |q|, (idx + |q|) / 2;
    var u := t[m := Entry(q, idx)];
    if k > node {
      if OnPath(k, node) { OnPathBelow(k, node); }
      ClimbFrame(u, node, side, k);
    }
    if k < |q| {
      if OnPath(k, node) {
        ClimbLocal(u, node, side, k);
      } else if k != m && Local(t, k, side) {
        assert 2 * k != m && 2 * k + 1 != m;
        ClimbLocal(u, node, side, k);
      }
    }
    hide ChoosePreferred, OnPath, Climb, Entry;
  }

  lemma NearLocals(t: seq<int>, q: seq<nat>, r: seq<nat>, side: nat, idx: int)
    requires Near(t, q, side) && |r| == |q| && -1 <= idx < |q|
    ensures Shaped(t, r) && forall k :: 1 <= k < |q| - 1 ==> Local(Bubble(t, r, side, idx), k, side)
  {
    hide Bubble, Local, OnPath, Entry;
    assert Shaped(t, r);
    forall k | 1 <= k < |q| - 1 ensures Local(Bubble(t, r, side, idx), k, side) { BubbleAt(t, r, side, idx, k); }
  }

  lemma NearLeaves(t: seq<int>, q: seq<nat>, r: seq<nat>, side: nat, idx: int)
    requires Near(t, q, side) && |r| == |q| && -1 <= idx < |q|
    requires forall l :: 0 <= l < |q| && l != Element(|q|, idx) ==> r[l] == q[l]
    ensures Shaped(t, r) && forall l :: 0 <= l < |q| - 1 ==> Bubble(t, r, side, idx)[|q| + l] == Entry(r, l)
  {
    hide Bubble, Local, OnPath;
    assert Shaped(t, r);
    forall l | 0 <= l < |q| - 1 ensures Bubble(t, r, side, idx)[|q| + l] == Entry(r, l) {
      assert Entry(r, l) == Entry(q, l) || idx == l;
      BubbleAt(t, r, side, idx, |q| + l);
    }
  }

  /** The last leaf and its parent. */
  lemma NearLast(t: seq<int>, q: seq<nat>, r: seq<nat>, side: nat, idx: int)
    requires Near(t, q, side) && |r| == |q| && -1 <= idx < |q|
    ensures Shaped(t, r)
    ensures var n, u := |q|, Bubble(t, r, side, idx);
            && (u[2 * n - 1] == n - 1 || u[2 * n - 1] == NO_LEVEL)
            && (Local(u, n - 1, side) || u[n - 1] == -1 || u[n - 1] == NO_LEVEL)
  {
    var n := |q|;
    assert Shaped(t, r) && OnPath((idx + n) / 2, (idx + n) / 2);
    hide Bubble, Local, OnPath;
    BubbleAt(t, r, side, idx, 2 * n - 1);
    BubbleAt(t, r, side, idx, n - 1);
  }

  /** Changing the level that idx selects and bubbling up from idx keeps a tree near. */
  lemma NearBubble(t: seq<int>, q: seq<nat>, r: seq<nat>, side: nat, idx: int)
    requires Near(t, q, side) && |r| == |q| && -1 <= idx < |q|
    requires forall l :: 0 <= l < |q| && l != Element(|q|, idx) ==> r[l] == q[l]
    ensures Near(Bubble(t, r, side, idx), r, side)
  {
    hide Bubble, Local, OnPath, Entry, Element;
    NearLocals(t, q, r, side, idx);
    NearLeaves(t, q, r, side, idx);
    NearLast(t, q, r, side, idx);
  }

  /** An entry above the last two leaves is either of a level that holds something, or passed through the last inner
      node. */
  lemma {:induction false} VisibleNear(t: seq<int>, q: seq<nat>, side: nat, k: nat)
    requires Near(t, q, side) && 1 <= k && k <= 2 * |q| - 3 && t[k] != NO_LEVEL
    ensures -1 <= t[k] < |q|
    ensures 0 <= t[k] < |q| - 1 ==> q[t[k]] > 0
    ensures t[k] == -1 || t[k] >= |q| - 2 ==> t[|q| - 1] == t[k]
    decreases 2 * |q| - k
  {
    hide ChoosePreferred;
    var n := |q|;
    if k >= n {
      assert t[n + (k - n)] == Entry(q, k - n);
    } else if k == n - 1 {
      assert t[n + (n - 2)] == Entry(q, n - 2);
    } else {
      assert Local(t, k, side);
      var child := if t[k] == t[2 * k] then 2 * k else 2 * k + 1;
      VisibleNear(t, q, side, child);
    }
  }

  /** The level -1 shares has been taken: no entry of it can surface again. */
  predicate Spent(t: seq<int>, n: nat)
    requires |t| == 2 * n && n >= 2
  {
    t[n - 1] == NO_LEVEL || (t[2 * n - 1] == NO_LEVEL && t[n - 1] == t[2 * n - 2])
  }

  lemma ChooseNone(a: int, side: nat)
    ensures ChoosePreferred(a, NO_LEVEL, side) == a
  {
  }

  /** Taking the level -1 shares spends it. */
  lemma SpentNow(t: seq<int>, q: seq<nat>, side: nat, e: int)
    requires Shaped(t, q) && (e == -1 || e == |q| - 1)
    ensures Spent(Bubble(t, q[|q| - 1 := 0], side, e), |q|)
  {
    var n := |q|;
    var p: seq<nat> := q[n - 1 := 0];
    assert Shaped(t, p) && OnPath((e + n) / 2, (e + n) / 2);
    hide Shaped, OnPath, ChoosePreferred;
    BubbleAt(t, p, side, e, n - 1);
    BubbleAt(t, p, side, e, 2 * n - 1);
    hide Bubble;
    ChooseNone(Bubble(t, p, side, e)[2 * n - 2], side);
  }

  /** And it stays spent when another level is taken. */
  lemma StaysSpent(t: seq<int>, q: seq<nat>, side: nat, e: int)
    requires Shaped(t, q) && Spent(t, |q|) && 0 <= e < |q| - 1 && (e == |q| - 2 ==> t[|q| - 1] == e)
    ensures Spent(Bubble(t, q[e := 0], side, e), |q|)
  {
    hide Bubble, Spent, Shaped;
    if e < |q| - 2 { SpentElsewhere(t, q, side, e); } else { SpentBeside(t, q, side); }
  }

  lemma SpentElsewhere(t: seq<int>, q: seq<nat>, side: nat, e: int)
    requires Shaped(t, q) && Spent(t, |q|) && 0 <= e < |q| - 2
    ensures Spent(Bubble(t, q[e := 0], side, e), |q|)
  {
    var n := |q|;
    var p: seq<nat> := q[e := 0];
    assert Shaped(t, p) && (e + n) / 2 < n - 1;
    hide Shaped, OnPath, ChoosePreferred, Bubble, Entry, Local;
    BubbleAt(t, p, side, e, n - 1);
    BubbleAt(t, p, side, e, 2 * n - 1);
    BubbleAt(t, p, side, e, 2 * n - 2);
  }

  lemma SpentBeside(t: seq<int>, q: seq<nat>, side: nat)
    requires Shaped(t, q) && Spent(t, |q|) && t[|q| - 1] == |q| - 2
    ensures Spent(Bubble(t, q[|q| - 2 := 0], side, |q| - 2), |q|)
  {
    var n := |q|;
    assert t[2 * n - 1] == NO_LEVEL;
    hide Shaped, ChoosePreferred, Bubble;
    BesideEmptied(t, q, side);
    ChooseNone(NO_LEVEL, side);
  }

  lemma BubbleLength(t: seq<int>, q: seq<nat>, side: nat, idx: int)
    requires Shaped(t, q) && -|q| <= idx < |q|
    ensures |Bubble(t, q, side, idx)| == |t|
  {
  }

  /** Bubbling up from a level changes no other leaf and makes its parent local. */
  lemma BubbleLeaves(t: seq<int>, q: seq<nat>, side: nat, l: nat)
    requires Shaped(t, q) && l < |q|
    ensures var u := Bubble(t, q, side, l);
            && u[|q| + l] == Entry(q, l) && Local(u, (|q| + l) / 2, side)
            && forall k :: |q| <= k < 2 * |q| && k != |q| + l ==> u[k] == t[k]
  {
    hide Local, Bubble, Entry;
    assert |t| == 2 * |q| >= 4 && OnPath((l + |q|) / 2, (l + |q|) / 2);
    hide OnPath, Shaped;
    assert |Bubble(t, q, side, l)| == |t| by { BubbleLength(t, q, side, l); }
    BubbleAt(t, q, side, l, (l + |q|) / 2);
    BubbleAt(t, q, side, l, l + |q|);
    forall k | |q| <= k < 2 * |q| && k != |q| + l ensures Bubble(t, q, side, l)[k] == t[k] {
      BubbleAt(t, q, side, l, k);
    }
  }

  /** Emptying the last level but one: the last two leaves and their parent. */
  lemma BesideEmptied(t: seq<int>, q: seq<nat>, side: nat)
    requires Shaped(t, q)
    ensures var n := |q|;
            var u := Bubble(t, q[n - 2 := 0], side, n - 2);
            u[2 * n - 2] == NO_LEVEL && u[2 * n - 1] == t[2 * n - 1] && Local(u, n - 1, side)
  {
    var n := |q|;
    var p: seq<nat> := q[n - 2 := 0];
    assert Shaped(t, p) && Entry(p, n - 2) == NO_LEVEL && (2 * n - 2) / 2 == n - 1;
    hide Shaped, Local, Bubble, Entry;
    BubbleLeaves(t, p, side, n - 2);
  }

  /** A spent level is not at the root. */
  lemma SpentHidden(t: seq<int>, q: seq<nat>, side: nat, e: int)
    requires Near(t, q, side) && Spent(t, |q|) && (e == -1 || e == |q| - 1)
    ensures t[|q| - 1] != e
  {
    assert t[|q| + (|q| - 2)] == Entry(q, |q| - 2);
    hide Local, Shaped;
  }

  lemma TakeOneNear(t: seq<int>, q: seq<nat>, side: nat, gone: bool)
    requires Near(t, q, side) && t[1] != NO_LEVEL && (gone ==> Spent(t, |q|))
    ensures -1 <= t[1] < |q|
    ensures var n, e, l := |q|, t[1], Element(|q|, t[1]);
            var u := Bubble(t, q[l := 0], side, e);
            && Near(u, q[l := 0], side)
            && (l < n - 1 ==> q[l] > 0) && (l == n - 1 ==> !gone) && (gone || l == n - 1 ==> Spent(u, n))
  {
    var e := t[1];
    VisibleNear(t, q, side, 1);
    if e == -1 || e == |q| - 1 {
      if gone { SpentHidden(t, q, side, e); }
      SpentNow(t, q, side, e);
    } else if gone {
      StaysSpent(t, q, side, e);
    }
    NearBubble(t, q, q[Element(|q|, t[1]) := 0], side, t[1]);
    hide Near, Bubble, Spent;
  }

  /** The list elements that some indices select. */
  function Slots(n: nat, saved: seq<int>): (s: seq<nat>)
    requires forall j :: 0 <= j < |saved| ==> 0 <= saved[j] + n && saved[j] < n
    ensures |s| == |saved|
  {
    seq(|saved|, j requires 0 <= j < |saved| => Element(n, saved[j]))
  }

  /** List index e was taken with quantity qty: its level held that much, and it is not the last if that was
      gone. */
  ghost predicate TookAt(q: seq<nat>, e: int, qty: nat, gone: bool) {
    && q != [] && -1 <= e < |q|
    && var l := Element(|q|, e);
       qty == q[l] && if l < |q| - 1 then q[l] > 0 else !gone
  }

  /** k took out different levels of q and remembers what they held. */
  ghost predicate TookFrom(k: Taken, q: seq<nat>, gone: bool) {
    && |k.q| == |q| >= 1 && |k.saved| == |k.savedQty|
    && (forall j :: 0 <= j < |k.saved| ==> TookAt(q, k.saved[j], k.savedQty[j], gone))
    && Emptied(k.q, q, Slots(|q|, k.saved)) && Distinct(Slots(|q|, k.saved))
  }

  lemma TookNothing(t: seq<int>, q: seq<nat>, gone: bool)
    requires q != []
    ensures TookFrom(Taken(t, q, [], []), q, gone)
  {
  }

  lemma EmptiedMore(x: seq<nat>, q: seq<nat>, l: nat, rest: seq<nat>)
    requires l < |q| && Emptied(x, q[l := 0], rest)
    ensures Emptied(x, q, [l] + rest)
  {
    forall i | 0 <= i < |q| ensures i in [l] + rest <==> i == l || i in rest {}
  }

  lemma DistinctMore(l: nat, rest: seq<nat>)
    requires Distinct(rest) && forall j :: 0 <= j < |rest| ==> rest[j] != l
    ensures Distinct([l] + rest)
  {
  }

  /** What is taken after level l was emptied is another level, and holds what it held before. */
  lemma TookAtMore(q: seq<nat>, l: nat, e: int, qty: nat, gone: bool)
    requires l < |q| && TookAt(q[l := 0], e, qty, gone || l == |q| - 1)
    ensures TookAt(q, e, qty, gone) && Element(|q|, e) != l
  {
  }

  lemma TookAllMore(q: seq<nat>, l: nat, saved: seq<int>, savedQty: seq<nat>, gone: bool)
    requires l < |q| && |saved| == |savedQty|
    requires forall j :: 0 <= j < |saved| ==> TookAt(q[l := 0], saved[j], savedQty[j], gone || l == |q| - 1)
    ensures forall j :: 0 <= j < |saved| ==> TookAt(q, saved[j], savedQty[j], gone)
    ensures forall j :: 0 <= j < |saved| ==> 0 <= saved[j] + |q| && saved[j] < |q| && Element(|q|, saved[j]) != l
  {
    forall j | 0 <= j < |saved|
      ensures TookAt(q, saved[j], savedQty[j], gone)
      ensures 0 <= saved[j] + |q| && saved[j] < |q| && Element(|q|, saved[j]) != l
    {
      TookAtMore(q, l, saved[j], savedQty[j], gone);
    }
  }

  lemma TookOneMore(k: Taken, q: seq<nat>, e: int, gone: bool)
    requires q != [] && -1 <= e < |q| && TookAt(q, e, q[Element(|q|, e)], gone)
    requires TookFrom(k, q[Element(|q|, e) := 0], gone || Element(|q|, e) == |q| - 1)
    ensures TookFrom(Taken(k.t, k.q, [e] + k.saved, [q[Element(|q|, e)]] + k.savedQty), q, gone)
  {
    hide TookAt, Element, Emptied, Distinct;
    var l := Element(|q|, e);
    TookAllMore(q, l, k.saved, k.savedQty, gone);
    var rest := Slots(|q|, k.saved);
    EmptiedMore(k.q, q, l, rest);
    DistinctMore(l, rest);
    assert Slots(|q|, [e] + k.saved) == [l] + rest;
    hide Slots;
  }

  /** Taking from a near tree takes out different levels and leaves a near tree. */
  lemma {:induction false} TakeNear(t: seq<int>, q: seq<nat>, side: nat, m: nat, gone: bool)
    requires Near(t, q, side) && (gone ==> Spent(t, |q|))
    ensures Near(Take(t, q, side, m).t, Take(t, q, side, m).q, side) && TookFrom(Take(t, q, side, m), q, gone)
    decreases m
  {
    if m > 0 && t[1] != NO_LEVEL {
      TakeOneNear(t, q, side, gone);
      var e, l := t[1], Element(|q|, t[1]);
      hide Near, Spent, Bubble, TookFrom, Emptied, Distinct;
      TakeNear(Bubble(t, q[l := 0], side, e), q[l := 0], side, m - 1, gone || l == |q| - 1);
      TookOneMore(Take(Bubble(t, q[l := 0], side, e), q[l := 0], side, m - 1), q, e, gone);
    } else {
      TookNothing(t, q, gone);
    }
  }

  lemma PutOne(q: seq<nat>, q0: seq<nat>, slots: seq<nat>)
    requires |q| == |q0| && slots != [] && slots[0] < |q| && Emptied(q, q0, slots) && Distinct(slots)
    ensures Emptied(q[slots[0] := q0[slots[0]]], q0, slots[1..]) && Distinct(slots[1..])
  {
    forall x | 0 <= x < |q| && x != slots[0] ensures x in slots <==> x in slots[1..] {
      assert slots == [slots[0]] + slots[1..];
    }
  }

  lemma {:induction false} PutBackNear(t: seq<int>, q: seq<nat>, side: nat, saved: seq<int>,
      savedQty: seq<nat>, q0: seq<nat>)
    requires Near(t, q, side) && |saved| == |savedQty| && |q0| == |q|
    requires forall j :: 0 <= j < |saved| ==> -1 <= saved[j] < |q|
    requires Emptied(q, q0, Slots(|q|, saved)) && Distinct(Slots(|q|, saved))
    requires forall j :: 0 <= j < |saved| ==> savedQty[j] == q0[Slots(|q|, saved)[j]]
    ensures PutBack(t, q, side, saved, savedQty).q == q0 && Near(PutBack(t, q, side, saved, savedQty).t, q0, side)
    decreases |saved|
  {
    if saved == [] {
      assert q == q0;
    } else {
      var slots := Slots(|q|, saved);
      var p: seq<nat> := q[slots[0] := savedQty[0]];
      NearBubble(t, q, p, side, saved[0]);
      hide Near, Bubble, Emptied, Distinct;
      PutOne(q, q0, slots);
      assert Slots(|q|, saved[1..]) == slots[1..];
      PutBackNear(Bubble(t, p, side, saved[0]), p, side, saved[1..], savedQty[1..], q0);
    }
  }

  /** Reading the top five of a near tree leaves its levels as they were. */
  lemma Top5Near(t: seq<int>, q: seq<nat>, side: nat)
    requires Near(t, q, side)
    ensures AfterTop5(t, q, side).q == q && Near(AfterTop5(t, q, side).t, q, side)
  {
    var k := Take(t, q, side, 5);
    TakeNear(t, q, side, 5, false);
    hide Near, Take, Emptied, Distinct;
    PutBackNear(k.t, k.q, side, k.saved, k.savedQty, q);
  }

  // ---------- any tree ----------

  lemma LastOccurrence(s: seq<nat>, l: nat) returns (j: nat)
    requires l in s
    ensures j < |s| && s[j] == l && l !in s[j + 1..] && forall i :: j < i < |s| ==> s[i] != l
    decreases |s|
  {
    if s[|s| - 1] == l {
      j := |s| - 1;
    } else {
      var r := s[..|s| - 1];
      assert s == r + [s[|s| - 1]];
      j := LastOccurrence(r, l);
      assert s[j + 1..] == r[j + 1..] + [s[|s| - 1]];
    }
  }

  lemma FirstOccurrence(s: seq<nat>, l: nat) returns (i: nat)
    requires l in s
    ensures i < |s| && s[i] == l && l !in s[..i]
  {
    i := 0;
    while s[i] != l
      invariant i < |s| && l !in s[..i] && l in s[i..]
      decreases |s| - i
    {
      i := i + 1;
    }
  }

  /** What is remembered of each list element taken: its quantity the first time, nothing after that. */
  ghost predicate Remembers(q: seq<nat>, slots: seq<nat>, savedQty: seq<nat>) {
    && |slots| == |savedQty|
    && forall j :: 0 <= j < |slots| ==>
         slots[j] < |q| && savedQty[j] == if slots[j] in slots[..j] then 0 else q[slots[j]]
  }

  lemma RemembersMore(q: seq<nat>, l: nat, slots: seq<nat>, savedQty: seq<nat>)
    requires l < |q| && Remembers(q[l := 0], slots, savedQty)
    ensures Remembers(q, [l] + slots, [q[l]] + savedQty)
  {
    var s, v := [l] + slots, [q[l]] + savedQty;
    forall j | 0 <= j < |s| ensures s[j] < |q| && v[j] == if s[j] in s[..j] then 0 else q[s[j]] {
      if j > 0 { assert s[..j] == [l] + slots[..j - 1]; }
    }
  }

  /** k emptied exactly the elements it remembers. */
  ghost predicate TookAny(k: Taken, q: seq<nat>) {
    && |k.saved| == |k.savedQty| && (forall j :: 0 <= j < |k.saved| ==> -|q| <= k.saved[j] < |q|)
    && Emptied(k.q, q, Slots(|q|, k.saved)) && Remembers(q, Slots(|q|, k.saved), k.savedQty)
  }

  lemma TookAnyMore(k: Taken, q: seq<nat>, e: int)
    requires -|q| <= e < |q| && TookAny(k, q[Element(|q|, e) := 0])
    ensures TookAny(Taken(k.t, k.q, [e] + k.saved, [q[Element(|q|, e)]] + k.savedQty), q)
  {
    hide Emptied, Remembers, Element;
    var l := Element(|q|, e);
    var rest := Slots(|q|, k.saved);
    EmptiedMore(k.q, q, l, rest);
    RemembersMore(q, l, rest, k.savedQty);
    assert Slots(|q|, [e] + k.saved) == [l] + rest;
  }

  lemma {:induction false} TakeRemembers(t: seq<int>, q: seq<nat>, side: nat, m: nat)
    requires Shaped(t, q)
    ensures TookAny(Take(t, q, side, m), q)
    decreases m
  {
    if m > 0 && t[1] != NO_LEVEL {
      var e := t[1];
      var p: seq<nat> := q[Element(|q|, e) := 0];
      assert Shaped(t, p);
      hide Bubble, TookAny, Element, Shaped;
      TakeRemembers(Bubble(t, p, side, e), p, side, m - 1);
      TookAnyMore(Take(Bubble(t, p, side, e), p, side, m - 1), q, e);
    }
  }

  /** Each list element ends with what was put back last. */
  lemma {:induction false} PutBackLast(t: seq<int>, q: seq<nat>, side: nat, saved: seq<int>, savedQty: seq<nat>, l: nat)
    requires Shaped(t, q) && |saved| == |savedQty| && l < |q|
    requires forall j :: 0 <= j < |saved| ==> -|q| <= saved[j] < |q|
    ensures l !in Slots(|q|, saved) ==> PutBack(t, q, side, saved, savedQty).q[l] == q[l]
    ensures forall j :: 0 <= j < |saved| && Slots(|q|, saved)[j] == l && l !in Slots(|q|, saved)[j + 1..] ==>
              PutBack(t, q, side, saved, savedQty).q[l] == savedQty[j]
    decreases |saved|
  {
    if saved != [] {
      var slots := Slots(|q|, saved);
      var p: seq<nat> := q[slots[0] := savedQty[0]];
      assert Shaped(t, p);
      hide Bubble, Shaped;
      assert Slots(|q|, saved[1..]) == slots[1..] && slots == [slots[0]] + slots[1..];
      PutBackLast(Bubble(t, p, side, saved[0]), p, side, saved[1..], savedQty[1..], l);
      forall j | 0 <= j < |saved| && slots[j] == l && l !in slots[j + 1..]
        ensures PutBack(t, q, side, saved, savedQty).q[l] == savedQty[j] {
        if j > 0 { assert slots[1..][j - 1] == l && slots[1..][j..] == slots[j + 1..]; }
      }
    }
  }

  /** No list element is taken a second time after it held something. */
  ghost predicate TakenOnce(q: seq<nat>, k: Taken)
    requires |k.saved| == |k.savedQty| && forall j :: 0 <= j < |k.saved| ==> -|q| <= k.saved[j] < |q|
  {
    var slots := Slots(|q|, k.saved);
    forall i, j :: 0 <= i < j < |slots| && slots[i] == slots[j] ==> k.savedQty[i] == 0
  }

  /** What element l holds after its ladder was read: what was remembered when it was taken last. */
  lemma AfterAt(t: seq<int>, q: seq<nat>, side: nat, l: nat) returns (j: nat)
    requires Shaped(t, q) && l < |q|
    ensures var k := Take(t, q, side, 5);
            var slots := Slots(|q|, k.saved);
            if l in slots
            then j < |slots| && slots[j] == l && (forall i :: j < i < |slots| ==> slots[i] != l)
                 && AfterTop5(t, q, side).q[l] == k.savedQty[j]
            else AfterTop5(t, q, side).q[l] == q[l]
  {
    var k := Take(t, q, side, 5);
    var slots := Slots(|q|, k.saved);
    TakeRemembers(t, q, side, 5);
    hide Take, PutBack, Shaped, Remembers;
    PutBackLast(k.t, k.q, side, k.saved, k.savedQty, l);
    j := 0;
    if l in slots { j := LastOccurrence(slots, l); }
  }

  lemma KeptAt(q: seq<nat>, slots: seq<nat>, savedQty: seq<nat>, j: nat)
    requires Remembers(q, slots, savedQty) && j < |slots|
    requires forall i, n :: 0 <= i < n < |slots| && slots[i] == slots[n] ==> savedQty[i] == 0
    ensures savedQty[j] == q[slots[j]]
  {
    var i := FirstOccurrence(slots, slots[j]);
    if i < j { assert slots[..j][i] == slots[j]; }
  }

  lemma LostAt(q: seq<nat>, slots: seq<nat>, savedQty: seq<nat>, i: nat, j: nat)
    requires Remembers(q, slots, savedQty) && i < j < |slots| && slots[i] == slots[j] && savedQty[i] != 0
    ensures savedQty[j] != q[slots[j]]
  {
    assert slots[..j][i] == slots[j];
  }

  /** Whatever indices the tree has seen: reading the top five keeps the levels exactly when no list element is taken a
      second time after it held something. */
  lemma Top5Keeps(t: seq<int>, q: seq<nat>, side: nat)
    requires Shaped(t, q)
    ensures AfterTop5(t, q, side).q == q <==> TakenOnce(q, Take(t, q, side, 5))
  {
    var k := Take(t, q, side, 5);
    var slots := Slots(|q|, k.saved);
    TakeRemembers(t, q, side, 5);
    hide Take, AfterTop5, Shaped, Remembers, Slots, Emptied;
    if TakenOnce(q, k) {
      forall l | 0 <= l < |q| ensures AfterTop5(t, q, side).q[l] == q[l] {
        var j := AfterAt(t, q, side, l);
        if l in slots { KeptAt(q, slots, k.savedQty, j); }
      }
    } else {
      var i, n :| 0 <= i < n < |slots| && slots[i] == slots[n] && k.savedQty[i] != 0;
      var j := AfterAt(t, q, side, slots[i]);
      LostAt(q, slots, k.savedQty, i, j);
    }
  }

  // ---------- trees that have only seen levels ----------

  /** A climb over folds of the ladder ends in the tree of the ladder. */
  lemma {:induction false} ClimbFold(t: seq<int>, q: seq<nat>, side: nat, node: nat)
    requires IsLadder(q) && |t| == 2 * |q| && t[0] == NO_LEVEL && node < |q|
    requires forall k :: 1 <= k < 2 * |q| && (node == 0 || !OnPath(k, node)) ==> t[k] == Fold(q, side, k)
    ensures Climb(t, node, side) == TreeOf(q, side)
    decreases node
  {
    hide ChoosePreferred;
    if node > 0 {
      if OnPath(2 * node, node) { OnPathBelow(2 * node, node); }
      if OnPath(2 * node + 1, node) { OnPathBelow(2 * node + 1, node); }
      ClimbFold(t[node := ChoosePreferred(t[2 * node], t[2 * node + 1], side)], q, side, node / 2);
    }
  }

  lemma {:induction false} TreeOfShaped(q: seq<nat>, side: nat)
    requires IsLadder(q) && |q| >= 2
    ensures Shaped(TreeOf(q, side), q) && Near(TreeOf(q, side), q, side)
  {
    forall k | 1 <= k < 2 * |q|
      ensures Fold(q, side, k) == NO_LEVEL || Fold(q, side, k) < |q|
    {
      FoldIsLevel(q, side, k);
    }
    hide ChoosePreferred;
  }

  /** With its leaf written, the old ladder's tree is the new ladder's off the rest of the path. */
  lemma LeafWritten(q: seq<nat>, r: seq<nat>, side: nat, l: nat, k: nat)
    requires IsLadder(q) && |r| == |q| && l < |q| && forall i :: 0 <= i < |q| && i != l ==> r[i] == q[i]
    requires 1 <= k < 2 * |q| && !OnPath(k, (l + |q|) / 2)
    ensures TreeOf(q, side)[l + |q| := Entry(r, l)][k] == Fold(r, side, k)
  {
    if k != l + |q| {
      hide Fold;
      FoldFrame(q, r, side, l, k);
    }
  }

  /** Bubbling up from a level keeps the tree that of the ladder. */
  lemma BubbleExact(q: seq<nat>, r: seq<nat>, side: nat, l: nat)
    requires IsLadder(q) && |q| >= 2 && |r| == |q| && l < |q| && forall i :: 0 <= i < |q| && i != l ==> r[i] == q[i]
    ensures Shaped(TreeOf(q, side), r) && Bubble(TreeOf(q, side), r, side, l) == TreeOf(r, side)
  {
    var n := |q|;
    TreeOfShaped(q, side);
    assert Shaped(TreeOf(q, side), r) && TreeOf(q, side)[0] == NO_LEVEL;
    hide Fold, ChoosePreferred, OnPath, Entry, Climb, TreeOf, Near, Shaped;
    var u := TreeOf(q, side)[l + n := Entry(r, l)];
    forall k | 1 <= k < 2 * n && !OnPath(k, (l + n) / 2)
      ensures u[k] == Fold(r, side, k)
    {
      LeafWritten(q, r, side, l, k);
    }
    ClimbFold(u, r, side, (l + n) / 2);
  }

  lemma TakeUnfold(t: seq<int>, q: seq<nat>, side: nat, m: nat)
    requires Shaped(t, q)
    ensures m == 0 || t[1] == NO_LEVEL ==> Take(t, q, side, m) == Taken(t, q, [], [])
    ensures m > 0 && t[1] != NO_LEVEL ==>
              var p: seq<nat> := q[Element(|q|, t[1]) := 0];
              var k, r := Take(t, q, side, m), Take(Bubble(t, p, side, t[1]), p, side, m - 1);
              && k.t == r.t && k.q == r.q && k.saved == [t[1]] + r.saved
              && k.savedQty == [q[Element(|q|, t[1])]] + r.savedQty
  {
    hide Bubble;
  }

  lemma TopUnfold(q: seq<nat>, side: nat, m: nat)
    requires IsLadder(q)
    ensures m == 0 || Best(q, side) == NO_LEVEL ==> TopLevels(q, side, m) == []
    ensures m > 0 && Best(q, side) != NO_LEVEL ==>
              Best(q, side) < |q| &&
                TopLevels(q, side, m) == [Best(q, side)] + TopLevels(q[Best(q, side) := 0], side, m - 1)
  {
    FoldIsLevel(q, side, 1);
    hide Fold;
  }

  /** k is what taking the best m levels out of the ladder's own tree gives. */
  ghost predicate TookTop(k: Taken, q: seq<nat>, side: nat, m: nat) {
    IsLadder(q) && k.saved == TopLevels(q, side, m) && k.t == TreeOf(k.q, side)
  }

  lemma TookTopMore(k: Taken, q: seq<nat>, side: nat, m: nat)
    requires IsLadder(q) && m > 0 && Best(q, side) != NO_LEVEL && Best(q, side) < |q|
    requires TookTop(k, q[Best(q, side) := 0], side, m - 1)
    ensures forall savedQty :: TookTop(Taken(k.t, k.q, [Best(q, side)] + k.saved, savedQty), q, side, m)
  {
    TopUnfold(q, side, m);
    hide TopLevels, Best, TreeOf;
  }

  lemma RootIsEntry(q: seq<nat>, side: nat)
    requires IsLadder(q) && |q| >= 2
    ensures TreeOf(q, side)[1] == Best(q, side) && (Best(q, side) != NO_LEVEL ==> Best(q, side) < |q|)
  {
    FoldIsLevel(q, side, 1);
    hide Fold;
  }

  /** From the ladder's own tree, taking yields the ladder's top levels. */
  lemma {:induction false} TakeExact(q: seq<nat>, side: nat, m: nat)
    requires IsLadder(q) && |q| >= 2
    ensures Shaped(TreeOf(q, side), q) && TookTop(Take(TreeOf(q, side), q, side, m), q, side, m)
    decreases m, 1
  {
    var e := Best(q, side);
    TreeOfShaped(q, side);
    RootIsEntry(q, side);
    TakeUnfold(TreeOf(q, side), q, side, m);
    if m > 0 && e != NO_LEVEL {
      assert Element(|q|, e) == e;
      hide *;
      TakeExactMore(q, side, m);
    } else {
      TopUnfold(q, side, m);
      hide Near, Shaped, Fold, TreeOf, Best, TopLevels;
    }
  }

  lemma {:induction false} TakeExactMore(q: seq<nat>, side: nat, m: nat)
    requires IsLadder(q) && |q| >= 2 && m > 0 && Best(q, side) != NO_LEVEL
    ensures Shaped(TreeOf(q, side), q) && TookTop(Take(TreeOf(q, side), q, side, m), q, side, m)
    decreases m, 0
  {
    hide Near, Fold, ChoosePreferred, Entry, Local, TreeOf, Bubble, Take, TopLevels;
    var e, t := Best(q, side), TreeOf(q, side);
    TreeOfShaped(q, side);
    RootIsEntry(q, side);
    var p: seq<nat> := q[e := 0];
    BubbleExact(q, p, side, e);
    TakeUnfold(t, q, side, m);
    assert Element(|q|, e) == e && IsLadder(p);
    hide *;
    TakeExact(p, side, m - 1);
    TookTopMore(Take(TreeOf(p, side), p, side, m - 1), q, side, m);
  }

  lemma {:induction false} PutBackExact(q: seq<nat>, side: nat, saved: seq<int>, savedQty: seq<nat>)
    requires IsLadder(q) && |q| >= 2 && |saved| == |savedQty| && forall j :: 0 <= j < |saved| ==> 0 <= saved[j] < |q|
    ensures Shaped(TreeOf(q, side), q)
    ensures var r := PutBack(TreeOf(q, side), q, side, saved, savedQty); r.t == TreeOf(r.q, side)
    decreases |saved|
  {
    TreeOfShaped(q, side);
    if saved != [] {
      BubbleExact(q, q[saved[0] := savedQty[0]], side, saved[0]);
      hide Near, TreeOf, Bubble;
      PutBackExact(q[saved[0] := savedQty[0]], side, saved[1..], savedQty[1..]);
    }
  }

  // ---------- what is published ----------

  /** A negative index has a price below the ladder. */
  function PriceAt(minPrice: nat, tickSize: nat, idx: int): int {
    minPrice + idx * tickSize
  }

  /** The published prices, padded with the worst one. */
  function Top5Prices(t: seq<int>, q: seq<nat>, side: nat, minPrice: nat, tickSize: nat): (p: seq<int>)
    requires Shaped(t, q)
    ensures |p| == 5
  {
    var saved := Take(t, q, side, 5).saved;
    seq(5, i requires 0 <= i < 5 => PriceAt(minPrice, tickSize,
      if i < |saved| then saved[i] else WorstLevel(|q|, side)))
  }

  function Top5Quantities(t: seq<int>, q: seq<nat>, side: nat): (r: seq<nat>)
    requires Shaped(t, q)
    ensures |r| == 5
  {
    var k := Take(t, q, side, 5);
    seq(5, i requires 0 <= i < 5 => if i < |k.savedQty| then k.savedQty[i] else 1)
  }

  /** What is taken from the ladder's own tree: its top five, with what they hold. */
  lemma TakenTop(q: seq<nat>, side: nat)
    requires IsLadder(q) && |q| >= 2
    ensures var t := TreeOf(q, side);
            && Shaped(t, q)
            && var k := Take(t, q, side, 5);
               && k.saved == TopLevels(q, side, 5) && k.t == TreeOf(k.q, side) && |k.savedQty| == |k.saved|
               && forall j :: 0 <= j < |k.saved| ==> 0 <= k.saved[j] < |q| && k.savedQty[j] == q[k.saved[j]]
  {
    var t := TreeOf(q, side);
    TreeOfShaped(q, side);
    TopLevelsAreTop(q, side, 5);
    hide Near, Fold, TreeOf, Shaped;
    TakeExact(q, side, 5);
    TakeNear(t, q, side, 5, false);
    var k := Take(t, q, side, 5);
    assert TookTop(k, q, side, 5);
    hide Take, Emptied, Distinct, TopLevels;
    forall j | 0 <= j < |k.saved| ensures 0 <= k.saved[j] < |q| && k.savedQty[j] == q[k.saved[j]] {
      assert TookAt(q, k.saved[j], k.savedQty[j], false);
    }
  }

  lemma PriceOfLevel(minPrice: nat, tickSize: nat, l: nat)
    ensures PriceAt(minPrice, tickSize, l) == LevelPrice(minPrice, tickSize, l)
  {
  }

  lemma PricesExact(q: seq<nat>, side: nat, minPrice: nat, tickSize: nat)
    requires IsLadder(q) && |q| >= 2
    ensures Shaped(TreeOf(q, side), q)
    ensures Top5Prices(TreeOf(q, side), q, side, minPrice, tickSize) == TopPrices(q, side, minPrice, tickSize)
  {
    TakenTop(q, side);
    var saved := Take(TreeOf(q, side), q, side, 5).saved;
    hide Take, TopLevels, TreeOf, Shaped, PriceAt, LevelPrice;
    var p, r := Top5Prices(TreeOf(q, side), q, side, minPrice, tickSize), TopPrices(q, side, minPrice, tickSize);
    forall i | 0 <= i < 5 ensures p[i] == r[i] {
      PriceOfLevel(minPrice, tickSize, if i < |saved| then saved[i] else WorstLevel(|q|, side));
    }
  }

  lemma QuantitiesExact(q: seq<nat>, side: nat)
    requires IsLadder(q) && |q| >= 2
    ensures Shaped(TreeOf(q, side), q) && Top5Quantities(TreeOf(q, side), q, side) == TopQuantities(q, side)
  {
    TakenTop(q, side);
    hide Take, TopLevels, TreeOf, Shaped;
    var p, r := Top5Quantities(TreeOf(q, side), q, side), TopQuantities(q, side);
    forall i | 0 <= i < 5 ensures p[i] == r[i] {}
  }

  /** On a tree that has only seen levels: the ladder's top five, with ladder and tree as they were. */
  lemma Top5Exact(q: seq<nat>, side: nat, minPrice: nat, tickSize: nat)
    requires IsLadder(q) && |q| >= 2
    ensures var t := TreeOf(q, side);
            && Shaped(t, q) && AfterTop5(t, q, side) == Ladder(t, q)
            && Top5Prices(t, q, side, minPrice, tickSize) == TopPrices(q, side, minPrice, tickSize)
            && Top5Quantities(t, q, side) == TopQuantities(q, side)
  {
    PricesExact(q, side, minPrice, tickSize);
    QuantitiesExact(q, side);
    TreeOfShaped(q, side);
    TakenTop(q, side);
    Top5Near(TreeOf(q, side), q, side);
    hide Near, Shaped, TreeOf, TopLevels, Take, Top5Prices, TopPrices, Top5Quantities, TopQuantities;
    var k := Take(TreeOf(q, side), q, side, 5);
    PutBackExact(k.q, side, k.saved, k.savedQty);
    hide PutBack;
  }

  // ---------- a snapshot that loses shares ----------

  /** Climbing over values that only differ from a local tree on the path restores that tree. */
  lemma {:induction false} ClimbDetermined(t: seq<int>, u: seq<int>, node: nat, side: nat)
    requires |t| == |u| && 2 * node + 1 < |t|
    requires forall k :: 0 <= k < |t| && (k == 0 || node == 0 || !OnPath(k, node)) ==> t[k] == u[k]
    requires forall k :: 1 <= k && 2 * k + 1 < |u| ==> Local(u, k, side)
    ensures Climb(t, node, side) == u
    decreases node
  {
    hide ChoosePreferred;
    if node > 0 {
      if OnPath(2 * node, node) { OnPathBelow(2 * node, node); }
      if OnPath(2 * node + 1, node) { OnPathBelow(2 * node + 1, node); }
      assert Local(u, node, side);
      ClimbDetermined(t[node := ChoosePreferred(t[2 * node], t[2 * node + 1], side)], u, node / 2, side);
    }
  }

  /** On the ask side an entry that nothing undercuts climbs to the root. */
  lemma {:induction false} ClimbLowest(t: seq<int>, node: nat, e: int)
    requires 1 <= node && 2 * node + 1 < |t| && e < 0
    requires forall k :: 0 <= k < |t| ==> t[k] == NO_LEVEL || t[k] >= e
    requires t[2 * node] == e || t[2 * node + 1] == e
    ensures Climb(t, node, SIDE_ASK)[1] == e
    decreases node
  {
    var u := t[node := ChoosePreferred(t[2 * node], t[2 * node + 1], SIDE_ASK)];
    assert u[node] == e;
    if node > 1 { ClimbLowest(u, node / 2, e); }
  }

  function ZeroLadder(n: nat): (z: seq<nat>)
    ensures |z| == n && forall l :: 0 <= l < n ==> z[l] == 0
  {
    seq(n, _ => 0)
  }

  lemma ZerosTree(n: nat)
    requires 2 <= n < 0x8000_0000
    ensures var z := ZeroLadder(n); Shaped(TreeOf(z, SIDE_ASK), z) && TreeOf(z, SIDE_ASK)[1] == NO_LEVEL
  {
    var z := ZeroLadder(n);
    TreeOfShaped(z, SIDE_ASK);
    EmptyFold(z, SIDE_ASK, 1);
    hide Near, Fold;
  }

  /** The tree when only level n - 2 holds something: nothing below node n - 2, and that level at the root. */
  lemma OneLevelTree(n: nat, x: nat)
    requires 4 <= n < 0x8000_0000 && x > 0
    ensures var q: seq<nat> := ZeroLadder(n)[n - 2 := x];
            TreeOf(q, SIDE_ASK)[n - 2] == NO_LEVEL && TreeOf(q, SIDE_ASK)[1] == n - 2
  {
    var q: seq<nat> := ZeroLadder(n)[n - 2 := x];
    assert Fold(q, SIDE_ASK, 2 * (n - 2)) == NO_LEVEL && Fold(q, SIDE_ASK, 2 * (n - 2) + 1) == NO_LEVEL;
    assert Fold(q, SIDE_ASK, n - 2) == NO_LEVEL;
    RootIsBest(q, SIDE_ASK);
    hide Fold;
    assert IsBest(q, SIDE_ASK, n - 2);
    BestIsUnique(q, SIDE_ASK, Best(q, SIDE_ASK), n - 2);
  }

  lemma TreeEntries(q: seq<nat>, side: nat)
    requires IsLadder(q) && |q| >= 2
    ensures forall k :: 0 <= k < 2 * |q| ==> TreeOf(q, side)[k] == NO_LEVEL || TreeOf(q, side)[k] >= 0
    ensures forall k :: 1 <= k < |q| ==> Local(TreeOf(q, side), k, side)
  {
    forall k | 1 <= k < 2 * |q|
      ensures Fold(q, side, k) == NO_LEVEL || Fold(q, side, k) >= 0 { FoldIsLevel(q, side, k); }
    hide ChoosePreferred;
  }

  /** An entry -2 written over an empty inner node n - 2 climbs to the root; taken away again, it leaves the tree as it
      was. */
  lemma LowClimb(t: seq<int>, n: nat)
    requires 4 <= n && |t| == 2 * n && t[n - 2] == NO_LEVEL
    requires forall k :: 0 <= k < 2 * n ==> t[k] == NO_LEVEL || t[k] >= 0
    requires forall k :: 1 <= k < n ==> Local(t, k, SIDE_ASK)
    ensures var v := Climb(t[n - 2 := -2], (n - 2) / 2, SIDE_ASK);
            v[1] == -2 && Climb(v[n - 2 := NO_LEVEL], (n - 2) / 2, SIDE_ASK) == t
  {
    hide Climb, Local, OnPath;
    LowRises(t, n);
    LowUndone(t, n);
  }

  lemma LowRises(t: seq<int>, n: nat)
    requires 4 <= n && |t| == 2 * n && forall k :: 0 <= k < 2 * n ==> t[k] == NO_LEVEL || t[k] >= 0
    ensures Climb(t[n - 2 := -2], (n - 2) / 2, SIDE_ASK)[1] == -2
  {
    hide Climb;
    ClimbLowest(t[n - 2 := -2], (n - 2) / 2, -2);
  }

  lemma LowUndone(t: seq<int>, n: nat)
    requires 4 <= n && |t| == 2 * n && t[n - 2] == NO_LEVEL
    requires forall k :: 1 <= k < n ==> Local(t, k, SIDE_ASK)
    ensures Climb(Climb(t[n - 2 := -2], (n - 2) / 2, SIDE_ASK)[n - 2 := NO_LEVEL], (n - 2) / 2, SIDE_ASK) == t
  {
    hide Climb, Local, OnPath;
    var node, u := (n - 2) / 2, t[n - 2 := -2];
    var v := Climb(u, node, SIDE_ASK);
    ClimbFrameAll(u, node, SIDE_ASK);
    var w := v[n - 2 := NO_LEVEL];
    forall k | 0 <= k < |w| && (k == 0 || node == 0 || !OnPath(k, node)) ensures w[k] == t[k] {
      assert k != n - 2 ==> w[k] == v[k] == u[k];
    }
    ClimbDetermined(w, t, node, SIDE_ASK);
  }

  lemma ClimbFrameAll(t: seq<int>, node: nat, side: nat)
    requires 2 * node + 1 < |t|
    ensures forall k :: 0 <= k < |t| && (k == 0 || node == 0 || !OnPath(k, node)) ==> Climb(t, node, side)[k] == t[k]
  {
    if node > 0 {
      hide Climb, OnPath;
      forall k | 0 <= k < |t| && (k == 0 || !OnPath(k, node)) ensures Climb(t, node, side)[k] == t[k] {
        ClimbFrame(t, node, side, k);
      }
    }
  }

  /** Adding at index -2 puts -2 at the root and disturbs only the path above node n - 2. */
  lemma LowEntry(n: nat, x: nat, y: nat)
    requires 4 <= n < 0x8000_0000 && x > 0 && y > 0
    ensures var q: seq<nat>, r: seq<nat> := ZeroLadder(n)[n - 2 := x], ZeroLadder(n)[n - 2 := x + y];
            var t := TreeOf(q, SIDE_ASK);
            && Shaped(t, r) && Bubble(t, r, SIDE_ASK, -2)[1] == -2
            && Bubble(Bubble(t, r, SIDE_ASK, -2), ZeroLadder(n), SIDE_ASK, -2) == t
  {
    var z := ZeroLadder(n);
    var q: seq<nat>, r: seq<nat> := z[n - 2 := x], z[n - 2 := x + y];
    var t: seq<int> := TreeOf(q, SIDE_ASK);
    TreeOfShaped(q, SIDE_ASK);
    OneLevelTree(n, x);
    TreeEntries(q, SIDE_ASK);
    LowClimb(t, n);
    assert Shaped(t, r) && Entry(r, -2) == -2 && Entry(z, -2) == NO_LEVEL;
    hide TreeOf, Near, Climb, Local, Entry, Shaped;
    assert Bubble(t, r, SIDE_ASK, -2) == Climb(t[n - 2 := -2], (n - 2) / 2, SIDE_ASK);
  }

  /** Both -2 and the level it shares are taken, the second of them empty. */
  lemma TakenTwice(n: nat, x: nat, y: nat)
    requires 4 <= n < 0x8000_0000 && x > 0 && y > 0
    ensures var z := ZeroLadder(n);
            var q: seq<nat>, r: seq<nat> := z[n - 2 := x], z[n - 2 := x + y];
            && Shaped(TreeOf(q, SIDE_ASK), r)
            && var k := Take(Bubble(TreeOf(q, SIDE_ASK), r, SIDE_ASK, -2), r, SIDE_ASK, 5);
               k.saved == [-2, n - 2] && k.savedQty == [x + y, 0] && k.q == z
  {
    var z := ZeroLadder(n);
    var q: seq<nat>, r: seq<nat> := z[n - 2 := x], z[n - 2 := x + y];
    var t0 := TreeOf(q, SIDE_ASK);
    LowEntry(n, x, y);
    OneLevelTree(n, x);
    TreeOfShaped(q, SIDE_ASK);
    ZerosTree(n);
    BubbleExact(q, z, SIDE_ASK, n - 2);
    var t := Bubble(t0, r, SIDE_ASK, -2);
    TakeUnfold(t, r, SIDE_ASK, 5);
    TakeUnfold(t0, z, SIDE_ASK, 4);
    TakeUnfold(TreeOf(z, SIDE_ASK), z, SIDE_ASK, 3);
    assert r[n - 2 := 0] == z && z[n - 2 := 0] == z;
    assert Element(n, -2) == n - 2 && Element(n, n - 2) == n - 2;
    hide *;
  }

  lemma PutBackLosesFirst(t: seq<int>, z: seq<nat>, side: nat, a: nat)
    requires Shaped(t, z) && |z| >= 4
    ensures PutBack(t, z, side, [-2, |z| - 2], [a, 0]).q[|z| - 2] == 0
  {
    var n := |z|;
    var p: seq<nat> := z[n - 2 := a];
    var u := Bubble(t, p, side, -2);
    var qtys: seq<nat>, rest: seq<nat> := [a, 0], [0];
    hide Bubble;
    assert [-2, n - 2][1..] == [n - 2] && qtys[1..] == rest;
    assert PutBack(t, z, side, [-2, n - 2], qtys) == PutBack(u, p, side, [n - 2], rest);
    var o: seq<nat> := p[n - 2 := 0];
    assert PutBack(u, p, side, [n - 2], rest) == PutBack(Bubble(u, o, side, n - 2), o, side, [n - 2][1..], rest[1..]);
  }

  /** Put back in that order, the empty entry comes last. */
  lemma TwiceLoses(t: seq<int>, r: seq<nat>, z: seq<nat>, a: nat)
    requires Shaped(t, r) && |r| == |z| >= 4
    requires var k := Take(t, r, SIDE_ASK, 5); k.saved == [-2, |z| - 2] && k.savedQty == [a, 0] && k.q == z
    ensures AfterTop5(t, r, SIDE_ASK).q[|z| - 2] == 0
  {
    var k := Take(t, r, SIDE_ASK, 5);
    assert Shaped(k.t, z);
    hide Take, Shaped, PutBack;
    PutBackLosesFirst(k.t, z, SIDE_ASK, a);
  }

  /** Two ticks below the ladder a snapshot can lose everything at a level. */
  lemma SnapshotLoses(n: nat, x: nat, y: nat)
    requires 4 <= n < 0x8000_0000 && x > 0 && y > 0
    ensures var z := ZeroLadder(n);
            var q: seq<nat>, r: seq<nat> := z[n - 2 := x], z[n - 2 := x + y];
            && Shaped(TreeOf(z, SIDE_ASK), q) && Shaped(Bubble(TreeOf(z, SIDE_ASK), q, SIDE_ASK, n - 2), r)
            && var t := Bubble(Bubble(TreeOf(z, SIDE_ASK), q, SIDE_ASK, n - 2), r, SIDE_ASK, -2);
               AfterTop5(t, r, SIDE_ASK).q[n - 2] == 0
  {
    hide TreeOf, Bubble, Take, Shaped, AfterTop5, ZeroLadder, Element;
    var z := ZeroLadder(n);
    var q: seq<nat>, r: seq<nat> := z[n - 2 := x], z[n - 2 := x + y];
    BubbleExact(z, q, SIDE_ASK, n - 2);
    TakenTwice(n, x, y);
    TwiceLoses(Bubble(TreeOf(q, SIDE_ASK), r, SIDE_ASK, -2), r, z, x + y);
  }
}
