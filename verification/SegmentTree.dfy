/** What the segment tree over a price ladder must hold, as a function of the ladder alone. */
module SegmentTree {
  import opened Words

  /** Preference between two tree entries: higher level for bids, lower for asks, any level over none. */
  function ChoosePreferred(a: int, b: int, side: nat): (c: int)
    ensures c == a || c == b
  {
    if a == NO_LEVEL then b
    else if b == NO_LEVEL then a
    else if side == SIDE_BID then (if a > b then a else b)
    else if a < b then a else b
  }

  /** A ladder: the quantity resting at each level. */
  ghost predicate IsLadder(q: seq<nat>) {
    1 <= |q| < 0x8000_0000
  }

  /** The entry that node k of the tree must hold; the leaf of level l is node |q| + l. */
  ghost function Fold(q: seq<nat>, side: nat, k: nat): nat
    requires 1 <= k < 2 * |q|
    decreases 2 * |q| - k
  {
    if k >= |q| then (if q[k - |q|] > 0 then k - |q| else NO_LEVEL)
    else ChoosePreferred(Fold(q, side, 2 * k), Fold(q, side, 2 * k + 1), side)
  }

  /** The whole tree of a ladder; node 0 is never written. */
  ghost function TreeOf(q: seq<nat>, side: nat): (t: seq<nat>)
    ensures |t| == 2 * |q|
  {
    seq(2 * |q|, k requires 0 <= k < 2 * |q| => if k == 0 then NO_LEVEL else Fold(q, side, k))
  }

  ghost function Best(q: seq<nat>, side: nat): nat
    requires IsLadder(q)
  {
    Fold(q, side, 1)
  }

  /** Level a is strictly preferred to level b. */
  predicate Better(side: nat, a: nat, b: nat) {
    if side == SIDE_BID then a > b else a < b
  }

  /** Entry a is at least as good as entry b. */
  predicate Covers(side: nat, a: nat, b: nat) {
    b == NO_LEVEL || (a != NO_LEVEL && (a == b || Better(side, a, b)))
  }

  /** r is the best non-empty level of the ladder, or NO_LEVEL when the ladder is empty. */
  ghost predicate IsBest(q: seq<nat>, side: nat, r: nat) {
    && (r != NO_LEVEL ==> r < |q| && q[r] > 0)
    && forall l :: 0 <= l < |q| && q[l] > 0 ==> Covers(side, r, l)
  }

  lemma {:induction false} FoldIsLevel(q: seq<nat>, side: nat, k: nat)
    requires IsLadder(q) && 1 <= k < 2 * |q|
    ensures Fold(q, side, k) == NO_LEVEL || (Fold(q, side, k) < |q| && q[Fold(q, side, k)] > 0)
    decreases 2 * |q| - k
  {
    if k < |q| {
      FoldIsLevel(q, side, 2 * k);
      FoldIsLevel(q, side, 2 * k + 1);
    }
  }

  /** The root is at least as good as every node below it, for any number of levels. */
  lemma {:induction false} RootCovers(q: seq<nat>, side: nat, k: nat)
    requires IsLadder(q) && 1 <= k < 2 * |q|
    ensures Covers(side, Best(q, side), Fold(q, side, k))
    decreases k
  {
    if k > 1 {
      var parent := k / 2;
      RootCovers(q, side, parent);
      assert k == 2 * parent || k == 2 * parent + 1;
      assert Covers(side, Fold(q, side, parent), Fold(q, side, k));
    }
  }

  /** Node 1 is the best non-empty level. */
  lemma {:induction false} RootIsBest(q: seq<nat>, side: nat)
    requires IsLadder(q)
    ensures IsBest(q, side, Best(q, side))
  {
    FoldIsLevel(q, side, 1);
    forall l | 0 <= l < |q| && q[l] > 0
      ensures Covers(side, Best(q, side), l)
    {
      RootCovers(q, side, |q| + l);
    }
  }

  lemma BestIsUnique(q: seq<nat>, side: nat, a: nat, b: nat)
    requires IsLadder(q) && IsBest(q, side, a) && IsBest(q, side, b)
    ensures a == b
  {
    if a != NO_LEVEL { assert Covers(side, b, a); }
    if b != NO_LEVEL { assert Covers(side, a, b); }
  }

  /** An empty ladder has an empty tree. */
  lemma {:induction false} EmptyFold(q: seq<nat>, side: nat, k: nat)
    requires 1 <= k < 2 * |q|
    requires forall l :: 0 <= l < |q| ==> q[l] == 0
    ensures Fold(q, side, k) == NO_LEVEL
    decreases 2 * |q| - k
  {
    if k < |q| {
      EmptyFold(q, side, 2 * k);
      EmptyFold(q, side, 2 * k + 1);
    }
  }

  /** Node a is node m or one of its ancestors: the nodes a walk from m up to the root visits. */
  predicate OnPath(a: nat, m: nat) {
    a == m || (m > 1 && OnPath(a, m / 2))
  }

  lemma {:induction false} OnPathBelow(a: nat, m: nat)
    requires OnPath(a, m)
    ensures a <= m
    decreases m
  {
    if a != m { OnPathBelow(a, m / 2); }
  }

  lemma {:induction false} ParentOnPath(a: nat, m: nat)
    requires a >= 2 && OnPath(a, m)
    ensures OnPath(a / 2, m)
    decreases m
  {
    if a != m { ParentOnPath(a, m / 2); }
  }

  /** Going one node up the path. */
  lemma OffPathUp(k: nat, node: nat)
    requires node >= 1 && k >= 1
    ensures (node == 1 || !OnPath(k, node / 2)) ==> k == node || !OnPath(k, node)
    ensures !OnPath(2 * node, node) && !OnPath(2 * node + 1, node)
  {
    if OnPath(2 * node, node) { OnPathBelow(2 * node, node); }
    if OnPath(2 * node + 1, node) { OnPathBelow(2 * node + 1, node); }
  }

  /** A node off the path has no child on it. */
  lemma ChildOffPath(k: nat, node: nat)
    requires k >= 1 && !OnPath(k, node)
    ensures !OnPath(2 * k, node) && !OnPath(2 * k + 1, node)
  {
    if OnPath(2 * k, node) { ParentOnPath(2 * k, node); }
    if OnPath(2 * k + 1, node) { ParentOnPath(2 * k + 1, node); }
  }

  /** Changing one level leaves every node off that level's path as it was. */
  lemma {:induction false} FoldFrame(q: seq<nat>, r: seq<nat>, side: nat, leaf: nat, k: nat)
    requires |r| == |q| && leaf < |q| && 1 <= k < 2 * |q|
    requires forall l :: 0 <= l < |q| && l != leaf ==> r[l] == q[l]
    requires !OnPath(k, leaf + |q|)
    ensures Fold(r, side, k) == Fold(q, side, k)
    decreases 2 * |q| - k
  {
    if k < |q| {
      ChildOffPath(k, leaf + |q|);
      hide ChoosePreferred, OnPath;
      FoldFrame(q, r, side, leaf, 2 * k);
      FoldFrame(q, r, side, leaf, 2 * k + 1);
    }
  }

  /** The first m levels a repeated "take the best and empty it" yields. */
  ghost function TopLevels(q: seq<nat>, side: nat, m: nat): (t: seq<nat>)
    requires IsLadder(q)
    decreases m
  {
    if m == 0 || Best(q, side) == NO_LEVEL then []
    else
      FoldIsLevel(q, side, 1);
      [Best(q, side)] + TopLevels(q[Best(q, side) := 0], side, m - 1)
  }

  /** t lists exactly the m best non-empty levels (all of them when there are fewer), best first. */
  ghost predicate IsTop(q: seq<nat>, side: nat, m: nat, t: seq<nat>) {
    && |t| <= m
    && (forall i :: 0 <= i < |t| ==> t[i] < |q| && q[t[i]] > 0)
    && (forall i, j :: 0 <= i < j < |t| ==> Better(side, t[i], t[j]))
    && (forall l :: 0 <= l < |q| && q[l] > 0 ==>
          l in t || (|t| == m && forall i :: 0 <= i < |t| ==> Better(side, t[i], l)))
  }

  lemma {:induction false} TopLevelsAreTop(q: seq<nat>, side: nat, m: nat)
    requires IsLadder(q)
    ensures IsTop(q, side, m, TopLevels(q, side, m))
    decreases m
  {
    RootIsBest(q, side);
    var b := Best(q, side);
    if m > 0 && b != NO_LEVEL {
      var r := q[b := 0];
      TopLevelsAreTop(r, side, m - 1);
      var u := TopLevels(r, side, m - 1);
      var t := TopLevels(q, side, m);
      assert t == [b] + u;
      forall i | 0 <= i < |t|
        ensures t[i] < |q| && q[t[i]] > 0 && (i > 0 ==> Better(side, b, t[i]))
      {
        if i > 0 { assert t[i] == u[i - 1]; assert Covers(side, b, t[i]); }
      }
      forall l | 0 <= l < |q| && q[l] > 0
        ensures l in t || (|t| == m && forall i :: 0 <= i < |t| ==> Better(side, t[i], l))
      {
        if l != b {
          assert r[l] > 0 && Covers(side, b, l);
          if l in u { assert l in t; }
        }
      }
    }
  }

  /** Only one list can be the top m of a ladder. */
  lemma {:induction false} TopIsUnique(q: seq<nat>, side: nat, m: nat, s: seq<nat>, t: seq<nat>)
    requires IsLadder(q) && IsTop(q, side, m, s) && IsTop(q, side, m, t)
    ensures s == t
    decreases m
  {
    TopNonEmpty(q, side, m, s, t);
    TopNonEmpty(q, side, m, t, s);
    if s != [] {
      assert s[0] == t[0] by { HeadsAgree(q, side, m, s, t); HeadsAgree(q, side, m, t, s); }
      var r := q[s[0] := 0];
      TailIsTop(q, side, m, s);
      TailIsTop(q, side, m, t);
      TopIsUnique(r, side, m - 1, s[1..], t[1..]);
      assert s == [s[0]] + s[1..] && t == [t[0]] + t[1..];
    }
  }

  lemma TopNonEmpty(q: seq<nat>, side: nat, m: nat, s: seq<nat>, t: seq<nat>)
    requires IsTop(q, side, m, s) && IsTop(q, side, m, t)
    ensures s != [] ==> t != []
  {
    if s != [] { assert q[s[0]] > 0; }
  }

  lemma HeadsAgree(q: seq<nat>, side: nat, m: nat, s: seq<nat>, t: seq<nat>)
    requires IsTop(q, side, m, s) && IsTop(q, side, m, t) && s != [] && t != []
    ensures s[0] == t[0] || Better(side, s[0], t[0])
  {
    assert q[t[0]] > 0;
    if t[0] in s {
      var i :| 0 <= i < |s| && s[i] == t[0];
      if i > 0 { assert Better(side, s[0], s[i]); }
    }
  }

  lemma TailIsTop(q: seq<nat>, side: nat, m: nat, t: seq<nat>)
    requires IsTop(q, side, m, t) && t != []
    ensures IsTop(q[t[0] := 0], side, m - 1, t[1..])
  {
    var r, u := q[t[0] := 0], t[1..];
    forall i | 0 <= i < |u| ensures u[i] < |r| && r[u[i]] > 0 {
      assert u[i] == t[i + 1] && Better(side, t[0], t[i + 1]);
    }
    forall l | 0 <= l < |r| && r[l] > 0
      ensures l in u || (|u| == m - 1 && forall i :: 0 <= i < |u| ==> Better(side, u[i], l))
    {
      assert q[l] > 0;
      if l in t {
        var i :| 0 <= i < |t| && t[i] == l;
        assert i > 0 && u[i - 1] == l;
      }
    }
  }
}
