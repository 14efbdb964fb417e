/** One side of one stock: a price ladder indexed by an in-place segment tree. */
module TreeOrderBooks {
  import opened Words
  import opened SegmentTree

  /** A stretch of saved levels still to be put back is zero in the ladder, the rest is as before. */
  ghost predicate Emptied(q: seq<nat>, q0: seq<nat>, out: seq<nat>) {
    |q| == |q0| && forall l :: 0 <= l < |q| ==> q[l] == if l in out then 0 else q0[l]
  }

  ghost predicate Distinct(s: seq<nat>) {
    forall i, j :: 0 <= i < j < |s| ==> s[i] != s[j]
  }

  /** Taking out the best levels of q0: saved is out, q is what is left, m more may be taken. */
  ghost predicate Taking(q0: seq<nat>, q: seq<nat>, side: nat, saved: seq<nat>, m: nat) {
    && IsLadder(q0) && Emptied(q, q0, saved) && Distinct(saved)
    && TopLevels(q0, side, |saved| + m) == saved + TopLevels(q, side, m)
  }

  lemma TakeStep(q0: seq<nat>, q: seq<nat>, side: nat, saved: seq<nat>, m: nat)
    requires Taking(q0, q, side, saved, m) && m > 0 && Best(q, side) != NO_LEVEL
    ensures Best(q, side) < |q| && q[Best(q, side)] == q0[Best(q, side)]
    ensures Taking(q0, q[Best(q, side) := 0], side, saved + [Best(q, side)], m - 1)
  {
    FoldIsLevel(q, side, 1);
    var best := Best(q, side);
    assert best !in saved;
    assert TopLevels(q, side, m) == [best] + TopLevels(q[best := 0], side, m - 1);
    assert saved + ([best] + TopLevels(q[best := 0], side, m - 1)) == (saved + [best]) +
      TopLevels(q[best := 0], side, m - 1);
  }

  lemma TakeStart(q0: seq<nat>, side: nat, m: nat)
    requires IsLadder(q0)
    ensures Taking(q0, q0, side, [], m)
  {
    hide TopLevels;
    assert [] + TopLevels(q0, side, m) == TopLevels(q0, side, m);
  }

  lemma TakeDone(q0: seq<nat>, q: seq<nat>, side: nat, saved: seq<nat>, m: nat)
    requires Taking(q0, q, side, saved, m) && (m == 0 || Best(q, side) == NO_LEVEL)
    ensures saved == TopLevels(q0, side, |saved| + m)
  {
    assert TopLevels(q, side, m) == [];
  }

  class TreeOrderBook {
    const minPrice: nat
    const tickSize: nat
    const side: nat
    const levels: array<nat>   // quantity at each price level
    const tree: array<nat>     // best level below each node

    /** What never changes: the array sizes, and a top price that fits in a word. */
    ghost predicate Shaped() {
      && 1 <= levels.Length < 0x8000_0000
      && tree.Length == 2 * levels.Length
      && levels != tree
      && tickSize > 0
      && minPrice + (levels.Length - 1) * tickSize < WORD
    }

    ghost predicate Valid()
      reads tree, levels
    {
      Shaped() && tree[..] == TreeOf(levels[..], side)
    }

    constructor (minPrice: nat, tickSize: nat, side: nat, n: nat)
      requires 1 <= n < 0x8000_0000 && tickSize > 0
      requires minPrice + (n - 1) * tickSize < WORD
      ensures Valid() && fresh(levels) && fresh(tree)
      ensures this.minPrice == minPrice && this.tickSize == tickSize && this.side == side
      ensures levels[..] == seq(n, _ => 0)
    {
      this.minPrice, this.tickSize, this.side := minPrice, tickSize, side;
      levels, tree := new nat[n], new nat[2 * n];
      new;
      for i := 0 to 2 * n
        invariant forall k :: 0 <= k < i ==> tree[k] == NO_LEVEL
      {
        tree[i] := NO_LEVEL;
      }
      for i := 0 to n
        invariant forall k :: 0 <= k < i ==> levels[k] == 0
        invariant forall k :: 0 <= k < 2 * n ==> tree[k] == NO_LEVEL
      {
        levels[i] := 0;
      }
      forall k | 1 <= k < 2 * n
        ensures Fold(levels[..], side, k) == NO_LEVEL
      {
        EmptyFold(levels[..], side, k);
      }
    }

    /** The word arithmetic of the hardware; the guarantee is that it never wraps on a level. */
    function IndexToPrice(idx: nat): (p: nat)
      requires Shaped() && idx < levels.Length
      ensures p == LevelPrice(minPrice, tickSize, idx)
    {
      assert idx * tickSize <= (levels.Length - 1) * tickSize by { MulMono(idx, levels.Length - 1, tickSize); }
      (minPrice + idx * tickSize) % WORD
    }

    /** Rebuild the tree after the quantity at one level changed. */
    method BubbleUp(leaf: nat)
      requires Shaped() && leaf < levels.Length
      requires tree[0] == NO_LEVEL
      requires forall k :: 1 <= k < tree.Length && !OnPath(k, leaf + levels.Length) ==>
          tree[k] == Fold(levels[..], side, k)
      modifies tree
      ensures Valid()
    {
      hide ChoosePreferred;
      ghost var q := levels[..];
      var n := levels.Length;
      var node: nat := leaf + n;
      tree[node] := if levels[leaf] > 0 then leaf else NO_LEVEL;
      node := node / 2;
      while node > 0
        invariant node < n && tree[0] == NO_LEVEL
        invariant forall k :: 1 <= k < 2 * n && (node == 0 || !OnPath(k, node)) ==> tree[k] == Fold(q, side, k)
      {
        OffPathUp(node, node);
        var left := tree[2 * node];
        var right := tree[2 * node + 1];
        assert left == Fold(q, side, 2 * node) && right == Fold(q, side, 2 * node + 1);
        tree[node] := ChoosePreferred(left, right, side);
        forall k | 1 <= k < 2 * n && (node == 1 || !OnPath(k, node / 2)) ensures tree[k] == Fold(q, side, k) {
          OffPathUp(k, node);
        }
        node := node / 2;
      }
    }

    /** Write one level of the ladder and bring the tree up to date. */
    method SetLevel(leaf: nat, v: nat)
      requires Valid() && leaf < levels.Length
      modifies levels, tree
      ensures Valid() && levels[..] == old(levels[..])[leaf := v]
    {
      ghost var q := levels[..];
      levels[leaf] := v;
      forall k | 1 <= k < tree.Length && !OnPath(k, leaf + levels.Length)
        ensures tree[k] == Fold(levels[..], side, k)
      {
        FoldFrame(q, levels[..], side, leaf, k);
        assert tree[k] == tree[..][k];
      }
      assert tree[0] == tree[..][0];
      BubbleUp(leaf);
    }

    /** Take the best level out until five are taken or none is left. */
    method TakeTop5() returns (saved: seq<nat>, savedQty: seq<nat>)
      requires Valid()
      modifies levels, tree
      ensures Valid()
      ensures saved == TopLevels(old(levels[..]), side, 5) && Distinct(saved)
      ensures Emptied(levels[..], old(levels[..]), saved)
      ensures |savedQty| == |saved|
      ensures forall j :: 0 <= j < |saved| ==> saved[j] < levels.Length && savedQty[j] == old(levels[..])[saved[j]]
    {
      hide TopLevels, Emptied, Distinct, Fold;
      ghost var q0 := levels[..];
      saved, savedQty := [], [];
      TakeStart(q0, side, 5);
      var i := 0;
      while i < 5
        invariant 0 <= i <= 5 && |saved| == |savedQty| == i && Valid()
        invariant Taking(q0, levels[..], side, saved, 5 - i)
        invariant forall j :: 0 <= j < |saved| ==> saved[j] < levels.Length && savedQty[j] == q0[saved[j]]
      {
        var best := tree[1];
        assert best == tree[..][1] == Best(levels[..], side);
        if best == NO_LEVEL { break; }
        TakeStep(q0, levels[..], side, saved, 5 - i);
        saved, savedQty := saved + [best], savedQty + [levels[best]];
        SetLevel(best, 0);
        i := i + 1;
      }
      TakeDone(q0, levels[..], side, saved, 5 - i);
    }

    /** Put saved levels back, one by one. */
    method PutBack(saved: seq<nat>, savedQty: seq<nat>, ghost q0: seq<nat>)
      requires Valid() && Distinct(saved) && |savedQty| == |saved|
      requires Emptied(levels[..], q0, saved)
      requires forall j :: 0 <= j < |saved| ==> saved[j] < levels.Length && savedQty[j] == q0[saved[j]]
      modifies levels, tree
      ensures Valid() && levels[..] == q0
    {
      var i := 0;
      while i < |saved|
        invariant 0 <= i <= |saved| && Valid()
        invariant Emptied(levels[..], q0, saved[i..])
      {
        assert saved[i..] == [saved[i]] + saved[i + 1..];
        SetLevel(saved[i], savedQty[i]);
        i := i + 1;
      }
    }

    /** The five best levels, found by taking the best level out five times and putting all back. */
    method GetTop5() returns (prices: seq<nat>, qtys: seq<nat>)
      requires Valid()
      modifies levels, tree
      ensures Valid() && levels[..] == old(levels[..]) && tree[..] == old(tree[..])
      ensures prices == TopPrices(old(levels[..]), side, minPrice, tickSize)
      ensures qtys == TopQuantities(old(levels[..]), side)
    {
      hide Fold, TreeOf, TopLevels, IsTop, Emptied;
      ghost var q0 := levels[..];
      var saved, savedQty := TakeTop5();
      PutBack(saved, savedQty, q0);
      prices, qtys := [], [];
      var i := 0;
      while i < 5
        invariant 0 <= i <= 5 && |prices| == |qtys| == i
        invariant prices == TopPrices(q0, side, minPrice, tickSize)[..i]
        invariant qtys == TopQuantities(q0, side)[..i]
      {
        var worst := if side == SIDE_BID then IndexToPrice(0) else IndexToPrice(levels.Length - 1);
        prices := prices + [if i < |saved| then IndexToPrice(saved[i]) else worst];
        qtys := qtys + [if i < |saved| then savedQty[i] else 1];
        i := i + 1;
      }
    }
  }

  lemma MulMono(a: nat, b: nat, c: nat)
    requires a <= b
    ensures a * c <= b * c
  {
  }

  /** The level the padding of a short list names: the worst one of that side. */
  function WorstLevel(n: nat, side: nat): nat
    requires n > 0
  {
    if side == SIDE_BID then 0 else n - 1
  }

  function LevelPrice(minPrice: nat, tickSize: nat, idx: nat): nat {
    MulMono(0, idx, tickSize);
    minPrice + idx * tickSize
  }

  /** Published prices: those of the best five levels, padded with the worst price. */
  ghost function TopPrices(q: seq<nat>, side: nat, minPrice: nat, tickSize: nat): (p: seq<nat>)
    requires IsLadder(q)
    ensures |p| == 5
  {
    var t := TopLevels(q, side, 5);
    seq<nat>(5, i requires 0 <= i < 5 =>
      LevelPrice(minPrice, tickSize, if i < |t| then t[i] else WorstLevel(|q|, side)))
  }

  /** Published quantities: those resting at the best five levels, padded with 1. */
  ghost function TopQuantities(q: seq<nat>, side: nat): (r: seq<nat>)
    requires IsLadder(q)
    ensures |r| == 5
  {
    TopLevelsAreTop(q, side, 5);
    var t := TopLevels(q, side, 5);
    seq(5, i requires 0 <= i < 5 => if i < |t| then q[t[i]] else 1)
  }
}
