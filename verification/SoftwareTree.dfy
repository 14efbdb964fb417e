/** The software's segment tree as an object. */
module SoftwareTrees {
  import opened Words
  import opened SegmentTree
  import opened TreeOrderBooks
  import opened SoftwareLadders

  lemma ShapedRoot(t: seq<int>, q: seq<nat>)
    requires Shaped(t, q)
    ensures |q| >= 2 && |t| >= 4 && (t[1] == NO_LEVEL || -|q| <= t[1] < |q|)
  {
  }

  /** k is what was saved so far followed by what r still takes. */
  ghost predicate JoinsTo(k: Taken, r: Taken, saved: seq<int>, savedQty: seq<nat>) {
    k.t == r.t && k.q == r.q && k.saved == saved + r.saved && k.savedQty == savedQty + r.savedQty
  }

  lemma JoinOne(k: Taken, was: Taken, r: Taken, saved: seq<int>, savedQty: seq<nat>, e: int, qty: nat)
    requires JoinsTo(k, was, saved, savedQty) && was == Taken(r.t, r.q, [e] + r.saved, [qty] + r.savedQty)
    ensures JoinsTo(k, r, saved + [e], savedQty + [qty])
  {
  }

  class SoftwareTree {
    const minPrice: nat
    const tickSize: nat
    const side: nat
    var priceQuantity: seq<nat>
    var segmentTree: seq<int>

    ghost predicate Valid()
      reads this
    {
      Shaped(segmentTree, priceQuantity)
    }

    constructor (minPrice: nat, tickSize: nat, side: nat, n: nat)
      requires 2 <= n < 0x8000_0000
      ensures Valid() && this.minPrice == minPrice && this.tickSize == tickSize && this.side == side
      ensures priceQuantity == seq(n, _ => 0) && segmentTree == seq(2 * n, _ => NO_LEVEL)
    {
      this.minPrice, this.tickSize, this.side := minPrice, tickSize, side;
      segmentTree := seq(2 * n, _ => NO_LEVEL);
      priceQuantity := seq(n, _ => 0);
    }

    method BubbleUp(idx: int)
      requires Valid() && -|priceQuantity| <= idx < |priceQuantity|
      modifies this`segmentTree
      ensures Valid() && segmentTree == Bubble(old(segmentTree), priceQuantity, side, idx)
    {
      hide ChoosePreferred;
      var n := |priceQuantity|;
      ghost var goal := Bubble(segmentTree, priceQuantity, side, idx);
      var node: nat := idx + n;
      segmentTree := segmentTree[node := if priceQuantity[Element(n, idx)] > 0 then idx else NO_LEVEL];
      node := node / 2;
      while node > 0
        invariant node < n && |segmentTree| == 2 * n
        invariant Climb(segmentTree, node, side) == goal
      {
        var left, right := segmentTree[2 * node], segmentTree[2 * node + 1];
        segmentTree := segmentTree[node := ChoosePreferred(left, right, side)];
        node := node / 2;
      }
    }

    /** Write one list element and bubble up from the index it was reached by. */
    method SetAt(idx: int, v: nat)
      requires Valid() && -|priceQuantity| <= idx < |priceQuantity|
      modifies this
      ensures Valid() && priceQuantity == old(priceQuantity)[Element(|old(priceQuantity)|, idx) := v]
      ensures segmentTree == Bubble(old(segmentTree), priceQuantity, side, idx)
    {
      priceQuantity := priceQuantity[Element(|priceQuantity|, idx) := v];
      BubbleUp(idx);
    }

    method AddQuantityAt(idx: int, quantity: nat)
      requires Valid() && -|priceQuantity| <= idx < |priceQuantity|
      modifies this
      ensures Valid()
      ensures var l := Element(|old(priceQuantity)|, idx);
              priceQuantity == old(priceQuantity)[l := old(priceQuantity)[l] + quantity]
      ensures segmentTree == Bubble(old(segmentTree), priceQuantity, side, idx)
    {
      SetAt(idx, priceQuantity[Element(|priceQuantity|, idx)] + quantity);
    }

    /** Take at most what the element holds. */
    method RemoveQuantity(idx: int, quantity: nat) returns (removed: nat)
      requires Valid() && -|priceQuantity| <= idx < |priceQuantity|
      modifies this
      ensures Valid()
      ensures var l := Element(|old(priceQuantity)|, idx);
              && removed == (if quantity > old(priceQuantity)[l] then old(priceQuantity)[l] else quantity)
              && priceQuantity == old(priceQuantity)[l := old(priceQuantity)[l] - removed]
      ensures segmentTree == Bubble(old(segmentTree), priceQuantity, side, idx)
    {
      var level := priceQuantity[Element(|priceQuantity|, idx)];
      removed := if quantity > level then level else quantity;
      SetAt(idx, level - removed);
    }

    /** Take the best entry out five times, put everything back, and report what was taken. */
    method GetTop5() returns (prices: seq<int>, qtys: seq<nat>)
      requires Valid()
      modifies this
      ensures Valid() && Ladder(segmentTree, priceQuantity) == AfterTop5(old(segmentTree), old(priceQuantity), side)
      ensures prices == Top5Prices(old(segmentTree), old(priceQuantity), side, minPrice, tickSize)
      ensures qtys == Top5Quantities(old(segmentTree), old(priceQuantity), side)
    {
      hide Take, Shaped, PutBack;
      ghost var k := Take(segmentTree, priceQuantity, side, 5);
      var saved, savedQty := TakeTop5();
      assert saved == k.saved && savedQty == k.savedQty;
      PutAllBack(saved, savedQty);
      ShapedRoot(segmentTree, priceQuantity);
      prices, qtys := Report(saved, savedQty);
      assert prices == Top5Prices(old(segmentTree), old(priceQuantity), side, minPrice, tickSize);
    }

    /** Five prices and quantities, padded with the worst price and quantity 1. */
    method Report(saved: seq<int>, savedQty: seq<nat>) returns (prices: seq<int>, qtys: seq<nat>)
      requires |saved| == |savedQty| && priceQuantity != []
      ensures |prices| == |qtys| == 5
      ensures forall i :: 0 <= i < 5 ==>
                prices[i] == PriceAt(minPrice, tickSize,
                  if i < |saved| then saved[i] else WorstLevel(|priceQuantity|, side))
      ensures forall i :: 0 <= i < 5 ==> qtys[i] == if i < |savedQty| then savedQty[i] else 1
    {
      hide PriceAt;
      prices, qtys := [], [];
      for i := 0 to 5
        invariant |prices| == |qtys| == i
        invariant forall j :: 0 <= j < i ==>
          prices[j] == PriceAt(minPrice, tickSize, if j < |saved| then saved[j] else WorstLevel(|priceQuantity|, side))
        invariant forall j :: 0 <= j < i ==> qtys[j] == if j < |savedQty| then savedQty[j] else 1
      {
        var idx := if i < |saved| then saved[i] else WorstLevel(|priceQuantity|, side);
        prices := prices + [PriceAt(minPrice, tickSize, idx)];
        qtys := qtys + [if i < |saved| then savedQty[i] else 1];
      }
    }

    method TakeTop5() returns (saved: seq<int>, savedQty: seq<nat>)
      requires Valid()
      modifies this
      ensures Valid()
      ensures Taken(segmentTree, priceQuantity, saved, savedQty) == Take(old(segmentTree), old(priceQuantity), side, 5)
      ensures |priceQuantity| == |old(priceQuantity)|
    {
      hide Shaped, Bubble, Take;
      ghost var k := Take(segmentTree, priceQuantity, side, 5);
      saved, savedQty := [], [];
      var i := 0;
      ShapedRoot(segmentTree, priceQuantity);
      while i < 5 && segmentTree[1] != NO_LEVEL
        invariant i <= 5 && Valid() && |priceQuantity| == |old(priceQuantity)|
        invariant |segmentTree| >= 4 &&
            (segmentTree[1] == NO_LEVEL || -|priceQuantity| <= segmentTree[1] < |priceQuantity|)
        invariant JoinsTo(k, Take(segmentTree, priceQuantity, side, 5 - i), saved, savedQty)
      {
        TakeUnfold(segmentTree, priceQuantity, side, 5 - i);
        ghost var was := Take(segmentTree, priceQuantity, side, 5 - i);
        var best := segmentTree[1];
        var quantity := priceQuantity[Element(|priceQuantity|, best)];
        SetAt(best, 0);
        JoinOne(k, was, Take(segmentTree, priceQuantity, side, 4 - i), saved, savedQty, best, quantity);
        saved, savedQty := saved + [best], savedQty + [quantity];
        i := i + 1;
        ShapedRoot(segmentTree, priceQuantity);
      }
      TakeUnfold(segmentTree, priceQuantity, side, 5 - i);
    }

    method PutAllBack(saved: seq<int>, savedQty: seq<nat>)
      requires Valid() && |saved| == |savedQty|
      requires forall j :: 0 <= j < |saved| ==> -|priceQuantity| <= saved[j] < |priceQuantity|
      modifies this
      ensures Valid() && |priceQuantity| == |old(priceQuantity)|
      ensures Ladder(segmentTree, priceQuantity) == PutBack(old(segmentTree), old(priceQuantity), side, saved, savedQty)
    {
      ghost var goal := PutBack(segmentTree, priceQuantity, side, saved, savedQty);
      hide Bubble;
      for i := 0 to |saved|
        invariant Valid() && |priceQuantity| == |old(priceQuantity)|
        invariant PutBack(segmentTree, priceQuantity, side, saved[i..], savedQty[i..]) == goal
      {
        assert saved[i..][1..] == saved[i + 1..] && savedQty[i..][1..] == savedQty[i + 1..];
        SetAt(saved[i], savedQty[i]);
      }
    }
  }
}
