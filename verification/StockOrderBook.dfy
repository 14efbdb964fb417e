/** The mutable order book: eight segment-tree ladders and one order list, with the state they stand for. */
module StockOrderBooks {
  import opened Words
  import opened TreeOrderBooks
  import opened Books

  /** An empty ladder of the kind kept at position i. */
  ghost predicate NewBook(b: TreeOrderBook, i: nat)
    reads b.levels, b.tree
  {
    && b.Valid() && b.levels[..] == seq(MAX_LEVELS, _ => 0)
    && b.side == (if i < NUM_STOCKS then SIDE_BID else SIDE_ASK)
    && b.minPrice == MinPrice(i % NUM_STOCKS) && b.tickSize == TICK
  }

  class StockOrderBook {
    const books: seq<TreeOrderBook>   // the bid books of the stocks, then their ask books
    const valid: array<bool>
    const index: array<int>
    const qty: array<nat>
    const side: array<nat>
    ghost const repr: set<object>     // every array of the book

    ghost predicate Shaped() {
      && |books| == BOOKS
      && valid.Length == index.Length == qty.Length == side.Length == MAX_ORDERS
      && (forall i :: 0 <= i < BOOKS ==>
            && books[i].Shaped() && books[i].levels.Length == MAX_LEVELS
            && books[i].side == (if i < NUM_STOCKS then SIDE_BID else SIDE_ASK)
            && books[i].minPrice == MinPrice(i % NUM_STOCKS) && books[i].tickSize == TICK)
      && Apart()
      && (forall i :: 0 <= i < BOOKS ==> books[i].levels in repr && books[i].tree in repr)
      && valid in repr && index in repr && qty in repr && side in repr
    }

    /** No two parts share an array. */
    ghost predicate Apart()
      requires |books| == BOOKS
    {
      && (forall i, j :: 0 <= i < j < BOOKS ==> books[i].levels != books[j].levels && books[i].tree != books[j].tree)
      && (forall i, j :: 0 <= i < BOOKS && 0 <= j < BOOKS ==> books[i].levels != books[j].tree)
      && (forall i :: 0 <= i < BOOKS ==> qty != books[i].levels && qty != books[i].tree)
      && (forall i :: 0 <= i < BOOKS ==> side != books[i].levels && side != books[i].tree)
      && (forall i :: 0 <= i < BOOKS ==> index as object != books[i].levels && index as object != books[i].tree)
      && qty != side && index as object != qty && index as object != side
    }

    /** The book as a value. */
    ghost function Abs(): (b: Book)
      requires Shaped()
      reads repr
    {
      Book(seq(BOOKS, i requires 0 <= i < BOOKS reads repr => books[i].levels[..]), valid[..],
        index[..], qty[..], side[..])
    }

    ghost predicate TreesValid()
      requires Shaped()
      reads repr
    {
      forall i :: 0 <= i < BOOKS ==> books[i].Valid()
    }

    ghost predicate Valid()
      reads repr
      ensures Valid() ==> Shaped() && WF(Abs())
    {
      Shaped() && TreesValid() && WF(Abs())
    }

    /** Read one level of one ladder. */
    method GetLevel(bk: nat, l: nat) returns (v: nat)
      requires Valid() && bk < BOOKS && l < MAX_LEVELS
      ensures v == Abs().levels[bk][l]
    {
      assert books[bk].levels[..] == Abs().levels[bk];
      v := books[bk].levels[l];
    }

    /** Read one slot of the order list. */
    method GetOrder(id: nat) returns (live: bool, idx: int, quantity: nat, bidAsk: nat)
      requires Valid() && id < MAX_ORDERS
      ensures live == Abs().valid[id] && idx == Abs().index[id] && quantity == Abs().qty[id] && bidAsk == Abs().side[id]
    {
      live, idx, quantity, bidAsk := valid[id], index[id], qty[id], side[id];
    }

    /** The eight empty ladders. */
    static method MakeBooks() returns (bs: seq<TreeOrderBook>, ghost r: set<object>)
      ensures |bs| == BOOKS
      ensures fresh(r) && forall j :: 0 <= j < BOOKS ==> bs[j].levels in r && bs[j].tree in r
      ensures forall j :: 0 <= j < BOOKS ==> NewBook(bs[j], j)
      ensures forall j, k :: 0 <= j < k < BOOKS ==> bs[j].levels != bs[k].levels && bs[j].tree != bs[k].tree
      ensures forall j, k :: 0 <= j < BOOKS && 0 <= k < BOOKS ==> bs[j].levels != bs[k].tree
    {
      bs, r := [], {};
      for i := 0 to BOOKS
        invariant |bs| == i
        invariant fresh(r) && forall j :: 0 <= j < i ==> bs[j].levels in r && bs[j].tree in r
        invariant forall j :: 0 <= j < i ==> NewBook(bs[j], j)
        invariant forall j, k :: 0 <= j < k < i ==> bs[j].levels != bs[k].levels && bs[j].tree != bs[k].tree
        invariant forall j, k :: 0 <= j < i && 0 <= k < i ==> bs[j].levels != bs[k].tree
      {
        var b := new TreeOrderBook(MinPrice(i % NUM_STOCKS), TICK, if i < NUM_STOCKS then SIDE_BID else SIDE_ASK,
          MAX_LEVELS);
        assert NewBook(b, i);
        assert forall j :: 0 <= j < i ==> NewBook(bs[j], j);
        bs, r := bs + [b], r + {b.levels} + {b.tree};
      }
    }

    /** The order list with every slot unused. */
    static method MakeOrders() returns (v: array<bool>, x: array<int>, q: array<nat>, d: array<nat>)
      ensures fresh(v) && fresh(x) && fresh(q) && fresh(d) && q != d && x as object != q && x as object != d
      ensures v[..] == Empty().valid && x[..] == Empty().index && q[..] == Empty().qty && d[..] == Empty().side
    {
      v := new bool[MAX_ORDERS](_ => false);
      x := new int[MAX_ORDERS](_ => 0);
      q := new nat[MAX_ORDERS](_ => 0);
      d := new nat[MAX_ORDERS](_ => SIDE_NONE);
    }

    constructor ()
      ensures Valid() && Abs() == Empty()
      ensures fresh(repr)
    {
      hide NewBook, Valid, Shaped, Abs, TreesValid;
      var v, x, q, d := MakeOrders();
      var bs, r := MakeBooks();
      books, valid, index, qty, side := bs, v, x, q, d;
      repr := r + {v as object} + {x as object} + {q as object} + {d as object};
      new;
      NewIsEmpty();
    }

    lemma NewIsEmpty()
      requires |books| == BOOKS && Apart() && forall i :: 0 <= i < BOOKS ==> NewBook(books[i], i)
      requires forall i :: 0 <= i < BOOKS ==> books[i].levels in repr && books[i].tree in repr
      requires valid in repr && index in repr && qty in repr && side in repr
      requires valid[..] == Empty().valid && index[..] == Empty().index && qty[..] == Empty().qty
      requires side[..] == Empty().side
      ensures Valid() && Abs() == Empty()
    {
      assert forall i :: 0 <= i < BOOKS ==> |books[i].levels[..]| == MAX_LEVELS;
      assert Abs().levels == Empty().levels;
    }

    /** Write one level of one ladder; nothing else changes. */
    method SetLevel(bk: nat, l: nat, v: nat)
      requires Valid() && bk < BOOKS && l < MAX_LEVELS
      modifies repr
      ensures Valid() && Abs() == WithLevel(old(Abs()), bk, l, v)
    {
      books[bk].SetLevel(l, v);
      assert Abs().levels == WithLevel(old(Abs()), bk, l, v).levels;
    }

    /** Write one slot of the order list; nothing else changes. */
    method SetOrder(id: nat, live: bool, idx: nat, quantity: nat, bidAsk: nat)
      requires Valid() && id < MAX_ORDERS && idx < MAX_LEVELS && (live ==> bidAsk < 2)
      modifies repr
      ensures Valid() && Abs() == WithOrder(old(Abs()), id, live, idx, quantity, bidAsk)
    {
      valid[id], index[id], qty[id], side[id] := live, idx, quantity, bidAsk;
      assert forall i :: 0 <= i < BOOKS ==> old(books[i].Valid()) ==> books[i].Valid();
    }

    /** The five best levels of one ladder; the ladder and its tree end as they were. */
    method GetTop5(bk: nat) returns (prices: seq<nat>, qtys: seq<nat>)
      requires Valid() && bk < BOOKS
      modifies repr
      ensures Valid() && Abs() == old(Abs())
      ensures prices == BookPrices(Abs(), bk) && qtys == BookQuantities(Abs(), bk)
    {
      prices, qtys := books[bk].GetTop5();
      assert Abs().levels == old(Abs()).levels;
    }
  }

  ghost function BookPrices(b: Book, bk: nat): (p: seq<nat>)
    requires Sized(b) && bk < BOOKS
    ensures |p| == 5
  {
    TopPrices(b.levels[bk], if bk < NUM_STOCKS then SIDE_BID else SIDE_ASK, MinPrice(bk % NUM_STOCKS), TICK)
  }

  ghost function BookQuantities(b: Book, bk: nat): (q: seq<nat>)
    requires Sized(b) && bk < BOOKS
    ensures |q| == 5
  {
    TopQuantities(b.levels[bk], if bk < NUM_STOCKS then SIDE_BID else SIDE_ASK)
  }

  /** Equal ladders have equal trees and equal published levels: comparing books as values loses nothing. */
  lemma LaddersDetermine(a: StockOrderBook, b: StockOrderBook, bk: nat)
    requires a.Valid() && b.Valid() && bk < BOOKS && a.Abs() == b.Abs()
    ensures a.books[bk].tree[..] == b.books[bk].tree[..]
    ensures BookPrices(a.Abs(), bk) == BookPrices(b.Abs(), bk)
  {
    assert a.Abs().levels[bk] == a.books[bk].levels[..] && b.Abs().levels[bk] == b.books[bk].levels[..];
  }
}
