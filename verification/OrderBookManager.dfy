/** The software twin of the order book. */
module OrderBookManagers {
  import opened Words
  import opened Books
  import opened BookRuns
  import opened SegmentTree
  import opened TreeOrderBooks
  import opened StockOrderBooks
  import opened Orderbook
  import opened SoftwareLadders
  import opened SoftwareTrees
  import opened SoftwareBooks

  /** One stock's entry of a published snapshot. */
  datatype Entry = Entry(stock: nat, askPrices: seq<int>, askQty: seq<nat>, bidPrices: seq<int>, bidQty: seq<nat>)

  /** The entry of stock s when the book determines it. */
  ghost function EntryOf(b: Book, s: nat): Entry
    requires Sized(b) && s < NUM_STOCKS
  {
    Entry(s, BookPrices(b, NUM_STOCKS + s), BookQuantities(b, NUM_STOCKS + s), BookPrices(b, s), BookQuantities(b, s))
  }

  function LadderPrices(st: SwState, bk: nat): seq<int>
    requires StateOK(st) && bk < BOOKS
  {
    Top5Prices(st.trees[bk], st.book.levels[bk], SideAt(bk), MinPrice(bk % NUM_STOCKS), TICK)
  }

  function LadderQuantities(st: SwState, bk: nat): seq<nat>
    requires StateOK(st) && bk < BOOKS
  {
    Top5Quantities(st.trees[bk], st.book.levels[bk], SideAt(bk))
  }

  /** The entry of stock s that the trees give, whatever indices they have seen. */
  function TreeEntry(st: SwState, s: nat): Entry
    requires StateOK(st) && s < NUM_STOCKS
  {
    var a := NUM_STOCKS + s;
    Entry(s, LadderPrices(st, a), LadderQuantities(st, a), LadderPrices(st, s), LadderQuantities(st, s))
  }

  lemma ExactLadder(st: SwState, bk: nat)
    requires StateExact(st) && bk < BOOKS
    ensures StateOK(st) && LadderPrices(st, bk) == BookPrices(st.book, bk)
    ensures LadderQuantities(st, bk) == BookQuantities(st.book, bk)
  {
    Top5Exact(st.book.levels[bk], SideAt(bk), MinPrice(bk % NUM_STOCKS), TICK);
    hide Top5Prices, Top5Quantities, TopPrices, TopQuantities, TreeOf, AfterTop5;
  }

  /** On the ladder the trees publish what the book determines. */
  lemma ExactEntry(st: SwState, s: nat)
    requires StateExact(st) && s < NUM_STOCKS
    ensures TreeEntry(st, s) == EntryOf(st.book, s)
  {
    hide StateExact, LadderPrices, LadderQuantities, BookPrices, BookQuantities;
    ExactLadder(st, NUM_STOCKS + s);
    ExactLadder(st, s);
  }

  /** An add is a change of its ladder followed by a change of its order slot. */
  lemma AddInParts(st: SwState, m: Message)
    requires StateOK(st) && InRange(m) && Accepted(m)
    ensures var bk, idx := BookOf(m.stock, m.buySell), SwIndex(m.stock, m.price);
            if idx < -MAX_LEVELS then SwTreeStep(st, m) == None
            else
              var b := WithLevel(st.book, bk, PyLevel(idx), st.book.levels[bk][PyLevel(idx)] + m.shares);
              && PyWF(b)
              && SwTreeStep(st, m) ==
                 Some(SwState(WithOrder(b, m.id, true, idx, m.shares, m.buySell), Touch(st, b, bk, idx).trees))
  {
    hide Bubble, SwIndex;
  }

  /** What the software takes out of a level for a removal. */
  function SwRemoved(b: Book, m: Message): (r: nat)
    requires PyWF(b) && Removal(m)
    ensures r <= b.qty[m.id]
  {
    if !b.valid[m.id] then 0
    else
      var level, wanted := b.levels[BookOf(m.stock, b.side[m.id])][PyLevel(b.index[m.id])],
        RemoveQty(b, m.id, CancelArg(m));
      if wanted > level then level else wanted
  }

  /** So is a removal of a live order. */
  lemma RemovalInParts(st: SwState, m: Message)
    requires StateOK(st) && InRange(m) && Removal(m) && st.book.valid[m.id]
    ensures var bk, idx, was := BookOf(m.stock, st.book.side[m.id]), st.book.index[m.id], st.book.qty[m.id];
            var left := was - SwRemoved(st.book, m);
            && SwRemoved(st.book, m) <= st.book.levels[bk][PyLevel(idx)] && -MAX_LEVELS <= idx < MAX_LEVELS
            && var b := WithLevel(st.book, bk, PyLevel(idx), st.book.levels[bk][PyLevel(idx)] - SwRemoved(st.book, m));
               && PyWF(b) && PyWF(st.book)
               && SwTreeStep(st, m) == Some(SwState(
                    if left == 0 then WithOrder(b, m.id, false, idx, 0, SIDE_DELETED)
                    else WithOrder(b, m.id, true, idx, left, st.book.side[m.id]),
                    Touch(st, b, bk, idx).trees))
  {
    hide Bubble;
  }

  class OrderBookManager {
    const books: seq<SoftwareTree>   // the bid ladders of the stocks, then their ask ladders
    var orderValid: seq<bool>
    var orderPriceIndex: seq<int>
    var orderQuantity: seq<nat>
    var orderAskBid: seq<nat>
    var numNewOrder: nat

    ghost predicate Shaped() {
      && |books| == BOOKS
      && (forall i, j :: 0 <= i < j < BOOKS ==> books[i] != books[j])
      && forall i :: 0 <= i < BOOKS ==>
           books[i].side == SideAt(i) && books[i].minPrice == MinPrice(i % NUM_STOCKS) && books[i].tickSize == TICK
    }

    ghost function State(): SwState
      requires Shaped()
      reads books, `orderValid, `orderPriceIndex, `orderQuantity, `orderAskBid
    {
      SwState(Book(seq(BOOKS, i requires 0 <= i < BOOKS reads books => books[i].priceQuantity),
                   orderValid, orderPriceIndex, orderQuantity, orderAskBid),
              seq(BOOKS, i requires 0 <= i < BOOKS reads books => books[i].segmentTree))
    }

    ghost predicate Valid()
      reads books, `orderValid, `orderPriceIndex, `orderQuantity, `orderAskBid
      ensures Valid() ==> Shaped() && StateOK(State())
    {
      Shaped() && StateOK(State())
    }

    constructor ()
      ensures Valid() && State() == SwStart() && numNewOrder == 0
      ensures forall i :: 0 <= i < BOOKS ==> fresh(books[i])
    {
      var bs: seq<SoftwareTree> := [];
      for i := 0 to BOOKS
        invariant |bs| == i
        invariant forall j :: 0 <= j < i ==> fresh(bs[j])
        invariant forall j, k :: 0 <= j < k < i ==> bs[j] != bs[k]
        invariant forall j :: 0 <= j < i ==>
          bs[j].side == SideAt(j) && bs[j].minPrice == MinPrice(j % NUM_STOCKS) && bs[j].tickSize == TICK
        invariant forall j :: 0 <= j < i ==>
          bs[j].priceQuantity == seq(MAX_LEVELS, _ => 0) && bs[j].segmentTree == seq(2 * MAX_LEVELS, _ => NO_LEVEL)
      {
        var b := new SoftwareTree(MinPrice(i % NUM_STOCKS), TICK, SideAt(i), MAX_LEVELS);
        bs := bs + [b];
      }
      books := bs;
      orderValid, orderPriceIndex := seq(MAX_ORDERS, _ => false), seq(MAX_ORDERS, _ => 0);
      orderQuantity, orderAskBid := seq(MAX_ORDERS, _ => 0), seq(MAX_ORDERS, _ => SIDE_NONE);
      numNewOrder := 0;
      new;
      assert State().book.levels == Empty().levels && State().trees == SwStart().trees;
    }

    /** Change ladder bk at the element idx selects, by adding; nothing else changes. */
    method AddAt(bk: nat, idx: int, quantity: nat)
      requires Valid() && bk < BOOKS && -MAX_LEVELS <= idx < MAX_LEVELS
      modifies books
      ensures Valid()
      ensures var st := old(State());
              State() == Touch(st, WithLevel(st.book, bk, PyLevel(idx), st.book.levels[bk][PyLevel(idx)] + quantity),
                bk, idx)
    {
      ghost var st := State();
      assert books[bk].priceQuantity == st.book.levels[bk] && books[bk].segmentTree == st.trees[bk];
      books[bk].AddQuantityAt(idx, quantity);
      LadderChanged(st, bk, st.book.levels[bk][PyLevel(idx)] + quantity, idx);
    }

    /** Remove at most what the element idx selects holds; nothing else changes. */
    method RemoveAt(bk: nat, idx: int, quantity: nat) returns (removed: nat)
      requires Valid() && bk < BOOKS && -MAX_LEVELS <= idx < MAX_LEVELS
      modifies books
      ensures Valid()
      ensures var st := old(State()); var level := st.book.levels[bk][PyLevel(idx)];
              && removed == (if quantity > level then level else quantity)
              && State() == Touch(st, WithLevel(st.book, bk, PyLevel(idx), level - removed), bk, idx)
    {
      ghost var st := State();
      assert books[bk].priceQuantity == st.book.levels[bk] && books[bk].segmentTree == st.trees[bk];
      removed := books[bk].RemoveQuantity(idx, quantity);
      LadderChanged(st, bk, st.book.levels[bk][PyLevel(idx)] - removed, idx);
    }

    lemma LadderChanged(st: SwState, bk: nat, v: nat, idx: int)
      requires Shaped() && StateOK(st) && bk < BOOKS && -MAX_LEVELS <= idx < MAX_LEVELS
      requires orderValid == st.book.valid && orderPriceIndex == st.book.index
      requires orderQuantity == st.book.qty && orderAskBid == st.book.side
      requires forall i :: 0 <= i < BOOKS && i != bk ==>
                 books[i].priceQuantity == st.book.levels[i] && books[i].segmentTree == st.trees[i]
      requires var q: seq<nat> := st.book.levels[bk][PyLevel(idx) := v];
               && books[bk].priceQuantity == q
               && SoftwareLadders.Shaped(st.trees[bk], q) &&
                 books[bk].segmentTree == Bubble(st.trees[bk], q, SideAt(bk), idx)
      ensures State() == Touch(st, WithLevel(st.book, bk, PyLevel(idx), v), bk, idx) && Valid()
    {
      hide Bubble;
      var c := WithLevel(st.book, bk, PyLevel(idx), v);
      assert PyWF(c);
      var r := Touch(st, c, bk, idx);
      assert State().book.levels == c.levels;
      assert State().trees == r.trees;
    }

    /** Write one slot of the order list; nothing else changes. */
    method SetOrder(id: nat, live: bool, idx: int, quantity: nat, bidAsk: nat)
      requires Valid() && id < MAX_ORDERS && -MAX_LEVELS <= idx < MAX_LEVELS && (live ==> bidAsk < 2)
      modifies this`orderValid, this`orderPriceIndex, this`orderQuantity, this`orderAskBid
      ensures Valid()
      ensures State() == SwState(WithOrder(old(State()).book, id, live, idx, quantity, bidAsk), old(State()).trees)
    {
      orderValid, orderPriceIndex := orderValid[id := live], orderPriceIndex[id := idx];
      orderQuantity, orderAskBid := orderQuantity[id := quantity], orderAskBid[id := bidAsk];
      assert State().book.levels == old(State()).book.levels && State().trees == old(State()).trees;
    }

    /** False: the list access raised IndexError, before anything was changed. */
    method AddOrder(m: Message) returns (ok: bool)
      requires Valid() && InRange(m) && m.kind == 1
      modifies books, this`orderValid, this`orderPriceIndex, this`orderQuantity, this`orderAskBid
      ensures Valid() && SwTreeStep(old(State()), m) == if ok then Some(State()) else None
      ensures !ok ==> State() == old(State())
    {
      hide Valid, Shaped, State, StateOK, WithLevel, WithOrder, Touch, Bubble, SwIndex;
      if m.stock >= NUM_STOCKS { return true; }
      if m.id >= MAX_ORDERS { return true; }
      AddInParts(State(), m);
      var bk, idx := BookOf(m.stock, m.buySell), SwIndex(m.stock, m.price);
      if idx < -MAX_LEVELS { return false; }
      AddAt(bk, idx, m.shares);
      SetOrder(m.id, true, idx, m.shares, m.buySell);
      ok := true;
    }

    /** Read one slot of the order list. */
    method GetOrder(id: nat) returns (live: bool, idx: int, quantity: nat, bidAsk: nat)
      requires Valid() && id < MAX_ORDERS
      ensures var b := State().book;
              live == b.valid[id] && idx == b.index[id] && quantity == b.qty[id] && bidAsk == b.side[id]
    {
      live, idx, quantity, bidAsk := orderValid[id], orderPriceIndex[id], orderQuantity[id], orderAskBid[id];
    }

    method CancelOrder(m: Message)
      requires Valid() && InRange(m) && m.kind in {2, 4, 8}
      modifies books, this`orderValid, this`orderPriceIndex, this`orderQuantity, this`orderAskBid
      ensures Valid() && SwTreeStep(old(State()), m) == Some(State())
    {
      hide Valid, Shaped, State, StateOK, WithLevel, WithOrder, Touch, Bubble, SwCancel;
      if m.stock >= NUM_STOCKS || m.id >= MAX_ORDERS { return; }
      var live, idx, was, side := GetOrder(m.id);
      if !live { return; }
      RemovalInParts(State(), m);
      var cancelQty := if m.kind == 8 then CANCEL_ALL else m.shares;
      var wanted := if cancelQty == CANCEL_ALL then was else if cancelQty < was then cancelQty else was;
      var removed := RemoveAt(BookOf(m.stock, side), idx, wanted);
      var left := was - removed;
      if left == 0 {
        SetOrder(m.id, false, idx, 0, SIDE_DELETED);
      } else {
        SetOrder(m.id, true, idx, left, side);
      }
    }

    /** The stored side of a live order, 2 otherwise. */
    method SideOf(id: nat) returns (flag: nat)
      requires Valid()
      ensures flag == if id < MAX_ORDERS && State().book.valid[id] then State().book.side[id] else SIDE_NONE
      ensures flag < 2 <==> id < MAX_ORDERS && State().book.valid[id]
    {
      if id >= MAX_ORDERS { return SIDE_NONE; }
      flag := if orderValid[id] then orderAskBid[id] else SIDE_NONE;
    }

    /** One message. False: IndexError, with nothing changed. */
    method Process(m: Message) returns (ok: bool)
      requires Valid() && InRange(m)
      modifies this, books
      ensures Valid() && SwTreeStep(old(State()), m) == if ok then Some(State()) else None
      ensures !ok ==> State() == old(State())
      ensures numNewOrder == old(numNewOrder) + if m.kind == 1 && ok then 1 else 0
    {
      hide Valid, Shaped, State, StateOK, Bubble, SwAdd, SwCancel, Touch;
      ok := true;
      if m.kind == 1 {
        ok := AddOrder(m);
        if ok { numNewOrder := numNewOrder + 1; }
      } else if m.kind in {2, 4, 8} {
        var flag := SideOf(m.id);
        if flag < 2 { CancelOrder(m); }
      }
    }

    /** Read the top five of one ladder; nothing else changes. */
    method ReadTop5(bk: nat) returns (prices: seq<int>, qtys: seq<nat>)
      requires Valid() && bk < BOOKS
      modifies books
      ensures Valid() && State() == ReadLadder(old(State()), bk)
      ensures prices == LadderPrices(old(State()), bk) && qtys == LadderQuantities(old(State()), bk)
    {
      hide AfterTop5, Top5Prices, Top5Quantities;
      ghost var st := State();
      assert books[bk].priceQuantity == st.book.levels[bk] && books[bk].segmentTree == st.trees[bk];
      prices, qtys := books[bk].GetTop5();
      assert State().book.levels == ReadLadder(st, bk).book.levels;
      assert State().trees == ReadLadder(st, bk).trees;
    }

    /** One entry per stock; what reading does to the trees and levels is the snapshot's doing. */
    method PublishSnapshot() returns (entries: seq<Entry>)
      requires Valid()
      modifies books
      ensures Valid() && State() == SwSnapshot(old(State()), NUM_STOCKS)
      ensures |entries| == NUM_STOCKS && forall s :: 0 <= s < NUM_STOCKS ==> entries[s] == TreeEntry(old(State()), s)
    {
      hide Valid, Shaped, State, StateOK, ReadLadder, LadderPrices, LadderQuantities;
      entries := [];
      ghost var st := State();
      for s := 0 to NUM_STOCKS
        invariant Valid() && State() == SwSnapshot(st, s) && |entries| == s
        invariant forall i :: 0 <= i < s ==> entries[i] == TreeEntry(st, i)
      {
        Unread(st, s, NUM_STOCKS + s);
        Unread(st, s, s);
        UnreadByAsk(State(), NUM_STOCKS + s, s);
        var askP, askQ := ReadTop5(NUM_STOCKS + s);
        var bidP, bidQ := ReadTop5(s);
        entries := entries + [Entry(s, askP, askQ, bidP, bidQ)];
      }
    }
  }

  /** A ladder that the snapshot has not come to yet still publishes what it did before. */
  lemma Unread(st: SwState, n: nat, bk: nat)
    requires StateOK(st) && n <= NUM_STOCKS && bk < BOOKS && bk % NUM_STOCKS >= n
    ensures LadderPrices(SwSnapshot(st, n), bk) == LadderPrices(st, bk)
    ensures LadderQuantities(SwSnapshot(st, n), bk) == LadderQuantities(st, bk)
  {
    SnapshotLadder(st, n, bk);
    hide SwSnapshot, StateOK, Top5Prices, Top5Quantities, AfterTop5;
  }

  lemma UnreadByAsk(st: SwState, bk: nat, k: nat)
    requires StateOK(st) && bk < BOOKS && k < BOOKS && k != bk
    ensures LadderPrices(ReadLadder(st, bk), k) == LadderPrices(st, k)
    ensures LadderQuantities(ReadLadder(st, bk), k) == LadderQuantities(st, k)
  {
    ReadAt(st, bk, k);
    hide ReadLadder, StateOK, Top5Prices, Top5Quantities, AfterTop5;
  }

  /** Entry and word snapshots of a book carry the same prices and quantities. */
  lemma EntriesAreWords(b: Book, s: nat, i: nat)
    requires Sized(b) && s < NUM_STOCKS && i < 5
    ensures var d, e := Data(SnapshotWords(b, NUM_STOCKS)), EntryOf(b, s);
            && PairPrice(d, s, i) == e.askPrices[i] && PairQty(d, s, i) == e.askQty[i]
            && PairPrice(d, s, 5 + i) == e.bidPrices[i] && PairQty(d, s, 5 + i) == e.bidQty[i]
  {
    hide SnapshotWords, PairPrice, PairQty, BookPrices, BookQuantities;
    PairAt(b, s, i);
    PairAt(b, s, 5 + i);
  }

  /** Twins given the same well-behaved messages, the software with snapshots anywhere between them, hold equal order
      lists, ladders and trees, and publish the same. */
  lemma TwinObjectsEqual(hw: OrderbookIp, sw: OrderBookManager, ins: seq<Input>, bk: nat, s: nat)
    requires hw.Valid() && sw.Valid() && AllInRange(Sent(ins)) && bk < BOOKS && s < NUM_STOCKS
    requires hw.book.Abs() == HwRun(Sent(ins)) && Some(sw.State()) == SwTreeRun(ins)
    requires OwnStock(Sent(ins)) && PricesOnLadder(Sent(ins)) && TotalAdded(Sent(ins)) < WORD
    ensures hw.book.Abs() == sw.State().book
    ensures hw.book.books[bk].tree[..] == sw.books[bk].segmentTree
    ensures TreeEntry(sw.State(), s) == EntryOf(hw.book.Abs(), s)
  {
    var ms := Sent(ins);
    TreesExact(ins);
    assert PricesAbove(ms, TICK);
    SnapshotsHarmless(ins);
    TwinsStayEqual(ms);
    assert ms[..|ms|] == ms && AgreeAt(ms, |ms|);
    ExactEntry(sw.State(), s);
    assert hw.book.Abs().levels[bk] == hw.book.books[bk].levels[..];
    assert sw.State().trees[bk] == sw.books[bk].segmentTree;
    hide HwRun, SwRun, SwTreeRun, TreeOf, TreeEntry, EntryOf, StateNear;
  }
}
