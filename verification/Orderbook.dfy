/** The hardware order book stage: one call per clock, publishing a snapshot every 20 messages. */
module Orderbook {
  import opened Words
  import opened TreeOrderBooks
  import opened Books
  import opened BookRuns
  import opened SegmentTree
  import opened StockOrderBooks

  const PUBLISH_EVERY := 20
  const SNAPSHOT_WORDS := 80

  datatype AxisWord = AxisWord(data: nat, last: bool)

  /** n price/quantity pairs on the stream; the last flag marks the fifth quantity when wanted. */
  ghost function SideWords(prices: seq<nat>, qtys: seq<nat>, n: nat, flag: bool): (w: seq<AxisWord>)
    requires |prices| == |qtys| == 5 && n <= 5
    ensures |w| == 2 * n
  {
    if n == 0 then []
    else SideWords(prices, qtys, n - 1, flag) + [AxisWord(prices[n - 1], false), AxisWord(qtys[n - 1], flag && n == 5)]
  }

  /** The 20 words of one stock: asks, then bids. */
  ghost function StockWords(b: Book, s: nat): (w: seq<AxisWord>)
    requires Sized(b) && s < NUM_STOCKS
    ensures |w| == 20
  {
    SideWords(BookPrices(b, NUM_STOCKS + s), BookQuantities(b, NUM_STOCKS + s), 5, false)
    + SideWords(BookPrices(b, s), BookQuantities(b, s), 5, true)
  }

  /** The words of the first n stocks; n == NUM_STOCKS is a whole snapshot. */
  ghost function SnapshotWords(b: Book, n: nat): (w: seq<AxisWord>)
    requires Sized(b) && n <= NUM_STOCKS
    ensures |w| == 20 * n
  {
    if n == 0 then [] else SnapshotWords(b, n - 1) + StockWords(b, n - 1)
  }

  /** The stage's static state: the book and the messages taken in since the last snapshot. */
  datatype IpState = IpState(book: Book, numNew: nat)

  ghost function FireState(st: IpState, input: Option<Message>): (r: IpState)
    requires WF(st.book) && (input.Some? ==> InRange(input.value))
    ensures WF(r.book)
  {
    var base := if st.numNew >= PUBLISH_EVERY then 0 else st.numNew;
    if input.None? then IpState(st.book, base) else IpState(HwStep(st.book, input.value), base + 1)
  }

  ghost function FireOutput(st: IpState): seq<AxisWord>
    requires Sized(st.book)
  {
    if st.numNew >= PUBLISH_EVERY then SnapshotWords(st.book, NUM_STOCKS) else []
  }

  class OrderbookIp {
    const book: StockOrderBook
    var numNewOrder: nat

    ghost predicate Valid()
      reads this, book.repr
    {
      this !in book.repr && book.Valid() && Fits(book.Abs())
    }

    ghost function State(): IpState
      requires book.Shaped()
      reads this, book.repr
    {
      IpState(book.Abs(), numNewOrder)
    }

    constructor ()
      ensures Valid() && State() == IpState(Empty(), 0)
    {
      book := new StockOrderBook();
      numNewOrder := 0;
    }

    method AddOrder(bk: nat, m: Message)
      requires book.Valid() && InRange(m) && m.stock < NUM_STOCKS && bk == BookOf(m.stock, m.buySell)
      modifies book.repr
      ensures book.Valid() && book.Abs() == HwAdd(old(book.Abs()), bk, HwIndex(m.stock, m.price), m)
    {
      hide StockOrderBook.Valid, StockOrderBook.Abs, StockOrderBook.Shaped, WithLevel, WithOrder;
      if m.id >= MAX_ORDERS { return; }
      var idx := HwIndex(m.stock, m.price);
      var level := book.GetLevel(bk, idx);
      book.SetLevel(bk, idx, (level + m.shares) % WORD);
      book.SetOrder(m.id, true, idx, m.shares, m.buySell);
    }

    method CancelOrder(bk: nat, id: nat, cancelQty: nat)
      requires book.Valid() && bk < BOOKS
      modifies book.repr
      ensures book.Valid() && book.Abs() == HwCancel(old(book.Abs()), bk, id, cancelQty)
    {
      hide StockOrderBook.Valid, StockOrderBook.Abs, StockOrderBook.Shaped, WithLevel, WithOrder;
      if id >= MAX_ORDERS { return; }
      var live, idx, was, flag := book.GetOrder(id);
      if !live { return; }
      var removeQty := if cancelQty == CANCEL_ALL then was else if cancelQty > was then was else cancelQty;
      var level := book.GetLevel(bk, idx);
      book.SetLevel(bk, idx, (level - removeQty) % WORD);
      if removeQty == was {
        book.SetOrder(id, false, idx, 0, SIDE_DELETED);
      } else {
        book.SetOrder(id, true, idx, was - removeQty, flag);
      }
    }

    /** The one-bit result turns "none" into 0. */
    method CheckSide(id: nat) returns (flag: nat)
      requires book.Valid()
      ensures flag == CheckAskBid(book.Abs(), id)
    {
      if id >= MAX_ORDERS { return SIDE_NONE % 2; }
      var live, _, _, flag' := book.GetOrder(id);
      flag := if !live then SIDE_NONE % 2 else flag' % 2;
    }

    method Publish() returns (out: seq<AxisWord>)
      requires book.Valid()
      modifies book.repr
      ensures book.Valid() && book.Abs() == old(book.Abs())
      ensures out == SnapshotWords(book.Abs(), NUM_STOCKS)
    {
      hide StockOrderBook.Valid, StockOrderBook.Abs, StockOrderBook.Shaped, BookPrices, BookQuantities;
      out := [];
      ghost var b := book.Abs();
      for s := 0 to NUM_STOCKS
        invariant book.Valid() && book.Abs() == b
        invariant out == SnapshotWords(b, s)
      {
        var prices, qtys := book.GetTop5(NUM_STOCKS + s);
        for i := 0 to 5
          invariant out == SnapshotWords(b, s) + SideWords(prices, qtys, i, false)
        {
          out := out + [AxisWord(prices[i], false)];
          out := out + [AxisWord(qtys[i], false)];
        }
        ghost var asks := SideWords(prices, qtys, 5, false);
        prices, qtys := book.GetTop5(s);
        for i := 0 to 5
          invariant out == SnapshotWords(b, s) + asks + SideWords(prices, qtys, i, true)
        {
          out := out + [AxisWord(prices[i], false)];
          out := out + [AxisWord(qtys[i], i == 4)];
        }
        assert out == SnapshotWords(b, s) + StockWords(b, s);
      }
    }

    /** One call of the stage: input is the next parsed message, if the input stream holds one. */
    method Fire(input: Option<Message>) returns (out: seq<AxisWord>)
      requires Valid() && (input.Some? ==> InRange(input.value))
      modifies this, book.repr
      ensures Valid()
      ensures out == FireOutput(old(State()))
      ensures State() == FireState(old(State()), input)
    {
      hide StockOrderBook.Valid, StockOrderBook.Abs, StockOrderBook.Shaped, SnapshotWords, HwAdd, HwCancel;
      out := [];
      if numNewOrder >= PUBLISH_EVERY {
        numNewOrder := 0;
        out := Publish();
      }
      if input.Some? {
        var m := input.value;
        HwFits(book.Abs(), m);
        if m.stock < NUM_STOCKS {
          if m.kind == 1 {
            AddOrder(BookOf(m.stock, m.buySell), m);
          } else if m.kind in {2, 4, 8} {
            var flag := CheckSide(m.id);
            if flag != SIDE_NONE {
              CancelOrder(BookOf(m.stock, flag), m.id, if m.kind == 8 then CANCEL_ALL else m.shares);
            }
          }
        }
        numNewOrder := numNewOrder + 1;
      }
    }
  }

  // ---------- runs of the stage ----------

  ghost predicate InputsInRange(ins: seq<Option<Message>>) {
    forall i :: 0 <= i < |ins| && ins[i].Some? ==> InRange(ins[i].value)
  }

  /** The messages among the inputs. */
  ghost function Taken(ins: seq<Option<Message>>): (ms: seq<Message>) {
    if ins == [] then [] else Taken(ins[..|ins| - 1]) + if Last(ins).Some? then [Last(ins).value] else []
  }

  ghost function IpRun(ins: seq<Option<Message>>): (st: IpState)
    requires InputsInRange(ins)
    ensures WF(st.book)
  {
    if ins == [] then IpState(Empty(), 0) else FireState(IpRun(ins[..|ins| - 1]), Last(ins))
  }

  /** Everything the stage has put on its output stream, one entry per snapshot. */
  ghost function Published(ins: seq<Option<Message>>): (out: seq<seq<AxisWord>>)
    requires InputsInRange(ins)
  {
    if ins == [] then []
    else
      var p := ins[..|ins| - 1];
      Published(p) + if IpRun(p).numNew >= PUBLISH_EVERY then [FireOutput(IpRun(p))] else []
  }

  /** The stage's book is the book of the messages it has taken in. */
  lemma {:induction false} RunTakesAll(ins: seq<Option<Message>>)
    requires InputsInRange(ins)
    ensures AllInRange(Taken(ins)) && IpRun(ins).book == HwRun(Taken(ins))
    decreases |ins|
  {
    hide HwStep;
    if ins != [] {
      RunTakesAll(ins[..|ins| - 1]);
      if Last(ins).Some? {
        var t := Taken(ins);
        assert t[..|t| - 1] == Taken(ins[..|ins| - 1]) && Last(t) == Last(ins).value;
      } else {
        assert Taken(ins) == Taken(ins[..|ins| - 1]);
      }
    }
  }

  /** Messages are conserved: 20 per snapshot, plus those still counting towards the next. */
  lemma {:induction false} MessagesConserved(ins: seq<Option<Message>>)
    requires InputsInRange(ins)
    ensures |Taken(ins)| == 20 * |Published(ins)| + IpRun(ins).numNew
    ensures IpRun(ins).numNew <= 20
    decreases |ins|
  {
    hide HwStep, FireOutput;
    if ins != [] { MessagesConserved(ins[..|ins| - 1]); }
  }

  /** Snapshot k shows the book exactly as 20 * (k + 1) messages left it, whatever the idle calls between. */
  lemma {:induction false} SnapshotShows(ins: seq<Option<Message>>, k: nat)
    requires InputsInRange(ins) && k < |Published(ins)|
    ensures 20 * (k + 1) <= |Taken(ins)| && AllInRange(Taken(ins))
    ensures Published(ins)[k] == SnapshotWords(HwRun(Taken(ins)[..20 * (k + 1)]), NUM_STOCKS)
    decreases |ins|
  {
    hide HwStep, SnapshotWords, HwRun;
    var p := ins[..|ins| - 1];
    MessagesConserved(ins);
    MessagesConserved(p);
    RunTakesAll(ins);
    RunTakesAll(p);
    var n := 20 * (k + 1);
    if k < |Published(p)| {
      SnapshotShows(p, k);
      assert Taken(p)[..n] == Taken(ins)[..n];
    } else {
      assert |Taken(p)| == n && Taken(ins)[..n] == Taken(p);
    }
  }

  // ---------- what a snapshot holds ----------

  ghost function Data(ws: seq<AxisWord>): (d: seq<nat>)
    ensures |d| == |ws|
  {
    seq(|ws|, i requires 0 <= i < |ws| => ws[i].data)
  }

  lemma {:induction false} SideWordAt(prices: seq<nat>, qtys: seq<nat>, n: nat, flag: bool, i: nat)
    requires |prices| == |qtys| == 5 && i < n <= 5
    ensures SideWords(prices, qtys, n, flag)[2 * i].data == prices[i]
    ensures SideWords(prices, qtys, n, flag)[2 * i + 1].data == qtys[i]
    decreases n
  {
    if i < n - 1 { SideWordAt(prices, qtys, n - 1, flag, i); }
  }

  lemma {:induction false} SideFlagAt(prices: seq<nat>, qtys: seq<nat>, n: nat, flag: bool, i: nat)
    requires |prices| == |qtys| == 5 && i < 2 * n <= 10
    ensures SideWords(prices, qtys, n, flag)[i].last <==> flag && i == 9
    decreases n
  {
    if i < 2 * n - 2 { SideFlagAt(prices, qtys, n - 1, flag, i); }
  }

  /** Of the 80 words of a snapshot, the last quantity of each stock carries the last flag, and no other word does. */
  lemma LastFlags(b: Book, i: nat)
    requires Sized(b) && i < 80
    ensures SnapshotWords(b, NUM_STOCKS)[i].last <==> i in {19, 39, 59, 79}
  {
    hide BookPrices, BookQuantities, SnapshotWords, SideWords;
    var s, k := i / 20, i % 20;
    StockWordsAt(b, NUM_STOCKS, s, k);
    if k < 10 {
      SideFlagAt(BookPrices(b, NUM_STOCKS + s), BookQuantities(b, NUM_STOCKS + s), 5, false, k);
    } else {
      SideFlagAt(BookPrices(b, s), BookQuantities(b, s), 5, true, k - 10);
    }
  }

  lemma {:induction false} StockWordsAt(b: Book, n: nat, s: nat, k: nat)
    requires Sized(b) && s < n <= NUM_STOCKS && k < 20
    ensures SnapshotWords(b, n)[20 * s + k] == StockWords(b, s)[k]
    decreases n
  {
    hide StockWords;
    if s < n - 1 { StockWordsAt(b, n - 1, s, k); }
  }

  /** Pair j of stock s: asks are pairs 0 to 4, bids 5 to 9. */
  ghost function PairPrice(d: seq<nat>, s: nat, j: nat): nat
    requires |d| == SNAPSHOT_WORDS && s < NUM_STOCKS && j < 10
  {
    d[20 * s + 2 * j]
  }

  ghost function PairQty(d: seq<nat>, s: nat, j: nat): nat
    requires |d| == SNAPSHOT_WORDS && s < NUM_STOCKS && j < 10
  {
    d[20 * s + 2 * j + 1]
  }

  /** Every quantity is positive and every price is on its stock's ladder. */
  ghost predicate SnapshotOK(d: seq<nat>) {
    && |d| == SNAPSHOT_WORDS
    && forall s, j :: 0 <= s < NUM_STOCKS && 0 <= j < 10 ==>
         && PairQty(d, s, j) >= 1
         && MinPrice(s) <= PairPrice(d, s, j) <= MinPrice(s) + (MAX_LEVELS - 1) * TICK
  }

  lemma TopBounds(q: seq<nat>, side: nat, min: nat, i: nat)
    requires |q| == MAX_LEVELS && i < 5
    ensures TopQuantities(q, side)[i] >= 1
    ensures min <= TopPrices(q, side, min, TICK)[i] <= min + (MAX_LEVELS - 1) * TICK
  {
    TopLevelsAreTop(q, side, 5);
  }

  lemma PairOK(b: Book, s: nat, j: nat)
    requires Sized(b) && s < NUM_STOCKS && j < 10
    ensures var d := Data(SnapshotWords(b, NUM_STOCKS));
            PairQty(d, s, j) >= 1 && MinPrice(s) <= PairPrice(d, s, j) <= MinPrice(s) + (MAX_LEVELS - 1) * TICK
  {
    hide TopPrices, TopQuantities, SnapshotWords, PairPrice, PairQty;
    PairAt(b, s, j);
    var bk := if j < 5 then NUM_STOCKS + s else s;
    TopBounds(b.levels[bk], if bk < NUM_STOCKS then SIDE_BID else SIDE_ASK, MinPrice(s), j % 5);
  }

  /** Every published snapshot is well formed, so each stock's total weight is positive. */
  lemma SnapshotIsOK(b: Book)
    requires Sized(b)
    ensures SnapshotOK(Data(SnapshotWords(b, NUM_STOCKS)))
  {
    hide SnapshotWords, PairPrice, PairQty;
    forall s, j | 0 <= s < NUM_STOCKS && 0 <= j < 10
      ensures var d := Data(SnapshotWords(b, NUM_STOCKS));
              PairQty(d, s, j) >= 1 && MinPrice(s) <= PairPrice(d, s, j) <= MinPrice(s) + (MAX_LEVELS - 1) * TICK
    {
      PairOK(b, s, j);
    }
  }

  /** Where each published price and quantity sits in the snapshot. */
  lemma PairAt(b: Book, s: nat, j: nat)
    requires Sized(b) && s < NUM_STOCKS && j < 10
    ensures var d := Data(SnapshotWords(b, NUM_STOCKS));
            var bk := if j < 5 then NUM_STOCKS + s else s;
            PairPrice(d, s, j) == BookPrices(b, bk)[j % 5] && PairQty(d, s, j) == BookQuantities(b, bk)[j % 5]
  {
    hide BookPrices, BookQuantities, SnapshotWords;
    StockWordsAt(b, NUM_STOCKS, s, 2 * j);
    StockWordsAt(b, NUM_STOCKS, s, 2 * j + 1);
    if j < 5 {
      SideWordAt(BookPrices(b, NUM_STOCKS + s), BookQuantities(b, NUM_STOCKS + s), 5, false, j);
    } else {
      SideWordAt(BookPrices(b, s), BookQuantities(b, s), 5, true, j - 5);
    }
  }

  /** So whatever the stage publishes over a run is fit for the parser. */
  lemma PublishedIsOK(ins: seq<Option<Message>>, k: nat)
    requires InputsInRange(ins) && k < |Published(ins)|
    ensures SnapshotOK(Data(Published(ins)[k]))
  {
    hide SnapshotWords, SnapshotOK, HwRun, Published;
    SnapshotShows(ins, k);
    SnapshotIsOK(HwRun(Taken(ins)[..20 * (k + 1)]));
  }
}
