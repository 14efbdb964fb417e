/** The order book as a value: the hardware's step, the software twin's step, and when they agree. */
module Books {
  import opened Words

  const BOOKS := 2 * NUM_STOCKS

  /** A parsed message; kind is 1 add, 2 cancel, 4 execute, 8 delete, others are ignored. */
  datatype Message = Message(stock: nat, id: nat, shares: nat, price: nat, kind: nat, buySell: nat)

  predicate InRange(m: Message) {
    m.stock < WORD && m.id < WORD && m.shares < WORD && m.price < WORD && m.kind < 16 && m.buySell < 2
  }

  /** The eight ladders (bids first) and the order list; index is signed because the software's can be. */
  datatype Book = Book(levels: seq<seq<nat>>, valid: seq<bool>, index: seq<int>, qty: seq<nat>, side: seq<nat>)

  /** The ladder of a stock's side, with the software's and hardware's test: bid or anything else. */
  function BookOf(stock: nat, side: nat): (bk: nat)
    requires stock < NUM_STOCKS
    ensures bk < BOOKS
  {
    if side == SIDE_BID then stock else NUM_STOCKS + stock
  }

  predicate Sized(b: Book) {
    && |b.levels| == BOOKS && (forall bk :: 0 <= bk < BOOKS ==> |b.levels[bk]| == MAX_LEVELS)
    && |b.valid| == |b.index| == |b.qty| == |b.side| == MAX_ORDERS
    && (forall id :: 0 <= id < MAX_ORDERS && b.valid[id] ==> b.side[id] < 2)
  }

  /** Every stored level index is a level. */
  predicate WF(b: Book) {
    Sized(b) && forall id :: 0 <= id < MAX_ORDERS ==> 0 <= b.index[id] < MAX_LEVELS
  }

  /** Every stored level index is one that the software can use on a list of MAX_LEVELS elements. */
  predicate PyWF(b: Book) {
    Sized(b) && forall id :: 0 <= id < MAX_ORDERS ==> -MAX_LEVELS <= b.index[id] < MAX_LEVELS
  }

  /** Every quantity fits in a hardware word. */
  predicate Fits(b: Book) {
    && (forall bk, l :: 0 <= bk < |b.levels| && 0 <= l < |b.levels[bk]| ==> b.levels[bk][l] < WORD)
    && (forall id :: 0 <= id < |b.qty| ==> b.qty[id] < WORD)
  }

  function Empty(): (b: Book)
    ensures WF(b) && Fits(b)
  {
    var ladder: seq<nat> := seq(MAX_LEVELS, _ => 0);
    Book(seq(BOOKS, _ => ladder), seq(MAX_ORDERS, _ => false), seq(MAX_ORDERS, _ => 0),
         seq(MAX_ORDERS, _ => 0), seq(MAX_ORDERS, _ => SIDE_NONE))
  }

  function WithLevel(b: Book, bk: nat, l: nat, v: nat): Book
    requires Sized(b) && bk < BOOKS && l < MAX_LEVELS
  {
    var ladder: seq<nat> := b.levels[bk][l := v];
    b.(levels := b.levels[bk := ladder])
  }

  function WithOrder(b: Book, id: nat, valid: bool, index: int, qty: nat, side: nat): Book
    requires Sized(b) && id < MAX_ORDERS
  {
    b.(valid := b.valid[id := valid], index := b.index[id := index], qty := b.qty[id := qty],
      side := b.side[id := side])
  }

  // ---------- the hardware ----------

  /** 32-bit subtraction, division, and clamping to the last level. */
  function HwIndex(stock: nat, price: nat): (l: nat)
    requires stock < NUM_STOCKS
    ensures l < MAX_LEVELS
  {
    var idx := (price - MinPrice(stock)) % WORD / TICK;
    if idx >= MAX_LEVELS then MAX_LEVELS - 1 else idx
  }

  /** The side flag comes back through a one-bit result, so "none" (2) reads as 0. */
  function CheckAskBid(b: Book, id: nat): (flag: nat)
    requires Sized(b)
    ensures flag < 2
  {
    (if id >= MAX_ORDERS || !b.valid[id] then SIDE_NONE else b.side[id]) % 2
  }

  /** How much a cancel takes from an order. */
  function RemoveQty(b: Book, id: nat, cancelQty: nat): (r: nat)
    requires Sized(b) && id < MAX_ORDERS
    ensures r <= b.qty[id]
  {
    if cancelQty == CANCEL_ALL || cancelQty > b.qty[id] then b.qty[id] else cancelQty
  }

  function HwAdd(b: Book, bk: nat, l: nat, m: Message): Book
    requires Sized(b) && bk < BOOKS && l < MAX_LEVELS
  {
    if m.id >= MAX_ORDERS then b
    else WithOrder(WithLevel(b, bk, l, (b.levels[bk][l] + m.shares) % WORD), m.id, true, l, m.shares, m.buySell)
  }

  function HwCancel(b: Book, bk: nat, id: nat, cancelQty: nat): Book
    requires WF(b) && bk < BOOKS
  {
    if id >= MAX_ORDERS || !b.valid[id] then b
    else
      var l, was, r := b.index[id], b.qty[id], RemoveQty(b, id, cancelQty);
      var c := WithLevel(b, bk, l, (b.levels[bk][l] - r) % WORD);
      if r == was then WithOrder(c, id, false, l, 0, SIDE_DELETED)
      else WithOrder(c, id, true, l, was - r, b.side[id])
  }

  /** One message through the hardware book. */
  function HwStep(b: Book, m: Message): (c: Book)
    requires WF(b) && InRange(m)
    ensures WF(c)
  {
    if m.stock >= NUM_STOCKS then b
    else if m.kind == 1 then HwAdd(b, BookOf(m.stock, m.buySell), HwIndex(m.stock, m.price), m)
    else if m.kind in {2, 4, 8} then
      var flag := CheckAskBid(b, m.id);
      if flag == SIDE_NONE then b
      else HwCancel(b, BookOf(m.stock, flag), m.id, CancelArg(m))
    else b
  }

  function CancelArg(m: Message): nat {
    if m.kind == 8 then CANCEL_ALL else m.shares
  }

  // ---------- the software twin ----------

  /** Unbounded floor division; only the upper end is clamped. */
  function SwIndex(stock: nat, price: nat): (idx: int)
    requires stock < NUM_STOCKS
    ensures idx < MAX_LEVELS
  {
    var idx := (price - MinPrice(stock)) / TICK;
    if idx >= MAX_LEVELS then MAX_LEVELS - 1 else idx
  }

  /** The element a list of MAX_LEVELS elements has at idx, where -1 is the last one. */
  function PyLevel(idx: int): (l: nat)
    requires -MAX_LEVELS <= idx < MAX_LEVELS
    ensures l < MAX_LEVELS
  {
    Element(MAX_LEVELS, idx)
  }

  /** None: the list access raised IndexError. */
  function SwAdd(b: Book, m: Message): Option<Book>
    requires PyWF(b) && m.stock < NUM_STOCKS
  {
    if m.id >= MAX_ORDERS then Some(b)
    else
      var bk, idx := BookOf(m.stock, m.buySell), SwIndex(m.stock, m.price);
      if idx < -MAX_LEVELS then None
      else
        var l := PyLevel(idx);
        Some(WithOrder(WithLevel(b, bk, l, b.levels[bk][l] + m.shares), m.id, true, idx, m.shares, m.buySell))
  }

  function SwCancel(b: Book, stock: nat, id: nat, cancelQty: nat): Book
    requires PyWF(b) && stock < NUM_STOCKS
  {
    if id >= MAX_ORDERS || !b.valid[id] then b
    else
      var bk, l, was := BookOf(stock, b.side[id]), PyLevel(b.index[id]), b.qty[id];
      var wanted := RemoveQty(b, id, cancelQty);
      var removed := if wanted > b.levels[bk][l] then b.levels[bk][l] else wanted;
      var c := WithLevel(b, bk, l, b.levels[bk][l] - removed);
      if was - removed == 0 then WithOrder(c, id, false, b.index[id], 0, SIDE_DELETED)
      else WithOrder(c, id, true, b.index[id], was - removed, b.side[id])
  }

  /** One message through the software book. */
  function SwStep(b: Book, m: Message): (c: Option<Book>)
    requires PyWF(b) && InRange(m)
    ensures c.Some? ==> PyWF(c.value)
  {
    if m.stock >= NUM_STOCKS then Some(b)
    else if m.kind == 1 then SwAdd(b, m)
    else if m.kind in {2, 4, 8} then Some(SwCancel(b, m.stock, m.id, CancelArg(m)))
    else Some(b)
  }

  // ---------- agreement ----------

  /** The two price ladders agree on a price exactly when it is not below the ladder. */
  lemma IndexAgreement(stock: nat, price: nat)
    requires stock < NUM_STOCKS && price < WORD
    ensures SwIndex(stock, price) == HwIndex(stock, price) <==> price >= MinPrice(stock)
    ensures price >= MinPrice(stock) ==> HwIndex(stock, price) == SwIndex(stock, price)
    ensures price < MinPrice(stock) ==> HwIndex(stock, price) == MAX_LEVELS - 1 && SwIndex(stock, price) < 0
  {
    var min := MinPrice(stock);
    if price >= min {
      assert (price - min) % WORD == price - min;
    } else {
      assert (price - min) % WORD == price - min + WORD;
    }
  }

  /** What a caller can check before sending m: the message cannot drive the twins apart. */
  predicate TwinGuard(b: Book, m: Message)
    requires WF(b)
  {
    if m.stock >= NUM_STOCKS || m.id >= MAX_ORDERS then true
    else if m.kind == 1 then
      && m.price >= MinPrice(m.stock)
      && b.levels[BookOf(m.stock, m.buySell)][HwIndex(m.stock, m.price)] + m.shares < WORD
    else if m.kind in {2, 4, 8} && b.valid[m.id] then
      RemoveQty(b, m.id, CancelArg(m)) <= b.levels[BookOf(m.stock, b.side[m.id])][b.index[m.id]]
    else true
  }

  /** From equal books, the twins end in equal books exactly when the guard holds. */
  lemma TwinStep(b: Book, m: Message)
    requires WF(b) && Fits(b) && InRange(m)
    ensures SwStep(b, m) == Some(HwStep(b, m)) <==> TwinGuard(b, m)
  {
    if m.stock < NUM_STOCKS && m.id < MAX_ORDERS {
      if m.kind == 1 {
        TwinAdd(b, m);
      } else if m.kind in {2, 4, 8} && b.valid[m.id] {
        TwinCancel(b, m.stock, m.id, CancelArg(m));
      }
    }
  }

  lemma TwinAdd(b: Book, m: Message)
    requires WF(b) && Fits(b) && InRange(m) && m.stock < NUM_STOCKS && m.id < MAX_ORDERS && m.kind == 1
    ensures SwAdd(b, m) == Some(HwStep(b, m)) <==> TwinGuard(b, m)
  {
    var bk, l := BookOf(m.stock, m.buySell), HwIndex(m.stock, m.price);
    var hw := HwStep(b, m);
    IndexAgreement(m.stock, m.price);
    assert hw.index[m.id] == l && hw.levels[bk][l] == (b.levels[bk][l] + m.shares) % WORD;
    if m.price >= MinPrice(m.stock) {
      var sw := SwAdd(b, m).value;
      assert sw.levels[bk][l] == b.levels[bk][l] + m.shares;
    } else if SwAdd(b, m).Some? {
      assert SwAdd(b, m).value.index[m.id] < 0;
    }
  }

  lemma TwinCancel(b: Book, stock: nat, id: nat, cancelQty: nat)
    requires WF(b) && Fits(b) && stock < NUM_STOCKS && id < MAX_ORDERS && b.valid[id]
    ensures SwCancel(b, stock, id, cancelQty) == HwCancel(b, BookOf(stock, b.side[id]), id, cancelQty)
      <==> RemoveQty(b, id, cancelQty) <= b.levels[BookOf(stock, b.side[id])][b.index[id]]
  {
    var bk, l, r := BookOf(stock, b.side[id]), b.index[id], RemoveQty(b, id, cancelQty);
    var hw, sw := HwCancel(b, bk, id, cancelQty), SwCancel(b, stock, id, cancelQty);
    assert hw.levels[bk][l] == (b.levels[bk][l] - r) % WORD;
    if r <= b.levels[bk][l] {
      assert (b.levels[bk][l] - r) % WORD == b.levels[bk][l] - r;
    } else {
      assert (b.levels[bk][l] - r) % WORD == b.levels[bk][l] - r + WORD;
      assert sw.levels[bk][l] == 0;
    }
  }

  // ---------- what a removal takes ----------

  /** From b to c order id gave up so many shares, level l of ladder bk came to rest, and nothing else changed. An order
      with nothing left is deleted. */
  ghost predicate IsCut(b: Book, c: Book, bk: nat, l: nat, id: nat, taken: nat, rest: nat)
    requires Sized(b) && bk < 8 && l < 256 && id < 1024 && taken <= b.qty[id]
  {
    var ladder: seq<nat> := b.levels[bk][l := rest];
    && c.levels == b.levels[bk := ladder] && c.index == b.index
    && c.qty == b.qty[id := b.qty[id] - taken] && c.valid == b.valid[id := taken < b.qty[id]]
    && c.side == b.side[id := if taken < b.qty[id] then b.side[id] else 3]
  }

  /** What a message wants of its order: everything for a delete, and never more than is left. */
  function Wanted(m: Message, left: nat): (w: nat)
    ensures w <= left
  {
    if m.kind == 8 || m.shares > left then left else m.shares
  }

  /** The hardware takes what is wanted from the order, and from the level modulo 2^32. */
  lemma HwCut(b: Book, m: Message)
    requires WF(b) && Fits(b) && InRange(m) && m.stock < 4 && m.id < 1024 && m.kind in {2, 4, 8} && b.valid[m.id]
    ensures var bk, l := (if b.side[m.id] == 0 then m.stock else 4 + m.stock), b.index[m.id];
            var w, level := Wanted(m, b.qty[m.id]), b.levels[bk][l];
            IsCut(b, HwStep(b, m), bk, l, m.id, w, if w <= level then level - w else level - w + 0x1_0000_0000)
  {
    var bk, l := (if b.side[m.id] == 0 then m.stock else 4 + m.stock), b.index[m.id];
    var w, level := Wanted(m, b.qty[m.id]), b.levels[bk][l];
    assert RemoveQty(b, m.id, CancelArg(m)) == w;
    assert (level - w) % WORD == if w <= level then level - w else level - w + 0x1_0000_0000;
    assert HwStep(b, m).index == b.index;
  }

  /** The software takes, from both alike, the smaller of what is wanted and what the level has. */
  lemma SwCut(b: Book, m: Message)
    requires PyWF(b) && InRange(m) && m.stock < 4 && m.id < 1024 && m.kind in {2, 4, 8} && b.valid[m.id]
    requires b.qty[m.id] < WORD
    ensures var bk, l := (if b.side[m.id] == 0 then m.stock else 4 + m.stock), PyLevel(b.index[m.id]);
            var w, level := Wanted(m, b.qty[m.id]), b.levels[bk][l];
            var taken := if w < level then w else level;
            SwStep(b, m).Some? && IsCut(b, SwStep(b, m).value, bk, l, m.id, taken, level - taken)
  {
    assert RemoveQty(b, m.id, CancelArg(m)) == Wanted(m, b.qty[m.id]);
    assert SwStep(b, m).value.index == b.index;
  }

  lemma HwFits(b: Book, m: Message)
    requires WF(b) && Fits(b) && InRange(m)
    ensures Fits(HwStep(b, m))
  {
  }
}
