/** What a run of messages leaves in force, kept without any book: the reference for what the books hold. */
module Ledgers {
  import opened Words
  import opened Books
  import opened BookRuns
  import opened LowPrices
  import opened SoftwareBooks

  /** One id: free, or the order last added under it and what is left of it. */
  datatype Slot = Free | Open(stock: nat, buySell: nat, price: nat, left: nat)

  /** One message: an add takes its id over, a cancel or execution cuts it, and what has nothing left is freed. */
  ghost function Entered(g: seq<Slot>, m: Message): (r: seq<Slot>)
    requires |g| == 1024
    ensures |r| == 1024
  {
    if m.stock >= 4 || m.id >= 1024 then g
    else if m.kind == 1 then g[m.id := Open(m.stock, m.buySell, m.price, m.shares)]
    else if m.kind !in {2, 4, 8} || g[m.id].Free? then g
    else if m.kind == 8 || m.shares >= g[m.id].left then g[m.id := Free]
    else g[m.id := g[m.id].(left := g[m.id].left - m.shares)]
  }

  ghost function LedgerOf(ms: seq<Message>): (g: seq<Slot>)
    ensures |g| == 1024
  {
    if ms == [] then seq(1024, _ => Free) else Entered(LedgerOf(ms[..|ms| - 1]), Last(ms))
  }

  /** Level l of a stock's ladder stands for the prices of its tick, the last level for all other prices as well. */
  ghost predicate AtLevel(price: nat, s: nat, l: nat)
    requires s < 4
  {
    if MinPrice(s) <= price < MinPrice(s) + 600 * 255 then MinPrice(s) + 600 * l <= price < MinPrice(s) + 600 * (l + 1)
    else l == 255
  }

  /** What an order has left, if it is one of stock s on that side whose price is at level l. */
  ghost function LeftAt(x: Slot, s: nat, side: nat, l: nat): nat
    requires s < 4
  {
    if x.Open? && x.stock == s && x.buySell == side && AtLevel(x.price, s, l) then x.left else 0
  }

  /** The sum of that over the first n ids. */
  ghost function Total(g: seq<Slot>, s: nat, side: nat, l: nat, n: nat): nat
    requires s < 4 && n <= |g|
  {
    if n == 0 then 0 else Total(g, s, side, l, n - 1) + LeftAt(g[n - 1], s, side, l)
  }

  /** On the ladder's own ticks a level is one price. */
  lemma OnTick(price: nat, s: nat, l: nat)
    requires s < 4 && l < 256 && MinPrice(s) <= price <= MinPrice(s) + 600 * 255 && (price - MinPrice(s)) % 600 == 0
    ensures AtLevel(price, s, l) <==> price == MinPrice(s) + 600 * l
  {
    var k := (price - MinPrice(s)) / 600;
    assert price == MinPrice(s) + 600 * k;
  }

  /** Something rests at a level exactly when some order has something left there. */
  lemma {:induction false} SomeLeft(g: seq<Slot>, s: nat, side: nat, l: nat, n: nat)
    requires s < 4 && n <= |g|
    ensures Total(g, s, side, l, n) > 0 <==> exists id :: 0 <= id < n && LeftAt(g[id], s, side, l) > 0
    decreases n
  {
    hide LeftAt;
    if n > 0 { SomeLeft(g, s, side, l, n - 1); }
  }

  /** Message k, if it cuts an order, names the stock of that order. */
  ghost predicate OwnSlotAt(ms: seq<Message>, k: nat)
    requires k < |ms|
  {
    var m := ms[k];
    m.stock < 4 && m.id < 1024 && m.kind in {2, 4, 8} ==>
      var x := LedgerOf(ms[..k])[m.id];
      x.Open? ==> x.stock == m.stock
  }

  /** Message k does not add an id that has shares left. */
  ghost predicate NothingLeftAt(ms: seq<Message>, k: nat)
    requires k < |ms|
  {
    var m := ms[k];
    m.stock < 4 && m.id < 1024 && m.kind == 1 ==>
      var x := LedgerOf(ms[..k])[m.id];
      x.Open? ==> x.left == 0
  }

  // ---------- the hardware's order list is the ledger ----------

  ghost predicate SlotMatches(b: Book, h: seq<nat>, g: seq<Slot>, id: nat)
    requires Sized(b) && |h| == |g| == 1024 && id < 1024
  {
    && (b.valid[id] <==> g[id].Open?)
    && (g[id].Open? ==>
          && b.qty[id] == g[id].left && b.side[id] == g[id].buySell && h[id] == g[id].stock < 4
          && 0 <= b.index[id] < 256 && g[id].price < WORD && HwIndex(g[id].stock, g[id].price) == b.index[id])
  }

  ghost predicate Matches(b: Book, h: seq<nat>, g: seq<Slot>) {
    Sized(b) && |h| == |g| == 1024 && forall id :: 0 <= id < 1024 ==> SlotMatches(b, h, g, id)
  }

  lemma MatchesStep(b: Book, h: seq<nat>, g: seq<Slot>, m: Message)
    requires WF(b) && Fits(b) && InRange(m) && Matches(b, h, g)
    ensures Matches(HwStep(b, m), HomeStep(h, m), Entered(g, m))
  {
    var c, i, r := HwStep(b, m), HomeStep(h, m), Entered(g, m);
    hide HwIndex, Fits;
    if m.stock < 4 && m.id < 1024 {
      assert SlotMatches(b, h, g, m.id);
      assert SlotMatches(c, i, r, m.id);
      forall id | 0 <= id < 1024 && id != m.id ensures SlotMatches(c, i, r, id) {
        assert SlotMatches(b, h, g, id);
      }
    }
  }

  /** Whatever the messages, the order list holds exactly the open orders, with what is left of each. */
  lemma {:induction false} RunMatches(ms: seq<Message>)
    requires AllInRange(ms)
    ensures Matches(HwRun(ms), Home(ms), LedgerOf(ms))
    decreases |ms|
  {
    hide HwStep, HomeStep, Entered, HwIndex;
    if ms != [] {
      var p := ms[..|ms| - 1];
      hide Matches;
      RunUnfold(ms);
      RunMatches(p);
      RunFits(p);
      MatchesStep(HwRun(p), Home(p), LedgerOf(p), Last(ms));
    }
  }

  /** The order list of the hardware is the ledger: an id is live if and only if it is open, with what it has left. */
  lemma OrderListIsLedger(ms: seq<Message>, id: nat)
    requires AllInRange(ms) && id < 1024
    ensures var b, x := HwRun(ms), LedgerOf(ms)[id];
            && (b.valid[id] <==> x.Open?)
            && (x.Open? ==> b.qty[id] == x.left && b.side[id] == x.buySell && x.stock < 4)
            && (x.Open? ==> 0 <= b.index[id] < 256 && AtLevel(x.price, x.stock, b.index[id]))
  {
    RunMatches(ms);
    assert SlotMatches(HwRun(ms), Home(ms), LedgerOf(ms), id);
    var x := LedgerOf(ms)[id];
    hide HwRun, LedgerOf;
    if x.Open? { IndexIsLevel(x.stock, x.price, HwIndex(x.stock, x.price)); }
  }

  lemma IndexIsLevel(s: nat, price: nat, l: nat)
    requires s < 4 && price < WORD && l < 256
    ensures HwIndex(s, price) == l <==> AtLevel(price, s, l)
  {
    var min := MinPrice(s);
    if price >= min {
      assert (price - min) % WORD == price - min;
    } else {
      assert (price - min) % WORD == price - min + WORD;
    }
  }

  // ---------- the conditions of a run, on messages alone ----------

  /** Own-stock removals, said on messages alone. */
  lemma OwnStockIsLedger(ms: seq<Message>)
    requires AllInRange(ms)
    ensures OwnStock(ms) <==> forall k :: 0 <= k < |ms| ==> OwnSlotAt(ms, k)
  {
    hide HwRun, Home, LedgerOf;
    forall k | 0 <= k < |ms| ensures OwnStockAt(ms, k) <==> OwnSlotAt(ms, k) {
      RunMatches(ms[..k]);
      if Removal(ms[k]) { assert SlotMatches(HwRun(ms[..k]), Home(ms[..k]), LedgerOf(ms[..k]), ms[k].id); }
    }
  }

  /** No live id with shares left is added again, said on messages alone. */
  lemma NoGhostsIsLedger(ms: seq<Message>)
    requires AllInRange(ms)
    ensures NoGhosts(ms) <==> forall k :: 0 <= k < |ms| ==> NothingLeftAt(ms, k)
  {
    hide HwRun, Home, LedgerOf;
    forall k | 0 <= k < |ms| ensures NoGhostAt(ms, k) <==> NothingLeftAt(ms, k) {
      RunMatches(ms[..k]);
      if Accepted(ms[k]) { assert SlotMatches(HwRun(ms[..k]), Home(ms[..k]), LedgerOf(ms[..k]), ms[k].id); }
    }
  }

  // ---------- the ladders are the ledger ----------

  lemma {:induction false} RestingIsTotal(b: Book, h: seq<nat>, g: seq<Slot>, s: nat, side: nat, l: nat, n: nat)
    requires Matches(b, h, g) && Homed(h) && s < 4 && side < 2 && l < 256 && n <= 1024
    ensures Resting(b, h, 4 * side + s, l, n) == Total(g, s, side, l, n)
    decreases n
  {
    if n > 0 {
      RestingIsTotal(b, h, g, s, side, l, n - 1);
      assert SlotMatches(b, h, g, n - 1);
      if g[n - 1].Open? { IndexIsLevel(g[n - 1].stock, g[n - 1].price, l); }
      hide HwIndex, AtLevel, Resting, Total, Matches;
    }
  }

  /** Level l of the bids and of the asks of stock s is what the ledger has left there. */
  ghost predicate LevelIsLedger(b: Book, g: seq<Slot>, s: nat, l: nat)
    requires Sized(b) && |g| == 1024 && s < 4 && l < 256
  {
    b.levels[s][l] == Total(g, s, 0, l, 1024) && b.levels[4 + s][l] == Total(g, s, 1, l, 1024)
  }

  /** It is at least that. */
  ghost predicate LevelCovers(b: Book, g: seq<Slot>, s: nat, l: nat)
    requires Sized(b) && |g| == 1024 && s < 4 && l < 256
  {
    b.levels[s][l] >= Total(g, s, 0, l, 1024) && b.levels[4 + s][l] >= Total(g, s, 1, l, 1024)
  }

  lemma SurplusIsLedger(b: Book, h: seq<nat>, g: seq<Slot>, s: nat, l: nat)
    requires Matches(b, h, g) && Homed(h) && s < 4 && l < 256
    ensures LevelIsLedger(b, g, s, l) <==> Surplus(b, h, s, l) == 0 && Surplus(b, h, 4 + s, l) == 0
    ensures LevelCovers(b, g, s, l) <==> Surplus(b, h, s, l) >= 0 && Surplus(b, h, 4 + s, l) >= 0
  {
    RestingIsTotal(b, h, g, s, 0, l, 1024);
    RestingIsTotal(b, h, g, s, 1, l, 1024);
    hide Matches, Resting, Total;
  }

  lemma ExactIsLedger(b: Book, h: seq<nat>, g: seq<Slot>)
    requires Sized(b) && |g| == 1024 && Matches(b, h, g) && Homed(h)
    ensures Exact(b, h) <==> forall s, l :: 0 <= s < 4 && 0 <= l < 256 ==> LevelIsLedger(b, g, s, l)
    ensures Backed(b, h) ==> forall s, l :: 0 <= s < 4 && 0 <= l < 256 ==> LevelCovers(b, g, s, l)
  {
    hide Matches, Surplus, LevelIsLedger, LevelCovers;
    if Backed(b, h) {
      forall s, l | 0 <= s < 4 && 0 <= l < 256 ensures LevelCovers(b, g, s, l) {
        SurplusIsLedger(b, h, g, s, l);
        assert Surplus(b, h, s, l) >= 0 && Surplus(b, h, 4 + s, l) >= 0;
      }
    }
    if Exact(b, h) {
      forall s, l | 0 <= s < 4 && 0 <= l < 256 ensures LevelIsLedger(b, g, s, l) {
        SurplusIsLedger(b, h, g, s, l);
        assert Surplus(b, h, s, l) == 0 && Surplus(b, h, 4 + s, l) == 0;
      }
    }
    if forall s, l :: 0 <= s < 4 && 0 <= l < 256 ==> LevelIsLedger(b, g, s, l) {
      forall bk, l | 0 <= bk < 8 && 0 <= l < 256 ensures Surplus(b, h, bk, l) == 0 {
        SurplusIsLedger(b, h, g, if bk < 4 then bk else bk - 4, l);
      }
    }
  }

  /** Over every run with own-stock removals each level holds at least what the ledger's orders have left there, and
      every level holds exactly that if and only if no id with shares left was added again. */
  lemma LevelsAreLedger(ms: seq<Message>)
    requires AllInRange(ms) && OwnStock(ms) && TotalAdded(ms) < WORD
    ensures var b, g := HwRun(ms), LedgerOf(ms);
            && (forall s, l :: 0 <= s < 4 && 0 <= l < 256 ==> LevelCovers(b, g, s, l))
            && ((forall s, l :: 0 <= s < 4 && 0 <= l < 256 ==> LevelIsLedger(b, g, s, l)) <==> NoGhosts(ms))
  {
    hide HwRun, LedgerOf, Home, OwnStock, NoGhosts, Exact, Backed, LevelIsLedger, LevelCovers, Matches, LevelsAtMost;
    RunBacked(ms);
    RunMatches(ms);
    ExactIsLedger(HwRun(ms), Home(ms), LedgerOf(ms));
  }

  /** A book whose ladders and order list are those of the ledger. */
  ghost predicate HoldsLedger(b: Book, g: seq<Slot>) {
    && Sized(b) && |g| == 1024
    && (forall s, l :: 0 <= s < 4 && 0 <= l < 256 ==> LevelIsLedger(b, g, s, l))
    && forall id :: 0 <= id < 1024 ==> OrderIsLedger(b, g, id)
  }

  ghost predicate OrderIsLedger(b: Book, g: seq<Slot>, id: nat)
    requires Sized(b) && |g| == 1024 && id < 1024
  {
    (b.valid[id] <==> g[id].Open?) && (g[id].Open? ==> b.qty[id] == g[id].left && b.side[id] == g[id].buySell)
  }

  lemma HardwareHoldsLedger(ms: seq<Message>)
    requires AllInRange(ms) && OwnStock(ms) && NoGhosts(ms) && TotalAdded(ms) < WORD
    ensures HoldsLedger(HwRun(ms), LedgerOf(ms))
  {
    hide HwRun, LedgerOf, OwnStock, NoGhosts, LevelIsLedger, Home, SlotMatches;
    LevelsAreLedger(ms);
    RunMatches(ms);
    forall id | 0 <= id < 1024 ensures OrderIsLedger(HwRun(ms), LedgerOf(ms), id) {
      assert SlotMatches(HwRun(ms), Home(ms), LedgerOf(ms), id);
      OrderListIsLedger(ms, id);
    }
    hide Matches;
  }

  lemma HoldsNormal(b: Book, g: seq<Slot>)
    requires PyWF(b) && HoldsLedger(Normal(b), g)
    ensures HoldsLedger(b, g)
  {
    hide Total;
    forall s, l | 0 <= s < 4 && 0 <= l < 256 ensures LevelIsLedger(b, g, s, l) {
      assert LevelIsLedger(Normal(b), g, s, l);
    }
    forall id | 0 <= id < 1024 ensures OrderIsLedger(b, g, id) { assert OrderIsLedger(Normal(b), g, id); }
  }

  /** Both books hold the ledger, the software's with snapshots anywhere and down to one tick below the ladder. */
  lemma BooksHoldLedger(ins: seq<Input>)
    requires AllInRange(Sent(ins)) && OwnStock(Sent(ins)) && NoGhosts(Sent(ins)) && TotalAdded(Sent(ins)) < WORD
    ensures HoldsLedger(HwRun(Sent(ins)), LedgerOf(Sent(ins)))
    ensures PricesAbove(Sent(ins), 600) ==>
              SwTreeRun(ins).Some? && HoldsLedger(SwTreeRun(ins).value.book, LedgerOf(Sent(ins)))
  {
    hide HwRun, LedgerOf, SwTreeRun, Sent, OwnStock, NoGhosts, PricesAbove, HoldsLedger, Normal;
    HardwareHoldsLedger(Sent(ins));
    if PricesAbove(Sent(ins), TICK) {
      NearLevelsAgree(ins);
      HoldsNormal(SwTreeRun(ins).value.book, LedgerOf(Sent(ins)));
    }
  }
}
