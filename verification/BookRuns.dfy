/** Whole runs of the order book: backing of live orders, no wrap-around, and the twins in lockstep. */
module BookRuns {
  import opened Words
  import opened Books

  ghost predicate AllInRange(ms: seq<Message>) {
    forall i :: 0 <= i < |ms| ==> InRange(ms[i])
  }

  ghost function HwRun(ms: seq<Message>): (b: Book)
    requires AllInRange(ms)
    ensures WF(b)
  {
    if ms == [] then Empty() else HwStep(HwRun(ms[..|ms| - 1]), Last(ms))
  }

  ghost function SwRun(ms: seq<Message>): (b: Option<Book>)
    requires AllInRange(ms)
    ensures b.Some? ==> PyWF(b.value)
  {
    if ms == [] then Some(Empty())
    else
      var c := SwRun(ms[..|ms| - 1]);
      if c.None? then None else SwStep(c.value, Last(ms))
  }

  /** An add that the book takes in. */
  predicate Accepted(m: Message) {
    m.kind == 1 && m.stock < NUM_STOCKS && m.id < MAX_ORDERS
  }

  predicate Removal(m: Message) {
    m.kind in {2, 4, 8} && m.stock < NUM_STOCKS && m.id < MAX_ORDERS
  }

  /** The stock each order was last added for; the order list does not keep it. */
  ghost function Home(ms: seq<Message>): (h: seq<nat>)
    ensures |h| == MAX_ORDERS && forall id :: 0 <= id < MAX_ORDERS ==> h[id] < NUM_STOCKS
  {
    if ms == [] then seq(MAX_ORDERS, _ => 0)
    else HomeStep(Home(ms[..|ms| - 1]), Last(ms))
  }

  /** All shares added so far. */
  ghost function TotalAdded(ms: seq<Message>): nat {
    if ms == [] then 0
    else TotalAdded(ms[..|ms| - 1]) + AddedBy(Last(ms))
  }

  /** Message k, if it cuts a live order, names the stock that order was added for. */
  ghost predicate OwnStockAt(ms: seq<Message>, k: nat)
    requires AllInRange(ms) && k < |ms|
  {
    Removal(ms[k]) && HwRun(ms[..k]).valid[ms[k].id] ==> Home(ms[..k])[ms[k].id] == ms[k].stock
  }

  ghost predicate OwnStock(ms: seq<Message>)
    requires AllInRange(ms)
  {
    forall k :: 0 <= k < |ms| ==> OwnStockAt(ms, k)
  }

  /** Message k does not add an id that is still live. */
  ghost predicate FreshAt(ms: seq<Message>, k: nat)
    requires AllInRange(ms) && k < |ms|
  {
    Accepted(ms[k]) ==> !HwRun(ms[..k]).valid[ms[k].id]
  }

  ghost predicate NoReAdd(ms: seq<Message>)
    requires AllInRange(ms)
  {
    forall k :: 0 <= k < |ms| ==> FreshAt(ms, k)
  }

  /** Message k does not add an id that is live with shares left. */
  ghost predicate NoGhostAt(ms: seq<Message>, k: nat)
    requires AllInRange(ms) && k < |ms|
  {
    Accepted(ms[k]) && HwRun(ms[..k]).valid[ms[k].id] ==> HwRun(ms[..k]).qty[ms[k].id] == 0
  }

  ghost predicate NoGhosts(ms: seq<Message>)
    requires AllInRange(ms)
  {
    forall k :: 0 <= k < |ms| ==> NoGhostAt(ms, k)
  }

  lemma NoReAddNoGhosts(ms: seq<Message>)
    requires AllInRange(ms) && NoReAdd(ms)
    ensures NoGhosts(ms)
  {
    hide HwRun;
    forall k | 0 <= k < |ms| ensures NoGhostAt(ms, k) { assert FreshAt(ms, k); }
  }

  /** No added price is more than slack below its stock's ladder. */
  ghost predicate PricesAbove(ms: seq<Message>, slack: int) {
    forall k :: 0 <= k < |ms| && Accepted(ms[k]) ==> ms[k].price >= MinPrice(ms[k].stock) - slack
  }

  ghost predicate PricesOnLadder(ms: seq<Message>) {
    PricesAbove(ms, 0)
  }

  lemma Shorter(ms: seq<Message>)
    requires AllInRange(ms) && ms != []
    ensures OwnStock(ms) ==> OwnStock(ms[..|ms| - 1])
    ensures NoReAdd(ms) ==> NoReAdd(ms[..|ms| - 1])
    ensures NoGhosts(ms) <==> NoGhosts(ms[..|ms| - 1]) && NoGhostAt(ms, |ms| - 1)
  {
    hide HwRun, Home;
    var p := ms[..|ms| - 1];
    forall k | 0 <= k < |p|
      ensures OwnStockAt(p, k) == OwnStockAt(ms, k) && FreshAt(p, k) == FreshAt(ms, k)
      ensures NoGhostAt(p, k) == NoGhostAt(ms, k)
    {
      assert p[..k] == ms[..k];
    }
  }

  // ---------- what rests at a level ----------

  /** The part of order id that rests at level l of ladder bk. */
  ghost function Share(b: Book, home: seq<nat>, bk: nat, l: nat, id: nat): nat
    requires Sized(b) && |home| == MAX_ORDERS && id < MAX_ORDERS
    requires home[id] < NUM_STOCKS
  {
    if b.valid[id] && BookOf(home[id], b.side[id]) == bk && b.index[id] == l then b.qty[id] else 0
  }

  ghost predicate Homed(home: seq<nat>) {
    |home| == MAX_ORDERS && forall id :: 0 <= id < MAX_ORDERS ==> home[id] < NUM_STOCKS
  }

  /** What the first k live orders have resting at level l of ladder bk. */
  ghost function Resting(b: Book, home: seq<nat>, bk: nat, l: nat, k: nat): nat
    requires Sized(b) && Homed(home) && k <= MAX_ORDERS
  {
    if k == 0 then 0 else Resting(b, home, bk, l, k - 1) + Share(b, home, bk, l, k - 1)
  }

  /** Two books whose order lists differ in one slot only. */
  ghost predicate SameButOne(b: Book, h: seq<nat>, c: Book, g: seq<nat>, id: nat) {
    && Sized(b) && Sized(c) && Homed(h) && Homed(g) && id < MAX_ORDERS
    && forall i :: 0 <= i < MAX_ORDERS && i != id ==>
         c.valid[i] == b.valid[i] && c.index[i] == b.index[i] && c.qty[i] == b.qty[i] &&
           c.side[i] == b.side[i] && g[i] == h[i]
  }

  lemma {:induction false} RestingChange(b: Book, h: seq<nat>, c: Book, g: seq<nat>, id: nat, bk: nat, l: nat, k: nat)
    requires SameButOne(b, h, c, g, id) && k <= MAX_ORDERS
    ensures Resting(c, g, bk, l, k) ==
            Resting(b, h, bk, l, k) + if id < k then Share(c, g, bk, l, id) - Share(b, h, bk, l, id) else 0
    decreases k
  {
    if k > 0 { RestingChange(b, h, c, g, id, bk, l, k - 1); }
  }

  lemma {:induction false} ShareIsResting(b: Book, home: seq<nat>, bk: nat, l: nat, id: nat, k: nat)
    requires Sized(b) && Homed(home) && id < k <= MAX_ORDERS
    ensures Resting(b, home, bk, l, k) >= Share(b, home, bk, l, id)
    decreases k
  {
    if id < k - 1 { ShareIsResting(b, home, bk, l, id, k - 1); }
  }

  lemma {:induction false} NothingRests(b: Book, home: seq<nat>, bk: nat, l: nat, k: nat)
    requires Sized(b) && Homed(home) && k <= MAX_ORDERS && forall id :: 0 <= id < MAX_ORDERS ==> !b.valid[id]
    ensures Resting(b, home, bk, l, k) == 0
    decreases k
  {
    if k > 0 { NothingRests(b, home, bk, l, k - 1); }
  }

  /** What level l of ladder bk holds beyond the live orders resting there. */
  ghost function Surplus(b: Book, home: seq<nat>, bk: nat, l: nat): int
    requires Sized(b) && Homed(home) && bk < BOOKS && l < MAX_LEVELS
  {
    b.levels[bk][l] - Resting(b, home, bk, l, MAX_ORDERS)
  }

  /** Every level holds at least what its live orders have resting there. */
  ghost predicate Backed(b: Book, home: seq<nat>)
    requires Sized(b) && Homed(home)
  {
    forall bk, l :: 0 <= bk < BOOKS && 0 <= l < MAX_LEVELS ==> Surplus(b, home, bk, l) >= 0
  }

  /** Every level holds exactly that. */
  ghost predicate Exact(b: Book, home: seq<nat>)
    requires Sized(b) && Homed(home)
  {
    forall bk, l :: 0 <= bk < BOOKS && 0 <= l < MAX_LEVELS ==> Surplus(b, home, bk, l) == 0
  }

  ghost predicate LevelsAtMost(b: Book, total: nat)
    requires Sized(b)
  {
    forall bk, l :: 0 <= bk < BOOKS && 0 <= l < MAX_LEVELS ==> b.levels[bk][l] <= total
  }

  /** An add leaves behind, at the level where its id rested, whatever that id still had. */
  lemma AddSurplus(b: Book, h: seq<nat>, m: Message, bk: nat, l: nat)
    requires WF(b) && Homed(h) && InRange(m) && Accepted(m) && bk < BOOKS && l < MAX_LEVELS
    requires b.levels[BookOf(m.stock, m.buySell)][HwIndex(m.stock, m.price)] + m.shares < WORD
    ensures Surplus(HwStep(b, m), HomeStep(h, m), bk, l) == Surplus(b, h, bk, l) + Share(b, h, bk, l, m.id)
  {
    RestingChange(b, h, HwStep(b, m), HomeStep(h, m), m.id, bk, l, MAX_ORDERS);
  }

  /** A backed order can be cut without the level wrapping. */
  lemma BackedGuard(b: Book, h: seq<nat>, m: Message)
    requires WF(b) && Homed(h) && Backed(b, h) && Removal(m) && b.valid[m.id] && h[m.id] == m.stock
    ensures RemoveQty(b, m.id, CancelArg(m)) <= b.levels[BookOf(m.stock, b.side[m.id])][b.index[m.id]]
  {
    var bk, l := BookOf(m.stock, b.side[m.id]), b.index[m.id];
    assert Surplus(b, h, bk, l) >= 0;
    ShareIsResting(b, h, bk, l, m.id, MAX_ORDERS);
  }

  /** What a removal of a live, backed order does to the book. */
  lemma RemovalShape(b: Book, m: Message)
    requires WF(b) && Fits(b) && InRange(m) && Removal(m) && b.valid[m.id]
    requires RemoveQty(b, m.id, CancelArg(m)) <= b.levels[BookOf(m.stock, b.side[m.id])][b.index[m.id]]
    ensures var c, bk, l, r := HwStep(b, m), BookOf(m.stock, b.side[m.id]), b.index[m.id],
        RemoveQty(b, m.id, CancelArg(m));
            && c.levels == WithLevel(b, bk, l, b.levels[bk][l] - r).levels
            && c.index == b.index && c.qty == b.qty[m.id := b.qty[m.id] - r]
            && c.valid == b.valid[m.id := r != b.qty[m.id]]
            && c.side == b.side[m.id := if r == b.qty[m.id] then SIDE_DELETED else b.side[m.id]]
  {
    var bk, l, r := BookOf(m.stock, b.side[m.id]), b.index[m.id], RemoveQty(b, m.id, CancelArg(m));
    assert (b.levels[bk][l] - r) % WORD == b.levels[bk][l] - r;
  }

  /** A removal takes as much from its level as from its order. */
  lemma RemovalSurplus(b: Book, h: seq<nat>, m: Message, bk: nat, l: nat)
    requires WF(b) && Homed(h) && Backed(b, h) && InRange(m) && Removal(m) && Fits(b) && bk < BOOKS && l < MAX_LEVELS
    requires b.valid[m.id] ==> h[m.id] == m.stock
    ensures Surplus(HwStep(b, m), h, bk, l) == Surplus(b, h, bk, l)
  {
    if b.valid[m.id] {
      BackedGuard(b, h, m);
      RemovalShape(b, m);
      hide HwStep, RemoveQty, Backed;
      RestingChange(b, h, HwStep(b, m), h, m.id, bk, l, MAX_ORDERS);
    } else {
      assert HwStep(b, m) == b;
    }
  }

  lemma {:induction false} RunFits(ms: seq<Message>)
    requires AllInRange(ms)
    ensures Fits(HwRun(ms))
    decreases |ms|
  {
    if ms != [] {
      RunFits(ms[..|ms| - 1]);
      HwFits(HwRun(ms[..|ms| - 1]), Last(ms));
    }
  }

  lemma EmptyExact()
    ensures Exact(Empty(), Home([]))
  {
    forall bk, l | 0 <= bk < BOOKS && 0 <= l < MAX_LEVELS
      ensures Surplus(Empty(), Home([]), bk, l) == 0
    {
      NothingRests(Empty(), Home([]), bk, l, MAX_ORDERS);
    }
  }

  function AddedBy(m: Message): nat {
    if Accepted(m) then m.shares else 0
  }

  ghost function HomeStep(h: seq<nat>, m: Message): seq<nat>
    requires |h| == MAX_ORDERS
  {
    if Accepted(m) then h[m.id := m.stock] else h
  }

  /** One message changes a surplus only by adding an id again, and then by what was left of that id there. */
  lemma StepSurplus(b: Book, h: seq<nat>, m: Message, total: nat, bk: nat, l: nat)
    requires WF(b) && Fits(b) && Homed(h) && Backed(b, h) && InRange(m)
    requires LevelsAtMost(b, total) && total + AddedBy(m) < WORD
    requires Removal(m) && b.valid[m.id] ==> h[m.id] == m.stock
    requires bk < BOOKS && l < MAX_LEVELS
    ensures Surplus(HwStep(b, m), HomeStep(h, m), bk, l) ==
            Surplus(b, h, bk, l) + if Accepted(m) then Share(b, h, bk, l, m.id) else 0
  {
    hide HwStep, Backed, Surplus;
    if Accepted(m) {
      assert b.levels[BookOf(m.stock, m.buySell)][HwIndex(m.stock, m.price)] <= total;
      AddSurplus(b, h, m, bk, l);
    } else if Removal(m) {
      RemovalSurplus(b, h, m, bk, l);
    } else {
      StepIdle(b, m);
    }
  }

  /** One message keeps the levels backed, and exact unless it adds a live id that has shares left. */
  lemma StepBacked(b: Book, h: seq<nat>, m: Message, total: nat)
    requires WF(b) && Fits(b) && Homed(h) && Backed(b, h) && InRange(m)
    requires LevelsAtMost(b, total) && total + AddedBy(m) < WORD
    requires Removal(m) && b.valid[m.id] ==> h[m.id] == m.stock
    ensures Backed(HwStep(b, m), HomeStep(h, m)) && LevelsAtMost(HwStep(b, m), total + AddedBy(m))
    ensures Exact(HwStep(b, m), HomeStep(h, m)) <==>
            Exact(b, h) && (Accepted(m) && b.valid[m.id] ==> b.qty[m.id] == 0)
  {
    StepBounded(b, h, m, total);
    var c, g := HwStep(b, m), HomeStep(h, m);
    hide HwStep, Surplus, LevelsAtMost;
    forall bk, l | 0 <= bk < BOOKS && 0 <= l < MAX_LEVELS
      ensures Surplus(c, g, bk, l) == Surplus(b, h, bk, l) + if Accepted(m) then Share(b, h, bk, l, m.id) else 0
    {
      StepSurplus(b, h, m, total, bk, l);
    }
    if Accepted(m) && b.valid[m.id] {
      var bk, l := BookOf(h[m.id], b.side[m.id]), b.index[m.id];
      assert Share(b, h, bk, l, m.id) == b.qty[m.id];
      assert Surplus(c, g, bk, l) == Surplus(b, h, bk, l) + b.qty[m.id];
    }
  }

  lemma StepIdle(b: Book, m: Message)
    requires WF(b) && InRange(m) && !Accepted(m) && !Removal(m)
    ensures HwStep(b, m) == b
  {
  }

  lemma StepBounded(b: Book, h: seq<nat>, m: Message, total: nat)
    requires WF(b) && Fits(b) && Homed(h) && Backed(b, h) && InRange(m)
    requires LevelsAtMost(b, total) && total + AddedBy(m) < WORD
    requires Removal(m) && b.valid[m.id] ==> h[m.id] == m.stock
    ensures LevelsAtMost(HwStep(b, m), total + AddedBy(m))
  {
    if Removal(m) && b.valid[m.id] {
      BackedGuard(b, h, m);
      RemovalShape(b, m);
      hide Backed, HwStep;
    }
  }

  lemma RunUnfold(ms: seq<Message>)
    requires AllInRange(ms) && ms != []
    ensures var p, m := ms[..|ms| - 1], Last(ms);
            && HwRun(ms) == HwStep(HwRun(p), m) && Home(ms) == HomeStep(Home(p), m)
            && TotalAdded(ms) == TotalAdded(p) + AddedBy(m)
  {
    hide HwStep, HomeStep;
  }

  /** Over every run: levels back their live orders, exactly so if and only if no live id with shares left is added. */
  lemma {:induction false} RunBacked(ms: seq<Message>)
    requires AllInRange(ms) && OwnStock(ms) && TotalAdded(ms) < WORD
    ensures Backed(HwRun(ms), Home(ms)) && LevelsAtMost(HwRun(ms), TotalAdded(ms))
    ensures Exact(HwRun(ms), Home(ms)) <==> NoGhosts(ms)
    decreases |ms|
  {
    if ms == [] {
      EmptyExact();
    } else {
      var p, m, k := ms[..|ms| - 1], Last(ms), |ms| - 1;
      assert ms[..k] == p && ms[k] == m;
      assert OwnStockAt(ms, k);
      RunUnfold(ms);
      hide HwRun, HwStep, Home, HomeStep, Backed, Exact, LevelsAtMost, OwnStock, NoGhosts, TotalAdded;
      Shorter(ms);
      RunBacked(p);
      RunFits(p);
      StepBacked(HwRun(p), Home(p), m, TotalAdded(p));
    }
  }

  /** The hardware's unguarded subtraction never wraps: the next removal takes no more than is there. */
  lemma NeverWraps(ms: seq<Message>, k: nat)
    requires AllInRange(ms) && OwnStock(ms) && TotalAdded(ms) < WORD
    requires k < |ms| && Removal(ms[k]) && HwRun(ms[..k]).valid[ms[k].id]
    ensures var b, m := HwRun(ms[..k]), ms[k];
            RemoveQty(b, m.id, CancelArg(m)) <= b.levels[BookOf(m.stock, b.side[m.id])][b.index[m.id]]
  {
    Prefix(ms, k);
    RunBacked(ms[..k]);
    assert OwnStockAt(ms, k);
    BackedGuard(HwRun(ms[..k]), Home(ms[..k]), ms[k]);
  }

  lemma {:induction false} Prefix(ms: seq<Message>, k: nat)
    requires AllInRange(ms) && OwnStock(ms) && k <= |ms|
    ensures OwnStock(ms[..k]) && TotalAdded(ms[..k]) <= TotalAdded(ms)
    decreases |ms| - k
  {
    if k < |ms| {
      Prefix(ms, k + 1);
      assert ms[..k + 1][..k] == ms[..k];
      Shorter(ms[..k + 1]);
    } else {
      assert ms[..k] == ms;
    }
  }

  // ---------- the twins ----------

  /** The twins hold equal books after the first k messages. */
  ghost predicate AgreeAt(ms: seq<Message>, k: nat)
    requires AllInRange(ms) && k <= |ms|
  {
    SwRun(ms[..k]) == Some(HwRun(ms[..k]))
  }

  ghost predicate GuardAt(ms: seq<Message>, k: nat)
    requires AllInRange(ms) && k < |ms|
  {
    TwinGuard(HwRun(ms[..k]), ms[k])
  }

  lemma StartAgrees(ms: seq<Message>)
    requires AllInRange(ms)
    ensures AgreeAt(ms, 0)
  {
    assert ms[..0] == [];
  }

  lemma TwinExtend(ms: seq<Message>, k: nat)
    requires AllInRange(ms) && k < |ms| && AgreeAt(ms, k)
    ensures AgreeAt(ms, k + 1) <==> GuardAt(ms, k)
  {
    var q := ms[..k + 1];
    assert q[..k] == ms[..k] && Last(q) == ms[k];
    RunFits(ms[..k]);
    TwinStep(HwRun(ms[..k]), ms[k]);
  }

  /** The twins hold equal books after every message exactly when every message passes its guard. */
  lemma {:induction false} TwinRun(ms: seq<Message>, n: nat)
    requires AllInRange(ms) && n <= |ms|
    ensures (forall k :: 0 <= k <= n ==> AgreeAt(ms, k)) <==> (forall k :: 0 <= k < n ==> GuardAt(ms, k))
    decreases n
  {
    hide HwRun, SwRun, TwinGuard;
    if n > 0 {
      TwinRun(ms, n - 1);
      if AgreeAt(ms, n - 1) { TwinExtend(ms, n - 1); }
    } else {
      StartAgrees(ms);
    }
  }

  lemma GuardHolds(ms: seq<Message>, k: nat)
    requires AllInRange(ms) && OwnStock(ms) && PricesOnLadder(ms) && TotalAdded(ms) < WORD && k < |ms|
    ensures GuardAt(ms, k)
  {
    hide HwRun, HwStep, HwIndex;
    var b, m := HwRun(ms[..k]), ms[k];
    if Accepted(m) {
      Prefix(ms, k);
      Prefix(ms, k + 1);
      assert ms[..k + 1][..k] == ms[..k] && Last(ms[..k + 1]) == m;
      RunBacked(ms[..k]);
      assert b.levels[BookOf(m.stock, m.buySell)][HwIndex(m.stock, m.price)] <= TotalAdded(ms[..k]);
    } else if Removal(m) && b.valid[m.id] {
      NeverWraps(ms, k);
    }
  }

  /** Own-stock removals, prices on the ladder and fewer than 2^32 shares keep the twins equal throughout. */
  lemma TwinsStayEqual(ms: seq<Message>)
    requires AllInRange(ms) && OwnStock(ms) && PricesOnLadder(ms) && TotalAdded(ms) < WORD
    ensures forall k :: 0 <= k <= |ms| ==> AgreeAt(ms, k)
  {
    forall k | 0 <= k < |ms| ensures GuardAt(ms, k) { GuardHolds(ms, k); }
    TwinRun(ms, |ms|);
  }

  // ---------- the traps, shown on concrete runs ----------

  lemma {:induction false} RunOf1(m: Message)
    requires InRange(m)
    ensures HwRun([m]) == HwStep(Empty(), m) && SwRun([m]) == SwStep(Empty(), m)
  {
    assert [m][..0] == [] && Last([m]) == m;
    assert HwRun([]) == Empty() && SwRun([]) == Some(Empty());
  }

  lemma {:induction false} RunOf2(m: Message, n: Message)
    requires InRange(m) && InRange(n)
    ensures HwRun([m, n]) == HwStep(HwStep(Empty(), m), n)
    ensures SwStep(Empty(), m).Some? ==> SwRun([m, n]) == SwStep(SwStep(Empty(), m).value, n)
  {
    RunOf1(m);
    assert [m, n][..1] == [m] && Last([m, n]) == n;
  }

  /** A removal larger than its level wraps in the hardware and is cut short in the software. */
  lemma UnbackedRemoval(b: Book, m: Message)
    requires WF(b) && Fits(b) && InRange(m) && Removal(m) && b.valid[m.id]
    requires RemoveQty(b, m.id, CancelArg(m)) > b.levels[BookOf(m.stock, b.side[m.id])][b.index[m.id]]
    ensures var bk, l, r := BookOf(m.stock, b.side[m.id]), b.index[m.id], RemoveQty(b, m.id, CancelArg(m));
            && HwStep(b, m).levels[bk][l] == b.levels[bk][l] - r + WORD
            && SwStep(b, m).Some? && SwStep(b, m).value.levels[bk][l] == 0
  {
    var bk, l, r := BookOf(m.stock, b.side[m.id]), b.index[m.id], RemoveQty(b, m.id, CancelArg(m));
    assert (b.levels[bk][l] - r) % WORD == b.levels[bk][l] - r + WORD;
  }

  /** A cancel that names another stock leaves 2^32 - 10 phantom shares in the hardware, none in the software. */
  lemma ForeignCancelWraps()
    ensures var add, cancel := Message(0, 1, 10, 1000000, 1, 0), Message(1, 1, 10, 0, 2, 0);
            && HwRun([add, cancel]).levels[1][0] == WORD - 10
            && SwRun([add, cancel]).Some? && SwRun([add, cancel]).value.levels[1][0] == 0
  {
    var add, cancel := Message(0, 1, 10, 1000000, 1, 0), Message(1, 1, 10, 0, 2, 0);
    RunOf2(add, cancel);
    hide HwRun, SwRun;
    var b := HwStep(Empty(), add);
    assert SwStep(Empty(), add) == Some(b) by { TwinStep(Empty(), add); }
    assert b.levels[1] == Empty().levels[1] && RemoveQty(b, 1, 10) == 10;
    HwFits(Empty(), add);
    hide HwStep, SwStep;
    UnbackedRemoval(b, cancel);
  }

  /** Adding a live id again leaves the first quantity in the book with no order behind it. */
  lemma ReAddLeavesGhost()
    ensures var first, again := Message(0, 1, 10, 1000000, 1, 0), Message(0, 1, 5, 1000600, 1, 0);
            var b := HwRun([first, again]);
            b.levels[0][0] == 10 && b.levels[0][1] == 5 && b.qty[1] == 5 && b.index[1] == 1
  {
    var first, again := Message(0, 1, 10, 1000000, 1, 0), Message(0, 1, 5, 1000600, 1, 0);
    RunOf2(first, again);
    hide HwRun, SwRun;
  }

  /** A bid one snap below the ladder rests at the top price in the hardware, at index -1 in the software. */
  lemma PriceBelowLadderSplitsTwins()
    ensures var m := Message(0, 1, 10, 999600, 1, 0);
            && HwRun([m]).index[1] == 255 && SwRun([m]).Some? && SwRun([m]).value.index[1] == -1
            && HwRun([m]).levels == SwRun([m]).value.levels
  {
    RunOf1(Message(0, 1, 10, 999600, 1, 0));
  }
}
