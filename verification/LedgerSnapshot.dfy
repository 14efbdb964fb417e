/** What a published snapshot shows of the ledger: the best prices of the orders in force, and the padding. */
module LedgerSnapshots {
  import opened Words
  import opened SegmentTree
  import opened TreeOrderBooks
  import opened StockOrderBooks
  import opened Books
  import opened BookRuns
  import opened Orderbook
  import opened OrderBookManagers
  import opened SoftwareBooks
  import opened Ledgers
  import OrderStream

  /** Five pairs shown for one side of a stock whose level l, at price min + 600 * l, holds rest[l]: the first m are its
      non-empty levels, best first, the others the worst price of the ladder with quantity 1. */
  ghost predicate Shows(p: seq<int>, q: seq<nat>, rest: seq<nat>, min: nat, bid: bool, m: nat) {
    && |p| == |q| == 5 && |rest| == 256 && m <= 5
    && (forall j :: 0 <= j < m ==> IsPair(p[j], q[j], rest, min))
    && (forall i, j :: 0 <= i < j < m ==> if bid then p[i] > p[j] else p[i] < p[j])
    && (forall l :: 0 <= l < 256 && rest[l] > 0 ==> IsShown(p, min, bid, m, l))
    && (forall j :: m <= j < 5 ==> q[j] == 1 && p[j] == if bid then min else min + 153000)
  }

  /** Five pairs that show a side, as many of them its own as there are non-empty levels (`ShownCount`). */
  ghost predicate ShowsSide(p: seq<int>, q: seq<nat>, rest: seq<nat>, min: nat, bid: bool) {
    exists m :: Shows(p, q, rest, min, bid, m)
  }

  /** The pair is what level l has. */
  ghost predicate HasPair(price: int, qty: nat, rest: seq<nat>, min: nat, l: nat)
    requires |rest| == 256
  {
    l < 256 && price == min + 600 * l && qty == rest[l] > 0
  }

  ghost predicate IsPair(price: int, qty: nat, rest: seq<nat>, min: nat)
    requires |rest| == 256
  {
    exists l :: HasPair(price, qty, rest, min, l)
  }

  /** Level l is among the first m pairs, or these are five and all better. */
  ghost predicate IsShown(p: seq<int>, min: nat, bid: bool, m: nat, l: nat)
    requires |p| == 5 && m <= 5
  {
    || (exists j :: 0 <= j < m && p[j] == min + 600 * l)
    || (m == 5 && if bid then min + 600 * l < p[4] else min + 600 * l > p[4])
  }

  /** Bids never rise and asks never fall from pair to pair, padding included. */
  lemma NeverOutOfOrder(p: seq<int>, q: seq<nat>, rest: seq<nat>, min: nat, bid: bool, m: nat, i: nat, j: nat)
    requires Shows(p, q, rest, min, bid, m) && i < j < 5
    ensures if bid then p[i] >= p[j] else p[i] <= p[j]
  {
    if i < m <= j {
      var l :| HasPair(p[i], q[i], rest, min, l);
    }
  }

  ghost function NonEmpty(rest: seq<nat>): set<nat> {
    set l | 0 <= l < |rest| && rest[l] > 0
  }

  lemma {:induction false} DistinctCount(u: seq<nat>, s: set<nat>)
    requires Distinct(u) && forall j :: 0 <= j < |u| ==> u[j] in s
    ensures |u| <= |s| && ((forall l :: l in s ==> l in u) ==> |u| == |s|)
    decreases |u|
  {
    if u != [] {
      var r := u[..|u| - 1];
      forall j | 0 <= j < |r| ensures r[j] in s - {Last(u)} { assert u[j] != Last(u); }
      assert u == r + [Last(u)];
      DistinctCount(r, s - {Last(u)});
    } else if forall l :: l in s ==> l in u {
      assert s == {};
    }
  }

  ghost function LevelAt(price: int, min: nat): nat {
    if price >= min then (price - min) / 600 else 0
  }

  lemma LevelOfPair(price: int, qty: nat, rest: seq<nat>, min: nat)
    requires |rest| == 256 && IsPair(price, qty, rest, min)
    ensures LevelAt(price, min) < 256 && price == min + 600 * LevelAt(price, min)
    ensures qty == rest[LevelAt(price, min)] > 0
  {
    var l :| HasPair(price, qty, rest, min, l);
    assert (price - min) / 600 == l;
  }

  /** The first m pairs are levels u, with what rests there. */
  ghost predicate PairsAre(p: seq<int>, q: seq<nat>, rest: seq<nat>, min: nat, u: seq<nat>) {
    && |p| == |q| == 5 && |u| <= 5
    && forall j :: 0 <= j < |u| ==> u[j] < |rest| && p[j] == min + 600 * u[j] && q[j] == rest[u[j]] > 0
  }

  lemma LevelsOfPairs(p: seq<int>, q: seq<nat>, rest: seq<nat>, min: nat, bid: bool, m: nat) returns (u: seq<nat>)
    requires Shows(p, q, rest, min, bid, m)
    ensures |u| == m && PairsAre(p, q, rest, min, u)
  {
    hide IsPair, IsShown, LevelAt;
    u := seq<nat>(m, j requires 0 <= j < m => LevelAt(p[j], min));
    forall j | 0 <= j < m ensures u[j] < 256 && p[j] == min + 600 * u[j] && q[j] == rest[u[j]] > 0 {
      LevelOfPair(p[j], q[j], rest, min);
    }
  }

  /** So many pairs are the ladder's: one for each non-empty level, but at most five. */
  lemma ShownCount(p: seq<int>, q: seq<nat>, rest: seq<nat>, min: nat, bid: bool, m: nat)
    requires Shows(p, q, rest, min, bid, m)
    ensures m == if |NonEmpty(rest)| < 5 then |NonEmpty(rest)| else 5
  {
    hide IsPair, IsShown;
    var u := LevelsOfPairs(p, q, rest, min, bid, m);
    assert forall i, j :: 0 <= i < j < m ==> p[i] != p[j];
    DistinctCount(u, NonEmpty(rest));
    if m < 5 {
      forall l | l in NonEmpty(rest) ensures l in u { ShownInList(p, q, u, rest, min, bid, m, l); }
    }
  }

  lemma ShownInList(p: seq<int>, q: seq<nat>, u: seq<nat>, rest: seq<nat>, min: nat, bid: bool, m: nat, l: nat)
    requires Shows(p, q, rest, min, bid, m) && |u| == m < 5 && l in NonEmpty(rest)
    requires forall j :: 0 <= j < m ==> p[j] == min + 600 * u[j]
    ensures l in u
  {
    assert IsShown(p, min, bid, m, l);
    var j :| 0 <= j < m && p[j] == min + 600 * l;
    assert u[j] == l;
  }

  lemma ShownIsTop(p: seq<int>, q: seq<nat>, u: seq<nat>, rest: seq<nat>, min: nat, side: nat)
    requires Shows(p, q, rest, min, side == 0, |u|) && PairsAre(p, q, rest, min, u) && side < 2
    ensures IsTop(rest, side, 5, u)
  {
    hide IsPair, IsShown;
    forall i, j | 0 <= i < j < |u| ensures Better(side, u[i], u[j]) {
      assert if side == 0 then p[i] > p[j] else p[i] < p[j];
    }
    forall l | 0 <= l < |rest| && rest[l] > 0
      ensures l in u || (|u| == 5 && forall i :: 0 <= i < |u| ==> Better(side, u[i], l))
    {
      LevelShown(p, q, u, rest, min, side, |u|, l);
    }
  }

  lemma LevelShown(p: seq<int>, q: seq<nat>, u: seq<nat>, rest: seq<nat>, min: nat, side: nat, m: nat, l: nat)
    requires Shows(p, q, rest, min, side == 0, m) && side < 2 && |u| == m && l < 256 && rest[l] > 0
    requires forall j :: 0 <= j < m ==> p[j] == min + 600 * u[j]
    ensures l in u || (|u| == 5 && forall i :: 0 <= i < |u| ==> Better(side, u[i], l))
  {
    hide IsPair;
    assert IsShown(p, min, side == 0, m, l);
    if j :| 0 <= j < m && p[j] == min + 600 * l { assert u[j] == l; }
  }

  lemma ShownAlike(p: seq<int>, q: seq<nat>, r: seq<int>, t: seq<nat>, rest: seq<nat>, min: nat, bid: bool, u: seq<nat>)
    requires Shows(p, q, rest, min, bid, |u|) && Shows(r, t, rest, min, bid, |u|)
    requires PairsAre(p, q, rest, min, u) && PairsAre(r, t, rest, min, u)
    ensures p == r && q == t
  {
    hide IsPair, IsShown;
    forall j | 0 <= j < 5 ensures p[j] == r[j] && q[j] == t[j] {}
  }

  /** What is shown of a side is determined by what rests there: no other five pairs show it. */
  lemma ShownOnce(p: seq<int>, q: seq<nat>, r: seq<int>, t: seq<nat>, rest: seq<nat>, min: nat, side: nat)
    requires ShowsSide(p, q, rest, min, side == 0) && ShowsSide(r, t, rest, min, side == 0) && side < 2
    requires |rest| == 256
    ensures p == r && q == t
  {
    hide Shows, IsTop, PairsAre, NonEmpty;
    var m :| Shows(p, q, rest, min, side == 0, m);
    var n :| Shows(r, t, rest, min, side == 0, n);
    ShownCount(p, q, rest, min, side == 0, m);
    ShownCount(r, t, rest, min, side == 0, n);
    var u := LevelsOfPairs(p, q, rest, min, side == 0, m);
    var v := LevelsOfPairs(r, t, rest, min, side == 0, n);
    ShownIsTop(p, q, u, rest, min, side);
    ShownIsTop(r, t, v, rest, min, side);
    TopIsUnique(rest, side, 5, u, v);
    ShownAlike(p, q, r, t, rest, min, side == 0, u);
  }

  /** The published pair j of a ladder, by what its top five are. */
  lemma PairOfTop(q: seq<nat>, side: nat, min: nat, j: nat)
    requires |q| == 256 && side < 2 && j < 5
    ensures var t, p, r := TopLevels(q, side, 5), TopPrices(q, side, min, TICK), TopQuantities(q, side);
            && (j < |t| ==> t[j] < 256 && p[j] == min + 600 * t[j] && r[j] == q[t[j]])
            && (j >= |t| ==> r[j] == 1 && p[j] == if side == 0 then min else min + 153000)
  {
    TopLevelsAreTop(q, side, 5);
    hide TopLevels;
  }

  lemma ShownLevels(p: seq<int>, t: seq<nat>, q: seq<nat>, side: nat, min: nat, l: nat)
    requires |p| == 5 && |q| == 256 && side < 2 && IsTop(q, side, 5, t) && l < 256 && q[l] > 0
    requires forall j :: 0 <= j < |t| ==> p[j] == min + 600 * t[j]
    ensures IsShown(p, min, side == 0, |t|, l)
  {
    if l in t {
      var j :| 0 <= j < |t| && t[j] == l;
      assert p[j] == min + 600 * l;
    } else {
      assert Better(side, t[4], l);
    }
  }

  lemma TopOrder(q: seq<nat>, side: nat, min: nat, i: nat, j: nat)
    requires |q| == 256 && side < 2 && i < j < |TopLevels(q, side, 5)| <= 5
    ensures var p := TopPrices(q, side, min, TICK); if side == 0 then p[i] > p[j] else p[i] < p[j]
  {
    PairOfTop(q, side, min, i);
    PairOfTop(q, side, min, j);
    TopLevelsAreTop(q, side, 5);
    hide TopLevels, TopPrices;
    assert Better(side, TopLevels(q, side, 5)[i], TopLevels(q, side, 5)[j]);
  }

  lemma TopPair(q: seq<nat>, side: nat, min: nat, j: nat)
    requires |q| == 256 && side < 2 && j < |TopLevels(q, side, 5)| <= 5
    ensures IsPair(TopPrices(q, side, min, TICK)[j], TopQuantities(q, side)[j], q, min)
  {
    var t := TopLevels(q, side, 5);
    PairOfTop(q, side, min, j);
    TopLevelsAreTop(q, side, 5);
    hide TopLevels, TopPrices, TopQuantities;
    assert HasPair(TopPrices(q, side, min, TICK)[j], TopQuantities(q, side)[j], q, min, t[j]);
  }

  lemma TopComplete(q: seq<nat>, side: nat, min: nat, l: nat)
    requires |q| == 256 && side < 2 && l < 256 && q[l] > 0 && |TopLevels(q, side, 5)| <= 5
    ensures IsShown(TopPrices(q, side, min, TICK), min, side == 0, |TopLevels(q, side, 5)|, l)
  {
    var t, p := TopLevels(q, side, 5), TopPrices(q, side, min, TICK);
    TopLevelsAreTop(q, side, 5);
    hide TopLevels, TopPrices, IsTop, IsShown;
    forall j | 0 <= j < |t| ensures p[j] == min + 600 * t[j] { PairOfTop(q, side, min, j); }
    ShownLevels(p, t, q, side, min, l);
  }

  /** What is published for a ladder shows its levels. */
  lemma TopShows(q: seq<nat>, side: nat, min: nat)
    requires |q| == 256 && side < 2
    ensures Shows(TopPrices(q, side, min, TICK), TopQuantities(q, side), q, min, side == 0, |TopLevels(q, side, 5)|)
  {
    TopLevelsAreTop(q, side, 5);
    var m, p, r := |TopLevels(q, side, 5)|, TopPrices(q, side, min, TICK), TopQuantities(q, side);
    hide TopLevels, TopPrices, TopQuantities, IsPair, IsShown;
    forall j | m <= j < 5 ensures r[j] == 1 && p[j] == if side == 0 then min else min + 153000 {
      PairOfTop(q, side, min, j);
    }
    forall j | 0 <= j < m ensures IsPair(p[j], r[j], q, min) { TopPair(q, side, min, j); }
    forall l | 0 <= l < 256 && q[l] > 0 ensures IsShown(p, min, side == 0, m, l) { TopComplete(q, side, min, l); }
    forall i, j | 0 <= i < j < m ensures if side == 0 then p[i] > p[j] else p[i] < p[j] {
      TopOrder(q, side, min, i, j);
    }
  }

  // ---------- the words of a snapshot ----------

  /** Five of the prices that the words of a snapshot carry: those of stock s, from pair k on. */
  ghost function WordPrices(ws: seq<AxisWord>, s: nat, k: nat): (p: seq<int>)
    requires |ws| == 80 && s < 4 && k <= 5
    ensures |p| == 5
  {
    seq(5, j requires 0 <= j < 5 => ws[20 * s + 2 * (k + j)].data)
  }

  ghost function WordQuantities(ws: seq<AxisWord>, s: nat, k: nat): (q: seq<nat>)
    requires |ws| == 80 && s < 4 && k <= 5
    ensures |q| == 5
  {
    seq<nat>(5, j requires 0 <= j < 5 => ws[20 * s + 2 * (k + j) + 1].data)
  }

  /** What the ledger has left at each level of one side of a stock. */
  ghost function Ladder(g: seq<Slot>, s: nat, side: nat): (rest: seq<nat>)
    requires |g| == 1024 && s < 4
    ensures |rest| == 256
  {
    seq(256, l requires 0 <= l < 256 => Total(g, s, side, l, 1024))
  }

  /** For every stock, five ask pairs and then five bid pairs show what the ledger has. */
  ghost predicate WordsShow(ws: seq<AxisWord>, g: seq<Slot>) {
    && |ws| == 80 && |g| == 1024
    && forall s :: 0 <= s < 4 ==> StockShown(ws, g, s)
  }

  ghost predicate StockShown(ws: seq<AxisWord>, g: seq<Slot>, s: nat)
    requires |ws| == 80 && |g| == 1024 && s < 4
  {
    && ShowsSide(WordPrices(ws, s, 0), WordQuantities(ws, s, 0), Ladder(g, s, 1), MinPrice(s), false)
    && ShowsSide(WordPrices(ws, s, 5), WordQuantities(ws, s, 5), Ladder(g, s, 0), MinPrice(s), true)
  }

  /** Order id is one of stock s on that side, at a level with this price, with shares left. */
  ghost predicate LiveAtPrice(g: seq<Slot>, id: nat, s: nat, side: nat, price: int)
    requires |g| == 1024 && s < 4
  {
    && id < 1024 && g[id].Open? && g[id].stock == s && g[id].buySell == side && g[id].left > 0
    && exists l :: 0 <= l < 256 && AtLevel(g[id].price, s, l) && price == MinPrice(s) + 600 * l
  }

  /** If orders of a stock's side have shares left, the first pair has the best of their prices; if not, none has. */
  lemma FirstIsBest(p: seq<int>, q: seq<nat>, g: seq<Slot>, s: nat, side: nat, m: nat)
    requires |g| == 1024 && s < 4 && side < 2 && Shows(p, q, Ladder(g, s, side), MinPrice(s), side == 0, m)
    ensures m > 0 ==> exists id :: LiveAtPrice(g, id, s, side, p[0])
    ensures forall id, price :: LiveAtPrice(g, id, s, side, price) ==>
              m > 0 && if side == 0 then p[0] >= price else p[0] <= price
  {
    var rest, min := Ladder(g, s, side), MinPrice(s);
    if m > 0 {
      assert IsPair(p[0], q[0], rest, min);
      var l :| HasPair(p[0], q[0], rest, min, l);
      SomeLeft(g, s, side, l, 1024);
      var id :| 0 <= id < 1024 && LeftAt(g[id], s, side, l) > 0;
      assert LiveAtPrice(g, id, s, side, p[0]);
    }
    forall id, price | LiveAtPrice(g, id, s, side, price)
      ensures m > 0 && if side == 0 then p[0] >= price else p[0] <= price
    {
      LiveIsShown(p, q, g, s, side, m, id, price);
    }
  }

  lemma LiveIsShown(p: seq<int>, q: seq<nat>, g: seq<Slot>, s: nat, side: nat, m: nat, id: nat, price: int)
    requires |g| == 1024 && s < 4 && side < 2 && Shows(p, q, Ladder(g, s, side), MinPrice(s), side == 0, m)
    requires LiveAtPrice(g, id, s, side, price)
    ensures m > 0 && if side == 0 then p[0] >= price else p[0] <= price
  {
    var rest, min := Ladder(g, s, side), MinPrice(s);
    var l :| 0 <= l < 256 && AtLevel(g[id].price, s, l) && price == min + 600 * l;
    assert LeftAt(g[id], s, side, l) > 0;
    SomeLeft(g, s, side, l, 1024);
    assert rest[l] > 0;
    assert IsShown(p, min, side == 0, m, l);
    hide Ladder, Total, AtLevel, LeftAt, IsPair;
  }

  lemma WordsOfPair(b: Book, s: nat, j: nat)
    requires Sized(b) && s < 4 && j < 5
    ensures var ws := SnapshotWords(b, 4);
            && ws[20 * s + 2 * j].data == BookPrices(b, 4 + s)[j]
            && ws[20 * s + 2 * j + 1].data == BookQuantities(b, 4 + s)[j]
            && ws[20 * s + 2 * (5 + j)].data == BookPrices(b, s)[j]
            && ws[20 * s + 2 * (5 + j) + 1].data == BookQuantities(b, s)[j]
  {
    hide SnapshotWords, BookPrices, BookQuantities;
    PairAt(b, s, j);
    PairAt(b, s, 5 + j);
  }

  lemma WordsOfStock(b: Book, s: nat)
    requires Sized(b) && s < 4
    ensures var ws := SnapshotWords(b, 4);
            && WordPrices(ws, s, 0) == BookPrices(b, 4 + s) && WordQuantities(ws, s, 0) == BookQuantities(b, 4 + s)
            && WordPrices(ws, s, 5) == BookPrices(b, s) && WordQuantities(ws, s, 5) == BookQuantities(b, s)
  {
    hide SnapshotWords, BookPrices, BookQuantities;
    var ws := SnapshotWords(b, 4);
    forall j | 0 <= j < 5
      ensures WordPrices(ws, s, 0)[j] == BookPrices(b, 4 + s)[j]
      ensures WordQuantities(ws, s, 0)[j] == BookQuantities(b, 4 + s)[j]
    {
      WordsOfPair(b, s, j);
    }
    forall j | 0 <= j < 5
      ensures WordPrices(ws, s, 5)[j] == BookPrices(b, s)[j]
      ensures WordQuantities(ws, s, 5)[j] == BookQuantities(b, s)[j]
    {
      WordsOfPair(b, s, j);
    }
  }

  lemma LadderOfBook(b: Book, g: seq<Slot>, s: nat)
    requires HoldsLedger(b, g) && s < 4
    ensures Sized(b) && Ladder(g, s, 0) == b.levels[s] && Ladder(g, s, 1) == b.levels[4 + s]
  {
    hide Total;
    forall l | 0 <= l < 256
      ensures Ladder(g, s, 0)[l] == b.levels[s][l] && Ladder(g, s, 1)[l] == b.levels[4 + s][l]
    {
      assert LevelIsLedger(b, g, s, l);
    }
  }

  lemma HeldSide(b: Book, g: seq<Slot>, s: nat, side: nat)
    requires Sized(b) && HoldsLedger(b, g) && |g| == 1024 && s < 4 && side < 2
    ensures var bk := if side == 0 then s else 4 + s;
            ShowsSide(BookPrices(b, bk), BookQuantities(b, bk), Ladder(g, s, side), MinPrice(s), side == 0)
  {
    hide TopPrices, TopQuantities, Ladder, TopLevels, Shows, HoldsLedger;
    LadderOfBook(b, g, s);
    var bk := if side == 0 then s else 4 + s;
    assert bk % 4 == s;
    TopShows(b.levels[bk], side, MinPrice(s));
    assert BookPrices(b, bk) == TopPrices(b.levels[bk], side, MinPrice(s), TICK);
    assert BookQuantities(b, bk) == TopQuantities(b.levels[bk], side);
  }

  lemma StockIsShown(b: Book, g: seq<Slot>, s: nat)
    requires Sized(b) && HoldsLedger(b, g) && |g| == 1024 && s < 4
    ensures StockShown(SnapshotWords(b, 4), g, s)
  {
    hide SnapshotWords, BookPrices, BookQuantities, Ladder, WordPrices, WordQuantities, ShowsSide, HoldsLedger;
    WordsOfStock(b, s);
    HeldSide(b, g, s, 0);
    HeldSide(b, g, s, 1);
  }

  /** A book that holds the ledger publishes what the ledger has. */
  lemma HeldIsShown(b: Book, g: seq<Slot>)
    requires Sized(b) && HoldsLedger(b, g)
    ensures WordsShow(SnapshotWords(b, 4), g)
  {
    hide SnapshotWords, Ladder, StockShown;
    forall s | 0 <= s < 4 ensures StockShown(SnapshotWords(b, 4), g, s) {
      StockIsShown(b, g, s);
    }
  }

  // ---------- over whole runs ----------

  /** Snapshot k of a run shows the ledger of the first 20 * (k + 1) messages. */
  lemma SnapshotIsLedger(ins: seq<Option<Message>>, k: nat)
    requires InputsInRange(ins) && k < |Published(ins)|
    ensures 20 * (k + 1) <= |Taken(ins)| && AllInRange(Taken(ins))
    ensures var ms := Taken(ins)[..20 * (k + 1)];
            OwnStock(ms) && NoGhosts(ms) && TotalAdded(ms) < WORD ==> WordsShow(Published(ins)[k], LedgerOf(ms))
  {
    SnapshotShows(ins, k);
    var ms := Taken(ins)[..20 * (k + 1)];
    hide HwRun, Published, Taken, OwnStock, NoGhosts, HoldsLedger, WordsShow, SnapshotWords, LedgerOf;
    if OwnStock(ms) && NoGhosts(ms) && TotalAdded(ms) < WORD {
      HardwareHoldsLedger(ms);
      HeldIsShown(HwRun(ms), LedgerOf(ms));
    }
  }

  lemma FreshPrefix(ms: seq<Message>, n: nat)
    requires AllInRange(ms) && NoReAdd(ms) && n <= |ms|
    ensures NoReAdd(ms[..n])
  {
    hide HwRun;
    forall k | 0 <= k < n ensures FreshAt(ms[..n], k) {
      assert ms[..n][..k] == ms[..k];
      assert FreshAt(ms, k);
    }
  }

  /** Whatever the generator draws, every snapshot published over its messages shows the ledger of those so far. */
  lemma GeneratedShown(ins: seq<Option<Message>>, active: map<nat, OrderStream.Info>, next: nat, k: nat)
    requires InputsInRange(ins) && OrderStream.Good(Taken(ins), active, next) && k < |Published(ins)|
    ensures 20 * (k + 1) <= |Taken(ins)|
    ensures WordsShow(Published(ins)[k], LedgerOf(Taken(ins)[..20 * (k + 1)]))
  {
    var ms := Taken(ins);
    hide HwRun, Home, Published, Taken, WordsShow, LedgerOf, OwnStock, NoGhosts, NoReAdd, OrderStream.LiveAt,
      OrderStream.Lockstep, OrderStream.Tracked;
    SnapshotIsLedger(ins, k);
    var n := 20 * (k + 1);
    Prefix(ms, n);
    FreshPrefix(ms, n);
    NoReAddNoGhosts(ms[..n]);
  }

  /** One stock's entry of the software shows what the ledger has. */
  ghost predicate EntryShows(e: Entry, g: seq<Slot>, s: nat)
    requires |g| == 1024 && s < 4
  {
    && e.stock == s
    && ShowsSide(e.askPrices, e.askQty, Ladder(g, s, 1), MinPrice(s), false)
    && ShowsSide(e.bidPrices, e.bidQty, Ladder(g, s, 0), MinPrice(s), true)
  }

  lemma HeldEntry(b: Book, g: seq<Slot>, s: nat)
    requires Sized(b) && HoldsLedger(b, g) && |g| == 1024 && s < 4
    ensures EntryShows(EntryOf(b, s), g, s)
  {
    hide BookPrices, BookQuantities, Ladder, ShowsSide, HoldsLedger;
    HeldSide(b, g, s, 0);
    HeldSide(b, g, s, 1);
  }

  /** On the ladder, what the software publishes at any time shows the ledger of the messages so far. */
  lemma EntryIsLedger(ins: seq<Input>, s: nat)
    requires AllInRange(Sent(ins)) && PricesOnLadder(Sent(ins)) && s < 4
    requires OwnStock(Sent(ins)) && NoGhosts(Sent(ins)) && TotalAdded(Sent(ins)) < WORD
    ensures SwTreeRun(ins).Some? && StateOK(SwTreeRun(ins).value)
    ensures EntryShows(TreeEntry(SwTreeRun(ins).value, s), LedgerOf(Sent(ins)), s)
  {
    var ms := Sent(ins);
    assert PricesAbove(ms, 600);
    hide Sent, SwTreeRun, PricesAbove, OwnStock, NoGhosts, HoldsLedger, EntryShows, TreeEntry, EntryOf, StateExact;
    TreesExact(ins);
    BooksHoldLedger(ins);
    var st := SwTreeRun(ins).value;
    ExactEntry(st, s);
    HeldEntry(st.book, LedgerOf(ms), s);
  }
}
