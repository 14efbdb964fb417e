/** The prices the software client computes from its own snapshots. */
module SnapshotPrices {
  import opened Words
  import opened LinearAlgebra
  import opened SegmentTree
  import opened TreeOrderBooks
  import opened StockOrderBooks
  import opened Books
  import opened BookRuns
  import opened LowPrices
  import opened SoftwareLadders
  import opened SoftwareBooks
  import opened OrderBookManagers
  import opened TaParsers

  /** Price vectors of the four stocks, all positive. */
  ghost predicate PositivePrices(h: seq<Vec>) {
    forall t :: 0 <= t < |h| ==> |h[t]| == NUM_STOCKS && forall i :: 0 <= i < NUM_STOCKS ==> h[t][i] > 0.0
  }

  /** The market prices the client computes from what its trees publish. */
  ghost function EntryPrices(st: SwState): (p: Vec)
    requires StateOK(st)
    ensures |p| == NUM_STOCKS
  {
    seq(NUM_STOCKS, s requires 0 <= s < NUM_STOCKS => EntryPrice(TreeEntry(st, s)))
  }

  /** The price vectors of the snapshots among the inputs. */
  ghost function ClientPrices(ins: seq<Input>): (h: seq<Vec>)
    requires AllInRange(Sent(ins)) && SwTreeRun(ins).Some?
  {
    if ins == [] then []
    else
      RunLast(ins);
      var p := ins[..|ins| - 1];
      ClientPrices(p) + if Last(ins).Snapshot? then [EntryPrices(SwTreeRun(p).value)] else []
  }

  /** At least one of the five quantities published for a near ladder is not zero, though the last level may be
      taken empty. */
  lemma SomeQuantity(t: seq<int>, q: seq<nat>, side: nat) returns (j: nat)
    requires Near(t, q, side)
    ensures j < 5 && Top5Quantities(t, q, side)[j] > 0
  {
    var k := Take(t, q, side, 5);
    TakeNear(t, q, side, 5, false);
    hide Take, Near, Emptied;
    if |k.saved| < 5 {
      j := 4;
    } else {
      var slots := Slots(|q|, k.saved);
      assert slots[0] != slots[1];
      j := if slots[0] < |q| - 1 then 0 else 1;
      assert TookAt(q, k.saved[j], k.savedQty[j], false);
    }
  }

  /** Published prices of a near ladder are no more than a tick below it. */
  lemma NearPrices(t: seq<int>, q: seq<nat>, side: nat, minPrice: nat, tickSize: nat)
    requires Near(t, q, side) && minPrice > tickSize
    ensures forall i :: 0 <= i < 5 ==> Top5Prices(t, q, side, minPrice, tickSize)[i] > 0
  {
    var saved := Take(t, q, side, 5).saved;
    TakeNear(t, q, side, 5, false);
    hide Take, Near, Emptied;
    forall i | 0 <= i < 5 ensures Top5Prices(t, q, side, minPrice, tickSize)[i] > 0 {
      var idx: int := if i < |saved| then saved[i] else WorstLevel(|q|, side);
      assert i < |saved| ==> TookAt(q, saved[i], Take(t, q, side, 5).savedQty[i], false);
      PriceAbove(minPrice, tickSize, idx);
    }
  }

  lemma PriceAbove(minPrice: nat, tickSize: nat, idx: int)
    requires minPrice > tickSize && idx >= -1
    ensures PriceAt(minPrice, tickSize, idx) > 0
  {
    assert (idx + 1) * tickSize >= 0;
  }

  lemma {:induction false} SumsPositive(p: seq<int>, q: seq<nat>, n: nat)
    requires n <= |p| && n <= |q| && forall i :: 0 <= i < n ==> p[i] > 0
    ensures SumTerms(p, q, n) >= 0.0
    ensures (exists j :: 0 <= j < n && q[j] > 0) ==> SumQty(q, n) > 0 && SumTerms(p, q, n) > 0.0
    decreases n
  {
    if n > 0 {
      SumsPositive(p, q, n - 1);
      TermPositive(p[n - 1] as real / PRICE_SCALE, q[n - 1] as real);
    }
  }

  lemma TermPositive(x: real, y: real)
    requires x > 0.0 && y >= 0.0
    ensures x * y >= 0.0 && (y > 0.0 ==> x * y > 0.0)
  {
  }

  lemma QuotientPositive(x: real, y: real)
    requires x > 0.0 && y > 0.0
    ensures x / y > 0.0
  {
  }

  lemma EntryPriceSign(e: Entry, j: nat)
    requires FiveEach(e) && j < LEVELS && e.askQty[j] > 0
    requires forall i :: 0 <= i < LEVELS ==> e.askPrices[i] > 0 && e.bidPrices[i] > 0
    ensures EntryPrice(e) > 0.0
  {
    hide SumTerms, SumQty;
    SumsPositive(e.askPrices, e.askQty, LEVELS);
    SumsPositive(e.bidPrices, e.bidQty, LEVELS);
    QuotientPositive(SumTerms(e.askPrices, e.askQty, LEVELS) + SumTerms(e.bidPrices, e.bidQty, LEVELS),
                     (SumQty(e.askQty, LEVELS) + SumQty(e.bidQty, LEVELS)) as real);
  }

  /** What is published for one ladder of a near state. */
  lemma LadderPositive(st: SwState, bk: nat) returns (j: nat)
    requires StateNear(st) && bk < BOOKS
    ensures StateOK(st) && |LadderPrices(st, bk)| == |LadderQuantities(st, bk)| == LEVELS
    ensures forall i :: 0 <= i < LEVELS ==> LadderPrices(st, bk)[i] > 0
    ensures j < LEVELS && LadderQuantities(st, bk)[j] > 0
  {
    assert Near(st.trees[bk], st.book.levels[bk], SideAt(bk));
    hide Near, Top5Prices, Top5Quantities, PyWF;
    NearPrices(st.trees[bk], st.book.levels[bk], SideAt(bk), MinPrice(bk % NUM_STOCKS), TICK);
    j := SomeQuantity(st.trees[bk], st.book.levels[bk], SideAt(bk));
  }

  /** Every price the client computes from a near state is positive. */
  lemma EntryPositive(st: SwState, s: nat)
    requires StateNear(st) && s < NUM_STOCKS
    ensures StateOK(st) && EntryPrice(TreeEntry(st, s)) > 0.0
  {
    hide StateNear, LadderPrices, LadderQuantities, EntryPrice;
    var j := LadderPositive(st, NUM_STOCKS + s);
    var k := LadderPositive(st, s);
    EntryPriceSign(TreeEntry(st, s), j);
  }

  lemma EntriesPositive(st: SwState)
    requires StateNear(st)
    ensures StateOK(st) && PositivePrices([EntryPrices(st)])
  {
    hide StateNear, StateOK, EntryPrice, TreeEntry;
    EntryPositive(st, 0);
    forall s | 0 <= s < NUM_STOCKS ensures EntryPrices(st)[s] > 0.0 { EntryPositive(st, s); }
  }

  /** The price vectors of a longer run. */
  lemma PricesLonger(ins: seq<Input>)
    requires ins != [] && AllInRange(Sent(ins)) && SwTreeRun(ins).Some?
    ensures var p := ins[..|ins| - 1];
            && AllInRange(Sent(p)) && SwTreeRun(p).Some?
            && ClientPrices(ins) ==
               ClientPrices(p) + if Last(ins).Snapshot? then [EntryPrices(SwTreeRun(p).value)] else []
  {
    RunLast(ins);
    hide Sent, EntryPrices;
  }

  lemma NoPrices()
    ensures PositivePrices([])
  {
  }

  lemma PositiveAppend(h: seq<Vec>, g: seq<Vec>)
    requires PositivePrices(h) && (g == [] || PositivePrices(g))
    ensures PositivePrices(h + g)
  {
  }

  /** Down to one tick below the ladder, every price vector of a run is positive. */
  lemma {:induction false} PricesNear(ins: seq<Input>)
    requires AllInRange(Sent(ins)) && PricesAbove(Sent(ins), TICK)
    ensures SwTreeRun(ins).Some? && PositivePrices(ClientPrices(ins))
    decreases |ins|
  {
    hide StateNear, PricesAbove, Sent, SwRun, SwTreeRun, EntryPrices, PositivePrices, AllInRange;
    SnapshotsHarmless(ins);
    if ins == [] {
      NoPrices();
    } else {
      SentShorter(ins);
      PricesShorter(ins, TICK);
      PricesLonger(ins);
      hide ClientPrices;
      PricesNear(ins[..|ins| - 1]);
      SnapshotsHarmless(ins[..|ins| - 1]);
      EntriesPositive(SwTreeRun(ins[..|ins| - 1]).value);
      PositiveAppend(ClientPrices(ins[..|ins| - 1]),
        if Last(ins).Snapshot? then [EntryPrices(SwTreeRun(ins[..|ins| - 1]).value)] else []);
    }
  }

  // ---------- equal levels, different snapshots ----------

  /** One ask 400 below the ladder of the first stock: after snapping, less than one tick. */
  const LOW_ASK := Message(0, 1, 10, 999600, 1, SIDE_ASK)

  lemma OneInput(m: Message)
    requires InRange(m)
    ensures Sent([Msg(m)]) == [m] && AllInRange([m]) && SwTreeRun([Msg(m)]) == SwTreeStep(SwStart(), m)
  {
    var ins := [Msg(m)];
    assert ins[..0] == [] && Last(ins) == Msg(m) && Sent(ins[..0]) == [];
    hide SwTreeStep, SwStart;
    assert SwTreeRun(ins[..0]) == Some(SwStart());
  }

  /** What one order at the last level of an empty ladder leaves. */
  function LastOnly(n: nat, x: nat): (q: seq<nat>)
    requires n > 0
  {
    ZeroLadder(n)[n - 1 := x]
  }

  lemma LowAskTree()
    ensures SwTreeStep(SwStart(), LOW_ASK).Some?
    ensures var st := SwTreeStep(SwStart(), LOW_ASK).value;
            st.book.levels[NUM_STOCKS] == LastOnly(MAX_LEVELS, 10) && st.trees[NUM_STOCKS][1] == -1
  {
    assert SwIndex(0, LOW_ASK.price) == -1;
    var t: seq<int> := SwStart().trees[NUM_STOCKS];
    var u := t[MAX_LEVELS - 1 := -1];
    hide Climb, ChoosePreferred;
    ClimbLowest(u, MAX_LEVELS / 2 - 1, -1);
    var st := SwTreeStep(SwStart(), LOW_ASK).value;
    assert st.book.levels[NUM_STOCKS] == LastOnly(MAX_LEVELS, 10);
    assert st.trees[NUM_STOCKS] == Climb(u, MAX_LEVELS / 2 - 1, SIDE_ASK);
  }

  /** The hardware publishes the only level that holds anything. */
  lemma LastOnlyTop(n: nat, x: nat, minPrice: nat, tickSize: nat)
    requires 2 <= n < 0x8000_0000 && x > 0
    ensures IsLadder(LastOnly(n, x))
    ensures TopPrices(LastOnly(n, x), SIDE_ASK, minPrice, tickSize)[0] == LevelPrice(minPrice, tickSize, n - 1)
  {
    var q := LastOnly(n, x);
    TopUnfold(q, SIDE_ASK, 5);
    RootIsBest(q, SIDE_ASK);
    hide Fold, TopLevels, LevelPrice;
    assert q[n - 1] > 0 && Best(q, SIDE_ASK) == n - 1;
    assert TopLevels(q, SIDE_ASK, 5)[0] == n - 1;
  }

  /** Order lists and levels agree, yet the software publishes the ask one tick below the ladder, and the hardware at
      the ladder's top. */
  lemma SnapshotsDiffer()
    ensures Sent([Msg(LOW_ASK)]) == [LOW_ASK] && AllInRange([LOW_ASK]) && LevelsAgree([Msg(LOW_ASK)])
    ensures LadderPrices(SwTreeRun([Msg(LOW_ASK)]).value, NUM_STOCKS)[0] == 999400
    ensures BookPrices(HwRun([LOW_ASK]), NUM_STOCKS)[0] == 1153000
  {
    OneInput(LOW_ASK);
    LowAskTree();
    LastOnlyTop(MAX_LEVELS, 10, 1000000, TICK);
    OneLowAsk();
    hide SwTreeStep, TopPrices, HwRun;
    PublishedFirst(SwTreeRun([Msg(LOW_ASK)]).value, NUM_STOCKS);
  }

  lemma PublishedFirst(st: SwState, bk: nat)
    requires StateOK(st) && bk < BOOKS && st.trees[bk][1] != NO_LEVEL
    ensures LadderPrices(st, bk)[0] == PriceAt(MinPrice(bk % NUM_STOCKS), TICK, st.trees[bk][1])
  {
    TakeUnfold(st.trees[bk], st.book.levels[bk], SideAt(bk), 5);
    hide Take, Bubble;
  }

  lemma OneLowAsk()
    ensures Sent([Msg(LOW_ASK)]) == [LOW_ASK] && AllInRange([LOW_ASK]) && LevelsAgree([Msg(LOW_ASK)])
    ensures HwRun([LOW_ASK]).levels[NUM_STOCKS] == LastOnly(MAX_LEVELS, 10)
  {
    var ms := [LOW_ASK];
    OneInput(LOW_ASK);
    RunUnfold(ms);
    assert ms[..0] == [] && Last(ms) == LOW_ASK;
    assert HwStep(Empty(), LOW_ASK).levels[NUM_STOCKS] == LastOnly(MAX_LEVELS, 10);
    hide SwTreeRun, Sent;
    NearLevelsAgree([Msg(LOW_ASK)]);
  }
}
