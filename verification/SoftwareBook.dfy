/** The software book with its trees: runs of messages and snapshots in any order. */
module SoftwareBooks {
  import opened Words
  import opened SegmentTree
  import opened Books
  import opened BookRuns
  import opened SoftwareLadders

  /** The book, and the segment tree of each of its ladders. */
  datatype SwState = SwState(book: Book, trees: seq<seq<int>>)

  predicate StateOK(st: SwState) {
    && PyWF(st.book) && |st.trees| == BOOKS
    && forall bk :: 0 <= bk < BOOKS ==> Shaped(st.trees[bk], st.book.levels[bk])
  }

  function SideAt(bk: nat): nat {
    if bk < NUM_STOCKS then SIDE_BID else SIDE_ASK
  }

  function SwStart(): (st: SwState)
    ensures StateOK(st)
  {
    SwState(Empty(), seq(BOOKS, _ => seq(2 * MAX_LEVELS, _ => NO_LEVEL)))
  }

  /** The book becomes c, and ladder bk bubbles up from idx. */
  function Touch(st: SwState, c: Book, bk: nat, idx: int): (r: SwState)
    requires StateOK(st) && PyWF(c) && bk < BOOKS && -MAX_LEVELS <= idx < MAX_LEVELS
    ensures StateOK(r) && r.book == c
  {
    SwState(c, st.trees[bk := Bubble(st.trees[bk], c.levels[bk], SideAt(bk), idx)])
  }

  /** One message; None: IndexError. */
  function SwTreeStep(st: SwState, m: Message): (r: Option<SwState>)
    requires StateOK(st) && InRange(m)
    ensures r.Some? ==> StateOK(r.value)
  {
    var b := st.book;
    if m.stock >= NUM_STOCKS || m.id >= MAX_ORDERS then Some(st)
    else if m.kind == 1 then
      var c := SwAdd(b, m);
      if c.None? then None else Some(Touch(st, c.value, BookOf(m.stock, m.buySell), SwIndex(m.stock, m.price)))
    else if m.kind in {2, 4, 8} && b.valid[m.id] then
      Some(Touch(st, SwCancel(b, m.stock, m.id, CancelArg(m)), BookOf(m.stock, b.side[m.id]), b.index[m.id]))
    else Some(st)
  }

  /** Reading the top five of ladder bk. */
  function ReadLadder(st: SwState, bk: nat): (r: SwState)
    requires StateOK(st) && bk < BOOKS
    ensures StateOK(r)
  {
    var after := AfterTop5(st.trees[bk], st.book.levels[bk], SideAt(bk));
    SwState(st.book.(levels := st.book.levels[bk := after.q]), st.trees[bk := after.t])
  }

  /** Publishing the first n stocks: each ask ladder, then the bid ladder. */
  function SwSnapshot(st: SwState, n: nat): (r: SwState)
    requires StateOK(st) && n <= NUM_STOCKS
    ensures StateOK(r)
  {
    if n == 0 then st else ReadLadder(ReadLadder(SwSnapshot(st, n - 1), NUM_STOCKS + n - 1), n - 1)
  }

  /** The trees play no part in what a message does to the book. */
  lemma StepBook(st: SwState, m: Message)
    requires StateOK(st) && InRange(m)
    ensures SwTreeStep(st, m).Some? <==> SwStep(st.book, m).Some?
    ensures SwTreeStep(st, m).Some? ==> SwTreeStep(st, m).value.book == SwStep(st.book, m).value
  {
  }

  // ---------- states that stay within one tick of the ladder ----------

  ghost predicate StateNear(st: SwState) {
    && StateOK(st) && (forall bk :: 0 <= bk < BOOKS ==> Near(st.trees[bk], st.book.levels[bk], SideAt(bk)))
    && forall id :: 0 <= id < MAX_ORDERS ==> st.book.index[id] >= -1
  }

  /** Every tree is the one its ladder determines, as in the hardware. */
  ghost predicate StateExact(st: SwState) {
    && StateOK(st) && WF(st.book)
    && forall bk :: 0 <= bk < BOOKS ==> st.trees[bk] == TreeOf(st.book.levels[bk], SideAt(bk))
  }

  lemma SomeStateOK(st: SwState)
    requires StateNear(st) || StateExact(st)
    ensures StateOK(st)
  {
    hide StateOK;
  }

  /** One ladder changes at the level that idx selects. */
  ghost predicate OneLevel(b: Book, c: Book, bk: nat, idx: int) {
    && PyWF(b) && PyWF(c) && bk < BOOKS && -MAX_LEVELS <= idx < MAX_LEVELS
    && (forall k :: 0 <= k < BOOKS && k != bk ==> c.levels[k] == b.levels[k])
    && forall l :: 0 <= l < MAX_LEVELS && l != PyLevel(idx) ==> c.levels[bk][l] == b.levels[bk][l]
  }

  lemma TouchNear(st: SwState, c: Book, bk: nat, idx: int)
    requires StateNear(st) && OneLevel(st.book, c, bk, idx) && idx >= -1
    requires forall id :: 0 <= id < MAX_ORDERS ==> c.index[id] >= -1
    ensures StateNear(Touch(st, c, bk, idx))
  {
    NearBubble(st.trees[bk], st.book.levels[bk], c.levels[bk], SideAt(bk), idx);
    hide Near, Bubble;
  }

  lemma TouchExact(st: SwState, c: Book, bk: nat, idx: int)
    requires StateExact(st) && OneLevel(st.book, c, bk, idx) && idx >= 0 && WF(c)
    ensures StateExact(Touch(st, c, bk, idx))
  {
    BubbleExact(st.book.levels[bk], c.levels[bk], SideAt(bk), idx);
    hide TreeOf, Bubble;
  }

  lemma AddOneLevel(b: Book, m: Message)
    requires PyWF(b) && InRange(m) && Accepted(m) && SwAdd(b, m).Some?
    ensures OneLevel(b, SwAdd(b, m).value, BookOf(m.stock, m.buySell), SwIndex(m.stock, m.price))
    ensures SwAdd(b, m).value.index == b.index[m.id := SwIndex(m.stock, m.price)]
  {
  }

  lemma CancelOneLevel(b: Book, m: Message)
    requires PyWF(b) && InRange(m) && Removal(m) && b.valid[m.id]
    ensures OneLevel(b, SwCancel(b, m.stock, m.id, CancelArg(m)), BookOf(m.stock, b.side[m.id]), b.index[m.id])
    ensures SwCancel(b, m.stock, m.id, CancelArg(m)).index == b.index
  {
  }

  lemma NearStep(st: SwState, m: Message)
    requires StateNear(st) && InRange(m) && (Accepted(m) ==> m.price >= MinPrice(m.stock) - TICK)
    ensures SwTreeStep(st, m).Some? && StateNear(SwTreeStep(st, m).value)
  {
    if Accepted(m) {
      AddOneLevel(st.book, m);
      hide StateNear, Touch, SwAdd, Near, OneLevel;
      TouchNear(st, SwAdd(st.book, m).value, BookOf(m.stock, m.buySell), SwIndex(m.stock, m.price));
    } else if Removal(m) && st.book.valid[m.id] {
      CancelOneLevel(st.book, m);
      hide StateNear, Touch, SwCancel, Near, OneLevel;
      TouchNear(st, SwCancel(st.book, m.stock, m.id, CancelArg(m)), BookOf(m.stock, st.book.side[m.id]),
        st.book.index[m.id]);
    }
  }

  lemma ExactStep(st: SwState, m: Message)
    requires StateExact(st) && InRange(m) && (Accepted(m) ==> m.price >= MinPrice(m.stock))
    ensures SwTreeStep(st, m).Some? && StateExact(SwTreeStep(st, m).value)
  {
    if Accepted(m) {
      AddOneLevel(st.book, m);
      hide StateExact, Touch, SwAdd, OneLevel;
      TouchExact(st, SwAdd(st.book, m).value, BookOf(m.stock, m.buySell), SwIndex(m.stock, m.price));
    } else if Removal(m) && st.book.valid[m.id] {
      CancelOneLevel(st.book, m);
      hide StateExact, Touch, SwCancel, OneLevel;
      TouchExact(st, SwCancel(st.book, m.stock, m.id, CancelArg(m)), BookOf(m.stock, st.book.side[m.id]),
        st.book.index[m.id]);
    }
  }

  lemma ReadNear(st: SwState, bk: nat)
    requires StateNear(st) && bk < BOOKS
    ensures StateNear(ReadLadder(st, bk)) && ReadLadder(st, bk).book == st.book
  {
    Top5Near(st.trees[bk], st.book.levels[bk], SideAt(bk));
    hide Near, AfterTop5;
    assert st.book.levels[bk := st.book.levels[bk]] == st.book.levels;
  }

  /** A snapshot leaves the book as it was. */
  lemma {:induction false} SnapshotNear(st: SwState, n: nat)
    requires StateNear(st) && n <= NUM_STOCKS
    ensures StateNear(SwSnapshot(st, n)) && SwSnapshot(st, n).book == st.book
    decreases n
  {
    hide StateNear, ReadLadder, StateOK, PyWF;
    SomeStateOK(st);
    if n > 0 {
      SnapshotNear(st, n - 1);
      ReadNear(SwSnapshot(st, n - 1), NUM_STOCKS + n - 1);
      ReadNear(ReadLadder(SwSnapshot(st, n - 1), NUM_STOCKS + n - 1), n - 1);
    }
  }

  lemma ReadExact(st: SwState, bk: nat)
    requires StateExact(st) && bk < BOOKS
    ensures ReadLadder(st, bk) == st
  {
    Top5Exact(st.book.levels[bk], SideAt(bk), 0, TICK);
    hide TreeOf, AfterTop5;
    assert st.book.levels[bk := st.book.levels[bk]] == st.book.levels && st.trees[bk := st.trees[bk]] == st.trees;
  }

  /** On the ladder it leaves the trees as they were too. */
  lemma {:induction false} SnapshotExact(st: SwState, n: nat)
    requires StateExact(st) && n <= NUM_STOCKS
    ensures SwSnapshot(st, n) == st
    decreases n
  {
    hide StateExact, ReadLadder, StateOK, PyWF;
    SomeStateOK(st);
    if n > 0 {
      SnapshotExact(st, n - 1);
      ReadExact(st, NUM_STOCKS + n - 1);
      ReadExact(st, n - 1);
    }
  }

  // ---------- runs ----------

  /** What the software is given: messages, and calls to publish at any moment between them. */
  datatype Input = Msg(m: Message) | Snapshot

  ghost function Sent(ins: seq<Input>): (ms: seq<Message>) {
    if ins == [] then [] else Sent(ins[..|ins| - 1]) + if Last(ins).Msg? then [Last(ins).m] else []
  }

  ghost function SwTreeRun(ins: seq<Input>): (r: Option<SwState>)
    requires AllInRange(Sent(ins))
    ensures r.Some? ==> StateOK(r.value)
  {
    if ins == [] then Some(SwStart())
    else
      SentShorter(ins);
      var p := SwTreeRun(ins[..|ins| - 1]);
      if p.None? then None
      else if Last(ins).Snapshot? then Some(SwSnapshot(p.value, NUM_STOCKS))
      else SwTreeStep(p.value, Last(ins).m)
  }

  lemma SentShorter(ins: seq<Input>)
    requires ins != []
    ensures var p := ins[..|ins| - 1];
            && (Last(ins).Snapshot? ==> Sent(ins) == Sent(p))
            && (Last(ins).Msg? ==>
              Sent(ins)[..|Sent(ins)| - 1] == Sent(p) && Last(Sent(ins)) == Last(ins).m && Sent(ins) != [])
            && (AllInRange(Sent(ins)) <==> AllInRange(Sent(p)) && (Last(ins).Msg? ==> InRange(Last(ins).m)))
  {
    var p := ins[..|ins| - 1];
    if Last(ins).Msg? {
      assert Sent(ins) == Sent(p) + [Last(ins).m];
    }
  }

  /** The last input of a run. */
  lemma RunLast(ins: seq<Input>)
    requires ins != [] && AllInRange(Sent(ins))
    ensures var p := ins[..|ins| - 1];
            && AllInRange(Sent(p)) && (Last(ins).Msg? ==> InRange(Last(ins).m))
            && (SwTreeRun(p).Some? ==>
                  SwTreeRun(ins) == if Last(ins).Snapshot? then Some(SwSnapshot(SwTreeRun(p).value, NUM_STOCKS))
                                    else SwTreeStep(SwTreeRun(p).value, Last(ins).m))
  {
    SentShorter(ins);
    hide Sent, SwSnapshot, SwTreeStep;
  }

  lemma StartNear()
    ensures StateNear(SwStart()) && StateExact(SwStart())
  {
    var st := SwStart();
    forall bk | 0 <= bk < BOOKS
      ensures st.trees[bk] == TreeOf(st.book.levels[bk], SideAt(bk))
    {
      var q := st.book.levels[bk];
      forall k | 1 <= k < 2 * |q| ensures Fold(q, SideAt(bk), k) == NO_LEVEL { EmptyFold(q, SideAt(bk), k); }
    }
    forall bk | 0 <= bk < BOOKS
      ensures Near(st.trees[bk], st.book.levels[bk], SideAt(bk))
    {
      TreeOfShaped(st.book.levels[bk], SideAt(bk));
    }
    hide Near, TreeOf;
  }

  lemma PricesOfLast(ms: seq<Message>, m: Message, slack: int)
    ensures PricesAbove(ms + [m], slack) <==>
            PricesAbove(ms, slack) && (Accepted(m) ==> m.price >= MinPrice(m.stock) - slack)
  {
    var n := ms + [m];
    hide MinPrice;
    if PricesAbove(n, slack) {
      assert n[|ms|] == m;
      forall k | 0 <= k < |ms| && Accepted(ms[k]) ensures ms[k].price >= MinPrice(ms[k].stock) - slack {
        assert n[k] == ms[k];
      }
    }
  }

  lemma PricesShorter(ins: seq<Input>, slack: int)
    requires ins != []
    ensures var p := ins[..|ins| - 1];
            PricesAbove(Sent(ins), slack) <==>
            PricesAbove(Sent(p), slack)
            && (Last(ins).Msg? && Accepted(Last(ins).m) ==> Last(ins).m.price >= MinPrice(Last(ins).m.stock) - slack)
  {
    var p := ins[..|ins| - 1];
    if Last(ins).Msg? {
      assert Sent(ins) == Sent(p) + [Last(ins).m];
      PricesOfLast(Sent(p), Last(ins).m, slack);
    } else {
      assert Sent(ins) == Sent(p);
    }
    hide Sent, PricesAbove, Accepted, MinPrice;
  }

  /** Down to one tick below the ladder, snapshots never change the book: it is that of the messages alone. */
  lemma {:induction false} SnapshotsHarmless(ins: seq<Input>)
    requires AllInRange(Sent(ins)) && PricesAbove(Sent(ins), TICK)
    ensures SwTreeRun(ins).Some? && StateNear(SwTreeRun(ins).value)
    ensures SwRun(Sent(ins)) == Some(SwTreeRun(ins).value.book)
    decreases |ins|
  {
    if ins == [] {
      StartNear();
    } else {
      SentShorter(ins);
      PricesShorter(ins, TICK);
      RunLast(ins);
      hide StateNear, SwTreeStep, SwSnapshot, SwStep, PricesAbove, Sent, SwTreeRun;
      SnapshotsHarmless(ins[..|ins| - 1]);
      var st := SwTreeRun(ins[..|ins| - 1]).value;
      if Last(ins).Msg? {
        NearStep(st, Last(ins).m);
        StepBook(st, Last(ins).m);
      } else {
        SnapshotNear(st, NUM_STOCKS);
      }
    }
  }

  /** On the ladder the trees are those of the levels throughout. */
  lemma {:induction false} TreesExact(ins: seq<Input>)
    requires AllInRange(Sent(ins)) && PricesOnLadder(Sent(ins))
    ensures SwTreeRun(ins).Some? && StateExact(SwTreeRun(ins).value)
    decreases |ins|
  {
    if ins == [] {
      StartNear();
    } else {
      PricesShorter(ins, 0);
      RunLast(ins);
      hide StateExact, SwTreeStep, SwSnapshot, PricesAbove, Sent, SwTreeRun, AllInRange;
      TreesExact(ins[..|ins| - 1]);
      var st := SwTreeRun(ins[..|ins| - 1]).value;
      if Last(ins).Msg? { ExactStep(st, Last(ins).m); } else { SnapshotExact(st, NUM_STOCKS); }
    }
  }

  // ---------- the exact bound ----------

  lemma ReadAt(st: SwState, bk: nat, k: nat)
    requires StateOK(st) && bk < BOOKS && k < BOOKS
    ensures var r, after := ReadLadder(st, bk), AfterTop5(st.trees[k], st.book.levels[k], SideAt(k));
            if k == bk then r.book.levels[k] == after.q && r.trees[k] == after.t
            else r.book.levels[k] == st.book.levels[k] && r.trees[k] == st.trees[k]
  {
    hide AfterTop5;
  }

  /** A snapshot reads each ladder of its stocks once, and no other. */
  lemma {:induction false} SnapshotLadder(st: SwState, n: nat, bk: nat)
    requires StateOK(st) && n <= NUM_STOCKS && bk < BOOKS
    ensures var r, after := SwSnapshot(st, n), AfterTop5(st.trees[bk], st.book.levels[bk], SideAt(bk));
            if bk % NUM_STOCKS < n then r.book.levels[bk] == after.q && r.trees[bk] == after.t
            else r.book.levels[bk] == st.book.levels[bk] && r.trees[bk] == st.trees[bk]
    decreases n
  {
    hide AfterTop5, ReadLadder;
    if n > 0 {
      SnapshotLadder(st, n - 1, bk);
      var mid := SwSnapshot(st, n - 1);
      ReadAt(mid, NUM_STOCKS + n - 1, bk);
      ReadAt(ReadLadder(mid, NUM_STOCKS + n - 1), n - 1, bk);
    }
  }

  lemma {:induction false} SnapshotOrders(st: SwState, n: nat)
    requires StateOK(st) && n <= NUM_STOCKS
    ensures SwSnapshot(st, n).book == st.book.(levels := SwSnapshot(st, n).book.levels)
    decreases n
  {
    if n > 0 { SnapshotOrders(st, n - 1); }
  }

  /** From any state, a snapshot keeps the book exactly when on no ladder a list element is taken a second time after it
      held something. */
  lemma SnapshotKeeps(st: SwState)
    requires StateOK(st)
    ensures SwSnapshot(st, NUM_STOCKS).book == st.book <==>
            forall bk :: 0 <= bk < BOOKS ==>
              TakenOnce(st.book.levels[bk], Take(st.trees[bk], st.book.levels[bk], SideAt(bk), 5))
  {
    hide SwSnapshot, Take, TakenOnce, AfterTop5, Shaped;
    var r := SwSnapshot(st, NUM_STOCKS);
    SnapshotOrders(st, NUM_STOCKS);
    forall bk | 0 <= bk < BOOKS
      ensures r.book.levels[bk] == st.book.levels[bk] <==>
          TakenOnce(st.book.levels[bk], Take(st.trees[bk], st.book.levels[bk], SideAt(bk), 5))
    {
      SnapshotLadder(st, NUM_STOCKS, bk);
      Top5Keeps(st.trees[bk], st.book.levels[bk], SideAt(bk));
    }
    assert r.book == st.book <==> r.book.levels == st.book.levels;
  }

  /** The software gets through the run, and a snapshot after it would not change the book. */
  ghost predicate KeepsBook(ins: seq<Input>)
    requires AllInRange(Sent(ins))
  {
    SwTreeRun(ins).Some? && SwSnapshot(SwTreeRun(ins).value, NUM_STOCKS).book == SwTreeRun(ins).value.book
  }

  /** Two asks, one at the last level but one and one two ticks below the ladder. */
  const ASK_HIGH := Message(0, 1, 5, 1000000 + 254 * TICK, 1, SIDE_ASK)
  const ASK_LOW := Message(0, 2, 7, 1000000 - TICK - 1, 1, SIDE_ASK)

  lemma TwoInputs(a: Message, b: Message)
    requires InRange(a) && InRange(b)
    ensures Sent([Msg(a), Msg(b)]) == [a, b]
    ensures SwTreeStep(SwStart(), a).Some? ==>
        SwTreeRun([Msg(a), Msg(b)]) == SwTreeStep(SwTreeStep(SwStart(), a).value, b)
  {
    var ins := [Msg(a), Msg(b)];
    assert ins[..1] == [Msg(a)] && ins[..1][..0] == [] && Last(ins) == Msg(b) && Last(ins[..1]) == Msg(a);
    assert Sent([]) == [] && Sent(ins[..1]) == [a] && Sent(ins) == [a, b];
    hide SwTreeStep, SwStart;
    assert SwTreeRun([]) == Some(SwStart());
    assert SwTreeRun(ins[..1]) == SwTreeStep(SwStart(), a);
  }

  /** The state of the ask ladder after the two asks. */
  lemma AskLadder(st: SwState)
    requires StateExact(SwStart())
    requires SwTreeStep(SwStart(), ASK_HIGH).Some?
    requires SwTreeStep(SwTreeStep(SwStart(), ASK_HIGH).value, ASK_LOW) == Some(st)
    ensures var z := ZeroLadder(MAX_LEVELS);
            var q: seq<nat>, r: seq<nat> := z[254 := 5], z[254 := 12];
            && st.book.levels[NUM_STOCKS] == r && Shaped(TreeOf(z, SIDE_ASK), q) &&
              Shaped(Bubble(TreeOf(z, SIDE_ASK), q, SIDE_ASK, 254), r)
            && st.trees[NUM_STOCKS] == Bubble(Bubble(TreeOf(z, SIDE_ASK), q, SIDE_ASK, 254), r, SIDE_ASK, -2)
  {
    var z := ZeroLadder(MAX_LEVELS);
    var mid := SwTreeStep(SwStart(), ASK_HIGH).value;
    hide TreeOf, Bubble;
    assert SwStart().book.levels[NUM_STOCKS] == z && SwStart().trees[NUM_STOCKS] == TreeOf(z, SIDE_ASK);
    assert mid.book.levels[NUM_STOCKS] == z[254 := 5];
    assert st.book.levels[NUM_STOCKS] == z[254 := 5][254 := 12] == z[254 := 12];
  }

  lemma LowAskPrices(slack: int)
    requires slack > TICK
    ensures PricesAbove([ASK_HIGH, ASK_LOW], slack)
  {
    var ms := [ASK_HIGH, ASK_LOW];
    forall k | 0 <= k < |ms| && Accepted(ms[k]) ensures ms[k].price >= MinPrice(ms[k].stock) - slack {
      assert ms[k] == ASK_HIGH || ms[k] == ASK_LOW;
    }
  }

  lemma LowAskState() returns (st: SwState)
    ensures InRange(ASK_HIGH) && InRange(ASK_LOW) && SwTreeStep(SwStart(), ASK_HIGH).Some?
    ensures SwTreeStep(SwTreeStep(SwStart(), ASK_HIGH).value, ASK_LOW) == Some(st)
    ensures st.book.levels[NUM_STOCKS][254] == 12
    ensures AfterTop5(st.trees[NUM_STOCKS], st.book.levels[NUM_STOCKS], SIDE_ASK).q[254] == 0
  {
    StartNear();
    ExactStep(SwStart(), ASK_HIGH);
    StepBook(SwTreeStep(SwStart(), ASK_HIGH).value, ASK_LOW);
    assert SwIndex(0, ASK_LOW.price) == -2;
    st := SwTreeStep(SwTreeStep(SwStart(), ASK_HIGH).value, ASK_LOW).value;
    hide SwTreeStep, AfterTop5, TreeOf, Bubble, StateExact, StateNear;
    AskLadder(st);
    SnapshotLoses(MAX_LEVELS, 5, 7);
  }

  /** Two ticks below the ladder a snapshot can lose all twelve shares of a level. */
  lemma LowAskLoses()
    ensures Sent([Msg(ASK_HIGH), Msg(ASK_LOW)]) == [ASK_HIGH, ASK_LOW] && AllInRange([ASK_HIGH, ASK_LOW])
    ensures !KeepsBook([Msg(ASK_HIGH), Msg(ASK_LOW)])
  {
    var st := LowAskState();
    hide SwTreeStep, SwSnapshot, AfterTop5, TreeOf, Bubble, Sent, SwTreeRun;
    TwoInputs(ASK_HIGH, ASK_LOW);
    SnapshotLadder(st, NUM_STOCKS, NUM_STOCKS);
    assert SwSnapshot(st, NUM_STOCKS).book.levels[NUM_STOCKS][254] == 0;
  }

  /** Snapshots keep the book of every run with prices at most slack below the ladder exactly when slack is one tick or
      less. */
  lemma SnapshotBound(slack: int)
    ensures (forall ins :: AllInRange(Sent(ins)) && PricesAbove(Sent(ins), slack) ==> KeepsBook(ins)) <==> slack <= TICK
  {
    if slack <= TICK {
      forall ins | AllInRange(Sent(ins)) && PricesAbove(Sent(ins), slack) ensures KeepsBook(ins) {
        assert PricesAbove(Sent(ins), TICK);
        SnapshotsHarmless(ins);
        SnapshotNear(SwTreeRun(ins).value, NUM_STOCKS);
      }
    } else {
      LowAskLoses();
      LowAskPrices(slack);
      assert AllInRange(Sent([Msg(ASK_HIGH), Msg(ASK_LOW)]));
    }
  }
}
