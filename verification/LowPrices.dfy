/** Prices below the ladder: where the software's negative list index puts them, and when the twins still agree. */
module LowPrices {
  import opened Words
  import opened Books
  import opened BookRuns
  import opened SoftwareBooks

  /** The lowest price the software can index is this far below the ladder. */
  const REACH := MAX_LEVELS * TICK

  /** The book with every level index replaced by the list element it selects. */
  function Normal(b: Book): (c: Book)
    requires PyWF(b)
    ensures WF(c) && c.levels == b.levels && c.valid == b.valid && c.qty == b.qty && c.side == b.side
  {
    b.(index := seq(MAX_ORDERS, id requires 0 <= id < MAX_ORDERS => PyLevel(b.index[id])))
  }

  /** The message does not make the software's list access fail. */
  predicate Usable(m: Message) {
    Accepted(m) ==> m.price >= MinPrice(m.stock) - REACH
  }

  /** The same message at the ladder price of the list element that the software uses. */
  function Relocate(m: Message): (r: Message)
    ensures r == m.(price := r.price)
  {
    if Accepted(m) && Usable(m) then
      UsableIndex(m.stock, m.price);
      m.(price := MinPrice(m.stock) + PyLevel(SwIndex(m.stock, m.price)) * TICK)
    else m
  }

  lemma UsableIndex(stock: nat, price: nat)
    requires stock < NUM_STOCKS
    ensures SwIndex(stock, price) >= -MAX_LEVELS <==> price >= MinPrice(stock) - REACH
    ensures SwIndex(stock, price) >= -1 <==> price >= MinPrice(stock) - TICK
  {
  }

  lemma LadderIndex(stock: nat, l: nat)
    requires stock < NUM_STOCKS && l < MAX_LEVELS
    ensures MinPrice(stock) + l * TICK < WORD
    ensures HwIndex(stock, MinPrice(stock) + l * TICK) == l && SwIndex(stock, MinPrice(stock) + l * TICK) == l
  {
    assert l * TICK / TICK == l;
  }

  lemma RelocateInRange(m: Message)
    requires InRange(m)
    ensures InRange(Relocate(m)) && Usable(Relocate(m)) == Usable(m)
    ensures Accepted(m) && Usable(m) ==> Relocate(m).price >= MinPrice(m.stock)
  {
    if Accepted(m) && Usable(m) {
      UsableIndex(m.stock, m.price);
      LadderIndex(m.stock, PyLevel(SwIndex(m.stock, m.price)));
    }
  }

  /** The software's step is its step on list elements, at the relocated price; it fails exactly out of reach. */
  lemma SwStepRelocated(b: Book, m: Message)
    requires PyWF(b) && InRange(m)
    ensures SwStep(b, m).Some? <==> Usable(m)
    ensures Usable(m) ==> InRange(Relocate(m)) && SwStep(Normal(b), Relocate(m)) == Some(Normal(SwStep(b, m).value))
  {
    RelocateInRange(m);
    if Accepted(m) {
      UsableIndex(m.stock, m.price);
      if Usable(m) { AddRelocated(b, m); }
    } else if Removal(m) {
      CutRelocated(b, m);
    }
  }

  lemma AddRelocated(b: Book, m: Message)
    requires PyWF(b) && InRange(m) && Accepted(m) && Usable(m)
    ensures SwAdd(b, m).Some? && SwAdd(Normal(b), Relocate(m)) == Some(Normal(SwAdd(b, m).value))
  {
    UsableIndex(m.stock, m.price);
    var l := PyLevel(SwIndex(m.stock, m.price));
    LadderIndex(m.stock, l);
    var c, d := SwAdd(b, m).value, SwAdd(Normal(b), Relocate(m)).value;
    assert d.index == Normal(c).index;
  }

  lemma CutRelocated(b: Book, m: Message)
    requires PyWF(b) && InRange(m) && Removal(m)
    ensures SwCancel(Normal(b), m.stock, m.id, CancelArg(m)) == Normal(SwCancel(b, m.stock, m.id, CancelArg(m)))
  {
    var c, d := SwCancel(b, m.stock, m.id, CancelArg(m)), SwCancel(Normal(b), m.stock, m.id, CancelArg(m));
    assert d.index == Normal(c).index;
  }

  // ---------- runs ----------

  ghost function Relocated(ms: seq<Message>): (rs: seq<Message>)
    ensures |rs| == |ms| && forall k :: 0 <= k < |ms| ==> rs[k] == Relocate(ms[k])
  {
    seq(|ms|, k requires 0 <= k < |ms| => Relocate(ms[k]))
  }

  lemma RelocatedInRange(ms: seq<Message>)
    requires AllInRange(ms)
    ensures AllInRange(Relocated(ms)) && (PricesAbove(ms, REACH) ==> PricesOnLadder(Relocated(ms)))
  {
    forall k | 0 <= k < |ms|
      ensures InRange(Relocate(ms[k])) &&
          (Accepted(ms[k]) && Usable(ms[k]) ==> Relocate(ms[k]).price >= MinPrice(ms[k].stock))
    {
      RelocateInRange(ms[k]);
    }
  }

  lemma RelocatedShorter(ms: seq<Message>)
    requires ms != []
    ensures Relocated(ms)[..|ms| - 1] == Relocated(ms[..|ms| - 1]) && Last(Relocated(ms)) == Relocate(Last(ms))
  {
  }

  /** The software survives a run exactly when every price is within reach, and is then the relocated run's book. */
  lemma {:induction false} SwRunRelocated(ms: seq<Message>)
    requires AllInRange(ms)
    ensures AllInRange(Relocated(ms))
    ensures SwRun(ms).Some? <==> PricesAbove(ms, REACH)
    ensures SwRun(ms).Some? ==> SwRun(Relocated(ms)) == Some(Normal(SwRun(ms).value))
    decreases |ms|
  {
    hide SwStep, Relocate;
    RelocatedInRange(ms);
    if ms == [] {
      assert Relocated(ms) == [] && Normal(Empty()) == Empty();
    } else {
      var p := ms[..|ms| - 1];
      SwRunRelocated(p);
      RelocatedShorter(ms);
      assert PricesAbove(ms, REACH) <==> PricesAbove(p, REACH) && Usable(Last(ms));
      if SwRun(p).Some? { SwStepRelocated(SwRun(p).value, Last(ms)); }
    }
  }

  /** The order list sees neither prices nor levels. */
  ghost predicate SameOrders(b: Book, c: Book) {
    b.valid == c.valid && b.qty == c.qty && b.side == c.side
  }

  lemma StepSameOrders(b: Book, c: Book, m: Message)
    requires WF(b) && WF(c) && InRange(m) && InRange(Relocate(m)) && SameOrders(b, c)
    ensures SameOrders(HwStep(b, m), HwStep(c, Relocate(m)))
  {
    assert CheckAskBid(b, m.id) == CheckAskBid(c, m.id);
    if m.id < MAX_ORDERS { assert RemoveQty(b, m.id, CancelArg(m)) == RemoveQty(c, m.id, CancelArg(m)); }
    hide Relocate, HwIndex, RemoveQty, CheckAskBid;
  }

  lemma {:induction false} RunSameOrders(ms: seq<Message>)
    requires AllInRange(ms)
    ensures AllInRange(Relocated(ms)) && SameOrders(HwRun(ms), HwRun(Relocated(ms)))
    ensures Home(ms) == Home(Relocated(ms)) && TotalAdded(ms) == TotalAdded(Relocated(ms))
    decreases |ms|
  {
    assert SameOrders(Empty(), Empty());
    hide HwStep, SameOrders, Relocate;
    RelocatedInRange(ms);
    if ms == [] {
      assert Relocated(ms) == [];
    } else {
      var p := ms[..|ms| - 1];
      RunSameOrders(p);
      RelocatedShorter(ms);
      StepSameOrders(HwRun(p), HwRun(Relocated(p)), Last(ms));
    }
  }

  lemma RelocatedConditions(ms: seq<Message>)
    requires AllInRange(ms)
    ensures AllInRange(Relocated(ms)) && OwnStock(Relocated(ms)) == OwnStock(ms)
    ensures NoGhosts(Relocated(ms)) == NoGhosts(ms)
  {
    var rs := Relocated(ms);
    RelocatedInRange(ms);
    hide HwRun, Home, Relocate;
    forall k | 0 <= k < |ms|
      ensures OwnStockAt(rs, k) == OwnStockAt(ms, k) && NoGhostAt(rs, k) == NoGhostAt(ms, k)
    {
      assert rs[..k] == Relocated(ms[..k]);
      RunSameOrders(ms[..k]);
      assert rs[k] == Relocate(ms[k]);
    }
  }

  /** Without snapshots in between, at any prices within reach, the software keeps the hardware's live orders, each
      backed at the element it uses. */
  lemma SoftwareOrders(ms: seq<Message>)
    requires AllInRange(ms) && OwnStock(ms) && TotalAdded(ms) < WORD
    ensures SwRun(ms).Some? <==> PricesAbove(ms, REACH)
    ensures SwRun(ms).Some? ==>
              && AllInRange(Relocated(ms)) && Normal(SwRun(ms).value) == HwRun(Relocated(ms))
              && SameOrders(SwRun(ms).value, HwRun(ms))
              && Backed(Normal(SwRun(ms).value), Home(ms)) &&
                (Exact(Normal(SwRun(ms).value), Home(ms)) <==> NoGhosts(ms))
  {
    SwRunRelocated(ms);
    if SwRun(ms).Some? {
      var rs := Relocated(ms);
      hide HwRun, SwRun, Home, Backed, Exact, OwnStock, NoGhosts, PricesAbove;
      RelocatedInRange(ms);
      RelocatedConditions(ms);
      RunSameOrders(ms);
      TwinsStayEqual(rs);
      assert rs[..|rs|] == rs && AgreeAt(rs, |rs|);
      RunBacked(rs);
      NormalSame(SwRun(ms).value);
      hide Relocated, Normal;
    }
  }

  lemma NormalSame(b: Book)
    requires PyWF(b)
    ensures SameOrders(b, Normal(b))
  {
  }

  // ---------- when the levels agree too ----------

  /** Up to one tick below the ladder, the software's last element is the level the hardware clamps to; no lower. */
  lemma RelocateNear(b: Book, m: Message)
    requires WF(b) && InRange(m) && Accepted(m) && Usable(m)
    ensures InRange(Relocate(m)) && (HwStep(b, Relocate(m)) == HwStep(b, m) <==> m.price >= MinPrice(m.stock) - TICK)
  {
    RelocateInRange(m);
    UsableIndex(m.stock, m.price);
    IndexAgreement(m.stock, m.price);
    LadderIndex(m.stock, PyLevel(SwIndex(m.stock, m.price)));
    assert HwStep(b, m).index[m.id] == HwIndex(m.stock, m.price);
    assert HwStep(b, Relocate(m)).index[m.id] == PyLevel(SwIndex(m.stock, m.price));
  }

  lemma NotRelocated(m: Message)
    requires !Accepted(m)
    ensures Relocate(m) == m
  {
  }

  lemma {:induction false} RunRelocatedNear(ms: seq<Message>)
    requires AllInRange(ms) && PricesAbove(ms, TICK)
    ensures AllInRange(Relocated(ms)) && HwRun(Relocated(ms)) == HwRun(ms)
    decreases |ms|
  {
    RelocatedInRange(ms);
    if ms == [] {
      assert Relocated(ms) == [];
    } else {
      var p, m := ms[..|ms| - 1], Last(ms);
      assert ms[|ms| - 1] == m;
      RelocatedShorter(ms);
      RunUnfold(ms);
      RunUnfold(Relocated(ms));
      assert PricesAbove(p, TICK) && (Accepted(m) ==> Usable(m) && m.price >= MinPrice(m.stock) - TICK);
      hide HwRun, HwStep, Relocate, Usable, Relocated, PricesAbove;
      RunRelocatedNear(p);
      if Accepted(m) { RelocateNear(HwRun(p), m); } else { NotRelocated(m); }
    }
  }

  /** Messages and snapshots so far leave the twins with equal order lists and levels, a negative index counting as the
      element it selects. */
  ghost predicate LevelsAgree(ins: seq<Input>)
    requires AllInRange(Sent(ins))
  {
    SwTreeRun(ins).Some? && Normal(SwTreeRun(ins).value.book) == HwRun(Sent(ins))
  }

  /** So after every input. */
  ghost predicate AgreeThroughout(ins: seq<Input>)
    requires AllInRange(Sent(ins))
    decreases |ins|
  {
    if ins == [] then LevelsAgree(ins)
    else
      RunLast(ins);
      LevelsAgree(ins) && AgreeThroughout(ins[..|ins| - 1])
  }

  lemma NearLevelsAgree(ins: seq<Input>)
    requires AllInRange(Sent(ins)) && OwnStock(Sent(ins)) && TotalAdded(Sent(ins)) < WORD
    requires PricesAbove(Sent(ins), TICK)
    ensures LevelsAgree(ins)
  {
    var ms := Sent(ins);
    assert PricesAbove(ms, REACH);
    hide SwTreeRun, StateNear, PricesAbove, SwRun, HwRun, Backed, Exact, Relocated, Normal;
    SnapshotsHarmless(ins);
    SoftwareOrders(ms);
    RunRelocatedNear(ms);
  }

  /** Where each twin says an added order rests. */
  lemma AddedIndices(b: Book, h: Book, m: Message)
    requires PyWF(b) && WF(h) && InRange(m) && Accepted(m) && SwAdd(b, m).Some?
    ensures -MAX_LEVELS <= SwIndex(m.stock, m.price)
    ensures Normal(SwAdd(b, m).value).index[m.id] == PyLevel(SwIndex(m.stock, m.price))
    ensures HwStep(h, m).index[m.id] == HwIndex(m.stock, m.price)
  {
    hide SwIndex, HwIndex;
    var c := SwAdd(b, m).value;
    assert c.index[m.id] == SwIndex(m.stock, m.price);
  }

  lemma LowIndicesDiffer(stock: nat, price: nat)
    requires stock < NUM_STOCKS && price < WORD && -MAX_LEVELS <= SwIndex(stock, price)
    requires PyLevel(SwIndex(stock, price)) == HwIndex(stock, price)
    ensures price >= MinPrice(stock) - TICK
  {
    UsableIndex(stock, price);
    IndexAgreement(stock, price);
    hide SwIndex, HwIndex;
  }

  /** An add more than one tick below the ladder leaves the twins with different indices. */
  lemma LowAddDiffers(ins: seq<Input>)
    requires AllInRange(Sent(ins)) && ins != [] && Last(ins).Msg? && LevelsAgree(ins) && Accepted(Last(ins).m)
    requires AllInRange(Sent(ins[..|ins| - 1])) && LevelsAgree(ins[..|ins| - 1])
    ensures Last(ins).m.price >= MinPrice(Last(ins).m.stock) - TICK
  {
    var p, m := ins[..|ins| - 1], Last(ins).m;
    RunLast(ins);
    SentShorter(ins);
    RunUnfold(Sent(ins));
    StepBook(SwTreeRun(p).value, m);
    hide SwTreeRun, HwRun, Sent, SwTreeStep, Normal, HwStep, SwAdd, PyWF, WF, StateOK, HwIndex, SwIndex, PyLevel;
    AddedIndices(SwTreeRun(p).value.book, HwRun(Sent(p)), m);
    LowIndicesDiffer(m.stock, m.price);
  }

  /** With snapshots anywhere, the twins' order lists and levels agree after every input exactly when no price is more
      than one tick below its ladder. */
  lemma {:induction false} AgreeExactly(ins: seq<Input>)
    requires AllInRange(Sent(ins)) && OwnStock(Sent(ins)) && TotalAdded(Sent(ins)) < WORD
    ensures AgreeThroughout(ins) <==> PricesAbove(Sent(ins), TICK)
    decreases |ins|
  {
    if PricesAbove(Sent(ins), TICK) { NearLevelsAgree(ins); }
    if ins != [] {
      var p := ins[..|ins| - 1];
      RunLast(ins);
      SentShorter(ins);
      SentConditions(ins);
      AgreeExactly(p);
      PricesShorter(ins, TICK);
      if AgreeThroughout(ins) && Last(ins).Msg? && Accepted(Last(ins).m) {
        AgreeNow(p);
        LowAddDiffers(ins);
      }
    }
    hide LevelsAgree, Sent, SwTreeRun, OwnStock, HwRun, PricesAbove;
  }

  lemma AgreeNow(ins: seq<Input>)
    requires AllInRange(Sent(ins)) && AgreeThroughout(ins)
    ensures LevelsAgree(ins)
  {
  }

  lemma SentConditions(ins: seq<Input>)
    requires ins != [] && AllInRange(Sent(ins)) && OwnStock(Sent(ins)) && TotalAdded(Sent(ins)) < WORD
    ensures var p := ins[..|ins| - 1]; AllInRange(Sent(p)) && OwnStock(Sent(p)) && TotalAdded(Sent(p)) < WORD
  {
    SentShorter(ins);
    hide Sent;
    if Last(ins).Msg? {
      Shorter(Sent(ins));
      RunUnfold(Sent(ins));
    }
  }
}
