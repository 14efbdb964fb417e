/** The software client as one object: book, parser, covariance, solver and order generation in its loop. */
module Clients {
  import opened Words
  import opened Bytes
  import opened LinearAlgebra
  import Covariance
  import SoftwareLadders
  import opened Weights
  import opened Ouch
  import opened Books
  import opened BookRuns
  import opened SoftwareBooks
  import opened OrderBookManagers
  import opened TaParsers
  import opened SnapshotPrices
  import opened CovUpdates
  import opened QRDecompLinSolvers
  import opened QrStages
  import opened OrderGen
  import opened ClientAccounts

  // ---------- the stages' results as the client's account has them ----------

  /** There is only one solution, so the solver's weights are the ones the account is said to use. */
  lemma SolvedAre(K: Mat, raw: Vec)
    requires IsSquare(K, |K|) && Solves(K, Ones(|K|), raw) && !Singular(K)
    ensures SolvedWeights(K) == Project(raw)
  {
    hide Singular, Solves, Project;
    SolutionExists(K);
    forall x | Solves(K, Ones(|K|), x) ensures x == raw { SolutionUnique(K, Ones(|K|), x, raw); }
  }

  lemma {:induction false} PriceAtStock(entries: seq<Entry>, s: nat)
    requires forall k :: 0 <= k < |entries| ==> FiveEach(entries[k]) && entries[k].stock == k
    requires s < |entries|
    ensures PriceIn(entries, s) == EntryPrice(entries[s])
    decreases |entries|
  {
    hide EntryPrice;
    if s < |entries| - 1 { PriceAtStock(entries[..|entries| - 1], s); }
  }

  lemma PricesOfEntries(st: SwState, entries: seq<Entry>, p: Vec)
    requires StateOK(st) && |entries| == |p| == NUM_STOCKS
    requires forall s :: 0 <= s < NUM_STOCKS ==> entries[s] == TreeEntry(st, s) && FiveEach(entries[s])
    requires forall s :: 0 <= s < NUM_STOCKS ==> p[s] == PriceIn(entries, s)
    ensures p == EntryPrices(st)
  {
    hide EntryPrice, LadderPrices, LadderQuantities, StateOK;
    forall s | 0 <= s < NUM_STOCKS ensures p[s] == EntryPrices(st)[s] { PriceAtStock(entries, s); }
  }

  /** One more price vector adds the call that the matrix allows, if any. */
  lemma TicksMore(h: seq<Vec>)
    requires PositivePrices(h) && |h| > 1
    ensures var g, K := h[..|h| - 1], CovAfter(Simple, h, NUM_STOCKS);
            && PositivePrices(g)
            && ClientTicks(Simple, h) ==
               ClientTicks(Simple, g) + if Singular(K) then [] else [Tick(SolvedWeights(K), Last(h))]
  {
    hide Singular, CovAfter, SolvedWeights;
  }

  lemma RunMore(ts: seq<Tick>, t: Tick)
    requires AllSound(ts) && Sound(t.w, t.p)
    ensures AllSound(ts + [t]) && Run(ts + [t]) == Step(Run(ts), t.w, t.p)
  {
    hide Step, Sound;
    var us := ts + [t];
    assert us[..|us| - 1] == ts && Last(us) == t;
  }

  /** The account of the client after the price vectors h. */
  ghost predicate AccountAfter(a: Account, h: seq<Vec>) {
    PositivePrices(h) && AllSound(ClientTicks(Simple, h)) && a == Run(ClientTicks(Simple, h))
  }

  lemma AccountStays(a: Account, h: seq<Vec>, p: Vec)
    requires AccountAfter(a, h) && PositivePrices([p])
    requires h == [] || Singular(CovAfter(Simple, h + [p], NUM_STOCKS))
    ensures AccountAfter(a, h + [p])
  {
    hide Singular, CovAfter, AllSound, Run;
    var g := h + [p];
    assert [p][0] == p && Last(g) == p && g[..|g| - 1] == h;
    if h != [] {
      TicksMore(g);
      hide ClientTicks;
      assert ClientTicks(Simple, g) == ClientTicks(Simple, h);
    } else {
      assert ClientTicks(Simple, g) == ClientTicks(Simple, h);
    }
  }

  lemma AccountMoves(a: Account, h: seq<Vec>, p: Vec)
    requires AccountAfter(a, h) && PositivePrices([p]) && h != []
    requires var C := CovAfter(Simple, h + [p], NUM_STOCKS); !Singular(C)
    ensures StepInput(SolvedWeights(CovAfter(Simple, h + [p], NUM_STOCKS)), p)
    ensures AccountAfter(Step(a, SolvedWeights(CovAfter(Simple, h + [p], NUM_STOCKS)), p), h + [p])
  {
    var g := h + [p];
    assert [p][0] == p && Last(g) == p && g[..|g| - 1] == h;
    hide Singular, CovAfter, AllSound, Step;
    TicksMore(g);
    SolvedSound(CovAfter(Simple, g, NUM_STOCKS), p);
    RunMore(ClientTicks(Simple, h), Tick(SolvedWeights(CovAfter(Simple, g, NUM_STOCKS)), p));
  }

  // ---------- the client ----------

  class Client {
    const book: OrderBookManager
    const cov: CovarianceUpdateStack
    const solver: QRDecompLinSolver
    const og: OrderGenerator
    var orderCount: nat
    ghost var inputs: seq<Input>   // every message and snapshot so far

    ghost predicate Shaped()
      reads cov
    {
      cov.d == NUM_STOCKS && cov.kind == Simple && solver.n == NUM_STOCKS
    }

    /** Book, prices and account are what the messages and snapshots so far make of them. */
    ghost predicate Fed()
      reads `inputs, book, book.books, og, cov, cov.lastPrices, cov.lastReturns, cov.secondMoment, cov.cov
    {
      && Shaped() && book.Valid() && cov.Valid() && og.Valid()
      && AllInRange(Sent(inputs)) && PricesAbove(Sent(inputs), TICK) && SwTreeRun(inputs) == Some(book.State())
      && cov.seen == ClientPrices(inputs) && AccountAfter(og.State(), cov.seen)
    }

    /** And there was a snapshot after every twentieth message. */
    ghost predicate Valid()
      reads this, book, book.books, og, cov, cov.lastPrices, cov.lastReturns, cov.secondMoment, cov.cov
    {
      Fed() && orderCount < 20 && |Sent(inputs)| == 20 * |cov.seen| + orderCount
    }

    constructor ()
      ensures Valid() && inputs == []
    {
      hide OrderBookManager.Valid, CovarianceUpdateStack.Valid, OrderGenerator.Valid, SwStart, Start;
      book := new OrderBookManager();
      cov := new CovarianceUpdateStack(NUM_STOCKS, Simple);
      solver := new QRDecompLinSolver(NUM_STOCKS);
      og := new OrderGenerator();
      orderCount, inputs := 0, [];
    }

    /** One message; after every twentieth, one snapshot and what it leads to. Not ok: OverflowError, see Trade. */
    method Receive(m: Message) returns (blob: Option<seq<byte>>, ok: bool)
      requires Valid() && InRange(m) && (Accepted(m) ==> m.price >= MinPrice(m.stock) - TICK)
      modifies this, book, book.books, og, cov, cov.lastPrices, cov.lastReturns, cov.secondMoment, cov.cov
      ensures ok ==> Valid()
      ensures inputs == old(inputs) + [Msg(m)] + if old(orderCount) == 19 then [Snapshot] else []
      ensures if old(orderCount) < 19 then blob == None && ok
              else cov.seen != [] && Traded(old(og.State()), old(cov.seen), Last(cov.seen), blob, ok)
    {
      hide Fed, OrderGenerator.Valid, Traded, Sent;
      TakeIn(m);
      orderCount := orderCount + 1;
      blob, ok := None, true;
      if orderCount >= 20 {
        blob, ok := Publish();
        orderCount := 0;
      }
    }

    /** A message changes the book only. */
    method TakeIn(m: Message)
      requires Fed() && InRange(m) && (Accepted(m) ==> m.price >= MinPrice(m.stock) - TICK)
      modifies this`inputs, book, book.books
      ensures Fed() && inputs == old(inputs) + [Msg(m)] && |Sent(inputs)| == |Sent(old(inputs))| + 1
    {
      hide OrderBookManager.Valid, CovarianceUpdateStack.Valid, OrderGenerator.Valid, SwTreeRun, ClientPrices,
        PricesAbove, AccountAfter, SwTreeStep;
      MessageMore(inputs, m);
      var done := book.Process(m);
      assert done;
      inputs := inputs + [Msg(m)];
    }

    /** A snapshot, its prices, and the trade they lead to. */
    method Publish() returns (blob: Option<seq<byte>>, ok: bool)
      requires Fed()
      modifies this`inputs, book.books, og, cov, cov.lastPrices, cov.lastReturns, cov.secondMoment, cov.cov
      ensures ok ==> Fed()
      ensures inputs == old(inputs) + [Snapshot] && |Sent(inputs)| == |Sent(old(inputs))|
      ensures |cov.seen| == |old(cov.seen)| + 1 && Traded(old(og.State()), old(cov.seen), Last(cov.seen), blob, ok)
    {
      hide OrderBookManager.Valid, CovarianceUpdateStack.Valid, OrderGenerator.Valid, SwTreeRun, ClientPrices,
        PricesAbove, AccountAfter, Traded, SwSnapshot;
      SnapshotMore(inputs);
      var p := MarketPrices();
      inputs := inputs + [Snapshot];
      blob, ok := Trade(p);
    }

    /** The matrix as the solver takes it. */
    method Matrix() returns (K: Mat)
      requires cov.d == NUM_STOCKS && cov.Valid() && cov.seen != [] && Prices(cov.seen, NUM_STOCKS)
      ensures K == CovAfter(cov.kind, cov.seen, NUM_STOCKS)
    {
      hide Covariance.CovEntry, Covariance.Mean, Covariance.Moment;
      K := [];
      for i := 0 to NUM_STOCKS
        invariant |K| == i && forall k :: 0 <= k < i ==> K[k] == CovAfter(cov.kind, cov.seen, NUM_STOCKS)[k]
      {
        K := K + [[cov.cov[i, 0], cov.cov[i, 1], cov.cov[i, 2], cov.cov[i, 3]]];
      }
    }

    /** Publish, and price what was published. */
    method MarketPrices() returns (p: Vec)
      requires book.Valid()
      modifies book.books
      ensures book.Valid() && book.State() == SwSnapshot(old(book.State()), NUM_STOCKS)
      ensures p == EntryPrices(old(book.State()))
    {
      hide OrderBookManager.Valid, SwSnapshot, EntryPrice, LadderPrices, LadderQuantities;
      ghost var st := book.State();
      var entries := book.PublishSnapshot();
      forall s | 0 <= s < NUM_STOCKS ensures FiveEach(entries[s]) && entries[s].stock == s { EntryShape(st, s); }
      p := UpdatePrices(entries);
      PricesOfEntries(st, entries, p);
    }

    /** Covariance, solver and order generation on one price vector. Not ok: a call of order generation raised
        OverflowError, which ends the client. */
    method Trade(p: Vec) returns (blob: Option<seq<byte>>, ok: bool)
      requires Shaped() && cov.Valid() && og.Valid() && PositivePrices([p]) && AccountAfter(og.State(), cov.seen)
      modifies cov, cov.lastPrices, cov.lastReturns, cov.secondMoment, cov.cov, og
      ensures Shaped() && cov.Valid() && og.Valid() && cov.seen == old(cov.seen) + [p]
      ensures ok ==> AccountAfter(og.State(), cov.seen)
      ensures Traded(old(og.State()), old(cov.seen), p, blob, ok)
    {
      hide CovarianceUpdateStack.Valid, AccountAfter, CovAfter, Singular, Step, Solvent, BoughtFor, Project, Solves;
      ghost var h, a := cov.seen, og.State();
      PositiveMore(h, p, a);
      var proceed := cov.Update(p);
      if !proceed {
        AccountStays(a, h, p);
        return None, true;
      }
      assert cov.seen == h + [p];
      var K := Matrix();
      var w, solved, raw := solver.Solve(K);
      if !solved {
        AccountStays(a, h, p);
        return None, true;
      }
      SolvedAre(K, raw);
      AccountMoves(a, h, p);
      AccountWorth(a, h, p);
      blob := og.OrderGen([Some(w[0]), Some(w[1]), Some(w[2]), Some(w[3])], p);
      assert og.latchedWeights == w;
      ok := blob.Some?;
    }
  }

  /** A message more, within reach. */
  lemma MessageMore(ins: seq<Input>, m: Message)
    requires AllInRange(Sent(ins)) && PricesAbove(Sent(ins), TICK) && SwTreeRun(ins).Some?
    requires InRange(m) && (Accepted(m) ==> m.price >= MinPrice(m.stock) - TICK)
    ensures var n := ins + [Msg(m)];
            && Sent(n) == Sent(ins) + [m] && AllInRange(Sent(n)) && PricesAbove(Sent(n), TICK)
            && SwTreeRun(n).Some? && SwTreeRun(n) == SwTreeStep(SwTreeRun(ins).value, m)
            && ClientPrices(n) == ClientPrices(ins)
  {
    var n := ins + [Msg(m)];
    assert n[..|n| - 1] == ins && Last(n) == Msg(m);
    assert Sent(n) == Sent(ins) + [m];
    hide SwTreeRun, Sent, SwTreeStep, ClientPrices;
    RunLast(n);
    SnapshotsHarmless(n);
    PricesLonger(n);
  }

  /** A snapshot more. */
  lemma SnapshotMore(ins: seq<Input>)
    requires AllInRange(Sent(ins)) && PricesAbove(Sent(ins), TICK) && SwTreeRun(ins).Some?
    ensures var n := ins + [Snapshot];
            && Sent(n) == Sent(ins) && SwTreeRun(n) == Some(SwSnapshot(SwTreeRun(ins).value, NUM_STOCKS))
            && ClientPrices(n) == ClientPrices(ins) + [EntryPrices(SwTreeRun(ins).value)]
            && PositivePrices([EntryPrices(SwTreeRun(ins).value)])
  {
    var n := ins + [Snapshot];
    assert n[..|n| - 1] == ins && Last(n) == Snapshot;
    assert Sent(n) == Sent(ins);
    hide SwTreeRun, Sent, SwSnapshot, ClientPrices, EntryPrices, PricesAbove, PositivePrices, AllInRange;
    RunLast(n);
    PricesLonger(n);
    PricesNear(n);
    LastPositive(ClientPrices(n), ClientPrices(ins), EntryPrices(SwTreeRun(ins).value));
  }

  lemma LastPositive(h: seq<Vec>, g: seq<Vec>, p: Vec)
    requires PositivePrices(h) && h == g + [p]
    ensures PositivePrices([p])
  {
    assert h[|g|] == p;
  }

  /** What one price vector p after h makes the client do: it calls order generation if p is not the first and the
      matrix is not singular, and then sends the orders of the step unless its worth does not fit the four bytes. */
  ghost predicate Traded(a: Account, h: seq<Vec>, p: Vec, blob: Option<seq<byte>>, ok: bool)
    requires AccountOK(a)
  {
    && PositivePrices(h + [p])
    && var K := CovAfter(Simple, h + [p], NUM_STOCKS);
    if h == [] || Singular(K) then blob == None && ok
    else
      var fixed := FixedPoint(NetWorth(a, p));
      && 0 <= fixed && (ok <==> fixed < WORD)
      && StepInput(SolvedWeights(K), p)
      && blob == if ok then Some(Reversed(Blob(fixed, Orders(a, SolvedWeights(K), p, NUM_STOCKS)))) else None
  }

  lemma PositiveMore(h: seq<Vec>, p: Vec, a: Account)
    requires AccountAfter(a, h) && PositivePrices([p])
    ensures PositivePrices(h) && PositivePrices(h + [p]) && Prices(h + [p], NUM_STOCKS) && AccountOK(a)
    ensures |p| == NUM_STOCKS && forall i :: 0 <= i < NUM_STOCKS ==> p[i] > 0.0
  {
    assert [p][0] == p;
  }

  lemma AccountWorth(a: Account, h: seq<Vec>, p: Vec)
    requires AccountAfter(a, h) && PositivePrices([p])
    ensures |p| == NUM_STOCKS && FixedPoint(NetWorth(a, p)) >= 0
  {
    assert [p][0] == p;
    hide ClientTicks, Run;
    RunSolvent(ClientTicks(Simple, h));
    WorthNonNegative(a.shares, p, NUM_STOCKS);
    assert NetWorth(a, p) * SCALE >= 0.0;
  }

  lemma EntryShape(st: SwState, s: nat)
    requires StateOK(st) && s < NUM_STOCKS
    ensures FiveEach(TreeEntry(st, s)) && TreeEntry(st, s).stock == s
  {
    hide SoftwareLadders.Top5Prices, SoftwareLadders.Top5Quantities;
  }
}
