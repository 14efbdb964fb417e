/** The software client's calls of order generation, and its account. */
module ClientAccounts {
  import opened Words
  import opened LinearAlgebra
  import opened Weights
  import opened BookRuns
  import opened SoftwareBooks
  import opened SnapshotPrices
  import opened CovUpdates
  import opened QRDecompLinSolvers
  import opened OrderGen
  import opened Replay

  lemma SolutionExists(K: Mat)
    requires IsSquare(K, |K|) && !Singular(K)
    ensures exists x :: Solves(K, Ones(|K|), x)
  {
    var x := Solvable(K, Ones(|K|));
  }

  /** The weights the software solver returns. */
  ghost function SolvedWeights(K: Mat): (w: Vec)
    requires IsSquare(K, |K|) && !Singular(K)
  {
    SolutionExists(K);
    var x :| Solves(K, Ones(|K|), x);
    Project(x)
  }

  /** One call of order generation, if the solver succeeds. */
  ghost function ClientCall(K: Mat, p: Vec): (ts: seq<Tick>)
    requires IsSquare(K, |K|)
  {
    if Singular(K) then [] else [Tick(SolvedWeights(K), p)]
  }

  /** The calls made over price vectors: none for the first, none when the solver fails. */
  ghost function ClientTicks(kind: ReturnKind, h: seq<Vec>): (ts: seq<Tick>)
    requires PositivePrices(h)
  {
    if |h| <= 1 then []
    else ClientTicks(kind, h[..|h| - 1]) + ClientCall(CovAfter(kind, h, NUM_STOCKS), Last(h))
  }

  lemma SolvedSound(K: Mat, p: Vec)
    requires IsSquare(K, NUM_STOCKS) && !Singular(K) && PositivePrices([p])
    ensures Sound(SolvedWeights(K), p)
  {
    assert [p][0] == p;
    SolutionExists(K);
    forall x | Solves(K, Ones(NUM_STOCKS), x) ensures Sound(Project(x), p) { SolutionWeights(K, x, NUM_STOCKS); }
    hide Singular, Solves, Sound, Project;
  }

  lemma {:induction false} ClientSound(kind: ReturnKind, h: seq<Vec>)
    requires PositivePrices(h)
    ensures AllSound(ClientTicks(kind, h))
    decreases |h|
  {
    if |h| > 1 {
      ClientSound(kind, h[..|h| - 1]);
      var K := CovAfter(kind, h, NUM_STOCKS);
      assert Last(h) == h[|h| - 1];
      hide Sound, CovAfter, Singular;
      if !Singular(K) { SolvedSound(K, Last(h)); }
    }
  }

  /** Whatever the positive prices, the client's account stays solvent and the replay of its orders reproduces it. */
  lemma ClientAccount(kind: ReturnKind, h: seq<Vec>)
    requires PositivePrices(h)
    ensures var ts := ClientTicks(kind, h); AllSound(ts) && Solvent(Run(ts)) && Replayed(Run(ts), RunOrders(ts))
  {
    ClientSound(kind, h);
    hide Solvent, Replayed, ClientTicks;
    RunSolvent(ClientTicks(kind, h));
    RunReplay(ClientTicks(kind, h));
  }

  // ---------- on its own snapshots ----------

  /** With prices down to one tick below the ladder, as the shipped rows give, the client run on its own snapshots,
      taken anywhere between the messages, keeps its account solvent and replayable. */
  lemma ClientRun(ins: seq<Input>)
    requires AllInRange(Sent(ins)) && PricesAbove(Sent(ins), TICK)
    ensures SwTreeRun(ins).Some? && PositivePrices(ClientPrices(ins))
    ensures var ts := ClientTicks(Simple, ClientPrices(ins));
            AllSound(ts) && Solvent(Run(ts)) && Replayed(Run(ts), RunOrders(ts))
  {
    PricesNear(ins);
    hide Sent, SwTreeRun, PricesAbove, PositivePrices, ClientTicks, Solvent, Replayed, ClientPrices;
    ClientAccount(Simple, ClientPrices(ins));
  }
}
