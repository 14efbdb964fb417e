/** The hardware's account over whole runs of firings, including those whose weights are no numbers: what every run
    keeps, and from which inputs on solvency and replay are certain whatever the conversions give. */
module HardwareAccounts {
  import opened Words
  import opened Floats
  import opened LinearAlgebra
  import opened Weights
  import opened Ouch
  import opened OrderGen
  import opened OrderGenAxis
  import opened Replay

  ghost predicate FiringsOK(fs: seq<Firing>) {
    forall k :: 0 <= k < |fs| ==> FiringOK(fs[k])
  }

  /** The account after the first n firings. */
  ghost function HwAccount(fs: seq<Firing>, n: nat): (a: Account)
    requires FiringsOK(fs) && n <= |fs|
    ensures AccountOK(a)
  {
    if n == 0 then Start() else Settle(HwAccount(fs, n - 1), fs[n - 1].t, fs[n - 1].p)
  }

  /** Everything ordered in the first n firings. */
  ghost function HwOrders(fs: seq<Firing>, n: nat): (os: seq<Order>)
    requires FiringsOK(fs) && n <= |fs|
  {
    if n == 0 then [] else HwOrders(fs, n - 1) + FiringOrders(HwAccount(fs, n - 1), fs[n - 1], NUM_STOCKS)
  }

  /** Prices and weights of successive firings. */
  type Feed = seq<(Vec, seq<Float>)>

  ghost predicate FeedOK(feed: Feed) {
    forall k :: 0 <= k < |feed| ==> |feed[k].0| == |feed[k].1| == NUM_STOCKS
  }

  /** fs are firings the hardware may make on the first |fs| entries of the feed. */
  ghost predicate Fires(feed: Feed, fs: seq<Firing>) {
    |fs| <= |feed| && FiringsOK(fs) && forall k :: 0 <= k < |fs| ==> FiresAt(feed, fs, k)
  }

  ghost predicate FiresAt(feed: Feed, fs: seq<Firing>, k: nat)
    requires FiringsOK(fs) && k < |fs| && k < |feed|
  {
    Allowed(HwAccount(fs, k), fs[k]) && fs[k].p == feed[k].0 && fs[k].ws == feed[k].1
  }

  lemma {:induction false} FireAt(feed: Feed, fs: seq<Firing>, k: nat)
    requires Fires(feed, fs) && k < |fs|
    ensures k < |feed| && Allowed(HwAccount(fs, k), fs[k]) && fs[k].p == feed[k].0 && fs[k].ws == feed[k].1
    ensures HwAccount(fs, k + 1) == Settle(HwAccount(fs, k), fs[k].t, fs[k].p)
    ensures HwOrders(fs, k + 1) == HwOrders(fs, k) + FiringOrders(HwAccount(fs, k), fs[k], NUM_STOCKS)
  {
    assert FiresAt(feed, fs, k);
    hide Allowed, Settle, FiringOrders;
  }

  // ---------- what every run keeps ----------

  /** Every firing, whatever its weights, leaves the net worth at its prices as it was. */
  lemma {:induction false} FiringConserves(fs: seq<Firing>, k: nat)
    requires FiringsOK(fs) && k < |fs|
    ensures NetWorth(HwAccount(fs, k + 1), fs[k].p) == NetWorth(HwAccount(fs, k), fs[k].p)
  {
    SelfFinancing(HwAccount(fs, k), fs[k].t, fs[k].p);
    hide NetWorth, Settle;
  }

  /** References advance by four, and holdings are unsigned words. */
  lemma {:induction false} RunRanges(feed: Feed, fs: seq<Firing>, n: nat)
    requires Fires(feed, fs) && n <= |fs|
    ensures HwAccount(fs, n).nextRef == 1 + NUM_STOCKS * n
    ensures forall i :: 0 <= i < NUM_STOCKS ==> 0 <= HwAccount(fs, n).shares[i] < WORD
    decreases n
  {
    hide Worth, NetWorth, Desired;
    if n > 0 {
      RunRanges(feed, fs, n - 1);
      FireAt(feed, fs, n - 1);
      TargetWords(HwAccount(fs, n - 1), fs[n - 1]);
    }
  }

  lemma {:induction false} HwLength(fs: seq<Firing>, n: nat)
    requires FiringsOK(fs) && n <= |fs|
    ensures |HwOrders(fs, n)| == 4 * n && HwAccount(fs, n).nextRef == 4 * n + 1
    decreases n
  {
    hide NetWorth, Worth;
    if n > 0 { HwLength(fs, n - 1); }
  }

  /** The orders of every run of firings are numbered 1, 2, 3, ... in sequence; number 4 * k + i + 1 changes stock i by
      the difference that came out of firing k. */
  lemma {:induction false} HwOrderIs(fs: seq<Firing>, n: nat, k: nat, i: nat)
    requires FiringsOK(fs) && k < n <= |fs| && i < 4
    ensures |HwOrders(fs, n)| == 4 * n
    ensures var o := HwOrders(fs, n)[4 * k + i]; o.ref == 4 * k + i + 1 && Changes(o, fs[k].d[i], i)
    decreases n
  {
    hide NetWorth, Worth, Changes, OrderOf, HwAccount;
    HwLength(fs, n);
    HwLength(fs, n - 1);
    if k < n - 1 {
      HwOrderIs(fs, n - 1, k, i);
    } else {
      OrderOfChanges(4 * k + 1 + i, fs[k].d[i], i, fs[k].fixed[i]);
    }
  }

  lemma TargetWords(a: Account, f: Firing)
    requires AccountOK(a) && Allowed(a, f)
    ensures forall i :: 0 <= i < NUM_STOCKS ==> 0 <= f.t[i] < WORD
  {
    hide Desired, NetWorth;
    forall i | 0 <= i < NUM_STOCKS ensures 0 <= f.t[i] < WORD { assert AllowedAt(a, f, i); }
  }

  // ---------- the worst the conversions can do ----------

  /** The largest word that x may convert to. */
  function MostOf(x: Float): (u: int)
    ensures ConvertsTo(x, u) && forall v :: ConvertsTo(x, v) ==> v <= u
  {
    if x.Num? && 0 <= Trunc(x.w) < WORD then Trunc(x.w) else WORD - 1
  }

  function SomeDelta(t: int, held: int): (d: int)
    ensures DeltaOf(t, held, d)
  {
    if FitsSigned(held) && FitsSigned(ToSigned(t) - held) then ToSigned(t) - held else 0
  }

  /** The largest targets that the conversions may give. */
  ghost function MostShares(a: Account, ws: seq<Float>, p: Vec): (t: seq<int>)
    requires AccountOK(a) && |ws| == |p| == NUM_STOCKS
    ensures |t| == NUM_STOCKS
  {
    seq(NUM_STOCKS, i requires 0 <= i < NUM_STOCKS => MostOf(Desired(ws[i], NetWorth(a, p), p[i])))
  }

  /** The firing that asks for them. */
  ghost function Worst(a: Account, ws: seq<Float>, p: Vec): (f: Firing)
    requires AccountOK(a) && |ws| == |p| == NUM_STOCKS
    ensures FiringOK(f) && Allowed(a, f) && f.ws == ws && f.p == p && f.t == MostShares(a, ws, p)
  {
    hide Desired, NetWorth;
    var t := MostShares(a, ws, p);
    var f := Firing(ws, p, t, seq(NUM_STOCKS, i requires 0 <= i < NUM_STOCKS => SomeDelta(t[i], a.shares[i])),
                    seq(NUM_STOCKS, i requires 0 <= i < NUM_STOCKS => MostOf(Num(p[i] * SCALE))));
    assert forall i :: 0 <= i < NUM_STOCKS ==> AllowedAt(a, f, i);
    f
  }

  lemma {:induction false} SamePast(fs: seq<Firing>, gs: seq<Firing>, n: nat)
    requires FiringsOK(fs) && FiringsOK(gs) && n <= |fs| && n <= |gs| && fs[..n] == gs[..n]
    ensures HwAccount(fs, n) == HwAccount(gs, n) && HwOrders(fs, n) == HwOrders(gs, n)
    decreases n
  {
    hide Settle, FiringOrders;
    if n > 0 {
      assert fs[..n - 1] == fs[..n][..n - 1] && gs[..n - 1] == gs[..n][..n - 1];
      assert fs[n - 1] == fs[..n][n - 1] && gs[n - 1] == gs[..n][n - 1];
      SamePast(fs, gs, n - 1);
    }
  }

  lemma {:induction false} OneMore(feed: Feed, past: seq<Firing>, f: Firing)
    requires Fires(feed, past) && |past| < |feed| && Allowed(HwAccount(past, |past|), f)
    requires f.p == feed[|past|].0 && f.ws == feed[|past|].1
    ensures Fires(feed, past + [f])
  {
    var fs := past + [f];
    assert FiringsOK(fs);
    hide Allowed, HwAccount, HwOrders, FiresAt, FiringOK;
    forall k | 0 <= k < |fs| ensures FiresAt(feed, fs, k) {
      if k < |past| { StillFires(feed, past, fs, k); } else { FiresNext(feed, past, f); }
    }
  }

  lemma {:induction false} StillFires(feed: Feed, past: seq<Firing>, fs: seq<Firing>, k: nat)
    requires FiringsOK(past) && FiringsOK(fs) && past <= fs && k < |past| && k < |feed| && FiresAt(feed, past, k)
    ensures FiresAt(feed, fs, k)
  {
    hide Allowed, HwAccount, HwOrders;
    assert fs[..k] == past[..k] && fs[k] == past[k];
    SamePast(fs, past, k);
  }

  lemma {:induction false} FiresNext(feed: Feed, past: seq<Firing>, f: Firing)
    requires FiringsOK(past) && FiringsOK(past + [f]) && |past| < |feed| && Allowed(HwAccount(past, |past|), f)
    requires f.p == feed[|past|].0 && f.ws == feed[|past|].1
    ensures FiresAt(feed, past + [f], |past|)
  {
    hide Allowed, HwAccount, HwOrders;
    assert (past + [f])[..|past|] == past[..|past|];
    SamePast(past + [f], past, |past|);
  }

  /** The worst firing comes next. */
  lemma {:induction false} OneWorst(feed: Feed, past: seq<Firing>)
    requires Fires(feed, past) && |past| < |feed| && |feed[|past|].0| == |feed[|past|].1| == NUM_STOCKS
    ensures var k, a := |past|, HwAccount(past, |past|);
            var f := Worst(a, feed[k].1, feed[k].0);
            && Fires(feed, past + [f])
            && HwAccount(past + [f], k + 1) == Settle(a, f.t, f.p)
            && HwOrders(past + [f], k + 1) == HwOrders(past, k) + FiringOrders(a, f, NUM_STOCKS)
  {
    var k := |past|;
    var f := Worst(HwAccount(past, k), feed[k].1, feed[k].0);
    hide Worst, Allowed, Settle, FiringOrders;
    OneMore(feed, past, f);
    assert (past + [f])[..k] == past[..k];
    SamePast(past + [f], past, k);
    FireAt(feed, past + [f], k);
  }

  /** Whatever happened so far can go on to the end of the feed, with the worst firings. */
  lemma {:induction false} GoOn(feed: Feed, past: seq<Firing>) returns (fs: seq<Firing>)
    requires FeedOK(feed) && Fires(feed, past)
    ensures Fires(feed, fs) && |fs| == |feed| && past <= fs
    ensures |past| < |feed| ==>
              fs[|past|] == Worst(HwAccount(past, |past|), feed[|past|].1, feed[|past|].0)
    decreases |feed| - |past|
  {
    fs := past;
    if |past| < |feed| {
      var f := Worst(HwAccount(past, |past|), feed[|past|].1, feed[|past|].0);
      OneWorst(feed, past);
      hide Worst, Fires, HwAccount, HwOrders;
      fs := GoOn(feed, past + [f]);
      assert fs[|past|] == (past + [f])[|past|];
    }
  }

  // ---------- solvency: one firing ----------

  /** Whatever the conversions give, the cash is not negative after the firing. */
  ghost predicate StaysSolvent(a: Account, ws: seq<Float>, p: Vec)
    requires AccountOK(a)
  {
    forall f :: Allowed(a, f) && f.ws == ws && f.p == p ==> Settle(a, f.t, p).cash >= 0.0
  }

  lemma {:induction false} WorthMonotone(t: seq<int>, u: seq<int>, p: Vec, n: nat)
    requires n <= |t| && n <= |u| && n <= |p| && forall i :: 0 <= i < n ==> t[i] <= u[i] && p[i] > 0.0
    ensures Worth(t, p, n) <= Worth(u, p, n)
    decreases n
  {
    hide Times;
    if n > 0 {
      WorthMonotone(t, u, p, n - 1);
      TimesOrder(t[n - 1] as real, u[n - 1] as real, p[n - 1]);
    }
  }

  /** At positive prices that is so exactly when the account can pay for the largest targets. */
  lemma FiringSolvent(a: Account, ws: seq<Float>, p: Vec)
    requires AccountOK(a) && |ws| == |p| == NUM_STOCKS && forall i :: 0 <= i < NUM_STOCKS ==> p[i] > 0.0
    ensures StaysSolvent(a, ws, p) <==> Worth(MostShares(a, ws, p), p, NUM_STOCKS) <= NetWorth(a, p)
  {
    var g := Worst(a, ws, p);
    assert StaysSolvent(a, ws, p) ==> Settle(a, g.t, p).cash >= 0.0;
    forall f | Allowed(a, f) && f.ws == ws && f.p == p ensures Settle(a, f.t, p).cash >= Settle(a, g.t, p).cash {
      MostIsMost(a, f);
      WorthMonotone(f.t, g.t, p, NUM_STOCKS);
    }
    hide Worth, NetWorth, Worst, MostShares, Allowed;
  }

  lemma MostIsMost(a: Account, f: Firing)
    requires AccountOK(a) && Allowed(a, f)
    ensures forall i :: 0 <= i < NUM_STOCKS ==> f.t[i] <= MostShares(a, f.ws, f.p)[i]
  {
    hide Desired, NetWorth, MostOf;
    forall i | 0 <= i < NUM_STOCKS ensures f.t[i] <= MostShares(a, f.ws, f.p)[i] { assert AllowedAt(a, f, i); }
  }

  /** With numbers that are a step's weights it is always so: a target of 2^32 and more can only convert to less. */
  lemma NumbersSolvent(a: Account, ws: seq<Float>, p: Vec)
    requires Solvent(a) && AllNum(ws) && |ws| == NUM_STOCKS && Sound(Numbers(ws), p)
    ensures StaysSolvent(a, ws, p)
  {
    var w, v := Numbers(ws), NetWorth(a, p);
    var t := Targets(a, w, p);
    WorthNonNegative(a.shares, p, NUM_STOCKS);
    StepSolvent(a, w, p);
    assert v >= 0.0;
    forall i | 0 <= i < NUM_STOCKS ensures MostShares(a, ws, p)[i] <= t[i] {
      assert Desired(ws[i], v, p[i]) == Num(Times(w[i], v) / p[i]);
      TargetBound(w[i], v, p[i]);
    }
    hide Worth, NetWorth, MostShares, Targets, Times, Trunc, Sum;
    WorthMonotone(MostShares(a, ws, p), t, p, NUM_STOCKS);
    FiringSolvent(a, ws, p);
  }

  lemma {:induction false} TermAtMostWorth(shares: seq<int>, p: Vec, i: nat, n: nat)
    requires i < n <= |shares| && n <= |p| && forall k :: 0 <= k < n ==> shares[k] >= 0 && p[k] >= 1.0
    ensures shares[i] as real <= Worth(shares, p, n)
    decreases n
  {
    hide Times;
    WorthNonNegative(shares, p, n - 1);
    AtLeastOne(shares[n - 1] as real, p[n - 1]);
    if i < n - 1 { TermAtMostWorth(shares, p, i, n - 1); }
  }

  lemma AtLeastOne(a: real, p: real)
    requires a >= 0.0 && p >= 1.0
    ensures a <= Times(a, p)
  {
    NonNegativeTimes(a, p - 1.0);
    assert Times(a, p - 1.0) == Times(a, p) - a;
  }

  /** A word that is no number may become 2^32 - 1 shares, which cost more than 2^32 - 1 dollars. */
  lemma NoNumberCosts(a: Account, ws: seq<Float>, p: Vec, i: nat)
    requires AccountOK(a) && |ws| == |p| == NUM_STOCKS && (forall k :: 0 <= k < NUM_STOCKS ==> p[k] >= 1.0)
    requires i < NUM_STOCKS && !ws[i].Num?
    ensures Worth(MostShares(a, ws, p), p, NUM_STOCKS) >= (WORD - 1) as real
  {
    var t := MostShares(a, ws, p);
    assert !Desired(ws[i], NetWorth(a, p), p[i]).Num?;
    assert t[i] == WORD - 1;
    hide Worth, MostShares, Desired;
    assert forall k :: 0 <= k < NUM_STOCKS ==> t[k] >= 0 by { AllMost(a, ws, p); }
    TermAtMostWorth(t, p, i, NUM_STOCKS);
  }

  lemma AllMost(a: Account, ws: seq<Float>, p: Vec)
    requires AccountOK(a) && |ws| == |p| == NUM_STOCKS
    ensures forall k :: 0 <= k < NUM_STOCKS ==> 0 <= MostShares(a, ws, p)[k] < WORD
  {
    hide Desired, NetWorth;
  }

  /** From a solvent account worth less than 2^32 - 1 dollars: exactly when all weights are numbers. */
  lemma SolventExactly(a: Account, ws: seq<Float>, p: Vec)
    requires Solvent(a) && |ws| == |p| == NUM_STOCKS && (forall i :: 0 <= i < NUM_STOCKS ==> p[i] >= 1.0)
    requires NetWorth(a, p) < (WORD - 1) as real && (AllNum(ws) ==> Sound(Numbers(ws), p))
    ensures StaysSolvent(a, ws, p) <==> AllNum(ws)
  {
    hide StaysSolvent, NetWorth, Worth, MostShares, Sound;
    if AllNum(ws) {
      NumbersSolvent(a, ws, p);
    } else {
      var i :| 0 <= i < NUM_STOCKS && !ws[i].Num?;
      NoNumberCosts(a, ws, p, i);
      FiringSolvent(a, ws, p);
    }
  }

  // ---------- solvency: runs ----------

  /** The account is solvent after the first n firings, for every n from k on. */
  ghost predicate SolventFrom(fs: seq<Firing>, k: nat)
    requires FiringsOK(fs)
  {
    forall n :: k <= n <= |fs| ==> Solvent(HwAccount(fs, n))
  }

  /** Entry k has positive prices and, if its weights are numbers, a step's. */
  ghost predicate SoundEntry(feed: Feed, k: nat)
    requires k < |feed|
  {
    && |feed[k].0| == |feed[k].1| == NUM_STOCKS && (forall i :: 0 <= i < NUM_STOCKS ==> feed[k].0[i] >= 1.0)
    && (AllNum(feed[k].1) ==> Sound(Numbers(feed[k].1), feed[k].0))
  }

  lemma SettleSolvent(a: Account, f: Firing)
    requires AccountOK(a) && Allowed(a, f) && Settle(a, f.t, f.p).cash >= 0.0
    ensures Solvent(Settle(a, f.t, f.p))
  {
    TargetWords(a, f);
    hide Worth, NetWorth, Allowed;
  }

  /** While weights are numbers, a solvent account stays solvent. */
  lemma {:induction false} SolventForward(feed: Feed, fs: seq<Firing>, k: nat, n: nat)
    requires Fires(feed, fs) && k <= n <= |fs| && Solvent(HwAccount(fs, k))
    requires forall j :: k <= j < |feed| ==> SoundEntry(feed, j) && AllNum(feed[j].1)
    ensures Solvent(HwAccount(fs, n))
    decreases n
  {
    if n > k {
      FireAt(feed, fs, n - 1);
      assert SoundEntry(feed, n - 1) && AllNum(feed[n - 1].1);
      hide Settle, Allowed, Solvent, Numbers, Sound, Fires, HwAccount, HwOrders, FiringOrders, AllNum;
      SolventForward(feed, fs, k, n - 1);
      StepsSolvent(HwAccount(fs, n - 1), fs[n - 1]);
    }
  }

  lemma StepsSolvent(a: Account, f: Firing)
    requires Solvent(a) && Allowed(a, f) && AllNum(f.ws) && Sound(Numbers(f.ws), f.p)
    ensures Solvent(Settle(a, f.t, f.p))
  {
    NumbersSolvent(a, f.ws, f.p);
    hide Allowed, Settle, Sound, Solvent;
    SettleSolvent(a, f);
  }

  /** After any solvent past on a feed whose numbers, once there, stay: every way to go on is solvent exactly when the
      next weights are numbers. */
  lemma {:induction false} HwSolvent(feed: Feed, past: seq<Firing>)
    requires Fires(feed, past) && |past| < |feed| && forall j :: 0 <= j < |feed| ==> SoundEntry(feed, j)
    requires forall i, j :: 0 <= i <= j < |feed| && AllNum(feed[i].1) ==> AllNum(feed[j].1)
    requires Solvent(HwAccount(past, |past|)) && |feed[|past|].0| == NUM_STOCKS
    requires NetWorth(HwAccount(past, |past|), feed[|past|].0) < (WORD - 1) as real
    ensures (forall fs :: Fires(feed, fs) && past <= fs ==> SolventFrom(fs, |past|)) <==> AllNum(feed[|past|].1)
  {
    var k, a := |past|, HwAccount(past, |past|);
    var (p, ws) := feed[k];
    assert SoundEntry(feed, k);
    forall j | 0 <= j < |feed| ensures |feed[j].0| == |feed[j].1| == NUM_STOCKS { assert SoundEntry(feed, j); }
    hide Settle, Allowed, Numbers, Sound, HwAccount, NetWorth, Solvent, StaysSolvent, AllNum;
    SolventExactly(a, ws, p);
    if AllNum(ws) {
      forall fs, n | Fires(feed, fs) && past <= fs && k <= n <= |fs| ensures Solvent(HwAccount(fs, n)) {
        assert fs[..k] == past[..k];
        SamePast(fs, past, k);
        SolventForward(feed, fs, k, n);
      }
    } else {
      var fs := NotSolvent(feed, past);
      assert !SolventFrom(fs, k);
    }
  }

  lemma {:induction false} NotSolvent(feed: Feed, past: seq<Firing>) returns (fs: seq<Firing>)
    requires FeedOK(feed) && Fires(feed, past) && |past| < |feed|
    requires forall i :: 0 <= i < NUM_STOCKS ==> feed[|past|].0[i] > 0.0
    requires !StaysSolvent(HwAccount(past, |past|), feed[|past|].1, feed[|past|].0)
    ensures Fires(feed, fs) && |fs| == |feed| && past <= fs && HwAccount(fs, |past| + 1).cash < 0.0
  {
    var k, a := |past|, HwAccount(past, |past|);
    var (p, ws) := feed[k];
    FiringSolvent(a, ws, p);
    fs := GoOn(feed, past);
    assert fs[..k] == past[..k];
    SamePast(fs, past, k);
    assert HwAccount(fs, k + 1) == Settle(a, Worst(a, ws, p).t, p);
    hide HwAccount, Worst, MostShares, Worth, Fires;
  }

  // ---------- replay: one firing ----------

  /** Prices are positive and fit their field. */
  ghost predicate PricesFit(p: Vec) {
    |p| == NUM_STOCKS && forall i :: 0 <= i < NUM_STOCKS ==> p[i] > 0.0 && FixedPoint(p[i]) < WORD
  }

  ghost predicate SignedShares(a: Account) {
    AccountOK(a) && forall i :: 0 <= i < NUM_STOCKS ==> 0 <= a.shares[i] < HALF
  }

  /** The weights are numbers whose targets fit a signed word. */
  ghost predicate Traceable(a: Account, ws: seq<Float>, p: Vec)
    requires AccountOK(a) && |ws| == |p| == NUM_STOCKS && forall i :: 0 <= i < NUM_STOCKS ==> p[i] != 0.0
  {
    forall i :: 0 <= i < NUM_STOCKS ==> ws[i].Num? && 0 <= TargetOf(ws[i].w, NetWorth(a, p), p[i]) < HALF
  }

  lemma PriceWord(p: real, u: int)
    requires p > 0.0 && FixedPoint(p) < WORD && ConvertsTo(Num(p * SCALE), u)
    ensures u == FixedPoint(p)
  {
    assert p * SCALE >= 0.0;
  }

  /** Where the orders of a firing lead. */
  ghost function LeadTo(a: Account, f: Firing): (t: seq<int>)
    requires AccountOK(a) && FiringOK(f)
    ensures |t| == NUM_STOCKS
  {
    seq(NUM_STOCKS, i requires 0 <= i < NUM_STOCKS => a.shares[i] + f.d[i])
  }

  lemma OrdersLead(a: Account, f: Firing)
    requires AccountOK(a) && Allowed(a, f) && PricesFit(f.p)
    ensures FiringOrders(a, f, NUM_STOCKS) == OrdersTo(a, LeadTo(a, f), f.p, NUM_STOCKS)
  {
    hide FixedPoint, Desired, NetWorth;
    forall i | 0 <= i < NUM_STOCKS
      ensures FiringOrders(a, f, NUM_STOCKS)[i] == OrdersTo(a, LeadTo(a, f), f.p, NUM_STOCKS)[i] {
      assert AllowedAt(a, f, i);
      PriceWord(f.p[i], f.fixed[i]);
    }
  }

  /** After a firing replay reproduces the account exactly when the orders lead to the targets. */
  lemma ReplayLeads(a: Account, f: Firing, os: seq<Order>)
    requires AccountOK(a) && Allowed(a, f) && PricesFit(f.p) && Replayed(a, os)
    ensures Replayed(Settle(a, f.t, f.p), os + FiringOrders(a, f, NUM_STOCKS)) <==> LeadTo(a, f) == f.t
  {
    OrdersLead(a, f);
    StepReplay(a, LeadTo(a, f), f.p, os);
    assert Settle(a, LeadTo(a, f), f.p).shares == LeadTo(a, f) && Settle(a, f.t, f.p).shares == f.t;
    hide Portfolio, TotalCost, OrdersTo, FiringOrders, Settle, Allowed, LeadTo;
  }

  lemma TraceableLeads(a: Account, f: Firing)
    requires SignedShares(a) && Allowed(a, f) && PricesFit(f.p) && Traceable(a, f.ws, f.p)
    ensures LeadTo(a, f) == f.t && StepInput(Numbers(f.ws), f.p) && f.t == Targets(a, Numbers(f.ws), f.p)
    ensures SignedShares(Settle(a, f.t, f.p))
  {
    hide NetWorth, Times, Trunc;
    forall i | 0 <= i < NUM_STOCKS
      ensures a.shares[i] + f.d[i] == f.t[i] == TargetOf(f.ws[i].w, NetWorth(a, f.p), f.p[i]) && 0 <= f.t[i] < HALF
    {
      assert AllowedAt(a, f, i);
      DeltaLeads(f.t[i], a.shares[i]);
    }
  }

  /** From holdings that fit signed words, replay is certain to reproduce the account after the firing exactly when the
      weights are numbers whose targets fit signed words too. */
  lemma FiringReplays(a: Account, ws: seq<Float>, p: Vec, os: seq<Order>)
    requires SignedShares(a) && |ws| == NUM_STOCKS && PricesFit(p) && Replayed(a, os)
    ensures (forall f :: Allowed(a, f) && f.ws == ws && f.p == p ==>
                Replayed(Settle(a, f.t, p), os + FiringOrders(a, f, NUM_STOCKS))) <==> Traceable(a, ws, p)
  {
    hide AllowedAt, Replayed, Settle, FiringOrders, Traceable, LeadTo;
    if Traceable(a, ws, p) {
      forall f | Allowed(a, f) && f.ws == ws && f.p == p
        ensures FiringOK(f) && Replayed(Settle(a, f.t, p), os + FiringOrders(a, f, NUM_STOCKS)) {
        TraceStep(a, f, os);
      }
    } else {
      WorstUntraced(a, ws, p);
      ReplayLeads(a, Worst(a, ws, p), os);
    }
  }

  lemma WorstUntraced(a: Account, ws: seq<Float>, p: Vec)
    requires SignedShares(a) && |ws| == NUM_STOCKS && PricesFit(p) && !Traceable(a, ws, p)
    ensures LeadTo(a, Worst(a, ws, p)) != Worst(a, ws, p).t
  {
    var i :| 0 <= i < NUM_STOCKS && !(ws[i].Num? && 0 <= TargetOf(ws[i].w, NetWorth(a, p), p[i]) < HALF);
    var f := Worst(a, ws, p);
    assert f.t[i] == MostOf(Desired(ws[i], NetWorth(a, p), p[i]));
    hide NetWorth, Times, Trunc;
    assert f.t[i] >= HALF;
    assert LeadTo(a, f)[i] == a.shares[i] + f.d[i] && f.d[i] == SomeDelta(f.t[i], a.shares[i]);
  }

  // ---------- replay: runs ----------

  /** Replay reproduces the account after the first n firings, for every n from k on. */
  ghost predicate ReplayedFrom(fs: seq<Firing>, k: nat)
    requires FiringsOK(fs)
  {
    forall n :: k <= n <= |fs| ==> Replayed(HwAccount(fs, n), HwOrders(fs, n))
  }

  ghost predicate FeedFits(feed: Feed) {
    forall k :: 0 <= k < |feed| ==> PricesFit(feed[k].0) && |feed[k].1| == NUM_STOCKS
  }

  /** From account a on, every entry of the feed from k on is a step of the software's account with targets that fit a
      signed word. */
  ghost predicate TraceableFrom(feed: Feed, a: Account, k: nat)
    requires FeedFits(feed) && AccountOK(a) && k <= |feed|
    decreases |feed| - k
  {
    k == |feed| ||
    (Traceable(a, feed[k].1, feed[k].0) && TraceableFrom(feed, Step(a, Numbers(feed[k].1), feed[k].0), k + 1))
  }

  lemma {:induction false} TraceForward(feed: Feed, fs: seq<Firing>, k: nat, n: nat)
    requires FeedFits(feed) && Fires(feed, fs) && k <= n <= |fs|
    requires SignedShares(HwAccount(fs, k)) && Replayed(HwAccount(fs, k), HwOrders(fs, k))
    requires TraceableFrom(feed, HwAccount(fs, k), k)
    ensures Replayed(HwAccount(fs, n), HwOrders(fs, n))
    decreases n - k
  {
    hide Replayed, Traceable, HwAccount, HwOrders, TraceableFrom, SignedShares, FiresAt, Allowed, FiringOrders, Settle;
    if n > k {
      FireAt(feed, fs, k);
      TraceUnfold(feed, HwAccount(fs, k), k);
      TraceStep(HwAccount(fs, k), fs[k], HwOrders(fs, k));
      TraceForward(feed, fs, k + 1, n);
    }
  }

  lemma {:induction false} TraceUnfold(feed: Feed, a: Account, k: nat)
    requires FeedFits(feed) && AccountOK(a) && k <= |feed|
    ensures k == |feed| ==> TraceableFrom(feed, a, k)
    ensures k < |feed| ==>
              && PricesFit(feed[k].0) && |feed[k].1| == NUM_STOCKS
              && (TraceableFrom(feed, a, k) <==>
                    Traceable(a, feed[k].1, feed[k].0)
                    && TraceableFrom(feed, Step(a, Numbers(feed[k].1), feed[k].0), k + 1))
  {
  }

  /** One traceable firing: the account moves as the software's, and replay follows. */
  lemma TraceStep(a: Account, f: Firing, os: seq<Order>)
    requires SignedShares(a) && Allowed(a, f) && PricesFit(f.p) && Traceable(a, f.ws, f.p) && Replayed(a, os)
    ensures SignedShares(Settle(a, f.t, f.p)) && Replayed(Settle(a, f.t, f.p), os + FiringOrders(a, f, NUM_STOCKS))
    ensures StepInput(Numbers(f.ws), f.p) && Settle(a, f.t, f.p) == Step(a, Numbers(f.ws), f.p)
  {
    TraceableLeads(a, f);
    ReplayLeads(a, f, os);
    hide Replayed, Allowed, FiringOrders, Traceable, SignedShares, LeadTo, Worth, NetWorth, TargetOf;
  }

  /** When some entry is not, some way to go on loses the trace there. */
  lemma {:induction false} TraceBreaks(feed: Feed, past: seq<Firing>) returns (fs: seq<Firing>)
    requires FeedFits(feed) && Fires(feed, past)
    requires SignedShares(HwAccount(past, |past|)) && Replayed(HwAccount(past, |past|), HwOrders(past, |past|))
    requires !TraceableFrom(feed, HwAccount(past, |past|), |past|)
    ensures Fires(feed, fs) && past <= fs && !ReplayedFrom(fs, |past|)
    decreases |feed| - |past|
  {
    hide *;
    var k := |past|;
    UntracedNext(feed, past);
    if Traceable(HwAccount(past, k), feed[k].1, feed[k].0) {
      var f := TracedNext(feed, past);
      fs := TraceBreaks(feed, past + [f]);
      StillBroken(feed, fs, k);
    } else {
      fs := past + [Worst(HwAccount(past, k), feed[k].1, feed[k].0)];
    }
  }

  /** When the next entry is not traceable, the worst firing loses the trace. */
  lemma {:induction false} UntracedNext(feed: Feed, past: seq<Firing>)
    requires FeedFits(feed) && Fires(feed, past)
    requires SignedShares(HwAccount(past, |past|)) && Replayed(HwAccount(past, |past|), HwOrders(past, |past|))
    requires !TraceableFrom(feed, HwAccount(past, |past|), |past|)
    ensures FiringsOK(past) && |past| < |feed| && PricesFit(feed[|past|].0)
    ensures |feed[|past|].0| == |feed[|past|].1| == NUM_STOCKS
    ensures forall i :: 0 <= i < NUM_STOCKS ==> feed[|past|].0[i] != 0.0
    ensures var k, a := |past|, HwAccount(past, |past|);
            Traceable(a, feed[k].1, feed[k].0) ||
            (var fs := past + [Worst(a, feed[k].1, feed[k].0)]; Fires(feed, fs) && !ReplayedFrom(fs, k))
  {
    hide Replayed, Traceable, Worst, HwAccount, HwOrders, TraceableFrom, SignedShares, FiresAt, ReplayedFrom, FiringOK;
    var k := |past|;
    TraceUnfold(feed, HwAccount(past, k), k);
    if !Traceable(HwAccount(past, k), feed[k].1, feed[k].0) { WorstLoses(feed, past); }
  }

  lemma {:induction false} WorstLoses(feed: Feed, past: seq<Firing>)
    requires Fires(feed, past) && |past| < |feed| && |feed[|past|].1| == NUM_STOCKS && PricesFit(feed[|past|].0)
    requires SignedShares(HwAccount(past, |past|)) && Replayed(HwAccount(past, |past|), HwOrders(past, |past|))
    requires !Traceable(HwAccount(past, |past|), feed[|past|].1, feed[|past|].0)
    ensures var k := |past|;
            var fs := past + [Worst(HwAccount(past, k), feed[k].1, feed[k].0)];
            Fires(feed, fs) && !ReplayedFrom(fs, k)
  {
    hide Replayed, Traceable, Worst, LeadTo, HwAccount, HwOrders, FiringOrders, Settle, FiresAt, ReplayedFrom,
      AllowedAt, FixedPoint, Desired, NetWorth;
    var k, a := |past|, HwAccount(past, |past|);
    var (p, ws) := feed[k];
    OneWorst(feed, past);
    WorstUntraced(a, ws, p);
    ReplayLeads(a, Worst(a, ws, p), HwOrders(past, k));
    Broken(past + [Worst(a, ws, p)], k, k + 1);
  }

  /** When it is, the break comes later. */
  lemma {:induction false} TracedNext(feed: Feed, past: seq<Firing>) returns (f: Firing)
    requires FeedFits(feed) && Fires(feed, past) && |past| < |feed|
    requires PricesFit(feed[|past|].0) && |feed[|past|].1| == NUM_STOCKS
    requires SignedShares(HwAccount(past, |past|)) && Replayed(HwAccount(past, |past|), HwOrders(past, |past|))
    requires !TraceableFrom(feed, HwAccount(past, |past|), |past|)
    requires Traceable(HwAccount(past, |past|), feed[|past|].1, feed[|past|].0)
    ensures var next, k := past + [f], |past| + 1;
            && Fires(feed, next) && SignedShares(HwAccount(next, k)) && Replayed(HwAccount(next, k), HwOrders(next, k))
            && !TraceableFrom(feed, HwAccount(next, k), k)
  {
    var k, a := |past|, HwAccount(past, |past|);
    TraceUnfold(feed, a, k);
    f := Worst(a, feed[k].1, feed[k].0);
    hide Replayed, Traceable, Worst, HwAccount, HwOrders, FiringOrders, Settle, TraceableFrom, FeedFits, SignedShares;
    OneWorst(feed, past);
    TraceStep(a, f, HwOrders(past, k));
  }

  lemma {:induction false} Broken(fs: seq<Firing>, k: nat, n: nat)
    requires FiringsOK(fs) && k <= n <= |fs| && !Replayed(HwAccount(fs, n), HwOrders(fs, n))
    ensures !ReplayedFrom(fs, k)
  {
    hide Replayed, HwAccount, HwOrders;
  }

  lemma {:induction false} StillBroken(feed: Feed, fs: seq<Firing>, k: nat)
    requires Fires(feed, fs) && !ReplayedFrom(fs, k + 1)
    ensures !ReplayedFrom(fs, k)
  {
    hide Replayed, HwAccount, HwOrders;
  }

  /** After any past that replay reproduces, with holdings in signed words: every way to go on is reproduced throughout
      exactly when the rest of the feed has only numbers with targets in signed words. */
  lemma {:induction false} HwReplay(feed: Feed, past: seq<Firing>)
    requires FeedFits(feed) && Fires(feed, past)
    requires SignedShares(HwAccount(past, |past|)) && Replayed(HwAccount(past, |past|), HwOrders(past, |past|))
    ensures (forall fs :: Fires(feed, fs) && past <= fs ==> ReplayedFrom(fs, |past|)) <==>
            TraceableFrom(feed, HwAccount(past, |past|), |past|)
  {
    var k := |past|;
    hide Replayed, HwAccount, HwOrders, SignedShares, TraceableFrom, FeedFits;
    if TraceableFrom(feed, HwAccount(past, k), k) {
      forall fs, n | Fires(feed, fs) && past <= fs && k <= n <= |fs|
        ensures Replayed(HwAccount(fs, n), HwOrders(fs, n)) {
        assert fs[..k] == past[..k];
        SamePast(fs, past, k);
        TraceForward(feed, fs, k, n);
      }
    } else {
      var fs := TraceBreaks(feed, past);
    }
  }

  // ---------- the first firing ----------

  lemma StartWorth(p: Vec)
    requires |p| == NUM_STOCKS
    ensures NetWorth(Start(), p) == 10000.0
  {
    var z := Start().shares;
    assert Worth(z, p, 1) == Worth(z, p, 0) + Times(0.0, p[0]);
    assert Worth(z, p, 2) == Worth(z, p, 1) + Times(0.0, p[1]);
    assert Worth(z, p, 3) == Worth(z, p, 2) + Times(0.0, p[2]);
    assert Worth(z, p, 4) == Worth(z, p, 3) + Times(0.0, p[3]);
  }

  /** A first firing without numbers, which is what the pipeline always gives, may spend billions of dollars the account
      does not have, at any prices of a dollar or more, and sell a share of each stock while booking 2^32 - 1. */
  lemma FirstFiringFails(p: Vec) returns (f: Firing)
    requires PricesFit(p) && forall i :: 0 <= i < NUM_STOCKS ==> p[i] >= 1.0
    ensures var ws := [NotANumber, NotANumber, NotANumber, NotANumber];
            f == Worst(Start(), ws, p) && f.ws == ws && Fires([(p, ws)], [f])
    ensures HwAccount([f], 1).cash < -4000000000.0
    ensures forall i :: 0 <= i < NUM_STOCKS ==> HwAccount([f], 1).shares[i] == WORD - 1
    ensures forall i :: 0 <= i < NUM_STOCKS ==>
              HwOrders([f], 1)[i].side == SIDE_SELL && HwOrders([f], 1)[i].qty == 1
    ensures !Replayed(HwAccount([f], 1), HwOrders([f], 1))
  {
    hide Worst, Worth, NetWorth, Replayed, FixedPoint, Allowed, FiresAt;
    var ws: seq<Float> := [NotANumber, NotANumber, NotANumber, NotANumber];
    f := FirstWorst(ws, p);
    assert HwAccount([], 0) == Start() && HwOrders([], 0) == [] && [] + [f] == [f];
    OneWorst([(p, ws)], []);
    FirstUntraced(p, f);
  }

  lemma FirstWorst(ws: seq<Float>, p: Vec) returns (f: Firing)
    requires ws == [NotANumber, NotANumber, NotANumber, NotANumber]
    requires |p| == NUM_STOCKS && forall i :: 0 <= i < NUM_STOCKS ==> p[i] >= 1.0
    ensures f == Worst(Start(), ws, p) && f.d == [-1, -1, -1, -1] && f.t == [WORD - 1, WORD - 1, WORD - 1, WORD - 1]
    ensures NetWorth(Start(), p) - Worth(f.t, p, NUM_STOCKS) < -4000000000.0
  {
    f := Worst(Start(), ws, p);
    StartWorth(p);
    NoNumberCosts(Start(), ws, p, 0);
    hide Worth, NetWorth;
  }

  lemma FirstUntraced(p: Vec, f: Firing)
    requires PricesFit(p) && Allowed(Start(), f) && f.p == p && f.t[0] == WORD - 1 && f.d[0] == -1
    ensures !Replayed(Settle(Start(), f.t, p), [] + FiringOrders(Start(), f, NUM_STOCKS))
  {
    EmptyReplay();
    hide Replayed, FiringOrders, AllowedAt;
    ReplayLeads(Start(), f, []);
    assert LeadTo(Start(), f)[0] == -1;
  }

  // ---------- numbers that fit ----------

  /** A firing with traceable weights is a step of the software's account, order by order. */
  lemma TraceableIsStep(a: Account, f: Firing)
    requires SignedShares(a) && Allowed(a, f) && PricesFit(f.p) && Traceable(a, f.ws, f.p)
    ensures StepInput(Numbers(f.ws), f.p) && Settle(a, f.t, f.p) == Step(a, Numbers(f.ws), f.p)
    ensures FiringOrders(a, f, NUM_STOCKS) == Orders(a, Numbers(f.ws), f.p, NUM_STOCKS)
  {
    TraceableLeads(a, f);
    OrdersLead(a, f);
    hide Allowed, NetWorth, Worth, FixedPoint, LeadTo, OrdersTo;
  }
}
