/** The event generator, kept in lockstep with the order book its events are sent to. */
module OrderStream {
  import opened Words
  import opened Books
  import opened BookRuns
  import opened LowPrices
  import opened SoftwareBooks

  const MIN_SHARES := 10
  const MAX_SHARES := 100

  /** One configuration row; the price model behind a row can produce any raw price. */
  datatype Config = Config(stock: nat, buy: bool, minPrice: int, maxPrice: int, tick: int)

  datatype Header = A | X | E | D

  datatype Event = Event(header: Header, ref: nat, buy: bool, shares: nat, stock: nat, price: int)

  /** What the generator remembers of an order. */
  datatype Info = Info(stock: nat, buy: bool, remaining: nat, deleted: bool)

  function SideCode(buy: bool): nat {
    if buy then SIDE_BID else SIDE_ASK
  }

  /** The order type a header is sent as. */
  function KindOf(h: Header): nat {
    match h
    case A => 1
    case X => 2
    case E => 4
    case D => 8
  }

  /** The message a book receives; the encoder sends the low 32 bits of the price. */
  function ToMessage(e: Event): Message {
    Message(e.stock, e.ref, e.shares, e.price % WORD, KindOf(e.header), SideCode(e.buy))
  }

  // ---------- prices ----------

  /** Down to a multiple of the tick. */
  function Snap(price: int, tick: int): int {
    if tick > 0 then price / tick * tick else price
  }

  function Clamp(c: Config, raw: int): int {
    var low := if c.maxPrice < raw then c.maxPrice else raw;
    if c.minPrice > low then c.minPrice else low
  }

  function FinalPrice(c: Config, raw: int): int {
    Snap(Clamp(c, raw), c.tick)
  }

  lemma SnapMonotone(p: int, q: int, tick: int)
    requires p <= q
    ensures Snap(p, tick) <= Snap(q, tick) && Snap(q, tick) <= q
  {
    if tick > 0 {
      var a, b := p / tick, q / tick;
      assert p == a * tick + p % tick && q == b * tick + q % tick;
      QuotientMonotone(p, q, tick);
      Multiples(a, b, tick);
    }
  }

  lemma QuotientMonotone(p: int, q: int, t: int)
    requires p <= q && t > 0
    ensures p / t <= q / t
  {
    var a, b := p / t, q / t;
    assert p == a * t + p % t && q == b * t + q % t;
    if a >= b + 1 { Multiples(b + 1, a, t); }
  }

  lemma Multiples(a: int, b: int, t: int)
    requires a <= b && t > 0
    ensures a * t <= b * t
  {
  }

  /** No raw price takes a row's orders below a bound, exactly when its snapped minimum is not below it. */
  lemma PricesStayAbove(c: Config, bound: int)
    ensures (forall raw :: FinalPrice(c, raw) >= bound) <==> Snap(c.minPrice, c.tick) >= bound
  {
    hide Snap;
    assert FinalPrice(c, c.minPrice) == Snap(c.minPrice, c.tick);
    forall raw ensures FinalPrice(c, raw) >= Snap(c.minPrice, c.tick) {
      SnapMonotone(c.minPrice, Clamp(c, raw), c.tick);
    }
  }

  /** Every order of the row is at most slack below its stock's ladder, and its price fits the 32 bits it is sent in. */
  ghost predicate RowAbove(c: Config, slack: int) {
    && c.stock < NUM_STOCKS && c.minPrice < WORD && c.maxPrice < WORD
    && Snap(c.minPrice, c.tick) >= MinPrice(c.stock) - slack
  }

  /** The shipped row of a stock's side. */
  function ShippedRow(stock: nat, buy: bool): Config
    requires stock < NUM_STOCKS
  {
    Config(stock, buy, MinPrice(stock), MinPrice(stock) + 153000, 600)
  }

  /** Of the shipped rows only those of the last stock stay on the ladder; the others can slip below it, by less than a
      tick. */
  lemma ShippedRowsSlip(stock: nat, buy: bool)
    requires stock < NUM_STOCKS
    ensures RowAbove(ShippedRow(stock, buy), TICK)
    ensures RowAbove(ShippedRow(stock, buy), 0) <==> stock == 3
    ensures stock != 3 ==> exists raw :: FinalPrice(ShippedRow(stock, buy), raw) < MinPrice(stock)
  {
    if stock != 3 { PricesStayAbove(ShippedRow(stock, buy), MinPrice(stock)); }
  }

  // ---------- lockstep ----------

  ghost predicate Tracked(active: map<nat, Info>, next: nat) {
    forall id :: id in active ==>
      1 <= id < next && active[id].stock < NUM_STOCKS && active[id].remaining <= MAX_SHARES
      && (active[id].deleted ==> active[id].remaining == 0)
  }

  /** An order id below 1024 is live in the book exactly when shares remain, with the same quantity, side and stock. */
  ghost predicate Lockstep(b: Book, home: seq<nat>, active: map<nat, Info>)
    requires Sized(b) && |home| == MAX_ORDERS
  {
    forall id :: 0 <= id < MAX_ORDERS ==>
      && (b.valid[id] <==> id in active && active[id].remaining > 0)
      && (b.valid[id] ==> b.qty[id] == active[id].remaining && b.side[id] == SideCode(active[id].buy)
                          && home[id] == active[id].stock)
  }

  ghost function Messages(es: seq<Event>): (ms: seq<Message>)
    ensures |ms| == |es|
  {
    seq(|es|, i requires 0 <= i < |es| => ToMessage(es[i]))
  }

  /** A removal names a live order and takes no more than it has left. */
  ghost predicate LiveAt(ms: seq<Message>, k: nat)
    requires AllInRange(ms) && k < |ms|
  {
    Removal(ms[k]) ==>
      HwRun(ms[..k]).valid[ms[k].id] && (ms[k].kind == 8 || 0 < ms[k].shares <= HwRun(ms[..k]).qty[ms[k].id])
  }

  function Bound(next: nat): nat {
    if next <= MAX_ORDERS then MAX_SHARES * next else MAX_SHARES * MAX_ORDERS
  }

  /** Everything a generated prefix keeps. */
  ghost predicate Good(ms: seq<Message>, active: map<nat, Info>, next: nat) {
    && AllInRange(ms) && OwnStock(ms) && NoReAdd(ms) && TotalAdded(ms) <= Bound(next)
    && (forall k :: 0 <= k < |ms| ==> LiveAt(ms, k))
    && Tracked(active, next) && Lockstep(HwRun(ms), Home(ms), active)
  }

  lemma AppendRun(ms: seq<Message>, m: Message)
    requires AllInRange(ms) && InRange(m)
    ensures AllInRange(ms + [m]) && HwRun(ms + [m]) == HwStep(HwRun(ms), m)
    ensures Home(ms + [m]) == HomeStep(Home(ms), m) && TotalAdded(ms + [m]) == TotalAdded(ms) + AddedBy(m)
  {
    hide HwStep;
    var n := ms + [m];
    assert n[..|n| - 1] == ms && Last(n) == m;
  }

  /** The per-message conditions of a longer run. */
  lemma AppendConditions(ms: seq<Message>, m: Message)
    requires AllInRange(ms) && InRange(m) && OwnStock(ms) && NoReAdd(ms)
    requires forall k :: 0 <= k < |ms| ==> LiveAt(ms, k)
    requires Removal(m) ==>
      HwRun(ms).valid[m.id] && Home(ms)[m.id] == m.stock && (m.kind == 8 || 0 < m.shares <= HwRun(ms).qty[m.id])
    requires Accepted(m) ==> !HwRun(ms).valid[m.id]
    ensures OwnStock(ms + [m]) && NoReAdd(ms + [m])
    ensures forall k :: 0 <= k < |ms + [m]| ==> LiveAt(ms + [m], k)
  {
    hide HwRun, Home;
    var n := ms + [m];
    forall k | 0 <= k < |n|
      ensures OwnStockAt(n, k) && FreshAt(n, k) && LiveAt(n, k)
    {
      if k < |ms| {
        assert n[..k] == ms[..k] && n[k] == ms[k];
        assert OwnStockAt(ms, k) && FreshAt(ms, k) && LiveAt(ms, k);
      } else {
        assert n[..k] == ms && n[k] == m;
      }
    }
  }

  /** A fresh order keeps the lockstep, also when its id is too large for the order list. */
  lemma LockAdd(b: Book, home: seq<nat>, active: map<nat, Info>, next: nat, m: Message, info: Info)
    requires WF(b) && |home| == MAX_ORDERS && Tracked(active, next) && Lockstep(b, home, active) && InRange(m)
    requires m.kind == 1 && m.id == next && m.stock < NUM_STOCKS && 0 < m.shares <= MAX_SHARES
    requires info == Info(m.stock, m.buySell == SIDE_BID, m.shares, false)
    ensures Lockstep(HwStep(b, m), HomeStep(home, m), active[next := info])
  {
    var c := HwStep(b, m);
    if next < MAX_ORDERS {
      assert c.valid == b.valid[next := true] && c.qty == b.qty[next := m.shares] &&
        c.side == b.side[next := m.buySell];
    } else {
      assert c == b;
    }
    hide HwStep, HwAdd;
  }

  /** Cutting or deleting a live order keeps the lockstep. */
  lemma LockCut(b: Book, home: seq<nat>, active: map<nat, Info>, next: nat, m: Message, info: Info)
    requires WF(b) && |home| == MAX_ORDERS && Tracked(active, next) && Lockstep(b, home, active) && InRange(m)
    requires m.kind in {2, 4, 8} && m.id in active && m.stock == active[m.id].stock && active[m.id].remaining > 0
    requires m.kind != 8 ==> 0 < m.shares <= active[m.id].remaining
    requires info.stock == m.stock && info.buy == active[m.id].buy
    requires info.remaining == (if m.kind == 8 then 0 else active[m.id].remaining - m.shares)
    ensures Lockstep(HwStep(b, m), home, active[m.id := info])
  {
    var c := HwStep(b, m);
    if m.id < MAX_ORDERS {
      var r := RemoveQty(b, m.id, CancelArg(m));
      assert b.valid[m.id] && r == (if m.kind == 8 then b.qty[m.id] else m.shares);
      assert c.valid == b.valid[m.id := r != b.qty[m.id]];
      assert c.qty == b.qty[m.id := b.qty[m.id] - r];
      assert c.side == b.side[m.id := if r == b.qty[m.id] then SIDE_DELETED else b.side[m.id]];
    } else {
      assert c == b;
    }
    hide HwStep, HwCancel, RemoveQty;
  }

  lemma GoodAdd(ms: seq<Message>, active: map<nat, Info>, next: nat, m: Message, info: Info)
    requires Good(ms, active, next) && InRange(m) && next >= 1
    requires m.kind == 1 && m.id == next && m.stock < NUM_STOCKS && 0 < m.shares <= MAX_SHARES
    requires info == Info(m.stock, m.buySell == SIDE_BID, m.shares, false)
    ensures Good(ms + [m], active[next := info], next + 1)
  {
    var b, h := HwRun(ms), Home(ms);
    AppendRun(ms, m);
    LockAdd(b, h, active, next, m, info);
    assert Accepted(m) ==> !b.valid[m.id];
    AppendConditions(ms, m);
    hide HwRun, HwStep, Home, HomeStep, LiveAt, OwnStock, NoReAdd, Lockstep;
  }

  lemma GoodCut(ms: seq<Message>, active: map<nat, Info>, next: nat, m: Message, info: Info)
    requires Good(ms, active, next) && InRange(m)
    requires m.kind in {2, 4, 8} && m.id in active && m.stock == active[m.id].stock && active[m.id].remaining > 0
    requires m.kind != 8 ==> 0 < m.shares <= active[m.id].remaining
    requires info.stock == m.stock && info.buy == active[m.id].buy && (info.deleted ==> info.remaining == 0)
    requires info.remaining == (if m.kind == 8 then 0 else active[m.id].remaining - m.shares)
    ensures Good(ms + [m], active[m.id := info], next)
  {
    var b, h := HwRun(ms), Home(ms);
    AppendRun(ms, m);
    LockCut(b, h, active, next, m, info);
    assert Removal(m) ==> b.valid[m.id] && h[m.id] == m.stock && (m.kind == 8 || m.shares <= b.qty[m.id]);
    AppendConditions(ms, m);
    hide HwRun, HwStep, Home, HomeStep, LiveAt, OwnStock, NoReAdd, Lockstep;
  }

  lemma GoodStart()
    ensures Good([], map[], 1)
  {
  }

  /** However low the configured rows can go, the generated prices go no lower. */
  ghost predicate PricesFollow(configs: seq<Config>, ms: seq<Message>) {
    forall slack :: 0 <= slack <= REACH && RowsAbove(configs, slack) ==> PricesAbove(ms, slack)
  }

  ghost predicate RowsAbove(configs: seq<Config>, slack: int) {
    forall j :: 0 <= j < |configs| ==> RowAbove(configs[j], slack)
  }

  lemma FollowAdd(configs: seq<Config>, j: nat, ms: seq<Message>, e: Event, raw: int)
    requires j < |configs| && PricesFollow(configs, ms)
    requires e.header == A && e.stock == configs[j].stock && e.price == FinalPrice(configs[j], raw)
    ensures PricesFollow(configs, ms + [ToMessage(e)])
  {
    var c, n := configs[j], ms + [ToMessage(e)];
    SnapMonotone(c.minPrice, Clamp(c, raw), c.tick);
    hide Snap;
    forall slack | 0 <= slack <= REACH && RowsAbove(configs, slack)
      ensures PricesAbove(n, slack)
    {
      assert RowAbove(c, slack) && PricesAbove(ms, slack);
      assert MinPrice(c.stock) - slack <= e.price < WORD;
    }
  }

  lemma FollowCut(configs: seq<Config>, ms: seq<Message>, m: Message)
    requires PricesFollow(configs, ms) && m.kind != 1
    ensures PricesFollow(configs, ms + [m])
  {
    forall slack | 0 <= slack <= REACH && RowsAbove(configs, slack)
      ensures PricesAbove(ms + [m], slack)
    {
      assert PricesAbove(ms, slack);
    }
  }

  // ---------- what is added ----------

  /** The add events, in order. */
  ghost function AddsOf(es: seq<Event>): (r: seq<Event>) {
    if es == [] then [] else AddsOf(es[..|es| - 1]) + if Last(es).header == A then [Last(es)] else []
  }

  /** For that raw price: the greatest multiple of the tick not above it, or not above the bound it lies beyond. */
  ghost predicate PricedFrom(c: Config, raw: int, price: int) {
    var bound := if c.minPrice <= raw <= c.maxPrice then raw
                 else if raw < c.minPrice || c.maxPrice < c.minPrice then c.minPrice else c.maxPrice;
    if c.tick > 0 then price % c.tick == 0 && price <= bound < price + c.tick else price == bound
  }

  lemma FinalPriceIs(c: Config, raw: int)
    ensures PricedFrom(c, raw, FinalPrice(c, raw))
  {
    if c.tick > 0 { SnapIs(Clamp(c, raw), c.tick); }
  }

  lemma SnapIs(x: int, tick: int)
    requires tick > 0
    ensures Snap(x, tick) % tick == 0 && Snap(x, tick) <= x < Snap(x, tick) + tick
  {
    assert x == x / tick * tick + x % tick;
    Multiple(x / tick, tick);
  }

  lemma Multiple(q: int, tick: int)
    requires tick > 0
    ensures q * tick % tick == 0
  {
    var r := q * tick / tick;
    assert q * tick == r * tick + q * tick % tick;
    if r < q { Multiples(r + 1, q, tick); }
    if r > q { Multiples(q + 1, r, tick); }
  }

  /** Add number k of the round robin over the rows. */
  ghost predicate IsAdd(configs: seq<Config>, e: Event, k: nat) {
    && configs != [] && e.header == A && e.ref == k + 1 && 10 <= e.shares <= 100
    && var c := configs[k % |configs|];
       e.stock == c.stock && e.buy == c.buy && exists raw :: PricedFrom(c, raw, e.price)
  }

  /** The first n adds have been made, each by the row whose turn it was, and are all remembered. */
  ghost predicate AddsAre(configs: seq<Config>, es: seq<Event>, active: map<nat, Info>, n: nat) {
    && |AddsOf(es)| == n && (forall k :: 0 <= k < n ==> IsAdd(configs, AddsOf(es)[k], k))
    && forall ref :: ref in active <==> 1 <= ref <= n
  }

  lemma AddsMore(configs: seq<Config>, es: seq<Event>, e: Event, active: map<nat, Info>, info: Info, n: nat)
    requires AddsAre(configs, es, active, n) && IsAdd(configs, e, n)
    ensures AddsAre(configs, es + [e], active[e.ref := info], n + 1)
  {
    hide IsAdd;
    var fs := es + [e];
    assert fs[..|fs| - 1] == es && Last(fs) == e;
    assert e.header == A && e.ref == n + 1 by { IsAddHeader(configs, e, n); }
  }

  lemma IsAddHeader(configs: seq<Config>, e: Event, k: nat)
    requires IsAdd(configs, e, k)
    ensures e.header == A && e.ref == k + 1
  {
  }

  lemma AddsSame(configs: seq<Config>, es: seq<Event>, e: Event, active: map<nat, Info>, info: Info, n: nat)
    requires AddsAre(configs, es, active, n) && e.header != A && e.ref in active
    ensures AddsAre(configs, es + [e], active[e.ref := info], n)
  {
    hide IsAdd;
    var fs := es + [e];
    assert fs[..|fs| - 1] == es && Last(fs) == e;
  }

  /** In round i the turn of row j comes after i full rounds and j rows. */
  lemma Turn(i: nat, j: nat, c: nat)
    requires j < c
    ensures (Added(i, c) + j) % c == j
  {
    var x := i * c + j;
    assert x == x / c * c + x % c;
    if x / c < i { Multiples(x / c + 1, i, c); }
    if x / c > i { Multiples(i + 1, x / c, c); }
  }

  lemma StartAll(configs: seq<Config>)
    ensures Good(Messages([]), map[], 1) && PricesFollow(configs, Messages([])) && AddsAre(configs, [], map[], 0)
  {
    GoodStart();
    assert Messages([]) == [];
  }

  // ---------- the generator ----------

  /** Any interleaving of adds, partial cancels, executions and deletes that the round-robin loop can draw. */
  method GenerateOrders(configs: seq<Config>, perConfig: nat, maxInjected: nat)
    returns (events: seq<Event>, active: map<nat, Info>)
    requires forall i :: 0 <= i < |configs| ==> configs[i].stock < NUM_STOCKS
    requires Added(perConfig, |configs|) < WORD - 1
    ensures Good(Messages(events), active, Added(perConfig, |configs|) + 1)
    ensures PricesFollow(configs, Messages(events))
    ensures AddsAre(configs, events, active, perConfig * |configs|)
    ensures |events| <= perConfig * |configs| * (1 + maxInjected)
  {
    hide Good, Added, Messages, RowsAbove, RowAbove, IsAdd, PricesFollow;
    events, active := [], map[];
    var nextRef := 1;
    StartAll(configs);
    NoneAdded(|configs|);
    NoneAdded(1 + maxInjected);
    hide AddsAre;
    for i := 0 to perConfig
      invariant nextRef == Added(i, |configs|) + 1 && Good(Messages(events), active, nextRef)
      invariant PricesFollow(configs, Messages(events)) && AddsAre(configs, events, active, nextRef - 1)
      invariant |events| <= Added(nextRef - 1, 1 + maxInjected)
    {
      Rounds(i, perConfig, |configs|);
      for j := 0 to |configs|
        invariant nextRef == Added(i, |configs|) + j + 1 && Good(Messages(events), active, nextRef)
        invariant PricesFollow(configs, Messages(events)) && AddsAre(configs, events, active, nextRef - 1)
        invariant |events| <= Added(nextRef - 1, 1 + maxInjected)
      {
        Turn(i, j, |configs|);
        Rounds(nextRef - 1, nextRef, 1 + maxInjected);
        events, active := AddOrder(configs, j, nextRef, events, active);
        nextRef := nextRef + 1;
        events, active := InjectSome(configs, maxInjected, nextRef, events, active);
      }
    }
    AddedIs(perConfig, |configs|);
    AddedIs(perConfig * |configs|, 1 + maxInjected);
  }

  lemma AddedIs(i: nat, c: nat)
    ensures Added(i, c) == i * c
  {
  }

  /** Orders added by i rounds over c configuration rows. */
  ghost function Added(i: nat, c: nat): nat {
    i * c
  }

  lemma NoneAdded(c: nat)
    ensures Added(0, c) == 0
  {
  }

  lemma Rounds(i: nat, n: nat, c: nat)
    requires i < n
    ensures Added(i, c) + c == Added(i + 1, c) <= Added(n, c)
  {
    assert (i + 1) * c <= n * c;
  }

  lemma MessagesAppend(es: seq<Event>, e: Event)
    ensures Messages(es + [e]) == Messages(es) + [ToMessage(e)]
  {
  }

  /** One add event for row j, at any raw price. */
  method AddOrder(configs: seq<Config>, j: nat, ref: nat, es: seq<Event>, at: map<nat, Info>)
    returns (events: seq<Event>, active: map<nat, Info>)
    requires j < |configs| && configs[j].stock < NUM_STOCKS && 1 <= ref < WORD && (ref - 1) % |configs| == j
    requires Good(Messages(es), at, ref) && PricesFollow(configs, Messages(es)) && AddsAre(configs, es, at, ref - 1)
    ensures |events| == |es| + 1
    ensures Good(Messages(events), active, ref + 1) && PricesFollow(configs, Messages(events))
    ensures AddsAre(configs, events, active, ref)
  {
    var c := configs[j];
    var raw: int := *;
    var price := FinalPrice(c, raw);
    var shares: nat :| MIN_SHARES <= shares <= MAX_SHARES;
    var e := Event(A, ref, c.buy, shares, c.stock, price);
    var info := Info(c.stock, c.buy, shares, false);
    hide Good, FinalPrice, PricesFollow, PricedFrom, AddsAre;
    FinalPriceIs(c, raw);
    AddsMore(configs, es, e, at, info, ref - 1);
    GoodAdd(Messages(es), at, ref, ToMessage(e), info);
    FollowAdd(configs, j, Messages(es), e, raw);
    MessagesAppend(es, e);
    events, active := es + [e], at[ref := info];
  }

  /** What follows an add: nothing, or up to maxInjected events, as long as there is a live order. */
  method InjectSome(ghost configs: seq<Config>, maxInjected: nat, next: nat, es: seq<Event>, at: map<nat, Info>)
    returns (events: seq<Event>, active: map<nat, Info>)
    requires 1 <= next <= WORD && Good(Messages(es), at, next) && PricesFollow(configs, Messages(es))
    requires AddsAre(configs, es, at, next - 1)
    ensures |es| <= |events| <= |es| + maxInjected
    ensures Good(Messages(events), active, next) && PricesFollow(configs, Messages(events))
    ensures AddsAre(configs, events, active, next - 1)
  {
    hide Good, Messages, PricesFollow, AddsAre;
    events, active := es, at;
    if * { return; }
    var numInjected: nat :| numInjected <= maxInjected;
    for k := 0 to numInjected
      invariant Good(Messages(events), active, next) && |es| <= |events| <= |es| + k
      invariant PricesFollow(configs, Messages(events)) && AddsAre(configs, events, active, next - 1)
    {
      var candidates := set ref | ref in active && !active[ref].deleted && active[ref].remaining > 0;
      if candidates == {} { break; }
      var chosen: nat :| chosen in candidates;
      events, active := Inject(configs, chosen, next, events, active);
    }
  }

  /** One injected event against a live order: a partial cancel or execution, or a full delete. */
  method Inject(ghost configs: seq<Config>, chosen: nat, next: nat, es: seq<Event>, at: map<nat, Info>)
    returns (events: seq<Event>, active: map<nat, Info>)
    requires chosen in at && !at[chosen].deleted && at[chosen].remaining > 0 && next <= WORD
    requires Good(Messages(es), at, next) && PricesFollow(configs, Messages(es))
    requires next >= 1 && AddsAre(configs, es, at, next - 1)
    ensures |events| == |es| + 1
    ensures Good(Messages(events), active, next) && PricesFollow(configs, Messages(events))
    ensures AddsAre(configs, events, active, next - 1)
  {
    var was := at[chosen];
    assert 1 <= chosen < next && was.remaining <= MAX_SHARES;
    var e, info;
    if * {
      var header := X;
      if * { header := E; }
      var qty: nat :| 1 <= qty <= was.remaining;
      e := Event(header, chosen, was.buy, qty, was.stock, 0);
      info := was.(remaining := was.remaining - qty);
    } else {
      e := Event(D, chosen, was.buy, 0, was.stock, 0);
      info := was.(remaining := 0, deleted := true);
    }
    hide PricesFollow, AddsAre;
    AddsSame(configs, es, e, at, info, next - 1);
    GoodCut(Messages(es), at, next, ToMessage(e), info);
    FollowCut(configs, Messages(es), ToMessage(e));
    hide Good;
    MessagesAppend(es, e);
    events, active := es + [e], at[chosen := info];
  }

  // ---------- both books ----------

  /** Whatever the prices, the hardware book is in lockstep and exactly backed. The software gets through the messages
      exactly within reach; it is then in lockstep and exactly backed as long as it does not publish, and down to one
      tick below the ladder also when it does. */
  lemma BooksInLockstep(ms: seq<Message>, active: map<nat, Info>, next: nat, ins: seq<Input>)
    requires Good(ms, active, next) && Sent(ins) == ms
    ensures Lockstep(HwRun(ms), Home(ms), active) && Exact(HwRun(ms), Home(ms))
    ensures SwRun(ms).Some? <==> PricesAbove(ms, REACH)
    ensures SwRun(ms).Some? ==>
              Lockstep(SwRun(ms).value, Home(ms), active) && Exact(Normal(SwRun(ms).value), Home(ms))
    ensures PricesAbove(ms, TICK) ==>
              && SwTreeRun(ins).Some? && Lockstep(SwTreeRun(ins).value.book, Home(ms), active)
              && Exact(Normal(SwTreeRun(ins).value.book), Home(ms))
  {
    assert TotalAdded(ms) < WORD;
    hide HwRun, SwRun, OwnStock, NoReAdd, NoGhosts, Backed, Exact, Relocated, SwTreeRun, StateNear,
      Lockstep, SameOrders, Sent;
    RunBacked(ms);
    NoReAddNoGhosts(ms);
    SoftwareOrders(ms);
    if SwRun(ms).Some? { SameLockstep(HwRun(ms), SwRun(ms).value, Home(ms), active); }
    if PricesAbove(ms, TICK) { SnapshotsHarmless(ins); }
  }

  lemma SameLockstep(b: Book, c: Book, home: seq<nat>, active: map<nat, Info>)
    requires Sized(b) && Sized(c) && |home| == MAX_ORDERS && Lockstep(b, home, active) && SameOrders(c, b)
    ensures Lockstep(c, home, active)
  {
  }

  /** From rows at most a tick below the ladder, as shipped, the twins' order lists and levels agree throughout,
      wherever the software publishes. */
  lemma GeneratedLevelsAgree(configs: seq<Config>, ms: seq<Message>, active: map<nat, Info>, next: nat, ins: seq<Input>)
    requires Good(ms, active, next) && PricesFollow(configs, ms) && RowsAbove(configs, TICK) && Sent(ins) == ms
    ensures AgreeThroughout(ins)
  {
    assert PricesAbove(ms, TICK);
    hide HwRun, SwRun, OwnStock, NoReAdd, AgreeThroughout;
    AgreeExactly(ins);
  }

  /** From rows on the ladder the twins hold equal books, and the software's trees are those of its levels. */
  lemma GeneratedBooksEqual(configs: seq<Config>, ms: seq<Message>, active: map<nat, Info>, next: nat, ins: seq<Input>)
    requires Good(ms, active, next) && PricesFollow(configs, ms) && RowsAbove(configs, 0) && Sent(ins) == ms
    ensures SwTreeRun(ins).Some? && SwTreeRun(ins).value.book == HwRun(ms) && StateExact(SwTreeRun(ins).value)
  {
    assert PricesAbove(ms, 0) && PricesAbove(ms, TICK);
    hide HwRun, SwRun, OwnStock, NoReAdd, SwTreeRun, StateNear, StateExact, PricesAbove;
    TwinsStayEqual(ms);
    assert ms[..|ms|] == ms && AgreeAt(ms, |ms|);
    SnapshotsHarmless(ins);
    TreesExact(ins);
  }
}
