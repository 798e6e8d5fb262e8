/** What every run of the broker keeps: its account follows its trades, its books balance, and every
    order lives from its acceptance to its end with nothing traded twice. */
module BrokerRuns {
  import opened Trading
  import opened Matching
  import opened Ledger
  import opened BestExecution
  import opened Broker
  import opened BrokerChanges

  // ---------- One order, one book ----------

  /** What an order is filled with from a book sorted best first, its funds sufficing: the lesser of what is left
      of it and of all on offer at acceptable prices, and no other way of taking as much is better. */
  lemma OrderFillsAreBest(c: Config, b: Broker, id: nat, d: Depth)
    requires id in b.orders && ValidDepth(d)
    requires var o := b.orders[id]; var priced := Priced(c, o.side, PriceLevels(d, o.side));
             && SortedDepth(d, o.side) && SlippageOrdered(c, o.side) && o.volumeLeft >= 0.0
             && Funded(o, priced, o.volumeLeft, b.account.avail)
    ensures var o := b.orders[id]; var priced := Priced(c, o.side, PriceLevels(d, o.side));
            var fills := OrderFills(c, b, id, d);
            && Volume(fills) == Min(o.volumeLeft, Offered(o, priced))
            && forall xs | Allocation(o, priced, xs) && Sum(xs) == Volume(fills) ::
                 if o.side == Buy then Value(fills) <= Worth(priced, xs) else Value(fills) >= Worth(priced, xs)
  {
    hide SortedDepth, SlippageOrdered, Funded, BestFirst, Allocation, Fills, PriceLevels, Priced, Offered, Volume,
      Value, Worth, Sum;
    var o := b.orders[id];
    var priced := Priced(c, o.side, PriceLevels(d, o.side));
    BookBestFirst(c, d, o.side);
    NothingMissed(o, priced, o.volumeLeft, b.account.avail);
    forall xs | Allocation(o, priced, xs) && Sum(xs) == Volume(OrderFills(c, b, id, d))
      ensures |xs| == |priced|
      ensures if o.side == Buy then Value(OrderFills(c, b, id, d)) <= Worth(priced, xs)
              else Value(OrderFills(c, b, id, d)) >= Worth(priced, xs)
    {
      AllocationSize(o, priced, xs);
      BestExecuted(o, priced, b.account.avail, xs);
    }
  }

  lemma AllocationSize(o: Order, priced: seq<Level>, xs: seq<real>)
    requires Allocation(o, priced, xs)
    ensures |xs| == |priced|
  {
  }

  // ---------- The account follows the trades ----------

  function Trades(out: seq<Response>): seq<Trade> {
    if out == [] then []
    else Trades(out[..|out| - 1]) + if out[|out| - 1].Traded? then [out[|out| - 1].trade] else []
  }

  lemma TradesOn(out: seq<Response>, r: Response)
    ensures Trades(out + [r]) == if r.Traded? then Trades(out) + [r.trade] else Trades(out)
  {
    assert (out + [r])[..|out|] == out;
  }

  lemma {:induction false} BrokerRunOn(c: Config, a: Account, ts: seq<Trade>, t: Trade)
    ensures BrokerRun(c, a, ts + [t]) == BrokerUpdate(c, BrokerRun(c, a, ts), t)
    decreases |ts|
  {
    hide BrokerUpdate;
    if ts == [] {
      assert [t][1..] == [];
    } else {
      BrokerRunOn(c, BrokerUpdate(c, a, ts[0]), ts[1..], t);
      assert (ts + [t])[1..] == ts[1..] + [t];
    }
  }

  predicate Follows(c: Config, a: Account, h: History) {
    h.broker.account == BrokerRun(c, a, Trades(h.broker.out))
  }

  lemma FollowsOn(c: Config, a: Account, h: History, ch: Change)
    requires Allowed(h, ch, ANY) && Follows(c, a, h)
    ensures Follows(c, a, Apply(c, h, ch))
  {
    hide BrokerUpdate, BrokerRun, SummaryTrade, Executed, Trades;
    var b := h.broker;
    if ch.Dealt? {
      var t := SummaryTrade(c, b.orders[ch.id], ch.price, ch.volume);
      BrokerRunOn(c, a, Trades(b.out), t);
      TradesOn(b.out, Traded(t));
    } else if ch.Replied? {
      TradesOn(b.out, ActionDone(ch.action, ch.target, ch.error));
    }
  }

  lemma {:induction false} FollowsThrough(c: Config, a: Account, h: History, chs: seq<Change>, g: History, k: Terms)
    requires Leads(c, h, chs, g, k) && Follows(c, a, h)
    ensures Follows(c, a, g)
    decreases |chs|
  {
    hide Apply, Follows;
    if chs != [] {
      FollowsOn(c, a, h, chs[0]);
      FollowsThrough(c, a, Apply(c, h, chs[0]), chs[1..], g, k);
    }
  }

  lemma {:induction false} AnyRunOk(c: Config, h: History, ops: seq<Op>)
    ensures RunOk(c, h, ops, ANY)
    decreases |ops|
  {
    hide StepHistory;
    if ops != [] {
      AnyRunOk(c, StepHistory(c, h, ops[0]), ops[1..]);
    }
  }

  /** Whatever is inserted, cancelled and matched, the account is the one that the trades reported lead to. */
  lemma AccountFollowsTrades(c: Config, a: Account, ops: seq<Op>)
    ensures var b := Run(c, Broker(map[], a, []), ops); b.account == BrokerRun(c, a, Trades(b.out))
  {
    hide RunHistory, RunOk;
    var h := History(Broker(map[], a, []), map[]);
    AnyRunOk(c, h, ops);
    RunHistoryIsRun(c, h, ops);
    var chs := RunChanges(c, h, ops, ANY);
    FollowsThrough(c, a, h, chs, RunHistory(c, h, ops), ANY);
  }

  // ---------- The books balance ----------

  predicate NotShort(ps: Positions) {
    forall i | i in ps :: ps[i].volume >= 0.0
  }

  predicate NotNegative(b: Broker) {
    && (forall id | id in b.orders :: b.orders[id].volumeLeft >= 0.0)
    && NotShort(b.account.longs) && NotShort(b.account.shorts)
  }

  lemma TruncBelow(x: real)
    requires x >= 0.0
    ensures 0.0 <= Trunc(x) as real <= x
  {
  }

  /** A trade of no negative volume leaves the books balanced. */
  lemma TradeBalances(c: Config, a: Account, t: Trade)
    requires t.volume >= 0.0 && NotShort(a.longs) && NotShort(a.shorts)
    ensures Equity(BrokerUpdate(c, a, t)) == Equity(a)
    ensures NotShort(BrokerUpdate(c, a, t).longs) && NotShort(BrokerUpdate(c, a, t).shorts)
  {
    hide Equity;
    BalancedIff(c, a, t);
    if t.volume == 0.0 && t.instrument in SideOf(a, t) {
      assert t.volume * (SideOf(a, t)[t.instrument].cost - t.price) == 0.0;
    }
  }

  lemma BalanceOn(c: Config, h: History, ch: Change, k: Terms)
    requires Allowed(h, ch, k) && k.nonNegative && NotNegative(h.broker)
    ensures NotNegative(Apply(c, h, ch).broker)
    ensures Equity(Apply(c, h, ch).broker.account) == Equity(h.broker.account)
  {
    hide Equity, BrokerUpdate, NotShort, Trunc, IsInt;
    if ch.Dealt? {
      var o := h.broker.orders[ch.id];
      TruncBelow(ch.volume);
      TradeBalances(c, h.broker.account, SummaryTrade(c, o, ch.price, ch.volume));
    }
  }

  lemma {:induction false} BalanceThrough(c: Config, h: History, chs: seq<Change>, g: History, k: Terms)
    requires Leads(c, h, chs, g, k) && k.nonNegative && NotNegative(h.broker)
    ensures Equity(g.broker.account) == Equity(h.broker.account)
    decreases |chs|
  {
    hide Apply, Equity, NotNegative;
    if chs != [] {
      BalanceOn(c, h, chs[0], k);
      BalanceThrough(c, Apply(c, h, chs[0]), chs[1..], g, k);
    }
  }

  /** Over every run on orders of no negative volume, with depth and without, available cash, fees and what
      the long positions cost less what the short ones do stay equal to the initial capital. */
  lemma BooksBalance(c: Config, capital: real, ops: seq<Op>)
    requires var h := History(Broker(map[], Account(capital, 0.0, map[], map[]), []), map[]);
             RunOk(c, h, ops, ANY.(nonNegative := true))
    ensures Equity(Run(c, Broker(map[], Account(capital, 0.0, map[], map[]), []), ops).account) == capital
  {
    hide RunHistory, RunOk;
    var k := ANY.(nonNegative := true);
    var a := Account(capital, 0.0, map[], map[]);
    var h := History(Broker(map[], a, []), map[]);
    assert Equity(a) == capital;
    RunHistoryIsRun(c, h, ops);
    var chs := RunChanges(c, h, ops, k);
    BalanceThrough(c, h, chs, RunHistory(c, h, ops), k);
  }

  lemma AscendingOne(id: nat)
    ensures Ascending({id}) == [id]
  {
    assert {id} - {Least({id})} == {};
  }

  lemma PassOfOne(c: Config, b: Broker, id: nat, market: Market)
    requires b.orders.Keys == {id}
    ensures MatchPass(c, b, market) == Visit(c, b, id, market(id))
  {
    hide Visit, Ascending;
    AscendingOne(id);
    var v := Visit(c, b, id, market(id));
    assert [id][1..] == [];
    assert Visits(c, v, [], market) == v;
  }

  /** A limit order of whole volume for which there is cash, alone and with no depth to be seen, trades at once. */
  lemma TradesAtOnce(c: Config, a: Account, out: seq<Response>, i: OrderInput, market: Market)
    requires i.priceType == Limit && IsInt(i.volume) && market(i.id).depth.size == 0 && Affordable(i, a)
    ensures var t := SummaryTrade(c, OrderFromInput(i), i.limitPrice, i.volume);
            MatchPass(c, Insert(Broker(map[], a, out), i), market)
            == Broker(map[], BrokerUpdate(c, a, t), out + [Traded(t)])
  {
    hide BrokerUpdate, SummaryTrade, Trunc, IsInt, Ascending;
    var b := Insert(Broker(map[], a, out), i);
    assert b.orders == map[i.id := OrderFromInput(i)];
    PassOfOne(c, b, i.id, market);
    TruncInt(i.volume);
    var v := Visit(c, b, i.id, market(i.id));
    assert v.orders == map[];
  }

  /** The volumes must not be negative: buying two at ten and then minus two at five takes the position to
      nothing, but only half of what it cost comes back. */
  lemma NegativeVolumeUnbalances(c: Config, capital: real, market: Market)
    requires capital >= 20.0 && (c.enableCommission ==> capital >= 20.0 + 20.0 * c.commissionRate)
    requires (forall id: nat :: market(id).depth.size == 0)
    ensures var ops := [InsertOp(OrderInput(1, 7, Buy, OpenOffset, Limit, 10.0, 2.0)), MatchOp(market),
                        InsertOp(OrderInput(2, 7, Buy, OpenOffset, Limit, 5.0, -2.0)), MatchOp(market)];
            Equity(Run(c, Broker(map[], Account(capital, 0.0, map[], map[]), []), ops).account) != capital
  {
    hide Equity, Insert, MatchPass;
    var a := Account(capital, 0.0, map[], map[]);
    var i := OrderInput(1, 7, Buy, OpenOffset, Limit, 10.0, 2.0);
    var j := OrderInput(2, 7, Buy, OpenOffset, Limit, 5.0, -2.0);
    var t, u := SummaryTrade(c, OrderFromInput(i), 10.0, 2.0), SummaryTrade(c, OrderFromInput(j), 5.0, -2.0);
    var a1 := BrokerUpdate(c, a, t);
    IntIs(2);
    IntIs(-2);
    TradesAtOnce(c, a, [], i, market);
    BoughtTwo(c, a, t, u);
    TradesAtOnce(c, a1, [Traded(t)], j, market);
    FourOps(c, Broker(map[], a, []), InsertOp(i), MatchOp(market), InsertOp(j), MatchOp(market));
    assert [] + [Traded(t)] == [Traded(t)];
  }

  lemma BoughtTwo(c: Config, a: Account, t: Trade, u: Trade)
    requires a.longs == map[] && a.avail >= 20.0 && a.shorts == map[] && a.fee == 0.0
    requires t.side == u.side == Buy && t.instrument == u.instrument
    requires t.price == 10.0 && t.volume == 2.0 && u.price == 5.0 && u.volume == -2.0
    ensures var a1 := BrokerUpdate(c, a, t);
            Equity(BrokerUpdate(c, a1, u)) != Equity(a) == a.avail
  {
    hide TotalValue;
    assert TotalValue(map[]) == 0.0 by { NoPositions(); }
    BalancedIff(c, a, t);
    BalancedIff(c, BrokerUpdate(c, a, t), u);
  }

  lemma NoPositions()
    ensures TotalValue(map[]) == 0.0
  {
  }

  lemma FourOps(c: Config, b: Broker, p: Op, q: Op, r: Op, s: Op)
    ensures Run(c, b, [p, q, r, s]) == Step(c, Step(c, Step(c, Step(c, b, p), q), r), s)
  {
    hide Step;
    var b3 := Step(c, Step(c, Step(c, b, p), q), r);
    assert [p, q, r, s][1..] == [q, r, s] && [q, r, s][1..] == [r, s] && [r, s][1..] == [s] && [s][1..] == [];
    assert Run(c, b3, [s]) == Step(c, b3, s);
    assert Run(c, Step(c, Step(c, b, p), q), [r, s]) == Run(c, b3, [s]);
    assert Run(c, Step(c, b, p), [q, r, s]) == Run(c, Step(c, Step(c, b, p), q), [r, s]);
  }

  // ---------- The life of an order ----------

  function TradedVolume(out: seq<Response>, id: nat): real {
    if out == [] then 0.0
    else
      var r := out[|out| - 1];
      TradedVolume(out[..|out| - 1], id) + if r.Traded? && r.trade.orderId == id then r.trade.volume else 0.0
  }

  lemma TradedOn(out: seq<Response>, r: Response, id: nat)
    ensures TradedVolume(out + [r], id)
            == TradedVolume(out, id) + if r.Traded? && r.trade.orderId == id then r.trade.volume else 0.0
  {
    assert (out + [r])[..|out|] == out;
  }

  /** Where an order stands that was accepted with some volume: what is traded and what is left add up to it;
      while it is among the active orders something is left, and its status tells whether anything was traded. */
  predicate Alive(o: Order, id: nat, volume: real, traded: real) {
    && o.id == id && o.volume == volume
    && IsInt(o.volumeLeft) && o.volumeLeft > 0.0 && traded >= 0.0
    && traded + o.volumeLeft == volume
    && o.status != Filled
    && (o.status == Submitted || o.status == Pending ==> traded == 0.0)
    && (o.status == PartialFilledActive ==> traded > 0.0)
  }

  predicate Living(h: History, id: nat) {
    if id !in h.placed then id !in h.broker.orders && TradedVolume(h.broker.out, id) == 0.0
    else if id in h.broker.orders then
      Alive(h.broker.orders[id], id, h.placed[id], TradedVolume(h.broker.out, id))
    else TradedVolume(h.broker.out, id) == h.placed[id]
  }

  ghost predicate InLife(h: History) {
    forall id: nat {:trigger Living(h, id)} :: Living(h, id)
  }

  const STRICT := ANY.(newIds := true, whole := true)

  lemma LeftAfter(left: real, volume: real)
    requires IsInt(left) && IsInt(volume)
    ensures Trunc(volume) as real == volume && IsInt(left - volume)
  {
    TruncInt(volume);
    IntSums(left, volume);
  }

  lemma DealtLives(c: Config, h: History, ch: Change, id: nat)
    requires ch.Dealt? && Allowed(h, ch, STRICT) && Living(h, ch.id) && Living(h, id)
    ensures Living(Apply(c, h, ch), id)
  {
    hide BrokerUpdate, Trunc, IsInt, TradedVolume;
    var o := h.broker.orders[ch.id];
    LeftAfter(o.volumeLeft, ch.volume);
    TradedOn(h.broker.out, Traded(SummaryTrade(c, o, ch.price, ch.volume)), id);
  }

  lemma LifeOn(c: Config, h: History, ch: Change)
    requires Allowed(h, ch, STRICT) && InLife(h)
    ensures InLife(Apply(c, h, ch))
  {
    forall id: nat
      ensures Living(Apply(c, h, ch), id)
    {
      LifeOfOne(c, h, ch, id);
    }
  }

  lemma LifeOfOne(c: Config, h: History, ch: Change, id: nat)
    requires Allowed(h, ch, STRICT) && InLife(h)
    ensures Living(Apply(c, h, ch), id)
  {
    hide TradedVolume, Execute, IsInt;
    assert Living(h, id);
    match ch
    case Dealt(other, _, _) =>
      assert Living(h, other);
      DealtLives(c, h, ch, id);
    case Replied(action, target, error) =>
      TradedOn(h.broker.out, ActionDone(action, target, error), id);
    case _ =>
  }

  lemma {:induction false} LifeThrough(c: Config, h: History, chs: seq<Change>, g: History)
    requires Leads(c, h, chs, g, STRICT) && InLife(h)
    ensures InLife(g)
    decreases |chs|
  {
    hide Apply, InLife;
    if chs != [] {
      LifeOn(c, h, chs[0]);
      LifeThrough(c, Apply(c, h, chs[0]), chs[1..], g);
    }
  }

  /** Over every run with order ids used once and whole volumes: what was traded for an accepted order and what
      is left of it add up to its volume; something is left as long as it is active; and it is gone from the
      active orders exactly when all of it was traded. */
  lemma LifeCycle(c: Config, a: Account, ops: seq<Op>, id: nat)
    requires RunOk(c, History(Broker(map[], a, []), map[]), ops, STRICT)
    ensures var g := RunHistory(c, History(Broker(map[], a, []), map[]), ops);
            var traded := TradedVolume(g.broker.out, id);
            && (id in g.broker.orders ==> id in g.placed && Alive(g.broker.orders[id], id, g.placed[id], traded))
            && (id in g.placed ==> 0.0 <= traded <= g.placed[id]
                                   && (id !in g.broker.orders <==> traded == g.placed[id]))
            && (id !in g.placed ==> traded == 0.0)
  {
    hide RunHistory, RunOk;
    var h := History(Broker(map[], a, []), map[]);
    var chs := RunChanges(c, h, ops, STRICT);
    LifeThrough(c, h, chs, RunHistory(c, h, ops));
    PlacedPositive(c, h, chs, RunHistory(c, h, ops));
    assert Living(RunHistory(c, h, ops), id);
  }

  predicate AllPositive(placed: map<nat, real>) {
    forall id | id in placed :: placed[id] > 0.0
  }

  lemma {:induction false} PlacedPositive(c: Config, h: History, chs: seq<Change>, g: History)
    requires Leads(c, h, chs, g, STRICT) && AllPositive(h.placed)
    ensures AllPositive(g.placed)
    decreases |chs|
  {
    hide Execute, IsInt;
    if chs != [] {
      PlacedPositive(c, Apply(c, h, chs[0]), chs[1..], g);
    }
  }

  // ---------- Nothing is traded for an order that has ended ----------

  /** Accepted, and by now filled and gone, cancelled or in error. */
  predicate Ended(h: History, id: nat) {
    id in h.placed && (id in h.broker.orders ==> h.broker.orders[id].status in {Cancelled, Error, Filled})
  }

  predicate Keyed(b: Broker) {
    forall id | id in b.orders :: b.orders[id].id == id
  }

  /** The replies of `g` begin with those of `h` and none of the later ones is a trade of the order. */
  predicate NoTradeSince(h: History, g: History, id: nat) {
    && |h.broker.out| <= |g.broker.out| && g.broker.out[..|h.broker.out|] == h.broker.out
    && forall i | |h.broker.out| <= i < |g.broker.out| ::
         g.broker.out[i].Traded? ==> g.broker.out[i].trade.orderId != id
  }

  lemma EndedOn(c: Config, h: History, ch: Change, k: Terms, id: nat)
    requires Allowed(h, ch, k) && k.newIds && Keyed(h.broker) && Ended(h, id)
    ensures var g := Apply(c, h, ch);
            Keyed(g.broker) && Ended(g, id) && NoTradeSince(h, g, id)
            && (id in g.broker.orders <==> id in h.broker.orders)
            && (id in g.broker.orders ==> g.broker.orders[id] == h.broker.orders[id])
  {
    hide BrokerUpdate, Trunc, IsInt;
  }

  lemma {:induction false} EndedThrough(c: Config, h: History, chs: seq<Change>, g: History, k: Terms, id: nat)
    requires Leads(c, h, chs, g, k) && k.newIds && Keyed(h.broker) && Ended(h, id)
    ensures Keyed(g.broker) && Ended(g, id) && NoTradeSince(h, g, id)
    ensures id in g.broker.orders <==> id in h.broker.orders
    ensures id in g.broker.orders ==> g.broker.orders[id] == h.broker.orders[id]
    decreases |chs|
  {
    hide Apply, Ended, Keyed;
    if chs != [] {
      EndedOn(c, h, chs[0], k, id);
      EndedThrough(c, Apply(c, h, chs[0]), chs[1..], g, k, id);
    }
  }

  /** From any state a run with new order ids leaves an order that has ended as it is, and trades nothing for it. */
  lemma NoTradeAfterEnd(c: Config, h: History, ops: seq<Op>, id: nat)
    requires RunOk(c, h, ops, ANY.(newIds := true)) && Keyed(h.broker) && Ended(h, id)
    ensures var g := RunHistory(c, h, ops);
            Ended(g, id) && NoTradeSince(h, g, id)
            && (id in g.broker.orders <==> id in h.broker.orders)
            && (id in g.broker.orders ==> g.broker.orders[id] == h.broker.orders[id])
  {
    hide RunHistory, RunOk, Ended, Keyed, NoTradeSince, Leads;
    var k := ANY.(newIds := true);
    var chs := RunChanges(c, h, ops, k);
    EndedThrough(c, h, chs, RunHistory(c, h, ops), k, id);
  }

  // ---------- Where the volumes have to be whole ----------

  /** One execution keeps what is traded and what is left together exactly when its volume is whole. */
  lemma ExecutionConservesIff(c: Config, b: Broker, id: nat, price: real, volume: real)
    requires id in b.orders && b.orders[id].id == id
    ensures var e := Execute(c, b, id, price, volume);
            TradedVolume(e.out, id) + e.orders[id].volumeLeft == TradedVolume(b.out, id) + b.orders[id].volumeLeft
            <==> IsInt(volume)
  {
    hide BrokerUpdate, IsInt, Trunc, TradedVolume;
    TradedOn(b.out, Traded(SummaryTrade(c, b.orders[id], price, volume)), id);
    TruncInt(volume);
  }

  /** A pass over one sell order at a limit, with no depth to be seen: all that is left is traded, its whole part
      taken off. */
  lemma SellsWhatIsLeft(c: Config, b: Broker, id: nat, market: Market)
    requires b.orders.Keys == {id} && market(id).depth.size == 0
    requires b.orders[id].id == id && b.orders[id].side == Sell && b.orders[id].priceType == Limit
    requires Working(b.orders[id].status) && b.orders[id].volumeLeft != Trunc(b.orders[id].volumeLeft) as real
    ensures var o := b.orders[id]; var g := MatchPass(c, b, market);
            && g.orders == map[id := Executed(o, o.volumeLeft)] && g.orders[id].status == PartialFilledActive
            && TradedVolume(g.out, id) == TradedVolume(b.out, id) + o.volumeLeft
  {
    hide BrokerUpdate, TradedVolume, Trunc;
    var o := b.orders[id];
    PassOfOne(c, b, id, market);
    var g := Visit(c, b, id, market(id));
    assert g.orders == map[id := Executed(o, o.volumeLeft)];
    TradedOn(b.out, Traded(SummaryTrade(c, o, o.limitPrice, o.volumeLeft)), id);
  }

  /** An order for one and a half, with no depth to be seen: every pass trades all that is left and takes only
      the whole part off, so that two passes trade two and leave the order unfilled. */
  lemma FractionalOrderOvertrades(c: Config, a: Account, market: Market)
    requires market(7).depth.size == 0
    ensures var i := OrderInput(7, 1, Sell, OpenOffset, Limit, 10.0, 1.5);
            var x := Run(c, Broker(map[], a, []), [InsertOp(i), MatchOp(market), MatchOp(market)]);
            && TradedVolume(x.out, 7) == 2.0 > i.volume
            && 7 in x.orders && x.orders[7].volumeLeft == 0.5 && x.orders[7].status == PartialFilledActive
  {
    hide MatchPass, TradedVolume;
    var i := OrderInput(7, 1, Sell, OpenOffset, Limit, 10.0, 1.5);
    var b := Insert(Broker(map[], a, []), i);
    assert b.orders == map[7 := OrderFromInput(i)];
    assert Trunc(1.5) == 1 && Trunc(0.5) == 0;
    SellsWhatIsLeft(c, b, 7, market);
    SellsWhatIsLeft(c, MatchPass(c, b, market), 7, market);
    NothingTraded(7);
    ThreeOps(c, Broker(map[], a, []), InsertOp(i), MatchOp(market), MatchOp(market));
  }

  lemma ThreeOps(c: Config, b: Broker, p: Op, q: Op, r: Op)
    ensures Run(c, b, [p, q, r]) == Step(c, Step(c, Step(c, b, p), q), r)
  {
    hide Step;
    var b2 := Step(c, Step(c, b, p), q);
    assert [p, q, r][1..] == [q, r] && [q, r][1..] == [r] && [r][1..] == [];
    assert Run(c, b2, [r]) == Step(c, b2, r);
    assert Run(c, Step(c, b, p), [q, r]) == Run(c, b2, [r]);
  }

  lemma NothingTraded(id: nat)
    ensures TradedVolume([], id) == 0.0
  {
  }

  /** An order for nothing is filled only where there is no depth to be seen; before any depth it waits for ever. */
  lemma EmptyOrderFillsIff(c: Config, b: Broker, id: nat, v: View)
    requires id in b.orders && b.orders[id].volumeLeft == 0.0 && Working(b.orders[id].status)
    ensures MatchOrder(c, b, id, v).orders[id].status == Filled
            <==> v.depth.size == 0 && (b.orders[id].side == Buy ==> b.account.avail >= 0.0)
  {
    hide BrokerUpdate, PriceLevels, OrderFills, Volume;
    assert forall price: real {:trigger FundsSuffice(b.orders[id], price, 0.0, b.account.avail)} :: price * 0.0 == 0.0;
    if v.depth.size != 0 {
      OrderFillsBounded(c, b, id, v.depth, false);
    }
  }

  // ---------- The strategy's cash ----------

  predicate TradeOk(c: Config, t: Trade, k: Terms) {
    && Charged(c, t)
    && (k.twoSided ==> t.side != OtherSide)
    && (k.whole ==> IsInt(t.volume) && t.volume > 0.0)
    && (k.opening ==> t.offset == OpenOffset)
  }

  predicate TradesOk(c: Config, h: History, k: Terms) {
    forall t | t in Trades(h.broker.out) :: TradeOk(c, t, k)
  }

  predicate OrderOk(o: Order, k: Terms) {
    && (k.twoSided ==> o.side != OtherSide)
    && (k.whole ==> IsInt(o.volumeLeft) && o.volumeLeft > 0.0)
    && (k.opening ==> o.offset == OpenOffset)
  }

  predicate OrdersOk(h: History, k: Terms) {
    forall id | id in h.broker.orders :: OrderOk(h.broker.orders[id], k)
  }

  lemma DealKeepsTerms(c: Config, o: Order, price: real, volume: real, k: Terms)
    requires OrderOk(o, k) && DealOk(o, volume, k)
    ensures TradeOk(c, SummaryTrade(c, o, price, volume), k)
    ensures Executed(o, volume).status == Filled || OrderOk(Executed(o, volume), k)
  {
    hide IsInt, Trunc;
    if k.whole {
      LeftAfter(o.volumeLeft, volume);
    }
  }

  lemma TermsOn(c: Config, h: History, ch: Change, k: Terms)
    requires Allowed(h, ch, k) && TradesOk(c, h, k) && OrdersOk(h, k)
    ensures TradesOk(c, Apply(c, h, ch), k) && OrdersOk(Apply(c, h, ch), k)
  {
    hide BrokerUpdate, DealOk, Executed, SummaryTrade, TradeOk, IsInt;
    var out := h.broker.out;
    match ch
    case Dealt(id, price, volume) =>
      DealKeepsTerms(c, h.broker.orders[id], price, volume, k);
      TradesOn(out, Traded(SummaryTrade(c, h.broker.orders[id], price, volume)));
    case Replied(action, target, error) =>
      TradesOn(out, ActionDone(action, target, error));
    case _ =>
  }

  lemma {:induction false} TermsThrough(c: Config, h: History, chs: seq<Change>, g: History, k: Terms)
    requires Leads(c, h, chs, g, k) && TradesOk(c, h, k) && OrdersOk(h, k)
    ensures TradesOk(c, g, k)
    decreases |chs|
  {
    hide Apply, TradesOk, OrdersOk;
    if chs != [] {
      TermsOn(c, h, chs[0], k);
      TermsThrough(c, Apply(c, h, chs[0]), chs[1..], g, k);
    }
  }

  /** A strategy that books every trade the broker reports has its cash move with the broker's, over every
      run on orders that buy or sell; and if these open whole volumes, it holds the same positions. */
  lemma StrategyFollowsBroker(c: Config, a: Account, book: Account, ops: seq<Op>, k: Terms)
    requires k.twoSided && RunOk(c, History(Broker(map[], a, []), map[]), ops, k)
    ensures var b := Run(c, Broker(map[], a, []), ops); var s := BookRun(book, Trades(b.out));
            && s.avail - book.avail == b.account.avail - a.avail
            && (k.whole && k.opening && SamePositions(a, book) && WholePositions(a.longs) && WholePositions(a.shorts)
                ==> SamePositions(b.account, s))
  {
    hide RunHistory, RunOk, BrokerRun, BookRun, Run, SamePositions, WholePositions, Leads;
    var h := History(Broker(map[], a, []), map[]);
    var g := RunHistory(c, h, ops);
    var chs := RunChanges(c, h, ops, k);
    TermsThrough(c, h, chs, g, k);
    RunHistoryIsRun(c, h, ops);
    AccountFollowsTrades(c, a, ops);
    LedgersAgree(c, a, book, Trades(g.broker.out));
  }
}
