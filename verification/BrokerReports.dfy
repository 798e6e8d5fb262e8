/** What the broker tells the strategy: the trade an order ends up with, at what price and cost, in what order the
    trades of a pass come, and what a cancel is answered. */
module BrokerReports {
  import opened Trading
  import opened Matching
  import opened Ledger
  import opened BestExecution
  import opened Broker
  import opened BrokerChanges
  import opened BrokerRuns

  // ---------- The levels an order meets ----------

  /** Level `i` of the side of the book that the order meets. */
  function LevelAt(d: Depth, side: Side, i: nat): Level
    requires ValidDepth(d) && i < MAX_DEPTH_LEVELS
  {
    if side == Buy then Level(d.askPrice[i], d.askVolume[i]) else Level(d.bidPrice[i], d.bidVolume[i])
  }

  predicate IsUsable(l: Level) {
    l.price > 0.000001 && l.volume > 0.000001
  }

  /** `at` lists, in ascending order, exactly the places that are usable. */
  ghost predicate Lists(at: seq<nat>, prices: seq<real>, volumes: seq<real>)
    requires |prices| == |volumes|
  {
    && (forall k | 0 <= k < |at| :: at[k] < |prices| && IsUsable(Level(prices[at[k]], volumes[at[k]])))
    && (forall k, l | 0 <= k < l < |at| :: at[k] < at[l])
    && (forall i: nat | i < |prices| && IsUsable(Level(prices[i], volumes[i])) :: i in at)
  }

  lemma ListsOneMore(front: seq<nat>, prices: seq<real>, volumes: seq<real>)
    requires |prices| == |volumes| > 0 && Lists(front, prices[..|prices| - 1], volumes[..|prices| - 1])
    ensures var n := |prices| - 1;
            Lists(front + if IsUsable(Level(prices[n], volumes[n])) then [n] else [], prices, volumes)
  {
    hide IsUsable;
    var n := |prices| - 1;
    var at := front + if IsUsable(Level(prices[n], volumes[n])) then [n] else [];
    assert forall i | 0 <= i < n :: prices[..n][i] == prices[i] && volumes[..n][i] == volumes[i];
    forall i: nat | i < |prices| && IsUsable(Level(prices[i], volumes[i]))
      ensures i in at
    {
      if i < n {
        assert IsUsable(Level(prices[..n][i], volumes[..n][i]));
      }
    }
  }

  predicate AtPlaces(levels: seq<Level>, at: seq<nat>, prices: seq<real>, volumes: seq<real>)
    requires |prices| == |volumes|
  {
    && |at| == |levels|
    && forall k | 0 <= k < |at| :: at[k] < |prices| && levels[k] == Level(prices[at[k]], volumes[at[k]])
  }

  lemma {:induction false} UsableLists(prices: seq<real>, volumes: seq<real>) returns (at: seq<nat>)
    requires |prices| == |volumes|
    ensures Lists(at, prices, volumes) && AtPlaces(Usable(prices, volumes), at, prices, volumes)
  {
    hide Lists, IsUsable;
    if prices == [] {
      at := [];
      assert Lists(at, prices, volumes) by { NoneListed(prices, volumes); }
    } else {
      var n := |prices| - 1;
      var front := UsableLists(prices[..n], volumes[..n]);
      ListsOneMore(front, prices, volumes);
      at := front + if IsUsable(Level(prices[n], volumes[n])) then [n] else [];
      UsableMeans(prices[n], volumes[n]);
    }
  }

  lemma UsableMeans(price: real, volume: real)
    ensures IsUsable(Level(price, volume)) <==> price > MIN_VALID_PRICE && volume > MIN_VALID_VOLUME
  {
  }

  lemma NoneListed(prices: seq<real>, volumes: seq<real>)
    requires prices == volumes == []
    ensures Lists([], prices, volumes)
  {
  }

  /** A buy order meets the asks and any other order the bids, each price with the volume of its own side and place, in
      the order of the book, and exactly those of the first twenty that are shown and usable. */
  lemma LevelsAreTheBook(d: Depth, side: Side) returns (at: seq<nat>)
    requires ValidDepth(d)
    ensures |at| == |PriceLevels(d, side)| && forall k, l | 0 <= k < l < |at| :: at[k] < at[l]
    ensures forall k | 0 <= k < |at| ::
              at[k] < 20 && at[k] < d.size && PriceLevels(d, side)[k] == LevelAt(d, side, at[k])
    ensures forall i: nat | i < 20 && i < d.size :: i in at <==> IsUsable(LevelAt(d, side, i))
  {
    hide Usable, IsUsable;
    var n := Shown(d);
    var prices := if side == Buy then d.askPrice[..n] else d.bidPrice[..n];
    var volumes := if side == Buy then d.askVolume[..n] else d.bidVolume[..n];
    at := UsableLists(prices, volumes);
    forall i: nat | i < 20 && i < d.size
      ensures i in at <==> IsUsable(LevelAt(d, side, i))
    {
      assert Level(prices[i], volumes[i]) == LevelAt(d, side, i);
    }
  }

  // ---------- The fills, level by level ----------

  /** A limit order neither buys above its limit nor sells below it. */
  predicate Acceptable(o: Order, price: real) {
    o.priceType == Limit ==> if o.side == Buy then price <= o.limitPrice else price >= o.limitPrice
  }

  /** What is still wanted in front of level `i`. */
  function Wanted(xs: seq<real>, i: nat, remaining: real): real
    requires i <= |xs|
  {
    remaining - Sum(xs[..i])
  }

  /** From level `i` as much is taken as it offers and is wanted, if no price up to it is unacceptable, something is
      wanted and the funds on hand cover it, and otherwise nothing. */
  predicate TakenRightly(o: Order, priced: seq<Level>, xs: seq<real>, i: nat, remaining: real, avail: real)
    requires i < |xs| == |priced|
  {
    var wanted := Wanted(xs, i, remaining);
    var volume := if wanted <= priced[i].volume then wanted else priced[i].volume;
    xs[i] == if (forall j | 0 <= j <= i :: Acceptable(o, priced[j].price)) && wanted > 0.0
                && (o.side == Buy ==> priced[i].price * volume <= avail)
             then volume else 0.0
  }

  lemma {:induction false} SumZeros(n: nat)
    ensures Sum(seq(n, _ => 0.0)) == 0.0
  {
    if n > 0 {
      SumZeros(n - 1);
      assert seq(n, _ => 0.0)[1..] == seq(n - 1, _ => 0.0);
    }
  }

  lemma {:induction false} WorthNothing(priced: seq<Level>)
    ensures Worth(priced, seq(|priced|, _ => 0.0)) == 0.0
  {
    if priced != [] {
      WorthNothing(priced[1..]);
      assert seq(|priced|, _ => 0.0)[1..] == seq(|priced| - 1, _ => 0.0);
    }
  }

  /** Nothing is taken from any level where nothing is wanted or the first price is unacceptable. */
  lemma NothingTaken(o: Order, priced: seq<Level>, remaining: real, avail: real, i: nat)
    requires i < |priced| && (remaining <= 0.0 || !Acceptable(o, priced[0].price))
    ensures TakenRightly(o, priced, seq(|priced|, _ => 0.0), i, remaining, avail)
  {
    hide Acceptable;
    assert seq(|priced|, _ => 0.0)[..i] == seq(i, _ => 0.0);
    SumZeros(i);
  }

  lemma SumFront(x: real, xs: seq<real>, i: nat)
    requires i <= |xs|
    ensures Sum(([x] + xs)[..i + 1]) == x + Sum(xs[..i])
    ensures Sum([x] + xs) == x + Sum(xs) && Sum(([x] + xs)[..0]) == 0.0
  {
    assert ([x] + xs)[..i + 1] == [x] + xs[..i];
    assert ([x] + xs[..i])[1..] == xs[..i];
    assert ([x] + xs)[1..] == xs;
  }

  lemma TakenBehind(o: Order, priced: seq<Level>, x: real, rest: seq<real>, i: nat, remaining: real, avail: real)
    requires i < |rest| && |rest| + 1 == |priced| && Acceptable(o, priced[0].price)
    requires TakenRightly(o, priced[1..], rest, i, remaining - x, avail)
    ensures TakenRightly(o, priced, [x] + rest, i + 1, remaining, avail)
  {
    hide Acceptable;
    SumFront(x, rest, i);
    assert (forall j | 0 <= j <= i + 1 :: Acceptable(o, priced[j].price))
      <==> (forall j | 0 <= j <= i :: Acceptable(o, priced[1..][j].price)) by {
      assert forall j | 0 <= j <= i :: priced[1..][j] == priced[j + 1];
      assert forall j | 1 <= j <= i + 1 :: priced[j] == priced[1..][j - 1];
    }
  }

  lemma WorthFront(priced: seq<Level>, x: real, rest: seq<real>)
    requires |rest| + 1 == |priced|
    ensures Worth(priced, [x] + rest) == priced[0].price * x + Worth(priced[1..], rest)
  {
    assert ([x] + rest)[1..] == rest;
  }

  lemma TakenFirst(o: Order, priced: seq<Level>, x: real, rest: seq<real>, remaining: real, avail: real)
    requires |rest| + 1 == |priced| && Acceptable(o, priced[0].price) && remaining > 0.0
    requires var volume := Min(remaining, priced[0].volume);
             x == if FundsSuffice(o, priced[0].price, volume, avail) then volume else 0.0
    ensures TakenRightly(o, priced, [x] + rest, 0, remaining, avail)
  {
    hide Acceptable;
    SumFront(x, rest, 0);
  }

  lemma AcceptableIs(o: Order, price: real)
    ensures CanExecute(o, price) <==> Acceptable(o, price)
  {
  }

  /** The fills are those of a walk over the book: what is taken from every level, whatever the order of the prices and
      whatever the funds, and that the volume and the value of the fills are those of what is taken. */
  lemma {:induction false} FillsByLevel(o: Order, priced: seq<Level>, remaining: real, avail: real)
    returns (xs: seq<real>)
    ensures |xs| == |priced|
    ensures forall i | 0 <= i < |xs| :: TakenRightly(o, priced, xs, i, remaining, avail)
    ensures Volume(Fills(o, priced, remaining, avail)) == Sum(xs)
    ensures Value(Fills(o, priced, remaining, avail)) == Worth(priced, xs)
  {
    hide CanExecute, Acceptable, FundsSuffice, Min, TakenRightly, Volume, Value, Sum, Worth;
    NoSums();
    if priced != [] {
      AcceptableIs(o, priced[0].price);
    }
    if priced == [] || remaining <= 0.0 || !CanExecute(o, priced[0].price) {
      xs := seq(|priced|, _ => 0.0);
      SumZeros(|priced|);
      WorthNothing(priced);
      forall i | 0 <= i < |xs|
        ensures TakenRightly(o, priced, xs, i, remaining, avail)
      {
        NothingTaken(o, priced, remaining, avail, i);
      }
    } else {
      var volume := Min(remaining, priced[0].volume);
      var x := if FundsSuffice(o, priced[0].price, volume, avail) then volume else 0.0;
      var rest := FillsByLevel(o, priced[1..], remaining - x, avail);
      xs := [x] + rest;
      TakenFirst(o, priced, x, rest, remaining, avail);
      forall i | 0 <= i < |xs|
        ensures TakenRightly(o, priced, xs, i, remaining, avail)
      {
        if i > 0 {
          TakenBehind(o, priced, x, rest, i - 1, remaining, avail);
        }
      }
      SumFront(x, rest, |rest|);
      WorthFront(priced, x, rest);
      SumsFront(Level(priced[0].price, volume), Fills(o, priced[1..], remaining - volume, avail));
    }
  }

  // ---------- The trade that is reported ----------

  /** Exactly one more response was given, a trade. */
  predicate OneTrade(before: seq<Response>, after: seq<Response>) {
    |after| == |before| + 1 && after[..|before|] == before && after[|before|].Traded?
  }

  function Reported(out: seq<Response>): Trade
    requires out != [] && out[|out| - 1].Traded?
  {
    out[|out| - 1].trade
  }

  /** A trade of the order, for so much in all, charged at the rate of the broker. */
  predicate TradeOf(c: Config, o: Order, t: Trade, volume: real, value: real) {
    && t.orderId == o.id && t.instrument == o.instrument && t.side == o.side && t.offset == o.offset
    && t.volume == volume && t.price * t.volume == value
    && t.commission == (if c.enableCommission then c.commissionRate * value else 0.0) && t.tax == 0.0
  }

  /** What a trade of that volume and value does to the account: a buy pays, everything else brings in; the commission
      is paid from the cash and kept as a fee; the volume is put on the side of the trade. */
  predicate PaidFor(c: Config, before: Account, after: Account, t: Trade, value: real) {
    var charge := if c.enableCommission then t.commission else 0.0;
    && after.avail == (if t.side == Buy then before.avail - value else before.avail + value) - charge
    && after.fee == before.fee + charge
    && (if t.side == Buy then after.shorts == before.shorts && PutOn(before.longs, after.longs, t.instrument, t.volume)
        else after.longs == before.longs && PutOn(before.shorts, after.shorts, t.instrument, t.volume))
  }

  /** Nothing but the order `id` has changed, and of it only what is left and the status: the whole part of the volume
      is off, and it is filled exactly if nothing is left. */
  predicate TakenFrom(before: map<nat, Order>, after: map<nat, Order>, id: nat, volume: real) {
    && id in before && id in after
    && after == before[id := before[id].(volumeLeft := after[id].volumeLeft, status := after[id].status)]
    && after[id].volumeLeft == before[id].volumeLeft - Trunc(volume) as real
    && after[id].status == if after[id].volumeLeft == 0.0 then Filled else PartialFilledActive
  }

  lemma Divided(a: real, v: real)
    requires v != 0.0
    ensures (a / v) * v == a
  {
  }

  lemma ExecuteReports(c: Config, b: Broker, id: nat, price: real, volume: real, value: real)
    requires id in b.orders && price * volume == value
    ensures var x := Execute(c, b, id, price, volume);
            && OneTrade(b.out, x.out)
            && TradeOf(c, b.orders[id], Reported(x.out), volume, value)
            && Reported(x.out).price == price
            && PaidFor(c, b.account, x.account, Reported(x.out), value)
            && TakenFrom(b.orders, x.orders, id, volume)
  {
    hide Average, Trunc;
    var t := SummaryTrade(c, b.orders[id], price, volume);
    assert t.commission == if c.enableCommission then c.commissionRate * value else 0.0;
    OffsetIgnored(SideOf(b.account, t), t);
  }

  /** With depth and fills of some volume, exactly one trade is reported: of the volume of the fills, at the price that
      makes it worth what they are worth; and this is what is paid. */
  lemma TradeReported(c: Config, b: Broker, id: nat, v: View)
    requires id in b.orders && v.depth.size != 0 && Volume(OrderFills(c, b, id, v.depth)) > 0.0
    ensures var m := MatchOrder(c, b, id, v); var fills := OrderFills(c, b, id, v.depth);
            && OneTrade(b.out, m.out)
            && TradeOf(c, b.orders[id], Reported(m.out), Volume(fills), Value(fills))
            && PaidFor(c, b.account, m.account, Reported(m.out), Value(fills))
            && TakenFrom(b.orders, m.orders, id, Volume(fills))
  {
    hide Execute, TradeOf, PaidFor, TakenFrom, Fills, Volume, Value, PriceLevels, Priced;
    var fills := OrderFills(c, b, id, v.depth);
    if PriceLevels(v.depth, b.orders[id].side) == [] {
      NoFillsFromNothing(c, b, id, v.depth);
    }
    var price := Value(fills) / Volume(fills);
    Divided(Value(fills), Volume(fills));
    ExecuteReports(c, b, id, price, Volume(fills), Value(fills));
  }

  lemma NoFillsFromNothing(c: Config, b: Broker, id: nat, d: Depth)
    requires id in b.orders && ValidDepth(d) && PriceLevels(d, b.orders[id].side) == []
    ensures Volume(OrderFills(c, b, id, d)) == 0.0
  {
    NoSums();
  }

  /** From a book sorted best first, the funds sufficing: the trade that is reported is of the lesser of what is left of
      the order and of all on offer at acceptable prices, and no other way of taking as much is better for it. */
  lemma ReportedTradeIsBest(c: Config, b: Broker, id: nat, v: View)
    requires id in b.orders && v.depth.size != 0 && Volume(OrderFills(c, b, id, v.depth)) > 0.0
    requires var o := b.orders[id]; var priced := Priced(c, o.side, PriceLevels(v.depth, o.side));
             && SortedDepth(v.depth, o.side) && SlippageOrdered(c, o.side) && o.volumeLeft >= 0.0
             && Funded(o, priced, o.volumeLeft, b.account.avail)
    ensures var o := b.orders[id]; var priced := Priced(c, o.side, PriceLevels(v.depth, o.side));
            var m := MatchOrder(c, b, id, v);
            && OneTrade(b.out, m.out)
            && var t := Reported(m.out);
            && t.volume == Min(o.volumeLeft, Offered(o, priced))
            && forall xs | Allocation(o, priced, xs) && Sum(xs) == t.volume ::
                 if o.side == Buy then t.price * t.volume <= Worth(priced, xs)
                 else t.price * t.volume >= Worth(priced, xs)
  {
    hide SortedDepth, SlippageOrdered, Funded, Allocation, PriceLevels, Priced, Offered, Volume, Value, Worth, Sum,
      MatchOrder, OrderFills, PaidFor, TakenFrom;
    TradeReported(c, b, id, v);
    OrderFillsAreBest(c, b, id, v.depth);
    SameSize(c, b, id, v);
  }

  lemma SameSize(c: Config, b: Broker, id: nat, v: View)
    requires id in b.orders
    ensures var o := b.orders[id]; var priced := Priced(c, o.side, PriceLevels(v.depth, o.side));
            forall xs | Allocation(o, priced, xs) :: |xs| == |priced|
  {
  }

  /** The price of the trade that is reported for a limit order is acceptable to it. */
  lemma ReportedPriceKeepsLimit(c: Config, b: Broker, id: nat, v: View)
    requires id in b.orders && v.depth.size != 0 && Volume(OrderFills(c, b, id, v.depth)) > 0.0
    ensures OneTrade(b.out, MatchOrder(c, b, id, v).out)
    ensures Acceptable(b.orders[id], Reported(MatchOrder(c, b, id, v).out).price)
  {
    hide MatchOrder, OrderFills, TradeOf, PaidFor, TakenFrom, Volume, Value, PriceLevels, Priced, Fills;
    TradeReported(c, b, id, v);
    AcceptableIs(b.orders[id], Reported(MatchOrder(c, b, id, v).out).price);
    if b.orders[id].priceType == Limit {
      FillsKeepPrice(c, b, id, v.depth);
      TradeOfPrice(c, b, id, v);
    }
  }

  /** Whatever levels there are have some volume. */
  lemma FillsKeepPrice(c: Config, b: Broker, id: nat, d: Depth)
    requires id in b.orders && ValidDepth(d) && b.orders[id].priceType == Limit
    requires Volume(OrderFills(c, b, id, d)) > 0.0
    ensures CanExecute(b.orders[id], Value(OrderFills(c, b, id, d)) / Volume(OrderFills(c, b, id, d)))
  {
    hide Fills, Volume, Value, CanExecute, Usable, ApplySlippage;
    var o := b.orders[id];
    var levels := PriceLevels(d, o.side);
    NoSums();
    forall k | 0 <= k < |levels|
      ensures levels[k].volume > 0.0
    {
      var n := Shown(d);
      if o.side == Buy {
        UsableFrom(d.askPrice[..n], d.askVolume[..n], k);
      } else {
        UsableFrom(d.bidPrice[..n], d.bidVolume[..n], k);
      }
    }
    PricedVolumes(c, o.side, levels);
    AveragePriceKeepsLimit(o, Priced(c, o.side, levels), b.account.avail);
  }

  lemma {:induction false} PricedVolumes(c: Config, side: Side, levels: seq<Level>)
    requires forall k | 0 <= k < |levels| :: levels[k].volume > 0.0
    ensures forall k | 0 <= k < |Priced(c, side, levels)| :: Priced(c, side, levels)[k].volume > 0.0
  {
    if levels != [] {
      PricedVolumes(c, side, levels[1..]);
    }
  }

  lemma TradeOfPrice(c: Config, b: Broker, id: nat, v: View)
    requires id in b.orders && v.depth.size != 0 && Volume(OrderFills(c, b, id, v.depth)) > 0.0
    requires OneTrade(b.out, MatchOrder(c, b, id, v).out)
    requires TradeOf(c, b.orders[id], Reported(MatchOrder(c, b, id, v).out), Volume(OrderFills(c, b, id, v.depth)),
                     Value(OrderFills(c, b, id, v.depth)))
    ensures Reported(MatchOrder(c, b, id, v).out).price
            == Value(OrderFills(c, b, id, v.depth)) / Volume(OrderFills(c, b, id, v.depth))
  {
    hide MatchOrder, OrderFills, Volume, Value;
    QuotientIs(Reported(MatchOrder(c, b, id, v).out).price, Volume(OrderFills(c, b, id, v.depth)),
               Value(OrderFills(c, b, id, v.depth)));
  }

  lemma QuotientIs(p: real, v: real, a: real)
    requires v != 0.0 && p * v == a
    ensures p == a / v
  {
  }

  // ---------- Without fills, without depth ----------

  /** With depth but nothing to fill the order with, nothing is reported or paid; an order that meets no usable level at
      all is marked as pending if it had only been submitted. */
  lemma NothingReported(c: Config, b: Broker, id: nat, v: View)
    requires id in b.orders && v.depth.size != 0 && Volume(OrderFills(c, b, id, v.depth)) <= 0.0
    ensures var m := MatchOrder(c, b, id, v); var o := b.orders[id];
            && m.out == b.out && m.account == b.account && m.orders.Keys == b.orders.Keys
            && (forall k | k in b.orders && k != id :: m.orders[k] == b.orders[k])
            && m.orders[id] == o.(status := m.orders[id].status)
            && m.orders[id].status == if PriceLevels(v.depth, o.side) == [] && o.status == Submitted then Pending
                                      else o.status
  {
    hide Execute, Fills, Volume, Value, PriceLevels, Priced;
  }

  /** The limit of a limit order, and for a market order the quote worsened by the rate of slippage. */
  function PriceUnseen(c: Config, o: Order, quote: real): real {
    var slip := if c.enableSlippage then quote * c.slippageRate else 0.0;
    if o.priceType == Limit then o.limitPrice else if o.side == Buy then quote + slip else quote - slip
  }

  function WorthUnseen(c: Config, o: Order, quote: real): real {
    PriceUnseen(c, o, quote) * o.volumeLeft
  }

  /** Without any depth the whole of what is left is traded at once, a limit order at its limit, a market order at the
      quote worsened by the rate of slippage; or the order is in error, with nothing reported or paid, if it buys and
      the cash does not suffice. */
  lemma WithoutDepth(c: Config, b: Broker, id: nat, v: View)
    requires id in b.orders && v.depth.size == 0
    ensures var o := b.orders[id]; var m := MatchOrder(c, b, id, v); var worth := WorthUnseen(c, o, v.quote);
            if o.side == Buy && b.account.avail < worth then m == b.(orders := b.orders[id := o.(status := Error)])
            else
              && OneTrade(b.out, m.out) && Reported(m.out).price == PriceUnseen(c, o, v.quote)
              && TradeOf(c, o, Reported(m.out), o.volumeLeft, worth)
              && PaidFor(c, b.account, m.account, Reported(m.out), worth)
              && TakenFrom(b.orders, m.orders, id, o.volumeLeft)
  {
    hide Execute, TradeOf, PaidFor, TakenFrom, ApplySlippage, PriceUnseen;
    var o := b.orders[id];
    var price := PriceUnseen(c, o, v.quote);
    assert NoDepthPrice(c, o, v.quote) == price by { UnseenIs(c, o, v.quote); }
    ExecuteReports(c, b, id, price, o.volumeLeft, WorthUnseen(c, o, v.quote));
  }

  lemma UnseenIs(c: Config, o: Order, quote: real)
    ensures NoDepthPrice(c, o, quote) == PriceUnseen(c, o, quote)
  {
    Slipped(c, quote, o.side);
  }

  /** Slippage worsens a price by its rate. */
  lemma Slipped(c: Config, price: real, side: Side)
    ensures var slip := if c.enableSlippage then price * c.slippageRate else 0.0;
            ApplySlippage(c, price, side) == if side == Buy then price + slip else price - slip
  {
  }

  // ---------- The fees ----------

  /** What all the trades reported were worth. */
  function Turnover(out: seq<Response>): real {
    if out == [] then 0.0
    else
      var r := out[|out| - 1];
      Turnover(out[..|out| - 1]) + if r.Traded? then r.trade.price * r.trade.volume else 0.0
  }

  lemma TurnoverOn(out: seq<Response>, r: Response)
    ensures Turnover(out + [r]) == Turnover(out) + if r.Traded? then r.trade.price * r.trade.volume else 0.0
  {
    assert (out + [r])[..|out|] == out;
  }

  /** The fees kept are the rate on the turnover, if the broker charges any. */
  predicate FeesKept(c: Config, fee: real, h: History) {
    h.broker.account.fee == fee + if c.enableCommission then c.commissionRate * Turnover(h.broker.out) else 0.0
  }

  lemma OnRate(rate: real, x: real, y: real)
    ensures rate * (x + y) == rate * x + rate * y
  {
  }

  lemma FeesDealt(c: Config, fee: real, out: seq<Response>, before: real, after: real, t: Trade, value: real)
    requires before == fee + if c.enableCommission then c.commissionRate * Turnover(out) else 0.0
    requires after == before + (if c.enableCommission then c.commissionRate * value else 0.0)
    requires t.price * t.volume == value
    ensures after == fee + if c.enableCommission then c.commissionRate * Turnover(out + [Traded(t)]) else 0.0
  {
    hide Turnover;
    TurnoverOn(out, Traded(t));
    OnRate(c.commissionRate, Turnover(out), value);
  }

  lemma FeesOn(c: Config, fee: real, h: History, ch: Change)
    requires Allowed(h, ch, ANY) && FeesKept(c, fee, h)
    ensures FeesKept(c, fee, Apply(c, h, ch))
  {
    hide Turnover, BrokerUpdate, Executed, Allowed, Trunc;
    var b := h.broker;
    match ch
    case Dealt(id, price, volume) =>
      DealtThere(h, ch);
      var value := price * volume;
      FeeOfOne(c, b, id, price, volume, value);
      FeesDealt(c, fee, b.out, b.account.fee, Execute(c, b, id, price, volume).account.fee,
                SummaryTrade(c, b.orders[id], price, volume), value);
    case Replied(action, target, error) =>
      TurnoverOn(b.out, ActionDone(action, target, error));
    case _ =>
  }

  lemma DealtThere(h: History, ch: Change)
    requires Allowed(h, ch, ANY) && ch.Dealt?
    ensures ch.id in h.broker.orders
  {
  }

  lemma FeeOfOne(c: Config, b: Broker, id: nat, price: real, volume: real, value: real)
    requires id in b.orders && price * volume == value
    ensures Execute(c, b, id, price, volume).account.fee
            == b.account.fee + if c.enableCommission then c.commissionRate * value else 0.0
  {
    ExecuteReports(c, b, id, price, volume, value);
  }

  lemma {:induction false} FeesThrough(c: Config, fee: real, h: History, chs: seq<Change>, g: History)
    requires Leads(c, h, chs, g, ANY) && FeesKept(c, fee, h)
    ensures FeesKept(c, fee, g)
    decreases |chs|
  {
    hide Apply, FeesKept;
    if chs != [] {
      FeesOn(c, fee, h, chs[0]);
      FeesThrough(c, fee, Apply(c, h, chs[0]), chs[1..], g);
    }
  }

  /** Over every run the broker keeps as fees the rate of commission on everything it has reported as traded, and
      nothing if it charges none. */
  lemma FeesAreTheRate(c: Config, a: Account, ops: seq<Op>)
    ensures var b := Run(c, Broker(map[], a, []), ops);
            b.account.fee == a.fee + if c.enableCommission then c.commissionRate * Turnover(b.out) else 0.0
  {
    hide RunHistory, RunOk, Run;
    var h := History(Broker(map[], a, []), map[]);
    AnyRunOk(c, h, ops);
    RunHistoryIsRun(c, h, ops);
    var chs := RunChanges(c, h, ops, ANY);
    assert Turnover([]) == 0.0;
    assert FeesKept(c, a.fee, h);
    FeesThrough(c, a.fee, h, chs, RunHistory(c, h, ops));
  }

  // ---------- Orders and trades are those that were asked for ----------

  function Inputs(ops: seq<Op>): seq<OrderInput> {
    if ops == [] then []
    else Inputs(ops[..|ops| - 1]) + if ops[|ops| - 1].InsertOp? then [ops[|ops| - 1].input] else []
  }

  predicate OrderOf(o: Order, i: OrderInput) {
    && o.id == i.id && o.instrument == i.instrument && o.side == i.side && o.offset == i.offset
    && o.priceType == i.priceType && o.limitPrice == i.limitPrice && o.volume == i.volume
  }

  predicate Reports(t: Trade, i: OrderInput) {
    t.orderId == i.id && t.instrument == i.instrument && t.side == i.side && t.offset == i.offset
  }

  /** Every active order is as it was asked for, under its id, and every trade is of something that was asked for. */
  ghost predicate AsPlaced(b: Broker, inputs: seq<OrderInput>) {
    && (forall id | id in b.orders :: exists i | i in inputs :: i.id == id && OrderOf(b.orders[id], i))
    && (forall n | 0 <= n < |b.out| && b.out[n].Traded? :: exists i | i in inputs :: Reports(b.out[n].trade, i))
  }

  /** Only what is left of orders and their status has changed, orders may be gone, and of responses there is at most
      one more, a trade of the order `id`. */
  predicate Worked(b: Broker, m: Broker, id: nat) {
    && m.orders.Keys <= b.orders.Keys
    && (forall k | k in m.orders ::
          m.orders[k] == b.orders[k].(volumeLeft := m.orders[k].volumeLeft, status := m.orders[k].status))
    && (m.out == b.out
        || (OneTrade(b.out, m.out) && id in b.orders && var (t, o) := (Reported(m.out), b.orders[id]);
            t.orderId == o.id && t.instrument == o.instrument && t.side == o.side && t.offset == o.offset))
  }

  lemma WorkedPlaced(b: Broker, m: Broker, id: nat, inputs: seq<OrderInput>)
    requires AsPlaced(b, inputs) && Worked(b, m, id)
    ensures AsPlaced(m, inputs)
  {
    forall k | k in m.orders
      ensures exists i | i in inputs :: i.id == k && OrderOf(m.orders[k], i)
    {
      var i :| i in inputs && i.id == k && OrderOf(b.orders[k], i);
      assert OrderOf(m.orders[k], i);
    }
    forall n | 0 <= n < |m.out| && m.out[n].Traded?
      ensures exists i | i in inputs :: Reports(m.out[n].trade, i)
    {
      if n < |b.out| {
        assert m.out[n] == b.out[n];
      } else {
        var i :| i in inputs && i.id == id && OrderOf(b.orders[id], i);
        assert Reports(m.out[n].trade, i);
      }
    }
  }

  lemma MatchWorks(c: Config, b: Broker, id: nat, v: View)
    requires id in b.orders
    ensures Worked(b, MatchOrder(c, b, id, v), id)
  {
    hide BrokerUpdate, PriceLevels, OrderFills, Volume, Value, Trunc, NoDepthPrice, FundsSuffice;
  }

  lemma VisitWorks(c: Config, b: Broker, id: nat, v: View)
    requires id in b.orders
    ensures Worked(b, Visit(c, b, id, v), id)
  {
    hide MatchOrder, OneTrade;
    MatchWorks(c, b, id, v);
  }

  lemma {:induction false} VisitsPlaced(c: Config, b: Broker, ids: seq<nat>, market: Market, inputs: seq<OrderInput>)
    requires AsPlaced(b, inputs)
    ensures AsPlaced(Visits(c, b, ids, market), inputs)
    decreases |ids|
  {
    hide AsPlaced, Visit, Worked;
    if ids != [] {
      if ids[0] in b.orders {
        VisitWorks(c, b, ids[0], market(ids[0]));
        WorkedPlaced(b, Visit(c, b, ids[0], market(ids[0])), ids[0], inputs);
        VisitsPlaced(c, Visit(c, b, ids[0], market(ids[0])), ids[1..], market, inputs);
      } else {
        VisitsPlaced(c, b, ids[1..], market, inputs);
      }
    }
  }

  lemma InsertPlaced(b: Broker, i: OrderInput, inputs: seq<OrderInput>)
    requires AsPlaced(b, inputs)
    ensures AsPlaced(Insert(b, i), inputs + [i])
  {
    var m := Insert(b, i);
    forall k | k in m.orders
      ensures exists j | j in inputs + [i] :: j.id == k && OrderOf(m.orders[k], j)
    {
      if k in b.orders && m.orders[k] == b.orders[k] {
        var j :| j in inputs && j.id == k && OrderOf(b.orders[k], j);
        assert j in inputs + [i];
      } else {
        assert i in inputs + [i] && OrderOf(m.orders[k], i);
      }
    }
    forall n | 0 <= n < |m.out| && m.out[n].Traded?
      ensures exists j | j in inputs + [i] :: Reports(m.out[n].trade, j)
    {
      var j :| j in inputs && Reports(b.out[n].trade, j);
      assert j in inputs + [i];
    }
  }

  lemma CancelPlaced(b: Broker, action: nat, target: nat, inputs: seq<OrderInput>)
    requires AsPlaced(b, inputs)
    ensures AsPlaced(Cancel(b, action, target), inputs)
  {
    var m := Cancel(b, action, target);
    forall k | k in m.orders
      ensures exists j | j in inputs :: j.id == k && OrderOf(m.orders[k], j)
    {
      var j :| j in inputs && j.id == k && OrderOf(b.orders[k], j);
      assert OrderOf(m.orders[k], j);
    }
  }

  lemma {:induction false} RunOn(c: Config, b: Broker, ops: seq<Op>, op: Op)
    ensures Run(c, b, ops + [op]) == Step(c, Run(c, b, ops), op)
    decreases |ops|
  {
    hide Step;
    if ops == [] {
      assert ops + [op] == [op] && [op][1..] == [];
    } else {
      RunOn(c, Step(c, b, ops[0]), ops[1..], op);
      assert (ops + [op])[1..] == ops[1..] + [op];
    }
  }

  /** Over every run each active order has the instrument, side, offset, price and volume it was asked for with, and
      each trade reported is of an order that was asked for, with its instrument, side and offset. */
  lemma {:induction false} OrdersAreAsPlaced(c: Config, a: Account, ops: seq<Op>)
    ensures AsPlaced(Run(c, Broker(map[], a, []), ops), Inputs(ops))
  {
    hide AsPlaced, Insert, Cancel, Visits, Ascending;
    if ops == [] {
      assert AsPlaced(Broker(map[], a, []), []) by { NothingPlaced(a); }
    } else {
      var front, op := ops[..|ops| - 1], ops[|ops| - 1];
      assert ops == front + [op];
      OrdersAreAsPlaced(c, a, front);
      RunOn(c, Broker(map[], a, []), front, op);
      var b := Run(c, Broker(map[], a, []), front);
      assert Inputs(front) + [] == Inputs(front);
      match op
      case InsertOp(i) => InsertPlaced(b, i, Inputs(front));
      case CancelOp(action, target) => CancelPlaced(b, action, target, Inputs(front));
      case MatchOp(market) => VisitsPlaced(c, b, Ascending(b.orders.Keys), market, Inputs(front));
    }
  }

  lemma NothingPlaced(a: Account)
    ensures AsPlaced(Broker(map[], a, []), [])
  {
  }

  // ---------- A pass ----------

  predicate StrictlyAscending(ids: seq<nat>) {
    forall i, j | 0 <= i < j < |ids| :: ids[i] < ids[j]
  }

  lemma AscendingFrom(id: nat, rest: seq<nat>)
    requires StrictlyAscending(rest) && forall k | k in rest :: id < k
    ensures StrictlyAscending([id] + rest) && forall k :: k in [id] + rest <==> k == id || k in rest
  {
    var all := [id] + rest;
    forall i, j | 0 <= i < j < |all|
      ensures all[i] < all[j]
    {
      assert all[j] == rest[j - 1] && rest[j - 1] in rest;
    }
  }

  lemma FirstIsLeast(s: set<nat>)
    requires s != {}
    ensures Ascending(s) == [Least(s)] + Ascending(s - {Least(s)}) && Least(s) in s
    ensures forall id | id in s - {Least(s)} :: Least(s) < id
  {
    hide Least;
  }

  /** The ids in the order of the map: all of them, each once, ascending. */
  lemma {:induction false} AscendingIs(s: set<nat>)
    ensures StrictlyAscending(Ascending(s)) && forall id :: id in Ascending(s) <==> id in s
    decreases |s|
  {
    hide Ascending, StrictlyAscending;
    if s == {} {
      NoneAscending();
    } else {
      FirstIsLeast(s);
      AscendingIs(s - {Least(s)});
      AscendingFrom(Least(s), Ascending(s - {Least(s)}));
    }
  }

  lemma NoneAscending()
    ensures Ascending({}) == [] && StrictlyAscending([])
  {
  }

  /** The responses behind the first `n` are trades of orders with ids from `lo` on, in strictly ascending order. */
  predicate TradesUpFrom(out: seq<Response>, n: nat, lo: int) {
    && n <= |out|
    && (forall i | n <= i < |out| :: out[i].Traded? && lo <= out[i].trade.orderId)
    && forall i, j | n <= i < j < |out| :: out[i].trade.orderId < out[j].trade.orderId
  }

  lemma OneVisit(c: Config, b: Broker, id: nat, v: View)
    requires id in b.orders && Keyed(b)
    ensures var m := Visit(c, b, id, v);
            && Keyed(m) && Worked(b, m, id)
            && (m.out != b.out ==> OneTrade(b.out, m.out) && Reported(m.out).orderId == id)
  {
    hide Visit;
    VisitWorks(c, b, id, v);
  }

  lemma {:induction false} VisitsInOrder(c: Config, b: Broker, ids: seq<nat>, market: Market)
    requires Keyed(b) && StrictlyAscending(ids)
    ensures var m := Visits(c, b, ids, market);
            && Keyed(m) && b.out <= m.out
            && (ids == [] ==> m.out == b.out) && (ids != [] ==> TradesUpFrom(m.out, |b.out|, ids[0]))
    decreases |ids|
  {
    hide Visit, Worked, Keyed;
    if ids != [] {
      var b' := if ids[0] in b.orders then Visit(c, b, ids[0], market(ids[0])) else b;
      if ids[0] in b.orders {
        OneVisit(c, b, ids[0], market(ids[0]));
      }
      VisitsInOrder(c, b', ids[1..], market);
      TradesBehind(b.out, b'.out, Visits(c, b', ids[1..], market).out, ids);
    }
  }

  lemma TradesBehind(before: seq<Response>, one: seq<Response>, after: seq<Response>, ids: seq<nat>)
    requires ids != [] && StrictlyAscending(ids) && one <= after
    requires one == before || (OneTrade(before, one) && Reported(one).orderId == ids[0])
    requires (|ids| == 1 ==> after == one) && (|ids| > 1 ==> TradesUpFrom(after, |one|, ids[1]))
    ensures before <= after && TradesUpFrom(after, |before|, ids[0])
  {
    if one != before {
      assert after[|before|] == one[|before|];
    }
  }

  /** The trades of a pass are reported in ascending order of the ids of the orders, at most one of each. */
  lemma PassInOrder(c: Config, b: Broker, market: Market)
    requires Keyed(b)
    ensures var m := MatchPass(c, b, market); b.out <= m.out && TradesUpFrom(m.out, |b.out|, 0)
  {
    hide Visits, Keyed, Ascending;
    AscendingIs(b.orders.Keys);
    VisitsInOrder(c, b, Ascending(b.orders.Keys), market);
    if Ascending(b.orders.Keys) == [] {
      assert TradesUpFrom(b.out, |b.out|, 0);
    }
  }

  /** What can be said of an order a pass has not come to yet. */
  predicate StillToCome(b: Broker, id: nat, o: Order) {
    id in b.orders && b.orders[id] == o
  }

  lemma VisitSpares(c: Config, b: Broker, id: nat, v: View, other: nat)
    requires id in b.orders && other in b.orders && other != id
    ensures StillToCome(Visit(c, b, id, v), other, b.orders[other]) && b.out <= Visit(c, b, id, v).out
  {
    hide BrokerUpdate, PriceLevels, OrderFills, Volume, Value, Trunc, NoDepthPrice, FundsSuffice;
  }

  /** Some trade behind the first `n` responses is of the order and of this volume. */
  predicate TradedSince(out: seq<Response>, n: nat, id: nat, volume: real) {
    exists i | n <= i < |out| :: out[i].Traded? && out[i].trade.orderId == id && out[i].trade.volume == volume
  }

  lemma TradedStill(out: seq<Response>, out': seq<Response>, n: nat, n': nat, id: nat, volume: real)
    requires TradedSince(out, n, id, volume) && out <= out' && n' <= n
    ensures TradedSince(out', n', id, volume)
  {
    var i :| n <= i < |out| && out[i].Traded? && out[i].trade.orderId == id && out[i].trade.volume == volume;
    assert out'[i] == out[i];
  }

  lemma VisitTrades(c: Config, b: Broker, id: nat, v: View)
    requires id in b.orders && b.orders[id].id == id && Working(b.orders[id].status)
    requires v.depth.size == 0 && b.orders[id].side != Buy
    ensures b.out <= Visit(c, b, id, v).out
    ensures TradedSince(Visit(c, b, id, v).out, |b.out|, id, b.orders[id].volumeLeft)
  {
    hide MatchOrder, PaidFor, TakenFrom, PriceUnseen;
    WithoutDepth(c, b, id, v);
    var m := MatchOrder(c, b, id, v);
    assert Visit(c, b, id, v).out == m.out by { VisitOut(c, b, id, v); }
    assert m.out[|b.out|].trade.volume == b.orders[id].volumeLeft;
  }

  lemma VisitOut(c: Config, b: Broker, id: nat, v: View)
    requires id in b.orders && Working(b.orders[id].status)
    ensures Visit(c, b, id, v).out == MatchOrder(c, b, id, v).out
  {
    hide BrokerUpdate, PriceLevels, OrderFills, Volume, Value, Trunc, NoDepthPrice, FundsSuffice;
  }

  lemma {:induction false} VisitsReach(c: Config, b: Broker, ids: seq<nat>, market: Market, id: nat)
    requires Keyed(b) && StrictlyAscending(ids) && id in ids && id in b.orders
    requires Working(b.orders[id].status) && market(id).depth.size == 0 && b.orders[id].side != Buy
    ensures TradedSince(Visits(c, b, ids, market).out, |b.out|, id, b.orders[id].volumeLeft)
    decreases |ids|
  {
    hide Visit, Worked;
    var b' := if ids[0] in b.orders then Visit(c, b, ids[0], market(ids[0])) else b;
    if ids[0] in b.orders {
      OneVisit(c, b, ids[0], market(ids[0]));
    }
    VisitsInOrder(c, b', ids[1..], market);
    var out := Visits(c, b', ids[1..], market).out;
    if ids[0] == id {
      VisitTrades(c, b, id, market(id));
      TradedStill(b'.out, out, |b.out|, |b.out|, id, b.orders[id].volumeLeft);
    } else {
      if ids[0] in b.orders {
        VisitSpares(c, b, ids[0], market(ids[0]), id);
      }
      VisitsReach(c, b', ids[1..], market, id);
      TradedStill(out, out, |b'.out|, |b.out|, id, b.orders[id].volumeLeft);
    }
  }

  /** No order is passed over: one that does not buy and meets no depth is traded in full by every pass while it works,
      whatever the other orders are. */
  lemma PassReachesEveryOrder(c: Config, b: Broker, market: Market, id: nat)
    requires Keyed(b) && id in b.orders && Working(b.orders[id].status)
    requires market(id).depth.size == 0 && b.orders[id].side != Buy
    ensures TradedSince(MatchPass(c, b, market).out, |b.out|, id, b.orders[id].volumeLeft)
  {
    hide Visits, Keyed, Ascending, TradedSince;
    AscendingIs(b.orders.Keys);
    VisitsReach(c, b, Ascending(b.orders.Keys), market, id);
  }

  // ---------- Inserts and cancels ----------

  /** A buy is accepted exactly if the cash covers it at its limit, everything else always; the order is then active,
      with all of its volume left, and nothing is reported or paid. */
  lemma InsertAccepts(b: Broker, i: OrderInput)
    ensures var m := Insert(b, i);
            && m.out == b.out && m.account == b.account
            && if i.side != Buy || i.limitPrice * i.volume <= b.account.avail then
                 m.orders == b.orders[i.id := Order(i.id, i.instrument, i.side, i.offset, i.priceType, i.limitPrice,
                                                    i.volume, i.volume, Submitted)]
               else m.orders == b.orders
  {
  }


  /** A cancel is answered once: with 0 if the order was active and worked, which is then cancelled and kept; with -1
      if it was active but did not work any more; with -2 if it was not active. Nothing else changes. */
  lemma CancelAnswers(b: Broker, action: nat, target: nat)
    ensures var m := Cancel(b, action, target);
            && |m.out| == |b.out| + 1 && m.out[..|b.out|] == b.out && m.out[|b.out|].ActionDone?
            && m.out[|b.out|].actionId == action && m.out[|b.out|].orderId == target
            && (m.out[|b.out|].error == 0 <==> target in b.orders && Working(b.orders[target].status))
            && (m.out[|b.out|].error == -2 <==> target !in b.orders)
            && (m.out[|b.out|].error == 0 || m.out[|b.out|].error == -1 || m.out[|b.out|].error == -2)
            && m.account == b.account && m.orders.Keys == b.orders.Keys
            && (forall id | id in b.orders && (id != target || m.out[|b.out|].error != 0) ::
                  m.orders[id] == b.orders[id])
            && (m.out[|b.out|].error == 0 ==> m.orders[target] == b.orders[target].(status := Cancelled))
  {
  }

  /** A second cancel of the same order is refused, with -1 as long as the order is kept. */
  lemma SecondCancelRefused(b: Broker, first: nat, second: nat, target: nat)
    ensures var m := Cancel(Cancel(b, first, target), second, target);
            && |m.out| == |b.out| + 2 && m.out[|b.out| + 1].ActionDone?
            && m.out[|b.out| + 1].error == if target in b.orders then -1 else -2
  {
    CancelAnswers(b, first, target);
    CancelAnswers(Cancel(b, first, target), second, target);
  }
}
