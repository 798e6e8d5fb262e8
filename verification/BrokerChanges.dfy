/** Every run of the broker is a sequence of small changes: one order accepted, marked or dealt, or one reply given. */
module BrokerChanges {
  import opened Trading
  import opened Matching
  import opened Ledger
  import opened Broker
  import BestExecution

  /** The broker, and for the statements only, the volumes accepted so far by order id. */
  datatype History = History(broker: Broker, placed: map<nat, real>)

  /** What a run keeps to: order ids used once; volumes not negative; orders and levels of whole volume;
      orders that buy or sell; orders that open. */
  datatype Terms = Terms(newIds: bool, nonNegative: bool, whole: bool, twoSided: bool, opening: bool)

  const ANY := Terms(false, false, false, false, false)

  predicate WholeDepth(d: Depth) {
    && (forall v | v in d.askVolume :: IsInt(v))
    && (forall v | v in d.bidVolume :: IsInt(v))
  }

  predicate InputOk(h: History, i: OrderInput, k: Terms) {
    && (k.newIds ==> i.id !in h.placed)
    && (k.nonNegative ==> i.volume >= 0.0)
    && (k.whole ==> IsInt(i.volume) && i.volume > 0.0)
    && (k.twoSided ==> i.side != OtherSide)
    && (k.opening ==> i.offset == OpenOffset)
  }

  ghost predicate OpOk(h: History, op: Op, k: Terms) {
    match op
    case InsertOp(i) => InputOk(h, i, k)
    case CancelOp(_, _) => true
    case MatchOp(market) => k.whole ==> forall id: nat :: WholeDepth(market(id).depth)
  }

  ghost function StepHistory(c: Config, h: History, op: Op): History {
    History(Step(c, h.broker, op),
            if op.InsertOp? && Affordable(op.input, h.broker.account) then h.placed[op.input.id := op.input.volume]
            else h.placed)
  }

  ghost function RunHistory(c: Config, h: History, ops: seq<Op>): History
    decreases |ops|
  {
    if ops == [] then h else RunHistory(c, StepHistory(c, h, ops[0]), ops[1..])
  }

  ghost predicate RunOk(c: Config, h: History, ops: seq<Op>, k: Terms)
    decreases |ops|
  {
    ops == [] || (OpOk(h, ops[0], k) && RunOk(c, StepHistory(c, h, ops[0]), ops[1..], k))
  }

  // ---------- The small changes ----------

  datatype Change =
    | Accepted(input: OrderInput)
    | Marked(id: nat, status: Status)
    | Dealt(id: nat, price: real, volume: real)
    | Replied(action: nat, target: nat, error: int)

  predicate DealOk(o: Order, volume: real, k: Terms) {
    && Working(o.status)
    && (volume == o.volumeLeft || 0.0 < volume <= o.volumeLeft)
    && (k.whole && IsInt(o.volumeLeft) ==> IsInt(volume))
  }

  predicate Allowed(h: History, ch: Change, k: Terms) {
    match ch
    case Accepted(i) => InputOk(h, i, k)
    case Marked(id, s) =>
      && id in h.broker.orders && Working(h.broker.orders[id].status)
      && ((s == Pending && h.broker.orders[id].status == Submitted) || s == Error || s == Cancelled)
    case Dealt(id, _, volume) => id in h.broker.orders && DealOk(h.broker.orders[id], volume, k)
    case Replied(_, _, _) => true
  }

  /** The order leaves the active ones once it is filled. */
  function Settle(b: Broker, id: nat): Broker
    requires id in b.orders
  {
    if b.orders[id].status == Filled then Removed(b, id) else b
  }

  function Apply(c: Config, h: History, ch: Change): History
    requires Allowed(h, ch, ANY)
  {
    match ch
    case Accepted(i) =>
      History(h.broker.(orders := h.broker.orders[i.id := OrderFromInput(i)]), h.placed[i.id := i.volume])
    case Marked(id, s) => h.(broker := WithStatus(h.broker, id, s))
    case Dealt(id, price, volume) => h.(broker := Settle(Execute(c, h.broker, id, price, volume), id))
    case Replied(action, target, error) =>
      h.(broker := h.broker.(out := h.broker.out + [ActionDone(action, target, error)]))
  }

  predicate Leads(c: Config, h: History, chs: seq<Change>, g: History, k: Terms)
    decreases |chs|
  {
    if chs == [] then h == g else Allowed(h, chs[0], k) && Leads(c, Apply(c, h, chs[0]), chs[1..], g, k)
  }

  lemma {:induction false} LeadsOn(c: Config, h: History, xs: seq<Change>, g: History, ys: seq<Change>, f: History,
                                   k: Terms)
    requires Leads(c, h, xs, g, k) && Leads(c, g, ys, f, k)
    ensures Leads(c, h, xs + ys, f, k)
    decreases |xs|
  {
    hide Apply;
    if xs == [] {
      assert xs + ys == ys;
    } else {
      LeadsOn(c, Apply(c, h, xs[0]), xs[1..], g, ys, f, k);
      assert (xs + ys)[1..] == xs[1..] + ys;
    }
  }

  // ---------- What an order can be filled with ----------

  predicate Offers(levels: seq<Level>, whole: bool) {
    forall l | l in levels :: l.volume > 0.0 && (whole ==> IsInt(l.volume))
  }

  lemma {:induction false} UsableOffers(prices: seq<real>, volumes: seq<real>, whole: bool)
    requires |prices| == |volumes| && (whole ==> forall v | v in volumes :: IsInt(v))
    ensures Offers(Usable(prices, volumes), whole)
  {
    if prices != [] {
      UsableOffers(prices[..|prices| - 1], volumes[..|prices| - 1], whole);
    }
  }

  lemma {:induction false} PricedOffers(c: Config, side: Side, levels: seq<Level>, whole: bool)
    requires Offers(levels, whole)
    ensures Offers(Priced(c, side, levels), whole)
  {
    hide ApplySlippage;
    if levels != [] {
      PricedOffers(c, side, levels[1..], whole);
    }
  }

  /** The fills add up to no more than what is wanted, and to a whole volume if that and the levels are whole. */
  lemma {:induction false} FillsBounded(o: Order, priced: seq<Level>, remaining: real, avail: real, whole: bool)
    requires Offers(priced, whole)
    ensures var volume := Volume(Fills(o, priced, remaining, avail));
            0.0 <= volume && (volume > 0.0 ==> volume <= remaining)
            && (whole && IsInt(remaining) ==> IsInt(volume))
    decreases |priced|
  {
    hide CanExecute, FundsSuffice, IsInt;
    assert IsInt(0.0) by { FloorOfInt(0); IntIs(0); }
    if priced != [] && remaining > 0.0 {
      var v := Min(remaining, priced[0].volume);
      FillsBounded(o, priced[1..], remaining - v, avail, whole);
      FillsBounded(o, priced[1..], remaining, avail, whole);
      BestExecution.SumsFront(Level(priced[0].price, v), Fills(o, priced[1..], remaining - v, avail));
      if whole && IsInt(remaining) {
        IntSums(remaining, v);
        IntSums(v, Volume(Fills(o, priced[1..], remaining - v, avail)));
      }
    }
  }

  lemma IntIs(n: int)
    ensures IsInt(n as real)
  {
    FloorOfInt(n);
  }

  lemma IntSums(x: real, y: real)
    ensures IsInt(x) && IsInt(y) ==> IsInt(x + y) && IsInt(x - y)
  {
    if IsInt(x) && IsInt(y) {
      IntIs(x.Floor + y.Floor);
      IntIs(x.Floor - y.Floor);
      assert x + y == (x.Floor + y.Floor) as real && x - y == (x.Floor - y.Floor) as real;
    }
  }

  lemma OrderFillsBounded(c: Config, b: Broker, id: nat, d: Depth, whole: bool)
    requires id in b.orders && ValidDepth(d) && (whole ==> WholeDepth(d))
    ensures var left := b.orders[id].volumeLeft; var volume := Volume(OrderFills(c, b, id, d));
            volume > 0.0 ==> volume <= left && (whole && IsInt(left) ==> IsInt(volume))
  {
    hide Fills, Volume, Usable, Priced, IsInt;
    var o := b.orders[id];
    var n := Shown(d);
    if o.side == Buy {
      UsableOffers(d.askPrice[..n], d.askVolume[..n], whole);
    } else {
      UsableOffers(d.bidPrice[..n], d.bidVolume[..n], whole);
    }
    PricedOffers(c, o.side, PriceLevels(d, o.side), whole);
    FillsBounded(o, Priced(c, o.side, PriceLevels(d, o.side)), o.volumeLeft, b.account.avail, whole);
  }

  // ---------- Every operation is made of changes ----------

  lemma One(c: Config, h: History, ch: Change, k: Terms)
    requires Allowed(h, ch, k)
    ensures Leads(c, h, [ch], Apply(c, h, ch), k)
  {
    hide Apply;
  }

  lemma VisitChanges(c: Config, h: History, id: nat, v: View, k: Terms) returns (chs: seq<Change>)
    requires id in h.broker.orders && (k.whole ==> WholeDepth(v.depth))
    ensures Leads(c, h, chs, h.(broker := Visit(c, h.broker, id, v)), k)
  {
    hide BrokerUpdate, SummaryTrade, PriceLevels, OrderFills, Volume, Value, NoDepthPrice, IsInt, FundsSuffice,
      WholeDepth, Trunc;
    var b := h.broker;
    var o := b.orders[id];
    chs := [];
    if Working(o.status) {
      if v.depth.size == 0 {
        var price := NoDepthPrice(c, o, v.quote);
        chs := [if FundsSuffice(o, price, o.volumeLeft, b.account.avail)
          then Dealt(id, price, o.volumeLeft) else Marked(id, Error)];
      } else if PriceLevels(v.depth, o.side) == [] {
        chs := if o.status == Submitted then [Marked(id, Pending)] else [];
      } else {
        OrderFillsBounded(c, b, id, v.depth, k.whole);
        var fills := OrderFills(c, b, id, v.depth);
        chs := if Volume(fills) > 0.0 then [Dealt(id, Value(fills) / Volume(fills), Volume(fills))] else [];
      }
      if chs != [] {
        One(c, h, chs[0], k);
      }
    }
  }

  lemma {:induction false} VisitsChanges(c: Config, h: History, ids: seq<nat>, market: Market, k: Terms)
    returns (chs: seq<Change>)
    requires k.whole ==> forall id: nat :: WholeDepth(market(id).depth)
    ensures Leads(c, h, chs, h.(broker := Visits(c, h.broker, ids, market)), k)
    decreases |ids|
  {
    hide Visit, Allowed, Apply, Leads, WholeDepth;
    if ids == [] {
      chs := [];
      assert Leads(c, h, [], h, k) by { Nothing(c, h, k); }
    } else if ids[0] in h.broker.orders {
      chs := VisitChanges(c, h, ids[0], market(ids[0]), k);
      var g := h.(broker := Visit(c, h.broker, ids[0], market(ids[0])));
      var rest := VisitsChanges(c, g, ids[1..], market, k);
      LeadsOn(c, h, chs, g, rest, h.(broker := Visits(c, h.broker, ids, market)), k);
      chs := chs + rest;
    } else {
      chs := VisitsChanges(c, h, ids[1..], market, k);
    }
  }

  lemma Nothing(c: Config, h: History, k: Terms)
    ensures Leads(c, h, [], h, k)
  {
  }

  lemma CancelChanges(c: Config, h: History, action: nat, target: nat, k: Terms) returns (chs: seq<Change>)
    ensures Leads(c, h, chs, h.(broker := Cancel(h.broker, action, target)), k)
  {
    var b := h.broker;
    if target in b.orders && Working(b.orders[target].status) {
      var ch := Marked(target, Cancelled);
      var g := Apply(c, h, ch);
      One(c, h, ch, k);
      One(c, g, Replied(action, target, 0), k);
      chs := [ch] + [Replied(action, target, 0)];
      LeadsOn(c, h, [ch], g, [Replied(action, target, 0)], h.(broker := Cancel(b, action, target)), k);
    } else {
      var ch := Replied(action, target, if target in b.orders then -1 else -2);
      One(c, h, ch, k);
      chs := [ch];
    }
  }

  lemma StepChanges(c: Config, h: History, op: Op, k: Terms) returns (chs: seq<Change>)
    requires OpOk(h, op, k)
    ensures Leads(c, h, chs, StepHistory(c, h, op), k)
  {
    hide Cancel, Visits, Ascending;
    match op
    case InsertOp(i) =>
      if Affordable(i, h.broker.account) {
        One(c, h, Accepted(i), k);
        chs := [Accepted(i)];
      } else {
        chs := [];
      }
    case CancelOp(action, target) =>
      chs := CancelChanges(c, h, action, target, k);
    case MatchOp(market) =>
      chs := VisitsChanges(c, h, Ascending(h.broker.orders.Keys), market, k);
  }

  lemma {:induction false} RunChanges(c: Config, h: History, ops: seq<Op>, k: Terms) returns (chs: seq<Change>)
    requires RunOk(c, h, ops, k)
    ensures Leads(c, h, chs, RunHistory(c, h, ops), k)
    decreases |ops|
  {
    hide Step, Leads, OpOk;
    if ops == [] {
      chs := [];
      Nothing(c, h, k);
    } else {
      chs := StepChanges(c, h, ops[0], k);
      var g := StepHistory(c, h, ops[0]);
      var rest := RunChanges(c, g, ops[1..], k);
      LeadsOn(c, h, chs, g, rest, RunHistory(c, h, ops), k);
      chs := chs + rest;
    }
  }

  lemma {:induction false} RunHistoryIsRun(c: Config, h: History, ops: seq<Op>)
    ensures RunHistory(c, h, ops).broker == Run(c, h.broker, ops)
    decreases |ops|
  {
    hide Step;
    if ops != [] {
      RunHistoryIsRun(c, StepHistory(c, h, ops[0]), ops[1..]);
    }
  }
}
