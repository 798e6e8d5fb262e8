/** The simulated broker as a state: its active orders, its account and what it has reported. */
module Broker {
  import opened Trading
  import opened Matching
  import opened Ledger

  datatype OrderInput = OrderInput(id: nat, instrument: nat, side: Side, offset: Offset, priceType: PriceType,
                                   limitPrice: real, volume: real)

  datatype Response = Traded(trade: Trade) | ActionDone(actionId: nat, orderId: nat, error: int)

  datatype Broker = Broker(orders: map<nat, Order>, account: Account, out: seq<Response>)

  /** What matching finds for an order: the depth, and the price made up for a market order when there is none. */
  datatype Sight = Sight(depth: Depth, quote: real)

  type View = v: Sight | ValidDepth(v.depth)
    witness var none := seq(MAX_DEPTH_LEVELS, _ => 0.0); Sight(Depth(0, none, none, none, none), 0.0)

  /** By order: the depth may change while a pass is under way. */
  type Market = nat -> View

  // ---------- Inserting and cancelling ----------

  function OrderFromInput(i: OrderInput): Order {
    Order(i.id, i.instrument, i.side, i.offset, i.priceType, i.limitPrice, i.volume, i.volume, Submitted)
  }

  predicate Affordable(i: OrderInput, a: Account) {
    i.side == Buy ==> a.avail >= i.limitPrice * i.volume
  }

  function Insert(b: Broker, i: OrderInput): Broker {
    if Affordable(i, b.account) then b.(orders := b.orders[i.id := OrderFromInput(i)]) else b
  }

  /** An order that matching still looks at, and that can be cancelled. */
  predicate Working(s: Status) {
    s == Submitted || s == Pending || s == PartialFilledActive
  }

  function WithStatus(b: Broker, id: nat, s: Status): Broker
    requires id in b.orders
  {
    b.(orders := b.orders[id := b.orders[id].(status := s)])
  }

  /** A cancelled order stays among the active ones. */
  function Cancel(b: Broker, action: nat, target: nat): Broker {
    if target !in b.orders then b.(out := b.out + [ActionDone(action, target, -2)])
    else if !Working(b.orders[target].status) then b.(out := b.out + [ActionDone(action, target, -1)])
    else WithStatus(b, target, Cancelled).(out := b.out + [ActionDone(action, target, 0)])
  }

  // ---------- Executing ----------

  /** The traded volume is truncated before it is taken off. */
  function Executed(o: Order, volume: real): Order {
    var left := o.volumeLeft - Trunc(volume) as real;
    o.(volumeLeft := left, status := if left == 0.0 then Filled else PartialFilledActive)
  }

  function Execute(c: Config, b: Broker, id: nat, price: real, volume: real): Broker
    requires id in b.orders
  {
    var t := SummaryTrade(c, b.orders[id], price, volume);
    Broker(b.orders[id := Executed(b.orders[id], volume)], BrokerUpdate(c, b.account, t), b.out + [Traded(t)])
  }

  function NoDepthPrice(c: Config, o: Order, quote: real): real {
    if o.priceType == Limit then o.limitPrice else ApplySlippage(c, quote, o.side)
  }

  function NoDepth(c: Config, b: Broker, id: nat, quote: real): Broker
    requires id in b.orders
  {
    var o := b.orders[id];
    var price := NoDepthPrice(c, o, quote);
    if FundsSuffice(o, price, o.volumeLeft, b.account.avail) then Execute(c, b, id, price, o.volumeLeft)
    else WithStatus(b, id, Error)
  }

  function OrderFills(c: Config, b: Broker, id: nat, d: Depth): seq<Level>
    requires id in b.orders && ValidDepth(d)
  {
    var o := b.orders[id];
    Fills(o, Priced(c, o.side, PriceLevels(d, o.side)), o.volumeLeft, b.account.avail)
  }

  function MatchOrder(c: Config, b: Broker, id: nat, v: View): Broker
    requires id in b.orders
  {
    var o := b.orders[id];
    if v.depth.size == 0 then NoDepth(c, b, id, v.quote)
    else if PriceLevels(v.depth, o.side) == [] then
      if o.status == Submitted then WithStatus(b, id, Pending) else b
    else
      var fills := OrderFills(c, b, id, v.depth);
      if Volume(fills) > 0.0 then Execute(c, b, id, Value(fills) / Volume(fills), Volume(fills)) else b
  }

  // ---------- A matching pass ----------

  function Removed(b: Broker, id: nat): Broker {
    b.(orders := b.orders - {id})
  }

  function Visit(c: Config, b: Broker, id: nat, v: View): Broker
    requires id in b.orders
  {
    if b.orders[id].status in {Filled, Cancelled, Error} then b
    else
      var m := MatchOrder(c, b, id, v);
      if m.orders[id].status in {Filled, Cancelled} then Removed(m, id) else m
  }

  ghost function Least(s: set<nat>): (k: nat)
    requires s != {}
    ensures k in s && forall l | l in s :: k <= l
    decreases |s|
  {
    var x :| x in s;
    assert forall l | l in s :: l == x || l in s - {x};
    if s - {x} == {} then x
    else
      var y := Least(s - {x});
      if x <= y then x else y
  }

  ghost function Ascending(s: set<nat>): seq<nat> {
    if s == {} then [] else [Least(s)] + Ascending(s - {Least(s)})
  }

  function Visits(c: Config, b: Broker, ids: seq<nat>, market: Market): Broker
    decreases |ids|
  {
    if ids == [] then b
    else Visits(c, if ids[0] in b.orders then Visit(c, b, ids[0], market(ids[0])) else b, ids[1..], market)
  }

  /** Every active order in turn, in the order of the ids. */
  ghost function MatchPass(c: Config, b: Broker, market: Market): Broker {
    Visits(c, b, Ascending(b.orders.Keys), market)
  }

  // ---------- Runs ----------

  datatype Op = InsertOp(input: OrderInput) | CancelOp(action: nat, target: nat) | MatchOp(market: Market)

  ghost function Step(c: Config, b: Broker, op: Op): Broker {
    match op
    case InsertOp(i) => Insert(b, i)
    case CancelOp(action, target) => Cancel(b, action, target)
    case MatchOp(market) => MatchPass(c, b, market)
  }

  ghost function Run(c: Config, b: Broker, ops: seq<Op>): Broker
    decreases |ops|
  {
    if ops == [] then b else Run(c, Step(c, b, ops[0]), ops[1..])
  }
}
