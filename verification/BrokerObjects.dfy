/** The two ledgers and the broker as the objects they are: fields changed in place, each method held to
    the function of the broker's state that it computes. */
module BrokerObjects {
  import opened Trading
  import opened Matching
  import opened Ledger
  import opened Broker
  import opened BrokerRuns
  import opened BrokerReports

  class PositionBook {
    var longs: Positions
    var shorts: Positions

    constructor ()
      ensures longs == map[] && shorts == map[]
    {
      longs, shorts := map[], map[];
    }

    /** The strategy's side: direction from side and offset, average over the truncated total, erased when closed. */
    method Update(t: Trade)
      modifies this
      ensures Held(this) == BookPositions(old(Held(this)), t)
      ensures t.side == OtherSide ==> longs == old(longs) && shorts == old(shorts)
      ensures t.side != OtherSide && IsLong(t) ==> shorts == old(shorts) && Moves(old(longs), longs, t)
      ensures t.side != OtherSide && !IsLong(t) ==> longs == old(longs) && Moves(old(shorts), shorts, t)
    {
      hide Average, Trunc, PutOn, TakenOff;
      if t.side != OtherSide {
        OpenedAndClosed(Held(this), t);
      }
      if t.side == OtherSide {
        return;
      }
      var long := (t.side == Buy) == (t.offset == OpenOffset);
      var positions := if long then longs else shorts;
      if t.instrument !in positions {
        positions := positions[t.instrument := Position(t.volume, t.price)];
      } else {
        var p := positions[t.instrument];
        var total := Trunc(p.volume + t.volume);
        if total > 0 {
          p := p.(cost := Average(p, t, total as real));
        }
        if t.offset == OpenOffset {
          p := p.(volume := p.volume + t.volume);
          positions := positions[t.instrument := p];
        } else {
          p := p.(volume := p.volume - t.volume);
          positions := if p.volume <= 0.0 then positions - {t.instrument} else positions[t.instrument := p];
        }
      }
      if long {
        longs := positions;
      } else {
        shorts := positions;
      }
    }
  }

  /** A buy that opens and a sell that closes move long positions, the others short ones: opened volume is put on,
      closed volume taken off where something is held. */
  predicate Moves(before: Positions, after: Positions, t: Trade) {
    if t.offset == OpenOffset || t.instrument !in before then PutOn(before, after, t.instrument, t.volume)
    else TakenOff(before, after, t.instrument, t.volume)
  }

  /** The positions alone, with no cash beside them. */
  ghost function Held(book: PositionBook): Account
    reads book
  {
    Account(0.0, 0.0, book.longs, book.shorts)
  }

  lemma CashBeside(a: Account, t: Trade)
    ensures BookPositions(a, t) == BookPositions(a.(avail := 0.0, fee := 0.0), t).(avail := a.avail, fee := a.fee)
  {
    hide BookPosition;
  }

  /** The strategy's book. */
  class Book {
    var avail: real
    var fee: real
    const positions: PositionBook

    constructor (avail: real)
      ensures this.avail == avail && fee == 0.0 && fresh(positions)
      ensures positions.longs == map[] && positions.shorts == map[]
    {
      this.avail, fee := avail, 0.0;
      positions := new PositionBook();
    }

    ghost function State(): Account
      reads this, positions
    {
      Account(avail, fee, positions.longs, positions.shorts)
    }

    method Update(t: Trade)
      modifies this, positions
      ensures State() == BookUpdate(old(State()), t)
    {
      hide BookPositions;
      CashBeside(State(), t);
      positions.Update(t);
      assert State() == BookPositions(old(State()), t);
      if t.side == Buy {
        avail := avail - t.price * t.volume;
      } else if t.side == Sell {
        avail := avail + t.price * t.volume;
      }
      avail := avail - t.commission;
      avail := avail - t.tax;
    }
  }

  class BrokerSim {
    const config: Config
    var orders: map<nat, Order>
    var avail: real
    var fee: real
    const positions: PositionBook
    var out: seq<Response>

    ghost function Books(): Account
      reads this, positions
    {
      Account(avail, fee, positions.longs, positions.shorts)
    }

    ghost function State(): Broker
      reads this, positions
    {
      Broker(orders, Books(), out)
    }

    ghost predicate Valid()
      reads this, positions
    {
      Keyed(State())
    }

    constructor (config: Config, capital: real)
      ensures Valid() && fresh(positions) && this.config == config
      ensures State() == Broker(map[], Account(capital, 0.0, map[], map[]), [])
    {
      this.config, orders, avail, fee, out := config, map[], capital, 0.0, [];
      positions := new PositionBook();
    }

    method InsertOrder(i: OrderInput) returns (ok: bool)
      requires Valid()
      modifies this
      ensures Valid() && State() == Insert(old(State()), i)
      ensures ok == Affordable(i, old(Books()))
    {
      var order := OrderFromInput(i);
      if i.side == Buy {
        var required := i.limitPrice * i.volume;
        if avail < required {
          return false;
        }
      }
      orders := orders[order.id := order];
      return true;
    }

    method UpdateOrderStatus(id: nat, s: Status)
      modifies this`orders
      ensures State() == if id in old(orders) then WithStatus(old(State()), id, s) else old(State())
    {
      if id in orders {
        orders := orders[id := orders[id].(status := s)];
      }
    }

    method CancelOrder(action: nat, target: nat) returns (ok: bool)
      requires Valid()
      modifies this
      ensures Valid() && State() == Cancel(old(State()), action, target)
      ensures ok == (target in old(orders) && Working(old(orders)[target].status))
    {
      if target !in orders {
        out := out + [ActionDone(action, target, -2)];
        return false;
      }
      var order := orders[target];
      if order.status != Submitted && order.status != Pending && order.status != PartialFilledActive {
        out := out + [ActionDone(action, target, -1)];
        return false;
      }
      UpdateOrderStatus(target, Cancelled);
      out := out + [ActionDone(action, target, 0)];
      return true;
    }

    method UpdatePosition(t: Trade)
      modifies positions
      ensures Books() == BrokerBook(old(Books()), t)
    {
      hide Average;
      var ps := if t.side == Buy then positions.longs else positions.shorts;
      if t.instrument in ps {
        var p := ps[t.instrument];
        var total := p.volume + t.volume;
        if total > 0.0 {
          p := p.(cost := Average(p, t, total));
        }
        p := p.(volume := p.volume + t.volume);
        ps := ps[t.instrument := p];
      } else {
        ps := ps[t.instrument := Position(t.volume, t.price)];
      }
      if t.side == Buy {
        positions.longs := ps;
      } else {
        positions.shorts := ps;
      }
    }

    method UpdateAsset(t: Trade)
      modifies this`avail, this`fee
      ensures Books() == BrokerCash(config, old(Books()), t)
    {
      var value := t.price * t.volume;
      if t.side == Buy {
        avail := avail - value;
      } else {
        avail := avail + value;
      }
      if config.enableCommission {
        avail := avail - t.commission;
        fee := fee + t.commission;
      }
    }

    method ExecuteSummaryTrade(id: nat, price: real, volume: real)
      requires Valid() && id in orders
      modifies this, positions
      ensures Valid() && State() == Execute(config, old(State()), id, price, volume)
    {
      hide BrokerBook, BrokerCash, Trunc;
      var order := orders[id];
      var trade := SummaryTrade(config, order, price, volume);
      orders := orders[id := order.(volumeLeft := order.volumeLeft - Trunc(trade.volume) as real)];
      if orders[id].volumeLeft == 0.0 {
        UpdateOrderStatus(order.id, Filled);
      } else {
        UpdateOrderStatus(order.id, PartialFilledActive);
      }
      assert orders == old(orders)[id := Executed(order, volume)];
      UpdatePosition(trade);
      UpdateAsset(trade);
      out := out + [Traded(trade)];
    }

    method HandleNoDepthExecution(id: nat, quote: real)
      requires Valid() && id in orders
      modifies this, positions
      ensures Valid() && State() == NoDepth(config, old(State()), id, quote)
    {
      hide Execute;
      var order := orders[id];
      var price;
      if order.priceType == Limit {
        price := order.limitPrice;
      } else {
        price := ApplySlippage(config, quote, order.side);
      }
      if order.side == Buy {
        var required := price * order.volumeLeft;
        if avail < required {
          UpdateOrderStatus(id, Error);
          return;
        }
      }
      ExecuteSummaryTrade(id, price, order.volumeLeft);
    }

    method MatchOrderWithMarketData(id: nat, v: View)
      requires Valid() && id in orders
      modifies this, positions
      ensures Valid() && State() == MatchOrder(config, old(State()), id, v)
      ensures var fills := OrderFills(config, old(State()), id, v.depth);
              v.depth.size != 0 && Volume(fills) > 0.0
              ==> OneTrade(old(out), out)
                  && TradeOf(config, old(orders)[id], Reported(out), Volume(fills), Value(fills))
                  && PaidFor(config, old(Books()), Books(), Reported(out), Value(fills))
    {
      hide Execute, NoDepth, PriceLevels, Fills, Value, Volume, TradeOf, PaidFor, TakenFrom, Priced;
      if v.depth.size != 0 && Volume(OrderFills(config, State(), id, v.depth)) > 0.0 {
        TradeReported(config, State(), id, v);
      }
      if v.depth.size == 0 {
        HandleNoDepthExecution(id, v.quote);
        return;
      }
      var order := orders[id];
      var levels := BuildPriceLevels(v.depth, order.side);
      if levels == [] {
        if order.status == Submitted {
          orders := orders[id := order.(status := Pending)];
        }
        return;
      }
      var executed, weighted, total := MatchLevels(config, order, levels, avail);
      if total > 0.0 {
        ExecuteSummaryTrade(id, weighted / total, total);
      }
    }

    /** One pass over the active orders, in the order of the map; a finished order is erased on the way. */
    method ProcessOrderMatching(market: Market)
      requires Valid()
      modifies this, positions
      ensures Valid() && State() == MatchPass(config, old(State()), market)
    {
      hide MatchOrder;
      var ahead := orders.Keys;
      while ahead != {}
        invariant Valid() && ahead <= orders.Keys
        invariant Visits(config, State(), Ascending(ahead), market) == MatchPass(config, old(State()), market)
      {
        ghost var before := State();
        var id :| id in ahead && forall l | l in ahead :: id <= l;
        assert Ascending(ahead) == [id] + Ascending(ahead - {id});
        ghost var target := Visit(config, before, id, market(id));
        if orders[id].status !in {Filled, Cancelled, Error} {
          MatchKeeps(config, before, id, market(id));
          MatchOrderWithMarketData(id, market(id));
          if orders[id].status in {Filled, Cancelled} {
            orders := orders - {id};
          }
        }
        assert State() == target;
        OthersStay(config, before, id, market(id));
        ahead := ahead - {id};
      }
    }
  }

  lemma MatchKeeps(c: Config, b: Broker, id: nat, v: View)
    requires id in b.orders
    ensures id in MatchOrder(c, b, id, v).orders
  {
    hide BrokerUpdate, Executed, PriceLevels, Fills, Volume, Value;
  }

  lemma OthersStay(c: Config, b: Broker, id: nat, v: View)
    requires id in b.orders
    ensures b.orders.Keys - {id} <= Visit(c, b, id, v).orders.Keys
    ensures Keyed(b) ==> Keyed(Visit(c, b, id, v))
  {
    hide BrokerUpdate, Trunc, PriceLevels, Fills;
  }
}
