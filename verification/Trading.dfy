/** Orders, trades and positions, and the pure parts of the simulated broker. */
module Trading {

  /** Every side but `Buy` and `Sell` is one of the exotic ones. */
  datatype Side = Buy | Sell | OtherSide
  datatype Offset = OpenOffset | CloseOffset
  datatype PriceType = Limit | Market
  datatype Status = Submitted | Pending | PartialFilledActive | Cancelled | Error | Filled

  /** `instrument` is the 32-bit hash under which positions are filed. */
  datatype Order = Order(id: nat, instrument: nat, side: Side, offset: Offset, priceType: PriceType,
                         limitPrice: real, volume: real, volumeLeft: real, status: Status)

  datatype Trade = Trade(orderId: nat, instrument: nat, side: Side, offset: Offset,
                         price: real, volume: real, commission: real, tax: real)

  datatype Level = Level(price: real, volume: real)

  datatype Config = Config(commissionRate: real, slippageRate: real, enableSlippage: bool, enableCommission: bool)

  const MIN_VALID_PRICE := 0.000001
  const MIN_VALID_VOLUME := 0.000001
  const MAX_DEPTH_LEVELS: nat := 20

  function Min(a: real, b: real): real {
    if a <= b then a else b
  }

  /** Conversion to a 64-bit integer drops the fraction. */
  function Trunc(x: real): int {
    if x >= 0.0 then x.Floor else -(-x).Floor
  }

  predicate IsInt(x: real) {
    x == x.Floor as real
  }

  function ApplySlippage(c: Config, price: real, side: Side): real {
    if !c.enableSlippage then price
    else if side == Buy then price * (1.0 + c.slippageRate)
    else price * (1.0 - c.slippageRate)
  }

  predicate CanExecute(o: Order, price: real) {
    o.priceType == Limit ==> if o.side == Buy then price <= o.limitPrice else price >= o.limitPrice
  }

  predicate FundsSuffice(o: Order, price: real, volume: real, avail: real) {
    o.side == Buy ==> avail >= price * volume
  }

  /** The trade that sums up the fills of one order. */
  function SummaryTrade(c: Config, o: Order, price: real, volume: real): Trade {
    Trade(o.id, o.instrument, o.side, o.offset, price, volume,
          if c.enableCommission then price * volume * c.commissionRate else 0.0, 0.0)
  }

  lemma FloorOfInt(n: int)
    ensures (n as real).Floor == n
  {
  }

  /** Nothing but the fraction is lost, on both sides of zero. */
  lemma TruncTowardZero(x: real)
    ensures Trunc(-x) == -Trunc(x)
    ensures x >= 0.0 ==> Trunc(x) as real <= x < Trunc(x) as real + 1.0
  {
  }

  lemma TruncInt(x: real)
    ensures Trunc(x) as real == x <==> IsInt(x)
  {
    FloorOfInt(Trunc(x));
    if IsInt(x) {
      FloorOfInt(-x.Floor);
      assert -x == (-x.Floor) as real;
    }
  }
}
