/** Two ledgers kept from the same trades: the broker's cash and positions, and the strategy's book. */
module Ledger {
  import opened Trading

  datatype Position = Position(volume: real, cost: real)

  type Positions = map<nat, Position>

  /** Cash, fees, and the positions of either direction by instrument. */
  datatype Account = Account(avail: real, fee: real, longs: Positions, shorts: Positions)

  /** The average cost of a position with a trade added, over a given total volume. */
  function Average(p: Position, t: Trade, total: real): real
    requires total != 0.0
  {
    (p.volume * p.cost + t.volume * t.price) / total
  }

  // ---------- The broker ----------

  /** `update_existing_position`: the new average price, unless nothing is left to average over. */
  function Extended(p: Position, t: Trade): Position {
    var total := p.volume + t.volume;
    Position(total, if total > 0.0 then Average(p, t, total) else p.cost)
  }

  function BrokerPosition(ps: Positions, t: Trade): Positions {
    ps[t.instrument := if t.instrument in ps then Extended(ps[t.instrument], t) else Position(t.volume, t.price)]
  }

  /** Buys go to the long side; everything else, offsets notwithstanding, to the short side. */
  function BrokerBook(a: Account, t: Trade): Account {
    if t.side == Buy then a.(longs := BrokerPosition(a.longs, t)) else a.(shorts := BrokerPosition(a.shorts, t))
  }

  function BrokerCash(c: Config, a: Account, t: Trade): Account {
    var value := t.price * t.volume;
    var avail := if t.side == Buy then a.avail - value else a.avail + value;
    if c.enableCommission then a.(avail := avail - t.commission, fee := a.fee + t.commission) else a.(avail := avail)
  }

  function BrokerUpdate(c: Config, a: Account, t: Trade): Account {
    BrokerCash(c, BrokerBook(a, t), t)
  }

  // ---------- The strategy's book ----------

  /** The average is taken over the total truncated to an integer, also when the trade reduces the position. */
  function BookCost(p: Position, t: Trade): real {
    var total := Trunc(p.volume + t.volume);
    if total > 0 then Average(p, t, total as real) else p.cost
  }

  function BookPosition(ps: Positions, t: Trade): Positions {
    if t.instrument !in ps then ps[t.instrument := Position(t.volume, t.price)]
    else
      var p := ps[t.instrument];
      var cost := BookCost(p, t);
      if t.offset == OpenOffset then ps[t.instrument := Position(p.volume + t.volume, cost)]
      else if p.volume - t.volume <= 0.0 then ps - {t.instrument}
      else ps[t.instrument := Position(p.volume - t.volume, cost)]
  }

  function BookPositions(a: Account, t: Trade): Account {
    match t.side
    case Buy =>
      if t.offset == OpenOffset then a.(longs := BookPosition(a.longs, t)) else a.(shorts := BookPosition(a.shorts, t))
    case Sell =>
      if t.offset == OpenOffset then a.(shorts := BookPosition(a.shorts, t)) else a.(longs := BookPosition(a.longs, t))
    case OtherSide => a
  }

  function BookCash(a: Account, t: Trade): Account {
    var value := t.price * t.volume;
    var avail := match t.side
                 case Buy => a.avail - value
                 case Sell => a.avail + value
                 case OtherSide => a.avail;
    a.(avail := avail - t.commission - t.tax)
  }

  function BookUpdate(a: Account, t: Trade): Account {
    BookCash(BookPositions(a, t), t)
  }

  // ---------- The books balance ----------

  function PositionValue(p: Position): real {
    p.volume * p.cost
  }

  ghost function TotalValue(ps: Positions): real {
    if ps == map[] then 0.0
    else
      var k :| k in ps;
      PositionValue(ps[k]) + TotalValue(ps - {k})
  }

  /** Cash and fees, and what the positions have cost. */
  ghost function Equity(a: Account): real {
    a.avail + a.fee + TotalValue(a.longs) - TotalValue(a.shorts)
  }

  lemma {:induction false} TotalWithout(ps: Positions, k: nat)
    requires k in ps
    ensures TotalValue(ps) == PositionValue(ps[k]) + TotalValue(ps - {k})
    decreases |ps|
  {
    hide PositionValue;
    var l :| l in ps && TotalValue(ps) == PositionValue(ps[l]) + TotalValue(ps - {l});
    if l != k {
      TotalWithout(ps - {l}, k);
      TotalWithout(ps - {k}, l);
      assert ps - {l} - {k} == ps - {k} - {l};
    }
  }

  lemma TotalUpdated(ps: Positions, k: nat, p: Position)
    ensures TotalValue(ps[k := p]) - TotalValue(ps) == PositionValue(p) - if k in ps then PositionValue(ps[k]) else 0.0
  {
    hide PositionValue, TotalValue;
    TotalWithout(ps[k := p], k);
    if k in ps {
      TotalWithout(ps, k);
      assert ps[k := p] - {k} == ps - {k};
    } else {
      assert ps[k := p] - {k} == ps;
    }
  }

  lemma Quotient(a: real, b: real)
    requires b != 0.0
    ensures (a / b) * b == a && b * (a / b) == a
  {
  }

  /** Averaging in a trade books its value exactly when something is left to average over, or the
      price paid is the average already, or the trade is empty. */
  lemma ExtendedValueIff(p: Position, t: Trade)
    ensures PositionValue(Extended(p, t)) == PositionValue(p) + t.volume * t.price
            <==> p.volume + t.volume > 0.0 || t.volume * (p.cost - t.price) == 0.0
  {
    var total := p.volume + t.volume;
    if total > 0.0 {
      Quotient(p.volume * p.cost + t.volume * t.price, total);
    } else {
      assert total * p.cost == p.volume * p.cost + t.volume * p.cost;
    }
  }

  function SideOf(a: Account, t: Trade): Positions {
    if t.side == Buy then a.longs else a.shorts
  }

  /** When the value of a trade is booked in full: a position is opened, or extended to more than nothing,
      or the price paid is the average already, or the trade is empty. */
  predicate Booked(ps: Positions, t: Trade) {
    t.instrument in ps ==>
      ps[t.instrument].volume + t.volume > 0.0 || t.volume * (ps[t.instrument].cost - t.price) == 0.0
  }

  lemma BookedIff(ps: Positions, t: Trade)
    ensures TotalValue(BrokerPosition(ps, t)) == TotalValue(ps) + t.price * t.volume <==> Booked(ps, t)
  {
    hide TotalValue, Extended;
    TotalUpdated(ps, t.instrument, BrokerPosition(ps, t)[t.instrument]);
    if t.instrument in ps {
      ExtendedValueIff(ps[t.instrument], t);
    }
  }

  /** A trade leaves the books balanced exactly when its value is booked in full. */
  lemma BalancedIff(c: Config, a: Account, t: Trade)
    ensures Equity(BrokerUpdate(c, a, t)) == Equity(a) <==> Booked(SideOf(a, t), t)
  {
    hide TotalValue, BrokerPosition, Booked;
    BookedIff(SideOf(a, t), t);
  }

  // ---------- The ledgers agree ----------

  /** The cash of both ledgers changes by the same amount exactly when the side is one that both know, or no money
      moves. */
  lemma CashAgreesIff(c: Config, a: Account, b: Account, o: Order, price: real, volume: real)
    ensures var t := SummaryTrade(c, o, price, volume);
            BookUpdate(b, t).avail - b.avail == BrokerUpdate(c, a, t).avail - a.avail
            <==> t.side != OtherSide || t.price * t.volume == 0.0
  {
  }

  predicate SamePositions(a: Account, b: Account) {
    a.longs == b.longs && a.shorts == b.shorts
  }

  predicate WholePositions(ps: Positions) {
    forall k | k in ps :: IsInt(ps[k].volume) && ps[k].volume > 0.0
  }

  predicate WholeTrade(t: Trade) {
    IsInt(t.volume) && t.volume > 0.0 && (t.side == Buy || t.side == Sell)
  }

  lemma SumIsInt(x: real, y: real)
    requires IsInt(x) && IsInt(y)
    ensures IsInt(x + y)
  {
    FloorOfInt(x.Floor + y.Floor);
    assert x + y == (x.Floor + y.Floor) as real;
  }

  lemma SamePosition(ps: Positions, t: Trade)
    requires WholePositions(ps) && IsInt(t.volume) && t.volume > 0.0 && t.offset == OpenOffset
    ensures BookPosition(ps, t) == BrokerPosition(ps, t) && WholePositions(BrokerPosition(ps, t))
  {
    if t.instrument in ps {
      SumIsInt(ps[t.instrument].volume, t.volume);
      TruncInt(ps[t.instrument].volume + t.volume);
    }
  }

  lemma OffsetIgnored(ps: Positions, t: Trade)
    ensures BrokerPosition(ps, t) == BrokerPosition(ps, t.(offset := OpenOffset))
    ensures t.instrument in BrokerPosition(ps, t)
    ensures BrokerPosition(ps, t)[t.instrument].volume
            == t.volume + if t.instrument in ps then ps[t.instrument].volume else 0.0
  {
    if t.instrument in ps {
      var p := ps[t.instrument];
      var total := p.volume + t.volume;
      assert total > 0.0 ==> Average(p, t, total) == Average(p, t.(offset := OpenOffset), total);
    }
  }

  /** Two ledgers with the same whole positions still have the same positions after a whole trade
      exactly when the trade opens: the broker does not look at the offset. */
  lemma PositionsAgreeIff(c: Config, a: Account, b: Account, t: Trade)
    requires SamePositions(a, b) && WholePositions(a.longs) && WholePositions(a.shorts) && WholeTrade(t)
    ensures SamePositions(BrokerUpdate(c, a, t), BookUpdate(b, t)) <==> t.offset == OpenOffset
    ensures WholePositions(BrokerUpdate(c, a, t).longs) && WholePositions(BrokerUpdate(c, a, t).shorts)
  {
    hide BookPosition, BrokerPosition;
    var ps := SideOf(a, t);
    OffsetIgnored(ps, t);
    SamePosition(ps, t.(offset := OpenOffset));
    assert t.offset == OpenOffset ==> t.(offset := OpenOffset) == t;
  }

  function BrokerRun(c: Config, a: Account, ts: seq<Trade>): Account
    decreases |ts|
  {
    if ts == [] then a else BrokerRun(c, BrokerUpdate(c, a, ts[0]), ts[1..])
  }

  function BookRun(b: Account, ts: seq<Trade>): Account
    decreases |ts|
  {
    if ts == [] then b else BookRun(BookUpdate(b, ts[0]), ts[1..])
  }

  /** Fees and taxes as the broker charges them. */
  predicate Charged(c: Config, t: Trade) {
    t.tax == 0.0 && (!c.enableCommission ==> t.commission == 0.0)
  }

  /** Over any sequence of buys and sells the strategy's cash moves with the broker's, and if every trade
      opens a whole volume, both position books stay the same: keys, volumes and average costs. */
  lemma {:induction false} LedgersAgree(c: Config, a: Account, b: Account, ts: seq<Trade>)
    requires forall t | t in ts :: Charged(c, t) && (t.side == Buy || t.side == Sell)
    ensures BookRun(b, ts).avail - b.avail == BrokerRun(c, a, ts).avail - a.avail
    ensures SamePositions(a, b) && WholePositions(a.longs) && WholePositions(a.shorts)
            && (forall t | t in ts :: WholeTrade(t) && t.offset == OpenOffset)
            ==> SamePositions(BrokerRun(c, a, ts), BookRun(b, ts))
    decreases |ts|
  {
    hide BookPositions, BrokerBook, WholePositions, WholeTrade;
    if ts != [] {
      var t := ts[0];
      LedgersAgree(c, BrokerUpdate(c, a, t), BookUpdate(b, t), ts[1..]);
      CashMoves(c, a, b, t);
      if SamePositions(a, b) && WholePositions(a.longs) && WholePositions(a.shorts) && WholeTrade(t) {
        PositionsAgreeIff(c, a, b, t);
      }
    }
  }

  lemma CashMoves(c: Config, a: Account, b: Account, t: Trade)
    requires Charged(c, t) && (t.side == Buy || t.side == Sell)
    ensures BookUpdate(b, t).avail - b.avail == BrokerUpdate(c, a, t).avail - a.avail
  {
  }

  // ---------- What the strategy holds ----------

  function VolumeOf(ps: Positions, k: nat): real {
    if k in ps then ps[k].volume else 0.0
  }

  /** So much was added to the position `k`, and no other was touched. */
  predicate PutOn(before: Positions, after: Positions, k: nat, volume: real) {
    && after.Keys == before.Keys + {k}
    && after[k].volume == VolumeOf(before, k) + volume
    && forall l | l in before && l != k :: after[l] == before[l]
  }

  /** So much was taken off the position `k`, which is gone if nothing is left, and no other was touched. */
  predicate TakenOff(before: Positions, after: Positions, k: nat, volume: real) {
    && after.Keys == (if VolumeOf(before, k) > volume then before.Keys else before.Keys - {k})
    && (VolumeOf(before, k) > volume ==> k in after && after[k].volume == before[k].volume - volume)
    && forall l | l in before && l != k :: after[l] == before[l]
  }

  /** Buys open long positions and close short ones, sells the other way round. */
  predicate IsLong(t: Trade) {
    if t.offset == OpenOffset then t.side == Buy else t.side == Sell
  }

  function Holding(a: Account, long: bool): Positions {
    if long then a.longs else a.shorts
  }

  /** What a trade does to the positions of its direction and of the other one: opened volume is put on, closed volume
      is taken off where something is held, and an attempt to close what is not held opens a position. */
  lemma OpenedAndClosed(a: Account, t: Trade)
    requires t.side != OtherSide
    ensures Holding(BookPositions(a, t), !IsLong(t)) == Holding(a, !IsLong(t))
    ensures var before, after := Holding(a, IsLong(t)), Holding(BookPositions(a, t), IsLong(t));
            if t.offset == OpenOffset || t.instrument !in before then PutOn(before, after, t.instrument, t.volume)
            else TakenOff(before, after, t.instrument, t.volume)
  {
    hide Average, Trunc;
  }

  /** A side that is neither buy nor sell leaves the positions alone. */
  lemma OtherSideHeld(a: Account, t: Trade)
    requires t.side == OtherSide
    ensures BookPositions(a, t) == a
  {
  }

  /** What is left behind a trade of whole volumes has the volume-weighted average of the position and the trade for its
      cost, also when the trade closes; a new position has the price of the trade. */
  lemma CostIsAverage(ps: Positions, t: Trade)
    requires WholePositions(ps) && IsInt(t.volume) && t.volume > 0.0 && t.instrument in BookPosition(ps, t)
    ensures var cost := BookPosition(ps, t)[t.instrument].cost;
            if t.instrument in ps then
              cost * (ps[t.instrument].volume + t.volume)
              == ps[t.instrument].volume * ps[t.instrument].cost + t.volume * t.price
            else cost == t.price
  {
    if t.instrument in ps {
      var p := ps[t.instrument];
      SumIsInt(p.volume, t.volume);
      TruncInt(p.volume + t.volume);
      Quotient(p.volume * p.cost + t.volume * t.price, p.volume + t.volume);
    }
  }

  /** The volume the trades opened or closed on one side of one instrument. */
  function Moved(ts: seq<Trade>, offset: Offset, long: bool, k: nat): real {
    if ts == [] then 0.0
    else
      var t := ts[|ts| - 1];
      Moved(ts[..|ts| - 1], offset, long, k)
      + if t.side != OtherSide && t.offset == offset && IsLong(t) == long && t.instrument == k then t.volume else 0.0
  }

  /** No trade closes more than is held, reckoned from the trades alone. */
  predicate ClosesWhatIsHeld(ts: seq<Trade>) {
    forall n | 0 <= n < |ts| && ts[n].side != OtherSide && ts[n].offset == CloseOffset ::
      var (long, k) := (IsLong(ts[n]), ts[n].instrument);
      ts[n].volume <= Moved(ts[..n], OpenOffset, long, k) - Moved(ts[..n], CloseOffset, long, k)
  }

  lemma {:induction false} BookRunOn(b: Account, ts: seq<Trade>, t: Trade)
    ensures BookRun(b, ts + [t]) == BookUpdate(BookRun(b, ts), t)
    decreases |ts|
  {
    hide BookUpdate;
    if ts == [] {
      assert ts + [t] == [t] && [t][1..] == [];
    } else {
      BookRunOn(BookUpdate(b, ts[0]), ts[1..], t);
      assert (ts + [t])[1..] == ts[1..] + [t];
    }
  }

  /** The position is there exactly if something is held, and then holds just that. */
  predicate Holds(ps: Positions, k: nat, volume: real) {
    (k in ps <==> volume > 0.0) && VolumeOf(ps, k) == volume
  }

  lemma HoldsOn(a: Account, t: Trade, ts: seq<Trade>, long: bool, k: nat)
    requires t.volume > 0.0
    requires forall long, k ::
               Holds(Holding(a, long), k, Moved(ts, OpenOffset, long, k) - Moved(ts, CloseOffset, long, k))
    requires t.side != OtherSide && t.offset == CloseOffset ==>
               t.volume <= Moved(ts, OpenOffset, IsLong(t), t.instrument)
                           - Moved(ts, CloseOffset, IsLong(t), t.instrument)
    ensures Holds(Holding(BookUpdate(a, t), long), k,
                  Moved(ts + [t], OpenOffset, long, k) - Moved(ts + [t], CloseOffset, long, k))
  {
    hide BookPositions;
    assert (ts + [t])[..|ts|] == ts;
    assert Holds(Holding(a, long), k, Moved(ts, OpenOffset, long, k) - Moved(ts, CloseOffset, long, k));
    if t.side == OtherSide {
      OtherSideHeld(a, t);
    } else {
      OpenedAndClosed(a, t);
    }
  }

  /** Over any sequence of trades of positive volume that never closes more than is held, what the strategy's book has
      on each side of each instrument is what was opened less what was closed, and a position that came to nothing
      is gone. */
  lemma {:induction false} HeldIsOpenedLessClosed(avail: real, ts: seq<Trade>, long: bool, k: nat)
    requires (forall t | t in ts :: t.volume > 0.0) && ClosesWhatIsHeld(ts)
    ensures Holds(Holding(BookRun(Account(avail, 0.0, map[], map[]), ts), long), k,
                  Moved(ts, OpenOffset, long, k) - Moved(ts, CloseOffset, long, k))
  {
    hide BookUpdate, Holds;
    var start := Account(avail, 0.0, map[], map[]);
    if ts == [] {
      NothingHeld(start, long, k);
    } else {
      var front, t := ts[..|ts| - 1], ts[|ts| - 1];
      assert ts == front + [t];
      FrontCloses(ts);
      forall long, k
        ensures Holds(Holding(BookRun(start, front), long), k,
                      Moved(front, OpenOffset, long, k) - Moved(front, CloseOffset, long, k))
      {
        HeldIsOpenedLessClosed(avail, front, long, k);
      }
      BookRunOn(start, front, t);
      HoldsOn(BookRun(start, front), t, front, long, k);
    }
  }

  lemma NothingHeld(a: Account, long: bool, k: nat)
    requires a.longs == map[] && a.shorts == map[]
    ensures Holds(Holding(a, long), k, Moved([], OpenOffset, long, k) - Moved([], CloseOffset, long, k))
  {
  }

  lemma FrontCloses(ts: seq<Trade>)
    requires ts != [] && ClosesWhatIsHeld(ts)
    ensures ClosesWhatIsHeld(ts[..|ts| - 1])
    ensures var t := ts[|ts| - 1];
            t.side != OtherSide && t.offset == CloseOffset ==>
              t.volume <= Moved(ts[..|ts| - 1], OpenOffset, IsLong(t), t.instrument)
                          - Moved(ts[..|ts| - 1], CloseOffset, IsLong(t), t.instrument)
  {
    hide Moved;
    var front := ts[..|ts| - 1];
    forall n | 0 <= n < |front| && front[n].side != OtherSide && front[n].offset == CloseOffset
      ensures front[n].volume <= Moved(front[..n], OpenOffset, IsLong(front[n]), front[n].instrument)
                                 - Moved(front[..n], CloseOffset, IsLong(front[n]), front[n].instrument)
    {
      assert front[n] == ts[n] && front[..n] == ts[..n];
    }
  }

  // ---------- The strategy's cash ----------

  /** What a trade brought in, or cost if negative, commission and tax taken off. */
  function Income(t: Trade): real {
    (if t.side == Sell then t.price * t.volume else if t.side == Buy then -(t.price * t.volume) else 0.0)
    - (t.commission + t.tax)
  }

  function Proceeds(ts: seq<Trade>): real {
    if ts == [] then 0.0 else Proceeds(ts[..|ts| - 1]) + Income(ts[|ts| - 1])
  }

  lemma CashOfOne(b: Account, t: Trade)
    ensures BookUpdate(b, t).avail == b.avail + Income(t) && BookUpdate(b, t).fee == b.fee
  {
    hide BookPosition;
  }

  /** Over any trades the strategy's cash is what it began with and what the trades brought in; the fees of the broker
      are no part of this book. */
  lemma {:induction false} CashIsProceeds(b: Account, ts: seq<Trade>)
    ensures BookRun(b, ts).avail == b.avail + Proceeds(ts) && BookRun(b, ts).fee == b.fee
  {
    hide BookUpdate, Income;
    if ts != [] {
      var front, t := ts[..|ts| - 1], ts[|ts| - 1];
      assert ts == front + [t];
      CashIsProceeds(b, front);
      BookRunOn(b, front, t);
      CashOfOne(BookRun(b, front), t);
    }
  }
}
