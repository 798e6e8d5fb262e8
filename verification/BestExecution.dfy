/** No fill of the same volume would have been better than the one the broker makes, and no
    acceptable volume is left behind. */
module BestExecution {
  import opened Trading
  import opened Matching

  /** The lower, the better: what a buyer pays, or what a seller does not get. */
  function Badness(side: Side, price: real): real {
    if side == Buy then price else -price
  }

  /** The best price comes first, and every level offers something. */
  predicate BestFirst(side: Side, levels: seq<Level>) {
    && (forall i, j | 0 <= i < j < |levels| :: Badness(side, levels[i].price) <= Badness(side, levels[j].price))
    && (forall i | 0 <= i < |levels| :: levels[i].volume > 0.0)
  }

  /** The funds cover every level the loop comes to. */
  predicate Funded(o: Order, priced: seq<Level>, remaining: real, avail: real) {
    priced == [] || remaining <= 0.0 || !CanExecute(o, priced[0].price)
    || var volume := Min(remaining, priced[0].volume);
       FundsSuffice(o, priced[0].price, volume, avail) && Funded(o, priced[1..], remaining - volume, avail)
  }

  /** Everything on offer at an acceptable price, wherever it stands in the book. */
  function Offered(o: Order, priced: seq<Level>): real {
    if priced == [] then 0.0
    else (if CanExecute(o, priced[0].price) then priced[0].volume else 0.0) + Offered(o, priced[1..])
  }

  // ---------- Any other way to fill the order ----------

  /** `xs[i]` is the volume taken from level `i`. */
  predicate Allocation(o: Order, priced: seq<Level>, xs: seq<real>) {
    && |xs| == |priced|
    && forall i | 0 <= i < |xs| :: 0.0 <= xs[i] <= priced[i].volume && (xs[i] > 0.0 ==> CanExecute(o, priced[i].price))
  }

  function Sum(xs: seq<real>): real {
    if xs == [] then 0.0 else xs[0] + Sum(xs[1..])
  }

  function Worth(priced: seq<Level>, xs: seq<real>): real
    requires |xs| == |priced|
  {
    if xs == [] then 0.0 else priced[0].price * xs[0] + Worth(priced[1..], xs[1..])
  }

  // ---------- Sums ----------

  lemma {:induction false} SumsFront(l: Level, fills: seq<Level>)
    ensures Volume([l] + fills) == l.volume + Volume(fills)
    ensures Value([l] + fills) == l.price * l.volume + Value(fills)
  {
    var all := [l] + fills;
    if fills == [] {
      assert all[..0] == [];
    } else {
      assert all[..|all| - 1] == [l] + fills[..|fills| - 1];
      SumsFront(l, fills[..|fills| - 1]);
    }
  }

  lemma BestFirstRest(side: Side, levels: seq<Level>)
    requires BestFirst(side, levels) && levels != []
    ensures BestFirst(side, levels[1..])
    ensures forall i | 0 <= i < |levels[1..]| :: Badness(side, levels[0].price) <= Badness(side, levels[1..][i].price)
  {
  }

  /** Behind a price that is not acceptable there is none that is. */
  lemma NoneAcceptable(o: Order, priced: seq<Level>, i: nat)
    requires BestFirst(o.side, priced) && i < |priced| && !CanExecute(o, priced[0].price)
    ensures !CanExecute(o, priced[i].price)
  {
  }

  lemma {:induction false} NoneOffered(o: Order, priced: seq<Level>)
    requires forall i | 0 <= i < |priced| :: !CanExecute(o, priced[i].price)
    ensures Offered(o, priced) == 0.0
  {
    if priced != [] {
      NoneOffered(o, priced[1..]);
    }
  }

  lemma {:induction false} OfferedPositive(o: Order, priced: seq<Level>)
    requires forall i | 0 <= i < |priced| :: priced[i].volume > 0.0
    ensures Offered(o, priced) >= 0.0
  {
    if priced != [] {
      OfferedPositive(o, priced[1..]);
    }
  }

  // ---------- The theorems ----------

  /** Stopping at the first price that is not acceptable misses nothing: the traded volume is the
      smaller of what was wanted and of all that was offered at acceptable prices. */
  lemma {:induction false} NothingMissed(o: Order, priced: seq<Level>, remaining: real, avail: real)
    requires BestFirst(o.side, priced) && remaining >= 0.0 && Funded(o, priced, remaining, avail)
    ensures Volume(Fills(o, priced, remaining, avail)) == Min(remaining, Offered(o, priced))
    decreases |priced|
  {
    OfferedPositive(o, priced);
    if priced != [] {
      BestFirstRest(o.side, priced);
      if !CanExecute(o, priced[0].price) {
        forall i | 0 <= i < |priced| ensures !CanExecute(o, priced[i].price) {
          NoneAcceptable(o, priced, i);
        }
        NoneOffered(o, priced);
      } else if remaining > 0.0 {
        var volume := Min(remaining, priced[0].volume);
        OfferedPositive(o, priced[1..]);
        NothingMissed(o, priced[1..], remaining - volume, avail);
        SumsFront(Level(priced[0].price, volume), Fills(o, priced[1..], remaining - volume, avail));
      }
    }
  }

  lemma MulSigns(a: real, b: real)
    ensures a <= 0.0 && b <= 0.0 ==> a * b >= 0.0
    ensures a >= 0.0 && b >= 0.0 ==> a * b >= 0.0
  {
  }

  lemma {:induction false} AtLeast(side: Side, priced: seq<Level>, xs: seq<real>, q: real)
    requires |xs| == |priced| && forall i | 0 <= i < |xs| :: xs[i] >= 0.0 && Badness(side, priced[i].price) >= q
    ensures Badness(side, Worth(priced, xs)) >= q * Sum(xs)
    decreases |xs|
  {
    if xs != [] {
      AtLeast(side, priced[1..], xs[1..], q);
      MulSigns(Badness(side, priced[0].price) - q, xs[0]);
    }
  }

  lemma {:induction false} NothingTaken(o: Order, priced: seq<Level>, xs: seq<real>)
    requires Allocation(o, priced, xs) && forall i | 0 <= i < |priced| :: !CanExecute(o, priced[i].price)
    ensures Sum(xs) == 0.0 && Worth(priced, xs) == 0.0
    decreases |xs|
  {
    if xs != [] {
      NothingTaken(o, priced[1..], xs[1..]);
    }
  }

  /** At price `q` per unit, the allocation `xs` pays for the volume by which it differs from `fills`. */
  predicate PaysFor(q: real, side: Side, priced: seq<Level>, xs: seq<real>, fills: seq<Level>)
    requires |xs| == |priced|
  {
    Badness(side, Worth(priced, xs)) - Badness(side, Value(fills)) >= q * (Sum(xs) - Volume(fills))
  }

  lemma PaysForNothing(q: real, side: Side, priced: seq<Level>, xs: seq<real>)
    requires |xs| == |priced| && Badness(side, Worth(priced, xs)) >= q * Sum(xs)
    ensures PaysFor(q, side, priced, xs, [])
  {
    hide Worth, Sum, Value, Volume;
    NoSums();
  }

  lemma Excess(b: real, q: real, x: real, v: real, worth: real, value: real, sum: real, volume: real)
    requires worth - value >= q * (sum - volume) && (b == q || (b < q && x <= v))
    ensures (b * x + worth) - (b * v + value) >= q * ((x + sum) - (v + volume))
  {
    MulSigns(b - q, x - v);
  }

  lemma WorthFront(side: Side, priced: seq<Level>, xs: seq<real>)
    requires |xs| == |priced| > 0
    ensures Badness(side, Worth(priced, xs))
            == Badness(side, priced[0].price) * xs[0] + Badness(side, Worth(priced[1..], xs[1..]))
  {
    hide Worth;
    WorthStep(priced, xs);
    assert (-priced[0].price) * xs[0] == -(priced[0].price * xs[0]);
  }

  lemma WorthStep(priced: seq<Level>, xs: seq<real>)
    requires |xs| == |priced| > 0
    ensures Worth(priced, xs) == priced[0].price * xs[0] + Worth(priced[1..], xs[1..])
  {
  }

  /** Another level in front, of which the fills take `v`. */
  lemma OneLevelMore(q: real, side: Side, priced: seq<Level>, xs: seq<real>, fills: seq<Level>, v: real)
    requires |xs| == |priced| > 0 && PaysFor(q, side, priced[1..], xs[1..], fills)
    requires var b := Badness(side, priced[0].price); b == q || (b < q && xs[0] <= v)
    ensures PaysFor(q, side, priced, xs, [Level(priced[0].price, v)] + fills)
  {
    hide Badness, Worth, Value, Volume;
    var l := Level(priced[0].price, v);
    SumsFront(l, fills);
    WorthFront(side, priced, xs);
    ValueFront(side, l, fills);
    Excess(Badness(side, l.price), q, xs[0], v, Badness(side, Worth(priced[1..], xs[1..])), Badness(side, Value(fills)),
           Sum(xs[1..]), Volume(fills));
  }

  lemma ValueFront(side: Side, l: Level, fills: seq<Level>)
    ensures Badness(side, Value([l] + fills)) == Badness(side, l.price) * l.volume + Badness(side, Value(fills))
  {
    hide Value;
    SumsFront(l, fills);
    assert (-l.price) * l.volume == -(l.price * l.volume);
  }

  /** The badness of the last level that is needed, or `lo` if none is. */
  function Marginal(o: Order, priced: seq<Level>, remaining: real, lo: real): real
    decreases |priced|
  {
    if priced == [] || remaining <= 0.0 || !CanExecute(o, priced[0].price) then lo
    else if remaining <= priced[0].volume then Badness(o.side, priced[0].price)
    else Marginal(o, priced[1..], remaining - Min(remaining, priced[0].volume), Badness(o.side, priced[0].price))
  }

  lemma {:induction false} AtMarginal(o: Order, priced: seq<Level>, remaining: real, avail: real, xs: seq<real>,
                                      lo: real)
    requires BestFirst(o.side, priced) && remaining >= 0.0 && Funded(o, priced, remaining, avail)
    requires Allocation(o, priced, xs) && forall i | 0 <= i < |priced| :: Badness(o.side, priced[i].price) >= lo
    ensures var q := Marginal(o, priced, remaining, lo);
            q >= lo && PaysFor(q, o.side, priced, xs, Fills(o, priced, remaining, avail))
    decreases |priced|
  {
    hide PaysFor, Badness;
    if priced == [] || remaining <= 0.0 {
      AtLeast(o.side, priced, xs, lo);
      PaysForNothing(lo, o.side, priced, xs);
    } else if !CanExecute(o, priced[0].price) {
      forall i | 0 <= i < |priced| ensures !CanExecute(o, priced[i].price) {
        NoneAcceptable(o, priced, i);
      }
      NothingTaken(o, priced, xs);
      NothingPaid(lo, o.side, priced, xs);
    } else {
      var (b, volume) := (Badness(o.side, priced[0].price), Min(remaining, priced[0].volume));
      BestFirstRest(o.side, priced);
      if remaining <= priced[0].volume {
        AtLeast(o.side, priced[1..], xs[1..], b);
        PaysForNothing(b, o.side, priced[1..], xs[1..]);
      } else {
        AtMarginal(o, priced[1..], remaining - volume, avail, xs[1..], b);
      }
      OneLevelMore(Marginal(o, priced, remaining, lo), o.side, priced, xs,
                   Fills(o, priced[1..], remaining - volume, avail), volume);
    }
  }

  /** There is one price `q`, that of the marginal level, at which every allocation pays for the volume by
      which it differs from the fills. */
  lemma MarginalPrice(o: Order, priced: seq<Level>, remaining: real, avail: real, lo: real) returns (q: real)
    requires BestFirst(o.side, priced) && remaining >= 0.0 && Funded(o, priced, remaining, avail)
    requires forall i | 0 <= i < |priced| :: Badness(o.side, priced[i].price) >= lo
    ensures q >= lo && (q == lo || exists i | 0 <= i < |priced| :: q == Badness(o.side, priced[i].price))
    ensures forall xs | Allocation(o, priced, xs) :: PaysFor(q, o.side, priced, xs, Fills(o, priced, remaining, avail))
  {
    hide PaysFor, Badness, BestFirst, Funded, Marginal;
    q := Marginal(o, priced, remaining, lo);
    forall xs | Allocation(o, priced, xs)
      ensures PaysFor(q, o.side, priced, xs, Fills(o, priced, remaining, avail))
    {
      AtMarginal(o, priced, remaining, avail, xs, lo);
    }
    MarginalIsPrice(o, priced, remaining, lo);
    NoAllocation(o, priced);
    AtMarginal(o, priced, remaining, avail, seq(|priced|, _ => 0.0), lo);
  }

  lemma NoAllocation(o: Order, priced: seq<Level>)
    requires BestFirst(o.side, priced)
    ensures Allocation(o, priced, seq(|priced|, _ => 0.0))
  {
  }

  lemma {:induction false} MarginalIsPrice(o: Order, priced: seq<Level>, remaining: real, lo: real)
    ensures var q := Marginal(o, priced, remaining, lo);
            q == lo || exists i | 0 <= i < |priced| :: q == Badness(o.side, priced[i].price)
    decreases |priced|
  {
    hide Badness;
    var q := Marginal(o, priced, remaining, lo);
    if q != lo {
      if remaining <= priced[0].volume {
        assert q == Badness(o.side, priced[0].price);
      } else {
        MarginalIsPrice(o, priced[1..], remaining - Min(remaining, priced[0].volume), Badness(o.side, priced[0].price));
        if q != Badness(o.side, priced[0].price) {
          var i :| 0 <= i < |priced[1..]| && q == Badness(o.side, priced[1..][i].price);
          assert q == Badness(o.side, priced[i + 1].price);
        }
      }
    }
  }

  lemma NothingPaid(q: real, side: Side, priced: seq<Level>, xs: seq<real>)
    requires |xs| == |priced| && Sum(xs) == 0.0 && Worth(priced, xs) == 0.0
    ensures PaysFor(q, side, priced, xs, [])
  {
  }

  /** Best execution: whoever takes the same volume from acceptable levels in any other way pays at
      least as much, or gets at most as much, as the broker's fills. */
  lemma BestExecuted(o: Order, priced: seq<Level>, avail: real, xs: seq<real>)
    requires BestFirst(o.side, priced) && o.volumeLeft >= 0.0 && Funded(o, priced, o.volumeLeft, avail)
    requires Allocation(o, priced, xs) && Sum(xs) == Volume(Fills(o, priced, o.volumeLeft, avail))
    ensures var value := Value(Fills(o, priced, o.volumeLeft, avail));
            if o.side == Buy then value <= Worth(priced, xs) else value >= Worth(priced, xs)
  {
    if priced != [] {
      var q := MarginalPrice(o, priced, o.volumeLeft, avail, Badness(o.side, priced[0].price));
      assert PaysFor(q, o.side, priced, xs, Fills(o, priced, o.volumeLeft, avail));
    }
  }

  /** Slippage does not turn the order of prices round. */
  predicate SlippageOrdered(c: Config, side: Side) {
    !c.enableSlippage || if side == Buy then c.slippageRate >= -1.0 else c.slippageRate <= 1.0
  }

  /** Slippage keeps the order of the levels. */
  lemma {:induction false} PricedBestFirst(c: Config, side: Side, levels: seq<Level>)
    requires BestFirst(side, levels) && SlippageOrdered(c, side)
    ensures BestFirst(side, Priced(c, side, levels))
    ensures |Priced(c, side, levels)| == |levels|
    ensures forall i | 0 <= i < |levels| ::
              Priced(c, side, levels)[i] == Level(ApplySlippage(c, levels[i].price, side), levels[i].volume)
  {
    hide Badness, ApplySlippage, SlippageOrdered;
    if levels != [] {
      BestFirstRest(side, levels);
      PricedBestFirst(c, side, levels[1..]);
      forall i | 0 <= i < |levels|
        ensures Badness(side, ApplySlippage(c, levels[0].price, side))
                <= Badness(side, ApplySlippage(c, levels[i].price, side))
      {
        SlippageKeepsOrder(c, side, levels[0].price, levels[i].price);
      }
    }
  }

  lemma SlippageKeepsOrder(c: Config, side: Side, p: real, p': real)
    requires Badness(side, p) <= Badness(side, p') && SlippageOrdered(c, side)
    ensures Badness(side, ApplySlippage(c, p, side)) <= Badness(side, ApplySlippage(c, p', side))
  {
    MulSigns(p' - p, 1.0 + c.slippageRate);
    MulSigns(p - p', 1.0 - c.slippageRate);
    MulSigns(p - p', -(1.0 - c.slippageRate));
  }

  /** It keeps the order of every two prices exactly if it is off or its rate does not turn it round. */
  lemma SlippageOrderedIff(c: Config, side: Side)
    ensures (forall p, p' {:trigger ApplySlippage(c, p, side), ApplySlippage(c, p', side)} ::
               Badness(side, p) <= Badness(side, p')
               ==> Badness(side, ApplySlippage(c, p, side)) <= Badness(side, ApplySlippage(c, p', side)))
            <==> SlippageOrdered(c, side)
  {
    if SlippageOrdered(c, side) {
      forall p, p' | Badness(side, p) <= Badness(side, p')
        ensures Badness(side, ApplySlippage(c, p, side)) <= Badness(side, ApplySlippage(c, p', side))
      {
        SlippageKeepsOrder(c, side, p, p');
      }
    } else {
      var p, p' := if side == Buy then 1.0 else 2.0, if side == Buy then 2.0 else 1.0;
      assert Badness(side, ApplySlippage(c, p, side)) > Badness(side, ApplySlippage(c, p', side));
    }
  }

  // ---------- From a sorted book ----------

  /** The shown prices an order meets. */
  function ShownPrices(d: Depth, side: Side): seq<real>
    requires ValidDepth(d)
  {
    if side == Buy then d.askPrice[..Shown(d)] else d.bidPrice[..Shown(d)]
  }

  predicate SortedDepth(d: Depth, side: Side)
    requires ValidDepth(d)
  {
    var prices := ShownPrices(d, side);
    forall i, j | 0 <= i < j < |prices| :: Badness(side, prices[i]) <= Badness(side, prices[j])
  }

  lemma {:induction false} UsableFrom(prices: seq<real>, volumes: seq<real>, i: nat)
    requires |prices| == |volumes| && i < |Usable(prices, volumes)|
    ensures Usable(prices, volumes)[i].volume > 0.0
    ensures exists k | 0 <= k < |prices| :: Usable(prices, volumes)[i].price == prices[k]
  {
    var n := |prices| - 1;
    var front := Usable(prices[..n], volumes[..n]);
    if i < |front| {
      UsableFrom(prices[..n], volumes[..n], i);
      var k :| 0 <= k < n && front[i].price == prices[..n][k];
      assert Usable(prices, volumes)[i].price == prices[k];
    } else {
      assert Usable(prices, volumes)[i].price == prices[n];
    }
  }

  lemma {:induction false} UsableBestFirst(side: Side, prices: seq<real>, volumes: seq<real>)
    requires |prices| == |volumes| && forall i, j | 0 <= i < j < |prices| ::
               Badness(side, prices[i]) <= Badness(side, prices[j])
    ensures BestFirst(side, Usable(prices, volumes))
  {
    hide Badness;
    if prices != [] {
      var n := |prices| - 1;
      var front := Usable(prices[..n], volumes[..n]);
      UsableBestFirst(side, prices[..n], volumes[..n]);
      forall i | 0 <= i < |front|
        ensures Badness(side, front[i].price) <= Badness(side, prices[n])
      {
        UsableFrom(prices[..n], volumes[..n], i);
        var k :| 0 <= k < n && front[i].price == prices[..n][k];
      }
    }
  }

  /** What an order pays at the levels of a sorted book is best first. */
  lemma BookBestFirst(c: Config, d: Depth, side: Side)
    requires ValidDepth(d) && SortedDepth(d, side) && SlippageOrdered(c, side)
    ensures BestFirst(side, Priced(c, side, PriceLevels(d, side)))
  {
    hide SlippageOrdered, BestFirst, Usable;
    var n := Shown(d);
    UsableBestFirst(side, ShownPrices(d, side), if side == Buy then d.askVolume[..n] else d.bidVolume[..n]);
    PricedBestFirst(c, side, PriceLevels(d, side));
  }

  // ---------- The limit ----------

  lemma {:induction false} FillsKeepLimit(o: Order, priced: seq<Level>, remaining: real, avail: real, i: nat)
    requires forall k | 0 <= k < |priced| :: priced[k].volume > 0.0
    requires i < |Fills(o, priced, remaining, avail)|
    ensures var fill := Fills(o, priced, remaining, avail)[i];
            CanExecute(o, fill.price) && fill.volume > 0.0
    decreases |priced|
  {
    var volume := Min(remaining, priced[0].volume);
    if !FundsSuffice(o, priced[0].price, volume, avail) {
      FillsKeepLimit(o, priced[1..], remaining, avail, i);
    } else if i > 0 {
      FillsKeepLimit(o, priced[1..], remaining - volume, avail, i - 1);
    }
  }

  lemma {:induction false} ValueKeepsLimit(o: Order, fills: seq<Level>)
    requires o.priceType == Limit
    requires forall i | 0 <= i < |fills| :: CanExecute(o, fills[i].price) && fills[i].volume > 0.0
    ensures Volume(fills) >= 0.0 && (fills != [] ==> Volume(fills) > 0.0)
    ensures if o.side == Buy then Value(fills) <= o.limitPrice * Volume(fills)
            else Value(fills) >= o.limitPrice * Volume(fills)
  {
    hide Value, Volume;
    if fills == [] {
      NoSums();
    } else {
      var last, front := fills[|fills| - 1], fills[..|fills| - 1];
      ValueKeepsLimit(o, front);
      assert fills == front + [last];
      SumsOn(front, last);
      LimitOn(o.limitPrice, last.price, last.volume, Value(front), Volume(front));
    }
  }

  lemma LimitOn(limit: real, price: real, v: real, value: real, volume: real)
    requires v >= 0.0
    ensures price <= limit && value <= limit * volume ==> value + price * v <= limit * (volume + v)
    ensures price >= limit && value >= limit * volume ==> value + price * v >= limit * (volume + v)
  {
    MulSigns(limit - price, v);
    MulSigns(price - limit, v);
  }

  /** Slippage never makes a price better for the order exactly when it is off or its rate is not negative. */
  lemma SlippageWorsensIff(c: Config, side: Side, price: real)
    requires price > 0.0
    ensures Badness(side, ApplySlippage(c, price, side)) >= Badness(side, price)
            <==> !c.enableSlippage || c.slippageRate >= 0.0
  {
    var more := price * c.slippageRate;
    MulSigns(price, c.slippageRate);
    if more >= 0.0 && c.slippageRate < 0.0 {
      NegativeProduct(price, c.slippageRate);
    }
    assert price * (1.0 + c.slippageRate) == price + more && price * (1.0 - c.slippageRate) == price - more;
  }

  lemma NegativeProduct(a: real, b: real)
    requires a > 0.0 && b < 0.0
    ensures a * b < 0.0
  {
  }

  /** The volume-weighted price of a limit order never breaches its limit, whatever the book, the slippage and the
      funds. */
  lemma AveragePriceKeepsLimit(o: Order, priced: seq<Level>, avail: real)
    requires o.priceType == Limit && forall k | 0 <= k < |priced| :: priced[k].volume > 0.0
    requires Fills(o, priced, o.volumeLeft, avail) != []
    ensures var fills := Fills(o, priced, o.volumeLeft, avail);
            && Volume(fills) > 0.0
            && CanExecute(o, Value(fills) / Volume(fills))
  {
    hide Fills, Value, Volume;
    var fills := Fills(o, priced, o.volumeLeft, avail);
    forall i | 0 <= i < |fills| ensures CanExecute(o, fills[i].price) && fills[i].volume > 0.0 {
      FillsKeepLimit(o, priced, o.volumeLeft, avail, i);
    }
    ValueKeepsLimit(o, fills);
    DivideBound(Value(fills), Volume(fills), o.limitPrice);
  }

  lemma DivideBound(a: real, v: real, limit: real)
    requires v > 0.0
    ensures a <= limit * v ==> a / v <= limit
    ensures a >= limit * v ==> a / v >= limit
  {
    assert (a / v) * v == a;
    MulSigns(a / v - limit, v);
  }
}
