/** Matching one order against the levels of a book: the loop, what it fills, and why no other
    way of filling the order would have been better. */
module Matching {
  import opened Trading

  // ---------- Which levels there are ----------

  datatype Depth = Depth(size: nat, askPrice: seq<real>, askVolume: seq<real>, bidPrice: seq<real>,
                         bidVolume: seq<real>)

  predicate ValidDepth(d: Depth) {
    |d.askPrice| == |d.askVolume| == |d.bidPrice| == |d.bidVolume| == MAX_DEPTH_LEVELS
  }

  function Usable(prices: seq<real>, volumes: seq<real>): seq<Level>
    requires |prices| == |volumes|
  {
    if prices == [] then []
    else
      var n := |prices| - 1;
      Usable(prices[..n], volumes[..n])
      + if prices[n] > MIN_VALID_PRICE && volumes[n] > MIN_VALID_VOLUME then [Level(prices[n], volumes[n])] else []
  }

  function Shown(d: Depth): nat {
    if d.size < MAX_DEPTH_LEVELS then d.size else MAX_DEPTH_LEVELS
  }

  /** A buy order meets the asks, every other order the bids. */
  function PriceLevels(d: Depth, side: Side): seq<Level>
    requires ValidDepth(d)
  {
    if side == Buy then Usable(d.askPrice[..Shown(d)], d.askVolume[..Shown(d)])
    else Usable(d.bidPrice[..Shown(d)], d.bidVolume[..Shown(d)])
  }

  method BuildPriceLevels(d: Depth, side: Side) returns (levels: seq<Level>)
    requires ValidDepth(d)
    ensures levels == PriceLevels(d, side)
  {
    levels := [];
    var prices := if side == Buy then d.askPrice else d.bidPrice;
    var volumes := if side == Buy then d.askVolume else d.bidVolume;
    var i := 0;
    while i < d.size && i < MAX_DEPTH_LEVELS
      invariant i <= Shown(d)
      invariant levels == Usable(prices[..i], volumes[..i])
    {
      assert prices[..i + 1][..i] == prices[..i] && volumes[..i + 1][..i] == volumes[..i];
      if prices[i] > MIN_VALID_PRICE && volumes[i] > MIN_VALID_VOLUME {
        levels := levels + [Level(prices[i], volumes[i])];
      }
      i := i + 1;
    }
  }

  // ---------- The fills ----------

  /** The levels at the prices the order would pay, slippage included. */
  function Priced(c: Config, side: Side, levels: seq<Level>): seq<Level> {
    if levels == [] then []
    else [Level(ApplySlippage(c, levels[0].price, side), levels[0].volume)] + Priced(c, side, levels[1..])
  }

  /** From the best level on, as much as each offers, until the order is filled or a price is not
      acceptable; a level that the funds do not cover is passed over. */
  function Fills(o: Order, priced: seq<Level>, remaining: real, avail: real): seq<Level> {
    if priced == [] || remaining <= 0.0 || !CanExecute(o, priced[0].price) then []
    else
      var volume := Min(remaining, priced[0].volume);
      if FundsSuffice(o, priced[0].price, volume, avail)
      then [Level(priced[0].price, volume)] + Fills(o, priced[1..], remaining - volume, avail)
      else Fills(o, priced[1..], remaining, avail)
  }

  function Volume(fills: seq<Level>): real {
    if fills == [] then 0.0 else Volume(fills[..|fills| - 1]) + fills[|fills| - 1].volume
  }

  function Value(fills: seq<Level>): real {
    if fills == [] then 0.0
    else Value(fills[..|fills| - 1]) + fills[|fills| - 1].price * fills[|fills| - 1].volume
  }

  lemma PricedAt(c: Config, side: Side, levels: seq<Level>)
    requires levels != []
    ensures Priced(c, side, levels)[1..] == Priced(c, side, levels[1..])
  {
  }

  lemma NoSums()
    ensures Volume([]) == 0.0 && Value([]) == 0.0
  {
  }

  lemma SumsOn(fills: seq<Level>, l: Level)
    ensures Volume(fills + [l]) == Volume(fills) + l.volume
    ensures Value(fills + [l]) == Value(fills) + l.price * l.volume
  {
    assert (fills + [l])[..|fills|] == fills;
  }

  /** The loop of `match_order_with_market_data`, with the sums it keeps for the average price. */
  method MatchLevels(c: Config, o: Order, levels: seq<Level>, avail: real)
    returns (executed: seq<Level>, weighted: real, total: real)
    ensures executed == Fills(o, Priced(c, o.side, levels), o.volumeLeft, avail)
    ensures weighted == Value(executed) && total == Volume(executed)
  {
    hide Value, Volume, ApplySlippage, CanExecute, FundsSuffice, Min;
    executed, weighted, total := [], 0.0, 0.0;
    NoSums();
    var remaining := o.volumeLeft;
    ghost var target := Fills(o, Priced(c, o.side, levels), o.volumeLeft, avail);
    var i := 0;
    while i < |levels|
      invariant i <= |levels|
      invariant executed + Fills(o, Priced(c, o.side, levels[i..]), remaining, avail) == target
      invariant weighted == Value(executed) && total == Volume(executed)
    {
      PricedAt(c, o.side, levels[i..]);
      assert levels[i..][1..] == levels[i + 1..];
      if remaining <= 0.0 {
        break;
      }
      var price := ApplySlippage(c, levels[i].price, o.side);
      if CanExecute(o, price) {
        var volume := Min(remaining, levels[i].volume);
        if FundsSuffice(o, price, volume, avail) {
          SumsOn(executed, Level(price, volume));
          executed := executed + [Level(price, volume)];
          weighted := weighted + price * volume;
          total := total + volume;
          remaining := remaining - volume;
        }
      } else {
        break;
      }
      i := i + 1;
    }
  }
}
