/** The largest loss from a peak, in one pass. */
module Drawdown {
  /** What is lost, in parts of the earlier value. */
  function Loss(from: real, to: real): real
    requires from != 0.0
  {
    (from - to) / from
  }

  /** No loss from an earlier positive value to a later one is larger, and some such loss is as large. */
  predicate IsLargestLoss(values: seq<real>, loss: real) {
    && (forall i, j | 0 <= i <= j < |values| && values[i] > 0.0 :: Loss(values[i], values[j]) <= loss)
    && (exists i, j | 0 <= i <= j < |values| :: values[i] > 0.0 && Loss(values[i], values[j]) == loss)
  }

  // ---------- The pass ----------

  /** A fall from a peak of zero is infinitely large to floating-point numbers. */
  datatype Drop = Finite(value: real) | Infinite

  function DropOf(peak: real, v: real): Drop {
    if peak == 0.0 then Infinite else Finite(Loss(peak, v))
  }

  predicate Exceeds(a: Drop, b: Drop) {
    b.Finite? && (a.Infinite? || a.value > b.value)
  }

  /** What is left of the pass, from a peak, the lowest value behind it and the largest drop up to here. */
  function Pass(rest: seq<real>, peak: real, trough: real, drop: Drop): Drop
    decreases |rest|
  {
    if rest == [] then drop
    else
      var v := rest[0];
      if v > peak then Pass(rest[1..], v, v, drop)
      else if v < trough then
        var dd := DropOf(peak, v);
        Pass(rest[1..], peak, v, if Exceeds(dd, drop) then dd else drop)
      else Pass(rest[1..], peak, trough, drop)
  }

  function PassOver(values: seq<real>): Drop {
    if values == [] then Finite(0.0) else Pass(values[1..], values[0], values[0], Finite(0.0))
  }

  /** `max_drawdown` */
  method MaxDrawdown(values: seq<real>) returns (drop: Drop)
    ensures drop == PassOver(values)
    ensures values != [] && values[0] > 0.0 ==>
              drop.Finite? && (IsLargestLoss(values, drop.value) <==> OnePassSuffices(values))
    ensures values != [] && values[0] <= 0.0 ==>
              drop == if FallsFromZero(values) then Infinite else PassOver(values[FirstAbove(values)..])
  {
    hide FallsFromZero, Pass, IsLargestLoss, OnePassSuffices;
    if values == [] {
      return Finite(0.0);
    }
    var peak, trough := values[0], values[0];
    drop := Finite(0.0);
    for i := 1 to |values|
      invariant Pass(values[i..], peak, trough, drop) == PassOver(values)
    {
      PassOne(values[i..], peak, trough, drop);
      assert values[i..][1..] == values[i + 1..];
      if values[i] > peak {
        peak := values[i];
        trough := values[i];
      } else if values[i] < trough {
        trough := values[i];
        var dd := DropOf(peak, trough);
        if Exceeds(dd, drop) {
          drop := dd;
        }
      }
    }
    PassNone(peak, trough, drop);
    if values[0] > 0.0 {
      LargestIff(values);
    } else {
      BeginsAtOrBelowZero(values);
    }
  }

  // ---------- Series that begin at zero or below ----------

  /** The place of the first value above zero, or the end. */
  function FirstAbove(values: seq<real>): (k: nat)
    ensures k <= |values| && (k < |values| ==> values[k] > 0.0) && forall i | 0 <= i < k :: values[i] <= 0.0
  {
    if values == [] || values[0] > 0.0 then 0 else 1 + FirstAbove(values[1..])
  }

  /** Before any value above zero, a negative one comes behind a zero. */
  predicate FallsFromZero(values: seq<real>) {
    exists i, j | 0 <= i < j < FirstAbove(values) :: values[i] == 0.0 && values[j] < 0.0
  }

  lemma {:induction false} InfiniteStays(rest: seq<real>, peak: real, trough: real)
    ensures Pass(rest, peak, trough, Infinite) == Infinite
    decreases |rest|
  {
    if rest != [] {
      InfiniteStays(rest[1..], rest[0], rest[0]);
      InfiniteStays(rest[1..], peak, rest[0]);
      InfiniteStays(rest[1..], peak, trough);
    }
  }

  lemma NoLossBelow(peak: real, v: real)
    requires v <= peak < 0.0
    ensures !Exceeds(DropOf(peak, v), Finite(0.0))
  {
    LossTimes(peak, v);
    assert Loss(peak, v) * peak >= 0.0;
  }

  /** From a peak below zero nothing counts as a loss. */
  lemma {:induction false} PassBelowZero(rest: seq<real>, peak: real, trough: real)
    requires trough <= peak < 0.0
    ensures Pass(rest, peak, trough, Finite(0.0)) == PassOver(rest)
    decreases |rest|
  {
    hide DropOf, Exceeds;
    if rest != [] {
      var v := rest[0];
      if v <= peak {
        PassBelowZero(rest[1..], v, v);
        if v < trough {
          NoLossBelow(peak, v);
          PassBelowZero(rest[1..], peak, v);
        } else {
          PassBelowZero(rest[1..], peak, trough);
        }
      }
    }
  }

  /** From a peak of zero the first negative value is an infinite loss. */
  lemma {:induction false} PassAtZero(rest: seq<real>)
    ensures Pass(rest, 0.0, 0.0, Finite(0.0))
            == if exists j | 0 <= j < FirstAbove(rest) :: rest[j] < 0.0 then Infinite
               else PassOver(rest[FirstAbove(rest)..])
    decreases |rest|
  {
    if rest != [] && rest[0] <= 0.0 {
      if rest[0] < 0.0 {
        InfiniteStays(rest[1..], 0.0, rest[0]);
      } else {
        PassAtZero(rest[1..]);
        assert rest[1..][FirstAbove(rest[1..])..] == rest[FirstAbove(rest)..];
        assert (exists j | 0 <= j < FirstAbove(rest[1..]) :: rest[1..][j] < 0.0)
          <==> (exists j | 0 <= j < FirstAbove(rest) :: rest[j] < 0.0) by {
          NegativeBehind(rest);
        }
      }
    }
  }

  lemma NegativeBehind(rest: seq<real>)
    requires rest != [] && rest[0] == 0.0
    ensures (exists j | 0 <= j < FirstAbove(rest[1..]) :: rest[1..][j] < 0.0)
            <==> (exists j | 0 <= j < FirstAbove(rest) :: rest[j] < 0.0)
  {
    if j :| 0 <= j < FirstAbove(rest[1..]) && rest[1..][j] < 0.0 {
      assert rest[j + 1] < 0.0;
    }
    if j :| 0 <= j < FirstAbove(rest) && rest[j] < 0.0 {
      assert rest[1..][j - 1] < 0.0;
    }
  }

  /** Over a series that begins at zero or below, the result is infinite exactly if a negative value comes behind a
      zero and before any positive one; otherwise it is that of the series from its first positive value on, and
      nothing if there is none. */
  lemma {:induction false} BeginsAtOrBelowZero(values: seq<real>)
    requires values != [] && values[0] <= 0.0
    ensures PassOver(values) == if FallsFromZero(values) then Infinite else PassOver(values[FirstAbove(values)..])
    decreases |values|
  {
    var rest := values[1..];
    assert rest[FirstAbove(rest)..] == values[FirstAbove(values)..];
    if values[0] < 0.0 {
      PassBelowZero(rest, values[0], values[0]);
      if rest != [] && rest[0] <= 0.0 {
        BeginsAtOrBelowZero(rest);
      }
      FallsBehind(values);
    } else {
      PassAtZero(rest);
      FallsAtOnce(values);
    }
  }

  lemma FallsBehind(values: seq<real>)
    requires values != [] && values[0] < 0.0
    ensures FallsFromZero(values) <==> FallsFromZero(values[1..])
    ensures FirstAbove(values) == 1 + FirstAbove(values[1..])
  {
    var rest := values[1..];
    if FallsFromZero(values) {
      var i, j :| 0 <= i < j < FirstAbove(values) && values[i] == 0.0 && values[j] < 0.0;
      assert rest[i - 1] == 0.0 && rest[j - 1] < 0.0;
    }
    if FallsFromZero(rest) {
      var i, j :| 0 <= i < j < FirstAbove(rest) && rest[i] == 0.0 && rest[j] < 0.0;
      assert values[i + 1] == 0.0 && values[j + 1] < 0.0;
    }
  }

  lemma FallsAtOnce(values: seq<real>)
    requires values != [] && values[0] == 0.0
    ensures FallsFromZero(values) <==> exists j | 0 <= j < FirstAbove(values[1..]) :: values[1..][j] < 0.0
    ensures FirstAbove(values) == 1 + FirstAbove(values[1..])
  {
    var rest := values[1..];
    if FallsFromZero(values) {
      var i, j :| 0 <= i < j < FirstAbove(values) && values[i] == 0.0 && values[j] < 0.0;
      assert rest[j - 1] < 0.0;
    }
    if j :| 0 <= j < FirstAbove(rest) && rest[j] < 0.0 {
      assert values[0] == 0.0 && values[j + 1] < 0.0;
    }
  }

  lemma PassNone(peak: real, trough: real, drop: Drop)
    ensures Pass([], peak, trough, drop) == drop
  {
  }

  lemma PassOne(rest: seq<real>, peak: real, trough: real, drop: Drop)
    requires rest != []
    ensures var v := rest[0]; var dd := DropOf(peak, v);
            Pass(rest, peak, trough, drop)
            == if v > peak then Pass(rest[1..], v, v, drop)
               else if v < trough then Pass(rest[1..], peak, v, if Exceeds(dd, drop) then dd else drop)
               else Pass(rest[1..], peak, trough, drop)
  {
  }

  // ---------- Losses ----------

  lemma LossTimes(a: real, v: real)
    requires a != 0.0
    ensures Loss(a, v) * a == a - v
  {
  }

  lemma Kept(a: real, p: real, u: real)
    requires 0.0 < a <= p && u * a >= 0.0
    ensures u >= 0.0 && u * a <= u * p
  {
    assert u >= 0.0;
    assert u * (p - a) >= 0.0;
  }

  lemma Cancelled(p: real, x: real, y: real)
    requires p > 0.0
    ensures x * p <= y * p <==> x <= y
  {
  }

  /** A loss is larger from a higher value, and to a lower one. */
  lemma LossGrows(a: real, p: real, v: real, t: real)
    requires 0.0 < a <= p && 0.0 <= t <= v
    ensures Loss(a, v) <= Loss(p, t)
  {
    hide Loss;
    var x, y := Loss(a, v), Loss(p, t);
    LossTimes(a, v);
    LossTimes(p, t);
    assert (1.0 - x) * a == v;
    Kept(a, p, 1.0 - x);
    assert (1.0 - x) * p == p - x * p;
    Cancelled(p, x, y);
  }

  lemma LossLower(p: real, v: real, t: real)
    requires p > 0.0
    ensures Loss(p, v) <= Loss(p, t) <==> t <= v
  {
    hide Loss;
    LossTimes(p, v);
    LossTimes(p, t);
    Cancelled(p, Loss(p, v), Loss(p, t));
  }

  lemma LossOfNothing(p: real)
    requires p > 0.0
    ensures Loss(p, p) == 0.0 && Loss(p, 0.0) == 1.0
  {
  }

  /** A loss is of more than the whole exactly if what is left is negative. */
  lemma LossAgainstOne(p: real, v: real)
    requires p > 0.0
    ensures Loss(p, v) <= 1.0 <==> v >= 0.0
  {
    hide Loss;
    LossOfNothing(p);
    LossLower(p, v, 0.0);
  }

  lemma Reciprocal(a: real, p: real, n: real)
    requires 0.0 < a && 0.0 < p && 0.0 < n
    ensures n / p <= n / a <==> a <= p
  {
    var x, y := n / p, n / a;
    assert x * p == n && y * a == n;
    assert x > 0.0 && y > 0.0;
    if a <= p {
      Cancelled(p, x, y);
      assert y * a <= y * p;
    } else {
      assert y * p < y * a;
      Cancelled(p, x, y);
    }
  }

  /** How far `v` lies below zero, in parts of `a`. */
  function Below(a: real, v: real): real
    requires a != 0.0
  {
    (-v) / a
  }

  lemma BelowTimes(a: real, v: real)
    requires a != 0.0
    ensures Below(a, v) * a == -v
  {
  }

  lemma LossAs(a: real, v: real)
    requires a > 0.0
    ensures Loss(a, v) == 1.0 + Below(a, v)
  {
    hide Loss, Below;
    var x, y := Loss(a, v), Below(a, v);
    LossTimes(a, v);
    BelowTimes(a, v);
    assert (1.0 + y) * a == a + y * a;
    Cancelled(a, x, 1.0 + y);
    Cancelled(a, 1.0 + y, x);
  }

  /** To a negative value a loss is larger from a lower one. */
  lemma LossOfNegative(a: real, p: real, v: real)
    requires 0.0 < a && 0.0 < p && v < 0.0
    ensures Loss(p, v) <= Loss(a, v) <==> a <= p
  {
    hide Loss;
    LossAs(a, v);
    LossAs(p, v);
    Reciprocal(a, p, -v);
  }

  // ---------- What the pass finds ----------

  /** The highest value up to `j`. */
  function Peak(values: seq<real>, j: nat): real
    requires j < |values|
  {
    if j == 0 then values[0]
    else
      var p := Peak(values, j - 1);
      if values[j] > p then values[j] else p
  }

  lemma {:induction false} PeakIs(values: seq<real>, j: nat) returns (i: nat)
    requires j < |values|
    ensures i <= j && values[i] == Peak(values, j)
    ensures forall i | 0 <= i <= j :: values[i] <= Peak(values, j)
  {
    if j == 0 {
      i := 0;
    } else {
      i := PeakIs(values, j - 1);
      i := if values[j] > values[i] then j else i;
    }
  }

  lemma PeakAt(values: seq<real>, j: nat, i: nat)
    requires i <= j < |values|
    ensures values[i] <= Peak(values, j)
  {
    var k := PeakIs(values, j);
  }

  /** The least positive value up to `j`. */
  function Least(values: seq<real>, j: nat): (m: real)
    requires j < |values| && values[0] > 0.0
    ensures m > 0.0
  {
    if j == 0 then values[0]
    else
      var m := Least(values, j - 1);
      if 0.0 < values[j] < m then values[j] else m
  }

  lemma {:induction false} LeastIs(values: seq<real>, j: nat) returns (i: nat)
    requires j < |values| && values[0] > 0.0
    ensures i <= j && values[i] == Least(values, j)
    ensures forall i | 0 <= i <= j && values[i] > 0.0 :: Least(values, j) <= values[i]
  {
    if j == 0 {
      i := 0;
    } else {
      i := LeastIs(values, j - 1);
      i := if 0.0 < values[j] < values[i] then j else i;
    }
  }

  /** `loss` is the largest of the losses from the highest value so far, of the first `n` values. */
  predicate LargestFromPeak(values: seq<real>, n: nat, loss: real)
    requires n <= |values| && values != [] && values[0] > 0.0
  {
    && (forall j | 0 <= j < n :: FromPeak(values, j) <= loss)
    && (exists j | 0 <= j < n :: FromPeak(values, j) == loss)
  }

  /** The loss at `j` from the highest value up to there. */
  function FromPeak(values: seq<real>, j: nat): real
    requires j < |values| && values[0] > 0.0
  {
    PeakAt(values, j, 0);
    Loss(Peak(values, j), values[j])
  }

  lemma OneMore(values: seq<real>, n: nat, loss: real)
    requires 0 < n < |values| && values[0] > 0.0 && LargestFromPeak(values, n, loss)
    ensures LargestFromPeak(values, n + 1, if FromPeak(values, n) > loss then FromPeak(values, n) else loss)
  {
    hide FromPeak;
    var k :| 0 <= k < n && FromPeak(values, k) == loss;
    var at := if FromPeak(values, n) > loss then n else k;
    assert FromPeak(values, at) == if FromPeak(values, n) > loss then FromPeak(values, n) else loss;
  }

  /** The lowest value since the peak, which is among those looked at already. */
  predicate TroughOk(values: seq<real>, n: nat, trough: real)
    requires 0 < n <= |values|
  {
    exists t | 0 <= t < n :: Peak(values, t) == Peak(values, n - 1) && values[t] == trough
  }

  lemma TroughOn(values: seq<real>, n: nat, trough: real)
    requires 0 < n < |values| && TroughOk(values, n, trough)
    ensures values[n] <= Peak(values, n - 1) ==> TroughOk(values, n + 1, trough)
    ensures TroughOk(values, n + 1, values[n])
    ensures Peak(values, n) == if values[n] > Peak(values, n - 1) then values[n] else Peak(values, n - 1)
  {
    assert Peak(values, n) == Peak(values, n + 1 - 1);
  }

  /** A value between peak and trough makes no larger loss. */
  lemma InBetween(values: seq<real>, n: nat, trough: real, loss: real)
    requires 0 < n < |values| && values[0] > 0.0 && LargestFromPeak(values, n, loss) && TroughOk(values, n, trough)
    requires trough <= values[n] <= Peak(values, n - 1)
    ensures FromPeak(values, n) <= loss
  {
    hide Loss, LargestFromPeak;
    var t :| 0 <= t < n && Peak(values, t) == Peak(values, n - 1) && values[t] == trough;
    BoundedBy(values, n, loss, t);
    PeakAt(values, n, 0);
    TroughOn(values, n, trough);
    LossLower(Peak(values, n), values[n], trough);
  }

  lemma AtPeak(values: seq<real>, n: nat)
    requires 0 < n < |values| && values[0] > 0.0 && values[n] > Peak(values, n - 1)
    ensures FromPeak(values, n) == 0.0
  {
    PeakAt(values, n, 0);
    LossOfNothing(values[n]);
  }

  lemma {:induction false} PassFinds(values: seq<real>, n: nat, trough: real, loss: real)
    requires 0 < n <= |values| && values[0] > 0.0 && LargestFromPeak(values, n, loss) && TroughOk(values, n, trough)
             && loss >= 0.0
    ensures var drop := Pass(values[n..], Peak(values, n - 1), trough, Finite(loss));
            drop.Finite? && LargestFromPeak(values, |values|, drop.value)
    decreases |values| - n
  {
    hide Loss, Pass, LargestFromPeak, TroughOk, Peak;
    var peak := Peak(values, n - 1);
    if n == |values| {
      assert values[n..] == [];
      PassNone(peak, trough, Finite(loss));
    } else {
      var v := values[n];
      assert values[n..][1..] == values[n + 1..];
      PeakAt(values, n - 1, 0);
      PassOne(values[n..], peak, trough, Finite(loss));
      TroughOn(values, n, trough);
      OneMore(values, n, loss);
      if v > peak {
        AtPeak(values, n);
        PassFinds(values, n + 1, v, loss);
      } else if v < trough {
        var dd := Loss(peak, v);
        PassFinds(values, n + 1, v, if dd > loss then dd else loss);
      } else {
        InBetween(values, n, trough, loss);
        PassFinds(values, n + 1, trough, loss);
      }
    }
  }

  lemma BoundedBy(values: seq<real>, n: nat, loss: real, t: nat)
    requires t < n <= |values| && values[0] > 0.0 && LargestFromPeak(values, n, loss)
    ensures FromPeak(values, t) <= loss
  {
  }

  lemma PassIsLargestFromPeak(values: seq<real>)
    requires values != [] && values[0] > 0.0
    ensures PassOver(values).Finite? && LargestFromPeak(values, |values|, PassOver(values).value)
  {
    LossOfNothing(values[0]);
    assert Peak(values, 0) == values[0] && FromPeak(values, 0) == 0.0;
    PassFinds(values, 1, values[0], 0.0);
  }

  // ---------- When that is the largest loss ----------

  predicate NoneNegative(values: seq<real>) {
    forall i | 0 <= i < |values| :: values[i] >= 0.0
  }

  /** Value `k` is negative, no positive value up to it differs from the first, and no negative value is
      further down, in parts of the least positive value up to it, than value `k` is in parts of the first. */
  predicate Decides(values: seq<real>, k: nat)
    requires values != [] && values[0] > 0.0
  {
    && k < |values| && values[k] < 0.0
    && (forall i | 0 <= i <= k && values[i] > 0.0 :: values[i] == values[0])
    && (forall j | 0 <= j < |values| && values[j] < 0.0 ::
        Below(Least(values, j), values[j]) <= Below(values[0], values[k]))
  }

  predicate OnePassSuffices(values: seq<real>)
    requires values != [] && values[0] > 0.0
  {
    NoneNegative(values) || exists k | 0 <= k < |values| :: Decides(values, k)
  }

  lemma Attained(values: seq<real>, loss: real)
    requires values != [] && values[0] > 0.0 && LargestFromPeak(values, |values|, loss)
    ensures exists i, j | 0 <= i <= j < |values| :: values[i] > 0.0 && Loss(values[i], values[j]) == loss
  {
    hide Loss, Peak;
    var j :| 0 <= j < |values| && FromPeak(values, j) == loss;
    var i := PeakIs(values, j);
    PeakAt(values, j, 0);
    assert values[i] > 0.0 && Loss(values[i], values[j]) == loss;
  }

  lemma NonNegativeIsLargest(values: seq<real>, loss: real)
    requires values != [] && values[0] > 0.0 && LargestFromPeak(values, |values|, loss) && NoneNegative(values)
    ensures IsLargestLoss(values, loss)
  {
    hide Loss, Peak;
    Attained(values, loss);
    forall i, j | 0 <= i <= j < |values| && values[i] > 0.0
      ensures Loss(values[i], values[j]) <= loss
    {
      PeakAt(values, j, i);
      LossGrows(values[i], Peak(values, j), values[j], values[j]);
      assert FromPeak(values, j) <= loss;
    }
  }

  /** The loss of the deciding value is found, and no other is larger. */
  lemma DecidedFound(values: seq<real>, loss: real, k: nat)
    requires values != [] && values[0] > 0.0 && LargestFromPeak(values, |values|, loss) && Decides(values, k)
    ensures 1.0 + Below(values[0], values[k]) <= loss && Below(values[0], values[k]) > 0.0
  {
    hide Loss, Peak, Least, Below;
    var i := PeakIs(values, k);
    PeakAt(values, k, 0);
    assert FromPeak(values, k) <= loss;
    LossAs(values[0], values[k]);
    LossAgainstOne(values[0], values[k]);
  }

  lemma NotLarger(values: seq<real>, k: nat, i: nat, j: nat)
    requires values != [] && values[0] > 0.0 && Decides(values, k) && i <= j < |values| && values[i] > 0.0
    requires Below(values[0], values[k]) > 0.0
    ensures Loss(values[i], values[j]) <= 1.0 + Below(values[0], values[k])
  {
    hide Loss, Least, Below;
    LossAgainstOne(values[i], values[j]);
    if values[j] < 0.0 {
      var n := LeastIs(values, j);
      LossOfNegative(Least(values, j), values[i], values[j]);
      LossAs(Least(values, j), values[j]);
    }
  }

  lemma DecidedIsLargest(values: seq<real>, loss: real, k: nat)
    requires values != [] && values[0] > 0.0 && LargestFromPeak(values, |values|, loss) && Decides(values, k)
    ensures IsLargestLoss(values, loss)
  {
    hide Loss, Below, Decides, LargestFromPeak;
    DecidesWithin(values, k);
    Attained(values, loss);
    DecidedFound(values, loss, k);
    forall i, j | 0 <= i <= j < |values| && values[i] > 0.0
      ensures Loss(values[i], values[j]) <= loss
    {
      NotLarger(values, k, i, j);
    }
  }

  lemma PairAt(values: seq<real>, loss: real, i: nat, j: nat)
    requires IsLargestLoss(values, loss) && i <= j < |values| && values[i] > 0.0
    ensures Loss(values[i], values[j]) <= loss
  {
  }

  lemma LargestDecides(values: seq<real>, loss: real) returns (k: nat)
    requires values != [] && values[0] > 0.0 && LargestFromPeak(values, |values|, loss)
    requires !NoneNegative(values) && IsLargestLoss(values, loss)
    ensures Decides(values, k)
  {
    hide Loss, Least, Peak, Below, IsLargestLoss;
    var n :| 0 <= n < |values| && values[n] < 0.0;
    PairAt(values, loss, 0, n);
    LossAgainstOne(values[0], values[n]);
    k :| 0 <= k < |values| && FromPeak(values, k) == loss;
    var p := Peak(values, k);
    PeakAt(values, k, 0);
    LossAgainstOne(p, values[k]);
    forall i | 0 <= i <= k && values[i] > 0.0
      ensures values[i] == p
    {
      PairAt(values, loss, i, k);
      PeakAt(values, k, i);
      LossOfNegative(p, values[i], values[k]);
    }
    LossAs(values[0], values[k]);
    forall j | 0 <= j < |values| && values[j] < 0.0
      ensures Below(Least(values, j), values[j]) <= Below(values[0], values[k])
    {
      var i := LeastIs(values, j);
      PairAt(values, loss, i, j);
      LossAs(Least(values, j), values[j]);
    }
  }

  /** For a series that begins above zero, one pass finds the largest loss from an earlier positive value to a
      later one exactly if no value is negative, or one negative value decides: all positive values up to it
      are equal, and no other is further down. */
  lemma LargestIff(values: seq<real>)
    requires values != [] && values[0] > 0.0
    ensures PassOver(values).Finite?
    ensures IsLargestLoss(values, PassOver(values).value) <==> OnePassSuffices(values)
  {
    hide LargestFromPeak, IsLargestLoss, Decides, PassOver, NoneNegative;
    PassIsLargestFromPeak(values);
    var loss := PassOver(values).value;
    if NoneNegative(values) {
      NonNegativeIsLargest(values, loss);
    } else if IsLargestLoss(values, loss) {
      var k := LargestDecides(values, loss);
      assert k < |values| by { DecidesWithin(values, k); }
    } else if k :| 0 <= k < |values| && Decides(values, k) {
      DecidedIsLargest(values, loss, k);
    }
  }

  lemma DecidesWithin(values: seq<real>, k: nat)
    requires values != [] && values[0] > 0.0 && Decides(values, k)
    ensures k < |values|
  {
  }

  /** Of two falls below zero, the one from the lower value is the larger and is not found. */
  lemma NegativeValuesMislead()
    ensures PassOver([1.0, 2.0, -2.0]) == Finite(2.0) && !IsLargestLoss([1.0, 2.0, -2.0], 2.0)
  {
    var values := [1.0, 2.0, -2.0];
    assert Loss(values[0], values[2]) == 3.0;
    assert values[1..] == [2.0, -2.0] && [2.0, -2.0][1..] == [-2.0];
  }
}
