/** The arithmetic of price beliefs in core/systems/trading.ts, on JavaScript
    numbers: the per-branch moves of `adjustSellPrice` and `adjustBuyPrice`,
    the clamp-and-widen step both end with, and the price drawn from the
    belief. `limit` (utils/limit.ts is not part of this model) is taken to be
    `Math.min(Math.max(value, min), max)`, and mathjs' `randomInt(min, max)`
    to be `Math.floor(min + u * (max - min))` for a uniform draw `u` in
    [0, 1), which is passed in. */
module Pricing {
  import opened JsNum
  import opened Components

  /** `x <= y` on JavaScript numbers. */
  predicate Le(x: Num, y: Num) {
    Lt(x, y) || (x == y && !x.NaN?)
  }

  predicate Finite(b: Belief) {
    b.low.Fin? && b.high.Fin?
  }

  /** Neither end is NaN and the lower end does not exceed the upper. */
  predicate Ordered(b: Belief) {
    !b.low.NaN? && !b.high.NaN? && Le(b.low, b.high)
  }

  /** `(pricing[0] + pricing[1]) / 2`. */
  function Mean(b: Belief): Num {
    Div(Add(b.low, b.high), Fin(2.0))
  }

  /** `limit(v, lo, hi)`. */
  function Limit(v: Num, lo: Num, hi: Num): (r: Num)
    ensures v.NaN? ==> r.NaN?
    ensures !v.NaN? && lo.Fin? && hi.Fin? && lo.r <= hi.r ==> r.Fin? && lo.r <= r.r <= hi.r
    ensures v.Fin? && lo.Fin? && hi.Fin? && lo.r <= v.r <= hi.r ==> r == v
  {
    Min(Max(v, lo), hi)
  }

  /** Clamping keeps the order of two values. */
  lemma LimitMonotone(v: Num, w: Num, lo: real, hi: real)
    requires !v.NaN? && !w.NaN? && Le(v, w) && lo <= hi
    ensures Limit(v, Fin(lo), Fin(hi)).r <= Limit(w, Fin(lo), Fin(hi)).r
  {
  }

  /** The clamp of both ends into `[lo, hi]`, then, when the ends coincide,
      the upper end raised to `max(1.02 x, x + 2)`. */
  function Settle(b: Belief, lo: Num, hi: Num): (r: Belief)
    ensures r.low == Limit(b.low, lo, hi)
    ensures Finite(b) && lo.Fin? && hi.Fin? && lo.r <= hi.r ==>
      Finite(r) && lo.r <= r.low.r <= hi.r && r.low.r != r.high.r
  {
    var c := Belief(Limit(b.low, lo, hi), Limit(b.high, lo, hi));
    if StrictEq(c.low, c.high) then c.(high := Max(Mul(c.high, Fin(1.02)), Add(c.high, Fin(2.0)))) else c
  }

  function RealMax(x: real, y: real): real {
    if x < y then y else x
  }

  /** An ordered belief settles into a proper interval whose lower end lies
      in `[lo, hi]`; its upper end exceeds `hi` only when a degenerate
      interval was widened. */
  lemma SettleOrdered(b: Belief, lo: real, hi: real)
    requires Ordered(b) && lo <= hi
    ensures var r := Settle(b, Fin(lo), Fin(hi));
      && Finite(r)
      && lo <= r.low.r <= hi
      && r.low.r < r.high.r
      && (r.high.r > hi ==> r.high.r == RealMax(1.02 * r.low.r, r.low.r + 2.0))
  {
    LimitMonotone(b.low, b.high, lo, hi);
  }

  /** A belief with a NaN lower end keeps it. */
  lemma SettleKeepsNaN(b: Belief, lo: Num, hi: Num)
    requires b.low.NaN?
    ensures Settle(b, lo, hi).low.NaN?
  {
  }

  /** `randomInt(low, high)` for the draw `u`. */
  function RandomInt(b: Belief, u: real): (r: Num)
    ensures r.Fin? ==> r.r.Floor as real == r.r
    ensures b.low.NaN? || b.high.NaN? ==> r.NaN?
  {
    Floor(Add(b.low, Mul(Fin(u), Sub(b.high, b.low))))
  }

  /** The drawn price of a proper finite interval is a whole number from the
      floor of its lower end up to, but not including, its upper end. */
  lemma RandomIntInRange(b: Belief, u: real)
    requires Finite(b) && b.low.r < b.high.r && 0.0 <= u < 1.0
    ensures RandomInt(b, u).Fin?
    ensures RandomInt(b, u).r.Floor as real == RandomInt(b, u).r
    ensures b.low.r.Floor as real <= RandomInt(b, u).r < b.high.r
  {
    var lo, hi := b.low.r, b.high.r;
    var x := lo + u * (hi - lo);
    DrawInside(lo, hi, u);
    assert Sub(b.high, b.low) == Fin(hi - lo);
    assert Mul(Fin(u), Fin(hi - lo)) == Fin(u * (hi - lo));
    assert RandomInt(b, u) == Fin(x.Floor as real);
    FloorBetween(lo, x, hi);
  }

  /** A draw in [0, 1) lands a point inside `[lo, hi)`. */
  lemma DrawInside(lo: real, hi: real, u: real)
    requires lo < hi && 0.0 <= u < 1.0
    ensures lo <= lo + u * (hi - lo) < hi
  {
    var w := hi - lo;
    ProductSigns(u, w);
    ProductSigns(1.0 - u, w);
    assert (1.0 - u) * w == w - u * w;
    assert u * w < w;
    assert lo + u * w < hi;
  }

  /** The sign of a product of a non-negative and a positive factor. */
  lemma ProductSigns(a: real, b: real)
    requires a >= 0.0 && b > 0.0
    ensures a * b >= 0.0
    ensures a > 0.0 ==> a * b > 0.0
  {
  }

  /** Flooring a value between two bounds stays above the floor of the
      lower one and below the upper one. */
  lemma FloorBetween(lo: real, x: real, hi: real)
    requires lo <= x < hi
    ensures lo.Floor as real <= x.Floor as real < hi
  {
    var a, c := lo.Floor, x.Floor;
    assert a as real <= x && x < c as real + 1.0;
    assert a < c + 1;
  }

  /** The sell side's move: with no sale since the last adjustment both ends
      drop by `weight * mean / 6`; after a sale below the regional average
      both rise by `(average - current) * weight * 1.2`; otherwise both drop
      by `mean / 5`. */
  function SellShifted(b: Belief, weight: Num, hadSale: bool, current: Num, average: Num): (r: Belief)
    ensures Finite(b) && Finite(r) ==> r.high.r - r.low.r == b.high.r - b.low.r
  {
    var mean := Mean(b);
    if !hadSale then
      var diff := Mul(weight, mean);
      Belief(Sub(b.low, Div(diff, Fin(6.0))), Sub(b.high, Div(diff, Fin(6.0))))
    else if Lt(current, average) then
      var overbid := Sub(average, current);
      Belief(Add(b.low, Mul(Mul(overbid, weight), Fin(1.2))), Add(b.high, Mul(Mul(overbid, weight), Fin(1.2))))
    else
      Belief(Sub(b.low, Div(mean, Fin(5.0))), Sub(b.high, Div(mean, Fin(5.0))))
  }

  /** The direction of the sell-side move for a non-negative weight and
      mean: no sale lowers both ends, a sale below the average raises them,
      and a sale at or above it lowers them. */
  lemma SellShiftDirection(b: Belief, weight: real, hadSale: bool, current: real, average: real)
    requires Finite(b) && weight >= 0.0 && b.low.r + b.high.r >= 0.0
    ensures var r := SellShifted(b, Fin(weight), hadSale, Fin(current), Fin(average));
      && Finite(r)
      && (!hadSale || current >= average ==> r.low.r <= b.low.r && r.high.r <= b.high.r)
      && (hadSale && current < average ==> r.low.r >= b.low.r && r.high.r >= b.high.r)
  {
    var mean := (b.low.r + b.high.r) / 2.0;
    assert Mean(b) == Fin(mean);
    assert weight * mean >= 0.0;
    assert (average - current) * weight >= 0.0 || current >= average;
  }

  /** The buy side's move. After a sale, a belief whose upper end exceeds
      1.1 times its mean narrows by `mean / 10` at each end when storage is
      more than half full, and otherwise raises its upper end by a tenth.
      With no sale and storage under a quarter full both ends rise by
      `|current - mean| / 2`; otherwise both drop by `(current - average) *
      1.1` when the current price exceeds the average, and rise by
      `mean / 5` when it does not. */
  function BuyShifted(b: Belief, filled: Num, hadSale: bool, current: Num, average: Num): (r: Belief)
    ensures !hadSale && Finite(b) && current.Fin? && average.Fin? ==>
      Finite(r) && r.high.r - r.low.r == b.high.r - b.low.r
  {
    var mean := Mean(b);
    if hadSale then
      if Gt(Div(b.high, mean), Fin(1.1)) then
        if Gt(filled, Fin(0.5)) then
          var diff := Div(mean, Fin(10.0));
          Belief(Add(b.low, diff), Sub(b.high, diff))
        else b.(high := Mul(b.high, Fin(1.1)))
      else b
    else if Lt(filled, Fin(0.25)) then
      var diff := Div(Sub(current, mean), Fin(2.0));
      Belief(Add(b.low, Abs(diff)), Add(b.high, Abs(diff)))
    else if Gt(current, average) then
      var overbid := Sub(current, average);
      Belief(Sub(b.low, Mul(overbid, Fin(1.1))), Sub(b.high, Mul(overbid, Fin(1.1))))
    else
      Belief(Add(b.low, Div(mean, Fin(5.0))), Add(b.high, Div(mean, Fin(5.0))))
  }

  /** The narrowing and raising branches keep a finite ordered belief
      ordered, and narrowing keeps its mean. */
  lemma BuyAfterSaleKeepsOrder(b: Belief, filled: Num, current: Num, average: Num)
    requires Finite(b) && b.low.r <= b.high.r
    ensures var r := BuyShifted(b, filled, true, current, average);
      Finite(r) && r.low.r <= r.high.r
    ensures var r := BuyShifted(b, filled, true, current, average);
      Mean(r) == Mean(b)
      || r == b.(high := Mul(b.high, Fin(1.1)))
  {
    if Gt(Div(b.high, Mean(b)), Fin(1.1)) {
      if Gt(filled, Fin(0.5)) {
        BuyNarrowKeepsOrder(b, filled, current, average);
      } else {
        BuyRaiseKeepsOrder(b, filled, current, average);
      }
    } else {
      assert BuyShifted(b, filled, true, current, average) == b;
    }
  }

  /** The narrowing branch keeps the ends ordered and the mean in place. */
  lemma BuyNarrowKeepsOrder(b: Belief, filled: Num, current: Num, average: Num)
    requires Finite(b) && b.low.r <= b.high.r
    requires Gt(Div(b.high, Mean(b)), Fin(1.1)) && Gt(filled, Fin(0.5))
    ensures var r := BuyShifted(b, filled, true, current, average);
      Finite(r) && r.low.r <= r.high.r && Mean(r) == Mean(b)
  {
    var lo, hi := b.low.r, b.high.r;
    var m := (lo + hi) / 2.0;
    assert Mean(b) == Fin(m);
    RatioAboveImpliesPositive(lo, hi, m);
    NarrowStaysOrdered(lo, hi, m);
    assert Div(Fin(m), Fin(10.0)) == Fin(m / 10.0);
    assert BuyShifted(b, filled, true, current, average) == Belief(Fin(lo + m / 10.0), Fin(hi - m / 10.0));
  }

  /** The raising branch lifts the upper end by a tenth, which keeps the
      ends ordered. */
  lemma BuyRaiseKeepsOrder(b: Belief, filled: Num, current: Num, average: Num)
    requires Finite(b) && b.low.r <= b.high.r
    requires Gt(Div(b.high, Mean(b)), Fin(1.1)) && !Gt(filled, Fin(0.5))
    ensures var r := BuyShifted(b, filled, true, current, average);
      Finite(r) && r.low.r <= r.high.r && r == b.(high := Mul(b.high, Fin(1.1)))
  {
    var lo, hi := b.low.r, b.high.r;
    var m := (lo + hi) / 2.0;
    assert Mean(b) == Fin(m);
    RatioAboveImpliesPositive(lo, hi, m);
  }

  /** An upper end above 1.1 times the mean of an ordered belief means a
      positive upper end and a non-negative mean. */
  lemma RatioAboveImpliesPositive(lo: real, hi: real, m: real)
    requires lo <= hi && m == (lo + hi) / 2.0
    requires Gt(Div(Fin(hi), Fin(m)), Fin(1.1))
    ensures hi > 0.0 && m >= 0.0 && (m > 0.0 ==> hi / m > 1.1)
  {
    if m < 0.0 {
      NegativeMeanCapsRatio(hi, m);
    } else if m > 0.0 {
      assert hi / m > 1.1;
      assert hi >= m;
    }
  }

  /** Narrowing by a tenth of a non-negative mean from both ends keeps the
      ends ordered and the mean in place when the upper end exceeds 1.1
      times the mean. */
  lemma NarrowStaysOrdered(lo: real, hi: real, m: real)
    requires lo <= hi && m == (lo + hi) / 2.0 && m >= 0.0
    requires m > 0.0 ==> hi / m > 1.1
    ensures lo + m / 10.0 <= hi - m / 10.0
    ensures ((lo + m / 10.0) + (hi - m / 10.0)) / 2.0 == m
  {
    if m > 0.0 {
      var q := hi / m;
      ProductSigns(q - 1.1, m);
      assert (q - 1.1) * m == q * m - 1.1 * m;
      assert q * m == hi;
    }
  }

  /** With a negative mean the upper end is at most the mean's own multiple:
      `high / mean <= 1`. */
  lemma NegativeMeanCapsRatio(hi: real, m: real)
    requires m < 0.0 && hi >= m
    ensures hi / m <= 1.0
  {
    var q := hi / m;
    assert q * m == hi;
    assert (q - 1.0) * m == hi - m;
  }

  /** With storage under a quarter full and no sale, the belief never
      drops. */
  lemma BuyLowStockRaises(b: Belief, filled: real, current: real, average: real)
    requires Finite(b) && filled < 0.25
    ensures var r := BuyShifted(b, Fin(filled), false, Fin(current), Fin(average));
      Finite(r) && r.low.r >= b.low.r && r.high.r >= b.high.r
  {
    var m := (b.low.r + b.high.r) / 2.0;
    assert Mean(b) == Fin(m);
  }
}
