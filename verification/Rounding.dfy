/** Exact decimal arithmetic with the rounding mode the order lines use. */
module Rounding {

  /** Quantisation to a whole currency unit, halves away from zero (`ROUND_HALF_UP`). */
  function RoundHalfUp(x: real): int {
    if x >= 0.0 then (x + 0.5).Floor else -(0.5 - x).Floor
  }

  function Abs(x: real): real { if x >= 0.0 then x else -x }

  lemma RoundIsNearest(x: real)
    ensures Abs(RoundHalfUp(x) as real - x) <= 0.5
  {
  }

  /** A tie goes away from zero, and everything else to the nearest whole number. */
  lemma RoundExactly(x: real, n: int)
    ensures n == RoundHalfUp(x) <==>
            if x >= 0.0 then n as real - 0.5 <= x < n as real + 0.5 else n as real - 0.5 < x <= n as real + 0.5
  {
    if x >= 0.0 {
      assert (x + 0.5).Floor == n <==> n as real <= x + 0.5 < n as real + 1.0;
    } else {
      assert (0.5 - x).Floor == -n <==> (-n) as real <= 0.5 - x < (-n) as real + 1.0;
    }
  }

  lemma RoundOfWhole(n: int)
    ensures RoundHalfUp(n as real) == n
  {
    if n >= 0 {
      assert (n as real + 0.5).Floor == n;
    } else {
      assert (0.5 - n as real).Floor == -n;
    }
  }

  /** `qty` pieces at a unit price, added up one by one; see TimesIsProduct. */
  function Times(qty: int, price: real): real
    decreases if qty < 0 then 1 - qty else qty
  {
    if qty == 0 then 0.0
    else if qty > 0 then price + Times(qty - 1, price)
    else -Times(-qty, price)
  }

  lemma {:induction false} TimesIsProduct(qty: int, price: real)
    ensures Times(qty, price) == qty as real * price
    decreases if qty < 0 then 1 - qty else qty
  {
    if qty > 0 {
      TimesIsProduct(qty - 1, price);
      assert (qty - 1) as real * price == qty as real * price - price;
    } else if qty < 0 {
      TimesIsProduct(-qty, price);
    }
  }

  lemma {:induction false} TimesAddPrice(qty: nat, price: real, more: real)
    ensures Times(qty, price + more) == Times(qty, price) + Times(qty, more)
  {
    if qty > 0 {
      TimesAddPrice(qty - 1, price, more);
    }
  }

  lemma {:induction false} TimesSplit(a: nat, b: nat, price: real)
    ensures Times(a + b, price) == Times(a, price) + Times(b, price)
  {
    if a > 0 {
      TimesSplit(a - 1, b, price);
    }
  }

  lemma {:induction false} TimesUnit(qty: nat)
    ensures Times(qty, 1.0) == qty as real && Times(qty, -1.0) == -(qty as real)
  {
    if qty > 0 {
      TimesUnit(qty - 1);
    }
  }

  /** Whole prices make whole amounts. */
  lemma {:induction false} TimesWhole(qty: nat, price: int) returns (amount: int)
    ensures Times(qty, price as real) == amount as real
  {
    amount := 0;
    if qty > 0 {
      amount := TimesWhole(qty - 1, price);
      amount := amount + price;
    }
  }

  lemma {:induction false} TimesMonotone(qty: nat, low: real, high: real)
    requires low <= high
    ensures Times(qty, low) <= Times(qty, high)
  {
    if qty > 0 {
      TimesMonotone(qty - 1, low, high);
    }
  }

  /** A price for `qty` pieces: the amount divided by them, rounded. */
  function NearestPrice(amount: real, qty: int): int
    requires qty != 0
  {
    RoundHalfUp(amount / qty as real)
  }

  /** Rounding a unit price misses the amount by at most half a unit per piece. */
  lemma NearestPriceError(amount: real, qty: int)
    requires qty > 0
    ensures Abs(Times(qty, NearestPrice(amount, qty) as real) - amount) <= qty as real / 2.0
  {
    var exact := amount / qty as real;
    RoundIsNearest(exact);
    TimesIsProduct(qty, exact);
    TimesAddPrice(qty, exact, 0.5);
    TimesAddPrice(qty, exact, -0.5);
    TimesIsProduct(qty, 0.5);
    TimesIsProduct(qty, -0.5);
    TimesMonotone(qty, NearestPrice(amount, qty) as real, exact + 0.5);
    TimesMonotone(qty, exact - 0.5, NearestPrice(amount, qty) as real);
  }
}
