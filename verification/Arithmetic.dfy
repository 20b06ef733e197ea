/** Sums over lists of names, and Python's `round` on exact reals. */
module Arithmetic {
  import opened Sorting

  function Sum<T>(items: seq<T>, f: T -> real): real {
    if items == [] then 0.0 else f(items[0]) + Sum(items[1..], f)
  }

  lemma {:induction false} SumAgrees<T>(items: seq<T>, f: T -> real, g: T -> real)
    requires forall x | x in items :: f(x) == g(x)
    ensures Sum(items, f) == Sum(items, g)
  {
    if items != [] {
      SumAgrees(items[1..], f, g);
    }
  }

  /** Changing the value at one listed item changes the sum by that difference. */
  lemma {:induction false} SumUpdate<T>(items: seq<T>, f: T -> real, g: T -> real, at: T)
    requires NoDup(items) && at in items
    requires forall x | x in items && x != at :: f(x) == g(x)
    ensures Sum(items, g) - Sum(items, f) == g(at) - f(at)
  {
    if items[0] == at {
      SumAgrees(items[1..], f, g);
    } else {
      SumUpdate(items[1..], f, g, at);
    }
  }

  lemma {:induction false} SumBounded<T>(items: seq<T>, f: T -> real, g: T -> real)
    requires forall x | x in items :: 0.0 <= f(x) <= g(x)
    ensures 0.0 <= Sum(items, f) <= Sum(items, g)
  {
    if items != [] {
      SumBounded(items[1..], f, g);
    }
  }

  lemma {:induction false} SumPositive<T>(items: seq<T>, f: T -> real)
    requires items != [] && forall x | x in items :: f(x) > 0.0
    ensures Sum(items, f) > 0.0
  {
    if |items| > 1 {
      SumPositive(items[1..], f);
    }
  }

  /** Nearest integer, ties to even. */
  function RoundHalfEven(x: real): int {
    var below := x.Floor;
    var rest := x - below as real;
    if rest < 0.5 then below
    else if rest > 0.5 then below + 1
    else if below % 2 == 0 then below else below + 1
  }

  /** `round(x, digits)` where `scale` is 10 to the power `digits`. */
  function RoundTo(x: real, scale: int): real
    requires scale > 0
  {
    RoundHalfEven(x * scale as real) as real / scale as real
  }

  /** It is nearest, and of two nearest the even one. */
  lemma RoundNearest(x: real)
    ensures x - 0.5 <= RoundHalfEven(x) as real <= x + 0.5
    ensures RoundHalfEven(x) as real in {x - 0.5, x + 0.5} ==> RoundHalfEven(x) % 2 == 0
  {}

  /** A rounded number has that many digits and differs by at most half of the last one. */
  lemma RoundToNearest(x: real, scale: int)
    requires scale > 0
    ensures (RoundTo(x, scale) * scale as real).Floor as real == RoundTo(x, scale) * scale as real
    ensures (x - RoundTo(x, scale)) * scale as real <= 0.5 && (RoundTo(x, scale) - x) * scale as real <= 0.5
  {
    RoundNearest(x * scale as real);
    var i := RoundHalfEven(x * scale as real);
    assert RoundTo(x, scale) * scale as real == i as real;
  }

  lemma RoundMonotone(x: real, y: real)
    requires x <= y
    ensures RoundHalfEven(x) <= RoundHalfEven(y)
  {
    if x.Floor < y.Floor {
      assert RoundHalfEven(x) <= x.Floor + 1 <= y.Floor <= RoundHalfEven(y);
    }
  }

  lemma RoundToMonotone(x: real, y: real, scale: int)
    requires scale > 0 && x <= y
    ensures RoundTo(x, scale) <= RoundTo(y, scale)
  {
    assert x * scale as real <= y * scale as real;
    RoundMonotone(x * scale as real, y * scale as real);
    DivMonotone(RoundHalfEven(x * scale as real) as real, RoundHalfEven(y * scale as real) as real, scale as real);
  }

  lemma DivMonotone(a: real, b: real, c: real)
    requires a <= b && c > 0.0
    ensures a / c <= b / c
  {
    assert (b - a) / c >= 0.0;
  }

  lemma RoundToWhole(x: real, scale: int, y: int)
    requires scale > 0 && x * scale as real == y as real
    ensures RoundTo(x, scale) * scale as real == y as real
  {
    assert RoundHalfEven(y as real) == y;
    assert RoundHalfEven(x * scale as real) == y;
  }

  lemma CancelFactor(a: real, b: real, c: real)
    requires c != 0.0 && a * c == b * c
    ensures a == b
  {
  }

  /** Rounding leaves a whole number alone. */
  lemma RoundToInteger(n: int, scale: int)
    requires scale > 0
    ensures RoundTo(n as real, scale) == n as real
  {
    RoundToWhole(n as real, scale, n * scale);
    CancelFactor(RoundTo(n as real, scale), n as real, scale as real);
  }
}
