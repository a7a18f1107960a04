/** Numeric conventions shared by the model: integer casts of reals,
    NumPy's `linspace` cast to an integer dtype, and IEEE round-half-even.
    Floating-point values are modelled as exact reals. */
module Numeric {

  /** A C cast or NumPy `astype(int)` of a real: truncation toward zero. */
  function Trunc(x: real): (r: int)
    ensures 0.0 <= x ==> r as real <= x < r as real + 1.0
    ensures x < 0.0 ==> r as real - 1.0 < x <= r as real
  {
    if x >= 0.0 then x.Floor else -((-x).Floor)
  }

  /** Python's `math.ceil` of a real. */
  function Ceil(x: real): (r: int)
    ensures r as real - 1.0 < x <= r as real
  {
    -((-x).Floor)
  }

  /** NumPy's `rint`: round to the nearest integer, ties to the even one. */
  function RoundHalfEven(x: real): (r: int)
    ensures x - 0.5 <= r as real <= x + 0.5
    ensures (r as real - x == 0.5 || x - r as real == 0.5) ==> r % 2 == 0
  {
    var f := x.Floor;
    var frac := x - f as real;
    if frac < 0.5 then f
    else if frac > 0.5 then f + 1
    else if f % 2 == 0 then f else f + 1
  }

  /** Element i of `numpy.linspace(start, stop, num, endpoint)` cast to
      int64: the real `start + i * (stop - start) / div` truncated toward
      zero, with `div` equal to `num - 1` (endpoint) or `num`; the last
      element of an endpoint linspace with more than one element is `stop`
      itself, and a linspace whose divisor is 0 holds only `start`. */
  function LinspaceAt(start: int, stop: int, num: nat, endpoint: bool, i: nat): int
  {
    var div := if endpoint then num - 1 else num;
    if endpoint && num > 1 && i == num - 1 then stop
    else if div <= 0 then start
    else Trunc(start as real + (i as real) * ((stop - start) as real) / (div as real))
  }

  /** `numpy.linspace(start, stop, num, endpoint=endpoint, dtype=int64)`. */
  function Linspace(start: int, stop: int, num: nat, endpoint: bool): (r: seq<int>)
    ensures |r| == num
    ensures forall i :: 0 <= i < num ==> r[i] == LinspaceAt(start, stop, num, endpoint, i)
  {
    seq(num, i requires 0 <= i < num => LinspaceAt(start, stop, num, endpoint, i))
  }

  /** The real sample `start + i * (stop - start) / div` lies in
      `[start, stop]` for `0 <= i <= div`, and grows with i. */
  lemma SampleBounds(start: int, stop: int, div: nat, i: nat, j: nat)
    requires start <= stop && 0 < div && i <= j <= div
    ensures start as real <= start as real + (i as real) * ((stop - start) as real) / (div as real)
    ensures start as real + (i as real) * ((stop - start) as real) / (div as real)
         <= start as real + (j as real) * ((stop - start) as real) / (div as real)
    ensures start as real + (j as real) * ((stop - start) as real) / (div as real) <= stop as real
  {
    FractionBounds(i as real, j as real, (stop - start) as real, div as real);
  }

  /** x and y of n parts of a non-negative span d, for x <= y <= n. */
  lemma FractionBounds(x: real, y: real, d: real, n: real)
    requires 0.0 <= x <= y <= n && 0.0 < n && 0.0 <= d
    ensures 0.0 <= x * d / n <= y * d / n <= d
  {
    MulMonotone(0.0, x, d);
    MulMonotone(x, y, d);
    MulMonotone(y, n, d);
    DivMonotone(0.0, x * d, n);
    DivMonotone(x * d, y * d, n);
    DivMonotone(y * d, n * d, n);
    MulDivCancel(d, n);
  }

  lemma MulMonotone(x: real, y: real, d: real)
    requires x <= y && 0.0 <= d
    ensures x * d <= y * d
  {
    assert y * d - x * d == (y - x) * d;
  }

  lemma MulDivCancel(d: real, n: real)
    requires n > 0.0
    ensures n * d / n == d
  {
    assert n * d == d * n;
  }

  /** Every element of an ascending integer linspace over non-negative
      bounds lies between its bounds, and the elements never decrease. */
  lemma LinspaceBounds(start: int, stop: int, num: nat, endpoint: bool)
    requires 0 <= start <= stop
    ensures forall i :: 0 <= i < num ==> start <= Linspace(start, stop, num, endpoint)[i] <= stop
    ensures forall i, j :: 0 <= i <= j < num ==>
      Linspace(start, stop, num, endpoint)[i] <= Linspace(start, stop, num, endpoint)[j]
  {
    var div := if endpoint then num - 1 else num;
    forall i | 0 <= i < num
      ensures start <= LinspaceAt(start, stop, num, endpoint, i) <= stop
    {
      if !(endpoint && num > 1 && i == num - 1) && div > 0 {
        SampleBounds(start, stop, div, i, i);
      }
    }
    forall i, j | 0 <= i <= j < num
      ensures LinspaceAt(start, stop, num, endpoint, i) <= LinspaceAt(start, stop, num, endpoint, j)
    {
      if div > 0 && !(endpoint && num > 1 && j == num - 1) {
        SampleBounds(start, stop, div, i, j);
        FloorMonotone(start as real + (i as real) * ((stop - start) as real) / (div as real),
                      start as real + (j as real) * ((stop - start) as real) / (div as real));
      } else if div > 0 && i != j {
        SampleBounds(start, stop, div, i, div);
      }
    }
  }

  lemma DivMonotone(a: real, b: real, n: real)
    requires a <= b && 0.0 < n
    ensures a / n <= b / n
  {
    assert b / n - a / n == (b - a) / n;
  }

  lemma FloorMonotone(x: real, y: real)
    requires x <= y
    ensures x.Floor <= y.Floor
  {
  }
}
