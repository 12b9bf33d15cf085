/** The parts of JavaScript and Python number semantics the model needs: a number that
    may be NaN, the `x || 0` idiom, and the two rounding rules used when report
    fields are rounded to a number of decimals. Values are exact reals: binary
    floating point is not modelled. */
module JsMath {

  /** A JavaScript number as `parseFloat` produces it: a finite value or NaN. */
  datatype JsNumber = Finite(value: real) | NaN

  /** `x || 0`: NaN and zero both become 0. */
  function OrZero(x: JsNumber): (r: real)
    ensures x.Finite? ==> r == x.value
    ensures x.NaN? ==> r == 0.0
  {
    match x
    case Finite(v) => v
    case NaN => 0.0
  }

  function Pow10(k: nat): (p: real)
    ensures p >= 1.0
  {
    if k == 0 then 1.0 else 10.0 * Pow10(k - 1)
  }

  /** `r` is a whole number of units of size 1/p. */
  predicate OnScale(r: real, p: real)
  {
    (r * p).Floor as real == r * p
  }

  /** `r` is a whole multiple of 10^-k: it has at most k decimals. */
  predicate OnGrid(r: real, k: nat)
  {
    OnScale(r, Pow10(k))
  }

  /** x lies exactly halfway between two multiples of 1/p. */
  predicate TieAt(x: real, p: real)
  {
    x * p - (x * p).Floor as real == 0.5
  }

  /** `r` is an even number of units of size 1/p. */
  predicate EvenOnScale(r: real, p: real)
  {
    (r * p).Floor % 2 == 0
  }

  /** x lies exactly halfway between two multiples of 10^-k. */
  predicate IsTie(x: real, k: nat)
  {
    TieAt(x, Pow10(k))
  }

  /** `Math.round(x * 10^k) / 10^k`: nearest multiple of 10^-k, ties towards +infinity. */
  function RoundHalfUp(x: real, k: nat): (r: real)
    ensures OnGrid(r, k)
    ensures r - x <= 0.5 / Pow10(k)
    ensures x - r < 0.5 / Pow10(k)
  {
    HalfUpAt(x, Pow10(k))
  }

  /** `Math.round(x * p) / p` for a scale p of at least 1. */
  function HalfUpAt(x: real, p: real): (r: real)
    requires p >= 1.0
    ensures OnScale(r, p)
    ensures r - x <= 0.5 / p && x - r < 0.5 / p
  {
    var r := Units(HalfUpUnits(x * p), p);
    GridBounds(x, p, r);
    r
  }

  /** Python's `round(x, k)` on an exact value: nearest multiple of 10^-k, ties to the
      even multiple. */
  function RoundHalfEven(x: real, k: nat): (r: real)
    ensures OnGrid(r, k)
    ensures r - x <= 0.5 / Pow10(k)
    ensures x - r <= 0.5 / Pow10(k)
    ensures IsTie(x, k) ==> EvenOnScale(r, Pow10(k))
  {
    HalfEvenAt(x, Pow10(k))
  }

  /** `round(x * p) / p` with ties to even, for a scale p of at least 1. */
  function HalfEvenAt(x: real, p: real): (r: real)
    requires p >= 1.0
    ensures OnScale(r, p)
    ensures r - x <= 0.5 / p && x - r <= 0.5 / p
    ensures TieAt(x, p) ==> EvenOnScale(r, p)
  {
    var r := Units(HalfEvenUnits(x * p), p);
    EvenUnitsNear(x * p, HalfEvenUnits(x * p));
    GridBounds(x, p, r);
    TieEvenAt(x, p, r);
    r
  }

  /** The nearest integer to y, ties upwards. */
  function HalfUpUnits(y: real): int
  {
    (y + 0.5).Floor
  }

  /** The nearest integer to y, ties to the even one. */
  function HalfEvenUnits(y: real): int
  {
    var f := y.Floor;
    var frac := y - f as real;
    if frac < 0.5 then f
    else if frac > 0.5 then f + 1
    else if f % 2 == 0 then f else f + 1
  }

  /** The half-even units are within half a unit of y, and even on a tie. */
  lemma EvenUnitsNear(y: real, n: int)
    requires n == HalfEvenUnits(y)
    ensures n as real - y <= 0.5 && y - n as real <= 0.5
    ensures y - y.Floor as real == 0.5 ==> n % 2 == 0
  {
  }

  lemma TieEvenAt(x: real, p: real, r: real)
    requires p >= 1.0 && (r * p).Floor == HalfEvenUnits(x * p)
    ensures TieAt(x, p) ==> EvenOnScale(r, p)
  {
    EvenUnitsNear(x * p, HalfEvenUnits(x * p));
  }

  /** n units of 1/p: a value on the scale that scales back to n. */
  function Units(n: int, p: real): (r: real)
    requires p >= 1.0
    ensures r * p == n as real
    ensures OnScale(r, p) && (r * p).Floor == n
  {
    assert (n as real / p) * p == n as real;
    n as real / p
  }

  /** Half a unit in the scaled value is half a step in the value. */
  lemma GridBounds(x: real, p: real, r: real)
    requires p >= 1.0
    requires r * p - x * p <= 0.5 && x * p - r * p <= 0.5
    ensures r - x <= 0.5 / p && x - r <= 0.5 / p
    ensures x * p - r * p < 0.5 ==> x - r < 0.5 / p
  {
    assert r - x == (r * p - x * p) / p;
    assert x - r == (x * p - r * p) / p;
    DivMono(r * p - x * p, 0.5, p);
    DivMono(x * p - r * p, 0.5, p);
  }

  lemma DivMono(a: real, b: real, p: real)
    requires p > 0.0
    ensures a <= b ==> a / p <= b / p
    ensures a < b ==> a / p < b / p
  {
  }

  /** Scaling half-step bounds by p gives half-unit bounds. */
  lemma Scaled(r: real, x: real, p: real)
    requires p >= 1.0
    requires r - x <= 0.5 / p && x - r <= 0.5 / p
    ensures r * p - x * p <= 0.5 && x * p - r * p <= 0.5
    ensures x - r < 0.5 / p ==> x * p - r * p < 0.5
  {
    HalfStep(r, x, p);
    HalfStep(x, r, p);
  }

  /** A difference of at most half a step is at most half a unit once scaled. */
  lemma HalfStep(a: real, b: real, p: real)
    requires p >= 1.0
    ensures a - b <= 0.5 / p ==> a * p - b * p <= 0.5
    ensures a - b < 0.5 / p ==> a * p - b * p < 0.5
  {
    assert (a * p - b * p) / p == a - b;
    DivMono(0.5, a * p - b * p, p);
  }

  /** The half-up rule is the only one its contract allows: a multiple of 10^-k at
      most half a step above x and less than half a step below it is the rounding. */
  lemma RoundHalfUpUnique(x: real, k: nat, r: real)
    requires OnGrid(r, k)
    requires r - x <= 0.5 / Pow10(k) && x - r < 0.5 / Pow10(k)
    ensures r == RoundHalfUp(x, k)
  {
    HalfUpAtUnique(x, Pow10(k), r);
  }

  lemma HalfUpAtUnique(x: real, p: real, r: real)
    requires p >= 1.0 && OnScale(r, p)
    requires r - x <= 0.5 / p && x - r < 0.5 / p
    ensures r == HalfUpAt(x, p)
  {
    var m := (r * p).Floor;
    Scaled(r, x, p);
    assert HalfUpUnits(x * p) == m;
    assert r == m as real / p;
  }

  /** The half-even rule is the only one its contract allows: a multiple of 10^-k
      within half a step of x, even in units of 10^-k when x is a tie, is the
      rounding. */
  lemma RoundHalfEvenUnique(x: real, k: nat, r: real)
    requires OnGrid(r, k)
    requires r - x <= 0.5 / Pow10(k) && x - r <= 0.5 / Pow10(k)
    requires IsTie(x, k) ==> EvenOnScale(r, Pow10(k))
    ensures r == RoundHalfEven(x, k)
  {
    HalfEvenAtUnique(x, Pow10(k), r);
  }

  lemma HalfEvenAtUnique(x: real, p: real, r: real)
    requires p >= 1.0 && OnScale(r, p)
    requires r - x <= 0.5 / p && x - r <= 0.5 / p
    requires TieAt(x, p) ==> EvenOnScale(r, p)
    ensures r == HalfEvenAt(x, p)
  {
    var m := (r * p).Floor;
    Scaled(r, x, p);
    EvenUnitsOf(x * p, m);
    assert r == m as real / p;
  }

  lemma EvenUnitsOf(y: real, m: int)
    requires m as real - y <= 0.5 && y - m as real <= 0.5
    requires y - y.Floor as real == 0.5 ==> m % 2 == 0
    ensures HalfEvenUnits(y) == m
  {
    var f := y.Floor;
    if y - f as real == 0.5 {
      assert m == f || m == f + 1;
    }
  }

  /** The error bounds at the precisions the reports use. */
  lemma RoundHalfUpSteps(x: real)
    ensures x - 0.05 < RoundHalfUp(x, 1) <= x + 0.05
    ensures x - 0.005 < RoundHalfUp(x, 2) <= x + 0.005
    ensures x - 0.0005 < RoundHalfUp(x, 3) <= x + 0.0005
  {
    assert Pow10(1) == 10.0;
    assert Pow10(2) == 100.0;
    assert Pow10(3) == 1000.0;
  }

  lemma RoundHalfEvenSteps(x: real)
    ensures x - 0.05 <= RoundHalfEven(x, 1) <= x + 0.05
    ensures x - 0.005 <= RoundHalfEven(x, 2) <= x + 0.005
    ensures x - 0.0005 <= RoundHalfEven(x, 3) <= x + 0.0005
  {
    assert Pow10(1) == 10.0;
    assert Pow10(2) == 100.0;
    assert Pow10(3) == 1000.0;
  }

  /** The two rounding rules disagree on a tie: Math.round(0.5) is 1, Python's
      round(0.5) is 0. */
  lemma RoundingRulesDiffer()
    ensures RoundHalfUp(0.5, 0) == 1.0
    ensures RoundHalfEven(0.5, 0) == 0.0
  {
    assert Pow10(0) == 1.0;
    assert HalfUpAt(0.5, 1.0) == 1.0 by { assert (0.5 * 1.0 + 0.5).Floor == 1; }
    assert HalfEvenAt(0.5, 1.0) == 0.0 by { assert (0.5 * 1.0).Floor == 0; }
  }

  /** Both rules agree away from ties. */
  lemma RoundingAgreeOffTies(x: real, k: nat)
    requires !IsTie(x, k)
    ensures RoundHalfUp(x, k) == RoundHalfEven(x, k)
  {
    AgreeOffTiesAt(x, Pow10(k));
  }

  lemma AgreeOffTiesAt(x: real, p: real)
    requires p >= 1.0 && !TieAt(x, p)
    ensures HalfUpAt(x, p) == HalfEvenAt(x, p)
  {
    UnitsAgreeOffTies(x * p);
  }

  lemma UnitsAgreeOffTies(y: real)
    requires y - y.Floor as real != 0.5
    ensures HalfUpUnits(y) == HalfEvenUnits(y)
  {
    var f := y.Floor;
    if y - f as real < 0.5 {
      assert f as real <= y + 0.5 < f as real + 1.0;
    } else {
      assert f as real + 1.0 <= y + 0.5 < f as real + 2.0;
    }
  }
}
