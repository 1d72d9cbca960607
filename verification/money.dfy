/** Monetary arithmetic of the wage-scale adjustment.

    The IPC is carried as an integer number of hundredths of a percent
    (2.50 % is 250), which is exactly what `parseFloat(x.toFixed(2))`
    can produce.  Scaling is done in exact rational arithmetic; the
    double-precision rounding error of `v * factor` is not modelled. */
module Money {

  /** Hundredths of a percent in a whole: the factor is `1 + ipc / 10000`. */
  const Whole: int := 10000

  /** `r` is what `Math.round` gives for `x`: the nearest integer, with a
      tie going up (toward +infinity). */
  ghost predicate IsRoundingOf(r: int, x: real)
  {
    r as real - 0.5 <= x < r as real + 0.5
  }

  /** `Math.round(x)`. */
  function Round(x: real): (r: int)
    ensures IsRoundingOf(r, x)
  {
    (x + 0.5).Floor
  }

  /** `1 + ipcMensual / 100` for an IPC given in hundredths of a percent. */
  function Factor(ipc: int): real
  {
    1.0 + ipc as real / Whole as real
  }

  /** `Math.round(v * factor)`: an amount adjusted by the IPC. */
  function Scale(v: int, ipc: int): (r: int)
    ensures IsRoundingOf(r, v as real * Factor(ipc))
  {
    Round(v as real * Factor(ipc))
  }

  /** There is only one rounding of a given real. */
  lemma RoundingUnique(r: int, r': int, x: real)
    requires IsRoundingOf(r, x) && IsRoundingOf(r', x)
    ensures r == r'
  {
    assert r as real < r' as real + 1.0;
    assert r' as real < r as real + 1.0;
  }

  /** An independent, integer-only definition of the scaled amount:
      half-up rounding of `v * (10000 + ipc) / 10000` as one Euclidean
      division. */
  lemma ScaleByIntegers(v: int, ipc: int)
    ensures Scale(v, ipc) == (2 * v * (Whole + ipc) + Whole) / (2 * Whole)
  {
    var n := 2 * v * (Whole + ipc) + Whole;
    var q := n / (2 * Whole);
    var m := n % (2 * Whole);
    assert n == 2 * Whole * q + m && 0 <= m < 2 * Whole;
    var x := v as real * Factor(ipc);
    assert x + 0.5 == n as real / (2 * Whole) as real;
    assert (n as real) / 20000.0 == q as real + m as real / 20000.0;
    assert IsRoundingOf(q, x);
    RoundingUnique(Scale(v, ipc), q, x);
  }

  /** A positive IPC never lowers a non-negative amount. */
  lemma ScaleNeverLowers(v: int, ipc: int)
    requires v >= 0 && ipc > 0
    ensures Scale(v, ipc) >= v
  {
    var x := v as real * Factor(ipc);
    assert x == v as real + v as real * (ipc as real / Whole as real);
    assert v as real * (ipc as real / Whole as real) >= 0.0;
  }

  /** The worked example: 850000 at 2.50 % becomes 871250. */
  lemma ScaleExample()
    ensures Scale(850000, 250) == 871250
  {
    assert 850000.0 * Factor(250) == 871250.0;
  }

  /** Scaling a positive real amount (no rounding) moves it in the
      direction of the IPC's sign, and is exact in hundredths. */
  lemma UnroundedScale(v: real, ipc: int)
    ensures v * Factor(ipc) * Whole as real == v * (Whole + ipc) as real
    ensures v > 0.0 ==> (v * Factor(ipc) < v <==> ipc < 0)
    ensures v > 0.0 ==> (v * Factor(ipc) > v <==> ipc > 0)
  {
    var d := v * (ipc as real / Whole as real);
    assert v * Factor(ipc) == v + d;
    if v > 0.0 {
      if ipc < 0 {
        assert d < 0.0;
      } else if ipc > 0 {
        assert d > 0.0;
      } else {
        assert d == 0.0;
      }
    }
  }
}
