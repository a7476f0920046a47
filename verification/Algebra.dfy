/** Products and quotients of reals as named operations, so that proofs that only need the laws
    below can leave the operations themselves out of sight. */
module Algebra {

  function Times(x: real, y: real): real {
    x * y
  }

  function Over(x: real, n: real): real
    requires n != 0.0
  {
    x / n
  }

  lemma TimesSum(a: real, x: real, y: real, z: real)
    requires z == x + y
    ensures Times(a, z) == Times(a, x) + Times(a, y)
    ensures Times(z, a) == Times(x, a) + Times(y, a)
  {
    assert a * (x + y) == a * x + a * y;
  }

  lemma TimesZero(x: real)
    ensures Times(0.0, x) == 0.0 && Times(x, 0.0) == 0.0 && Times(1.0, x) == x && Times(x, 1.0) == x
  {
  }

  lemma TimesSwap(x: real, y: real)
    ensures Times(x, y) == Times(y, x)
  {
  }

  lemma TimesPositive(a: real, b: real)
    requires a > 0.0 && b > 0.0
    ensures Times(a, b) > 0.0
  {
  }

  lemma TimesLe(a: real, x: real, y: real)
    requires a >= 0.0 && x <= y
    ensures Times(a, x) <= Times(a, y)
  {
    var d := y - x;
    assert Times(a, d) >= 0.0;
    TimesSum(a, x, d, y);
  }

  lemma TimesCancel(a: real, x: real, y: real)
    requires a > 0.0 && Times(a, x) <= Times(a, y)
    ensures x <= y
  {
    hide Times;
    if x > y {
      TimesSum(a, y, x - y, x);
      TimesPositive(a, x - y);
      assert false;
    }
  }

  lemma TimesOver(n: real, v: real)
    requires n != 0.0
    ensures Times(n, Over(v, n)) == v
  {
  }

  /** The quotient is the only number that gives `v` back. */
  lemma OverIs(n: real, v: real, x: real)
    requires n != 0.0 && Times(n, x) == v
    ensures Over(v, n) == x
  {
  }

  /** A weighted mean lies between the values it averages. */
  lemma Mean(a: real, x: real, b: real, y: real, lo: real, hi: real)
    requires a > 0.0 && b > 0.0 && lo <= x <= hi && lo <= y <= hi
    ensures lo <= Over(Times(a, x) + Times(b, y), a + b) <= hi
  {
    hide Times, Over;
    var n := a + b;
    var z := Over(Times(a, x) + Times(b, y), n);
    TimesOver(n, Times(a, x) + Times(b, y));
    TimesLe(a, lo, x);
    TimesLe(a, x, hi);
    TimesLe(b, lo, y);
    TimesLe(b, y, hi);
    TimesSum(lo, a, b, n);
    TimesSum(hi, a, b, n);
    TimesCancel(n, lo, z);
    TimesCancel(n, z, hi);
  }

  /** An error of at most `h` in a factor is one of at most `w` times `h` in the product. */
  lemma ScaledError(w: real, x: real, y: real, h: real)
    requires w >= 0.0 && -h <= x - y <= h
    ensures -Times(w, h) <= Times(w, x) - Times(w, y) <= Times(w, h)
  {
    hide Times;
    TimesSum(w, y, x - y, x);
    TimesLe(w, -h, x - y);
    TimesLe(w, x - y, h);
    TimesSum(w, h, -h, 0.0);
    TimesZero(w);
  }
}
