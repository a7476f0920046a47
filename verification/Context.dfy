/** Arithmetic in the default decimal context: 28 significant digits, half to even. */
module Context {
  import opened Algebra
  import opened Amounts

  function Ten(e: int): (t: real)
    ensures t > 0.0
    decreases if e < 0 then -e else e
  {
    if e == 0 then 1.0 else if e > 0 then 10.0 * Ten(e - 1) else Ten(e + 1) / 10.0
  }

  lemma TenStep(e: int)
    ensures Ten(e + 1) == 10.0 * Ten(e)
  {
  }

  lemma {:induction false} TenUp(e: int, k: nat)
    ensures Ten(e + k) == Times(Ten(k), Ten(e))
  {
    hide Times;
    if k == 0 {
      TimesZero(Ten(e));
    } else {
      TenUp(e, k - 1);
      TenStep(e + k - 1);
      TenStep(k - 1);
      Tenfold(Ten(k - 1), Ten(e));
    }
  }

  lemma Tenfold(x: real, y: real)
    ensures 10.0 * Times(x, y) == Times(10.0 * x, y)
  {
  }

  lemma {:induction false} TenGrows(k: nat)
    ensures Ten(k) > k as real
  {
    if k == 0 {
    } else {
      TenGrows(k - 1);
    }
  }

  lemma {:induction false} TenMonotone(e: int, k: nat)
    ensures Ten(e) <= Ten(e + k)
  {
    if k == 0 {
    } else {
      TenMonotone(e, k - 1);
      TenStep(e + k - 1);
    }
  }

  /** Searches the power of ten `x` starts with. */
  function Leading(x: real, lo: int, hi: int): (e: int)
    requires lo < hi && Ten(lo) <= x < Ten(hi)
    ensures Ten(e) <= x < Ten(e + 1)
    decreases hi - lo
  {
    if x < Ten(lo + 1) then lo else Leading(x, lo + 1, hi)
  }

  lemma Bracket(x: real)
    requires x > 0.0
    ensures -((1.0 / x).Floor) - 1 < x.Floor + 1
    ensures Ten(-((1.0 / x).Floor) - 1) <= x < Ten(x.Floor + 1)
  {
    var k: nat := (1.0 / x).Floor + 1;
    TenGrows(k);
    TenGrows(x.Floor + 1);
    var low := -(k as int);
    TenUp(low, k);
    Inverse(Ten(k), Ten(low), x);
  }

  lemma Inverse(p: real, t: real, x: real)
    requires x > 0.0 && p > 1.0 / x && t > 0.0 && Times(p, t) == 1.0
    ensures t <= x
  {
    var y, d := 1.0 / x, p - 1.0 / x;
    assert y * x == 1.0 && d * x > 0.0;
    assert p * x == y * x + d * x;
    TimesCancel(p, t, x);
  }

  /** The place of the last of 28 digits. */
  function Unit(x: real): (u: real)
    requires x > 0.0
    ensures u > 0.0
  {
    Bracket(x);
    Ten(Leading(x, -((1.0 / x).Floor) - 1, x.Floor + 1) - 27)
  }

  /** The 28-digit number nearest to `x`, ties to the even digit. */
  function Fl(x: real): real
    requires x > 0.0
  {
    Times(NearestEven(Over(x, Unit(x))) as real, Unit(x))
  }

  lemma UnitSmall(x: real)
    requires x > 0.0
    ensures Times(1000000000000000000000000000.0, Unit(x)) <= x
  {
    hide Times;
    Bracket(x);
    var e := Leading(x, -((1.0 / x).Floor) - 1, x.Floor + 1);
    TenUp(e - 27, 27);
    Ten27();
  }

  lemma Ten27()
    ensures Ten(27) == 1000000000000000000000000000.0
  {
    assert Ten(9) == 1000000000.0;
    TenUp(9, 9);
    TenUp(18, 9);
  }

  const DIGITS: real := 2000000000000000000000000000.0

  /** The nearest number is at most half a unit of the last place away. */
  lemma FlClose(x: real)
    requires x > 0.0
    ensures -Times(Unit(x), 0.5) <= Fl(x) - x <= Times(Unit(x), 0.5)
  {
    hide Unit, NearestEven, Over, Times;
    var u := Unit(x);
    var y := Over(x, u);
    TimesOver(u, x);
    NearestClose(y);
    var k := NearestEven(y) as real;
    ScaledError(u, k, y, 0.5);
    TimesSwap(u, k);
  }

  /** One operation in the context is off by at most half a unit in the 28th digit. */
  lemma FlError(x: real)
    requires x > 0.0
    ensures -x <= Times(DIGITS, Fl(x) - x) <= x
  {
    hide Unit, Fl, Times;
    UnitSmall(x);
    FlClose(x);
    Scaled(Fl(x) - x, Unit(x), x);
  }

  lemma NearestClose(y: real)
    ensures -0.5 <= NearestEven(y) as real - y <= 0.5
  {
  }

  lemma Scaled(d: real, u: real, x: real)
    requires -Times(u, 0.5) <= d <= Times(u, 0.5) && Times(1000000000000000000000000000.0, u) <= x
    ensures -x <= Times(DIGITS, d) <= x
  {
  }

  lemma UnitIs(x: real, e: int)
    requires x > 0.0 && Ten(e) <= x < Ten(e + 1)
    ensures Unit(x) == Ten(e - 27)
  {
    Bracket(x);
    var f := Leading(x, -((1.0 / x).Floor) - 1, x.Floor + 1);
    if f < e {
      TenMonotone(f + 1, e - f - 1);
    } else if e < f {
      TenMonotone(e + 1, f - e - 1);
    }
  }

  lemma UnitAtMost(x: real, e: int)
    requires x > 0.0 && x < Ten(e + 1)
    ensures Unit(x) <= Ten(e - 27)
  {
    Bracket(x);
    var f := Leading(x, -((1.0 / x).Floor) - 1, x.Floor + 1);
    if f > e {
      TenMonotone(e + 1, f - e - 1);
    } else {
      TenMonotone(f - 27, e - f);
    }
  }

  lemma Powers()
    ensures Ten(-9) == 0.000000001 && Ten(18) == 1000000000000000000.0 && Ten(19) == 10000000000000000000.0
    ensures Ten(0) == 1.0 && Ten(1) == 10.0 && Ten(-27) == 0.000000000000000000000000001
  {
    Ten27();
    assert Ten(9) == 1000000000.0;
    TenUp(-9, 9);
    TenUp(9, 9);
    TenUp(18, 1);
    TenUp(-27, 27);
  }

  lemma LongPowers()
    ensures Ten(-8) == 0.00000001 && Ten(20) == 100000000000000000000.0
  {
    Powers();
    TenStep(-9);
    TenStep(19);
  }

  // ------------------------------------------------------------------ what one operation makes of an amount

  /** From here on an amount is too long for its column, and the database refuses it. */
  const WIDE: real := 100000000000000000000.0

  /** The amount after one operation that leaves it as it is, such as taking its negative or adding it to zero:
      rounded to the context.  In the idealised mode, and beyond the width of the columns, nothing is done. */
  function Ctx(m: Rounding, x: real): real {
    if m.Exact? || x == 0.0 || x >= WIDE || x <= -WIDE then x
    else if x > 0.0 then Fl(x)
    else -Fl(-x)
  }

  lemma CtxOdd(m: Rounding, x: real)
    ensures Ctx(m, -x) == -Ctx(m, x)
  {
    hide Fl;
  }

  /** A number that is a whole multiple of its unit stays as it is. */
  lemma FlWhole(x: real, k: int)
    requires x > 0.0 && x == Times(k as real, Unit(x))
    ensures Fl(x) == x
  {
    hide Unit;
    var u := Unit(x);
    TimesSwap(k as real, u);
    OverIs(u, x, k as real);
    NearestInt(k);
  }

  function PowerOfTen(j: nat): (p: int)
    ensures p > 0 && p as real == Ten(j)
  {
    if j == 0 then 1 else 10 * PowerOfTen(j - 1)
  }

  /** A number with `d` decimals and at most 28 digits is exact in the context. */
  lemma FlDecimal(x: real, k: int, d: nat)
    requires 0.0 < x < Ten(28 - d) && x == Times(k as real, Ten(-(d as int)))
    ensures Fl(x) == x
  {
    hide Fl, Ten, Unit, Times;
    Bracket(x);
    var e := Leading(x, -((1.0 / x).Floor) - 1, x.Floor + 1);
    if e >= 28 - d {
      TenMonotone(28 - d, e - (28 - d));
    }
    UnitIs(x, e);
    var j: nat := 27 - d - e;
    TenUp(e - 27, j);
    Regroup(k as real, Ten(j), Ten(e - 27));
    var n := PowerOfTen(j);
    WholeProduct(k, n, Ten(j));
    FlWhole(x, k * n);
  }

  lemma GridQuanta(x: real)
    requires OnGrid(HalfEven, x)
    ensures x == Times((x * SCALE).Floor as real, Ten(-8)) && Ten(28 - 8) == WIDE
  {
    LongPowers();
    hide Ten;
    assert (x * SCALE) * 0.00000001 == x;
  }

  /** Eight decimals below the width of the columns fit the context. */
  lemma FlGrid(x: real)
    requires 0.0 < x < WIDE && OnGrid(HalfEven, x)
    ensures Fl(x) == x
  {
    hide Fl, Ten, Times, OnGrid;
    GridQuanta(x);
    FlDecimal(x, (x * SCALE).Floor, 8);
  }

  lemma WholeProduct(k: int, n: int, t: real)
    requires n as real == t
    ensures (k * n) as real == Times(k as real, t)
  {
  }

  lemma Regroup(a: real, b: real, c: real)
    ensures Times(a, Times(b, c)) == Times(Times(a, b), c)
  {
  }

  lemma CtxGrid(m: Rounding, x: real)
    requires OnGrid(m, x)
    ensures Ctx(m, x) == x
  {
    hide Fl;
    if !m.Exact? && x != 0.0 && -WIDE < x < WIDE {
      if x > 0.0 {
        FlGrid(x);
      } else {
        GridSum(m, x, x);
        FlGrid(-x);
      }
    }
  }

  /** A 28-digit number is rounded to itself. */
  lemma FlTwice(x: real)
    requires x > 0.0
    ensures Fl(x) > 0.0 && Fl(Fl(x)) == Fl(x)
  {
    hide Fl, Unit;
    Bracket(x);
    var e := Leading(x, -((1.0 / x).Floor) - 1, x.Floor + 1);
    UnitIs(x, e);
    var u, n, y := Ten(e - 27), NearestEven(Over(x, Ten(e - 27))), Fl(x);
    FlDigits(x, e);
    TenUp(e - 27, 27);
    Ten27();
    TenStep(e);
    if n == 10000000000000000000000000000 {
      TenStep(e + 1);
      UnitIs(y, e + 1);
      TenStep(e - 27);
      TenfoldUnit(n, u);
      FlWhole(y, 1000000000000000000000000000);
    } else {
      UnitIs(y, e);
      FlWhole(y, n);
    }
  }

  lemma TenfoldUnit(n: int, u: real)
    requires n == 10000000000000000000000000000
    ensures Times(n as real, u) == Times(1000000000000000000000000000.0, 10.0 * u)
  {
  }

  /** The digits of a rounded number: 28 of them, or the next power of ten. */
  lemma FlDigits(x: real, e: int)
    requires x > 0.0 && Ten(e) <= x < Ten(e + 1) && Unit(x) == Ten(e - 27)
    ensures var n := NearestEven(Over(x, Ten(e - 27)));
      && 1000000000000000000000000000 <= n <= 10000000000000000000000000000
      && Fl(x) == Times(n as real, Ten(e - 27))
      && Ten(e) <= Fl(x) && (n < 10000000000000000000000000000 ==> Fl(x) < Ten(e + 1))
      && (n == 10000000000000000000000000000 ==> Fl(x) == Ten(e + 1))
  {
    hide Ten, Unit, Times, Over;
    var u := Ten(e - 27);
    TenUp(e - 27, 27);
    Ten27();
    TenUp(e - 27, 28);
    TenStep(27);
    var z := Over(x, u);
    TimesOver(u, x);
    TimesSwap(1000000000000000000000000000.0, u);
    TimesSwap(10000000000000000000000000000.0, u);
    TimesCancel(u, 1000000000000000000000000000.0, z);
    TimesCancel(u, z, 10000000000000000000000000000.0);
    var n := NearestEven(z);
    TimesSwap(n as real, u);
    TimesLe(u, 1000000000000000000000000000.0, n as real);
    if n < 10000000000000000000000000000 {
      TimesLe(u, n as real, 9999999999999999999999999999.0);
      TimesSum(u, 9999999999999999999999999999.0, 1.0, 10000000000000000000000000000.0);
      TimesZero(u);
    }
  }

  lemma CtxTwice(m: Rounding, x: real)
    ensures Ctx(m, Ctx(m, x)) == Ctx(m, x)
    ensures x > 0.0 ==> Ctx(m, x) > 0.0
    ensures x < 0.0 ==> Ctx(m, x) < 0.0
  {
    hide Fl;
    if x > 0.0 {
      FlTwice(x);
    } else if x < 0.0 {
      FlTwice(-x);
    }
  }
}
