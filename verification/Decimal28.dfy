/** The total typed on the deal form, which reaches the books through the unit price. */
module Decimal28 {
  import opened Algebra
  import opened Amounts
  import opened Books
  import opened Context

  // ------------------------------------------------------------------ the deal form

  datatype Cleaned = Price(price: real) | PriceMissing | PriceNotPositive | QuantityMissing

  /** The unit price the form settles on: a total, when given, overrides the price typed. */
  function CleanPrice(quantity: Option<real>, price: Option<real>, total: Option<real>): Cleaned
    requires quantity.Some? ==> quantity.value > 0.0
    requires total.Some? ==> total.value > 0.0
  {
    if quantity.None? then QuantityMissing
    else if total.Some? then
      var quotient := total.value / quantity.value;
      Price(Fl(quotient))
    else if price.None? || price.value == 0.0 then PriceMissing
    else if price.value < 0.0 then PriceNotPositive
    else Price(price.value)
  }

  /** What the deal service multiplies out and stores. */
  function StoredTotal(m: Rounding, quantity: real, price: real): real
    requires quantity > 0.0 && price > 0.0
  {
    Store(m, Fl(quantity * price))
  }

  /** The form settles on a price exactly when a quantity was given and a total or a positive price; a total makes the
      price typed irrelevant, and without one the price is what was typed.  Every price it settles on is positive. */
  lemma PriceAccepted(quantity: Option<real>, price: Option<real>, total: Option<real>)
    requires quantity.Some? ==> quantity.value > 0.0
    requires total.Some? ==> total.value > 0.0
    ensures var cleaned := CleanPrice(quantity, price, total);
      && (cleaned.Price? <==> quantity.Some? && (total.Some? || (price.Some? && price.value > 0.0)))
      && (cleaned.Price? ==> cleaned.price > 0.0)
      && (cleaned.Price? && total.None? ==> Some(cleaned.price) == price)
      && (total.Some? ==> cleaned == CleanPrice(quantity, None, total))
      && (cleaned.PriceNotPositive? <==> quantity.Some? && total.None? && price.Some? && price.value < 0.0)
      && (cleaned.PriceMissing? <==> quantity.Some? && total.None? && (price.None? || price.value == 0.0))
  {
    hide Fl;
    if quantity.Some? && total.Some? {
      var s := total.value / quantity.value;
      FlError(s);
      Linear(Fl(s), s);
    }
  }

  lemma StoreNear(m: Rounding, x: real, y: real)
    requires m != Exact && OnGrid(m, x) && -0.000000005 < y - x < 0.000000005
    ensures Store(m, y) == x
  {
    var k := (x * SCALE).Floor;
    assert x == k as real / SCALE;
    assert -0.5 < y * SCALE - k as real < 0.5;
    assert NearestEven(y * SCALE) == k && NearestAway(y * SCALE) == k;
  }

  lemma ProductError(q: real, s: real, p: real, total: real)
    requires q > 0.0 && q * s == total && -s <= Times(DIGITS, p - s) <= s
    ensures -total <= Times(DIGITS, q * p - total) <= total
  {
    var d := DIGITS * (p - s);
    assert -s <= d <= s;
    assert q * -s <= q * d <= q * s;
    assert q * p - total == q * (p - s);
    assert q * d == DIGITS * (q * (p - s));
  }

  /** A total typed on the form reaches the books as typed, though it travels as a unit price: for every
      quantity and every total with at most eight decimals up to nine times ten to the 18th. */
  lemma TypedTotalSurvives(m: Rounding, q: real, price: Option<real>, total: real)
    requires m != Exact && q > 0.0 && OnGrid(m, total) && 0.0 < total <= 9000000000000000000.0
    ensures var cleaned := CleanPrice(Some(q), price, Some(total));
      cleaned.Price? && cleaned.price > 0.0 && StoredTotal(m, q, cleaned.price) == total
  {
    hide Fl, OnGrid, NearestEven, NearestAway, Ten;
    var s := total / q;
    assert q * s == total;
    var p := Fl(s);
    FlError(s);
    Linear(p, s);
    ProductError(q, s, p, total);
    assert p > 0.0;
    var y := q * p;
    assert y > 0.0;
    Close(y, total);
    StoreNear(m, total, Fl(y));
    assert CleanPrice(Some(q), price, Some(total)) == Price(p);
    Multiplied(m, q, p, y);
  }

  lemma Multiplied(m: Rounding, q: real, p: real, y: real)
    requires q > 0.0 && p > 0.0 && y == q * p
    ensures StoredTotal(m, q, p) == Store(m, Fl(y))
  {
    hide Fl, Store;
  }

  lemma Linear(p: real, s: real)
    requires s > 0.0 && -s <= Times(DIGITS, p - s)
    ensures p > 0.0
  {
  }

  /** A product this close to the total rounds to a number less than half a quantum away from it. */
  lemma Close(y: real, total: real)
    requires y > 0.0 && -total <= Times(DIGITS, y - total) <= total && 0.0 < total <= 9000000000000000000.0
    ensures -0.000000005 < Fl(y) - total < 0.000000005
  {
    hide Fl, Unit, Ten;
    Powers();
    var d := y - total;
    assert -0.0000000045 <= d <= 0.0000000045;
    if total == 9000000000000000000.0 {
      UnitIs(y, 18);
      CloseAtLimit(y);
    } else {
      assert -0.0000000045 < d < 0.0000000045;
      UnitAtMost(y, 18);
      FlClose(y);
      Half(Unit(y));
    }
  }

  lemma Half(u: real)
    ensures Times(u, 0.5) == 0.5 * u
  {
  }

  /** At the limit itself a product may lie exactly half-way, and then goes to the even side, which is near. */
  lemma CloseAtLimit(y: real)
    requires 0.0 < y && -0.0000000045 <= y - 9000000000000000000.0 <= 0.0000000045 && Unit(y) == 0.000000001
    ensures -0.000000005 < Fl(y) - 9000000000000000000.0 < 0.000000005
  {
    hide Unit;
    var z := Over(y, 0.000000001);
    EvenBound(z, 9000000000000000000000000000);
  }

  lemma EvenBound(z: real, n: int)
    requires n % 2 == 0 && -4.5 <= z - n as real <= 4.5
    ensures -4 <= NearestEven(z) - n <= 4
  {
    var f := z.Floor;
    assert n - 5 <= f <= n + 4;
  }

  // ------------------------------------------------------------------ and not beyond

  /** A quantity with 19 whole digits and 36 decimals: what a total of 9e18 and a quantum comes to at a price of one
      and half a unit of its 28th digit. */
  const AWKWARD: real := 9000000000000000000.000000005499999999999999999999999997

  /** The bound is the largest there is: of the very next total, this quantity makes one quantum more. */
  lemma NextTotalIsLost(m: Rounding)
    requires m != Exact
    ensures var total := 9000000000000000000.00000001;
      var cleaned := CleanPrice(Some(AWKWARD), None, Some(total));
      && cleaned.Price? && cleaned.price > 0.0
      && StoredTotal(m, AWKWARD, cleaned.price) == total + 0.00000001
  {
    hide Unit, Ten;
    Powers();
    var total := 9000000000000000000.00000001;
    var s := total / AWKWARD;
    UnitIs(s, 0);
    var z := Over(s, 0.000000000000000000000000001);
    assert 1000000000000000000000000000.5 < z < 1000000000000000000000000001.0;
    assert NearestEven(z) == 1000000000000000000000000001;
    var p := 1.000000000000000000000000001;
    assert Fl(s) == p;
    var y := AWKWARD * p;
    UnitIs(y, 18);
    var v := Over(y, 0.000000001);
    assert 9000000000000000000000000014.5 < v < 9000000000000000000000000015.0;
    assert NearestEven(v) == 9000000000000000000000000015;
    assert Fl(y) == 9000000000000000000.000000015;
    assert Store(m, 9000000000000000000.000000015) == 9000000000000000000.00000002 by {
      var x := 9000000000000000000.000000015 * SCALE;
      assert x == 900000000000000000000000001.5 && x.Floor == 900000000000000000000000001;
      assert NearestEven(x) == 900000000000000000000000002 && NearestAway(x) == 900000000000000000000000002;
    }
    Multiplied(m, AWKWARD, p, y);
  }

  /** Far beyond it everyday quantities do the same: three units for a total of twenty whole digits come out a
      quantum short. */
  lemma LongTotalIsLost(m: Rounding)
    requires m != Exact
    ensures var total := 99999999999999999999.00000001;
      var cleaned := CleanPrice(Some(3.0), None, Some(total));
      && cleaned.Price? && cleaned.price > 0.0
      && StoredTotal(m, 3.0, cleaned.price) == total - 0.00000001
  {
    hide Unit, Ten;
    Powers();
    LongPowers();
    var total := 99999999999999999999.00000001;
    var s := total / 3.0;
    UnitIs(s, 19);
    assert Over(s, 0.00000001) - 3333333333333333333300000000.0 < 0.5;
    assert NearestEven(Over(s, 0.00000001)) == 3333333333333333333300000000;
    assert Fl(s) == 33333333333333333333.0;
    var y := 3.0 * 33333333333333333333.0;
    UnitIs(y, 19);
    assert Over(y, 0.00000001) == 9999999999999999999900000000.0;
    assert Fl(y) == y;
    StoreOnGrid(m, y);
    Multiplied(m, 3.0, 33333333333333333333.0, y);
  }

  /** A deal of that quantity is posted only where columns round half away: with half to even its two legs are
      stored differently, and the second balance check refuses it. */
  lemma AwkwardLegs(m: Rounding)
    requires m != Exact
    ensures Store(m, AWKWARD) == Store(m, Ctx(m, AWKWARD)) <==> m.HalfAway?
  {
    hide Unit, Ten;
    Powers();
    UnitIs(AWKWARD, 18);
    var z := Over(AWKWARD, 0.000000001);
    assert 9000000000000000000000000005.0 < z < 9000000000000000000000000005.5;
    assert NearestEven(z) == 9000000000000000000000000005;
    assert Ctx(m, AWKWARD) == 9000000000000000000.000000005;
    var x, y := AWKWARD * SCALE, 9000000000000000000.000000005 * SCALE;
    assert 900000000000000000000000000.5 < x < 900000000000000000000000001.0;
    assert y == 900000000000000000000000000.5;
    assert x.Floor == 900000000000000000000000000 && y.Floor == 900000000000000000000000000;
    assert NearestEven(x) == 900000000000000000000000001 && NearestEven(y) == 900000000000000000000000000;
    assert NearestAway(x) == 900000000000000000000000001 && NearestAway(y) == 900000000000000000000000001;
  }

  /** A quantity of 28 digits, which is posted under both roundings, loses a total a little above the bound. */
  lemma ShortQuantityLoses(m: Rounding)
    requires m != Exact
    ensures var total, quantity := 9500000000000000000.00000001, 9500000000000000000.000000005;
      var cleaned := CleanPrice(Some(quantity), None, Some(total));
      && Ctx(m, quantity) == quantity
      && cleaned.Price? && cleaned.price > 0.0
      && StoredTotal(m, quantity, cleaned.price) == total + 0.00000001
  {
    hide Unit, Ten;
    Powers();
    var total, q := 9500000000000000000.00000001, 9500000000000000000.000000005;
    UnitIs(q, 18);
    assert Over(q, 0.000000001) == 9500000000000000000000000005.0;
    NearestInt(9500000000000000000000000005);
    assert Fl(q) == q;
    var s := total / q;
    UnitIs(s, 0);
    var z := Over(s, 0.000000000000000000000000001);
    assert 1000000000000000000000000000.5 < z < 1000000000000000000000000001.0;
    assert NearestEven(z) == 1000000000000000000000000001;
    var p := 1.000000000000000000000000001;
    assert Fl(s) == p;
    var y := q * p;
    UnitIs(y, 18);
    var v := Over(y, 0.000000001);
    assert 9500000000000000000000000014.5 < v < 9500000000000000000000000015.0;
    assert NearestEven(v) == 9500000000000000000000000015;
    assert Fl(y) == 9500000000000000000.000000015;
    assert Store(m, 9500000000000000000.000000015) == 9500000000000000000.00000002 by {
      var x := 9500000000000000000.000000015 * SCALE;
      assert x == 950000000000000000000000001.5 && x.Floor == 950000000000000000000000001;
      assert NearestEven(x) == 950000000000000000000000002 && NearestAway(x) == 950000000000000000000000002;
    }
    Multiplied(m, q, p, y);
  }
}
