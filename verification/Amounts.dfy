/** Stored amounts: what an 8-decimal column does to the number written into it. */
module Amounts {

  /** Column quanta per unit: every money column has eight decimal places. */
  const SCALE: real := 100000000.0

  /** How a number is fitted to its column.  `HalfEven` is the quantisation done on SQLite,
      `HalfAway` the one PostgreSQL's numeric columns do, and `Exact` the idealisation in
      which nothing is lost. */
  datatype Rounding = Exact | HalfEven | HalfAway

  function NearestEven(x: real): int {
    var f := x.Floor;
    var d := x - f as real;
    if d < 0.5 then f
    else if d > 0.5 then f + 1
    else if f % 2 == 0 then f
    else f + 1
  }

  function NearestAway(x: real): int {
    if x >= 0.0 then (x + 0.5).Floor else -((0.5 - x).Floor)
  }

  /** The value read back after `x` has been saved. */
  function Store(m: Rounding, x: real): real {
    match m
    case Exact => x
    case HalfEven => NearestEven(x * SCALE) as real / SCALE
    case HalfAway => NearestAway(x * SCALE) as real / SCALE
  }

  /** `x` has at most eight decimals (no condition in the idealised mode). */
  predicate OnGrid(m: Rounding, x: real) {
    m.Exact? || (x * SCALE).Floor as real == x * SCALE
  }

  /** Half a quantum: the most one save can change a number by. */
  function HalfUnit(m: Rounding): real {
    if m.Exact? then 0.0 else 0.5 / SCALE
  }

  /** `x` and `y` differ by at most `h`. */
  predicate Within(x: real, y: real, h: real) {
    -h <= x - y <= h
  }

  function Abs(x: real): real {
    if x < 0.0 then -x else x
  }

  function Max(x: real, y: real): real {
    if x < y then y else x
  }

  // ---------------------------------------------------------------- properties

  lemma GridInt(k: int)
    ensures (k as real / SCALE) * SCALE == k as real
    ensures ((k as real / SCALE) * SCALE).Floor == k
  {
  }

  /** Both roundings are odd functions, so a pair of lines `+x`, `-x` stays balanced once stored. */
  lemma StoreOdd(m: Rounding, x: real)
    ensures Store(m, -x) == -Store(m, x)
  {
    assert (-x) * SCALE == -(x * SCALE);
    NearestOdd(x * SCALE);
  }

  lemma NearestOdd(y: real)
    ensures NearestEven(-y) == -NearestEven(y)
    ensures NearestAway(-y) == -NearestAway(y)
  {
    var f := y.Floor;
    if f as real == y {
      assert (-y).Floor == -f;
    } else {
      assert (-y).Floor == -f - 1;
    }
  }

  /** A save moves the number by at most half a quantum, onto the grid. */
  lemma StoreError(m: Rounding, x: real)
    ensures Within(Store(m, x), x, HalfUnit(m))
    ensures OnGrid(m, Store(m, x))
  {
    if !m.Exact? {
      var y := x * SCALE;
      var k := if m.HalfEven? then NearestEven(y) else NearestAway(y);
      assert -0.5 <= k as real - y <= 0.5;
      GridInt(k);
      assert Store(m, x) == k as real / SCALE;
      assert (k as real / SCALE) - x == (k as real - y) / SCALE;
    }
  }

  /** A number that already has eight decimals is stored unchanged. */
  lemma StoreOnGrid(m: Rounding, x: real)
    requires OnGrid(m, x)
    ensures Store(m, x) == x
  {
    if !m.Exact? {
      var k := (x * SCALE).Floor;
      assert x == k as real / SCALE;
      NearestInt(k);
    }
  }

  lemma NearestInt(k: int)
    ensures NearestEven(k as real) == k && NearestAway(k as real) == k
  {
    assert (k as real).Floor == k;
  }

  lemma StoreMonotone(m: Rounding, x: real, y: real)
    requires x <= y
    ensures Store(m, x) <= Store(m, y)
  {
    if !m.Exact? {
      var a, b := x * SCALE, y * SCALE;
      assert a <= b;
      assert NearestEven(a) <= NearestEven(b);
      assert NearestAway(a) <= NearestAway(b);
    }
  }

  /** A number is on the grid when it is a whole number of quanta. */
  lemma GridCount(m: Rounding, x: real, k: int)
    requires x * SCALE == k as real
    ensures OnGrid(m, x)
  {
    assert (k as real).Floor == k;
  }

  lemma GridSum(m: Rounding, x: real, y: real)
    requires OnGrid(m, x) && OnGrid(m, y)
    ensures OnGrid(m, x + y) && OnGrid(m, x - y) && OnGrid(m, -x)
  {
    if !m.Exact? {
      var a, b := (x * SCALE).Floor, (y * SCALE).Floor;
      assert x * SCALE == a as real && y * SCALE == b as real;
      hide OnGrid;
      GridCount(m, x + y, a + b);
      GridCount(m, x - y, a - b);
      GridCount(m, -x, -a);
    }
  }

  /** Exactly half-way between two quanta: the only numbers the two roundings disagree on. */
  predicate IsTie(x: real) {
    (x * SCALE) - (x * SCALE).Floor as real == 0.5
  }

  /** Adding an unrounded `x` to a stored `old` and saving gives the same as adding the saved `x`,
      except exactly when `x` is a tie and: with half-even, the old quantum count is odd; with
      half-away, the sum ends up on the other side of zero from `x`. */
  lemma SaveOfSum(m: Rounding, prior: real, x: real)
    requires OnGrid(m, prior)
    ensures m.Exact? ==> Store(m, prior + x) == prior + Store(m, x)
    ensures m.HalfEven? ==>
      (Store(m, prior + x) == prior + Store(m, x) <==> !(IsTie(x) && (prior * SCALE).Floor % 2 != 0))
    ensures m.HalfAway? ==>
      (Store(m, prior + x) == prior + Store(m, x) <==>
        !(IsTie(x) && (x < 0.0 <==> prior + x >= 0.0)))
  {
    if !m.Exact? {
      var k, y := (prior * SCALE).Floor, x * SCALE;
      assert (prior + x) * SCALE == k as real + y;
      assert (k as real + y).Floor == k + y.Floor;
      var lhs := if m.HalfEven? then NearestEven(k as real + y) else NearestAway(k as real + y);
      var rhs := k + if m.HalfEven? then NearestEven(y) else NearestAway(y);
      assert Store(m, prior + x) == lhs as real / SCALE;
      assert prior + Store(m, x) == rhs as real / SCALE;
      assert Store(m, prior + x) == prior + Store(m, x) <==> lhs == rhs;
      if m.HalfEven? {
        TieEven(k, y);
      } else {
        TieAway(k, y);
      }
    }
  }

  lemma TieEven(k: int, y: real)
    ensures NearestEven(k as real + y) == k + NearestEven(y) <==> !(y - y.Floor as real == 0.5 && k % 2 != 0)
  {
    assert (k as real + y).Floor == k + y.Floor;
    assert (k + y.Floor) % 2 == (k % 2 + y.Floor % 2) % 2;
  }

  lemma TieAway(k: int, y: real)
    ensures NearestAway(k as real + y) == k + NearestAway(y) <==>
      !(y - y.Floor as real == 0.5 && (y < 0.0 <==> k as real + y >= 0.0))
  {
    NearestAwayFloor(y);
    NearestAwayFloor(k as real + y);
    assert (k as real + y).Floor == k + y.Floor;
  }

  lemma NearestAwayFloor(y: real)
    ensures var d := y - y.Floor as real;
      NearestAway(y) == if d < 0.5 then y.Floor else if d > 0.5 then y.Floor + 1
                        else if y >= 0.0 then y.Floor + 1 else y.Floor
  {
  }
}
