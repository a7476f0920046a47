/** The weighted-average inventory row: what one deal does to it, what undoing a deal does to it,
    and how the stored average relates to the deals it came from. */
module Inventory {
  import opened Algebra
  import opened Amounts

  datatype Side = Buy | Sell

  /** One inventory row: stock held and average unit cost, both as stored. */
  datatype Position = Position(quantity: real, avgCost: real)

  const EMPTY := Position(0.0, 0.0)

  /** What applying a deal yields: the row as saved, and the (unrounded) cost and profit of the deal. */
  datatype Fill = Fill(position: Position, avgAtTime: real, realized: real)

  /** The average a purchase calls for: its price when there was no stock (or a short position),
      weighted with the old average otherwise. */
  function Blend(pos: Position, q: real, p: real): real
    requires pos.quantity + q > 0.0
  {
    if pos.quantity <= 0.0 then p
    else Over(Times(pos.quantity, pos.avgCost) + Times(q, p), pos.quantity + q)
  }

  /** The row after buying or selling `q` units at price `p`. */
  function Apply(m: Rounding, pos: Position, side: Side, q: real, p: real): Fill {
    match side
    case Buy =>
      var newQty := pos.quantity + q;
      var newAvg := if newQty > 0.0 then Blend(pos, q, p) else pos.avgCost;
      Fill(Position(Store(m, newQty), Store(m, newAvg)), pos.avgCost, 0.0)
    case Sell =>
      var avgAtTime := if pos.quantity > 0.0 then pos.avgCost else p;
      var newQty := pos.quantity - q;
      var newAvg := if newQty == 0.0 then 0.0 else pos.avgCost;
      Fill(Position(Store(m, newQty), Store(m, newAvg)), avgAtTime, Times(p - avgAtTime, q))
  }

  /** The row after a stored deal is taken back. */
  function Reverse(m: Rounding, pos: Position, side: Side, q: real, p: real, avgAtTime: real): Position {
    match side
    case Sell =>
      Position(Store(m, pos.quantity + q), if pos.avgCost == 0.0 then Store(m, avgAtTime) else pos.avgCost)
    case Buy =>
      var newQty := pos.quantity - q;
      var newAvg := if newQty > 0.0 then Over(Times(pos.quantity, pos.avgCost) - Times(q, p), newQty) else 0.0;
      Position(Store(m, newQty), Store(m, newAvg))
  }

  /** A deal as entered. */
  datatype Trade = Trade(side: Side, quantity: real, unitPrice: real)

  /** Running figures over a list of deals.  `weight` is the stock held after each purchase,
      summed, plus two per deal: the number of half quanta rounding may have cost. */
  datatype Tally = Tally(position: Position, bought: real, sold: real, realized: real, weight: real)

  ghost function Next(m: Rounding, t: Tally, d: Trade): Tally {
    var fill := Apply(m, t.position, d.side, d.quantity, d.unitPrice);
    var total := Store(m, Times(d.quantity, d.unitPrice));
    Tally(fill.position,
          t.bought + if d.side.Buy? then total else 0.0,
          t.sold + if d.side.Sell? then total else 0.0,
          t.realized + Store(m, fill.realized),
          t.weight + 2.0 + if d.side.Buy? then fill.position.quantity else 0.0)
  }

  /** The figures after all of `ds`, from an empty row. */
  ghost function Replay(m: Rounding, ds: seq<Trade>): Tally {
    if ds == [] then Tally(EMPTY, 0.0, 0.0, 0.0, 0.0)
    else Next(m, Replay(m, ds[..|ds| - 1]), ds[|ds| - 1])
  }

  ghost predicate Positive(ds: seq<Trade>) {
    forall i :: 0 <= i < |ds| ==> ds[i].quantity > 0.0 && ds[i].unitPrice > 0.0
  }

  /** No deal sells more than is held, and quantities fit their column. */
  ghost predicate NoShort(m: Rounding, ds: seq<Trade>) {
    && Positive(ds)
    && (forall i :: 0 <= i < |ds| ==> OnGrid(m, ds[i].quantity))
    && (forall i :: 0 <= i < |ds| && ds[i].side.Sell? ==>
        ds[i].quantity <= Replay(m, ds[..i]).position.quantity)
  }

  lemma NoShortPrefix(m: Rounding, ds: seq<Trade>)
    requires NoShort(m, ds) && ds != []
    ensures NoShort(m, ds[..|ds| - 1])
    ensures ds[|ds| - 1].side.Sell? ==>
      ds[|ds| - 1].quantity <= Replay(m, ds[..|ds| - 1]).position.quantity
  {
    hide Replay, OnGrid;
    var init := ds[..|ds| - 1];
    forall i | 0 <= i < |init|
      ensures init[..i] == ds[..i]
    {
    }
  }

  // ------------------------------------------------------------------ conservation

  /** Not short, with columns in range and no average left behind on an empty row. */
  ghost predicate Stocked(m: Rounding, pos: Position) {
    pos.quantity >= 0.0 && OnGrid(m, pos.quantity) && OnGrid(m, pos.avgCost) &&
    (pos.quantity == 0.0 ==> pos.avgCost == 0.0)
  }

  ghost function Value(pos: Position): real {
    Times(pos.quantity, pos.avgCost)
  }

  /** What the money side of the deals leaves unexplained by stock value and realised profit. */
  ghost function Drift(t: Tally): real {
    t.sold - t.bought + Value(t.position) - t.realized
  }

  lemma ZeroOnGrid(m: Rounding)
    ensures OnGrid(m, 0.0) && Store(m, 0.0) == 0.0 && HalfUnit(m) >= 0.0
  {
    StoreOnGrid(m, 0.0);
  }

  lemma BlendValue(pos: Position, q: real, p: real)
    requires pos.quantity >= 0.0 && q > 0.0
    ensures Times(pos.quantity + q, Blend(pos, q, p)) == Value(pos) + Times(q, p)
  {
    hide Times, Over;
    TimesZero(pos.avgCost);
    TimesOver(pos.quantity + q, Value(pos) + Times(q, p));
  }

  lemma BuyStep(m: Rounding, pos: Position, q: real, p: real)
    requires Stocked(m, pos) && q > 0.0 && OnGrid(m, q)
    ensures var f := Apply(m, pos, Buy, q, p);
      && f.position.quantity == pos.quantity + q && OnGrid(m, f.position.avgCost)
      && Within(Value(f.position), Value(pos) + Times(q, p), Times(f.position.quantity, HalfUnit(m)))
      && f.realized == 0.0
  {
    hide Store, Blend, OnGrid, HalfUnit, Times;
    GridSum(m, pos.quantity, q);
    StoreOnGrid(m, pos.quantity + q);
    BlendValue(pos, q, p);
    StoreError(m, Blend(pos, q, p));
    ScaledError(pos.quantity + q, Store(m, Blend(pos, q, p)), Blend(pos, q, p), HalfUnit(m));
  }

  lemma SellStep(m: Rounding, pos: Position, q: real, p: real)
    requires Stocked(m, pos) && q > 0.0 && OnGrid(m, q) && q <= pos.quantity
    ensures var f := Apply(m, pos, Sell, q, p);
      && f.position.quantity == pos.quantity - q
      && f.position.avgCost == (if q == pos.quantity then 0.0 else pos.avgCost)
      && Value(f.position) == Value(pos) - Times(q, pos.avgCost)
      && f.realized == Times(q, p) - Times(q, pos.avgCost)
  {
    hide Store, OnGrid, Times;
    GridSum(m, pos.quantity, q);
    StoreOnGrid(m, pos.quantity - q);
    StoreOnGrid(m, pos.avgCost);
    ZeroOnGrid(m);
    TimesSum(pos.avgCost, pos.quantity - q, q, pos.quantity);
    TimesSum(q, p - pos.avgCost, pos.avgCost, p);
    TimesSwap(q, p - pos.avgCost);
    TimesZero(pos.avgCost);
    TimesZero(0.0);
  }

  lemma NextDrift(m: Rounding, t: Tally, d: Trade)
    requires Stocked(m, t.position) && d.quantity > 0.0 && OnGrid(m, d.quantity)
    requires d.side.Sell? ==> d.quantity <= t.position.quantity
    ensures Stocked(m, Next(m, t, d).position)
    ensures Within(Drift(Next(m, t, d)), Drift(t), Times(Next(m, t, d).weight - t.weight, HalfUnit(m)))
  {
    hide Store, Apply, OnGrid, HalfUnit, Times;
    var q, p, h, pos := d.quantity, d.unitPrice, HalfUnit(m), t.position;
    var pos' := Next(m, t, d).position;
    ZeroOnGrid(m);
    TimesSum(h, 1.0, 1.0, 2.0);
    TimesZero(h);
    StoreError(m, Times(q, p));
    if d.side.Buy? {
      BuyStep(m, pos, q, p);
      StoreError(m, pos.quantity + q);
      GridSum(m, pos.quantity, q);
      TimesSum(h, pos'.quantity, 2.0, pos'.quantity + 2.0);
    } else {
      SellStep(m, pos, q, p);
      GridSum(m, pos.quantity, q);
      StoreError(m, Times(q, p) - Times(q, pos.avgCost));
    }
  }

  lemma EmptyDrift(m: Rounding)
    ensures Drift(Replay(m, [])) == 0.0 && Replay(m, []).weight == 0.0
  {
  }

  /** Over every run of deals that never goes short, sales minus purchases plus stock value equals
      realised profit, up to half a quantum per unit of recorded weight. */
  lemma {:induction false} DriftBound(m: Rounding, ds: seq<Trade>)
    requires NoShort(m, ds)
    ensures Stocked(m, Replay(m, ds).position)
    ensures Within(Drift(Replay(m, ds)), 0.0, Times(Replay(m, ds).weight, HalfUnit(m)))
  {
    hide Store, Apply, OnGrid, HalfUnit, Drift, Next, Times;
    ZeroOnGrid(m);
    if ds == [] {
      EmptyDrift(m);
      TimesZero(HalfUnit(m));
    } else {
      var init, d := ds[..|ds| - 1], ds[|ds| - 1];
      NoShortPrefix(m, ds);
      DriftBound(m, init);
      assert OnGrid(m, d.quantity) && d.quantity > 0.0;
      var t := Replay(m, init);
      NextDrift(m, t, d);
      TimesSum(HalfUnit(m), Next(m, t, d).weight - t.weight, t.weight, Next(m, t, d).weight);
    }
  }

  /** With nothing lost to rounding, conservation is exact. */
  lemma {:induction false} Conservation(ds: seq<Trade>)
    requires NoShort(Exact, ds)
    ensures var t := Replay(Exact, ds);
      t.realized == t.sold - t.bought + Value(t.position)
  {
    DriftBound(Exact, ds);
    TimesZero(Replay(Exact, ds).weight);
  }

  // ------------------------------------------------------------------ the average stays between prices

  ghost predicate BuysBetween(ds: seq<Trade>, lo: real, hi: real) {
    forall i :: 0 <= i < |ds| && ds[i].side.Buy? ==> lo <= ds[i].unitPrice <= hi
  }

  lemma NextBetween(m: Rounding, pos: Position, d: Trade, lo: real, hi: real)
    requires d.quantity > 0.0
    requires d.side.Buy? ==> lo <= d.unitPrice <= hi
    requires OnGrid(m, pos.quantity)
    requires pos.quantity > 0.0 ==> Store(m, lo) <= pos.avgCost <= Store(m, hi)
    ensures var p := Apply(m, pos, d.side, d.quantity, d.unitPrice).position;
      OnGrid(m, p.quantity) && (p.quantity > 0.0 ==> Store(m, lo) <= p.avgCost <= Store(m, hi))
  {
    hide Store, OnGrid, HalfUnit, Times, Over;
    var lo', hi' := Store(m, lo), Store(m, hi);
    var q := d.quantity;
    var n := if d.side.Buy? then pos.quantity + q else pos.quantity - q;
    StoreError(m, n);
    StoreError(m, lo);
    StoreError(m, hi);
    StoreOnGrid(m, lo');
    StoreOnGrid(m, hi');
    ZeroOnGrid(m);
    if n <= 0.0 {
      StoreMonotone(m, n, 0.0);
    } else if d.side.Sell? {
      StoreMonotone(m, lo', pos.avgCost);
      StoreMonotone(m, pos.avgCost, hi');
    } else {
      var x := Blend(pos, q, d.unitPrice);
      var low, high := if lo < lo' then lo else lo', if hi > hi' then hi else hi';
      if pos.quantity > 0.0 {
        Mean(pos.quantity, pos.avgCost, q, d.unitPrice, low, high);
      }
      StoreMonotone(m, low, x);
      StoreMonotone(m, x, high);
    }
  }

  /** In every run of deals, short sales included, a positive row's average lies between the least
      and the greatest purchase price. */
  lemma {:induction false} AverageBetweenPrices(m: Rounding, ds: seq<Trade>, lo: real, hi: real)
    requires Positive(ds) && BuysBetween(ds, lo, hi)
    ensures var p := Replay(m, ds).position;
      OnGrid(m, p.quantity) && (p.quantity > 0.0 ==> Store(m, lo) <= p.avgCost <= Store(m, hi))
  {
    hide Store, OnGrid, Apply;
    ZeroOnGrid(m);
    if ds == [] {
    } else {
      AverageBetweenPrices(m, ds[..|ds| - 1], lo, hi);
      NextBetween(m, Replay(m, ds[..|ds| - 1]).position, ds[|ds| - 1], lo, hi);
    }
  }

  // ------------------------------------------------------------------ undo

  /** Taking back the purchase just made restores the stock always, and (nothing lost to rounding)
      the average exactly when stock was held before it or the average was zero. */
  lemma UndoBuy(pos: Position, q: real, p: real)
    requires q > 0.0
    ensures var f := Apply(Exact, pos, Buy, q, p);
      var back := Reverse(Exact, f.position, Buy, q, p, f.avgAtTime);
      && back.quantity == pos.quantity
      && (back == pos <==> pos.quantity > 0.0 || pos.avgCost == 0.0)
  {
    hide Times, Over;
    if pos.quantity > 0.0 {
      BlendValue(pos, q, p);
      OverIs(pos.quantity, Value(pos), pos.avgCost);
    }
  }

  /** Taking back the sale just made restores the row, under every rounding, exactly when stock
      was held before it or the average was not zero. */
  lemma UndoSell(m: Rounding, pos: Position, q: real, p: real)
    requires q > 0.0 && p > 0.0 && OnGrid(m, q) && OnGrid(m, p)
    requires OnGrid(m, pos.quantity) && OnGrid(m, pos.avgCost)
    ensures var f := Apply(m, pos, Sell, q, p);
      var back := Reverse(m, f.position, Sell, q, p, Store(m, f.avgAtTime));
      && back.quantity == pos.quantity
      && (back == pos <==> pos.quantity > 0.0 || pos.avgCost != 0.0)
  {
    hide Store, OnGrid, Times;
    GridSum(m, pos.quantity, q);
    StoreOnGrid(m, pos.quantity - q);
    StoreOnGrid(m, pos.quantity);
    StoreOnGrid(m, pos.avgCost);
    ZeroOnGrid(m);
    StoreOnGrid(m, p);
  }

  /** Under rounding, undoing a purchase made from stock restores the stock, but its value and its average only up to
      a bounded amount: half a quantum, twice, for each unit held after the purchase. */
  lemma UndoBuyError(m: Rounding, pos: Position, q: real, p: real)
    requires Stocked(m, pos) && pos.quantity > 0.0 && q > 0.0 && OnGrid(m, q)
    ensures var f := Apply(m, pos, Buy, q, p);
      var back := Reverse(m, f.position, Buy, q, Store(m, p), f.avgAtTime);
      && back.quantity == pos.quantity
      && Within(Value(back), Value(pos), Times(2.0 * (pos.quantity + q), HalfUnit(m)))
      && Within(back.avgCost, pos.avgCost, Over(Times(2.0 * (pos.quantity + q), HalfUnit(m)), pos.quantity))
  {
    hide Store, Apply, OnGrid, HalfUnit, Times, Over;
    var f, h, n := Apply(m, pos, Buy, q, p), HalfUnit(m), pos.quantity + q;
    BuyStep(m, pos, q, p);
    StoreOnGrid(m, pos.quantity);
    StoreError(m, p);
    ScaledError(q, Store(m, p), p, h);
    var exact := Over(Value(f.position) - Times(q, Store(m, p)), pos.quantity);
    TimesOver(pos.quantity, Value(f.position) - Times(q, Store(m, p)));
    StoreError(m, exact);
    ScaledError(pos.quantity, Store(m, exact), exact, h);
    TimesSum(h, pos.quantity, q, n);
    TimesSum(h, n, n, 2.0 * n);
    var back := Reverse(m, f.position, Buy, q, Store(m, p), f.avgAtTime);
    FactorWithin(pos.quantity, back.avgCost, pos.avgCost, Times(2.0 * n, h));
  }

  lemma FactorWithin(n: real, x: real, y: real, e: real)
    requires n > 0.0 && Within(Times(n, x), Times(n, y), e)
    ensures Within(x, y, Over(e, n))
  {
    hide Times, Over;
    var b := Over(e, n);
    TimesOver(n, e);
    TimesSum(n, y, b, y + b);
    TimesSum(n, x, b, x + b);
    TimesCancel(n, x, y + b);
    TimesCancel(n, y, x + b);
  }

  // ------------------------------------------------------------------ buys-only histories

  ghost predicate AllBuys(ds: seq<Trade>) {
    Positive(ds) && forall i :: 0 <= i < |ds| ==> ds[i].side.Buy?
  }

  ghost function Quantities(ds: seq<Trade>): real {
    if ds == [] then 0.0 else Quantities(ds[..|ds| - 1]) + ds[|ds| - 1].quantity
  }

  ghost function Costs(ds: seq<Trade>): real {
    if ds == [] then 0.0
    else Costs(ds[..|ds| - 1]) + Times(ds[|ds| - 1].quantity, ds[|ds| - 1].unitPrice)
  }

  /** The path-dependent row of a buys-only history is the closed form: total quantity, and total
      cost as its value. */
  lemma {:induction false} BuysOnly(ds: seq<Trade>)
    requires AllBuys(ds)
    ensures var p := Replay(Exact, ds).position;
      && p.quantity == Quantities(ds) && (ds != [] ==> p.quantity > 0.0)
      && Value(p) == Costs(ds)
      && (ds == [] ==> p == EMPTY)
  {
    hide Times, Over;
    if ds == [] {
      TimesZero(0.0);
    } else {
      var init, d := ds[..|ds| - 1], ds[|ds| - 1];
      BuysOnly(init);
      BlendValue(Replay(Exact, init).position, d.quantity, d.unitPrice);
    }
  }

  lemma {:induction false} SumsWithout(ds: seq<Trade>, j: nat)
    requires j < |ds|
    ensures Quantities(ds[..j] + ds[j + 1..]) == Quantities(ds) - ds[j].quantity
    ensures Costs(ds[..j] + ds[j + 1..]) == Costs(ds) - Times(ds[j].quantity, ds[j].unitPrice)
  {
    hide Times;
    var rest, init := ds[..j] + ds[j + 1..], ds[..|ds| - 1];
    if j == |ds| - 1 {
      assert rest == init;
    } else {
      SumsWithout(init, j);
      assert init[..j] + init[j + 1..] == rest[..|rest| - 1];
      assert rest[|rest| - 1] == ds[|ds| - 1];
    }
  }

  /** In a buys-only history, undoing any purchase while stock remains is the same as never having
      made it. */
  lemma UndoAnyBuy(ds: seq<Trade>, j: nat)
    requires AllBuys(ds) && j < |ds| && |ds| > 1
    ensures Reverse(Exact, Replay(Exact, ds).position, Buy, ds[j].quantity, ds[j].unitPrice, 0.0)
      == Replay(Exact, ds[..j] + ds[j + 1..]).position
  {
    hide Times, Over, Replay;
    var rest := ds[..j] + ds[j + 1..];
    BuysOnly(ds);
    BuysOnly(rest);
    SumsWithout(ds, j);
    var b := Replay(Exact, rest).position;
    OverIs(b.quantity, Costs(rest), b.avgCost);
  }

  // ------------------------------------------------------------------ undo after later deals

  /** The figures after all of `ds`, from the figures `t`. */
  ghost function ReplayFrom(m: Rounding, t: Tally, ds: seq<Trade>): Tally {
    if ds == [] then t else Next(m, ReplayFrom(m, t, ds[..|ds| - 1]), ds[|ds| - 1])
  }

  /** From the figures `t` on, no deal sells more than is held, and quantities fit their column. */
  ghost predicate NoShortFrom(m: Rounding, t: Tally, ds: seq<Trade>) {
    && Positive(ds)
    && (forall i :: 0 <= i < |ds| ==> OnGrid(m, ds[i].quantity))
    && (forall i :: 0 <= i < |ds| && ds[i].side.Sell? ==>
        ds[i].quantity <= ReplayFrom(m, t, ds[..i]).position.quantity)
  }

  ghost function Opened(pos: Position): Tally {
    Tally(pos, 0.0, 0.0, 0.0, 0.0)
  }

  ghost predicate Ahead(t: Tally, u: Tally, q: real) {
    u.position.quantity == t.position.quantity + q
  }

  /** The same deals move the money of two runs alike, whatever the averages, and each keeps its drift. */
  lemma NextAhead(m: Rounding, t: Tally, u: Tally, d: Trade, q: real)
    requires Stocked(m, t.position) && Stocked(m, u.position) && Ahead(t, u, q) && q > 0.0
    requires d.quantity > 0.0 && OnGrid(m, d.quantity) && (d.side.Sell? ==> d.quantity <= t.position.quantity)
    ensures Ahead(Next(m, t, d), Next(m, u, d), q)
    ensures Next(m, u, d).sold - u.sold == Next(m, t, d).sold - t.sold
    ensures Next(m, u, d).bought - u.bought == Next(m, t, d).bought - t.bought
  {
    hide Store, Apply, OnGrid, HalfUnit, Times;
    if d.side.Buy? {
      BuyStep(m, t.position, d.quantity, d.unitPrice);
      BuyStep(m, u.position, d.quantity, d.unitPrice);
    } else {
      SellStep(m, t.position, d.quantity, d.unitPrice);
      SellStep(m, u.position, d.quantity, d.unitPrice);
    }
  }

  lemma {:induction false} RunsAhead(m: Rounding, t: Tally, u: Tally, ds: seq<Trade>, q: real)
    requires Stocked(m, t.position) && Stocked(m, u.position) && Ahead(t, u, q) && q > 0.0
    requires NoShortFrom(m, t, ds)
    ensures var t', u' := ReplayFrom(m, t, ds), ReplayFrom(m, u, ds);
      && Stocked(m, t'.position) && Stocked(m, u'.position) && Ahead(t', u', q)
      && u'.sold - u.sold == t'.sold - t.sold && u'.bought - u.bought == t'.bought - t.bought
      && Within(Drift(t'), Drift(t), Times(t'.weight - t.weight, HalfUnit(m)))
      && Within(Drift(u'), Drift(u), Times(u'.weight - u.weight, HalfUnit(m)))
  {
    hide Store, Apply, OnGrid, HalfUnit, Drift, Next, Times, Stocked;
    var h := HalfUnit(m);
    if ds == [] {
      TimesZero(h);
    } else {
      var init, d := ds[..|ds| - 1], ds[|ds| - 1];
      assert NoShortFrom(m, t, init) by {
        assert forall i :: 0 <= i < |init| ==> init[..i] == ds[..i];
      }
      RunsAhead(m, t, u, init, q);
      var a, b := ReplayFrom(m, t, init), ReplayFrom(m, u, init);
      NextAhead(m, a, b, d, q);
      NextDrift(m, a, d);
      NextDrift(m, b, d);
      TimesSum(h, Next(m, a, d).weight - a.weight, a.weight - t.weight, Next(m, a, d).weight - t.weight);
      TimesSum(h, Next(m, b, d).weight - b.weight, b.weight - u.weight, Next(m, b, d).weight - u.weight);
    }
  }

  /** What undoing the purchase of `q` at `p` leaves, after the later deals `ds`. */
  ghost function Undone(m: Rounding, pos: Position, q: real, p: real, ds: seq<Trade>): Position {
    Reverse(m, ReplayFrom(m, Opened(Apply(m, pos, Buy, q, p).position), ds).position, Buy, q, Store(m, p), pos.avgCost)
  }

  /** The profit the later deals realised because of the purchase. */
  ghost function Extra(m: Rounding, pos: Position, q: real, p: real, ds: seq<Trade>): real {
    ReplayFrom(m, Opened(Apply(m, pos, Buy, q, p).position), ds).realized - ReplayFrom(m, Opened(pos), ds).realized
  }

  /** The number of half quanta rounding may have cost the two runs and the undo. */
  ghost function UndoWeight(m: Rounding, pos: Position, q: real, p: real, ds: seq<Trade>): real {
    var kept := ReplayFrom(m, Opened(Apply(m, pos, Buy, q, p).position), ds);
    kept.weight + ReplayFrom(m, Opened(pos), ds).weight + kept.position.quantity + pos.quantity + q
  }

  /** A purchase undone after any later deals that sell only what was held without it: the stock is
      that of never having bought, and its value is off by the extra profit the later sales realised,
      up to half a quantum per unit of recorded weight. */
  lemma UndoBuyLater(m: Rounding, pos: Position, q: real, p: real, ds: seq<Trade>)
    requires Stocked(m, pos) && q > 0.0 && OnGrid(m, q) && NoShortFrom(m, Opened(pos), ds)
    ensures var undone, never := Undone(m, pos, q, p, ds), ReplayFrom(m, Opened(pos), ds).position;
      && undone.quantity == never.quantity
      && (never.quantity == 0.0 ==> undone == never)
      && (never.quantity > 0.0 ==>
            Within(Value(undone), Value(never) + Extra(m, pos, q, p, ds), Times(UndoWeight(m, pos, q, p, ds), HalfUnit(m))))
  {
    hide Store, Apply, OnGrid, HalfUnit, Times, Over, ReplayFrom, NoShortFrom;
    var h, pos', price := HalfUnit(m), Apply(m, pos, Buy, q, p).position, Store(m, p);
    BuyStep(m, pos, q, p);
    GridSum(m, pos.quantity, q);
    RunsAhead(m, Opened(pos), Opened(pos'), ds, q);
    var never, kept := ReplayFrom(m, Opened(pos), ds), ReplayFrom(m, Opened(pos'), ds);
    var n, k := never.position.quantity, kept.position.quantity;
    StoreOnGrid(m, n);
    ZeroOnGrid(m);
    if n > 0.0 {
      StoreError(m, p);
      ScaledError(q, price, p, h);
      var rest := Value(kept.position) - Times(q, price);
      TimesOver(n, rest);
      StoreError(m, Over(rest, n));
      ScaledError(n, Store(m, Over(rest, n)), Over(rest, n), h);
      TimesSum(h, n, q, k);
      TimesSum(h, kept.weight, never.weight, kept.weight + never.weight);
      TimesSum(h, kept.weight + never.weight, k, kept.weight + never.weight + k);
      TimesSum(h, kept.weight + never.weight + k, pos.quantity + q, UndoWeight(m, pos, q, p, ds));
    }
  }

  /** With nothing lost to rounding: the average is off by exactly the extra profit, spread over the
      stock left, and the row is that of never having bought if and only if nothing is left or the
      purchase changed no profit. */
  lemma UndoBuyLaterExactly(pos: Position, q: real, p: real, ds: seq<Trade>)
    requires Stocked(Exact, pos) && q > 0.0 && NoShortFrom(Exact, Opened(pos), ds)
    ensures var undone, never := Undone(Exact, pos, q, p, ds), ReplayFrom(Exact, Opened(pos), ds).position;
      && undone.quantity == never.quantity
      && (never.quantity > 0.0 ==>
            undone.avgCost == never.avgCost + Over(Extra(Exact, pos, q, p, ds), never.quantity))
      && (undone == never <==> never.quantity == 0.0 || Extra(Exact, pos, q, p, ds) == 0.0)
  {
    hide Times, Over, ReplayFrom, NoShortFrom, Undone, Extra;
    UndoBuyLater(Exact, pos, q, p, ds);
    TimesZero(UndoWeight(Exact, pos, q, p, ds));
    RunsAhead(Exact, Opened(pos), Opened(Apply(Exact, pos, Buy, q, p).position), ds, q) by {
      BuyStep(Exact, pos, q, p);
    }
    var never, x := ReplayFrom(Exact, Opened(pos), ds).position, Extra(Exact, pos, q, p, ds);
    var n, undone := never.quantity, Undone(Exact, pos, q, p, ds);
    if n > 0.0 {
      TimesOver(n, x);
      TimesSum(n, never.avgCost, Over(x, n), never.avgCost + Over(x, n));
      OverIs(n, Value(undone), undone.avgCost);
      OverIs(n, Value(undone), never.avgCost + Over(x, n));
      TimesZero(n);
      if x == 0.0 {
        OverIs(n, 0.0, 0.0);
      }
    }
  }

  /** For each sale among `ds`, its quantity times how much the purchase lowered the average it met. */
  ghost function Gaps(t: Tally, u: Tally, ds: seq<Trade>): real {
    if ds == [] then 0.0
    else
      var init, d := ds[..|ds| - 1], ds[|ds| - 1];
      var lowered := ReplayFrom(Exact, t, init).position.avgCost - ReplayFrom(Exact, u, init).position.avgCost;
      Gaps(t, u, init) + if d.side.Sell? then Times(d.quantity, lowered) else 0.0
  }

  lemma {:induction false} GapsAreProfit(t: Tally, u: Tally, ds: seq<Trade>, q: real)
    requires Stocked(Exact, t.position) && Stocked(Exact, u.position) && Ahead(t, u, q) && q > 0.0
    requires NoShortFrom(Exact, t, ds)
    ensures (ReplayFrom(Exact, u, ds).realized - u.realized) - (ReplayFrom(Exact, t, ds).realized - t.realized)
      == Gaps(t, u, ds)
  {
    hide Times, Stocked, Over;
    if ds != [] {
      var init, d := ds[..|ds| - 1], ds[|ds| - 1];
      assert NoShortFrom(Exact, t, init) by {
        assert forall i :: 0 <= i < |init| ==> init[..i] == ds[..i];
      }
      GapsAreProfit(t, u, init, q);
      RunsAhead(Exact, t, u, init, q);
      hide Next;
      OneSaleGap(ReplayFrom(Exact, t, init), ReplayFrom(Exact, u, init), d);
    }
  }

  lemma OneSaleGap(a: Tally, b: Tally, d: Trade)
    requires Stocked(Exact, a.position) && Stocked(Exact, b.position) && d.quantity > 0.0
    requires d.side.Sell? ==> d.quantity <= a.position.quantity <= b.position.quantity
    ensures (Next(Exact, b, d).realized - b.realized) - (Next(Exact, a, d).realized - a.realized)
      == if d.side.Sell? then Times(d.quantity, a.position.avgCost - b.position.avgCost) else 0.0
  {
    hide Times, Over;
    if d.side.Sell? {
      SellStep(Exact, a.position, d.quantity, d.unitPrice);
      SellStep(Exact, b.position, d.quantity, d.unitPrice);
      TimesSum(d.quantity, a.position.avgCost - b.position.avgCost, b.position.avgCost, a.position.avgCost);
    }
  }

  /** The extra profit is made at the sales alone; so a purchase undone before any sale leaves no trace. */
  lemma ExtraBySales(pos: Position, q: real, p: real, ds: seq<Trade>)
    requires Stocked(Exact, pos) && q > 0.0 && NoShortFrom(Exact, Opened(pos), ds)
    ensures Extra(Exact, pos, q, p, ds) == Gaps(Opened(pos), Opened(Apply(Exact, pos, Buy, q, p).position), ds)
    ensures (forall d :: d in ds ==> d.side.Buy?) ==> Extra(Exact, pos, q, p, ds) == 0.0
  {
    hide Times, Over, Apply, ReplayFrom, NoShortFrom;
    BuyStep(Exact, pos, q, p);
    GapsAreProfit(Opened(pos), Opened(Apply(Exact, pos, Buy, q, p).position), ds, q);
    if forall d :: d in ds ==> d.side.Buy? {
      NoSaleNoGap(Opened(pos), Opened(Apply(Exact, pos, Buy, q, p).position), ds);
    }
  }

  lemma {:induction false} NoSaleNoGap(t: Tally, u: Tally, ds: seq<Trade>)
    requires forall d :: d in ds ==> d.side.Buy?
    ensures Gaps(t, u, ds) == 0.0
  {
    hide Times, ReplayFrom;
    if ds != [] {
      assert ds[|ds| - 1] in ds;
      NoSaleNoGap(t, u, ds[..|ds| - 1]);
    }
  }

  // ------------------------------------------------------------------ what a sale records

  /** From stock, a sale records the average it met, and as profit what the price is above it, for each
      unit, even where it sells more than is held; without stock it records its own price and no profit,
      whatever average the row still shows. */
  lemma SaleRecords(m: Rounding, pos: Position, q: real, p: real)
    ensures var f := Apply(m, pos, Sell, q, p);
      if pos.quantity > 0.0 then f.avgAtTime == pos.avgCost && f.realized == Times(p, q) - Times(pos.avgCost, q)
      else f.avgAtTime == p && f.realized == 0.0
  {
    hide Times, Store;
    TimesSum(q, p - pos.avgCost, pos.avgCost, p);
    TimesZero(q);
  }

  /** While a row is short its average stays what it was when the stock ran out, through purchases and
      sales alike; the purchase that ends the spell puts its own price in its place, and one that brings the
      row to nothing leaves it. */
  lemma {:induction false} ShortSpell(m: Rounding, t: Tally, ds: seq<Trade>, d: Trade)
    requires OnGrid(m, t.position.avgCost) && d.side.Buy?
    requires forall i :: 0 < i <= |ds| ==> ReplayFrom(m, t, ds[..i]).position.quantity < 0.0
    ensures ds != [] ==> OnGrid(m, ReplayFrom(m, t, ds).position.quantity)
    ensures ReplayFrom(m, t, ds).position.avgCost == t.position.avgCost
    ensures var pos := ReplayFrom(m, t, ds).position;
      pos.quantity <= 0.0 ==>
        Apply(m, pos, d.side, d.quantity, d.unitPrice).position.avgCost
          == if pos.quantity + d.quantity > 0.0 then Store(m, d.unitPrice) else t.position.avgCost
  {
    hide Store, OnGrid, Times, Over;
    StoreOnGrid(m, t.position.avgCost);
    ZeroOnGrid(m);
    if ds != [] {
      var init, last := ds[..|ds| - 1], ds[|ds| - 1];
      assert ds[..|ds|] == ds;
      forall i | 0 < i <= |init|
        ensures ReplayFrom(m, t, init[..i]).position.quantity < 0.0
      {
        assert init[..i] == ds[..i];
      }
      ShortSpell(m, t, init, d);
      var pos := ReplayFrom(m, t, init).position;
      var n := if last.side.Buy? then pos.quantity + last.quantity else pos.quantity - last.quantity;
      StoreError(m, n);
      assert n < 0.0 by {
        if n >= 0.0 {
          StoreMonotone(m, 0.0, n);
        }
      }
    }
  }

  // ------------------------------------------------------------------ where undo is not an inverse

  /** Undoing a purchase after part of the stock was sold equals never having made it exactly when
      the purchase was at the average it met. */
  lemma UndoBuyAcrossSale(pos: Position, q: real, p: real, s: real, r: real)
    requires pos.quantity > 0.0 && q > 0.0 && 0.0 < s < pos.quantity
    ensures var bought := Apply(Exact, pos, Buy, q, p).position;
      var undone := Reverse(Exact, Apply(Exact, bought, Sell, s, r).position, Buy, q, p, pos.avgCost);
      var never := Apply(Exact, pos, Sell, s, r).position;
      && undone.quantity == never.quantity
      && (undone == never <==> p == pos.avgCost)
  {
    hide Times, Over;
    var n, k, a, b := pos.quantity + q, pos.quantity - s, pos.avgCost, Blend(pos, q, p);
    BlendValue(pos, q, p);
    var rest := Times(n - s, b) - Times(q, p);
    TimesSum(b, n - s, s, n);
    TimesSum(a, k, s, pos.quantity);
    assert rest == Times(k, a) + Times(s, a) - Times(s, b);
    TimesOver(k, rest);
    TimesSum(a, pos.quantity, q, n);
    assert Times(n, b) - Times(n, a) == Times(q, p) - Times(q, a);
    if p == a {
      TimesCancel(n, a, b);
      TimesCancel(n, b, a);
      OverIs(k, rest, a);
    } else if Over(rest, k) == a {
      TimesCancel(s, a, b);
      TimesCancel(s, b, a);
      TimesCancel(q, p, a);
      TimesCancel(q, a, p);
      assert false;
    }
  }

  /** A short position bought back exactly to zero keeps a stale average. */
  lemma StaleAverage()
    ensures Replay(Exact, [Trade(Buy, 1.0, 7.0), Trade(Sell, 3.0, 9.0), Trade(Buy, 2.0, 8.0)]).position
      == Position(0.0, 7.0)
  {
    ReplayThree(Trade(Buy, 1.0, 7.0), Trade(Sell, 3.0, 9.0), Trade(Buy, 2.0, 8.0));
  }

  /** Undoing a sale made from nothing leaves the sale price as average of an empty row. */
  lemma AverageFromNothing(q: real, p: real)
    requires q > 0.0 && p > 0.0
    ensures Reverse(Exact, Apply(Exact, EMPTY, Sell, q, p).position, Sell, q, p, p) == Position(0.0, p)
  {
  }

  /** Undoing a purchase across a sale can leave a negative average. */
  lemma NegativeAverage()
    ensures Reverse(Exact,
                    Replay(Exact, [Trade(Buy, 10.0, 1.0), Trade(Buy, 2.0, 100.0), Trade(Sell, 9.0, 50.0)]).position,
                    Buy, 2.0, 100.0, 1.0)
      == Position(1.0, -147.5)
  {
    hide Next;
    var x, y, z := Trade(Buy, 10.0, 1.0), Trade(Buy, 2.0, 100.0), Trade(Sell, 9.0, 50.0);
    ReplayThree(x, y, z);
    var t0 := Tally(EMPTY, 0.0, 0.0, 0.0, 0.0);
    NextPosition(t0, x);
    NextPosition(Next(Exact, t0, x), y);
    NextPosition(Next(Exact, Next(Exact, t0, x), y), z);
    assert Apply(Exact, EMPTY, Buy, 10.0, 1.0).position == Position(10.0, 1.0);
    assert Apply(Exact, Position(10.0, 1.0), Buy, 2.0, 100.0).position == Position(12.0, 17.5);
    assert Apply(Exact, Position(12.0, 17.5), Sell, 9.0, 50.0).position == Position(3.0, 17.5);
  }

  lemma NextPosition(t: Tally, d: Trade)
    ensures Next(Exact, t, d).position == Apply(Exact, t.position, d.side, d.quantity, d.unitPrice).position
  {
  }

  lemma ReplayThree(x: Trade, y: Trade, z: Trade)
    ensures Replay(Exact, [x, y, z])
      == Next(Exact, Next(Exact, Next(Exact, Tally(EMPTY, 0.0, 0.0, 0.0, 0.0), x), y), z)
  {
    hide Next;
    assert [x, y, z][..2] == [x, y];
    assert [x, y][..1] == [x];
    assert [x][..0] == [];
    assert Replay(Exact, [x]) == Next(Exact, Replay(Exact, []), x);
    assert Replay(Exact, [x, y]) == Next(Exact, Replay(Exact, [x]), y);
  }
}
