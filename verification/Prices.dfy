/** The average price of a row of the daily report against the unit prices of its deals. */
module Prices {
  import opened Algebra
  import opened Amounts
  import opened Inventory
  import opened Books
  import opened Allocation
  import opened AllocationSafety
  import opened Runs
  import opened Chains
  import opened InventoryBooks
  import opened Effects
  import opened Reports

  // ------------------------------------------------------------------ one row

  ghost predicate InBucket(ds: seq<Deal>, k: Key) {
    exists d :: d in ds && KeyOf()(d) == k
  }

  /** Each deal of the row comes to between `lo` and `hi` a unit, up to `h` for each unit it trades and
      `1 + extra` times `h` besides. */
  ghost predicate Priced(ds: seq<Deal>, k: Key, lo: real, hi: real, h: real, extra: real) {
    forall d :: d in ds && KeyOf()(d) == k ==>
      && d.quantity > 0.0
      && Times(lo, d.quantity) - Times(h, d.quantity + 1.0 + extra) <= d.total
      && d.total <= Times(hi, d.quantity) + Times(h, d.quantity + 1.0 + extra)
  }

  lemma {:induction false} BucketTotal(ds: seq<Deal>, k: Key, lo: real, hi: real, h: real, extra: real)
    requires Priced(ds, k, lo, hi, h, extra)
    ensures var q := DealSum(ds, KeyedBy(KeyOf(), k, QuantityOf()));
      var t := DealSum(ds, KeyedBy(KeyOf(), k, TotalOf()));
      var n := DealSum(ds, KeyedBy(KeyOf(), k, One()));
      var e := Times(h, q + Times(n, 1.0 + extra));
      && Times(lo, q) - e <= t <= Times(hi, q) + e
      && q >= 0.0 && n >= 0.0 && (InBucket(ds, k) ==> q > 0.0)
  {
    hide Times;
    TimesZero(lo);
    TimesZero(hi);
    TimesZero(h);
    TimesZero(1.0 + extra);
    if ds == [] {
    } else {
      var init, d := ds[..|ds| - 1], ds[|ds| - 1];
      BucketTotal(init, k, lo, hi, h, extra);
      assert InBucket(ds, k) ==> KeyOf()(d) == k || InBucket(init, k) by {
        if InBucket(ds, k) {
          var e :| e in ds && KeyOf()(e) == k;
          assert e == d || e in init;
        }
      }
      if KeyOf()(d) == k {
        var q := DealSum(init, KeyedBy(KeyOf(), k, QuantityOf()));
        var n := DealSum(init, KeyedBy(KeyOf(), k, One()));
        TimesSum(lo, q, d.quantity, q + d.quantity);
        TimesSum(hi, q, d.quantity, q + d.quantity);
        TimesSum(1.0 + extra, n, 1.0, n + 1.0);
        TimesSum(h, q + Times(n, 1.0 + extra), d.quantity + 1.0 + extra,
                 q + d.quantity + Times(n + 1.0, 1.0 + extra));
      }
    }
  }

  /** The average of a row times its quantity lies between the same bounds. */
  lemma RowBetween(r: TradeRow, ds: seq<Deal>, lo: real, hi: real, h: real, extra: real)
    requires Shows(r, ds) && Priced(ds, r.key, lo, hi, h, extra) && InBucket(ds, r.key)
    ensures var q := r.bucket.quantity;
      var e := Times(h, q + Times(r.bucket.count as real, 1.0 + extra));
      q > 0.0 && Times(q, lo) - e <= Times(q, r.avgPrice) <= Times(q, hi) + e
  {
    hide Times, DealSum, Over;
    BucketTotal(ds, r.key, lo, hi, h, extra);
    TimesOver(r.bucket.quantity, r.bucket.total);
    TimesSwap(lo, r.bucket.quantity);
    TimesSwap(hi, r.bucket.quantity);
  }

  /** The average price of a row lies between the least and the greatest price its deals come to. */
  lemma AverageBetween(r: TradeRow, ds: seq<Deal>, lo: real, hi: real)
    requires Shows(r, ds) && InBucket(ds, r.key)
    requires forall d :: d in ds && KeyOf()(d) == r.key ==>
      d.quantity > 0.0 && Times(lo, d.quantity) <= d.total <= Times(hi, d.quantity)
    ensures lo <= r.avgPrice <= hi
  {
    hide Times, DealSum, Over, Shows;
    forall d | d in ds
      ensures Times(0.0, d.quantity + 1.0 + 0.0) == 0.0
    {
      TimesZero(d.quantity + 1.0);
    }
    RowBetween(r, ds, lo, hi, 0.0, 0.0);
    TimesZero(r.bucket.quantity + Times(r.bucket.count as real, 1.0 + 0.0));
    TimesCancel(r.bucket.quantity, lo, r.avgPrice);
    TimesCancel(r.bucket.quantity, r.avgPrice, hi);
  }

  // ------------------------------------------------------------------ what a posted deal carries

  /** The total of a stored deal is its stored quantity at its stored price, up to half a quantum for the total
      itself, half a quantum for each unit (the price was rounded), and for a quantity that was rounded too
      half a quantum for each unit of price. */
  lemma StoredDealError(m: Rounding, q: real, p: real)
    requires q > 0.0 && p > 0.0
    ensures var h, q', p' := HalfUnit(m), Store(m, q), Store(m, p);
      var extra := if OnGrid(m, q) then 0.0 else p' + h;
      Within(Store(m, Times(q, p)), Times(p', q'), Times(h, q' + 1.0 + extra))
  {
    hide Store, OnGrid, HalfUnit, Times;
    var h, q', p' := HalfUnit(m), Store(m, q), Store(m, p);
    HalfUnitSign(m);
    StoreError(m, Times(q, p));
    StoreError(m, q);
    StoreError(m, p);
    PositiveStays(m, q);
    ScaledError(p, q', q, h);
    ScaledError(q', p', p, h);
    TimesSwap(p, q);
    TimesSwap(p, q');
    TimesSwap(p', q');
    TimesSwap(p, h);
    TimesSwap(q', h);
    TimesZero(h);
    TimesSum(h, q', 1.0, q' + 1.0);
    if OnGrid(m, q) {
      StoreOnGrid(m, q);
    } else {
      TimesSum(h, q' + 1.0, p' + h, q' + 1.0 + (p' + h));
      TimesLe(h, p, p' + h);
    }
  }

  lemma HalfUnitSign(m: Rounding)
    ensures HalfUnit(m) >= 0.0
  {
  }

  // ------------------------------------------------------------------ every run

  /** A property of all stored deals, voided ones included. */
  ghost predicate AllDeals(db: Db, p: Deal -> bool) {
    forall id :: id in db.vouchers && db.vouchers[id].deal.Some? ==> p(db.vouchers[id].deal.value)
  }

  /** The row a deal order leaves, as stored. */
  function DealAsStored(m: Rounding, o: Order, avgAtTime: real, realized: real): Deal
    requires o.DealOrder?
  {
    StoredDeal(m, Deal(o.side, o.counterparty, o.currency, o.quantity, o.unitPrice, Times(o.quantity, o.unitPrice),
                       avgAtTime, realized, o.date))
  }

  /** Every deal an order can leave has the property. */
  ghost predicate Leaves(m: Rounding, op: Op, p: Deal -> bool) {
    op.Post? && op.order.DealOrder? && op.order.quantity > 0.0 && op.order.unitPrice > 0.0
    && Store(m, op.order.quantity) != 0.0 ==>
      forall avg, realized :: p(DealAsStored(m, op.order, avg, realized))
  }

  lemma DealsStep(m: Rounding, db: Db, op: Op, p: Deal -> bool)
    requires Inv(m, db) && AllDeals(db, p) && Leaves(m, op, p)
    ensures AllDeals(Step(m, db, op), p)
  {
    hide Inv, PostOrder, VoidVoucher, DeleteVoucher, CanAllocate, DealAsStored, Mirrors, Store;
    StepChanges(m, db, op);
    if op.Post? && PostOrder(m, db, op.order).Committed? {
      var o := op.order;
      OrderAdds(m, db, o);
      if o.DealOrder? {
        DealEntered(m, db, o);
        DealAccepted(m, db, o);
        var f := Apply(m, db.PositionRow(o.currency), o.side, o.quantity, o.unitPrice);
        Unfold(m, o, f.avgAtTime, f.realized);
      } else {
        NoNewDeal(m, db, o);
      }
    }
  }

  lemma Unfold(m: Rounding, o: Order, avg: real, realized: real)
    requires o.DealOrder?
    ensures DealAsStored(m, o, avg, realized) == StoredDeal(m,
      Deal(o.side, o.counterparty, o.currency, o.quantity, o.unitPrice, Times(o.quantity, o.unitPrice), avg, realized, o.date))
  {
  }

  lemma {:induction false} DealsOfRun(m: Rounding, g: Registry, ops: seq<Op>, p: Deal -> bool)
    requires forall i :: 0 <= i < |ops| ==> Leaves(m, ops[i], p)
    ensures AllDeals(Run(m, g, ops), p)
  {
    hide Inv, Step, Leaves;
    if ops == [] {
    } else {
      DealsOfRun(m, g, ops[..|ops| - 1], p);
      Reachable(m, g, ops[..|ops| - 1]);
      DealsStep(m, Run(m, g, ops[..|ops| - 1]), ops[|ops| - 1], p);
    }
  }

  lemma ReportedHave(db: Db, p: Deal -> bool, d: Deal)
    requires AllDeals(db, p) && d in DealsOf(db.vouchers, db.nextId)
    ensures p(d)
  {
    DealsAreReported(db.vouchers, db.nextId, d);
  }

  /** How far a stored total is from quantity times price; `fine` says the quantity was not rounded. */
  function NearPrice(m: Rounding, fine: bool): Deal -> bool {
    (d: Deal) => d.quantity > 0.0 && d.unitPrice >= 0.0 &&
      Within(d.total, Times(d.unitPrice, d.quantity),
             Times(HalfUnit(m), d.quantity + 1.0 + (if fine then 0.0 else d.unitPrice + HalfUnit(m))))
  }

  lemma OrdersLeaveNear(m: Rounding, op: Op, fine: bool)
    requires fine ==> GridDeals(m, op)
    ensures Leaves(m, op, NearPrice(m, fine))
  {
    hide Store, OnGrid, HalfUnit, Times;
    if op.Post? && op.order.DealOrder? && op.order.quantity > 0.0 && op.order.unitPrice > 0.0
       && Store(m, op.order.quantity) != 0.0 {
      var o := op.order;
      var h, q', p' := HalfUnit(m), Store(m, o.quantity), Store(m, o.unitPrice);
      StoredDealError(m, o.quantity, o.unitPrice);
      PositiveStays(m, o.quantity);
      PositiveStays(m, o.unitPrice);
      HalfUnitSign(m);
      TimesLe(h, q' + 1.0, q' + 1.0 + (p' + h));
    }
  }

  /** In every run: against the unit prices of its deals as stored, the average of a row is off by at most, over
      its quantity, half a quantum for each deal and each unit, and if quantities were entered with more than
      eight decimals half a quantum more for each deal and unit of price. */
  lemma AverageNearPrices(m: Rounding, g: Registry, ops: seq<Op>, r: TradeRow, ds: seq<Deal>, lo: real, hi: real)
    requires forall d :: d in ds ==> d in DealsOf(Run(m, g, ops).vouchers, Run(m, g, ops).nextId)
    requires Shows(r, ds) && InBucket(ds, r.key)
    requires forall d :: d in ds && KeyOf()(d) == r.key ==> lo <= d.unitPrice <= hi
    ensures var q, n, h := r.bucket.quantity, r.bucket.count as real, HalfUnit(m);
      var extra := if forall i :: 0 <= i < |ops| ==> GridDeals(m, ops[i]) then 0.0 else hi + h;
      var e := Times(h, q + Times(n, 1.0 + extra));
      q > 0.0 && Times(q, lo) - e <= Times(q, r.avgPrice) <= Times(q, hi) + e
  {
    hide Run, HalfUnit, Times, DealSum, Shows, GridDeals, NearPrice, OnGrid;
    var fine := forall i :: 0 <= i < |ops| ==> GridDeals(m, ops[i]);
    var h := HalfUnit(m);
    var extra := if fine then 0.0 else hi + h;
    var db := Run(m, g, ops);
    forall i | 0 <= i < |ops|
      ensures Leaves(m, ops[i], NearPrice(m, fine))
    {
      OrdersLeaveNear(m, ops[i], fine);
    }
    DealsOfRun(m, g, ops, NearPrice(m, fine));
    forall d | d in ds && KeyOf()(d) == r.key
      ensures d.quantity > 0.0
      ensures Times(lo, d.quantity) - Times(h, d.quantity + 1.0 + extra) <= d.total
      ensures d.total <= Times(hi, d.quantity) + Times(h, d.quantity + 1.0 + extra)
    {
      ReportedHave(db, NearPrice(m, fine), d);
      NearBetween(m, fine, d, lo, hi);
    }
    RowBetween(r, ds, lo, hi, h, extra);
  }

  lemma NearBetween(m: Rounding, fine: bool, d: Deal, lo: real, hi: real)
    requires NearPrice(m, fine)(d) && lo <= d.unitPrice <= hi
    ensures var h := HalfUnit(m);
      var extra := if fine then 0.0 else hi + h;
      && d.quantity > 0.0
      && Times(lo, d.quantity) - Times(h, d.quantity + 1.0 + extra) <= d.total
      && d.total <= Times(hi, d.quantity) + Times(h, d.quantity + 1.0 + extra)
  {
    hide HalfUnit, Times;
    var h := HalfUnit(m);
    HalfUnitSign(m);
    TimesLe(d.quantity, lo, d.unitPrice);
    TimesLe(d.quantity, d.unitPrice, hi);
    TimesSwap(d.quantity, lo);
    TimesSwap(d.quantity, d.unitPrice);
    TimesSwap(d.quantity, hi);
    TimesLe(h, d.quantity + 1.0 + (d.unitPrice + h), d.quantity + 1.0 + (hi + h));
  }

  // ------------------------------------------------------------------ when the average stays between the prices

  /** Nothing is rounded on the deals of one row: quantity, price and their product fit their columns. */
  ghost predicate Unrounded(m: Rounding, op: Op, k: Key) {
    op.Post? && op.order.DealOrder? && Key(op.order.date, op.order.currency, op.order.side) == k ==>
      && OnGrid(m, op.order.quantity) && OnGrid(m, op.order.unitPrice)
      && OnGrid(m, Times(op.order.quantity, op.order.unitPrice))
  }

  function AtPrice(k: Key): Deal -> bool {
    (d: Deal) => KeyOf()(d) == k ==> d.quantity > 0.0 && d.total == Times(d.unitPrice, d.quantity)
  }

  lemma OrdersLeaveAtPrice(m: Rounding, op: Op, k: Key)
    requires Unrounded(m, op, k)
    ensures Leaves(m, op, AtPrice(k))
  {
    hide Store, OnGrid, Times;
    if op.Post? && op.order.DealOrder? && op.order.quantity > 0.0 && op.order.unitPrice > 0.0 {
      var o := op.order;
      if Key(o.date, o.currency, o.side) == k {
        StoreOnGrid(m, o.quantity);
        StoreOnGrid(m, o.unitPrice);
        StoreOnGrid(m, Times(o.quantity, o.unitPrice));
        TimesSwap(o.quantity, o.unitPrice);
      }
      forall avg, realized
        ensures AtPrice(k)(DealAsStored(m, o, avg, realized))
      {
        assert KeyOf()(DealAsStored(m, o, avg, realized)) == Key(o.date, o.currency, o.side);
      }
    }
  }

  /** In every run: the average of a row lies between the least and the greatest unit price of its deals when
      nothing was rounded on the orders of that date, currency and side. */
  lemma AverageWithinPrices(m: Rounding, g: Registry, ops: seq<Op>, r: TradeRow, ds: seq<Deal>, lo: real, hi: real)
    requires forall d :: d in ds ==> d in DealsOf(Run(m, g, ops).vouchers, Run(m, g, ops).nextId)
    requires Shows(r, ds) && InBucket(ds, r.key)
    requires forall d :: d in ds && KeyOf()(d) == r.key ==> lo <= d.unitPrice <= hi
    requires forall i :: 0 <= i < |ops| ==> Unrounded(m, ops[i], r.key)
    ensures lo <= r.avgPrice <= hi
  {
    hide Run, Times, DealSum, Shows, Unrounded, AtPrice, OnGrid;
    forall i | 0 <= i < |ops|
      ensures Leaves(m, ops[i], AtPrice(r.key))
    {
      OrdersLeaveAtPrice(m, ops[i], r.key);
    }
    DealsOfRun(m, g, ops, AtPrice(r.key));
    forall d | d in ds && KeyOf()(d) == r.key
      ensures d.quantity > 0.0 && Times(lo, d.quantity) <= d.total <= Times(hi, d.quantity)
    {
      ReportedHave(Run(m, g, ops), AtPrice(r.key), d);
      AtPriceBetween(r.key, d, lo, hi);
    }
    AverageBetween(r, ds, lo, hi);
  }

  lemma AtPriceBetween(k: Key, d: Deal, lo: real, hi: real)
    requires AtPrice(k)(d) && KeyOf()(d) == k && lo <= d.unitPrice <= hi
    ensures d.quantity > 0.0 && Times(lo, d.quantity) <= d.total <= Times(hi, d.quantity)
  {
    hide Times;
    TimesLe(d.quantity, lo, d.unitPrice);
    TimesLe(d.quantity, d.unitPrice, hi);
    TimesSwap(d.quantity, lo);
    TimesSwap(d.quantity, d.unitPrice);
    TimesSwap(d.quantity, hi);
  }

  /** A row of a single deal whose quantity and price fit their columns averages its unit price exactly when their
      product fits its column too; in general, exactly when the total as stored is the product of the two as
      stored. */
  lemma SingleDealAverage(m: Rounding, db: Db, o: Order, r: TradeRow)
    requires o.DealOrder? && PostOrder(m, db, o).Committed?
    requires db.nextId in PostOrder(m, db, o).db.vouchers && PostOrder(m, db, o).db.vouchers[db.nextId].deal.Some?
    requires var d := PostOrder(m, db, o).db.vouchers[db.nextId].deal.value; Shows(r, [d]) && KeyOf()(d) == r.key
    ensures var d := PostOrder(m, db, o).db.vouchers[db.nextId].deal.value;
      && (OnGrid(m, o.quantity) && OnGrid(m, o.unitPrice) ==>
          (r.avgPrice == d.unitPrice <==> OnGrid(m, Times(o.quantity, o.unitPrice))))
      && (r.avgPrice == d.unitPrice <==>
          Store(m, Times(o.quantity, o.unitPrice)) == Times(Store(m, o.quantity), Store(m, o.unitPrice)))
  {
    hide PostOrder, Store, OnGrid, Times, Over;
    DealEntered(m, db, o);
    DealAccepted(m, db, o);
    PositiveStays(m, o.quantity);
    var d := PostOrder(m, db, o).db.vouchers[db.nextId].deal.value;
    OneDealSum(d, KeyedBy(KeyOf(), r.key, QuantityOf()));
    OneDealSum(d, KeyedBy(KeyOf(), r.key, TotalOf()));
    assert r.bucket.quantity == d.quantity && r.bucket.total == d.total;
    TimesOver(d.quantity, d.total);
    if d.total == Times(d.quantity, d.unitPrice) {
      OverIs(d.quantity, d.total, d.unitPrice);
    }
    if OnGrid(m, o.quantity) && OnGrid(m, o.unitPrice) {
      StoreOnGrid(m, o.quantity);
      StoreOnGrid(m, o.unitPrice);
      StoreError(m, Times(o.quantity, o.unitPrice));
      if OnGrid(m, Times(o.quantity, o.unitPrice)) {
        StoreOnGrid(m, Times(o.quantity, o.unitPrice));
      }
    }
  }

  lemma OneDealSum(d: Deal, f: Deal -> real)
    ensures DealSum([d], f) == f(d)
  {
    DealSumLast([], d, f);
    assert [] + [d] == [d];
  }
}
