/** Small runs in which an expectation about the ledger fails, on a database with a customer, a cash box, a base
    currency and one other. */
module Witnesses {
  import opened Algebra
  import opened Amounts
  import opened Inventory
  import opened Books
  import opened Context
  import opened Runs
  import opened Chains
  import opened InventoryBooks
  import opened AllocationSafety
  import opened Effects
  import opened Reports
  import opened Prices

  function Shop(): Registry {
    Registry(map[0 := Party(Customer, None, true), 1 := Party(Cashbox, None, true)], map[0 := true, 1 := true], Some(0))
  }

  function Dealing(side: Side, q: real, p: real): Order {
    DealOrder(side, 0, Registered(0), 1, q, p, None, None, None)
  }

  /** In the shop, a deal is accepted whenever neither its quantity nor its total rounds to nothing and both its
      legs store the quantity alike. */
  lemma Accepted(m: Rounding, db: Db, side: Side, q: real, p: real)
    requires db.registry == Shop() && q > 0.0 && p > 0.0 && Store(m, q) != 0.0 && Store(m, Times(q, p)) != 0.0
    requires Store(m, q) == Store(m, Ctx(m, q))
    ensures PostOrder(m, db, Dealing(side, q, p)).Committed?
    ensures PostOrder(m, db, Dealing(side, q, p)).db.registry == Shop()
  {
    hide PostOrder, Store, Times, Ctx;
    DealAccepted(m, db, Dealing(side, q, p));
    OrderKeepsShop(m, db, Dealing(side, q, p));
  }

  lemma OrderKeepsShop(m: Rounding, db: Db, o: Order)
    ensures PostOrder(m, db, o).Committed? ==> PostOrder(m, db, o).db.registry == db.registry
  {
    hide PostError, EntriesOf, DealError, OrderError, DealLines, Apply;
  }

  lemma RunTwo(m: Rounding, g: Registry, a: Op, b: Op)
    ensures Run(m, g, [a]) == Step(m, Empty(g), a)
    ensures Run(m, g, [a, b]) == Step(m, Step(m, Empty(g), a), b)
  {
    hide Step;
    assert [a][..0] == [] && [a, b][..1] == [a];
  }

  lemma RunThree(m: Rounding, g: Registry, a: Op, b: Op, c: Op)
    ensures Run(m, g, [a, b, c]) == Step(m, Step(m, Step(m, Empty(g), a), b), c)
  {
    hide Step;
    RunTwo(m, g, a, b);
    assert [a, b, c][..2] == [a, b];
  }

  // ------------------------------------------------------------------ average prices

  lemma OneReported(m: Rounding, side: Side, q: real, p: real)
    requires q > 0.0 && p > 0.0 && Store(m, q) != 0.0 && Store(m, Times(q, p)) != 0.0
    requires Store(m, q) == Store(m, Ctx(m, q))
    ensures var db := Run(m, Shop(), [Post(Dealing(side, q, p))]);
      var ds := DealsOf(db.vouchers, db.nextId);
      && |ds| == 1 && ds[0].quantity == Store(m, q) && ds[0].unitPrice == Store(m, p)
      && ds[0].total == Store(m, Times(q, p))
  {
    hide PostOrder, Store, Times, Ctx;
    var o := Dealing(side, q, p);
    Accepted(m, Empty(Shop()), side, q, p);
    RunTwo(m, Shop(), Post(o), Post(o));
    DealEntered(m, Empty(Shop()), o);
    EmptyInv(m, Shop());
    OrderAdds(m, Empty(Shop()), o);
    var db := PostOrder(m, Empty(Shop()), o).db;
    assert DealsOf(db.vouchers, 0) == [] && DealsOf(db.vouchers, 1) == [] + Reported(db.vouchers, 0);
  }

  /** The row of the daily report that a single deal makes. */
  function RowOfOne(d: Deal): TradeRow
    requires d.quantity != 0.0
  {
    TradeRow(KeyOf()(d), Bucket(d.quantity, d.total, 1), Over(d.total, d.quantity))
  }

  lemma OneRow(d: Deal)
    requires d.quantity != 0.0
    ensures Shows(RowOfOne(d), [d])
  {
    hide Over;
    OneDealSum(d, KeyedBy(KeyOf(), KeyOf()(d), QuantityOf()));
    OneDealSum(d, KeyedBy(KeyOf(), KeyOf()(d), TotalOf()));
    OneDealSum(d, KeyedBy(KeyOf(), KeyOf()(d), One()));
  }

  /** The deals on the report after one deal in the shop. */
  function AfterOne(m: Rounding, q: real, p: real): seq<Deal> {
    var db := Run(m, Shop(), [Post(Dealing(Buy, q, p))]);
    DealsOf(db.vouchers, db.nextId)
  }

  /** Rounding does move an average outside the prices: one quantum bought at 1.4 averages 1, and a total of
      100 typed for three units averages more than the price it was stored under. */
  lemma AverageLeavesPrices(m: Rounding)
    requires m != Exact
    ensures var ds := AfterOne(m, 0.00000001, 1.4);
      && |ds| == 1 && ds[0].quantity != 0.0 && Shows(RowOfOne(ds[0]), ds)
      && ds[0].unitPrice == 1.4 && RowOfOne(ds[0]).avgPrice == 1.0
    ensures var ds := AfterOne(m, 3.0, 100.0 / 3.0);
      && |ds| == 1 && ds[0].quantity != 0.0 && Shows(RowOfOne(ds[0]), ds)
      && ds[0].unitPrice == 33.33333333 && ds[0].total == 100.0 && RowOfOne(ds[0]).avgPrice > 33.33333333
  {
    hide Run, Shows, Store, Times, Ctx;
    OneQuantum(m);
    Thirds(m);
    OneReported(m, Buy, 0.00000001, 1.4);
    OneReported(m, Buy, 3.0, 100.0 / 3.0);
    var ds, es := AfterOne(m, 0.00000001, 1.4), AfterOne(m, 3.0, 100.0 / 3.0);
    assert ds == [ds[0]] && es == [es[0]];
    OneRow(ds[0]);
    OneRow(es[0]);
  }

  lemma OneQuantum(m: Rounding)
    requires m != Exact
    ensures Store(m, 0.00000001) == 0.00000001 && Store(m, 1.4) == 1.4
    ensures Store(m, Times(0.00000001, 1.4)) == 0.00000001
    ensures Ctx(m, 0.00000001) == 0.00000001
  {
    hide Ctx;
    CtxGrid(m, 0.00000001);
    assert 0.00000001 * SCALE == 1.0 && 1.4 * SCALE == 140000000.0;
    NearestInt(1);
    NearestInt(140000000);
  }

  lemma Thirds(m: Rounding)
    requires m != Exact
    ensures Store(m, 3.0) == 3.0 && Store(m, 100.0 / 3.0) == 33.33333333 && Store(m, Times(3.0, 100.0 / 3.0)) == 100.0
    ensures Ctx(m, 3.0) == 3.0
  {
    hide Ctx;
    CtxGrid(m, 3.0);
    assert 3.0 * SCALE == 300000000.0 && 100.0 * SCALE == 10000000000.0;
    NearestInt(300000000);
    NearestInt(10000000000);
    assert Times(3.0, 100.0 / 3.0) == 100.0;
    assert ((100.0 / 3.0) * SCALE).Floor == 3333333333;
  }

  // ------------------------------------------------------------------ stock against the deals

  /** A quantity exactly half-way between two quanta, on top of stock of one quantum. */
  function Tied(m: Rounding): Order {
    if m.HalfAway? then Dealing(Sell, 0.000000005, 1000.0) else Dealing(Buy, 0.000000025, 1000.0)
  }

  lemma TiedNumbers(m: Rounding)
    requires m != Exact
    ensures Store(m, 0.00000001) == 0.00000001 && Store(m, Times(0.00000001, 1000.0)) != 0.0
    ensures Store(m, Tied(m).quantity) != 0.0 && Store(m, Times(Tied(m).quantity, 1000.0)) != 0.0
    ensures !RoundsAlike(m, 0.00000001, Signed(Tied(m).side, Tied(m).quantity))
    ensures OnGrid(m, 0.00000001) && Ctx(m, 0.00000001) == 0.00000001
    ensures Ctx(m, Tied(m).quantity) == Tied(m).quantity
  {
    hide Fl;
    CtxGrid(m, 0.00000001);
    Powers();
    NineDecimals(0.000000025, 25);
    NineDecimals(0.000000005, 5);
    assert 0.00000001 * SCALE == 1.0;
    NearestInt(1);
  }

  lemma NineDecimals(x: real, k: int)
    requires 0.0 < x < 1.0 && x == k as real * 0.000000001
    ensures Fl(x) == x
  {
    hide Fl;
    Powers();
    FlDecimal(x, k, 9);
  }

  /** After one quantum was bought, stock is right, and one quantum. */
  lemma OneQuantumHeld(m: Rounding)
    requires m != Exact
    ensures var o := Dealing(Buy, 0.00000001, 1000.0);
      var out := PostOrder(m, Empty(Shop()), o);
      && out.Committed? && Inv(m, out.db) && out.db.registry == Shop()
      && Agrees(m, out.db, 1) && out.db.PositionRow(1).quantity == 0.00000001
  {
    hide PostOrder, Store, Times, OnGrid, Agrees, RoundsAlike, IsTie, Inv, Ctx;
    var o, db := Dealing(Buy, 0.00000001, 1000.0), Empty(Shop());
    TiedNumbers(m);
    Accepted(m, db, Buy, 0.00000001, 1000.0);
    EmptyInv(m, Shop());
    OrderKeeps(m, db, o);
    EmptyAgrees(m, Shop(), 1);
    GridRoundsAlike(m, 0.0, Signed(Buy, 0.00000001));
    DealKeepsAgreement(m, db, o);
    DealPosted(m, db, o, 1);
  }

  /** A run of two committed deals after which stock is not what the deals bought less what they sold. */
  lemma StockLeavesDeals(m: Rounding)
    requires m != Exact
    ensures var first := Post(Dealing(Buy, 0.00000001, 1000.0));
      && PostOrder(m, Empty(Shop()), first.order).Committed?
      && PostOrder(m, Run(m, Shop(), [first]), Tied(m)).Committed?
      && !Agrees(m, Run(m, Shop(), [first, Post(Tied(m))]), 1)
  {
    hide PostOrder, Store, Times, OnGrid, Agrees, RoundsAlike, IsTie, Inv, Ctx;
    var o := Dealing(Buy, 0.00000001, 1000.0);
    TiedNumbers(m);
    OneQuantumHeld(m);
    RunTwo(m, Shop(), Post(o), Post(Tied(m)));
    var db1 := PostOrder(m, Empty(Shop()), o).db;
    Accepted(m, db1, Tied(m).side, Tied(m).quantity, 1000.0);
    DealKeepsAgreement(m, db1, Tied(m));
  }

  // ------------------------------------------------------------------ the books against stock

  /** Voiding the newest voucher. */
  lemma VoidNewest(m: Rounding, db: Db, id: nat, reason: string, w: Entry -> real)
    requires Inv(m, db) && id in db.vouchers && db.nextId == id + 1 && db.vouchers[id].status == Final
    requires !Blank(reason) && Odd(w)
    ensures var out := VoidVoucher(m, db, id, reason);
      && out.Committed? && Inv(m, out.db) && out.db.nextId == id + 2 && id + 1 in out.db.vouchers
      && out.db.vouchers[id + 1].status == Final && out.db.vouchers[id + 1].deal.None?
      && Total(out.db, w) == Total(db, w) - EntrySum(db.vouchers[id].entries, w)
      && EntrySum(out.db.vouchers[id + 1].entries, w) == -EntrySum(db.vouchers[id].entries, w)
      && out.db.positions == Unwound(m, db, db.vouchers[id])
  {
    hide Inv, Total, VoidVoucher, Odd, Blank, EntrySum, Unwound, Mirrors, VoidError;
    NewestFree(m, db, id, reason);
    VoidKeeps(m, db, id, reason);
    VoidChanges(m, db, id, reason);
    VoidPositions(m, db, id, reason);
    var out := VoidVoucher(m, db, id, reason);
    var rev := out.db.vouchers[out.id];
    assert out.db.vouchers[id + 1] == rev;
    TotalsAfterVoid(m, db, out.db, id, rev, w);
    OppositeRows(rev, db.vouchers[id], w);
  }

  /** Posting a deal, voiding it, and voiding the reversal: every balance is back to what the deal made it, and
      stock is what it was before the deal. */
  lemma ReversalVoided(m: Rounding, db: Db, o: Order, reason: string, w: Entry -> real)
    requires Inv(m, db) && o.DealOrder? && PostOrder(m, db, o).Committed? && !Blank(reason) && Odd(w)
    requires OnGrid(m, o.quantity) && OnGrid(m, db.PositionRow(o.currency).quantity)
    ensures var posted := PostOrder(m, db, o).db;
      var voided := VoidVoucher(m, posted, db.nextId, reason);
      && voided.Committed?
      && var again := VoidVoucher(m, voided.db, db.nextId + 1, reason);
         && again.Committed? && Total(again.db, w) == Total(posted, w)
         && again.db.PositionRow(o.currency).quantity == db.PositionRow(o.currency).quantity
  {
    hide Inv, PostOrder, Total, VoidVoucher, Odd, Blank, EntrySum, Unwound, OnGrid, Store;
    var posted := PostOrder(m, db, o).db;
    OrderAdds(m, db, o);
    OrderKeeps(m, db, o);
    VoidNewest(m, posted, db.nextId, reason, w);
    var voided := VoidVoucher(m, posted, db.nextId, reason);
    VoidNewest(m, voided.db, db.nextId + 1, reason, w);
    StockBack(m, db, o, posted.vouchers[db.nextId]);
    NothingUnwound(m, voided.db, voided.db.vouchers[db.nextId + 1]);
  }

  lemma NothingUnwound(m: Rounding, db: Db, v: Voucher)
    requires v.deal.None?
    ensures Unwound(m, db, v) == db.positions
  {
  }

  lemma StockBack(m: Rounding, db: Db, o: Order, v: Voucher)
    requires Inv(m, db) && o.DealOrder? && PostOrder(m, db, o).Committed?
    requires OnGrid(m, o.quantity) && OnGrid(m, db.PositionRow(o.currency).quantity)
    requires db.nextId in PostOrder(m, db, o).db.vouchers && v == PostOrder(m, db, o).db.vouchers[db.nextId]
    ensures var posted := PostOrder(m, db, o).db;
      posted.(positions := Unwound(m, posted, v)).PositionRow(o.currency).quantity == db.PositionRow(o.currency).quantity
  {
    hide Inv, PostOrder, Store, OnGrid, Unwound, Db.PositionRow;
    var posted := PostOrder(m, db, o).db;
    DealEntered(m, db, o);
    DealPosted(m, db, o, o.currency);
    StoreOnGrid(m, o.quantity);
    GridSum(m, db.PositionRow(o.currency).quantity, o.quantity);
    StoreOnGrid(m, db.PositionRow(o.currency).quantity + Signed(o.side, o.quantity));
    UnwoundQuantity(m, posted, v, o.currency);
  }

  /** A run, under every rounding, in which the position account is not minus the stock: a purchase of one unit
      whose reversal was voided. */
  lemma BooksLeaveStock(m: Rounding)
    ensures var db := Run(m, Shop(), [Post(Dealing(Buy, 1.0, 1.0)), VoidOp(0, "x"), VoidOp(1, "x")]);
      Total(db, PositionBalance(1)) == -1.0 && db.PositionRow(1).quantity == 0.0
  {
    hide PostOrder, VoidVoucher, Total, Store, Times, OnGrid, Blank, Ctx;
    var o, db := Dealing(Buy, 1.0, 1.0), Empty(Shop());
    OneUnit(m);
    GridPair(m, 1.0);
    ZeroOnGrid(m);
    Accepted(m, db, Buy, 1.0, 1.0);
    EmptyInv(m, Shop());
    NotBlank();
    assert Odd(PositionBalance(1));
    ReversalVoided(m, db, o, "x", PositionBalance(1));
    RunThree(m, Shop(), Post(o), VoidOp(0, "x"), VoidOp(1, "x"));
    DealMoves(m, db, o, PositionOf(1), 1);
    NothingPosted(Shop(), OnAccount(PositionOf(1), 1));
  }

  lemma NotBlank()
    ensures !Blank("x")
  {
  }

  lemma NothingPosted(g: Registry, w: Entry -> real)
    ensures Total(Empty(g), w) == 0.0
  {
  }

  lemma OneUnit(m: Rounding)
    ensures OnGrid(m, 1.0) && Store(m, 1.0) == 1.0 && Times(1.0, 1.0) == 1.0
  {
    assert 1.0 * SCALE == 100000000.0;
    NearestInt(100000000);
  }

  // ------------------------------------------------------------------ amounts longer than the context

  /** More than 28 digits, so near half a quantum that rounding to the context moves it across. */
  function Long(m: Rounding): real {
    if m.HalfAway? then 1.00000000499999999999999999996 else 1.0000000050000000000000000001
  }

  lemma LongNumbers(m: Rounding)
    requires m != Exact
    ensures Store(m, Long(m)) != Store(m, Ctx(m, Long(m)))
    ensures Store(m, Long(m)) != 0.0 && Store(m, Ctx(m, Long(m))) != 0.0
  {
    hide Unit, Ten;
    Powers();
    var x := Long(m);
    UnitIs(x, 0);
    var z := Over(x, 0.000000000000000000000000001);
    assert NearestEven(z) == 1000000005000000000000000000;
    assert Fl(x) == 1.000000005;
    var y := 1.000000005 * SCALE;
    assert y == 100000000.5 && y.Floor == 100000000;
    assert NearestEven(y) == 100000000 && NearestAway(y) == 100000001;
    assert Ctx(m, x) == 1.000000005;
    var w := x * SCALE;
    assert if m.HalfAway? then 100000000.0 < w < 100000000.5 else 100000000.5 < w < 100000001.0;
    assert w.Floor == 100000000;
    assert m.HalfEven? ==> NearestEven(w) == 100000001;
    assert m.HalfAway? ==> NearestAway(w) == 100000000;
  }

  /** Under both roundings there are amounts that pass the first balance check and not the second: a receipt or a deal
      of them is refused. */
  lemma LongAmountsRefused(m: Rounding)
    requires m != Exact
    ensures PostOrder(m, Empty(Shop()), CashOrder(ReceiveV, 0, Registered(0), Registered(1), 1, Long(m), None))
      == Rejected(StoredUnbalanced)
    ensures PostOrder(m, Empty(Shop()), Dealing(Buy, Long(m), 1.0)).Rejected?
  {
    hide Store, Ctx, PostOrder, Long, Shop;
    LongNumbers(m);
    LongReceipt(m);
    DealAccepted(m, Empty(Shop()), Dealing(Buy, Long(m), 1.0));
  }

  lemma LongReceipt(m: Rounding)
    requires m != Exact
    ensures PostOrder(m, Empty(Shop()), CashOrder(ReceiveV, 0, Registered(0), Registered(1), 1, Long(m), None))
      == Rejected(StoredUnbalanced)
  {
    hide Store, Ctx, EntriesOf, Balanced, StoredBalanced, Long;
    LongNumbers(m);
    LongPositive(m);
    var x := Long(m);
    var o := CashOrder(ReceiveV, 0, Registered(0), Registered(1), 1, x, None);
    assert Named(o) == {Registered(0), Registered(1)};
    var lines := Pair(m, Registered(1), Registered(0), 1, x);
    PairBalanced(m, Registered(1), Registered(0), 1, x, 0);
    StoreOdd(m, Ctx(m, x));
    CtxTwice(m, x);
    var es := EntriesOf(m, lines, 0);
    assert forall e :: e in es ==> e == es[0] || e == es[1];
  }

  lemma LongPositive(m: Rounding)
    ensures Long(m) > 0.0
  {
  }
}
