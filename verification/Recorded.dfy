/** What a row of the tables says, against the call that made it: every voucher that is there was posted by one
    call of the run and still shows what that call was given. */
module Recorded {
  import opened Algebra
  import opened Amounts
  import opened Inventory
  import opened Books
  import opened Runs
  import opened Chains
  import opened Sums
  import opened InventoryBooks
  import opened Reports

  /** The call of the run that used up the voucher key `id`. */
  ghost function PostedAt(m: Rounding, g: Registry, ops: seq<Op>, id: nat): (i: nat)
    requires id < Run(m, g, ops).nextId
    ensures i < |ops|
  {
    if id < Run(m, g, ops[..|ops| - 1]).nextId then PostedAt(m, g, ops[..|ops| - 1], id) else |ops| - 1
  }

  /** The database that call found. */
  ghost function Before(m: Rounding, g: Registry, ops: seq<Op>, id: nat): Db
    requires id < Run(m, g, ops).nextId
  {
    Run(m, g, ops[..PostedAt(m, g, ops, id)])
  }

  ghost function CallOf(m: Rounding, g: Registry, ops: seq<Op>, id: nat): Op
    requires id < Run(m, g, ops).nextId
  {
    ops[PostedAt(m, g, ops, id)]
  }

  /** The voucher as `op` left it, but for its status. */
  ghost predicate MadeBy(m: Rounding, db: Db, op: Op, id: nat, v: Voucher) {
    && db.nextId == id && Perform(m, db, op).Committed? && id in Step(m, db, op).vouchers
    && v.(status := Final) == Step(m, db, op).vouchers[id]
    && ((op.Post? && v.reverses.None?) || (op.VoidOp? && v.reverses == Some(op.id)))
  }

  lemma NewlyMade(m: Rounding, db: Db, op: Op)
    requires Inv(m, db)
    ensures var db' := Step(m, db, op);
      && db.nextId <= db'.nextId <= db.nextId + 1
      && (forall id :: id in db'.vouchers && id < db.nextId ==>
            id in db.vouchers && db'.vouchers[id].(status := Final) == db.vouchers[id].(status := Final))
      && (db.nextId in db'.vouchers ==> MadeBy(m, db, op, db.nextId, db'.vouchers[db.nextId]))
  {
    hide VoucherOk, Linked, Distinct, PostOrder, VoidVoucher, Mirrors, Runs.Reversed, Without;
    StepChanges(m, db, op);
  }

  /** Every voucher of a reachable database is what the call that posted it made of it. */
  lemma {:induction false} VoucherRecorded(m: Rounding, g: Registry, ops: seq<Op>, id: nat)
    requires id in Run(m, g, ops).vouchers
    ensures id < Run(m, g, ops).nextId
    ensures MadeBy(m, Before(m, g, ops, id), CallOf(m, g, ops, id), id, Run(m, g, ops).vouchers[id])
  {
    hide Inv, Step, Perform, MadeBy;
    assert ops != [];
    var init, op := ops[..|ops| - 1], ops[|ops| - 1];
    var db, db' := Run(m, g, init), Run(m, g, ops);
    Reachable(m, g, init);
    Reachable(m, g, ops);
    Numbered(m, db', id);
    NewlyMade(m, db, op);
    if id < db.nextId {
      VoucherRecorded(m, g, init, id);
      var i := PostedAt(m, g, init, id);
      assert init[..i] == ops[..i];
      SameMade(m, Before(m, g, init, id), CallOf(m, g, init, id), id, db.vouchers[id], db'.vouchers[id]);
    }
  }

  lemma Numbered(m: Rounding, db: Db, id: nat)
    requires Inv(m, db) && id in db.vouchers
    ensures id < db.nextId
  {
    hide VoucherOk, Linked, Distinct;
  }

  lemma SameMade(m: Rounding, db: Db, op: Op, id: nat, v: Voucher, v': Voucher)
    requires MadeBy(m, db, op, id, v) && v'.(status := Final) == v.(status := Final)
    ensures MadeBy(m, db, op, id, v')
  {
    hide Perform, Step;
    assert v'.reverses == v'.(status := Final).reverses && v.reverses == v.(status := Final).reverses;
  }

  // ------------------------------------------------------------------ deals

  /** The row the deal met, at the moment it was posted. */
  ghost function RowMet(m: Rounding, g: Registry, ops: seq<Op>, id: nat): Position
    requires id < Run(m, g, ops).nextId && CallOf(m, g, ops, id).Post? && CallOf(m, g, ops, id).order.DealOrder?
  {
    Before(m, g, ops, id).PositionRow(CallOf(m, g, ops, id).order.currency)
  }

  ghost predicate IsDealCall(op: Op) {
    op.Post? && op.order.DealOrder?
  }

  /** What a sale at price `p` makes on `q` units, given the row it meets: without stock, nothing. */
  ghost function Gain(pos: Position, q: real, p: real): real {
    if pos.quantity > 0.0 then Times(p, q) - Times(pos.avgCost, q) else 0.0
  }

  /** A deal as it must stand for the order `o`, given the row the order met. */
  ghost predicate Shows(m: Rounding, d: Deal, o: Order, pos: Position)
    requires o.DealOrder?
  {
    && d.side == o.side && d.counterparty == o.counterparty && d.currency == o.currency && d.date == o.date
    && d.quantity == Store(m, o.quantity) && d.unitPrice == Store(m, o.unitPrice)
    && d.total == Store(m, Times(o.quantity, o.unitPrice))
    && d.avgCost == Store(m, if o.side.Sell? && pos.quantity <= 0.0 then o.unitPrice else pos.avgCost)
    && d.realized == Store(m, if o.side.Sell? then Gain(pos, o.quantity, o.unitPrice) else 0.0)
  }

  lemma DealShows(m: Rounding, db: Db, o: Order)
    requires o.DealOrder? && PostOrder(m, db, o).Committed?
    ensures var db' := PostOrder(m, db, o).db;
      && db.nextId in db'.vouchers && db'.vouchers[db.nextId].deal.Some?
      && Shows(m, db'.vouchers[db.nextId].deal.value, o, db.PositionRow(o.currency))
  {
    hide PostOrder, Times, Store;
    DealEntered(m, db, o);
    SaleRecords(m, db.PositionRow(o.currency), o.quantity, o.unitPrice);
  }

  lemma OtherOrdersNoDeal(m: Rounding, db: Db, op: Op, id: nat, v: Voucher)
    requires Inv(m, db) && MadeBy(m, db, op, id, v) && v.deal.Some?
    ensures IsDealCall(op)
    ensures PostOrder(m, db, op.order).Committed? && PostOrder(m, db, op.order).db.vouchers[id].deal == v.deal
  {
    hide Inv, PostOrder, VoidVoucher;
    assert v.(status := Final).deal == v.deal;
    match op
    case Post(o) =>
      if !o.DealOrder? {
        NoNewDeal(m, db, o);
      }
    case VoidOp(u, reason) =>
      VoidChanges(m, db, u, reason);
      VoidId(m, db, u, reason);
    case DeleteOp(_) =>
    case AllocateOp(_, _, _, _) =>
  }

  lemma VoidId(m: Rounding, db: Db, id: nat, reason: string)
    requires Inv(m, db) && VoidVoucher(m, db, id, reason).Committed?
    ensures VoidVoucher(m, db, id, reason).id == db.nextId
  {
    hide Inv, VoidVoucher, Mirrors;
    assert VoidError(db, id, reason).None? by { NotRefused(m, db, id, reason); }
    VoidKeeps(m, db, id, reason);
  }

  lemma NotRefused(m: Rounding, db: Db, id: nat, reason: string)
    requires VoidVoucher(m, db, id, reason).Committed?
    ensures VoidError(db, id, reason).None?
  {
  }

  /** In every reachable database, through short sales, voids and deletes in any order, every deal shows what its
      order said, the average its own call met, and for a sale what its price was above that average:
      nothing where there was no stock, whatever average the row still carried. */
  lemma DealRecorded(m: Rounding, g: Registry, ops: seq<Op>, id: nat)
    requires Run(m, g, ops).IsDeal(id)
    ensures id < Run(m, g, ops).nextId && IsDealCall(CallOf(m, g, ops, id))
    ensures Shows(m, Run(m, g, ops).vouchers[id].deal.value, CallOf(m, g, ops, id).order, RowMet(m, g, ops, id))
  {
    hide Run, MadeBy, Shows, PostOrder, Inv;
    VoucherRecorded(m, g, ops, id);
    var db, op := Before(m, g, ops, id), CallOf(m, g, ops, id);
    Reachable(m, g, ops[..PostedAt(m, g, ops, id)]);
    var v := Run(m, g, ops).vouchers[id];
    MadeId(m, db, op, id, v);
    OtherOrdersNoDeal(m, db, op, id, v);
    DealShows(m, db, op.order);
  }

  lemma MadeId(m: Rounding, db: Db, op: Op, id: nat, v: Voucher)
    requires MadeBy(m, db, op, id, v)
    ensures db.nextId == id
  {
  }

  /** The share of the sale posted under key `id` in the reported profit of currency `c`. */
  ghost function GainTerm(m: Rounding, g: Registry, ops: seq<Op>, c: nat): nat -> real {
    (id: nat) =>
      if id < Run(m, g, ops).nextId && Run(m, g, ops).IsDeal(id) && IsDealCall(CallOf(m, g, ops, id))
         && CallOf(m, g, ops, id).order.side.Sell? && CallOf(m, g, ops, id).order.currency == c
      then Store(m, Gain(RowMet(m, g, ops, id), CallOf(m, g, ops, id).order.quantity, CallOf(m, g, ops, id).order.unitPrice))
      else 0.0
  }

  /** In every reachable database the reported profit of a currency is, summed over its sales that were not deleted,
      price less the average of the stock held before the sale, times the quantity, each as stored; and
      nothing for a sale without stock. */
  lemma ProfitBySales(m: Rounding, g: Registry, ops: seq<Op>, c: nat)
    ensures var db := Run(m, g, ops);
      DealSum(DealsOf(db.vouchers, db.nextId), KeyedBy(CurrencyOf(), c, ProfitOf())) == Sum(db.nextId, GainTerm(m, g, ops, c))
  {
    hide Run, Inv, DealSum, Times, Store, Gain;
    var db := Run(m, g, ops);
    var f := KeyedBy(CurrencyOf(), c, ProfitOf());
    Reachable(m, g, ops);
    DealsByVoucher(db.vouchers, db.nextId, f);
    forall id: nat | id < db.nextId
      ensures DealWeight(db.vouchers, f)(id) == GainTerm(m, g, ops, c)(id)
    {
      if db.IsDeal(id) {
        DealRecorded(m, g, ops, id);
        NotDraft(m, db, id);
      }
    }
    SumEqual(db.nextId, DealWeight(db.vouchers, f), GainTerm(m, g, ops, c));
  }
}
