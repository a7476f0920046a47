/** Which deals are open on the allocation forms, and which vouchers the forms list for them, in every database a run
    can reach: by the orders they came from. */
module Invoices {
  import opened Algebra
  import opened Amounts
  import opened Inventory
  import opened Books
  import opened Allocation
  import opened Runs
  import opened Effects
  import opened Recorded

  lemma {:induction false} RunRegistry(m: Rounding, g: Registry, ops: seq<Op>)
    ensures Run(m, g, ops).registry == g
  {
    if ops != [] {
      RunRegistry(m, g, ops[..|ops| - 1]);
      StepRegistry(m, Run(m, g, ops[..|ops| - 1]), ops[|ops| - 1]);
    }
  }

  lemma StepRegistry(m: Rounding, db: Db, op: Op)
    ensures Step(m, db, op).registry == db.registry
  {
    hide PostError, OrderError, DealError, VoidError, DeleteError, CanAllocate, Apply, DealRequest, OrderRequest, Unwound;
  }

  /** The order behind a voucher that is not a reversal. */
  ghost function OrderOf(m: Rounding, g: Registry, ops: seq<Op>, id: nat): Order
    requires id < Run(m, g, ops).nextId && CallOf(m, g, ops, id).Post?
  {
    CallOf(m, g, ops, id).order
  }

  lemma MadeStillThere(m: Rounding, g: Registry, ops: seq<Op>, id: nat)
    requires id in Run(m, g, ops).vouchers && Run(m, g, ops).vouchers[id].reverses.None?
    ensures id < Run(m, g, ops).nextId && CallOf(m, g, ops, id).Post?
    ensures StillThere(m, Before(m, g, ops, id), OrderOf(m, g, ops, id), Run(m, g, ops), id)
  {
    hide Run, PostOrder;
    VoucherRecorded(m, g, ops, id);
    RunRegistry(m, g, ops);
    RunRegistry(m, g, ops[..PostedAt(m, g, ops, id)]);
    assert Run(m, g, ops).vouchers[id].reverses == Run(m, g, ops).vouchers[id].(status := Final).reverses;
  }

  lemma DealsReverseNothing(m: Rounding, g: Registry, ops: seq<Op>, id: nat)
    requires Run(m, g, ops).IsDeal(id)
    ensures Run(m, g, ops).vouchers[id].reverses.None?
    ensures id < Run(m, g, ops).nextId && IsDealCall(CallOf(m, g, ops, id))
    ensures var d, o := Run(m, g, ops).vouchers[id].deal.value, OrderOf(m, g, ops, id);
      d.side == o.side && d.counterparty == o.counterparty && d.currency == o.currency
  {
    hide Run, PostOrder, Inv;
    DealRecorded(m, g, ops, id);
    Reachable(m, g, ops);
    ReversalsNoDeal(m, Run(m, g, ops), id);
  }

  lemma ReversalsNoDeal(m: Rounding, db: Db, id: nat)
    requires Inv(m, db) && db.IsDeal(id)
    ensures db.vouchers[id].reverses.None?
  {
    hide VoucherOk, Distinct, Forward, OneToOne, Mirrors;
    if db.vouchers[id].reverses.Some? {
      assert ReversesOk(db.vouchers, id, db.vouchers[id].reverses.value);
    }
  }

  /** In every reachable database a deal is open for settlement if and only if it is final and its base amount stayed
      on the customer, and for delivery if and only if it is final and its currency did. */
  lemma OpenInRun(m: Rounding, g: Registry, ops: seq<Op>, id: nat)
    requires Run(m, g, ops).IsDeal(id)
    ensures id < Run(m, g, ops).nextId && IsDealCall(CallOf(m, g, ops, id))
    ensures var db, o := Run(m, g, ops), OrderOf(m, g, ops, id);
      !o.counterparty.PositionOf? ==>
        && (InvoiceOpen(db, Settlement, id) <==>
              db.vouchers[id].status == Final && (o.settle.None? || o.settle.value == o.counterparty))
        && (InvoiceOpen(db, Delivery, id) <==>
              db.vouchers[id].status == Final && (o.delivery.None? || o.delivery.value == o.counterparty))
  {
    hide Run, PostOrder, StillThere, InvoiceOpen;
    DealsReverseNothing(m, g, ops, id);
    MadeStillThere(m, g, ops, id);
    if !OrderOf(m, g, ops, id).counterparty.PositionOf? {
      DealOpens(m, Before(m, g, ops, id), OrderOf(m, g, ops, id), Run(m, g, ops), id);
    }
  }

  /** In every reachable database a deal, void or not, has its whole total to be settled, and its whole quantity to be
      delivered unless its order named another account for the currency. */
  lemma CoverableInRun(m: Rounding, g: Registry, ops: seq<Op>, id: nat)
    requires Run(m, g, ops).IsDeal(id)
    ensures id < Run(m, g, ops).nextId && IsDealCall(CallOf(m, g, ops, id))
    ensures var db, o := Run(m, g, ops), OrderOf(m, g, ops, id);
      !o.counterparty.PositionOf? ==>
        && Coverable(db, Settlement, id) == Store(m, Times(o.quantity, o.unitPrice))
        && Coverable(db, Delivery, id) ==
             if o.delivery.None? || o.delivery.value == o.counterparty then Store(m, o.quantity) else 0.0
  {
    hide Run, PostOrder, StillThere, Coverable, Store, Times;
    DealsReverseNothing(m, g, ops, id);
    MadeStillThere(m, g, ops, id);
    if !OrderOf(m, g, ops, id).counterparty.PositionOf? {
      DealCoverable(m, Before(m, g, ops, id), OrderOf(m, g, ops, id), Run(m, g, ops), id);
    }
  }

  /** In every reachable database the voucher of a pair service is listed as a payment for a deal if and only if it is
      final, is a receipt, a payment or a transfer in base (to settle) or in the deal's currency (to deliver), and the
      deal's customer gave in it where a sale is settled or a purchase delivered, and got where not. */
  lemma ListedInRun(m: Rounding, g: Registry, ops: seq<Op>, p: nat, u: Use, d: nat)
    requires Run(m, g, ops).IsDeal(d) && p in Run(m, g, ops).vouchers && Run(m, g, ops).vouchers[p].reverses.None?
    ensures d < Run(m, g, ops).nextId && IsDealCall(CallOf(m, g, ops, d))
    ensures p < Run(m, g, ops).nextId && CallOf(m, g, ops, p).Post?
    ensures var deal, o := OrderOf(m, g, ops, d), OrderOf(m, g, ops, p);
      IsPair(o) && Gains(o) != Loses(o) ==>
        (PaymentListed(Run(m, g, ops), u, d, p) <==>
           && Run(m, g, ops).vouchers[p].status == Final && MovesMoney(o)
           && (if u.Settlement? then g.base == Some(o.currency) else deal.currency == o.currency)
           && deal.counterparty == if u.Settlement? == deal.side.Sell? then Loses(o) else Gains(o))
  {
    hide Run, PostOrder, StillThere, PaymentListed, Gains, Loses, MovesMoney;
    DealsReverseNothing(m, g, ops, d);
    MadeStillThere(m, g, ops, p);
    RunRegistry(m, g, ops[..PostedAt(m, g, ops, p)]);
    var o := OrderOf(m, g, ops, p);
    if IsPair(o) && Gains(o) != Loses(o) {
      PairListed(m, Before(m, g, ops, p), o, Run(m, g, ops), p, u, d);
    }
  }
}
