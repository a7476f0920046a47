/** Runs in which stock is never lost sight of: net worth is profit there. */
module OrderlyRuns {
  import opened Algebra
  import opened Amounts
  import opened Inventory
  import opened Books
  import opened Allocation
  import opened Runs
  import opened Chains
  import opened Sums
  import opened InventoryBooks
  import opened Reports
  import opened NetWorth

  /** Taking a deal back leaves stock worth what it would have been worth without it: always while
      a purchase leaves stock behind, and otherwise exactly under these conditions. */
  predicate Retractable(pos: Position, d: Deal) {
    match d.side
    case Buy => d.quantity < pos.quantity || (d.quantity == pos.quantity && Times(pos.quantity, pos.avgCost) == d.total)
    case Sell => pos.quantity == 0.0 || pos.avgCost == d.avgCost
  }

  /** A deal row with its figures not rounded. */
  ghost predicate Faithful(d: Deal) {
    && d.quantity > 0.0
    && d.total == Times(d.quantity, d.unitPrice)
    && d.realized == if d.side.Sell? then Times(d.unitPrice - d.avgCost, d.quantity) else 0.0
  }

  function TakenBack(pos: Position, d: Deal): Position {
    Reverse(Exact, pos, d.side, d.quantity, d.unitPrice, d.avgCost)
  }

  /** Taking a deal back changes the value of the stock by exactly what the deal put in, if and only if
      the deal is retractable. */
  lemma RetractKeepsValue(pos: Position, d: Deal)
    requires Stocked(Exact, pos) && Faithful(d) && (d.side.Buy? ==> d.quantity <= pos.quantity)
    ensures Value(TakenBack(pos, d)) == Value(pos) + MarginOf()(d) <==> Retractable(pos, d)
    ensures Retractable(pos, d) ==> Stocked(Exact, TakenBack(pos, d))
  {
    hide Times, Over;
    var q, a, p := d.quantity, d.avgCost, d.unitPrice;
    match d.side
    case Buy =>
      var rest := pos.quantity - q;
      TimesZero(0.0);
      if rest > 0.0 {
        TimesOver(rest, Value(pos) - Times(q, p));
      }
    case Sell =>
      TimesZero(0.0);
      TimesZero(a);
      TimesSum(q, p - a, a, p);
      TimesSwap(q, p - a);
      var avg := if pos.avgCost == 0.0 then a else pos.avgCost;
      TimesSum(avg, pos.quantity, q, pos.quantity + q);
      if Times(q, pos.avgCost) == Times(q, a) {
        TimesCancel(q, pos.avgCost, a);
        TimesCancel(q, a, pos.avgCost);
      }
      TimesZero(pos.quantity);
      if pos.avgCost == 0.0 && pos.quantity > 0.0 && Times(pos.quantity, a) == 0.0 {
        TimesCancel(pos.quantity, a, 0.0);
        TimesCancel(pos.quantity, 0.0, a);
      }
  }

  // ------------------------------------------------------------------ orderly calls

  /** The stock row of a voucher's deal allows it to be taken back. */
  predicate RowRetractable(db: Db, id: nat)
    requires db.IsDeal(id)
  {
    var d := db.vouchers[id].deal.value;
    Retractable(db.PositionRow(d.currency), d)
  }

  /** Position accounts are left to deals, nothing is sold that is not held, deals are voided or deleted only while
      their stock can still be told apart (the latest deal in its currency always is such a deal), and
      the reversal of a deal is not voided. */
  ghost predicate Orderly(db: Db, op: Op) {
    match op
    case Post(o) =>
      && Tidy(op)
      && (o.DealOrder? && o.side.Sell? ==> o.quantity <= db.PositionRow(o.currency).quantity)
    case VoidOp(id, reason) =>
      VoidError(db, id, reason).None? ==>
        && (db.IsDeal(id) ==> RowRetractable(db, id))
        && (db.vouchers[id].reverses.Some? ==> !db.IsDeal(db.vouchers[id].reverses.value))
    case DeleteOp(id) => DeleteError(db, id).None? && db.IsDeal(id) ==> RowRetractable(db, id)
    case AllocateOp(_, _, _, _) => true
  }

  /** The stock of a currency is worth what its deals in force put in. */
  ghost predicate Worth(db: Db, c: nat) {
    Stocked(Exact, db.PositionRow(c)) && DriftOf(db)(c) == 0.0
  }

  ghost predicate AllFaithful(db: Db) {
    forall id :: db.IsDeal(id) ==> Faithful(db.vouchers[id].deal.value)
  }

  /** The voucher leaves every position account as it was. */
  ghost predicate Plain(v: Voucher) {
    forall c: nat :: EntrySum(v.entries, PositionBalance(c)) == 0.0
  }

  /** Reversals that were themselves voided are not those of deals. */
  ghost predicate NoneReinstated(db: Db) {
    forall id :: id in db.vouchers && db.vouchers[id].reverses.Some? && db.vouchers[id].status == Void ==>
      Plain(db.vouchers[id])
  }

  ghost predicate Kept(db: Db) {
    AllFaithful(db) && NoneReinstated(db) && forall c :: Worth(db, c)
  }

  // ------------------------------------------------------------------ posting

  lemma DealWorth(pos: Position, side: Side, q: real, p: real)
    requires Stocked(Exact, pos) && q > 0.0 && (side.Sell? ==> q <= pos.quantity)
    ensures var f := Apply(Exact, pos, side, q, p);
      && Stocked(Exact, f.position)
      && Value(f.position) == Value(pos) + (if side.Sell? then f.realized - Times(q, p) else Times(q, p))
  {
    hide Times, Blend;
    match side
    case Buy =>
      BuyStep(Exact, pos, q, p);
      TimesZero(pos.quantity + q);
    case Sell => SellStep(Exact, pos, q, p);
  }

  lemma PostedWorth(db: Db, o: Order, c: nat)
    requires Inv(Exact, db) && PostOrder(Exact, db, o).Committed? && Orderly(db, Post(o))
    requires Worth(db, c)
    ensures Worth(PostOrder(Exact, db, o).db, c)
  {
    hide Inv, PostOrder, Times, Apply, Stocked, DealWeight, Value, Tidy, SumOf;
    OrderAdds(Exact, db, o);
    var out := PostOrder(Exact, db, o);
    var v := out.db.vouchers[out.id];
    InForceAfter(Exact, db, out.db, Added(v), Margins(c));
    WeightOfOne(v, Margins(c));
    if o.DealOrder? && o.currency == c {
      DealAcceptedPositive(db, o);
      DealWorth(db.PositionRow(c), o.side, o.quantity, o.unitPrice);
      DealEntered(Exact, db, o);
    } else {
      EnteredElsewhere(Exact, db, o, c);
    }
  }

  lemma DealAcceptedPositive(db: Db, o: Order)
    requires o.DealOrder? && PostOrder(Exact, db, o).Committed?
    ensures o.quantity > 0.0
    ensures var f := Apply(Exact, db.PositionRow(o.currency), o.side, o.quantity, o.unitPrice);
      f.realized == if o.side.Sell? then Times(o.unitPrice - f.avgAtTime, o.quantity) else 0.0
  {
    hide PostError, EntriesOf, Times, DealLines;
  }

  lemma PostedFaithful(db: Db, o: Order)
    requires PostOrder(Exact, db, o).Committed? && AllFaithful(db)
    ensures AllFaithful(PostOrder(Exact, db, o).db)
  {
    hide PostOrder, Times, Apply;
    OrderAdds(Exact, db, o);
    if o.DealOrder? {
      DealAcceptedPositive(db, o);
      DealEntered(Exact, db, o);
    } else {
      NoNewDeal(Exact, db, o);
    }
  }

  // ------------------------------------------------------------------ taking back

  /** Whatever takes a retractable deal out of force and unwinds its row keeps the worth of every row. */
  lemma RetractWorth(db: Db, db': Db, id: nat, c: nat)
    requires Worth(db, c) && AllFaithful(db) && id in db.vouchers && db.vouchers[id].status == Final
    requires db.IsDeal(id) ==> RowRetractable(db, id)
    requires db'.positions == Unwound(Exact, db, db.vouchers[id])
    requires SumOf(db', Final, Margins(c)) - SumOf(db, Final, Margins(c)) == -DealWeight(db.vouchers, Margins(c))(id)
    ensures Worth(db', c)
  {
    hide Reverse, Retractable, Times, SumOf;
    var v := db.vouchers[id];
    if v.deal.Some? && v.deal.value.currency == c {
      RetractableHeld(db.PositionRow(c), v.deal.value);
      RetractKeepsValue(db.PositionRow(c), v.deal.value);
    }
  }

  lemma RetractableHeld(pos: Position, d: Deal)
    requires Retractable(pos, d)
    ensures d.side.Buy? ==> d.quantity <= pos.quantity
  {
  }

  lemma VoidWorth(db: Db, id: nat, reason: string, c: nat)
    requires Inv(Exact, db) && AllFaithful(db) && Orderly(db, VoidOp(id, reason)) && Worth(db, c)
    ensures Worth(Step(Exact, db, VoidOp(id, reason)), c)
  {
    hide Inv, VoidVoucher, Unwound, RowRetractable, Worth, Mirrors, SumOf, VoidError;
    if VoidVoucher(Exact, db, id, reason).Committed? {
      var db' := Step(Exact, db, VoidOp(id, reason));
      CommittedVoid(Exact, db, id, reason);
      VoidChanges(Exact, db, id, reason);
      VoidPositions(Exact, db, id, reason);
      InForceAfter(Exact, db, db', Reversing(id, db'.vouchers[db.nextId]), Margins(c));
      RetractWorth(db, db', id, c);
    }
  }

  lemma CommittedVoid(m: Rounding, db: Db, id: nat, reason: string)
    requires VoidVoucher(m, db, id, reason).Committed?
    ensures VoidError(db, id, reason).None? && id in db.vouchers && db.vouchers[id].status == Final
  {
    hide PostVoucher, Unwound;
  }

  lemma DeleteWorth(db: Db, id: nat, c: nat)
    requires Inv(Exact, db) && AllFaithful(db) && Orderly(db, DeleteOp(id)) && Worth(db, c)
    ensures Worth(Step(Exact, db, DeleteOp(id)), c)
  {
    hide Inv, Unwound, RowRetractable, Worth, SumOf;
    if DeleteError(db, id).None? {
      var db' := Step(Exact, db, DeleteOp(id));
      StepChanges(Exact, db, DeleteOp(id));
      InForceAfter(Exact, db, db', Removed(id), Margins(c));
      RetractWorth(db, db', id, c);
    }
  }

  // ------------------------------------------------------------------ reversals

  lemma PlainMirror(v: Voucher, u: Voucher)
    requires Plain(u) && Mirrors(v.entries, u.entries)
    ensures Plain(v)
  {
    hide EntrySum, Mirrors;
    forall c: nat
      ensures EntrySum(v.entries, PositionBalance(c)) == 0.0
    {
      MirrorSum(v.entries, u.entries, PositionBalance(c)) by { OppositeAmounts(c); }
      assert EntrySum(u.entries, PositionBalance(c)) == 0.0;
    }
  }

  lemma OppositeAmounts(c: nat)
    ensures forall e :: PositionBalance(c)(Opposed(e)) == -PositionBalance(c)(e)
  {
  }

  lemma NoDealPlain(db: Db, id: nat)
    requires PositionsTidy(db) && id in db.vouchers && db.vouchers[id].reverses.None? && db.vouchers[id].deal.None?
    ensures Plain(db.vouchers[id])
  {
    hide EntrySum;
    forall c: nat
      ensures EntrySum(db.vouchers[id].entries, PositionBalance(c)) == 0.0
    {
      NoDealNoEffect(db.vouchers[id], db.registry.base, c);
    }
  }

  /** A reversal of anything but a deal leaves the position accounts alone. */
  lemma ReversalPlain(m: Rounding, db: Db, id: nat)
    requires Inv(m, db) && PositionsTidy(db) && NoneReinstated(db)
    requires id in db.vouchers && db.vouchers[id].reverses.Some? && !db.IsDeal(db.vouchers[id].reverses.value)
    ensures Plain(db.vouchers[id])
  {
    hide VoucherOk, Runs.Distinct, Forward, OneToOne, PositionsTidy, Plain, Mirrors;
    var u := db.vouchers[id].reverses.value;
    assert ReversesOk(db.vouchers, id, u);
    if db.vouchers[u].reverses.None? {
      NoDealPlain(db, u);
    }
    PlainMirror(db.vouchers[id], db.vouchers[u]);
  }

  /** The call does not void the reversal of a deal. */
  ghost predicate Spares(db: Db, op: Op) {
    op.VoidOp? && VoidError(db, op.id, op.reason).None? && db.vouchers[op.id].reverses.Some? ==>
      !db.IsDeal(db.vouchers[op.id].reverses.value)
  }

  lemma ReversalsStep(m: Rounding, db: Db, op: Op)
    requires Inv(m, db) && PositionsTidy(db) && NoneReinstated(db) && Spares(db, op)
    ensures NoneReinstated(Step(m, db, op))
  {
    hide Inv, PositionsTidy, PostOrder, VoidVoucher, Unwound, CanAllocate, Plain, Mirrors, VoidError;
    StepChanges(m, db, op);
    match op
    case VoidOp(id, reason) =>
      if VoidVoucher(m, db, id, reason).Committed? {
        CommittedVoid(m, db, id, reason);
        VoidChanges(m, db, id, reason);
        if db.vouchers[id].reverses.Some? {
          ReversalPlain(m, db, id);
          SamePlain(db.vouchers[id], db.vouchers[id].(status := Void));
        }
      }
    case _ =>
  }

  lemma SamePlain(v: Voucher, v': Voucher)
    requires Plain(v) && v'.entries == v.entries
    ensures Plain(v')
  {
  }

  /** Where no reversal of a deal was voided, nothing is reinstated. */
  lemma NothingReinstated(m: Rounding, db: Db, c: nat)
    requires Inv(m, db) && NoneReinstated(db)
    ensures Reinstated(db, PositionBalance(c)) == 0.0
  {
    hide VoucherOk, Runs.Distinct, Forward, OneToOne, EntrySum, Mirrors;
    var vs, w := db.vouchers, PositionBalance(c);
    forall i: nat | i < db.nextId
      ensures ReinstatedTerm(vs, w)(i) == 0.0
    {
      if InForce(vs, i) && vs[i].reverses.Some? {
        var u := vs[i].reverses.value;
        assert ReversesOk(vs, i, u);
        OneDeeper(vs, i, u);
        assert vs[u].reverses.Some?;
        PlainMirror(vs[i], vs[u]);
      }
    }
    SumZero(db.nextId, ReinstatedTerm(vs, w));
  }

  // ------------------------------------------------------------------ whole runs

  ghost predicate OrderlyRun(g: Registry, ops: seq<Op>) {
    forall i :: 0 <= i < |ops| ==> Orderly(Run(Exact, g, ops[..i]), ops[i])
  }

  lemma OrderlyPrefix(g: Registry, ops: seq<Op>)
    requires OrderlyRun(g, ops) && ops != []
    ensures OrderlyRun(g, ops[..|ops| - 1])
    ensures Orderly(Run(Exact, g, ops[..|ops| - 1]), ops[|ops| - 1])
  {
    hide Run, Orderly;
    var init := ops[..|ops| - 1];
    forall i | 0 <= i < |init|
      ensures init[..i] == ops[..i]
    {
    }
  }

  lemma OrderlyOrdinary(g: Registry, ops: seq<Op>)
    requires OrderlyRun(g, ops)
    ensures Ordinary(Exact, ops)
  {
    hide Run, RowRetractable, VoidError, DeleteError;
    forall i | 0 <= i < |ops|
      ensures Tidy(ops[i]) && GridDeals(Exact, ops[i])
    {
      assert Orderly(Run(Exact, g, ops[..i]), ops[i]);
    }
  }

  lemma OrderlySpares(db: Db, op: Op)
    requires Orderly(db, op)
    ensures Spares(db, op)
  {
  }

  lemma OrderlyStep(db: Db, op: Op)
    requires Inv(Exact, db) && PositionsTidy(db) && Kept(db) && Orderly(db, op)
    ensures Kept(Step(Exact, db, op))
  {
    hide Inv, PositionsTidy, Worth, PostOrder, VoidVoucher, Unwound, CanAllocate, Orderly, NoneReinstated, Faithful, Mirrors;
    StepChanges(Exact, db, op);
    OrderlySpares(db, op);
    ReversalsStep(Exact, db, op);
    forall c
      ensures Worth(Step(Exact, db, op), c)
    {
      match op
      case Post(o) =>
        if PostOrder(Exact, db, o).Committed? {
          PostedWorth(db, o, c);
        }
      case VoidOp(id, reason) => VoidWorth(db, id, reason, c);
      case DeleteOp(id) => DeleteWorth(db, id, c);
      case AllocateOp(_, _, _, _) => SameWorth(db, Step(Exact, db, op), c);
    }
    match op
    case Post(o) =>
      if PostOrder(Exact, db, o).Committed? {
        PostedFaithful(db, o);
      }
    case VoidOp(id, reason) =>
      if VoidVoucher(Exact, db, id, reason).Committed? {
        VoidChanges(Exact, db, id, reason);
      }
    case DeleteOp(id) =>
    case AllocateOp(_, _, _, _) =>
  }

  lemma SameWorth(db: Db, db': Db, c: nat)
    requires Worth(db, c) && db'.positions == db.positions && db'.vouchers == db.vouchers && db'.nextId == db.nextId
    ensures Worth(db', c)
  {
  }

  lemma EmptyKept(g: Registry)
    ensures Kept(Empty(g))
  {
    TimesZero(0.0);
  }

  /** In every orderly run, per currency, sales less purchases less realised profit plus the value of the stock
      is nothing, over the deals in force. */
  lemma {:induction false} OrderlyRunKeeps(g: Registry, ops: seq<Op>)
    requires OrderlyRun(g, ops)
    ensures Kept(Run(Exact, g, ops))
  {
    hide Inv, Step, Kept, Orderly, OrderlyRun, PositionsTidy, Tidy, GridDeals;
    if ops == [] {
      EmptyKept(g);
    } else {
      var init := ops[..|ops| - 1];
      OrderlyPrefix(g, ops);
      OrderlyRunKeeps(g, init);
      OrderlyOrdinary(g, init);
      Reachable(Exact, g, init);
      TidyRun(Exact, g, init);
      OrderlyStep(Run(Exact, g, init), ops[|ops| - 1]);
    }
  }

  /** In every orderly run, cash and customers' debts come to the realised profit the reports show, less that
      of voided deals, plus the unrealised profit on today's stock, less the expense, income and equity
      accounts. */
  lemma {:induction false} NetWorthIsProfit(g: Registry, ops: seq<Op>, rates: map<nat, real>, n: nat)
    requires OrderlyRun(g, ops) && NoSparePositions(g) && Rated(Run(Exact, g, ops), rates, n)
    ensures var db := Run(Exact, g, ops);
      Sum(n, NetTerm(db, rates)) ==
        DealSum(DealsOf(db.vouchers, db.nextId), ProfitOf()) - SumOf(db, Void, ProfitOf())
        + Sum(n, UnrealizedTerm(db.positions, rates, None)) - Sum(n, InternalTerm(db, rates))
  {
    hide Run, OrderlyRun, Ordinary, Rated, NoSparePositions, DealSum, NetTerm, InternalTerm, UnrealizedTerm, Inv,
      DriftOf, Reinstated, AllFaithful, NoneReinstated;
    var db := Run(Exact, g, ops);
    OrderlyRunKeeps(g, ops);
    OrderlyOrdinary(g, ops);
    NetWorthIdentity(Exact, g, ops, rates, n);
    Reachable(Exact, g, ops);
    forall c: nat
      ensures DriftOf(db)(c) == 0.0 && ReinstatedValue(db, rates)(c) == 0.0
    {
      assert Worth(db, c);
      NothingReinstated(Exact, db, c);
      if Counted(db.registry, rates, c) {
        TimesZero(RateOf(db.registry, rates, c).value);
      }
    }
    SumZero(n, DriftOf(db));
    SumZero(n, ReinstatedValue(db, rates));
  }

  /** The two screens side by side, after any orderly run: the snapshot's grand total against the profit report
      over a period that holds every deal. */
  method CompareScreens(ghost g: Registry, ghost ops: seq<Op>, db: Db, rates: map<nat, real>, order: nat -> int,
                        code: nat -> int, n: nat, from: int, to: int)
    returns (grandTotal: real, report: ProfitReport)
    requires OrderlyRun(g, ops) && NoSparePositions(g) && db == Run(Exact, g, ops) && Rated(db, rates, n)
    requires forall c :: c in db.positions ==> c < n
    requires forall d :: d in DealsOf(db.vouchers, db.nextId) ==> from <= d.date <= to
    ensures grandTotal + Sum(n, InternalTerm(db, rates))
      == report.realized + report.unrealized - SumOf(db, Void, ProfitOf())
  {
    var rows, missing;
    rows, grandTotal, missing := NetWorthSnapshot(db, rates, order, code, n);
    var ds := DealsOf(db.vouchers, db.nextId);
    SelectMembers(ds, from, to, Some(Sell), None);
    report := ProfitData(Select(ds, from, to, Some(Sell), None), db.positions, rates, None, order, n);
    NetWorthIsProfit(g, ops, rates, n);
    SelectSum(ds, from, to, Some(Sell), None, ProfitOf());
    DealSumEqual(ds, AskedWeight(from, to, Some(Sell), None, ProfitOf()), ProfitOf());
  }
}
