/** The inventory rows against the deals and against the position accounts of the ledger. */
module InventoryBooks {
  import opened Algebra
  import opened Amounts
  import opened Inventory
  import opened Books
  import opened Context
  import opened Allocation
  import opened Runs
  import opened Chains
  import opened Sums

  function Signed(side: Side, q: real): real {
    if side.Buy? then q else -q
  }

  ghost function DealTerm(vs: map<nat, Voucher>, c: nat): nat -> real {
    (id: nat) =>
      if id in vs && vs[id].status == Final && vs[id].deal.Some? && vs[id].deal.value.currency == c
      then Signed(vs[id].deal.value.side, vs[id].deal.value.quantity)
      else 0.0
  }

  /** Bought minus sold, over the deals whose voucher is final. */
  ghost function DealNet(db: Db, c: nat): real {
    Sum(db.nextId, DealTerm(db.vouchers, c))
  }

  ghost predicate Agrees(m: Rounding, db: Db, c: nat) {
    db.PositionRow(c).quantity == DealNet(db, c) && OnGrid(m, db.PositionRow(c).quantity)
  }

  /** Every deal's quantity fits its column. */
  ghost predicate GridDeals(m: Rounding, op: Op) {
    op.Post? && op.order.DealOrder? ==> OnGrid(m, op.order.quantity)
  }

  // ------------------------------------------------------------------ stock is bought minus sold

  lemma DealNetAfter(m: Rounding, db: Db, db': Db, ch: Change, c: nat)
    requires Inv(m, db) && Applied(db, db', ch)
    ensures DealNet(db', c) - DealNet(db, c) ==
      match ch
      case Untouched => 0.0
      case Added(v) => DealTerm(map[0 := v], c)(0)
      case Reversing(id, _) => -DealTerm(db.vouchers, c)(id)
      case Removed(id) => -DealTerm(db.vouchers, c)(id)
  {
    hide VoucherOk, Linked, Distinct, Mirrors;
    var f, f', n := DealTerm(db.vouchers, c), DealTerm(db'.vouchers, c), db.nextId;
    match ch
    case Untouched => SumEqual(n, f, f');
    case Added(v) => SumEqual(n, f, f');
    case Reversing(id, rev) =>
      assert id < n;
      SumUpdate(n, f, f', id);
    case Removed(id) =>
      assert id < n;
      SumUpdate(n, f, f', id);
  }

  /** What posting a deal does to stock and to the deals' own total. */
  lemma DealPosted(m: Rounding, db: Db, o: Order, c: nat)
    requires Inv(m, db) && o.DealOrder? && PostOrder(m, db, o).Committed?
    ensures var db' := PostOrder(m, db, o).db;
      && db'.PositionRow(c).quantity ==
         (if c == o.currency then Store(m, db.PositionRow(c).quantity + Signed(o.side, o.quantity))
          else db.PositionRow(c).quantity)
      && DealNet(db', c) == DealNet(db, c) + if c == o.currency then Signed(o.side, Store(m, o.quantity)) else 0.0
  {
    hide VoucherOk, Linked, Distinct, PostError, DealLines, EntriesOf, Store, Times, Blend;
    OrderAdds(m, db, o);
    var out := PostOrder(m, db, o);
    DealNetAfter(m, db, out.db, Added(out.db.vouchers[out.id]), c);
  }

  /** The deal row and the inventory row that a deal order leaves. */
  lemma DealEntered(m: Rounding, db: Db, o: Order)
    requires o.DealOrder? && PostOrder(m, db, o).Committed?
    ensures var out := PostOrder(m, db, o);
      var f := Apply(m, db.PositionRow(o.currency), o.side, o.quantity, o.unitPrice);
      && db.nextId in out.db.vouchers && out.db.vouchers[db.nextId].status == Final
      && out.db.vouchers[db.nextId].deal == Some(StoredDeal(m,
           Deal(o.side, o.counterparty, o.currency, o.quantity, o.unitPrice, Times(o.quantity, o.unitPrice),
                f.avgAtTime, f.realized, o.date)))
      && out.db.PositionRow(o.currency) == f.position
  {
    hide PostError, EntriesOf, Times, DealLines, Apply, Store, DealError;
  }

  /** Any other order leaves the deals and the inventory row of `c` as they were. */
  lemma EnteredElsewhere(m: Rounding, db: Db, o: Order, c: nat)
    requires PostOrder(m, db, o).Committed? && (o.DealOrder? ==> o.currency != c)
    ensures var out := PostOrder(m, db, o);
      && out.db.PositionRow(c) == db.PositionRow(c) && db.nextId in out.db.vouchers
      && (out.db.vouchers[db.nextId].deal.Some? ==> out.db.vouchers[db.nextId].deal.value.currency != c)
  {
    hide PostError, EntriesOf, Times, DealLines, DealError, Apply, OrderError, Store;
  }

  lemma EntrySumFour(es: seq<Entry>, w: Entry -> real)
    requires |es| == 4
    ensures EntrySum(es, w) == w(es[0]) + w(es[1]) + w(es[2]) + w(es[3])
  {
    var a, b, c := es[..3], es[..2], es[..1];
    assert a[..2] == b && b[..1] == c && c[..0] == [];
    assert EntrySum(c, w) == w(es[0]);
    assert EntrySum(b, w) == EntrySum(c, w) + w(es[1]);
    assert EntrySum(a, w) == EntrySum(b, w) + w(es[2]);
  }

  /** The second check on a deal: quantity and total each leave four rows that cancel exactly when the quantity is
      stored alike with all its digits and rounded to the context. */
  lemma DealCheck(m: Rounding, o: Order, base: nat)
    requires o.DealOrder? && o.currency != base
    ensures StoredBalanced(EntriesOf(m, DealLines(m, o, base), o.date))
      <==> Store(m, o.quantity) == Store(m, Ctx(m, o.quantity))
  {
    hide Store, Times, Ctx, EntrySum;
    var q, t := o.quantity, Times(o.quantity, o.unitPrice);
    var lines := DealLines(m, o, base);
    var es := EntriesOf(m, lines, o.date);
    StoreOdd(m, Ctx(m, q));
    StoreOdd(m, t);
    assert |lines| == 4 && |es| == 4;
    forall c: nat
      ensures EntrySum(es, InCurrency(c)) == if c == o.currency then Store(m, q) - Store(m, Ctx(m, q)) else 0.0
    {
      EntrySumFour(es, InCurrency(c));
    }
    assert es[0] in es && es[0].currency == o.currency;
  }

  /** The quantity of a deal that was posted is stored alike on both legs. */
  lemma DealLegs(m: Rounding, db: Db, o: Order)
    requires o.DealOrder? && PostOrder(m, db, o).Committed?
    ensures Store(m, o.quantity) == Store(m, Ctx(m, o.quantity))
  {
    hide EntriesOf, Times, DealLines, Store, Apply, StoredBalanced, Balanced, KeyHolder, Ctx;
    DealCheck(m, o, db.registry.base.value);
  }

  lemma NoNewDeal(m: Rounding, db: Db, o: Order)
    requires PostOrder(m, db, o).Committed? && !o.DealOrder?
    ensures db.nextId in PostOrder(m, db, o).db.vouchers && PostOrder(m, db, o).db.vouchers[db.nextId].deal.None?
  {
    hide PostError, EntriesOf, OrderError;
  }

  lemma VoidPositions(m: Rounding, db: Db, id: nat, reason: string)
    requires VoidVoucher(m, db, id, reason).Committed?
    ensures id in db.vouchers && VoidVoucher(m, db, id, reason).db.positions == Unwound(m, db, db.vouchers[id])
  {
    hide PostError, EntriesOf, Unwound;
  }

  /** Whether a sum and its addend round alike, by what can be seen before posting: only a quantity
      ending exactly half-way between two quanta can go wrong. */
  predicate RoundsAlike(m: Rounding, prior: real, x: real) {
    match m
    case Exact => true
    case HalfEven => !(IsTie(x) && (prior * SCALE).Floor % 2 != 0)
    case HalfAway => !(IsTie(x) && (x < 0.0 <==> prior + x >= 0.0))
  }

  /** A posted deal keeps stock equal to bought minus sold exactly when its quantity rounds alike on
      its own and added to the stock. */
  lemma DealKeepsAgreement(m: Rounding, db: Db, o: Order)
    requires Inv(m, db) && o.DealOrder? && PostOrder(m, db, o).Committed? && Agrees(m, db, o.currency)
    ensures Agrees(m, PostOrder(m, db, o).db, o.currency) <==>
      RoundsAlike(m, db.PositionRow(o.currency).quantity, Signed(o.side, o.quantity))
  {
    hide Inv, Store, OnGrid, PostOrder, DealNet, IsTie;
    var prior, x := db.PositionRow(o.currency).quantity, Signed(o.side, o.quantity);
    DealPosted(m, db, o, o.currency);
    SaveOfSum(m, prior, x);
    StoreError(m, prior + x);
    StoreOdd(m, o.quantity);
  }

  lemma GridRoundsAlike(m: Rounding, prior: real, x: real)
    requires OnGrid(m, x)
    ensures RoundsAlike(m, prior, x)
  {
  }

  lemma UnwoundQuantity(m: Rounding, db: Db, v: Voucher, c: nat)
    requires v.deal.Some? ==> OnGrid(m, v.deal.value.quantity)
    requires OnGrid(m, db.PositionRow(c).quantity)
    ensures var ps := Unwound(m, db, v);
      db.(positions := ps).PositionRow(c).quantity ==
        db.PositionRow(c).quantity
        - if v.deal.Some? && v.deal.value.currency == c then Signed(v.deal.value.side, v.deal.value.quantity) else 0.0
  {
    hide Store, OnGrid, Times;
    if v.deal.Some? {
      GridSum(m, db.PositionRow(c).quantity, v.deal.value.quantity);
      StoreOnGrid(m, db.PositionRow(c).quantity - v.deal.value.quantity);
      StoreOnGrid(m, db.PositionRow(c).quantity + v.deal.value.quantity);
    }
  }

  /** Stored deal quantities always fit their column. */
  ghost predicate DealsOnGrid(m: Rounding, db: Db) {
    forall id :: id in db.vouchers && db.vouchers[id].deal.Some? ==> OnGrid(m, db.vouchers[id].deal.value.quantity)
  }

  lemma NewDealOnGrid(m: Rounding, db: Db, o: Order)
    requires Inv(m, db) && DealsOnGrid(m, db) && PostOrder(m, db, o).Committed?
    ensures DealsOnGrid(m, PostOrder(m, db, o).db)
    ensures !o.DealOrder? ==> PostOrder(m, db, o).db.vouchers[db.nextId].deal.None?
  {
    hide Inv, PostError, DealLines, EntriesOf, Store, Apply, Times, OnGrid;
    if o.DealOrder? {
      StoreError(m, o.quantity);
    }
  }

  lemma AgreementStep(m: Rounding, db: Db, op: Op, c: nat)
    requires Inv(m, db) && DealsOnGrid(m, db) && Agrees(m, db, c) && GridDeals(m, op)
    ensures DealsOnGrid(m, Step(m, db, op)) && Agrees(m, Step(m, db, op), c)
  {
    hide Inv, Store, OnGrid, PostOrder, DealNet, VoidVoucher, DeleteVoucher, CanAllocate, Applied, RoundsAlike;
    StepChanges(m, db, op);
    DealNetAfter(m, db, Step(m, db, op), ChangeOf(m, db, op), c);
    match op
    case Post(o) =>
      if PostOrder(m, db, o).Committed? {
        NewDealOnGrid(m, db, o);
        if o.DealOrder? {
          DealPosted(m, db, o, c);
          if c == o.currency {
            SignedOnGrid(m, o.side, o.quantity);
            GridRoundsAlike(m, db.PositionRow(c).quantity, Signed(o.side, o.quantity));
            DealKeepsAgreement(m, db, o);
          }
        } else {
          OtherOrderKeepsStock(m, db, o);
        }
      }
    case VoidOp(id, reason) =>
      VoidAgreement(m, db, id, reason, c);
    case DeleteOp(id) =>
      DeleteAgreement(m, db, id, c);
    case AllocateOp(_, _, _, _) =>
  }

  lemma SignedOnGrid(m: Rounding, side: Side, q: real)
    requires OnGrid(m, q)
    ensures OnGrid(m, Signed(side, q))
  {
    GridSum(m, q, q);
  }

  lemma OtherOrderKeepsStock(m: Rounding, db: Db, o: Order)
    requires Inv(m, db) && PostOrder(m, db, o).Committed? && !o.DealOrder?
    ensures PostOrder(m, db, o).db.positions == db.positions
    ensures forall c :: DealNet(PostOrder(m, db, o).db, c) == DealNet(db, c)
  {
    hide Inv, PostError, EntriesOf;
    var out := PostOrder(m, db, o);
    OrderAdds(m, db, o);
    forall c
      ensures DealNet(out.db, c) == DealNet(db, c)
    {
      DealNetAfter(m, db, out.db, Added(out.db.vouchers[out.id]), c);
    }
  }

  lemma UnwoundOnGrid(m: Rounding, db: Db, v: Voucher, c: nat)
    requires OnGrid(m, db.PositionRow(c).quantity)
    ensures OnGrid(m, db.(positions := Unwound(m, db, v)).PositionRow(c).quantity)
  {
    hide Store, OnGrid, Times;
    if v.deal.Some? {
      StoreError(m, db.PositionRow(c).quantity - v.deal.value.quantity);
      StoreError(m, db.PositionRow(c).quantity + v.deal.value.quantity);
    }
  }

  lemma VoidAgreement(m: Rounding, db: Db, id: nat, reason: string, c: nat)
    requires Inv(m, db) && DealsOnGrid(m, db) && Agrees(m, db, c)
    ensures var db' := Step(m, db, VoidOp(id, reason));
      DealsOnGrid(m, db') && Agrees(m, db', c)
  {
    hide Inv, Store, OnGrid, DealNet, PostVoucher, Unwound, Mirrors, EntriesOf;
    if VoidError(db, id, reason).None? {
      VoidKeeps(m, db, id, reason);
      VoidChanges(m, db, id, reason);
      var out := VoidVoucher(m, db, id, reason);
      DealNetAfter(m, db, out.db, Reversing(id, out.db.vouchers[out.id]), c);
      UnwoundQuantity(m, db, db.vouchers[id], c);
      UnwoundOnGrid(m, db, db.vouchers[id], c);
    }
  }

  lemma DeleteAgreement(m: Rounding, db: Db, id: nat, c: nat)
    requires Inv(m, db) && DealsOnGrid(m, db) && Agrees(m, db, c)
    ensures var db' := Step(m, db, DeleteOp(id));
      DealsOnGrid(m, db') && Agrees(m, db', c)
  {
    hide Inv, Store, OnGrid, DealNet, Unwound;
    if DeleteError(db, id).None? {
      StepChanges(m, db, DeleteOp(id));
      var out := DeleteVoucher(m, db, id);
      DealNetAfter(m, db, out.db, Removed(id), c);
      UnwoundQuantity(m, db, db.vouchers[id], c);
      UnwoundOnGrid(m, db, db.vouchers[id], c);
    }
  }

  /** In every reachable database, through short sales, voids and deletes in any order, the stock of
      each currency is what its final deals bought minus what they sold. */
  lemma {:induction false} StockIsBoughtMinusSold(m: Rounding, g: Registry, ops: seq<Op>, c: nat)
    requires forall i :: 0 <= i < |ops| ==> GridDeals(m, ops[i])
    ensures DealsOnGrid(m, Run(m, g, ops)) && Agrees(m, Run(m, g, ops), c)
  {
    hide Inv, Step, DealsOnGrid, Agrees, GridDeals;
    if ops == [] {
      EmptyAgrees(m, g, c);
    } else {
      StockIsBoughtMinusSold(m, g, ops[..|ops| - 1], c);
      Reachable(m, g, ops[..|ops| - 1]);
      AgreementStep(m, Run(m, g, ops[..|ops| - 1]), ops[|ops| - 1], c);
    }
  }

  lemma EmptyAgrees(m: Rounding, g: Registry, c: nat)
    ensures DealsOnGrid(m, Empty(g)) && Agrees(m, Empty(g), c)
  {
    StoreOnGrid(m, 0.0);
  }

  // ------------------------------------------------------------------ rows fit their columns

  ghost predicate RowsFit(m: Rounding, db: Db) {
    forall c :: OnGrid(m, db.PositionRow(c).quantity) && OnGrid(m, db.PositionRow(c).avgCost)
  }

  lemma ApplyFits(m: Rounding, pos: Position, side: Side, q: real, p: real)
    ensures var row := Apply(m, pos, side, q, p).position;
      OnGrid(m, row.quantity) && OnGrid(m, row.avgCost)
  {
    hide Store, OnGrid, Times, Blend;
    StoreError(m, if side.Buy? then pos.quantity + q else pos.quantity - q);
    StoreError(m, match side
      case Buy => if pos.quantity + q > 0.0 then Blend(pos, q, p) else pos.avgCost
      case Sell => if pos.quantity - q == 0.0 then 0.0 else pos.avgCost);
  }

  lemma ReverseFits(m: Rounding, pos: Position, side: Side, q: real, p: real, avg: real)
    requires OnGrid(m, pos.avgCost)
    ensures var row := Reverse(m, pos, side, q, p, avg);
      OnGrid(m, row.quantity) && OnGrid(m, row.avgCost)
  {
    hide Store, OnGrid, Times, Over;
    StoreError(m, if side.Buy? then pos.quantity - q else pos.quantity + q);
    StoreError(m, avg);
    StoreError(m, if pos.quantity - q > 0.0 then Over(Times(pos.quantity, pos.avgCost) - Times(q, p), pos.quantity - q) else 0.0);
  }

  lemma UnwoundFits(m: Rounding, db: Db, v: Voucher)
    requires RowsFit(m, db)
    ensures RowsFit(m, db.(positions := Unwound(m, db, v)))
  {
    hide OnGrid, Reverse;
    if v.deal.Some? {
      var d := v.deal.value;
      ReverseFits(m, db.PositionRow(d.currency), d.side, d.quantity, d.unitPrice, d.avgCost);
      var db' := db.(positions := Unwound(m, db, v));
      forall c: nat
        ensures OnGrid(m, db'.PositionRow(c).quantity) && OnGrid(m, db'.PositionRow(c).avgCost)
      {
        assert c != d.currency ==> db'.PositionRow(c) == db.PositionRow(c);
      }
    } else {
      SameRows(m, db, db.(positions := Unwound(m, db, v)));
    }
  }

  lemma PostedRowsFit(m: Rounding, db: Db, o: Order)
    requires RowsFit(m, db) && PostOrder(m, db, o).Committed?
    ensures RowsFit(m, PostOrder(m, db, o).db)
  {
    hide OnGrid, PostOrder, Apply, Db.PositionRow;
    forall c: nat
      ensures var row := PostOrder(m, db, o).db.PositionRow(c);
        OnGrid(m, row.quantity) && OnGrid(m, row.avgCost)
    {
      if o.DealOrder? && o.currency == c {
        DealEntered(m, db, o);
        ApplyFits(m, db.PositionRow(c), o.side, o.quantity, o.unitPrice);
      } else {
        EnteredElsewhere(m, db, o, c);
      }
    }
  }

  lemma FitsStep(m: Rounding, db: Db, op: Op)
    requires RowsFit(m, db)
    ensures RowsFit(m, Step(m, db, op))
  {
    hide RowsFit, PostOrder, VoidVoucher, Unwound, CanAllocate;
    match op
    case Post(o) =>
      if PostOrder(m, db, o).Committed? {
        PostedRowsFit(m, db, o);
      }
    case VoidOp(id, reason) =>
      if VoidVoucher(m, db, id, reason).Committed? {
        VoidPositions(m, db, id, reason);
        UnwoundFits(m, db, db.vouchers[id]);
        SameRows(m, db.(positions := Unwound(m, db, db.vouchers[id])), VoidVoucher(m, db, id, reason).db);
      }
    case DeleteOp(id) =>
      if DeleteError(db, id).None? {
        UnwoundFits(m, db, db.vouchers[id]);
        SameRows(m, db.(positions := Unwound(m, db, db.vouchers[id])), DeleteVoucher(m, db, id).db);
      }
    case AllocateOp(u, d, p, x) =>
      SameRows(m, db, Step(m, db, op));
  }

  lemma SameRows(m: Rounding, db: Db, db': Db)
    requires RowsFit(m, db) && db'.positions == db.positions
    ensures RowsFit(m, db')
  {
    hide OnGrid;
    assert forall c :: db'.PositionRow(c) == db.PositionRow(c);
  }

  /** In every reachable database every inventory row is what its columns can hold, stock and average alike. */
  lemma {:induction false} RowsAlwaysFit(m: Rounding, g: Registry, ops: seq<Op>)
    ensures RowsFit(m, Run(m, g, ops))
  {
    hide Step, RowsFit;
    if ops == [] {
      EmptyFits(m, g);
    } else {
      RowsAlwaysFit(m, g, ops[..|ops| - 1]);
      FitsStep(m, Run(m, g, ops[..|ops| - 1]), ops[|ops| - 1]);
    }
  }

  lemma EmptyFits(m: Rounding, g: Registry)
    ensures RowsFit(m, Empty(g))
  {
    ZeroOnGrid(m);
  }

  // ------------------------------------------------------------------ the position accounts

  /** The order names no position account: those are touched by deals alone. */
  ghost predicate Tidy(op: Op) {
    op.Post? ==> forall a :: a in Named(op.order) ==> !a.PositionOf?
  }

  function PositionBalance(c: nat): Entry -> real {
    OnAccount(PositionOf(c), c)
  }

  /** What an ordinary voucher puts on the position account of `c`: for a traded currency the
      quantity bought or sold, for base its counter-value, each against the sign of the deal. */
  function PositionEffect(v: Voucher, base: Option<nat>, c: nat): real {
    match v.deal
    case None => 0.0
    case Some(d) =>
      if Some(c) == base then Signed(d.side, d.total)
      else if d.currency == c then -Signed(d.side, d.quantity)
      else 0.0
  }

  ghost predicate PositionsTidy(db: Db) {
    forall id, c :: id in db.vouchers && db.vouchers[id].reverses.None? ==>
      EntrySum(db.vouchers[id].entries, PositionBalance(c)) == PositionEffect(db.vouchers[id], db.registry.base, c)
  }

  lemma DealEntries(m: Rounding, o: Order, base: nat, avg: real, realized: real, number: nat, c: nat)
    requires o.DealOrder? && o.currency != base && forall a :: a in Named(o) ==> !a.PositionOf?
    requires Store(m, Ctx(m, o.quantity)) == Store(m, o.quantity)
    ensures var v := VoucherOf(m, DealRequest(m, o, base, avg, realized), number);
      EntrySum(v.entries, PositionBalance(c)) == PositionEffect(v, Some(base), c)
  {
    hide Store, Times, Ctx;
    var v := VoucherOf(m, DealRequest(m, o, base, avg, realized), number);
    StoreOdd(m, Ctx(m, o.quantity));
    StoreOdd(m, Times(o.quantity, o.unitPrice));
    var lines := DealLines(m, o, base);
    assert |lines| == 4 && |v.entries| == 4;
    EntrySumFour(v.entries, PositionBalance(c));
    var currencySide := if o.delivery.Some? then o.delivery.value else o.counterparty;
    var baseSide := if o.settle.Some? then o.settle.value else o.counterparty;
    assert currencySide in Named(o) && baseSide in Named(o);
  }

  lemma OtherEntries(m: Rounding, o: Order, number: nat, c: nat)
    requires !o.DealOrder? && forall a :: a in Named(o) ==> !a.PositionOf?
    ensures EntrySum(VoucherOf(m, OrderRequest(m, o), number).entries, PositionBalance(c)) == 0.0
  {
    hide Store, Ctx;
    var lines, es := OrderRequest(m, o).lines, VoucherOf(m, OrderRequest(m, o), number).entries;
    forall e | e in es
      ensures PositionBalance(c)(e) == 0.0
    {
      var i :| 0 <= i < |es| && es[i] == e;
      assert lines[i] in lines;
      assert lines[i].party in Named(o) || lines[i].party == OpeningEquity;
    }
    EntrySumZero(es, PositionBalance(c));
  }

  lemma OrderTidy(m: Rounding, db: Db, o: Order)
    requires PostOrder(m, db, o).Committed? && Tidy(Post(o)) && PositionsTidy(db)
    ensures PositionsTidy(PostOrder(m, db, o).db)
  {
    hide PostError, EntriesOf, Store, Times, Apply, DealLines, EntrySum, PositionEffect, OrderError;
    var out := PostOrder(m, db, o);
    var v := out.db.vouchers[out.id];
    forall c
      ensures EntrySum(v.entries, PositionBalance(c)) == PositionEffect(v, db.registry.base, c)
    {
      if o.DealOrder? {
        var fill := Apply(m, db.PositionRow(o.currency), o.side, o.quantity, o.unitPrice);
        DealLegs(m, db, o);
        DealEntries(m, o, db.registry.base.value, fill.avgAtTime, fill.realized, db.sequence + 1, c);
      } else {
        OtherEntries(m, o, db.sequence + 1, c);
        NoDealNoEffect(v, db.registry.base, c);
      }
    }
  }

  lemma NoDealNoEffect(v: Voucher, base: Option<nat>, c: nat)
    requires v.deal.None?
    ensures PositionEffect(v, base, c) == 0.0
  {
  }

  lemma SameEffect(v: Voucher, v': Voucher, base: Option<nat>, c: nat)
    requires v.deal == v'.deal
    ensures PositionEffect(v, base, c) == PositionEffect(v', base, c)
  {
  }

  lemma TidyStep(m: Rounding, db: Db, op: Op)
    requires Inv(m, db) && Tidy(op) && PositionsTidy(db)
    ensures PositionsTidy(Step(m, db, op)) && Step(m, db, op).registry == db.registry
  {
    hide Inv, PostOrder, VoidVoucher, EntrySum, PositionEffect, CanAllocate, Mirrors, Unwound, EntriesOf;
    StepChanges(m, db, op);
    match op
    case Post(o) =>
      if PostOrder(m, db, o).Committed? {
        OrderTidy(m, db, o);
      }
    case VoidOp(id, reason) =>
      if VoidVoucher(m, db, id, reason).Committed? {
        VoidChanges(m, db, id, reason);
        var v := db.vouchers[id];
        forall c {
          SameEffect(v, v.(status := Void), db.registry.base, c);
        }
      }
    case DeleteOp(id) =>
    case AllocateOp(_, _, _, _) =>
  }

  // ------------------------------------------------------------------ stock against the ledger

  /** The part of the books that comes from reversals which were themselves undone. */
  ghost function ReinstatedTerm(vs: map<nat, Voucher>, w: Entry -> real): nat -> real {
    (id: nat) => if InForce(vs, id) && vs[id].reverses.Some? then EntrySum(vs[id].entries, w) else 0.0
  }

  ghost function Reinstated(db: Db, w: Entry -> real): real {
    Sum(db.nextId, ReinstatedTerm(db.vouchers, w))
  }

  lemma NegatedTerm(n: nat, f: nat -> real, g: nat -> real)
    requires forall i: nat :: i < n ==> g(i) == -f(i)
    ensures Sum(n, g) == -Sum(n, f)
  {
    if n == 0 {
    } else {
      NegatedTerm(n - 1, f, g);
    }
  }

  lemma InForceIsDeals(m: Rounding, db: Db, c: nat)
    requires Inv(m, db) && PositionsTidy(db) && Some(c) != db.registry.base
    ensures InForceTotal(db, PositionBalance(c)) == -DealNet(db, c) + Reinstated(db, PositionBalance(c))
  {
    hide VoucherOk, Distinct, Mirrors, EntrySum;
    var vs, n, w := db.vouchers, db.nextId, PositionBalance(c);
    var neg := (i: nat) => -DealTerm(vs, c)(i);
    NegatedTerm(n, DealTerm(vs, c), neg);
    forall i: nat | i < n
      ensures InForceTerm(vs, w)(i) == neg(i) + ReinstatedTerm(vs, w)(i)
    {
      if i in vs && vs[i].reverses.Some? {
        assert ReversesOk(vs, i, vs[i].reverses.value);
      }
    }
    SumPlus(n, neg, ReinstatedTerm(vs, w), InForceTerm(vs, w));
  }

  /** In every reachable database in which position accounts were left to deals, the ledger balance of
      a traded currency's position account is minus its stock, but for reversals that were undone:
      those put a deal back into the books and not into stock. */
  lemma {:induction false} LedgerAgainstStock(m: Rounding, g: Registry, ops: seq<Op>, c: nat)
    requires forall i :: 0 <= i < |ops| ==> GridDeals(m, ops[i]) && Tidy(ops[i])
    requires Some(c) != g.base
    ensures var db := Run(m, g, ops);
      Total(db, PositionBalance(c)) == -db.PositionRow(c).quantity + Reinstated(db, PositionBalance(c))
  {
    hide Inv, EntrySum, GridDeals, DealsOnGrid, OnGrid;
    TidyRun(m, g, ops);
    Reachable(m, g, ops);
    BooksAreInForce(m, g, ops, PositionBalance(c));
    StockIsBoughtMinusSold(m, g, ops, c);
    InForceIsDeals(m, Run(m, g, ops), c);
  }

  lemma {:induction false} TidyRun(m: Rounding, g: Registry, ops: seq<Op>)
    requires forall i :: 0 <= i < |ops| ==> Tidy(ops[i])
    ensures PositionsTidy(Run(m, g, ops)) && Run(m, g, ops).registry == g
  {
    hide Inv, Step, PositionsTidy, Tidy;
    if ops == [] {
      EmptyTidy(g);
    } else {
      TidyRun(m, g, ops[..|ops| - 1]);
      Reachable(m, g, ops[..|ops| - 1]);
      TidyStep(m, Run(m, g, ops[..|ops| - 1]), ops[|ops| - 1]);
    }
  }

  lemma EmptyTidy(g: Registry)
    ensures PositionsTidy(Empty(g))
  {
  }

  ghost predicate NoReversalUndone(db: Db) {
    forall id :: id in db.vouchers && db.vouchers[id].reverses.Some? ==> db.vouchers[id].status == Final
  }

  /** While no reversal has itself been voided, stock is exactly minus the ledger balance of the
      position account. */
  lemma StockIsMinusLedger(m: Rounding, g: Registry, ops: seq<Op>, c: nat)
    requires forall i :: 0 <= i < |ops| ==> GridDeals(m, ops[i]) && Tidy(ops[i])
    requires Some(c) != g.base && NoReversalUndone(Run(m, g, ops))
    ensures var db := Run(m, g, ops);
      db.PositionRow(c).quantity == -Total(db, PositionBalance(c))
  {
    hide VoucherOk, Distinct, Mirrors, EntrySum, GridDeals, OnGrid, Step;
    LedgerAgainstStock(m, g, ops, c);
    Reachable(m, g, ops);
    var db := Run(m, g, ops);
    var vs := db.vouchers;
    forall i: nat | i < db.nextId
      ensures ReinstatedTerm(vs, PositionBalance(c))(i) == 0.0
    {
      if i in vs && vs[i].reverses.Some? {
        var u := vs[i].reverses.value;
        assert ReversesOk(vs, i, u);
        assert Depth(vs, u) == 0;
      }
    }
    SumZero(db.nextId, ReinstatedTerm(vs, PositionBalance(c)));
  }
}
