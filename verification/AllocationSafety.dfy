/** Allocations over every run: no invoice and no payment is ever overdrawn, and nothing but a void,
    a delete or an allocation moves what is covered. */
module AllocationSafety {
  import opened Algebra
  import opened Amounts
  import opened Inventory
  import opened Books
  import opened Allocation
  import opened Runs
  import opened Chains
  import opened Sums

  /** Allocations join an existing deal to an existing voucher, and are positive. */
  ghost predicate RowsJoin(db: Db, u: Use) {
    forall d: nat, p: nat :: (d, p) in Table(db, u) ==>
      db.IsDeal(d) && d < db.nextId && p in db.vouchers && p < db.nextId && Table(db, u)[(d, p)] > 0.0
  }

  ghost predicate DealsPositive(db: Db) {
    forall id :: db.IsDeal(id) ==> db.vouchers[id].deal.value.quantity > 0.0 && db.vouchers[id].deal.value.total > 0.0
  }

  /** Final payments never cover more of a deal than there is to cover. */
  ghost predicate InvoicesSafe(db: Db, u: Use) {
    forall d :: db.IsDeal(d) ==> Covered(db, u, d) <= Coverable(db, u, d)
  }

  /** Final deals of one customer never draw more from a payment than that customer's own leg of it. */
  ghost predicate PaymentsSafe(db: Db, u: Use) {
    forall p, a, c :: p in db.vouchers ==> Used(db, u, p, a, c) <= Abs(Leg(db.vouchers[p], a, c))
  }

  ghost predicate Safe(db: Db) {
    DealsPositive(db) && forall u :: RowsJoin(db, u) && InvoicesSafe(db, u) && PaymentsSafe(db, u)
  }

  // ------------------------------------------------------------------ one allocation

  /** An allocation raises what is covered of its invoice by its amount and touches no other invoice,
      whether of the same use or the other. */
  lemma AllocateCovers(m: Rounding, db: Db, u: Use, d: nat, p: nat, x: real, u': Use, d': nat)
    requires CanAllocate(m, db, u, d, p, x) && p < db.nextId
    ensures var db' := Inserted(db, u, d, p, x);
      Covered(db', u', d') == Covered(db, u', d') + if u' == u && d' == d then x else 0.0
  {
    var db', n := Inserted(db, u, d, p, x), db.nextId;
    var f, f' := CoverTerm(db, u', d'), CoverTerm(db', u', d');
    if u' == u && d' == d {
      SumUpdate(n, f, f', p);
    } else {
      SumEqual(n, f, f');
    }
  }

  /** It draws its amount from its payment, on behalf of the deal's customer in the unit of the use,
      and from nothing else. */
  lemma AllocateDraws(m: Rounding, db: Db, u: Use, d: nat, p: nat, x: real, u': Use, p': nat, a: Account, c: Option<nat>)
    requires CanAllocate(m, db, u, d, p, x) && d < db.nextId
    ensures var db' := Inserted(db, u, d, p, x);
      Used(db', u', p', a, c) == Used(db, u', p', a, c) + if u' == u && p' == p && Draws(db, u, d, a, c) then x else 0.0
  {
    hide Remaining, Capacity, UsedFor, OnGrid, InvoiceOpen, PaymentListed;
    var db', n := Inserted(db, u, d, p, x), db.nextId;
    var f, f' := UseTerm(db, u', p', a, c), UseTerm(db', u', p', a, c);
    assert forall i :: Draws(db', u', i, a, c) == Draws(db, u', i, a, c);
    if u' == u && p' == p {
      SumUpdate(n, f, f', d);
    } else {
      SumEqual(n, f, f');
    }
  }

  lemma AllocateSafe(m: Rounding, db: Db, u: Use, d: nat, p: nat, x: real)
    requires Inv(m, db) && Safe(db) && CanAllocate(m, db, u, d, p, x)
    ensures Safe(Inserted(db, u, d, p, x))
  {
    hide VoucherOk, Linked, Distinct, Covered, Used, OnGrid, Leg;
    var db' := Inserted(db, u, d, p, x);
    assert d < db.nextId && p < db.nextId;
    forall u'
      ensures RowsJoin(db', u') && InvoicesSafe(db', u') && PaymentsSafe(db', u')
    {
      assert RowsJoin(db, u') && InvoicesSafe(db, u') && PaymentsSafe(db, u');
      forall d' | db'.IsDeal(d')
        ensures Covered(db', u', d') <= Coverable(db', u', d')
      {
        AllocateCovers(m, db, u, d, p, x, u', d');
        assert Coverable(db', u', d') == Coverable(db, u', d');
      }
      forall p', a, c | p' in db'.vouchers
        ensures Used(db', u', p', a, c) <= Abs(Leg(db'.vouchers[p'], a, c))
      {
        AllocateDraws(m, db, u, d, p, x, u', p', a, c);
      }
    }
  }

  // ------------------------------------------------------------------ everything else only frees

  /** The voucher that stops being final, if the change has one. */
  function Leaving(ch: Change): Option<nat> {
    match ch
    case Reversing(id, _) => Some(id)
    case Removed(id) => Some(id)
    case _ => None
  }

  lemma CoverTermAfter(db: Db, db': Db, ch: Change, u: Use, d: nat, i: nat)
    requires Below(db.vouchers, db.nextId) && RowsJoin(db, u) && Applied(db, db', ch) && !ch.Untouched?
    requires db'.IsDeal(d)
    ensures CoverTerm(db', u, d)(i) == if d !in db.vouchers || Leaving(ch) == Some(i) then 0.0 else CoverTerm(db, u, d)(i)
  {
    hide Mirrors;
  }

  lemma TableAfter(db: Db, db': Db, ch: Change, u: Use, d: nat, p: nat)
    requires Applied(db, db', ch) && !ch.Untouched?
    ensures (d, p) in Table(db', u) <==> (d, p) in Table(db, u) && ch != Removed(d)
    ensures (d, p) in Table(db', u) ==> Table(db', u)[(d, p)] == Table(db, u)[(d, p)]
  {
    hide Mirrors, Reversed;
  }

  lemma DrawsAfter(db: Db, db': Db, ch: Change, u: Use, d: nat, a: Account, c: Option<nat>)
    requires Below(db.vouchers, db.nextId) && Applied(db, db', ch) && !ch.Untouched? && d in db.vouchers
    ensures Draws(db', u, d, a, c) == (Draws(db, u, d, a, c) && Leaving(ch) != Some(d))
  {
    hide Mirrors, Reversed, Without;
  }

  lemma UseTermAfter(db: Db, db': Db, ch: Change, u: Use, p: nat, a: Account, c: Option<nat>, i: nat)
    requires Below(db.vouchers, db.nextId) && RowsJoin(db, u) && Applied(db, db', ch) && !ch.Untouched?
    requires p in db'.vouchers
    ensures UseTerm(db', u, p, a, c)(i) ==
      if p !in db.vouchers || Leaving(ch) == Some(i) then 0.0 else UseTerm(db, u, p, a, c)(i)
  {
    hide Applied, Draws, Table;
    TableAfter(db, db', ch, u, i, p);
    if (i, p) in Table(db, u) {
      DrawsAfter(db, db', ch, u, i, a, c);
    }
  }

  lemma InvBelow(m: Rounding, db: Db)
    requires Inv(m, db)
    ensures Below(db.vouchers, db.nextId)
  {
    hide VoucherOk, Linked, Distinct;
  }

  lemma TableExtended(n: nat, n': nat, f: nat -> real, f': nat -> real, k: Option<nat>)
    requires n <= n' <= n + 1 && (n' == n + 1 ==> f'(n) == 0.0)
    requires k.Some? ==> k.value < n && f'(k.value) == 0.0
    requires forall i: nat :: i < n && k != Some(i) ==> f'(i) == f(i)
    ensures Sum(n', f') == Sum(n, f) - if k.Some? then f(k.value) else 0.0
  {
    if k.Some? {
      SumUpdate(n, f, f', k.value);
    } else {
      SumEqual(n, f, f');
    }
  }

  /** What any other call leaves covered of an invoice: the share of the voucher that left is gone. */
  lemma CoveredAfter(m: Rounding, db: Db, db': Db, ch: Change, u: Use, d: nat)
    requires Inv(m, db) && RowsJoin(db, u) && Applied(db, db', ch) && !ch.Untouched? && db'.IsDeal(d)
    ensures Covered(db', u, d) ==
      if d !in db.vouchers then 0.0
      else Covered(db, u, d) - if Leaving(ch).Some? then CoverTerm(db, u, d)(Leaving(ch).value) else 0.0
  {
    hide Inv, CoverTerm;
    InvBelow(m, db);
    var f, f' := CoverTerm(db, u, d), CoverTerm(db', u, d);
    forall i: nat
      ensures f'(i) == if d !in db.vouchers || Leaving(ch) == Some(i) then 0.0 else f(i)
    {
      CoverTermAfter(db, db', ch, u, d, i);
    }
    if d !in db.vouchers {
      SumZero(db'.nextId, f');
    } else {
      NothingBeyond(db, u, d);
      TableExtended(db.nextId, db'.nextId, f, f', Leaving(ch));
    }
  }

  lemma NothingBeyond(db: Db, u: Use, d: nat)
    requires RowsJoin(db, u)
    ensures CoverTerm(db, u, d)(db.nextId) == 0.0
    ensures forall a, c :: UseTerm(db, u, d, a, c)(db.nextId) == 0.0
  {
  }

  /** What it leaves drawn from a payment: the share of the deal that left is gone. */
  lemma UsedAfter(m: Rounding, db: Db, db': Db, ch: Change, u: Use, p: nat, a: Account, c: Option<nat>)
    requires Inv(m, db) && RowsJoin(db, u) && Applied(db, db', ch) && !ch.Untouched? && p in db'.vouchers
    ensures Used(db', u, p, a, c) ==
      if p !in db.vouchers then 0.0
      else Used(db, u, p, a, c) - if Leaving(ch).Some? then UseTerm(db, u, p, a, c)(Leaving(ch).value) else 0.0
  {
    hide Inv, UseTerm;
    InvBelow(m, db);
    var f, f' := UseTerm(db, u, p, a, c), UseTerm(db', u, p, a, c);
    forall i: nat
      ensures f'(i) == if p !in db.vouchers || Leaving(ch) == Some(i) then 0.0 else f(i)
    {
      UseTermAfter(db, db', ch, u, p, a, c, i);
    }
    if p !in db.vouchers {
      SumZero(db'.nextId, f');
    } else {
      NothingBeyond(db, u, p);
      TableExtended(db.nextId, db'.nextId, f, f', Leaving(ch));
    }
  }

  lemma InvoicesStaySafe(m: Rounding, db: Db, db': Db, ch: Change, u: Use)
    requires Inv(m, db) && RowsJoin(db, u) && InvoicesSafe(db, u) && DealsPositive(db')
    requires Applied(db, db', ch) && !ch.Untouched?
    ensures InvoicesSafe(db', u)
  {
    hide VoucherOk, Linked, Distinct, Covered, EntrySum, Mirrors;
    forall d | db'.IsDeal(d)
      ensures Covered(db', u, d) <= Coverable(db', u, d)
    {
      CoveredAfter(m, db, db', ch, u, d);
      if d in db.vouchers {
        assert Coverable(db', u, d) == Coverable(db, u, d);
      }
    }
  }

  lemma PaymentsStaySafe(m: Rounding, db: Db, db': Db, ch: Change, u: Use)
    requires Inv(m, db) && RowsJoin(db, u) && PaymentsSafe(db, u)
    requires Applied(db, db', ch) && !ch.Untouched?
    ensures PaymentsSafe(db', u)
  {
    hide VoucherOk, Linked, Distinct, Used, EntrySum, Mirrors;
    forall p, a, c | p in db'.vouchers
      ensures Used(db', u, p, a, c) <= Abs(Leg(db'.vouchers[p], a, c))
    {
      UsedAfter(m, db, db', ch, u, p, a, c);
    }
  }

  lemma RowsStayJoined(db: Db, db': Db, ch: Change, u: Use)
    requires RowsJoin(db, u) && Applied(db, db', ch) && !ch.Untouched?
    ensures RowsJoin(db', u)
  {
    hide Mirrors;
  }

  lemma OthersSafe(m: Rounding, db: Db, db': Db, ch: Change)
    requires Inv(m, db) && Safe(db) && Applied(db, db', ch) && !ch.Untouched? && DealsPositive(db')
    ensures Safe(db')
  {
    hide Inv, Applied, RowsJoin, InvoicesSafe, PaymentsSafe, DealsPositive;
    forall u
      ensures RowsJoin(db', u) && InvoicesSafe(db', u) && PaymentsSafe(db', u)
    {
      assert RowsJoin(db, u) && InvoicesSafe(db, u) && PaymentsSafe(db, u);
      RowsStayJoined(db, db', ch, u);
      InvoicesStaySafe(m, db, db', ch, u);
      PaymentsStaySafe(m, db, db', ch, u);
    }
  }

  /** A posted deal has a positive stored quantity and total. */
  lemma PostedDealPositive(m: Rounding, db: Db, o: Order)
    requires DealsPositive(db) && PostOrder(m, db, o).Committed?
    ensures DealsPositive(PostOrder(m, db, o).db)
  {
    hide EntriesOf, Store, Times, Apply, OrderError, Balanced, StoredBalanced, KeyHolder;
    if o.DealOrder? {
      var base := db.registry.base.value;
      var total := Times(o.quantity, o.unitPrice);
      var lines := DealLines(m, o, base);
      var es := EntriesOf(m, lines, o.date);
      StoreOdd(m, o.quantity);
      StoreOdd(m, total);
      TimesPositive(o.quantity, o.unitPrice);
      PositiveStays(m, o.quantity);
      PositiveStays(m, total);
      assert es[0] in es && es[2] in es;
      assert es[0].amount != 0.0 && es[2].amount != 0.0;
    }
  }

  lemma PositiveStays(m: Rounding, x: real)
    requires x > 0.0
    ensures Store(m, x) >= 0.0
  {
    StoreMonotone(m, 0.0, x);
    StoreOnGrid(m, 0.0);
  }

  lemma SafeStep(m: Rounding, db: Db, op: Op)
    requires Inv(m, db) && Safe(db)
    ensures Safe(Step(m, db, op))
  {
    hide Inv, PostOrder, VoidVoucher, DeleteVoucher, CanAllocate, Covered, Used, Mirrors, RowsJoin, InvoicesSafe, PaymentsSafe;
    var db', ch := Step(m, db, op), ChangeOf(m, db, op);
    StepChanges(m, db, op);
    if ch.Untouched? {
      match op
      case AllocateOp(u, d, p, x) =>
        if CanAllocate(m, db, u, d, p, x) && db.IsDeal(d) {
          AllocateSafe(m, db, u, d, p, x);
        }
      case _ =>
        UntouchedIsRefused(m, db, op);
    } else {
      if op.Post? {
        PostedDealPositive(m, db, op.order);
      }
      OthersSafe(m, db, db', ch);
    }
  }

  lemma UntouchedIsRefused(m: Rounding, db: Db, op: Op)
    requires Inv(m, db) && ChangeOf(m, db, op).Untouched? && !op.AllocateOp?
    ensures Step(m, db, op) == db
  {
    hide Inv, PostOrder, VoidVoucher, DeleteVoucher, Applied;
    match op
    case Post(o) =>
      if PostOrder(m, db, o).Committed? {
        OrderAdds(m, db, o);
      }
    case VoidOp(id, reason) =>
      if VoidVoucher(m, db, id, reason).Committed? {
        VoidChanges(m, db, id, reason);
      }
    case DeleteOp(_) =>
  }

  /** In every reachable database, per invoice the settlements and deliveries from final payments stay
      within what there is to cover, and per payment and customer the allocations to final deals stay
      within the customer's leg of the payment. */
  lemma {:induction false} NeverOverdrawn(m: Rounding, g: Registry, ops: seq<Op>)
    ensures Safe(Run(m, g, ops))
  {
    hide Inv, Step, Safe;
    if ops == [] {
      EmptySafe(g);
    } else {
      NeverOverdrawn(m, g, ops[..|ops| - 1]);
      Reachable(m, g, ops[..|ops| - 1]);
      SafeStep(m, Run(m, g, ops[..|ops| - 1]), ops[|ops| - 1]);
    }
  }

  lemma EmptySafe(g: Registry)
    ensures Safe(Empty(g))
  {
  }

  // ------------------------------------------------------------------ what the screens show

  /** The part of a deal's quantity handed over at once. */
  ghost function Upfront(db: Db, d: nat): real
    requires db.IsDeal(d)
  {
    db.vouchers[d].deal.value.quantity - Coverable(db, Delivery, d)
  }

  /** In every reachable database the clamps in the remaining amounts never bite: settled plus
      remaining is the total, handed over plus delivered plus remaining is the quantity. */
  lemma {:induction false} RemainingIsExact(m: Rounding, g: Registry, ops: seq<Op>, d: nat)
    requires Run(m, g, ops).IsDeal(d)
    ensures var db := Run(m, g, ops);
      var deal := db.vouchers[d].deal.value;
      && Covered(db, Settlement, d) + Remaining(db, Settlement, d) == deal.total
      && Upfront(db, d) + Covered(db, Delivery, d) + Remaining(db, Delivery, d) == deal.quantity
      && Upfront(db, d) >= 0.0
  {
    hide Covered, Run;
    NeverOverdrawn(m, g, ops);
    var db := Run(m, g, ops);
    assert InvoicesSafe(db, Settlement) && InvoicesSafe(db, Delivery);
  }

  /** Voiding a voucher reopens, on every invoice, exactly what that voucher covered as a payment,
      and frees, on every payment and for every customer, exactly what it drew as a deal. */
  lemma VoidFreesExactly(m: Rounding, db: Db, id: nat, reason: string, u: Use, x: nat, a: Account, c: Option<nat>)
    requires Inv(m, db) && Safe(db) && VoidError(db, id, reason).None? && x in db.vouchers
    ensures var db' := Step(m, db, VoidOp(id, reason));
      var share := if (x, id) in Table(db, u) then Table(db, u)[(x, id)] else 0.0;
      var drawn := if (id, x) in Table(db, u) && Draws(db, u, id, a, c) then Table(db, u)[(id, x)] else 0.0;
      && (db.IsDeal(x) ==> Covered(db', u, x) == Covered(db, u, x) - share)
      && Used(db', u, x, a, c) == Used(db, u, x, a, c) - drawn
  {
    hide Inv, Covered, Used, VoidVoucher, Mirrors, InvoicesSafe, PaymentsSafe;
    VoidCommits(m, db, id, reason);
    VoidChanges(m, db, id, reason);
    var out := VoidVoucher(m, db, id, reason);
    var ch := Reversing(id, out.db.vouchers[out.id]);
    assert RowsJoin(db, u);
    InvBelow(m, db);
    if db.IsDeal(x) {
      assert out.db.IsDeal(x);
      CoveredAfter(m, db, out.db, ch, u, x);
    }
    UsedAfter(m, db, out.db, ch, u, x, a, c);
  }

  lemma VoidCommits(m: Rounding, db: Db, id: nat, reason: string)
    requires Inv(m, db) && VoidError(db, id, reason).None?
    ensures VoidVoucher(m, db, id, reason).Committed?
  {
    hide Inv, Mirrors, VoidVoucher;
    VoidKeeps(m, db, id, reason);
  }
}
