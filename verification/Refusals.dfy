/** What every call comes to: which reason a refused order, void or delete is given, and that it goes through where
    there is none. */
module Refusals {
  import opened Algebra
  import opened Amounts
  import opened Context
  import opened Inventory
  import opened Books
  import opened Runs
  import opened Chains
  import opened Effects
  import opened Allocation
  import opened InventoryBooks
  import Text

  // ------------------------------------------------------------------ orders

  /** The account is there but not active. */
  predicate Idle(g: Registry, a: Account) {
    g.Knows(a) && !g.Info(a).active
  }

  ghost predicate HeldBy(db: Db, o: Order, id: nat) {
    id in db.vouchers && o.key.Some? && o.key.value != "" && db.vouchers[id].key == o.key
  }

  lemma KeyHeld(db: Db, o: Order)
    requires StoredKey(o.key).Some? && KeyHolder(db.vouchers, db.nextId, StoredKey(o.key).value).Some?
    ensures HeldBy(db, o, KeyHolder(db.vouchers, db.nextId, StoredKey(o.key).value).value)
  {
    KeyHolderFinds(db.vouchers, db.nextId, StoredKey(o.key).value);
  }

  /** A deal is refused by the first of these that holds, and posted if none does. */
  lemma DealOutcome(m: Rounding, db: Db, o: Order)
    requires o.DealOrder? && forall a :: a in Named(o) ==> db.registry.Knows(a)
    ensures var out, g := PostOrder(m, db, o), db.registry;
      if g.base.None? then out == Rejected(NoBase)
      else if o.currency == g.base.value then out == Rejected(BaseTraded)
      else if o.quantity <= 0.0 then out == Rejected(BadQuantity)
      else if o.unitPrice <= 0.0 then out == Rejected(BadPrice)
      else if Idle(g, o.counterparty) || o.currency !in g.currencies || !g.currencies[o.currency] then out == Rejected(Inactive)
      else if o.settle.Some? && g.Info(o.settle.value).currency != g.base then out == Rejected(WrongCurrency)
      else if o.settle.Some? && Idle(g, o.settle.value) then out == Rejected(Inactive)
      else if o.delivery.Some? && g.Info(o.delivery.value).currency != Some(o.currency) then out == Rejected(WrongCurrency)
      else if o.delivery.Some? && Idle(g, o.delivery.value) then out == Rejected(Inactive)
      else if KeyTaken(db, o) then Duplicate(db, o, out)
      else if Store(m, o.quantity) == 0.0 || Store(m, Ctx(m, o.quantity)) == 0.0
              || Store(m, Times(o.quantity, o.unitPrice)) == 0.0 then out == Rejected(StoredZero)
      else if Store(m, o.quantity) != Store(m, Ctx(m, o.quantity)) then out == Rejected(StoredUnbalanced)
      else out.Committed?
  {
    hide Store, Times, Ctx, PostVoucher, DealRequest, Apply, KeyTaken, Duplicate;
    assert o.counterparty in Named(o);
    assert o.settle.Some? ==> o.settle.value in Named(o);
    assert o.delivery.Some? ==> o.delivery.value in Named(o);
    if DealError(db.registry, o).None? {
      CheckedDealOutcome(m, db, o);
    }
  }

  lemma CheckedDealOutcome(m: Rounding, db: Db, o: Order)
    requires o.DealOrder? && (forall a :: a in Named(o) ==> db.registry.Knows(a)) && DealError(db.registry, o).None?
    ensures var out := PostOrder(m, db, o);
      if KeyTaken(db, o) then Duplicate(db, o, out)
      else if Store(m, o.quantity) == 0.0 || Store(m, Ctx(m, o.quantity)) == 0.0
              || Store(m, Times(o.quantity, o.unitPrice)) == 0.0 then out == Rejected(StoredZero)
      else if Store(m, o.quantity) != Store(m, Ctx(m, o.quantity)) then out == Rejected(StoredUnbalanced)
      else out.Committed?
  {
    hide Store, Times, Ctx, KeyHolder, EntriesOf, DealLines, Balanced, StoredBalanced, Apply, KeyTaken, HeldBy;
    TakenIsFound(db, o);
    DealBalanced(m, o, db.registry.base.value);
    DealCheck(m, o, db.registry.base.value);
    if KeyTaken(db, o) {
      KeyHeld(db, o);
    }
  }

  /** The refusal names the voucher that holds the key. */
  ghost predicate Duplicate(db: Db, o: Order, out: Outcome) {
    out.Rejected? && out.error.DuplicateKey? && HeldBy(db, o, out.error.holder)
  }

  /** The first thing a pair service finds wrong with an order whose accounts are there. */
  ghost function FirstFault(g: Registry, o: Order): Option<Failure>
    requires IsPair(o) && forall a :: a in Named(o) ==> g.Knows(a)
  {
    if o.OpeningOrder? then if o.amount == 0.0 then Some(BadAmount) else None
    else if o.amount <= 0.0 then Some(BadAmount)
    else if (o.TransferOrder? || o.PartyTransferOrder?) && o.source == o.target then Some(SameAccount)
    else if o.PartyTransferOrder? then if Idle(g, o.source) || Idle(g, o.target) then Some(Inactive) else None
    else if o.TransferOrder? then None
    else if !o.CashOrder? && g.Info(o.account).kind !in {Bank, Cashbox, Customer} then Some(WrongKind)
    else if Idle(g, o.account) || (o.CashOrder? && Idle(g, o.party)) then Some(Inactive)
    else if g.Info(o.account).currency.Some? && g.Info(o.account).currency.value != o.currency then Some(WrongCurrency)
    else if !o.CashOrder? then if Idle(g, o.category) then Some(Inactive) else None
    else if o.kind != ReceiveV && o.kind != PayV then Some(WrongKind)
    else None
  }

  /** An order of a pair service is refused by the first of these that holds, and posted if none does. */
  lemma PairOutcome(m: Rounding, db: Db, o: Order)
    requires IsPair(o) && forall a :: a in Named(o) ==> db.registry.Knows(a)
    ensures var out, fault := PostOrder(m, db, o), FirstFault(db.registry, o);
      if fault.Some? then out == Rejected(fault.value)
      else if KeyTaken(db, o) then Duplicate(db, o, out)
      else if Store(m, o.amount) == 0.0 || Store(m, Ctx(m, o.amount)) == 0.0 then out == Rejected(StoredZero)
      else if Store(m, o.amount) != Store(m, Ctx(m, o.amount)) then out == Rejected(StoredUnbalanced)
      else out.Committed?
  {
    hide Store, Ctx, KeyHolder, PostError, OrderRequest, OrderError, Gains, Loses, KeyTaken, HeldBy, FirstFault;
    FaultFound(db.registry, o);
    TakenIsFound(db, o);
    if KeyTaken(db, o) {
      KeyHeld(db, o);
    }
    if OrderError(db.registry, o).None? {
      PairLines(m, o);
      PairPostError(m, db, o, OrderRequest(m, o), Gains(o), Loses(o));
    }
  }

  lemma FaultFound(g: Registry, o: Order)
    requires IsPair(o) && forall a :: a in Named(o) ==> g.Knows(a)
    ensures FirstFault(g, o) == OrderError(g, o)
    ensures OrderError(g, o).None? ==> o.amount != 0.0
  {
    match o
    case CashOrder(_, _, party, account, _, _, _) => assert party in Named(o) && account in Named(o);
    case ExpenseOrder(_, category, account, _, _, _) => assert category in Named(o) && account in Named(o);
    case IncomeOrder(_, category, account, _, _, _) => assert category in Named(o) && account in Named(o);
    case PartyTransferOrder(_, source, target, _, _, _) => assert source in Named(o) && target in Named(o);
    case _ =>
  }

  lemma PairPostError(m: Rounding, db: Db, o: Order, r: Request, a: Account, b: Account)
    requires IsPair(o) && r.lines == Pair(m, a, b, o.currency, o.amount) && r.key == o.key && o.amount != 0.0
    ensures PostError(m, db, r) ==
      if StoredKey(o.key).Some? && KeyHolder(db.vouchers, db.nextId, StoredKey(o.key).value).Some?
      then Some(DuplicateKey(KeyHolder(db.vouchers, db.nextId, StoredKey(o.key).value).value))
      else if Store(m, o.amount) == 0.0 || Store(m, Ctx(m, o.amount)) == 0.0 then Some(StoredZero)
      else if Store(m, o.amount) != Store(m, Ctx(m, o.amount)) then Some(StoredUnbalanced)
      else None
  {
    hide Store, Ctx, KeyHolder, EntriesOf, Balanced, StoredBalanced;
    PairBalanced(m, a, b, o.currency, o.amount, r.date);
    StoreOdd(m, Ctx(m, o.amount));
    CtxTwice(m, o.amount);
    var es := EntriesOf(m, r.lines, r.date);
    assert es[0] in es && es[1] in es;
    assert forall e :: e in es ==> e == es[0] || e == es[1];
  }

  /** An order that names an account that is not there is told so. */
  lemma UnknownOutcome(m: Rounding, db: Db, o: Order)
    ensures (exists a :: a in Named(o) && !db.registry.Knows(a)) <==> PostOrder(m, db, o) == Rejected(UnknownParty)
  {
    hide Store, Ctx, KeyHolder, EntriesOf, Balanced, StoredBalanced, Apply, DealLines, OrderRequest;
  }

  ghost predicate KeyTaken(db: Db, o: Order) {
    exists id :: id in db.vouchers && id < db.nextId && HeldBy(db, o, id)
  }

  lemma TakenIsFound(db: Db, o: Order)
    ensures KeyTaken(db, o) <==>
      StoredKey(o.key).Some? && KeyHolder(db.vouchers, db.nextId, StoredKey(o.key).value).Some?
  {
    if StoredKey(o.key).Some? {
      KeyHolderFinds(db.vouchers, db.nextId, StoredKey(o.key).value);
      var h := KeyHolder(db.vouchers, db.nextId, StoredKey(o.key).value);
      assert h.Some? ==> HeldBy(db, o, h.value);
    }
  }

  /** Lines given one by one are refused by the first of these that holds, and posted if none does. */
  lemma LinesOutcome(m: Rounding, db: Db, o: Order)
    requires o.LinesOrder? && forall l :: l in o.lines ==> db.registry.Knows(l.party)
    ensures var out := PostOrder(m, db, o);
      if o.lines == [] then out == Rejected(NoLines)
      else if KeyTaken(db, o) then out.Rejected? && out.error.DuplicateKey?
      else if exists l :: l in o.lines && LineTotal(m, o.lines, l.currency) != 0.0 then out == Rejected(Unbalanced)
      else if exists l :: l in o.lines && l.amount == 0.0 then out == Rejected(ZeroLine)
      else if exists l :: l in o.lines && Store(m, l.amount) == 0.0 then out == Rejected(StoredZero)
      else if exists c :: EntrySum(EntriesOf(m, o.lines, o.date), InCurrency(c)) != 0.0 then out == Rejected(StoredUnbalanced)
      else out.Committed?
  {
    hide Store, KeyHolder, LineTotal, EntrySum, KeyTaken, StoredBalanced, PostOrder;
    LinesPosted(m, db, o);
    TakenIsFound(db, o);
    LostLines(m, o.lines, o.date);
    StoredSums(m, o.lines, o.date);
  }

  lemma LinesPosted(m: Rounding, db: Db, o: Order)
    requires o.LinesOrder? && forall l :: l in o.lines ==> db.registry.Knows(l.party)
    ensures PostOrder(m, db, o) == PostVoucher(m, db, Request(o.kind, o.date, o.lines, o.key, None, None))
  {
    hide PostVoucher;
  }

  lemma LostLines(m: Rounding, lines: seq<Line>, date: int)
    ensures (exists l :: l in lines && Store(m, l.amount) == 0.0) <==>
      exists e :: e in EntriesOf(m, lines, date) && e.amount == 0.0
  {
    hide Store;
    var es := EntriesOf(m, lines, date);
    if exists l :: l in lines && Store(m, l.amount) == 0.0 {
      var l :| l in lines && Store(m, l.amount) == 0.0;
      var i :| 0 <= i < |lines| && lines[i] == l;
      assert es[i] in es;
    }
  }

  lemma StoredSums(m: Rounding, lines: seq<Line>, date: int)
    ensures (exists c :: EntrySum(EntriesOf(m, lines, date), InCurrency(c)) != 0.0) <==>
      !StoredBalanced(EntriesOf(m, lines, date))
  {
    hide Store;
    var es := EntriesOf(m, lines, date);
    if StoredBalanced(es) {
      forall c
        ensures EntrySum(es, InCurrency(c)) == 0.0
      {
        StoredBalancedEverywhere(es, c);
      }
    }
  }

  // ------------------------------------------------------------------ voids and deletes

  /** A reason is blank exactly when there is nothing but white space in it. */
  lemma BlankMeans(reason: string)
    ensures Blank(reason) <==> forall c :: c in reason ==> Text.IsSpace(c)
  {
    Text.StripEmpty(reason);
  }

  ghost predicate UsedAsPayment(db: Db, id: nat) {
    exists k :: (k in db.settlements || k in db.deliveries) && k.1 == id
  }

  /** In a well-formed database a void has one outcome for each state of its voucher: it is refused where there is
      no voucher, where the voucher is void already and where the reason is blank, and otherwise goes through. */
  lemma VoidOutcome(m: Rounding, db: Db, id: nat, reason: string)
    requires Inv(m, db)
    ensures var out := VoidVoucher(m, db, id, reason);
      if id !in db.vouchers then out == Rejected(NotFound)
      else if db.vouchers[id].status == Void then out == Rejected(AlreadyVoid)
      else if forall c :: c in reason ==> Text.IsSpace(c) then out == Rejected(NoReason)
      else out.Committed?
  {
    hide VoucherOk, Distinct, Mirrors, PostVoucher, Unwound, Blank;
    BlankMeans(reason);
    if id in db.vouchers {
      NotDraft(m, db, id);
      ReverserFinds(db.vouchers, db.nextId, id);
      var r := Reverser(db.vouchers, db.nextId, id);
      assert r.Some? ==> ReversesOk(db.vouchers, r.value, id);
      if VoidError(db, id, reason).None? {
        VoidKeeps(m, db, id, reason);
      }
    }
  }

  /** And so has a delete: refused where there is no voucher, where it is void (so another reverses it), where it is a
      reversal and where an allocation uses it as payment. */
  lemma DeleteOutcome(m: Rounding, db: Db, id: nat)
    requires Inv(m, db)
    ensures var out := DeleteVoucher(m, db, id);
      if id !in db.vouchers then out == Rejected(NotFound)
      else if db.vouchers[id].status == Void then out == Rejected(AlreadyReversed)
      else if db.vouchers[id].reverses.Some? then out == Rejected(IsReversal)
      else if UsedAsPayment(db, id) then out == Rejected(ProtectedByAllocation)
      else out.Committed?
  {
    hide VoucherOk, Distinct, Mirrors, Unwound;
    if id in db.vouchers {
      ReverserFinds(db.vouchers, db.nextId, id);
      var r := Reverser(db.vouchers, db.nextId, id);
      assert r.Some? ==> ReversesOk(db.vouchers, r.value, id);
      if db.vouchers[id].status == Void {
        assert Reversed(db.vouchers, id);
        var w :| w in db.vouchers && db.vouchers[w].reverses == Some(id);
        Below(m, db, w);
      }
    }
  }

  lemma Below(m: Rounding, db: Db, id: nat)
    requires Inv(m, db) && id in db.vouchers
    ensures id < db.nextId
  {
    hide VoucherOk, Linked, Distinct;
  }

  /** An allocation is told that there is no such deal, or that it does not fit. */
  lemma AllocationRefused(m: Rounding, db: Db, u: Use, d: nat, p: nat, x: real)
    ensures var out := Allocate(m, db, u, d, p, x);
      out.Rejected? ==> out.error == if d in db.vouchers && db.vouchers[d].deal.Some? then NotAllocatable else NotFound
  {
    hide CanAllocate;
  }
}
