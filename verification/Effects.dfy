/** What each service moves, seen from the balances; and calls that undo or repeat one another. */
module Effects {
  import opened Algebra
  import opened Amounts
  import opened Inventory
  import opened Books
  import opened Context
  import opened Allocation
  import opened Runs
  import opened Chains
  import opened InventoryBooks
  import opened AllocationSafety
  import Statements

  ghost function Balance(db: Db, a: Account, c: nat): real {
    Total(db, OnAccount(a, c))
  }

  // ------------------------------------------------------------------ one pair of lines

  predicate IsPair(o: Order) {
    !o.DealOrder? && !o.LinesOrder?
  }

  /** The account that ends up with more: the one money comes into, the category an expense is booked on,
      the party an opening balance is a claim against. */
  function Gains(o: Order): Account
    requires IsPair(o)
  {
    match o
    case CashOrder(kind, _, party, account, _, _, _) => if kind == ReceiveV then account else party
    case TransferOrder(_, _, target, _, _, _) => target
    case ExpenseOrder(_, category, _, _, _, _) => category
    case IncomeOrder(_, _, account, _, _, _) => account
    case PartyTransferOrder(_, _, target, _, _, _) => target
    case OpeningOrder(_, party, _, _, _) => party
  }

  /** The account it comes from. */
  function Loses(o: Order): Account
    requires IsPair(o)
  {
    match o
    case CashOrder(kind, _, party, account, _, _, _) => if kind == ReceiveV then party else account
    case TransferOrder(_, source, _, _, _, _) => source
    case ExpenseOrder(_, _, account, _, _, _) => account
    case IncomeOrder(_, category, _, _, _, _) => category
    case PartyTransferOrder(_, source, _, _, _, _) => source
    case OpeningOrder(_, _, _, _, _) => OpeningEquity
  }

  /** `x` if the balance asked for is that of `b` in `d`. */
  function OnlyFor(a: Account, c: nat, b: Account, d: nat, x: real): real {
    if a == b && c == d then x else 0.0
  }

  lemma EntrySumTwo(es: seq<Entry>, w: Entry -> real)
    requires |es| == 2
    ensures EntrySum(es, w) == w(es[0]) + w(es[1])
  {
    var one := es[..1];
    assert one[..0] == [];
    assert EntrySum(one, w) == w(es[0]);
  }

  lemma PostedBalance(m: Rounding, db: Db, o: Order, w: Entry -> real)
    requires Inv(m, db) && PostOrder(m, db, o).Committed?
    ensures var out := PostOrder(m, db, o);
      && db.nextId in out.db.vouchers
      && Total(out.db, w) == Total(db, w) + EntrySum(out.db.vouchers[db.nextId].entries, w)
  {
    hide Inv, PostOrder, Total;
    OrderAdds(m, db, o);
    var out := PostOrder(m, db, o);
    TotalsAfterInsert(m, db, out.db, out.db.vouchers[out.id], w);
  }

  lemma PairEntries(m: Rounding, db: Db, o: Order)
    requires IsPair(o) && PostOrder(m, db, o).Committed?
    ensures var out := PostOrder(m, db, o);
      && db.nextId in out.db.vouchers
      && var es := out.db.vouchers[db.nextId].entries;
         && |es| == 2
         && es[0].party == Gains(o) && es[0].currency == o.currency && es[0].amount == Store(m, o.amount)
         && es[1].party == Loses(o) && es[1].currency == o.currency && es[1].amount == -Store(m, o.amount)
  {
    hide Store, Ctx, KeyHolder, Balanced, EntrySum;
    var r := OrderRequest(m, o);
    assert r.lines == Pair(m, Gains(o), Loses(o), o.currency, o.amount);
    PairBalanced(m, Gains(o), Loses(o), o.currency, o.amount, r.date);
    StoreOdd(m, Ctx(m, o.amount));
  }

  /** Each of these services moves its amount, as stored, from one account to the other, and leaves every
      other balance alone. */
  lemma PairMoves(m: Rounding, db: Db, o: Order, a: Account, c: nat)
    requires Inv(m, db) && IsPair(o) && PostOrder(m, db, o).Committed?
    ensures Balance(PostOrder(m, db, o).db, a, c) == Balance(db, a, c)
      + OnlyFor(a, c, Gains(o), o.currency, Store(m, o.amount)) - OnlyFor(a, c, Loses(o), o.currency, Store(m, o.amount))
  {
    hide Inv, PostOrder, Total, Gains, Loses, Store;
    PostedBalance(m, db, o, OnAccount(a, c));
    PairEntries(m, db, o);
    EntrySumTwo(PostOrder(m, db, o).db.vouchers[db.nextId].entries, OnAccount(a, c));
  }

  // ------------------------------------------------------------------ a deal

  /** Where the currency of a deal goes to or comes from. */
  function CurrencySide(o: Order): Account
    requires o.DealOrder?
  {
    if o.delivery.Some? then o.delivery.value else o.counterparty
  }

  function BaseSide(o: Order): Account
    requires o.DealOrder?
  {
    if o.settle.Some? then o.settle.value else o.counterparty
  }

  /** A purchase brings the quantity to the currency side and takes the total from the base side, against
      the two position accounts; a sale does the opposite; nothing else moves. */
  lemma DealMoves(m: Rounding, db: Db, o: Order, a: Account, c: nat)
    requires Inv(m, db) && o.DealOrder? && PostOrder(m, db, o).Committed?
    ensures db.registry.base.Some?
    ensures var base := db.registry.base.value;
      var q, t := Signed(o.side, Store(m, o.quantity)), Signed(o.side, Store(m, Times(o.quantity, o.unitPrice)));
      Balance(PostOrder(m, db, o).db, a, c) == Balance(db, a, c)
        + OnlyFor(a, c, CurrencySide(o), o.currency, q) - OnlyFor(a, c, PositionOf(o.currency), o.currency, q)
        + OnlyFor(a, c, PositionOf(base), base, t) - OnlyFor(a, c, BaseSide(o), base, t)
  {
    hide Inv, PostOrder, Total, Store, Times, Ctx, EntriesOf, DealLines, EntrySum, CurrencySide, BaseSide;
    PostedBalance(m, db, o, OnAccount(a, c));
    FourEntries(m, db, o);
    FourMoves(m, o, db.registry.base.value, a, c);
  }

  lemma FourMoves(m: Rounding, o: Order, base: nat, a: Account, c: nat)
    requires o.DealOrder? && base != o.currency
    requires Store(m, -Ctx(m, o.quantity)) == -Store(m, o.quantity)
    requires Store(m, -Times(o.quantity, o.unitPrice)) == -Store(m, Times(o.quantity, o.unitPrice))
    ensures var q, t := Signed(o.side, Store(m, o.quantity)), Signed(o.side, Store(m, Times(o.quantity, o.unitPrice)));
      EntrySum(EntriesOf(m, DealLines(m, o, base), o.date), OnAccount(a, c))
        == OnlyFor(a, c, CurrencySide(o), o.currency, q) - OnlyFor(a, c, PositionOf(o.currency), o.currency, q)
        + OnlyFor(a, c, PositionOf(base), base, t) - OnlyFor(a, c, BaseSide(o), base, t)
  {
    hide Store, Times, Ctx, EntrySum;
    EntrySumFour(EntriesOf(m, DealLines(m, o, base), o.date), OnAccount(a, c));
  }

  lemma FourEntries(m: Rounding, db: Db, o: Order)
    requires o.DealOrder? && PostOrder(m, db, o).Committed?
    ensures db.registry.base.Some? && db.registry.base.value != o.currency
    ensures var out := PostOrder(m, db, o);
      && db.nextId in out.db.vouchers
      && out.db.vouchers[db.nextId].entries == EntriesOf(m, DealLines(m, o, db.registry.base.value), o.date)
      && (forall e :: e in out.db.vouchers[db.nextId].entries ==> e.amount != 0.0)
    ensures Store(m, -Ctx(m, o.quantity)) == -Store(m, o.quantity)
    ensures Store(m, -Times(o.quantity, o.unitPrice)) == -Store(m, Times(o.quantity, o.unitPrice))
  {
    hide EntriesOf, Store, Times, DealLines, Apply, StoredBalanced, Balanced, KeyHolder, Ctx;
    DealLegs(m, db, o);
    StoreOdd(m, Ctx(m, o.quantity));
    StoreOdd(m, Times(o.quantity, o.unitPrice));
  }

  lemma LineTotalFour(m: Rounding, lines: seq<Line>, c: nat)
    requires |lines| == 4
    ensures LineTotal(m, lines, c) == (if lines[0].currency == c then Ctx(m, lines[0].amount) else 0.0)
      + (if lines[1].currency == c then Ctx(m, lines[1].amount) else 0.0)
      + (if lines[2].currency == c then Ctx(m, lines[2].amount) else 0.0)
      + (if lines[3].currency == c then Ctx(m, lines[3].amount) else 0.0)
  {
    hide Ctx;
    var x, y, z := lines[..3], lines[..2], lines[..1];
    assert x[..2] == y && y[..1] == z && z[..0] == [];
    assert LineTotal(m, z, c) == if lines[0].currency == c then Ctx(m, lines[0].amount) else 0.0;
    assert LineTotal(m, y, c) == LineTotal(m, z, c) + if lines[1].currency == c then Ctx(m, lines[1].amount) else 0.0;
    assert LineTotal(m, x, c) == LineTotal(m, y, c) + if lines[2].currency == c then Ctx(m, lines[2].amount) else 0.0;
  }

  /** The lines of a deal pass the first check; what they store as zero is its quantity or its total. */
  lemma DealBalanced(m: Rounding, o: Order, base: nat)
    requires o.DealOrder? && o.quantity > 0.0 && o.unitPrice > 0.0
    ensures var lines := DealLines(m, o, base);
      var es := EntriesOf(m, lines, o.date);
      && lines != [] && Balanced(m, lines) && (forall l :: l in lines ==> l.amount != 0.0)
      && ((exists e :: e in es && e.amount == 0.0) <==>
          Store(m, o.quantity) == 0.0 || Store(m, Ctx(m, o.quantity)) == 0.0
          || Store(m, Times(o.quantity, o.unitPrice)) == 0.0)
  {
    hide Store, Times, LineTotal, Ctx;
    var lines, total := DealLines(m, o, base), Times(o.quantity, o.unitPrice);
    var es := EntriesOf(m, lines, o.date);
    TimesPositive(o.quantity, o.unitPrice);
    StoreOdd(m, Ctx(m, o.quantity));
    StoreOdd(m, total);
    CtxTwice(m, o.quantity);
    CtxOdd(m, Ctx(m, o.quantity));
    CtxOdd(m, total);
    forall c: nat
      ensures LineTotal(m, lines, c) == 0.0
    {
      LineTotalFour(m, lines, c);
    }
    assert es[0] in es && es[1] in es && es[2] in es;
    assert forall e :: e in es ==> e == es[0] || e == es[1] || e == es[2] || e == es[3];
    assert es[3].amount == -es[2].amount;
  }

  /** No voucher holds the order's key; an empty key is none. */
  ghost predicate KeyFree(db: Db, o: Order) {
    o.key.Some? && o.key.value != "" ==>
      forall id :: id in db.vouchers && id < db.nextId ==> db.vouchers[id].key != o.key
  }

  lemma KeyFreeFound(db: Db, o: Order)
    ensures KeyFree(db, o) <==> StoredKey(o.key).None? || KeyHolder(db.vouchers, db.nextId, StoredKey(o.key).value).None?
  {
    if StoredKey(o.key).Some? {
      KeyHolderFinds(db.vouchers, db.nextId, StoredKey(o.key).value);
    }
  }

  /** A position account keeps its own currency and no other, the opening account any; both are active, and neither is
      the house's, a customer's, an expense or an income account. */
  lemma SystemAccounts(g: Registry, c: nat, d: nat)
    ensures g.Knows(PositionOf(c)) && (g.Fits(PositionOf(c), d) <==> c == d)
    ensures g.Knows(OpeningEquity) && g.Fits(OpeningEquity, d)
    ensures forall a :: a in {PositionOf(c), OpeningEquity} ==>
      g.Info(a).active && g.Info(a).kind !in {Bank, Cashbox, Customer, ExpenseKind, IncomeKind}
  {
  }

  /** Any other account is what its row says, and keeps just the currency of its row if there is one. */
  lemma RegisteredAccounts(g: Registry, id: nat, c: nat)
    ensures g.Knows(Registered(id)) <==> id in g.parties
    ensures g.Knows(Registered(id)) ==>
      && g.Info(Registered(id)) == g.parties[id]
      && (g.Fits(Registered(id), c) <==> g.parties[id].currency == None || g.parties[id].currency == Some(c))
  {
  }

  predicate Usable(g: Registry, a: Account) {
    g.Knows(a) && g.Info(a).active
  }

  /** An account that is there, is active and keeps just this currency. */
  predicate HoldsJust(g: Registry, a: Account, c: nat) {
    Usable(g, a) && g.Info(a).currency == Some(c)
  }

  /** An account that is there, is active and may hold this currency. */
  predicate MayHold(g: Registry, a: Account, c: nat) {
    Usable(g, a) && (g.Info(a).currency.None? || g.Info(a).currency.value == c)
  }

  /** What a deal asks of the reference data and its figures. */
  predicate DealAllowed(g: Registry, o: Order)
    requires o.DealOrder?
  {
    && g.base.Some? && o.currency != g.base.value && o.currency in g.currencies && g.currencies[o.currency]
    && o.quantity > 0.0 && o.unitPrice > 0.0 && Usable(g, o.counterparty)
    && (o.settle.Some? ==> HoldsJust(g, o.settle.value, g.base.value))
    && (o.delivery.Some? ==> HoldsJust(g, o.delivery.value, o.currency))
  }

  /** Exactly when a deal is accepted: what it asks of the reference data is there, its key is free, neither its
      quantity nor its total is lost to rounding, and its quantity is stored alike with all its digits and
      rounded to the context. */
  lemma DealAccepted(m: Rounding, db: Db, o: Order)
    requires o.DealOrder?
    ensures PostOrder(m, db, o).Committed? <==>
      && DealAllowed(db.registry, o) && KeyFree(db, o)
      && Store(m, o.quantity) != 0.0 && Store(m, Times(o.quantity, o.unitPrice)) != 0.0
      && Store(m, o.quantity) == Store(m, Ctx(m, o.quantity))
  {
    hide Store, Times, KeyHolder, EntriesOf, DealLines, Balanced, StoredBalanced, Apply, Ctx, KeyFree;
    KeyFreeFound(db, o);
    AllowedDeal(db.registry, o);
    if forall a :: a in Named(o) ==> db.registry.Knows(a) {
      if DealError(db.registry, o).None? {
        DealBalanced(m, o, db.registry.base.value);
        DealCheck(m, o, db.registry.base.value);
      }
    }
  }

  lemma AllowedDeal(g: Registry, o: Order)
    requires o.DealOrder?
    ensures DealAllowed(g, o) <==> (forall a :: a in Named(o) ==> g.Knows(a)) && DealError(g, o).None?
  {
    assert o.counterparty in Named(o);
    assert o.settle.Some? ==> o.settle.value in Named(o);
    assert o.delivery.Some? ==> o.delivery.value in Named(o);
  }

  /** What the other services ask of the accounts and the amount. */
  predicate PairAllowed(g: Registry, o: Order)
    requires IsPair(o)
  {
    match o
    case CashOrder(kind, _, party, account, c, amount, _) =>
      amount > 0.0 && (kind == ReceiveV || kind == PayV) && Usable(g, party) && MayHold(g, account, c)
    case TransferOrder(_, source, target, _, amount, _) =>
      amount > 0.0 && source != target && g.Knows(source) && g.Knows(target)
    case ExpenseOrder(_, category, account, c, amount, _) =>
      amount > 0.0 && Usable(g, category) && MayHold(g, account, c) && g.Info(account).kind in {Bank, Cashbox, Customer}
    case IncomeOrder(_, category, account, c, amount, _) =>
      amount > 0.0 && Usable(g, category) && MayHold(g, account, c) && g.Info(account).kind in {Bank, Cashbox, Customer}
    case PartyTransferOrder(_, source, target, _, amount, _) =>
      amount > 0.0 && source != target && Usable(g, source) && Usable(g, target)
    case OpeningOrder(_, party, _, amount, _) => amount != 0.0 && g.Knows(party)
  }

  /** Exactly when one of them is accepted. */
  lemma PairAccepted(m: Rounding, db: Db, o: Order)
    requires IsPair(o)
    ensures PostOrder(m, db, o).Committed? <==>
      && PairAllowed(db.registry, o) && KeyFree(db, o)
      && Store(m, o.amount) != 0.0 && Store(m, o.amount) == Store(m, Ctx(m, o.amount))
  {
    hide Store, Ctx, KeyFree, KeyHolder, PostError, OrderError, OrderRequest, PairAllowed, Gains, Loses;
    KeyFreeFound(db, o);
    AllowedPair(db.registry, o);
    PairLines(m, o);
    if o.amount != 0.0 {
      PairPosts(m, db, OrderRequest(m, o), Gains(o), Loses(o), o.currency, o.amount);
    }
  }

  lemma PairLines(m: Rounding, o: Order)
    requires IsPair(o)
    ensures var r := OrderRequest(m, o);
      r.lines == Pair(m, Gains(o), Loses(o), o.currency, o.amount) && r.key == o.key
  {
    hide Ctx;
  }

  /** A pair of lines is posted exactly when its key is free, and its amount is stored as something, alike with all its
      digits and rounded to the context. */
  lemma PairPosts(m: Rounding, db: Db, r: Request, a: Account, b: Account, c: nat, x: real)
    requires r.lines == Pair(m, a, b, c, x) && x != 0.0
    ensures PostError(m, db, r).None? <==>
      && (StoredKey(r.key).None? || KeyHolder(db.vouchers, db.nextId, StoredKey(r.key).value).None?)
      && Store(m, x) != 0.0 && Store(m, x) == Store(m, Ctx(m, x))
  {
    hide Store, KeyHolder, EntriesOf, Balanced, StoredBalanced, Ctx;
    PairBalanced(m, a, b, c, x, r.date);
    StoreOdd(m, Ctx(m, x));
    CtxTwice(m, x);
    var es := EntriesOf(m, r.lines, r.date);
    assert es[0] in es && es[1] in es;
    assert forall e :: e in es ==> e == es[0] || e == es[1];
  }

  lemma AllowedPair(g: Registry, o: Order)
    requires IsPair(o)
    ensures PairAllowed(g, o) <==> (forall a :: a in Named(o) ==> g.Knows(a)) && OrderError(g, o).None?
    ensures PairAllowed(g, o) ==> o.amount != 0.0
  {
  }

  // ------------------------------------------------------------------ when and as what an order is booked

  /** The kind of voucher each service writes. */
  function KindOf(o: Order): VoucherKind {
    match o
    case DealOrder(_, _, _, _, _, _, _, _, _) => DealV
    case CashOrder(kind, _, _, _, _, _, _) => kind
    case TransferOrder(_, _, _, _, _, _) => TransferV
    case ExpenseOrder(_, _, _, _, _, _) => ExpenseV
    case IncomeOrder(_, _, _, _, _, _) => IncomeV
    case PartyTransferOrder(_, _, _, _, _, _) => TransferV
    case OpeningOrder(_, _, _, _, _) => OpeningV
    case LinesOrder(kind, _, _, _) => kind
  }

  lemma RequestBooked(m: Rounding, db: Db, r: Request)
    requires PostVoucher(m, db, r).Committed?
    ensures var out := PostVoucher(m, db, r);
      && out.id == db.nextId && db.nextId in out.db.vouchers
      && out.db.vouchers[db.nextId] == VoucherOf(m, r, db.sequence + 1)
      && (forall e :: e in out.db.vouchers[db.nextId].entries ==> e.date == r.date)
  {
    hide PostError, Store;
  }

  /** Every order becomes one final voucher of its kind, on its own date with all its rows, under the next number and
      its own key; a deal is attached to it if and only if it is one. */
  lemma OrderBooked(m: Rounding, db: Db, o: Order)
    requires PostOrder(m, db, o).Committed?
    ensures var out := PostOrder(m, db, o);
      && out.id == db.nextId && db.nextId in out.db.vouchers
      && var v := out.db.vouchers[db.nextId];
         && v.kind == KindOf(o) && v.status == Final && v.number == Some(db.sequence + 1)
         && v.date == o.date && (forall e :: e in v.entries ==> e.date == o.date)
         && v.key == (if o.key == Some("") then None else o.key) && v.reverses.None?
         && (v.deal.Some? <==> o.DealOrder?)
  {
    hide PostVoucher, OrderError, Apply, DealLines, Times, Store, EntriesOf;
    if o.DealOrder? {
      var fill := Apply(m, db.PositionRow(o.currency), o.side, o.quantity, o.unitPrice);
      RequestBooked(m, db.(positions := db.positions[o.currency := fill.position]),
                    DealRequest(m, o, db.registry.base.value, fill.avgAtTime, fill.realized));
    } else {
      RequestBooked(m, db, OrderRequest(m, o));
    }
  }

  /** Lines given one by one become rows in their order, numbered from one, each as stored. */
  lemma LinesBooked(m: Rounding, db: Db, o: Order)
    requires o.LinesOrder? && PostOrder(m, db, o).Committed?
    ensures var out := PostOrder(m, db, o);
      && db.nextId in out.db.vouchers
      && var es := out.db.vouchers[db.nextId].entries;
         && |es| == |o.lines|
         && forall i :: 0 <= i < |es| ==>
              es[i] == Entry(i + 1, o.lines[i].party, o.lines[i].currency, Store(m, o.lines[i].amount), o.date)
  {
    hide PostError, Store;
  }

  /** The balance as of a day, or of all time. */
  ghost function BalanceBy(db: Db, a: Account, c: nat, to: Option<int>): real {
    Total(db, Statements.AsOf(a, c, to))
  }

  lemma {:induction false} OneDay(es: seq<Entry>, date: int, a: Account, c: nat, to: Option<int>)
    requires forall e :: e in es ==> e.date == date
    ensures EntrySum(es, Statements.AsOf(a, c, to))
      == if to.None? || date <= to.value then EntrySum(es, OnAccount(a, c)) else 0.0
  {
    if es != [] {
      assert es[|es| - 1] in es;
      OneDay(es[..|es| - 1], date, a, c, to);
    }
  }

  /** What an order moves, it moves in the balances as of its own date and every later one, and in none before. */
  lemma MovesOnItsDate(m: Rounding, db: Db, o: Order, a: Account, c: nat, to: Option<int>)
    requires Inv(m, db) && PostOrder(m, db, o).Committed?
    ensures var db' := PostOrder(m, db, o).db;
      BalanceBy(db', a, c, to) == BalanceBy(db, a, c, to)
        + if to.None? || o.date <= to.value then Balance(db', a, c) - Balance(db, a, c) else 0.0
  {
    hide Inv, PostOrder, Total;
    PostedBalance(m, db, o, OnAccount(a, c));
    PostedBalance(m, db, o, Statements.AsOf(a, c, to));
    OrderBooked(m, db, o);
    OneDay(PostOrder(m, db, o).db.vouchers[db.nextId].entries, o.date, a, c, to);
  }

  /** So a pair service moves its amount from one account to the other on its own date. */
  lemma PairMovesOn(m: Rounding, db: Db, o: Order, a: Account, c: nat, day: int)
    requires Inv(m, db) && IsPair(o) && PostOrder(m, db, o).Committed?
    ensures BalanceBy(PostOrder(m, db, o).db, a, c, Some(day)) == BalanceBy(db, a, c, Some(day))
      + if day < o.date then 0.0
        else OnlyFor(a, c, Gains(o), o.currency, Store(m, o.amount)) - OnlyFor(a, c, Loses(o), o.currency, Store(m, o.amount))
  {
    hide Inv, PostOrder, Balance, BalanceBy, Gains, Loses, Store;
    MovesOnItsDate(m, db, o, a, c, Some(day));
    PairMoves(m, db, o, a, c);
  }

  /** And a deal its quantity and its total. */
  lemma DealMovesOn(m: Rounding, db: Db, o: Order, a: Account, c: nat, day: int)
    requires Inv(m, db) && o.DealOrder? && PostOrder(m, db, o).Committed?
    ensures db.registry.base.Some?
    ensures var base := db.registry.base.value;
      var q, t := Signed(o.side, Store(m, o.quantity)), Signed(o.side, Store(m, Times(o.quantity, o.unitPrice)));
      BalanceBy(PostOrder(m, db, o).db, a, c, Some(day)) == BalanceBy(db, a, c, Some(day))
        + if day < o.date then 0.0
          else OnlyFor(a, c, CurrencySide(o), o.currency, q) - OnlyFor(a, c, PositionOf(o.currency), o.currency, q)
               + OnlyFor(a, c, PositionOf(base), base, t) - OnlyFor(a, c, BaseSide(o), base, t)
  {
    hide Inv, PostOrder, Balance, BalanceBy, CurrencySide, BaseSide, Store, Times;
    MovesOnItsDate(m, db, o, a, c, Some(day));
    DealMoves(m, db, o, a, c);
  }

  /** On the screen of debits and credits a pair service adds its amount once to either side of its currency, in every
      period that its date lies in, ends included. */
  lemma PairOnBothSides(m: Rounding, db: Db, o: Order, c: nat, from: Option<int>, to: Option<int>)
    requires Inv(m, db) && IsPair(o) && PostOrder(m, db, o).Committed?
    ensures var db' := PostOrder(m, db, o).db;
      var within := c == o.currency && (from.None? || from.value <= o.date) && (to.None? || o.date <= to.value);
      var x := if within then Abs(Store(m, o.amount)) else 0.0;
      && Total(db', Statements.DebitIn(c, from, to)) == Total(db, Statements.DebitIn(c, from, to)) + x
      && Total(db', Statements.CreditIn(c, from, to)) == Total(db, Statements.CreditIn(c, from, to)) - x
  {
    hide Inv, PostOrder, Total, Gains, Loses, Store;
    var debit, credit := Statements.DebitIn(c, from, to), Statements.CreditIn(c, from, to);
    PostedBalance(m, db, o, debit);
    PostedBalance(m, db, o, credit);
    PairEntries(m, db, o);
    OrderBooked(m, db, o);
    var es := PostOrder(m, db, o).db.vouchers[db.nextId].entries;
    EntrySumTwo(es, debit);
    EntrySumTwo(es, credit);
    assert es[0] in es && es[1] in es;
  }

  // ------------------------------------------------------------------ deals and payments on the allocation form

  /** The voucher `id` is still what posting `o` made of it, but for its status. */
  ghost predicate StillThere(m: Rounding, db: Db, o: Order, db': Db, id: nat) {
    && PostOrder(m, db, o).Committed? && db'.registry == db.registry
    && db.nextId in PostOrder(m, db, o).db.vouchers
    && id in db'.vouchers && db'.vouchers[id].(status := Final) == PostOrder(m, db, o).db.vouchers[db.nextId]
  }

  lemma Kept(m: Rounding, db: Db, o: Order, db': Db, id: nat)
    requires StillThere(m, db, o, db', id)
    ensures var v, v' := PostOrder(m, db, o).db.vouchers[db.nextId], db'.vouchers[id];
      && v'.kind == v.kind && v'.reverses == v.reverses && v'.entries == v.entries && v'.deal == v.deal
  {
    hide PostOrder;
    var v := db'.vouchers[id];
    assert v.(status := Final).kind == v.kind && v.(status := Final).reverses == v.reverses;
    assert v.(status := Final).entries == v.entries && v.(status := Final).deal == v.deal;
  }

  /** A deal can be settled by payments exactly while it is final, if its base amount stayed on the customer, and
      delivered by payments if its currency did. */
  lemma DealOpens(m: Rounding, db: Db, o: Order, db': Db, id: nat)
    requires o.DealOrder? && !o.counterparty.PositionOf? && StillThere(m, db, o, db', id)
    ensures InvoiceOpen(db', Settlement, id) <==> db'.vouchers[id].status == Final && BaseSide(o) == o.counterparty
    ensures InvoiceOpen(db', Delivery, id) <==> db'.vouchers[id].status == Final && CurrencySide(o) == o.counterparty
  {
    hide PostOrder, Store, Times, EntrySum, Ctx, StillThere;
    RegistryKept(m, db, o, db', id);
    Kept(m, db, o, db', id);
    FourEntries(m, db, o);
    var es := db'.vouchers[id].entries;
    var base := db.registry.base.value;
    DealEntered(m, db, o);
    EntrySumFour(es, OnAccount(o.counterparty, base));
    EntrySumFour(es, OnAccount(o.counterparty, o.currency));
    PositiveOrder(m, db, o);
    assert es[0] in es && es[1] in es && es[2] in es && es[3] in es;
    DealKind(m, db, o);
  }

  lemma RegistryKept(m: Rounding, db: Db, o: Order, db': Db, id: nat)
    requires StillThere(m, db, o, db', id)
    ensures db'.registry == db.registry && id in db'.vouchers && PostOrder(m, db, o).Committed?
  {
    hide PostOrder;
  }

  lemma PositiveOrder(m: Rounding, db: Db, o: Order)
    requires o.DealOrder? && PostOrder(m, db, o).Committed?
    ensures Store(m, o.quantity) >= 0.0 && Store(m, Times(o.quantity, o.unitPrice)) >= 0.0
  {
    hide PostError, EntriesOf, Times, DealLines, Store, Apply;
    TimesPositive(o.quantity, o.unitPrice);
    PositiveStays(m, o.quantity);
    PositiveStays(m, Times(o.quantity, o.unitPrice));
  }

  lemma DealKind(m: Rounding, db: Db, o: Order)
    requires o.DealOrder? && PostOrder(m, db, o).Committed?
    ensures var out := PostOrder(m, db, o);
      && db.nextId in out.db.vouchers && out.db.vouchers[db.nextId].kind == DealV
      && out.db.vouchers[db.nextId].reverses.None? && out.db.registry == db.registry
  {
    hide PostError, EntriesOf, Times, DealLines, Store, Apply, DealError;
  }

  /** Receipts, payments and transfers: the kinds of voucher that the allocation forms list. */
  predicate MovesMoney(o: Order) {
    o.CashOrder? || o.TransferOrder? || o.PartyTransferOrder?
  }

  /** Which vouchers of the pair services the two forms list for a deal, while they are final.  A sale is settled by
      what the customer gives in base and delivered by what the customer gets of the currency, a purchase the other
      way round. */
  lemma PairListed(m: Rounding, db: Db, o: Order, db': Db, p: nat, u: Use, d: nat)
    requires IsPair(o) && Gains(o) != Loses(o) && StillThere(m, db, o, db', p) && db'.IsDeal(d)
    ensures PaymentListed(db', u, d, p) <==>
      && db'.vouchers[p].status == Final && MovesMoney(o)
      && (match u
          case Settlement => db.registry.base == Some(o.currency)
          case Delivery => db'.vouchers[d].deal.value.currency == o.currency)
      && db'.vouchers[d].deal.value.counterparty ==
         (match (u, db'.vouchers[d].deal.value.side)
          case (Settlement, Sell) => Loses(o)
          case (Settlement, Buy) => Gains(o)
          case (Delivery, Sell) => Gains(o)
          case (Delivery, Buy) => Loses(o))
  {
    hide PostOrder, Store, EntrySum, Gains, Loses, StillThere;
    RegistryKept(m, db, o, db', p);
    Kept(m, db, o, db', p);
    PairEntries(m, db, o);
    OrderBooked(m, db, o);
    PairPositive(m, db, o);
    var v, deal := db'.vouchers[p], db'.vouchers[d].deal.value;
    if UnitOf(db', u, deal).Some? {
      EntrySumTwo(v.entries, OnAccount(deal.counterparty, UnitOf(db', u, deal).value));
    }
  }

  lemma PairPositive(m: Rounding, db: Db, o: Order)
    requires IsPair(o) && PostOrder(m, db, o).Committed?
    ensures Store(m, o.amount) != 0.0 && (MovesMoney(o) ==> Store(m, o.amount) > 0.0)
    ensures o.CashOrder? ==> o.kind == ReceiveV || o.kind == PayV
  {
    hide Store, StoredBalanced, Balanced, KeyHolder, Ctx;
    var es := EntriesOf(m, OrderRequest(m, o).lines, o.date);
    assert es[0] in es;
    if MovesMoney(o) {
      PositiveStays(m, o.amount);
    }
  }

  lemma FreshlyThere(m: Rounding, db: Db, o: Order, d: nat)
    requires Inv(m, db) && PostOrder(m, db, o).Committed?
    ensures var db' := PostOrder(m, db, o).db;
      && StillThere(m, db, o, db', db.nextId) && db'.vouchers[db.nextId].status == Final
      && (d in db.vouchers ==> d in db'.vouchers && db'.vouchers[d] == db.vouchers[d])
  {
    hide VoucherOk, Linked, Distinct, PostOrder;
    OrderAdds(m, db, o);
  }

  /** Money received from a customer can settle that customer's sales and money paid out the purchases, and
      not the other way round. */
  lemma CashSettles(m: Rounding, db: Db, o: Order, d: nat)
    requires Inv(m, db) && o.CashOrder? && o.party != o.account && PostOrder(m, db, o).Committed?
    requires db.IsDeal(d) && db.vouchers[d].deal.value.counterparty == o.party && Some(o.currency) == db.registry.base
    ensures PaymentListed(PostOrder(m, db, o).db, Settlement, d, db.nextId)
      <==> (o.kind == ReceiveV <==> db.vouchers[d].deal.value.side == Sell)
  {
    hide Inv, PostOrder, PaymentListed;
    FreshlyThere(m, db, o, d);
    PairListed(m, db, o, PostOrder(m, db, o).db, db.nextId, Settlement, d);
    PairPositive(m, db, o);
  }

  /** With deliveries it is the other way round: currency paid out to the customer delivers a sale, and currency
      received a purchase. */
  lemma CashDelivers(m: Rounding, db: Db, o: Order, d: nat)
    requires Inv(m, db) && o.CashOrder? && o.party != o.account && PostOrder(m, db, o).Committed?
    requires db.IsDeal(d) && db.vouchers[d].deal.value.counterparty == o.party
    requires db.vouchers[d].deal.value.currency == o.currency
    ensures PaymentListed(PostOrder(m, db, o).db, Delivery, d, db.nextId)
      <==> (o.kind == PayV <==> db.vouchers[d].deal.value.side == Sell)
  {
    hide Inv, PostOrder, PaymentListed;
    FreshlyThere(m, db, o, d);
    PairListed(m, db, o, PostOrder(m, db, o).db, db.nextId, Delivery, d);
    PairPositive(m, db, o);
  }

  /** Neither a deal nor a reversal is ever listed as a payment. */
  lemma OthersNotListed(m: Rounding, db: Db, op: Op, u: Use, d: nat)
    requires Inv(m, db) && Perform(m, db, op).Committed?
    requires op.VoidOp? || (op.Post? && op.order.DealOrder?)
    ensures !PaymentListed(Step(m, db, op), u, d, db.nextId)
  {
    hide Inv, PostOrder, VoidVoucher, Mirrors;
    match op
    case Post(o) => DealKind(m, db, o);
    case VoidOp(id, reason) =>
      VoidChanges(m, db, id, reason);
      ReversalKept(m, db, id, reason);
  }

  lemma ReversalKept(m: Rounding, db: Db, id: nat, reason: string)
    requires Inv(m, db) && VoidVoucher(m, db, id, reason).Committed?
    ensures var db' := VoidVoucher(m, db, id, reason).db;
      db.nextId in db'.vouchers && db'.vouchers[db.nextId].reverses == Some(id)
  {
    hide Linked, Distinct, VoucherOk, PostError, Unwound, EntriesOf;
  }

  /** What there is to cover of a posted deal: its whole total, and of its quantity either all, or nothing where the
      currency was handed over at once. */
  lemma DealCoverable(m: Rounding, db: Db, o: Order, db': Db, id: nat)
    requires o.DealOrder? && !o.counterparty.PositionOf? && StillThere(m, db, o, db', id)
    ensures db'.IsDeal(id)
    ensures Coverable(db', Settlement, id) == Store(m, Times(o.quantity, o.unitPrice))
    ensures Coverable(db', Delivery, id) == if CurrencySide(o) == o.counterparty then Store(m, o.quantity) else 0.0
  {
    hide PostOrder, Store, Times, EntrySum, Ctx, StillThere;
    RegistryKept(m, db, o, db', id);
    Kept(m, db, o, db', id);
    FourEntries(m, db, o);
    EntrySumFour(db'.vouchers[id].entries, OnAccount(o.counterparty, o.currency));
    DealEntered(m, db, o);
    PositiveOrder(m, db, o);
  }

  /** Exactly which allocations are accepted: at least a quantum and on the grid, of a payment listed for an open deal
      that no earlier one joins to it, leaving the deal covered within its total or its customer's quantity,
      and the payment drawn within its leg for the customer: up to the last quantum of both. */
  lemma AllocationAccepted(m: Rounding, db: Db, u: Use, d: nat, p: nat, x: real)
    requires Safe(db) && db.IsDeal(d)
    ensures Allocate(m, db, u, d, p, x).Committed? <==>
      && x >= 0.00000001 && OnGrid(m, x) && InvoiceOpen(db, u, d) && PaymentListed(db, u, d, p)
      && (d, p) !in (if u.Settlement? then db.settlements else db.deliveries)
      && Covered(db, u, d) + x <= Coverable(db, u, d)
      && var deal := db.vouchers[d].deal.value;
         var c := if u.Settlement? then db.registry.base else Some(deal.currency);
         Used(db, u, p, deal.counterparty, c) + x <= Abs(Leg(db.vouchers[p], deal.counterparty, c))
  {
    hide Covered, Used, OnGrid, Coverable, Leg, InvoiceOpen;
    assert InvoicesSafe(db, u);
  }

  // ------------------------------------------------------------------ undoing and repeating

  /** Posting and then voiding leaves every balance, on every account, currency and cut-off, as it was. */
  lemma PostThenVoid(m: Rounding, db: Db, o: Order, reason: string, w: Entry -> real)
    requires Inv(m, db) && PostOrder(m, db, o).Committed? && !Blank(reason) && Odd(w)
    ensures var posted := PostOrder(m, db, o).db;
      var out := VoidVoucher(m, posted, db.nextId, reason);
      && out.Committed?
      && Total(out.db, w) == Total(db, w)
  {
    hide Inv, PostOrder, Total, VoidVoucher, Odd, Blank, EntrySum;
    var posted := PostOrder(m, db, o).db;
    OrderAdds(m, db, o);
    OrderKeeps(m, db, o);
    NewestFree(m, posted, db.nextId, reason);
    VoidKeeps(m, posted, db.nextId, reason);
    VoidChanges(m, posted, db.nextId, reason);
    PostedBalance(m, db, o, w);
    var out := VoidVoucher(m, posted, db.nextId, reason);
    TotalsAfterVoid(m, posted, out.db, db.nextId, out.db.vouchers[out.id], w);
  }

  /** The newest voucher can be voided. */
  lemma NewestFree(m: Rounding, db: Db, id: nat, reason: string)
    requires Inv(m, db) && id in db.vouchers && db.nextId == id + 1 && db.vouchers[id].status == Final && !Blank(reason)
    ensures VoidError(db, id, reason).None? && Reverser(db.vouchers, db.nextId, id).None?
  {
    hide VoucherOk, Forward, OneToOne, Runs.Distinct, Mirrors, Blank;
    ReverserFinds(db.vouchers, db.nextId, id);
    var r := Reverser(db.vouchers, db.nextId, id);
    assert r.Some? ==> ReversesOk(db.vouchers, r.value, id);
  }

  /** Posting and then deleting leaves the vouchers and allocations exactly as they were, and the inventory
      too unless it was a deal; only the number is used up. */
  lemma PostThenDelete(m: Rounding, db: Db, o: Order)
    requires Inv(m, db) && Safe(db) && PostOrder(m, db, o).Committed?
    ensures var posted := PostOrder(m, db, o).db;
      var out := DeleteVoucher(m, posted, db.nextId);
      && out.Committed?
      && out.db.vouchers == db.vouchers
      && out.db.settlements == db.settlements && out.db.deliveries == db.deliveries
      && (!o.DealOrder? ==> out.db.positions == db.positions)
      && out.db.sequence == db.sequence + 1
  {
    hide VoucherOk, Linked, Distinct, PostOrder, Covered, Used, Unwound;
    OrderAdds(m, db, o);
    var posted := PostOrder(m, db, o).db;
    OrderKeeps(m, db, o);
    NewestFree(m, posted, db.nextId, "x");
    assert RowsJoin(db, Settlement) && RowsJoin(db, Delivery);
    assert posted.vouchers - {db.nextId} == db.vouchers;
    assert Without(posted.settlements, db.nextId) == db.settlements;
    assert Without(posted.deliveries, db.nextId) == db.deliveries;
    if !o.DealOrder? {
      NothingToUnwind(m, db, o);
    }
  }

  lemma NothingToUnwind(m: Rounding, db: Db, o: Order)
    requires PostOrder(m, db, o).Committed? && !o.DealOrder?
    ensures var posted := PostOrder(m, db, o).db;
      && posted.positions == db.positions && db.nextId in posted.vouchers
      && Unwound(m, posted, posted.vouchers[db.nextId]) == db.positions
  {
    hide PostError, EntriesOf, OrderError;
  }

  function KeyOfOrder(o: Order): Option<string> {
    StoredKey(o.key)
  }

  /** Once an external key has been posted, no order with the same key is accepted again: repeating a
      request changes nothing. */
  lemma KeyOnlyOnce(m: Rounding, db: Db, o: Order, again: Order)
    requires Inv(m, db) && PostOrder(m, db, o).Committed?
    requires KeyOfOrder(o).Some? && KeyOfOrder(again) == KeyOfOrder(o)
    ensures var posted := PostOrder(m, db, o).db;
      PostOrder(m, posted, again).Rejected? && Step(m, posted, Post(again)) == posted
  {
    hide Inv, PostOrder;
    var posted := PostOrder(m, db, o).db;
    KeyStored(m, db, o);
    HolderKnown(posted, db.nextId, KeyOfOrder(o).value);
    HeldRefused(m, posted, again);
  }

  /** An order whose key is taken is told the voucher that holds it, before anything is said of its lines. */
  lemma RepeatIsDuplicate(m: Rounding, db: Db, o: Order, id: nat)
    requires Inv(m, db) && id in db.vouchers && KeyOfOrder(o).Some? && db.vouchers[id].key == KeyOfOrder(o)
    requires if o.DealOrder? then DealAllowed(db.registry, o)
             else if o.LinesOrder? then o.lines != [] && (forall a :: a in Named(o) ==> db.registry.Knows(a))
             else PairAllowed(db.registry, o)
    ensures PostOrder(m, db, o) == Rejected(DuplicateKey(id))
  {
    hide KeyHolder, EntriesOf, OrderError, DealError, Apply, Times, Balanced, StoredBalanced, VoucherOk, Linked, DealAllowed,
      PairAllowed, Ctx;
    KeyHolderFinds(db.vouchers, db.nextId, KeyOfOrder(o).value);
    if o.DealOrder? {
      AllowedDeal(db.registry, o);
    } else if IsPair(o) {
      AllowedPair(db.registry, o);
      PairLines(m, o);
    } else {
      NoChecks(db.registry, o);
    }
  }

  lemma NoChecks(g: Registry, o: Order)
    requires o.LinesOrder? && forall a :: a in Named(o) ==> g.Knows(a)
    ensures OrderError(g, o).None?
  {
  }

  lemma KeyStored(m: Rounding, db: Db, o: Order)
    requires PostOrder(m, db, o).Committed?
    ensures var posted := PostOrder(m, db, o).db;
      && posted.nextId == db.nextId + 1
      && db.nextId in posted.vouchers && posted.vouchers[db.nextId].key == KeyOfOrder(o)
  {
    hide PostError, EntriesOf, OrderError, DealError, Apply, DealLines, Times;
  }

  lemma HolderKnown(db: Db, id: nat, key: string)
    requires id in db.vouchers && db.vouchers[id].key == Some(key) && id < db.nextId
    ensures KeyHolder(db.vouchers, db.nextId, key).Some?
  {
    KeyHolderFinds(db.vouchers, db.nextId, key);
  }

  lemma HeldRefused(m: Rounding, db: Db, o: Order)
    requires KeyOfOrder(o).Some? && KeyHolder(db.vouchers, db.nextId, KeyOfOrder(o).value).Some?
    ensures PostOrder(m, db, o).Rejected?
  {
    hide KeyHolder, EntriesOf, OrderError, DealError, Apply, DealLines, Times, Balanced, StoredBalanced;
  }
}
