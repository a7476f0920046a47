/** The net worth snapshot, and by exactly what it differs from the profit report. */
module NetWorth {
  import opened Algebra
  import opened Amounts
  import opened Inventory
  import opened Books
  import opened Context
  import opened Allocation
  import opened Runs
  import opened Chains
  import opened Sums
  import opened InventoryBooks
  import opened Reports
  import opened Sorting
  import Effects

  // ------------------------------------------------------------------ the snapshot

  function OfKind(g: Registry, kinds: set<PartyKind>, c: nat): Entry -> real {
    (e: Entry) => if g.Knows(e.party) && g.Info(e.party).kind in kinds && e.currency == c then e.amount else 0.0
  }

  const HOUSE: set<PartyKind> := {Bank, Cashbox}
  const CUSTOMERS: set<PartyKind> := {Customer}
  const INTERNAL: set<PartyKind> := {ExpenseKind, IncomeKind, EquityKind}

  function Holding(db: Db, kinds: set<PartyKind>, c: nat): real {
    Total(db, OfKind(db.registry, kinds, c))
  }

  /** The rate of a currency in base: one for base itself, the latest known one for any other. */
  function RateOf(g: Registry, rates: map<nat, real>, c: nat): Option<real> {
    if Some(c) == g.base then Some(1.0) else RateAt(rates, c)
  }

  predicate Counted(g: Registry, rates: map<nat, real>, c: nat) {
    g.Active(c) && RateOf(g, rates, c).Some?
  }

  function NetTerm(db: Db, rates: map<nat, real>): nat -> real {
    (c: nat) => if Counted(db.registry, rates, c)
                then Times(Holding(db, HOUSE, c) + Holding(db, CUSTOMERS, c), RateOf(db.registry, rates, c).value)
                else 0.0
  }

  datatype NetRow = NetRow(currency: nat, house: real, customers: real, net: real, rate: Option<real>,
                           baseValue: Option<real>)

  ghost predicate ShowsHolding(r: NetRow, db: Db, rates: map<nat, real>) {
    && r.house == Holding(db, HOUSE, r.currency) && r.customers == Holding(db, CUSTOMERS, r.currency)
    && r.net == r.house + r.customers && r.rate == RateOf(db.registry, rates, r.currency)
    && r.baseValue == if r.rate.Some? then Some(Times(r.net, r.rate.value)) else None
  }

  ghost predicate Listed(rows: seq<NetRow>, c: nat) {
    exists i :: 0 <= i < |rows| && rows[i].currency == c
  }

  lemma ListedMore(rows: seq<NetRow>, r: NetRow)
    ensures forall c: nat :: Listed(rows + [r], c) <==> Listed(rows, c) || c == r.currency
  {
    forall c: nat
      ensures Listed(rows + [r], c) <==> Listed(rows, c) || c == r.currency
    {
      assert (rows + [r])[|rows|] == r;
      if Listed(rows, c) {
        var i :| 0 <= i < |rows| && rows[i].currency == c;
        assert (rows + [r])[i].currency == c;
      }
    }
  }

  ghost predicate Unrated(db: Db, rates: map<nat, real>, c: nat) {
    && c in db.registry.currencies && db.registry.currencies[c] && RateOf(db.registry, rates, c).None?
    && Holding(db, HOUSE, c) + Holding(db, CUSTOMERS, c) != 0.0
  }

  /** Currencies go by sort order, and by code where that is the same. */
  function ByOrderAndCode(order: nat -> int, code: nat -> int): (NetRow, NetRow) -> bool {
    (x: NetRow, y: NetRow) =>
      order(x.currency) < order(y.currency) ||
      (order(x.currency) == order(y.currency) && code(x.currency) <= code(y.currency))
  }

  /** The currencies with a balance and no rate, in the order of the rows. */
  function MissingRates(rows: seq<NetRow>): seq<nat> {
    if rows == [] then []
    else
      var row := rows[|rows| - 1];
      MissingRates(rows[..|rows| - 1]) + if row.baseValue.None? && row.net != 0.0 then [row.currency] else []
  }

  lemma {:induction false} MissingRows(rows: seq<NetRow>, c: nat)
    ensures c in MissingRates(rows) <==> exists r :: r in rows && r.currency == c && r.baseValue.None? && r.net != 0.0
  {
    if rows == [] {
    } else {
      MissingRows(rows[..|rows| - 1], c);
      assert rows == rows[..|rows| - 1] + [rows[|rows| - 1]];
    }
  }

  /** One row for each active currency below `n`. */
  ghost predicate RowsOfActive(rows: seq<NetRow>, db: Db, rates: map<nat, real>, n: nat) {
    && NoRepeats(rows)
    && (forall r :: r in rows ==> ShowsHolding(r, db, rates))
    && (forall c: nat :: Listed(rows, c) <==> c < n && c in db.registry.currencies && db.registry.currencies[c])
  }

  /** Cash and bank balances plus what customers owe, of every active currency, valued at the rates given.
      Currencies are numbered below `n`. */
  method NetWorthSnapshot(db: Db, rates: map<nat, real>, order: nat -> int, code: nat -> int, n: nat)
    returns (rows: seq<NetRow>, grandTotal: real, missing: seq<nat>)
    ensures RowsOfActive(rows, db, rates, n) && InCodeOrder(rows, order, code)
    ensures grandTotal == Sum(n, NetTerm(db, rates))
    ensures missing == MissingRates(rows)
    ensures forall c: nat :: c in missing <==> c < n && Unrated(db, rates, c)
  {
    hide Holding, RateOf, Times, Sort, InCodeOrder, RowsOfActive, MissingRates, Unrated;
    var found: seq<NetRow> := [];
    grandTotal := 0.0;
    NoRows(db, rates);
    for c := 0 to n
      invariant RowsOfActive(found, db, rates, c)
      invariant grandTotal == Sum(c, NetTerm(db, rates))
    {
      var house, customers := Holding(db, HOUSE, c), Holding(db, CUSTOMERS, c);
      var net, rate := house + customers, RateOf(db.registry, rates, c);
      var row := NetRow(c, house, customers, net, rate, if rate.Some? then Some(Times(net, rate.value)) else None);
      OneMoreHolding(found, row, db, rates);
      if db.registry.Active(c) {
        if row.baseValue.Some? {
          grandTotal := grandTotal + row.baseValue.value;
        }
        found := found + [row];
      }
    }
    rows := Sort(found, ByOrderAndCode(order, code));
    HoldingsSorted(found, db, rates, order, code, n);
    missing := MissingRates(rows);
  }

  lemma NoRows(db: Db, rates: map<nat, real>)
    ensures RowsOfActive([], db, rates, 0)
  {
  }

  lemma OneMoreHolding(rows: seq<NetRow>, row: NetRow, db: Db, rates: map<nat, real>)
    requires RowsOfActive(rows, db, rates, row.currency) && ShowsHolding(row, db, rates)
    ensures RowsOfActive(if db.registry.Active(row.currency) then rows + [row] else rows, db, rates, row.currency + 1)
  {
    hide Holding, RateOf, Times, Listed, ShowsHolding;
    ListedMore(rows, row);
    assert row in rows ==> Listed(rows, row.currency) by { ListedIn(rows, row); }
  }

  lemma ListedIn(rows: seq<NetRow>, row: NetRow)
    ensures row in rows ==> Listed(rows, row.currency)
  {
    if row in rows {
      var i :| 0 <= i < |rows| && rows[i] == row;
      assert rows[i].currency == row.currency;
    }
  }

  lemma HoldingsSorted(rows: seq<NetRow>, db: Db, rates: map<nat, real>, order: nat -> int, code: nat -> int, n: nat)
    requires RowsOfActive(rows, db, rates, n)
    ensures var sorted := Sort(rows, ByOrderAndCode(order, code));
      && RowsOfActive(sorted, db, rates, n) && InCodeOrder(sorted, order, code)
      && forall c: nat :: c in MissingRates(sorted) <==> c < n && Unrated(db, rates, c)
  {
    CodeOrderMeans(Sort(rows, ByOrderAndCode(order, code)), order, code);
    hide Sort, Stable, Sorted, Holding, RateOf, Times, MissingRates, ByOrderAndCode, InCodeOrder;
    CodesPreorder(order, code);
    SortSound(rows, ByOrderAndCode(order, code));
    SortNoRepeats(rows, ByOrderAndCode(order, code));
    var sorted := Sort(rows, ByOrderAndCode(order, code));
    forall c: nat
      ensures Listed(sorted, c) <==> Listed(rows, c)
      ensures c in MissingRates(sorted) <==> c < n && Unrated(db, rates, c)
    {
      SameListed(rows, sorted, c);
      SameListed(sorted, rows, c);
      MissingRows(sorted, c);
      if Listed(sorted, c) {
        var i :| 0 <= i < |sorted| && sorted[i].currency == c;
        assert sorted[i] in sorted && ShowsHolding(sorted[i], db, rates);
      }
      assert (exists r :: r in sorted && r.currency == c) ==> Listed(sorted, c) by {
        if exists r :: r in sorted && r.currency == c {
          var r :| r in sorted && r.currency == c;
          ListedIn(sorted, r);
        }
      }
    }
  }

  lemma SameListed(a: seq<NetRow>, b: seq<NetRow>, c: nat)
    requires forall r :: r in a ==> r in b
    ensures Listed(a, c) ==> Listed(b, c)
  {
    if Listed(a, c) {
      var i :| 0 <= i < |a| && a[i].currency == c;
      assert a[i] in b;
      ListedIn(b, a[i]);
    }
  }

  /** The later row has no smaller sort order, and with the same one no smaller code. */
  ghost predicate InCodeOrder(rows: seq<NetRow>, order: nat -> int, code: nat -> int) {
    forall i, j :: 0 <= i < j < |rows| ==>
      var x, y := rows[i].currency, rows[j].currency;
      order(x) <= order(y) && (order(x) == order(y) ==> code(x) <= code(y))
  }

  lemma CodeOrderMeans(rows: seq<NetRow>, order: nat -> int, code: nat -> int)
    ensures Sorted(rows, ByOrderAndCode(order, code)) ==> InCodeOrder(rows, order, code)
  {
  }

  lemma CodesPreorder(order: nat -> int, code: nat -> int)
    ensures Preorder(ByOrderAndCode(order, code))
  {
  }

  // ------------------------------------------------------------------ what moves the two columns

  function OfThese(g: Registry, kinds: set<PartyKind>, a: Account): bool {
    g.Knows(a) && g.Info(a).kind in kinds
  }

  /** A pair service moves its amount, as stored, into the holdings of the accounts it goes to and out of those it comes
      from. */
  lemma HoldingMoves(m: Rounding, db: Db, o: Order, kinds: set<PartyKind>, c: nat)
    requires Inv(m, db) && Effects.IsPair(o) && PostOrder(m, db, o).Committed?
    ensures Holding(PostOrder(m, db, o).db, kinds, c) == Holding(db, kinds, c)
      + (if c == o.currency && OfThese(db.registry, kinds, Effects.Gains(o)) then Store(m, o.amount) else 0.0)
      - (if c == o.currency && OfThese(db.registry, kinds, Effects.Loses(o)) then Store(m, o.amount) else 0.0)
  {
    hide Inv, PostOrder, Total, Store;
    var w := OfKind(db.registry, kinds, c);
    Effects.PostedBalance(m, db, o, w);
    Effects.PairEntries(m, db, o);
    Effects.EntrySumTwo(PostOrder(m, db, o).db.vouchers[db.nextId].entries, w);
    OrderAdds(m, db, o);
  }

  /** Money received from a customer at a bank or cash box moves from the customers' column of the snapshot to the
      house's, money paid out back, and a transfer between customers moves neither. */
  lemma CashMovesColumns(m: Rounding, db: Db, o: Order)
    requires Inv(m, db) && PostOrder(m, db, o).Committed?
    requires o.CashOrder? || o.PartyTransferOrder?
    ensures var db', x, c := PostOrder(m, db, o).db, Store(m, o.amount), o.currency;
      && (o.CashOrder? && db.registry.Info(o.party).kind == Customer && db.registry.Info(o.account).kind in {Bank, Cashbox} ==>
            var received := if o.kind == ReceiveV then x else -x;
            && Holding(db', HOUSE, c) == Holding(db, HOUSE, c) + received
            && Holding(db', CUSTOMERS, c) == Holding(db, CUSTOMERS, c) - received)
      && (o.PartyTransferOrder? && db.registry.Info(o.source).kind == db.registry.Info(o.target).kind == Customer ==>
            Holding(db', HOUSE, c) == Holding(db, HOUSE, c) && Holding(db', CUSTOMERS, c) == Holding(db, CUSTOMERS, c))
  {
    hide Inv, PostOrder, Total, Store, Holding;
    KnownAccounts(m, db, o);
    HoldingMoves(m, db, o, HOUSE, o.currency);
    HoldingMoves(m, db, o, CUSTOMERS, o.currency);
  }

  lemma KnownAccounts(m: Rounding, db: Db, o: Order)
    requires PostOrder(m, db, o).Committed?
    ensures forall a :: a in Named(o) ==> db.registry.Knows(a)
  {
  }

  // ------------------------------------------------------------------ figures of the reports

  /** What a deal adds to sales minus purchases minus realised profit. */
  function MarginOf(): Deal -> real {
    (d: Deal) => if d.side.Sell? then d.total - d.realized else -d.total
  }

  lemma WeightAfter(m: Rounding, db: Db, db': Db, ch: Change, f: Deal -> real)
    requires Inv(m, db) && Applied(db, db', ch)
    ensures Sum(db'.nextId, DealWeight(db'.vouchers, f)) - Sum(db.nextId, DealWeight(db.vouchers, f)) ==
      match ch
      case Untouched => 0.0
      case Added(v) => DealWeight(map[0 := v], f)(0)
      case Reversing(id, _) => 0.0
      case Removed(id) => -DealWeight(db.vouchers, f)(id)
  {
    hide VoucherOk, Linked, Distinct, Mirrors;
    var w, w', n := DealWeight(db.vouchers, f), DealWeight(db'.vouchers, f), db.nextId;
    match ch
    case Untouched => SumEqual(n, w, w');
    case Added(v) => SumEqual(n, w, w');
    case Reversing(id, rev) => SumEqual(n, w, w');
    case Removed(id) =>
      assert id < n;
      SumUpdate(n, w, w', id);
  }

  /** Every figure of the reports: posting a deal adds it, voiding changes nothing (a voided deal is
      still reported), and deleting takes out exactly the deal. */
  lemma ReportsAfter(m: Rounding, db: Db, op: Op, f: Deal -> real)
    requires Inv(m, db)
    ensures var db' := Step(m, db, op);
      DealSum(DealsOf(db'.vouchers, db'.nextId), f) - DealSum(DealsOf(db.vouchers, db.nextId), f) ==
        match ChangeOf(m, db, op)
        case Untouched => 0.0
        case Added(v) => DealWeight(map[0 := v], f)(0)
        case Reversing(id, _) => 0.0
        case Removed(id) => -DealWeight(db.vouchers, f)(id)
  {
    hide Inv, Step, ChangeOf, Applied, DealSum, DealWeight;
    var db' := Step(m, db, op);
    StepChanges(m, db, op);
    WeightAfter(m, db, db', ChangeOf(m, db, op), f);
    DealsByVoucher(db.vouchers, db.nextId, f);
    DealsByVoucher(db'.vouchers, db'.nextId, f);
  }

  lemma WeightOfOne(v: Voucher, f: Deal -> real)
    ensures DealWeight(map[0 := v], f)(0) == if v.status != Draft && v.deal.Some? then f(v.deal.value) else 0.0
  {
  }

  // ------------------------------------------------------------------ deals in force and voided deals

  /** The vouchers of one status. */
  ghost function Having(vs: map<nat, Voucher>, status: Status): map<nat, Voucher> {
    map id | id in vs && vs[id].status == status :: vs[id]
  }

  /** A figure summed over the deals whose voucher has this status. */
  ghost function SumOf(db: Db, status: Status, f: Deal -> real): real {
    DealSum(DealsOf(Having(db.vouchers, status), db.nextId), f)
  }

  /** What the reports show is what is in force and what was voided. */
  lemma ReportedSplit(db: Db, f: Deal -> real)
    ensures DealSum(DealsOf(db.vouchers, db.nextId), f) == SumOf(db, Final, f) + SumOf(db, Void, f)
  {
    hide DealSum;
    var vs, n := db.vouchers, db.nextId;
    DealsByVoucher(vs, n, f);
    DealsByVoucher(Having(vs, Final), n, f);
    DealsByVoucher(Having(vs, Void), n, f);
    SumPlus(n, DealWeight(Having(vs, Final), f), DealWeight(Having(vs, Void), f), DealWeight(vs, f));
  }

  lemma InForceReported(db: Db, d: Deal)
    requires d in DealsOf(Having(db.vouchers, Final), db.nextId)
    ensures d in DealsOf(db.vouchers, db.nextId)
  {
    DealsAreReported(Having(db.vouchers, Final), db.nextId, d);
    DealsAreReported(db.vouchers, db.nextId, d);
  }

  lemma InForceWeights(m: Rounding, db: Db, db': Db, ch: Change, f: Deal -> real)
    requires Inv(m, db) && Applied(db, db', ch)
    ensures Sum(db'.nextId, DealWeight(Having(db'.vouchers, Final), f))
      - Sum(db.nextId, DealWeight(Having(db.vouchers, Final), f)) ==
      match ch
      case Untouched => 0.0
      case Added(v) => DealWeight(map[0 := v], f)(0)
      case Reversing(id, _) => -DealWeight(db.vouchers, f)(id)
      case Removed(id) => -DealWeight(db.vouchers, f)(id)
  {
    hide Inv, Sum;
    var w, w', n := DealWeight(Having(db.vouchers, Final), f), DealWeight(Having(db'.vouchers, Final), f), db.nextId;
    match ch
    case Untouched => SumEqual(n, w, w');
    case Added(v) =>
      hide Having;
      AddedWeights(m, db, db', v, f);
    case Reversing(id, rev) =>
      TakenWeights(m, db, db', ch, id, f);
      SumUpdate(n, w, w', id);
    case Removed(id) =>
      TakenWeights(m, db, db', ch, id, f);
      SumUpdate(n, w, w', id);
  }

  lemma AddedWeights(m: Rounding, db: Db, db': Db, v: Voucher, f: Deal -> real)
    requires Inv(m, db) && Applied(db, db', Added(v))
    ensures Sum(db'.nextId, DealWeight(Having(db'.vouchers, Final), f))
      == Sum(db.nextId, DealWeight(Having(db.vouchers, Final), f)) + DealWeight(map[0 := v], f)(0)
  {
    hide VoucherOk, Linked, Distinct, Mirrors;
    SumEqual(db.nextId, DealWeight(Having(db.vouchers, Final), f), DealWeight(Having(db'.vouchers, Final), f));
  }

  /** A void or a delete changes the weight of its own deal only, which becomes nothing. */
  lemma TakenWeights(m: Rounding, db: Db, db': Db, ch: Change, id: nat, f: Deal -> real)
    requires Inv(m, db) && Applied(db, db', ch)
    requires match ch case Reversing(j, _) => j == id case Removed(j) => j == id case _ => false
    ensures id < db.nextId && db.nextId <= db'.nextId
    ensures forall i :: 0 <= i < db.nextId && i != id ==>
      DealWeight(Having(db'.vouchers, Final), f)(i) == DealWeight(Having(db.vouchers, Final), f)(i)
    ensures DealWeight(Having(db'.vouchers, Final), f)(id) == 0.0
    ensures DealWeight(Having(db.vouchers, Final), f)(id) == DealWeight(db.vouchers, f)(id)
    ensures Sum(db'.nextId, DealWeight(Having(db'.vouchers, Final), f))
      == Sum(db.nextId, DealWeight(Having(db'.vouchers, Final), f))
  {
    hide VoucherOk, Linked, Distinct, Mirrors;
  }

  /** Posting a deal puts it in force; voiding and deleting take it out. */
  lemma InForceAfter(m: Rounding, db: Db, db': Db, ch: Change, f: Deal -> real)
    requires Inv(m, db) && Applied(db, db', ch)
    ensures SumOf(db', Final, f) - SumOf(db, Final, f) ==
      match ch
      case Untouched => 0.0
      case Added(v) => DealWeight(map[0 := v], f)(0)
      case Reversing(id, _) => -DealWeight(db.vouchers, f)(id)
      case Removed(id) => -DealWeight(db.vouchers, f)(id)
  {
    hide Inv, Applied, DealSum, DealWeight, Having, Sum;
    InForceWeights(m, db, db', ch, f);
    DealsByVoucher(Having(db.vouchers, Final), db.nextId, f);
    DealsByVoucher(Having(db'.vouchers, Final), db'.nextId, f);
  }

  // ------------------------------------------------------------------ where rows and deals belong

  /** Accounts are known, and a position account holds its own currency only. */
  ghost predicate Home(g: Registry, es: seq<Entry>) {
    forall e :: e in es ==> g.Knows(e.party) && (e.party.PositionOf? ==> e.party.owned == e.currency)
  }

  /** Only active currencies other than base are traded. */
  ghost predicate Traded(g: Registry, v: Voucher) {
    v.deal.Some? ==> g.Active(v.deal.value.currency) && g.base.Some? && v.deal.value.currency != g.base.value
  }

  ghost predicate Placed(db: Db) {
    forall id :: id in db.vouchers ==>
      Home(db.registry, db.vouchers[id].entries) && Traded(db.registry, db.vouchers[id])
  }

  lemma DealLineHome(m: Rounding, g: Registry, o: Order, base: nat, i: nat)
    requires o.DealOrder? && (forall a :: a in Named(o) ==> g.Knows(a) && !a.PositionOf?) && i < |DealLines(m, o, base)|
    ensures var l := DealLines(m, o, base)[i];
      g.Knows(l.party) && (l.party.PositionOf? ==> l.party.owned == l.currency)
  {
    hide Times, Ctx;
    var currencySide := if o.delivery.Some? then o.delivery.value else o.counterparty;
    var baseSide := if o.settle.Some? then o.settle.value else o.counterparty;
    assert currencySide in Named(o) && baseSide in Named(o);
  }

  lemma OrderPlaced(m: Rounding, g: Registry, o: Order, r: Request, number: nat)
    requires forall a :: a in Named(o) ==> g.Knows(a) && !a.PositionOf?
    requires forall l :: l in r.lines ==> g.Knows(l.party) && (l.party.PositionOf? ==> l.party.owned == l.currency)
    ensures Home(g, VoucherOf(m, r, number).entries)
  {
    hide Store;
    var v := VoucherOf(m, r, number);
    forall e | e in v.entries
      ensures g.Knows(e.party) && (e.party.PositionOf? ==> e.party.owned == e.currency)
    {
      var i :| 0 <= i < |v.entries| && v.entries[i] == e;
      assert r.lines[i] in r.lines;
    }
  }

  lemma PostedPlaced(m: Rounding, db: Db, o: Order)
    requires PostOrder(m, db, o).Committed? && Tidy(Post(o)) && Placed(db)
    ensures Placed(PostOrder(m, db, o).db)
  {
    hide PostError, EntriesOf, Times, DealLines, OrderError, Store, Apply, Home;
    if o.DealOrder? {
      var base := db.registry.base.value;
      var fill := Apply(m, db.PositionRow(o.currency), o.side, o.quantity, o.unitPrice);
      var r := DealRequest(m, o, base, fill.avgAtTime, fill.realized);
      forall l | l in r.lines
        ensures db.registry.Knows(l.party) && (l.party.PositionOf? ==> l.party.owned == l.currency)
      {
        var i :| 0 <= i < |r.lines| && r.lines[i] == l;
        DealLineHome(m, db.registry, o, base, i);
      }
      OrderPlaced(m, db.registry, o, r, db.sequence + 1);
    } else {
      PairHome(m, db.registry, o);
      OrderPlaced(m, db.registry, o, OrderRequest(m, o), db.sequence + 1);
    }
  }

  lemma PairHome(m: Rounding, g: Registry, o: Order)
    requires !o.DealOrder? && forall a :: a in Named(o) ==> g.Knows(a) && !a.PositionOf?
    ensures forall l :: l in OrderRequest(m, o).lines ==> g.Knows(l.party) && !l.party.PositionOf?
    ensures OrderRequest(m, o).deal.None?
  {
    hide Ctx;
    forall l | l in OrderRequest(m, o).lines
      ensures g.Knows(l.party) && !l.party.PositionOf?
    {
      assert l.party in Named(o) || l.party == OpeningEquity;
    }
  }

  lemma MirrorHome(g: Registry, es: seq<Entry>, es0: seq<Entry>)
    requires Home(g, es0) && Mirrors(es, es0)
    ensures Home(g, es)
  {
    forall e | e in es
      ensures g.Knows(e.party) && (e.party.PositionOf? ==> e.party.owned == e.currency)
    {
      var i :| 0 <= i < |es| && es[i] == e;
      assert es0[i] in es0;
    }
  }

  lemma PlacedStep(m: Rounding, db: Db, op: Op)
    requires Inv(m, db) && Placed(db) && Tidy(op)
    ensures Placed(Step(m, db, op))
  {
    hide Inv, Home, PostOrder, VoidVoucher, Unwound, CanAllocate, Tidy, Mirrors, Registry.Active;
    StepChanges(m, db, op);
    match op
    case Post(o) =>
      if PostOrder(m, db, o).Committed? {
        PostedPlaced(m, db, o);
      }
    case VoidOp(id, reason) =>
      if VoidVoucher(m, db, id, reason).Committed? {
        var db' := Step(m, db, op);
        VoidChanges(m, db, id, reason);
        MirrorHome(db.registry, db'.vouchers[db.nextId].entries, db.vouchers[id].entries);
      }
    case DeleteOp(id) =>
    case AllocateOp(_, _, _, _) =>
  }

  lemma {:induction false} PlacedRun(m: Rounding, g: Registry, ops: seq<Op>)
    requires forall i :: 0 <= i < |ops| ==> Tidy(ops[i])
    ensures Placed(Run(m, g, ops))
  {
    hide Inv, Step, Placed, Tidy;
    if ops == [] {
      NothingPlaced(g);
    } else {
      PlacedRun(m, g, ops[..|ops| - 1]);
      Reachable(m, g, ops[..|ops| - 1]);
      PlacedStep(m, Run(m, g, ops[..|ops| - 1]), ops[|ops| - 1]);
    }
  }

  lemma NothingPlaced(g: Registry)
    ensures Placed(Empty(g))
  {
  }

  // ------------------------------------------------------------------ all accounts of one currency

  ghost predicate NoSparePositions(g: Registry) {
    forall id :: id in g.parties ==> g.parties[id].kind != PositionKind
  }

  lemma KindsPartition(g: Registry, e: Entry, c: nat)
    requires NoSparePositions(g) && g.Knows(e.party) && (e.party.PositionOf? ==> e.party.owned == e.currency)
    ensures InCurrency(c)(e) == OfKind(g, HOUSE, c)(e) + OfKind(g, CUSTOMERS, c)(e) + OfKind(g, INTERNAL, c)(e)
      + PositionBalance(c)(e)
  {
    match e.party
    case PositionOf(x) =>
    case OpeningEquity =>
    case Registered(id) =>
      assert g.parties[id].kind in HOUSE + CUSTOMERS + INTERNAL;
  }

  lemma {:induction false} KindsOfEntries(g: Registry, es: seq<Entry>, c: nat)
    requires NoSparePositions(g) && Home(g, es)
    ensures EntrySum(es, InCurrency(c)) == EntrySum(es, OfKind(g, HOUSE, c)) + EntrySum(es, OfKind(g, CUSTOMERS, c))
      + EntrySum(es, OfKind(g, INTERNAL, c)) + EntrySum(es, PositionBalance(c))
  {
    hide Registry.Knows, Registry.Info;
    if es == [] {
    } else {
      KindsOfEntries(g, es[..|es| - 1], c);
      KindsPartition(g, es[|es| - 1], c);
    }
  }

  /** What the house and its customers hold in a currency is what the other accounts hold against it. */
  lemma HoldingsVanish(m: Rounding, db: Db, c: nat)
    requires Inv(m, db) && Placed(db) && NoSparePositions(db.registry)
    ensures Holding(db, HOUSE, c) + Holding(db, CUSTOMERS, c)
      == -Holding(db, INTERNAL, c) - Total(db, PositionBalance(c))
  {
    hide Linked, Distinct, Traded, NoSparePositions, EntrySum, OfKind;
    var vs, n, g := db.vouchers, db.nextId, db.registry;
    var h, k, i, p := OfKind(g, HOUSE, c), OfKind(g, CUSTOMERS, c), OfKind(g, INTERNAL, c), PositionBalance(c);
    var rest := (id: nat) => -PostedTerm(vs, i)(id) - PostedTerm(vs, p)(id);
    var neg := (id: nat) => -PostedTerm(vs, i)(id);
    var negp := (id: nat) => -PostedTerm(vs, p)(id);
    var both := (id: nat) => PostedTerm(vs, h)(id) + PostedTerm(vs, k)(id);
    forall id: nat | id < n
      ensures both(id) == rest(id)
    {
      if id in vs {
        assert Home(g, vs[id].entries) && VoucherOk(m, vs[id], db.sequence);
        assert EntrySum(vs[id].entries, InCurrency(c)) == 0.0;
        KindsOfEntries(g, vs[id].entries, c);
        assert EntrySum(vs[id].entries, h) + EntrySum(vs[id].entries, k)
            == -EntrySum(vs[id].entries, i) - EntrySum(vs[id].entries, p);
      }
      assert PostedTerm(vs, h)(id) + PostedTerm(vs, k)(id) == -PostedTerm(vs, i)(id) - PostedTerm(vs, p)(id);
      assert both(id) == PostedTerm(vs, h)(id) + PostedTerm(vs, k)(id);
      assert rest(id) == -PostedTerm(vs, i)(id) - PostedTerm(vs, p)(id);
    }
    SumEqual(n, both, rest);
    SumPlus(n, PostedTerm(vs, h), PostedTerm(vs, k), both);
    SumPlus(n, neg, negp, rest);
    NegatedTerm(n, PostedTerm(vs, i), neg);
    NegatedTerm(n, PostedTerm(vs, p), negp);
  }

  // ------------------------------------------------------------------ the position accounts by deals

  /** What the position account of `c` holds of one deal. */
  function EffectOf(base: Option<nat>, c: nat): Deal -> real {
    (d: Deal) => if Some(c) == base then Signed(d.side, d.total)
                 else if d.currency == c then -Signed(d.side, d.quantity)
                 else 0.0
  }

  /** Each position account holds one amount per deal in force, and what undone reversals put back. */
  lemma PositionsByDeals(m: Rounding, g: Registry, ops: seq<Op>, c: nat)
    requires forall i :: 0 <= i < |ops| ==> Tidy(ops[i])
    ensures var db := Run(m, g, ops);
      Total(db, PositionBalance(c)) == SumOf(db, Final, EffectOf(g.base, c)) + Reinstated(db, PositionBalance(c))
  {
    hide Run, Inv, EntrySum, PositionsTidy, DealSum, Tidy;
    TidyRun(m, g, ops);
    Reachable(m, g, ops);
    BooksAreInForce(m, g, ops, PositionBalance(c));
    InForceByDeals(m, Run(m, g, ops), c);
  }

  lemma InForceByDeals(m: Rounding, db: Db, c: nat)
    requires Inv(m, db) && PositionsTidy(db)
    ensures InForceTotal(db, PositionBalance(c))
      == SumOf(db, Final, EffectOf(db.registry.base, c)) + Reinstated(db, PositionBalance(c))
  {
    hide VoucherOk, Distinct, Mirrors, EntrySum, DealSum;
    var vs, n, w := db.vouchers, db.nextId, PositionBalance(c);
    var f := DealWeight(Having(vs, Final), EffectOf(db.registry.base, c));
    DealsByVoucher(Having(vs, Final), n, EffectOf(db.registry.base, c));
    forall i: nat | i < n
      ensures InForceTerm(vs, w)(i) == f(i) + ReinstatedTerm(vs, w)(i)
    {
      if i in vs && vs[i].reverses.Some? {
        assert ReversesOk(vs, i, vs[i].reverses.value);
      }
    }
    SumPlus(n, f, ReinstatedTerm(vs, w), InForceTerm(vs, w));
  }

  function SignedQuantity(): Deal -> real {
    (d: Deal) => Signed(d.side, d.quantity)
  }

  /** Stock, by the deals in force. */
  lemma StockByDeals(m: Rounding, g: Registry, ops: seq<Op>, c: nat)
    requires forall i :: 0 <= i < |ops| ==> GridDeals(m, ops[i])
    ensures var db := Run(m, g, ops);
      db.PositionRow(c).quantity == SumOf(db, Final, KeyedBy(CurrencyOf(), c, SignedQuantity()))
  {
    hide Run, DealSum, GridDeals, OnGrid;
    var db := Run(m, g, ops);
    StockIsBoughtMinusSold(m, g, ops, c);
    var vs, f := Having(db.vouchers, Final), KeyedBy(CurrencyOf(), c, SignedQuantity());
    SumEqual(db.nextId, DealTerm(db.vouchers, c), DealWeight(vs, f));
    DealsByVoucher(vs, db.nextId, f);
  }

  // ------------------------------------------------------------------ net worth against profit

  /** The expense, income and equity accounts at the same rates. */
  function InternalTerm(db: Db, rates: map<nat, real>): nat -> real {
    (c: nat) => if Counted(db.registry, rates, c)
                then Times(Holding(db, INTERNAL, c), RateOf(db.registry, rates, c).value) else 0.0
  }

  /** What undone reversals put back into the position accounts, at the same rates. */
  ghost function ReinstatedValue(db: Db, rates: map<nat, real>): nat -> real {
    (c: nat) => if Counted(db.registry, rates, c)
                then Times(Reinstated(db, PositionBalance(c)), RateOf(db.registry, rates, c).value) else 0.0
  }

  function Margins(c: nat): Deal -> real {
    KeyedBy(CurrencyOf(), c, MarginOf())
  }

  /** What the deals in force of a currency leave unexplained by its stock: sales minus purchases minus realised
      profit plus what the stock cost. */
  ghost function DriftOf(db: Db): nat -> real {
    (c: nat) => SumOf(db, Final, Margins(c)) + Value(db.PositionRow(c))
  }

  /** Every currency that was traded has a rate, base counts as active, and ids stay below `n`. */
  ghost predicate Rated(db: Db, rates: map<nat, real>, n: nat) {
    && (forall d :: d in DealsOf(db.vouchers, db.nextId) ==> d.currency in rates && d.currency < n)
    && db.registry.base.Some? && db.registry.Active(db.registry.base.value) && db.registry.base.value < n
  }

  function Revenue(): Deal -> real {
    (d: Deal) => -Signed(d.side, d.total)
  }

  lemma DealTraded(db: Db, d: Deal)
    requires Placed(db) && d in DealsOf(Having(db.vouchers, Final), db.nextId)
    ensures db.registry.Active(d.currency) && Some(d.currency) != db.registry.base
  {
    hide Home;
    DealsAreReported(Having(db.vouchers, Final), db.nextId, d);
    var id: nat :| id < db.nextId && id in db.vouchers && db.vouchers[id].deal == Some(d);
    assert Traded(db.registry, db.vouchers[id]);
  }

  lemma NegatedDeals(ds: seq<Deal>, f: Deal -> real, g: Deal -> real)
    requires forall d :: d in ds ==> g(d) == -f(d)
    ensures DealSum(ds, g) == -DealSum(ds, f)
  {
    var zero := (d: Deal) => 0.0;
    DealSumPlus(ds, f, g, zero);
    DealSumZero(ds, zero);
  }

  /** The facts one currency's share rests on. */
  ghost predicate Grounded(db: Db, rates: map<nat, real>, n: nat, c: nat) {
    && Placed(db) && Rated(db, rates, n)
    && Holding(db, HOUSE, c) + Holding(db, CUSTOMERS, c) == -Holding(db, INTERNAL, c) - Total(db, PositionBalance(c))
    && Total(db, PositionBalance(c)) == SumOf(db, Final, EffectOf(db.registry.base, c)) + Reinstated(db, PositionBalance(c))
    && db.PositionRow(c).quantity == SumOf(db, Final, KeyedBy(CurrencyOf(), c, SignedQuantity()))
  }

  ghost predicate NeverTraded(db: Db, c: nat) {
    forall d :: d in DealsOf(Having(db.vouchers, Final), db.nextId) ==> d.currency != c
  }

  lemma NoStock(db: Db, rates: map<nat, real>, n: nat, c: nat)
    requires Grounded(db, rates, n, c) && NeverTraded(db, c)
    ensures UnrealizedTerm(db.positions, rates, None)(c) == 0.0 && Value(db.PositionRow(c)) == 0.0
    ensures Some(c) != db.registry.base ==> SumOf(db, Final, EffectOf(db.registry.base, c)) == 0.0
  {
    hide Holding, Total, Placed, Rated, Times;
    var ds := DealsOf(Having(db.vouchers, Final), db.nextId);
    DealSumZero(ds, KeyedBy(CurrencyOf(), c, SignedQuantity()));
    TimesZero(db.PositionRow(c).avgCost);
    if Some(c) != db.registry.base {
      DealSumZero(ds, EffectOf(db.registry.base, c));
    }
  }

  lemma BaseShare(db: Db, rates: map<nat, real>, n: nat, c: nat)
    requires Grounded(db, rates, n, c) && Some(c) == db.registry.base
    ensures NetTerm(db, rates)(c) + InternalTerm(db, rates)(c)
      == UnrealizedTerm(db.positions, rates, None)(c) + Value(db.PositionRow(c)) - ReinstatedValue(db, rates)(c)
         + SumOf(db, Final, Revenue())
  {
    hide Times, Holding, Total, Placed, DealSum;
    var ds := DealsOf(Having(db.vouchers, Final), db.nextId);
    forall d | d in ds
      ensures d.currency != c
    {
      DealTraded(db, d);
    }
    NoStock(db, rates, n, c);
    NegatedDeals(ds, EffectOf(db.registry.base, c), Revenue());
    TimesZero(Holding(db, HOUSE, c) + Holding(db, CUSTOMERS, c));
    TimesZero(Holding(db, INTERNAL, c));
    TimesZero(Reinstated(db, PositionBalance(c)));
  }

  lemma TradedShare(db: Db, rates: map<nat, real>, n: nat, c: nat)
    requires Grounded(db, rates, n, c) && Some(c) != db.registry.base
    ensures NetTerm(db, rates)(c) + InternalTerm(db, rates)(c)
      == UnrealizedTerm(db.positions, rates, None)(c) + Value(db.PositionRow(c)) - ReinstatedValue(db, rates)(c)
  {
    hide Times, Holding, Total, Placed, DealSum, Reinstated;
    var pos, i, x := db.PositionRow(c), Holding(db, INTERNAL, c), Reinstated(db, PositionBalance(c));
    var ds := DealsOf(Having(db.vouchers, Final), db.nextId);
    NegatedDeals(ds, KeyedBy(CurrencyOf(), c, SignedQuantity()), EffectOf(db.registry.base, c));
    TimesZero(pos.avgCost);
    if Counted(db.registry, rates, c) {
      var r := rates[c];
      TimesSum(r, pos.quantity - i - x, i + x, pos.quantity);
      TimesSum(r, i, x, i + x);
      TimesSum(pos.quantity, r - pos.avgCost, pos.avgCost, r);
      TimesSwap(pos.quantity, r);
      TimesZero(r);
      assert NetTerm(db, rates)(c) == Times(pos.quantity - i - x, r);
      assert InternalTerm(db, rates)(c) == Times(i, r);
      TimesSwap(pos.quantity, r - pos.avgCost);
    } else {
      forall d | d in ds
        ensures d.currency != c
      {
        DealTraded(db, d);
        InForceReported(db, d);
      }
      NoStock(db, rates, n, c);
    }
  }

  /** The premises on a run: position accounts are left to deals, and quantities fit their column. */
  ghost predicate Ordinary(m: Rounding, ops: seq<Op>) {
    forall i :: 0 <= i < |ops| ==> Tidy(ops[i]) && GridDeals(m, ops[i])
  }

  lemma RunGrounded(m: Rounding, g: Registry, ops: seq<Op>, rates: map<nat, real>, n: nat, c: nat)
    requires Ordinary(m, ops) && NoSparePositions(g) && Rated(Run(m, g, ops), rates, n)
    ensures Run(m, g, ops).registry == g && Grounded(Run(m, g, ops), rates, n, c)
  {
    hide Inv, Run, Tidy, GridDeals, Holding, Total, Placed, Rated, NoSparePositions, DealSum, Reinstated;
    Reachable(m, g, ops);
    TidyRun(m, g, ops);
    PlacedRun(m, g, ops);
    HoldingsVanish(m, Run(m, g, ops), c);
    PositionsByDeals(m, g, ops, c);
    StockByDeals(m, g, ops, c);
  }

  /** For every run, under every rounding: cash and customers' debts at any rates for what was traded are the profit
      the reports show, less that of voided deals, plus the unrealised profit on today's stock, less the
      expense, income and equity accounts; but for what rounding and taking deals back left on the inventory
      rows, and what undone reversals put back into the books. */
  lemma NetWorthIdentity(m: Rounding, g: Registry, ops: seq<Op>, rates: map<nat, real>, n: nat)
    requires Ordinary(m, ops) && NoSparePositions(g) && Rated(Run(m, g, ops), rates, n)
    ensures var db := Run(m, g, ops);
      Sum(n, NetTerm(db, rates)) ==
        DealSum(DealsOf(db.vouchers, db.nextId), ProfitOf()) - SumOf(db, Void, ProfitOf())
        + Sum(n, UnrealizedTerm(db.positions, rates, None)) - Sum(n, InternalTerm(db, rates))
        + Sum(n, DriftOf(db)) - Sum(n, ReinstatedValue(db, rates))
  {
    hide Run, Times, DealSum, Holding, NoSparePositions, UnrealizedTerm, NetTerm, InternalTerm, SplitTerm, MarginOf,
      ProfitOf, Revenue, ReinstatedValue, Grounded, Ordinary;
    var db := Run(m, g, ops);
    var ds := DealsOf(Having(db.vouchers, Final), db.nextId);
    RunGrounded(m, g, ops, rates, n, g.base.value) by { BaseKept(m, g, ops); }
    var net, internal, unrealized, margin, drift, back :=
      NetTerm(db, rates), InternalTerm(db, rates), UnrealizedTerm(db.positions, rates, None), SplitTerm(ds, MarginOf()),
      DriftOf(db), ReinstatedValue(db, rates);
    var revenue: nat -> real := (c: nat) => if Some(c) == g.base then SumOf(db, Final, Revenue()) else 0.0;
    var lessMargin: nat -> real := (c: nat) => -margin(c);
    var lessBack: nat -> real := (c: nat) => -back(c);
    var left: nat -> real := (c: nat) => net(c) + internal(c);
    var a: nat -> real := (c: nat) => unrealized(c) + drift(c);
    var b: nat -> real := (c: nat) => lessMargin(c) + lessBack(c);
    var ab: nat -> real := (c: nat) => a(c) + b(c);
    var all: nat -> real := (c: nat) => ab(c) + revenue(c);
    forall c: nat | c < n
      ensures left(c) == all(c)
    {
      RunGrounded(m, g, ops, rates, n, c);
      Share(db, rates, n, c);
    }
    SumEqual(n, left, all);
    SumPlus(n, net, internal, left);
    SumPlus(n, unrealized, drift, a);
    SumPlus(n, lessMargin, lessBack, b);
    SumPlus(n, a, b, ab);
    SumPlus(n, ab, revenue, all);
    NegatedTerm(n, margin, lessMargin);
    NegatedTerm(n, back, lessBack);
    forall d | d in ds
      ensures d.currency < n
    {
      InForceReported(db, d);
    }
    CurrencySplit(n, ds, MarginOf());
    OneTerm(n, g.base.value, SumOf(db, Final, Revenue()), revenue);
    RevenueLessMargin(ds);
    ReportedSplit(db, ProfitOf());
  }

  lemma BaseKept(m: Rounding, g: Registry, ops: seq<Op>)
    requires Ordinary(m, ops)
    ensures Run(m, g, ops).registry == g
  {
    TidyRun(m, g, ops);
  }

  /** One currency's share: rate-valued stock is unrealised profit plus what the stock cost, and base carries
      what all deals brought in. */
  lemma Share(db: Db, rates: map<nat, real>, n: nat, c: nat)
    requires Grounded(db, rates, n, c)
    ensures NetTerm(db, rates)(c) + InternalTerm(db, rates)(c)
      == UnrealizedTerm(db.positions, rates, None)(c) + DriftOf(db)(c)
         - SplitTerm(DealsOf(Having(db.vouchers, Final), db.nextId), MarginOf())(c) - ReinstatedValue(db, rates)(c)
         + (if Some(c) == db.registry.base then SumOf(db, Final, Revenue()) else 0.0)
  {
    hide Grounded, NetTerm, InternalTerm, UnrealizedTerm, ReinstatedValue, DealSum, MarginOf, Revenue, Value;
    if Some(c) == db.registry.base {
      BaseShare(db, rates, n, c);
    } else {
      TradedShare(db, rates, n, c);
    }
  }

  lemma {:induction false} OneTerm(n: nat, k: nat, x: real, f: nat -> real)
    requires k < n && f(k) == x && forall i: nat :: i != k ==> f(i) == 0.0
    ensures Sum(n, f) == x
  {
    if k == n - 1 {
      SumZero(n - 1, f);
    } else {
      OneTerm(n - 1, k, x, f);
    }
  }

  lemma RevenueLessMargin(ds: seq<Deal>)
    ensures DealSum(ds, Revenue()) - DealSum(ds, MarginOf()) == DealSum(ds, ProfitOf())
  {
    DealSumPlus(ds, MarginOf(), ProfitOf(), Revenue());
  }
}
