/** The tables of the ledger and what each service does to them, as functions on their contents. */
module Books {
  import opened Algebra
  import opened Amounts
  import opened Context
  import opened Inventory
  import Text

  datatype Option<+T> = None | Some(value: T)

  // ------------------------------------------------------------------ reference data

  datatype PartyKind = Customer | Bank | Cashbox | PositionKind | ExpenseKind | IncomeKind | EquityKind

  datatype Party = Party(kind: PartyKind, currency: Option<nat>, active: bool)

  /** An account.  The position account of a currency and the opening equity account are found or
      created by what they are, every other account by its key. */
  datatype Account = PositionOf(owned: nat) | OpeningEquity | Registered(id: nat)

  /** Parties and currencies (with their active flag), and the base currency if one is defined. */
  datatype Registry = Registry(parties: map<nat, Party>, currencies: map<nat, bool>, base: Option<nat>) {
    predicate Knows(a: Account) {
      a.Registered? ==> a.id in parties
    }

    function Info(a: Account): Party
      requires Knows(a)
    {
      match a
      case PositionOf(c) => Party(PositionKind, Some(c), true)
      case OpeningEquity => Party(EquityKind, None, true)
      case Registered(id) => parties[id]
    }

    predicate Active(c: nat) {
      c in currencies && currencies[c]
    }

    /** A single-currency account can hold only its own currency. */
    predicate Fits(a: Account, c: nat)
      requires Knows(a)
    {
      Info(a).currency.Some? ==> Info(a).currency.value == c
    }
  }

  // ------------------------------------------------------------------ rows

  datatype VoucherKind = DealV | ReceiveV | PayV | TransferV | AdjustV | OpeningV | ExpenseV | IncomeV
  datatype Status = Draft | Final | Void

  /** A proposed line; positive is debit, negative is credit. */
  datatype Line = Line(party: Account, currency: nat, amount: real)

  datatype Entry = Entry(rowNo: nat, party: Account, currency: nat, amount: real, date: int)

  datatype Deal = Deal(side: Side, counterparty: Account, currency: nat, quantity: real, unitPrice: real,
                       total: real, avgCost: real, realized: real, date: int)

  datatype Voucher = Voucher(number: Option<nat>, kind: VoucherKind, status: Status, date: int,
                             key: Option<string>, reverses: Option<nat>, entries: seq<Entry>, deal: Option<Deal>)

  /** The database.  Allocations are keyed by (deal voucher, payment voucher): at most one per pair. */
  datatype Db = Db(registry: Registry, vouchers: map<nat, Voucher>, nextId: nat,
                   positions: map<nat, Position>, sequence: nat,
                   settlements: map<(nat, nat), real>, deliveries: map<(nat, nat), real>)
  {
    /** The inventory row of a currency, created empty when first asked for. */
    function PositionRow(c: nat): Position {
      if c in positions then positions[c] else EMPTY
    }

    predicate IsFinal(id: nat) {
      id in vouchers && vouchers[id].status == Final
    }

    predicate IsDeal(id: nat) {
      id in vouchers && vouchers[id].deal.Some?
    }
  }

  function Empty(registry: Registry): Db {
    Db(registry, map[], 0, map[], 0, map[], map[])
  }

  datatype Failure =
    | NoLines | DuplicateKey(holder: nat) | Unbalanced | ZeroLine | StoredZero | StoredUnbalanced
    | NoBase | BaseTraded | BadQuantity | BadPrice | BadAmount | Inactive | WrongCurrency | WrongKind
    | SameAccount | UnknownParty | NotFound | AlreadyVoid | NotFinal | AlreadyReversed | NoReason
    | IsReversal | ProtectedByAllocation | NotAllocatable

  /** What a service call comes to: a new database and the key of the row it made, or an error. */
  datatype Outcome = Committed(db: Db, id: nat) | Rejected(error: Failure)

  // ------------------------------------------------------------------ sums over lines and entries

  /** The check's own sum: an amount enters it as an addition leaves it, rounded to the context. */
  function LineTotal(m: Rounding, lines: seq<Line>, c: nat): real {
    if lines == [] then 0.0
    else
      var last := lines[|lines| - 1];
      LineTotal(m, lines[..|lines| - 1], c) + if last.currency == c then Ctx(m, last.amount) else 0.0
  }

  /** Every currency on the lines sums to zero. */
  predicate Balanced(m: Rounding, lines: seq<Line>) {
    forall l :: l in lines ==> LineTotal(m, lines, l.currency) == 0.0
  }

  /** The sum of a weight over entries: a balance is such a sum. */
  function EntrySum(es: seq<Entry>, w: Entry -> real): real {
    if es == [] then 0.0 else EntrySum(es[..|es| - 1], w) + w(es[|es| - 1])
  }

  function InCurrency(c: nat): Entry -> real {
    (e: Entry) => if e.currency == c then e.amount else 0.0
  }

  function OnAccount(a: Account, c: nat): Entry -> real {
    (e: Entry) => if e.party == a && e.currency == c then e.amount else 0.0
  }

  // ------------------------------------------------------------------ posting

  datatype Request = Request(kind: VoucherKind, date: int, lines: seq<Line>, key: Option<string>,
                             deal: Option<Deal>, reverses: Option<nat>)

  /** The external key that is actually stored: an empty one counts as none. */
  function StoredKey(key: Option<string>): Option<string> {
    if key == Some("") then None else key
  }

  /** The voucher holding an external key, among those numbered below `n`. */
  function KeyHolder(vouchers: map<nat, Voucher>, n: nat, key: string): Option<nat> {
    if n == 0 then None
    else if n - 1 in vouchers && vouchers[n - 1].key == Some(key) then Some(n - 1)
    else KeyHolder(vouchers, n - 1, key)
  }

  /** The lines as rows of the voucher: numbered from one, rounded by the column, dated by the voucher. */
  function EntriesOf(m: Rounding, lines: seq<Line>, date: int): (es: seq<Entry>)
    ensures |es| == |lines|
    ensures forall i :: 0 <= i < |es| ==>
      es[i] == Entry(i + 1, lines[i].party, lines[i].currency, Store(m, lines[i].amount), date)
  {
    if lines == [] then []
    else
      var last := lines[|lines| - 1];
      EntriesOf(m, lines[..|lines| - 1], date) +
      [Entry(|lines|, last.party, last.currency, Store(m, last.amount), date)]
  }

  predicate StoredBalanced(es: seq<Entry>) {
    forall e :: e in es ==> EntrySum(es, InCurrency(e.currency)) == 0.0
  }

  function StoredDeal(m: Rounding, d: Deal): Deal {
    d.(quantity := Store(m, d.quantity), unitPrice := Store(m, d.unitPrice), total := Store(m, d.total),
       avgCost := Store(m, d.avgCost), realized := Store(m, d.realized))
  }

  function StoredDealOf(m: Rounding, d: Option<Deal>): Option<Deal> {
    match d
    case None => None
    case Some(x) => Some(StoredDeal(m, x))
  }

  /** Why a request cannot be posted, if it cannot. */
  function PostError(m: Rounding, db: Db, r: Request): Option<Failure> {
    var holder := match StoredKey(r.key) case None => None case Some(k) => KeyHolder(db.vouchers, db.nextId, k);
    var entries := EntriesOf(m, r.lines, r.date);
    if r.lines == [] then Some(NoLines)
    else if holder.Some? then Some(DuplicateKey(holder.value))
    else if !Balanced(m, r.lines) then Some(Unbalanced)
    else if exists l :: l in r.lines && l.amount == 0.0 then Some(ZeroLine)
    else if exists e :: e in entries && e.amount == 0.0 then Some(StoredZero)
    else if !StoredBalanced(entries) then Some(StoredUnbalanced)
    else None
  }

  /** The row a request becomes when it is finalised under `number`. */
  function VoucherOf(m: Rounding, r: Request, number: nat): Voucher {
    Voucher(Some(number), r.kind, Final, r.date, StoredKey(r.key), r.reverses,
            EntriesOf(m, r.lines, r.date), StoredDealOf(m, r.deal))
  }

  function PostVoucher(m: Rounding, db: Db, r: Request): Outcome {
    match PostError(m, db, r)
    case Some(e) => Rejected(e)
    case None =>
      Committed(db.(vouchers := db.vouchers[db.nextId := VoucherOf(m, r, db.sequence + 1)],
                    nextId := db.nextId + 1, sequence := db.sequence + 1),
                db.nextId)
  }

  // ------------------------------------------------------------------ builders

  /** The arguments of the services that post money. */
  datatype Order =
    | DealOrder(side: Side, date: int, counterparty: Account, currency: nat, quantity: real, unitPrice: real,
                settle: Option<Account>, delivery: Option<Account>, key: Option<string>)
    | CashOrder(kind: VoucherKind, date: int, party: Account, account: Account, currency: nat, amount: real,
                key: Option<string>)
    | TransferOrder(date: int, source: Account, target: Account, currency: nat, amount: real, key: Option<string>)
    | ExpenseOrder(date: int, category: Account, account: Account, currency: nat, amount: real, key: Option<string>)
    | IncomeOrder(date: int, category: Account, account: Account, currency: nat, amount: real, key: Option<string>)
    | PartyTransferOrder(date: int, source: Account, target: Account, currency: nat, amount: real, key: Option<string>)
    | OpeningOrder(date: int, party: Account, currency: nat, amount: real, key: Option<string>)
    | LinesOrder(kind: VoucherKind, date: int, lines: seq<Line>, key: Option<string>)

  /** The accounts an order names. */
  function Named(o: Order): set<Account> {
    match o
    case DealOrder(_, _, cp, _, _, _, s, d, _) =>
      {cp} + (if s.Some? then {s.value} else {}) + (if d.Some? then {d.value} else {})
    case CashOrder(_, _, p, a, _, _, _) => {p, a}
    case TransferOrder(_, s, t, _, _, _) => {s, t}
    case ExpenseOrder(_, g, a, _, _, _) => {g, a}
    case IncomeOrder(_, g, a, _, _, _) => {g, a}
    case PartyTransferOrder(_, s, t, _, _, _) => {s, t}
    case OpeningOrder(_, p, _, _, _) => {p}
    case LinesOrder(_, _, lines, _) => set l | l in lines :: l.party
  }

  /** The debit keeps every digit the amount was given with; taking the negative for the credit rounds it to the
      context. */
  function Pair(m: Rounding, debit: Account, credit: Account, c: nat, amount: real): seq<Line> {
    [Line(debit, c, amount), Line(credit, c, -Ctx(m, amount))]
  }

  /** The pair for an amount that is itself the result of an operation. */
  function ResultPair(debit: Account, credit: Account, c: nat, amount: real): seq<Line> {
    [Line(debit, c, amount), Line(credit, c, -amount)]
  }

  function DealError(g: Registry, o: Order): Option<Failure>
    requires o.DealOrder? && forall a :: a in Named(o) ==> g.Knows(a)
  {
    if g.base.None? then Some(NoBase)
    else if o.currency == g.base.value then Some(BaseTraded)
    else if o.quantity <= 0.0 then Some(BadQuantity)
    else if o.unitPrice <= 0.0 then Some(BadPrice)
    else if !g.Info(o.counterparty).active then Some(Inactive)
    else if !g.Active(o.currency) then Some(Inactive)
    else if o.settle.Some? && g.Info(o.settle.value).currency != g.base then Some(WrongCurrency)
    else if o.settle.Some? && !g.Info(o.settle.value).active then Some(Inactive)
    else if o.delivery.Some? && g.Info(o.delivery.value).currency != Some(o.currency) then Some(WrongCurrency)
    else if o.delivery.Some? && !g.Info(o.delivery.value).active then Some(Inactive)
    else None
  }

  /** The four lines of a deal: the currency and its equivalent in base, each against the position
      account on one side and the customer, or the account settled with at once, on the other. */
  function DealLines(m: Rounding, o: Order, base: nat): seq<Line>
    requires o.DealOrder?
  {
    var total := Times(o.quantity, o.unitPrice);
    var currencySide := if o.delivery.Some? then o.delivery.value else o.counterparty;
    var baseSide := if o.settle.Some? then o.settle.value else o.counterparty;
    match o.side
    case Sell =>
      Pair(m, PositionOf(o.currency), currencySide, o.currency, o.quantity) +
      ResultPair(baseSide, PositionOf(base), base, total)
    case Buy =>
      Pair(m, currencySide, PositionOf(o.currency), o.currency, o.quantity) +
      ResultPair(PositionOf(base), baseSide, base, total)
  }

  function DealRequest(m: Rounding, o: Order, base: nat, avgAtTime: real, realized: real): Request
    requires o.DealOrder?
  {
    Request(DealV, o.date, DealLines(m, o, base), o.key,
            Some(Deal(o.side, o.counterparty, o.currency, o.quantity, o.unitPrice,
                      Times(o.quantity, o.unitPrice), avgAtTime, realized, o.date)),
            None)
  }

  /** Why an order other than a deal is refused before anything is posted. */
  function OrderError(g: Registry, o: Order): Option<Failure>
    requires !o.DealOrder? && forall a :: a in Named(o) ==> g.Knows(a)
  {
    match o
    case CashOrder(kind, _, party, account, c, amount, _) =>
      if amount <= 0.0 then Some(BadAmount)
      else if !g.Info(party).active || !g.Info(account).active then Some(Inactive)
      else if !g.Fits(account, c) then Some(WrongCurrency)
      else if kind != ReceiveV && kind != PayV then Some(WrongKind)
      else None
    case TransferOrder(_, source, target, _, amount, _) =>
      if amount <= 0.0 then Some(BadAmount) else if source == target then Some(SameAccount) else None
    case ExpenseOrder(_, category, account, c, amount, _) => HouseError(g, category, account, c, amount)
    case IncomeOrder(_, category, account, c, amount, _) => HouseError(g, category, account, c, amount)
    case PartyTransferOrder(_, source, target, _, amount, _) =>
      if amount <= 0.0 then Some(BadAmount)
      else if source == target then Some(SameAccount)
      else if !g.Info(source).active || !g.Info(target).active then Some(Inactive)
      else None
    case OpeningOrder(_, _, _, amount, _) => if amount == 0.0 then Some(BadAmount) else None
    case LinesOrder(_, _, _, _) => None
  }

  function HouseError(g: Registry, category: Account, account: Account, c: nat, amount: real): Option<Failure>
    requires g.Knows(category) && g.Knows(account)
  {
    if amount <= 0.0 then Some(BadAmount)
    else if g.Info(account).kind !in {Bank, Cashbox, Customer} then Some(WrongKind)
    else if !g.Info(account).active then Some(Inactive)
    else if !g.Fits(account, c) then Some(WrongCurrency)
    else if !g.Info(category).active then Some(Inactive)
    else None
  }

  function OrderRequest(m: Rounding, o: Order): Request
    requires !o.DealOrder?
  {
    match o
    case CashOrder(kind, date, party, account, c, amount, key) =>
      Request(kind, date,
              if kind == ReceiveV then Pair(m, account, party, c, amount) else Pair(m, party, account, c, amount),
              key, None, None)
    case TransferOrder(date, source, target, c, amount, key) =>
      Request(TransferV, date, Pair(m, target, source, c, amount), key, None, None)
    case ExpenseOrder(date, category, account, c, amount, key) =>
      Request(ExpenseV, date, Pair(m, category, account, c, amount), key, None, None)
    case IncomeOrder(date, category, account, c, amount, key) =>
      Request(IncomeV, date, Pair(m, account, category, c, amount), key, None, None)
    case PartyTransferOrder(date, source, target, c, amount, key) =>
      Request(TransferV, date, Pair(m, target, source, c, amount), key, None, None)
    case OpeningOrder(date, party, c, amount, key) =>
      Request(OpeningV, date, Pair(m, party, OpeningEquity, c, amount), key, None, None)
    case LinesOrder(kind, date, lines, key) =>
      Request(kind, date, lines, key, None, None)
  }

  /** Posting an order; a deal updates the inventory row before its voucher is posted, and everything
      is given up together when the voucher is refused. */
  function PostOrder(m: Rounding, db: Db, o: Order): Outcome {
    if exists a :: a in Named(o) && !db.registry.Knows(a) then Rejected(UnknownParty)
    else if o.DealOrder? then
      match DealError(db.registry, o)
      case Some(e) => Rejected(e)
      case None =>
        var fill := Apply(m, db.PositionRow(o.currency), o.side, o.quantity, o.unitPrice);
        PostVoucher(m, db.(positions := db.positions[o.currency := fill.position]),
                    DealRequest(m, o, db.registry.base.value, fill.avgAtTime, fill.realized))
    else
      match OrderError(db.registry, o)
      case Some(e) => Rejected(e)
      case None => PostVoucher(m, db, OrderRequest(m, o))
  }

  // ------------------------------------------------------------------ void and delete

  /** The voucher reversing `id`, among those numbered below `n`. */
  function Reverser(vouchers: map<nat, Voucher>, n: nat, id: nat): Option<nat> {
    if n == 0 then None
    else if n - 1 in vouchers && vouchers[n - 1].reverses == Some(id) then Some(n - 1)
    else Reverser(vouchers, n - 1, id)
  }

  predicate Blank(reason: string) {
    Text.Strip(reason) == ""
  }

  function Opposite(es: seq<Entry>): (lines: seq<Line>)
    ensures |lines| == |es|
    ensures forall i :: 0 <= i < |es| ==> lines[i] == Line(es[i].party, es[i].currency, -es[i].amount)
  {
    seq(|es|, i requires 0 <= i < |es| => Line(es[i].party, es[i].currency, -es[i].amount))
  }

  /** The inventory rows with the voucher's deal, if it has one, taken back. */
  function Unwound(m: Rounding, db: Db, v: Voucher): map<nat, Position> {
    match v.deal
    case None => db.positions
    case Some(d) => db.positions[d.currency :=
      Reverse(m, db.PositionRow(d.currency), d.side, d.quantity, d.unitPrice, d.avgCost)]
  }

  function VoidError(db: Db, id: nat, reason: string): Option<Failure> {
    if id !in db.vouchers then Some(NotFound)
    else if db.vouchers[id].status == Void then Some(AlreadyVoid)
    else if db.vouchers[id].status != Final then Some(NotFinal)
    else if Reverser(db.vouchers, db.nextId, id).Some? then Some(AlreadyReversed)
    else if Blank(reason) then Some(NoReason)
    else None
  }

  function ReversalRequest(v: Voucher, id: nat): Request {
    Request(AdjustV, v.date, Opposite(v.entries), None, None, Some(id))
  }

  function VoidVoucher(m: Rounding, db: Db, id: nat, reason: string): Outcome {
    match VoidError(db, id, reason)
    case Some(e) => Rejected(e)
    case None =>
      assert id in db.vouchers;
      var v := db.vouchers[id];
      match PostVoucher(m, db.(positions := Unwound(m, db, v)), ReversalRequest(v, id))
      case Rejected(e) => Rejected(e)
      case Committed(db', rid) => Committed(db'.(vouchers := db'.vouchers[id := v.(status := Void)]), rid)
  }

  function DeleteError(db: Db, id: nat): Option<Failure> {
    if id !in db.vouchers then Some(NotFound)
    else if Reverser(db.vouchers, db.nextId, id).Some? then Some(AlreadyReversed)
    else if db.vouchers[id].reverses.Some? then Some(IsReversal)
    else if (exists k :: k in db.settlements && k.1 == id) || (exists k :: k in db.deliveries && k.1 == id)
    then Some(ProtectedByAllocation)
    else None
  }

  /** Allocations whose invoice is not `id`: those of a deleted deal go with it. */
  function Without(allocations: map<(nat, nat), real>, id: nat): map<(nat, nat), real> {
    map k | k in allocations && k.0 != id :: allocations[k]
  }

  function DeleteVoucher(m: Rounding, db: Db, id: nat): Outcome {
    match DeleteError(db, id)
    case Some(e) => Rejected(e)
    case None =>
      assert id in db.vouchers;
      Committed(db.(vouchers := db.vouchers - {id}, positions := Unwound(m, db, db.vouchers[id]),
                    settlements := Without(db.settlements, id), deliveries := Without(db.deliveries, id)),
                id)
  }
}
