/** Allocating payments to invoices: settlement of the base amount of a deal, and delivery of its
    currency.  The two are independent but follow one pattern, told apart by `Use`. */
module Allocation {
  import opened Amounts
  import opened Inventory
  import opened Books
  import opened Sums

  datatype Use = Settlement | Delivery

  function Table(db: Db, u: Use): map<(nat, nat), real> {
    if u.Settlement? then db.settlements else db.deliveries
  }

  /** The currency an allocation is counted in: base for settlement, the deal's own for delivery. */
  function UnitOf(db: Db, u: Use, d: Deal): Option<nat> {
    if u.Settlement? then db.registry.base else Some(d.currency)
  }

  /** The signed amount a voucher moves on an account in a currency. */
  function Leg(v: Voucher, a: Account, c: Option<nat>): real {
    match c
    case None => 0.0
    case Some(cc) => EntrySum(v.entries, OnAccount(a, cc))
  }

  /** The customer's own leg of the deal's voucher, in the unit of the allocation. */
  function Obligation(db: Db, u: Use, id: nat): real
    requires db.IsDeal(id)
  {
    var d := db.vouchers[id].deal.value;
    Leg(db.vouchers[id], d.counterparty, UnitOf(db, u, d))
  }

  /** What allocations may cover.  A deal's whole total is to be settled; of its quantity, the part
      without a customer leg was handed over at once. */
  function Coverable(db: Db, u: Use, id: nat): real
    requires db.IsDeal(id)
  {
    var d := db.vouchers[id].deal.value;
    if u.Settlement? then d.total
    else d.quantity - Max(0.0, d.quantity - Abs(Obligation(db, u, id)))
  }

  // ------------------------------------------------------------------ sums over allocations

  /** The share of payment `p` in what covers deal `d`, counted only while the payment is final. */
  function CoverTerm(db: Db, u: Use, d: nat): nat -> real {
    (p: nat) => if (d, p) in Table(db, u) && db.IsFinal(p) then Table(db, u)[(d, p)] else 0.0
  }

  /** What is covered of a deal. */
  function Covered(db: Db, u: Use, d: nat): real {
    Sum(db.nextId, CoverTerm(db, u, d))
  }

  function Remaining(db: Db, u: Use, d: nat): real
    requires db.IsDeal(d)
  {
    Max(0.0, Coverable(db, u, d) - Covered(db, u, d))
  }

  /** Whether deal `d` uses up what payments can give to customer `a` in unit `c`. */
  predicate Draws(db: Db, u: Use, d: nat, a: Account, c: Option<nat>) {
    db.IsDeal(d) && db.IsFinal(d) && db.vouchers[d].deal.value.counterparty == a
    && UnitOf(db, u, db.vouchers[d].deal.value) == c
  }

  /** What deal `d` takes from payment `p` on behalf of customer `a`, counted only while it is final. */
  function UseTerm(db: Db, u: Use, p: nat, a: Account, c: Option<nat>): nat -> real {
    (d: nat) => if (d, p) in Table(db, u) && Draws(db, u, d, a, c) then Table(db, u)[(d, p)] else 0.0
  }

  /** What is already taken from payment `p` on behalf of customer `a` in unit `c`. */
  function Used(db: Db, u: Use, p: nat, a: Account, c: Option<nat>): real {
    Sum(db.nextId, UseTerm(db, u, p, a, c))
  }

  // ------------------------------------------------------------------ the form

  /** The invoice has a leg of the customer that is still open in this sense. */
  predicate Owes(u: Use, side: Side, leg: real) {
    if u.Settlement? == side.Sell? then leg > 0.0 else leg < 0.0
  }

  /** The payment moves the customer the other way. */
  predicate Pays(u: Use, side: Side, leg: real) {
    if u.Settlement? == side.Sell? then leg < 0.0 else leg > 0.0
  }

  /** The invoice is a final deal with something to allocate to. */
  predicate InvoiceOpen(db: Db, u: Use, d: nat) {
    && db.IsDeal(d) && db.IsFinal(d)
    && db.vouchers[d].kind == DealV && db.vouchers[d].reverses.None?
    && (u.Delivery? ==> Some(db.vouchers[d].deal.value.currency) != db.registry.base)
    && Owes(u, db.vouchers[d].deal.value.side, Obligation(db, u, d))
  }

  /** The payment may be chosen for the invoice. */
  predicate PaymentListed(db: Db, u: Use, d: nat, p: nat) {
    && db.IsDeal(d) && db.IsFinal(p)
    && db.vouchers[p].kind in {ReceiveV, PayV, TransferV} && db.vouchers[p].reverses.None?
    && var deal := db.vouchers[d].deal.value;
       Pays(u, deal.side, Leg(db.vouchers[p], deal.counterparty, UnitOf(db, u, deal)))
  }

  /** What the form asks of the rows the transaction has locked. */
  predicate Admissible(m: Rounding, db: Db, u: Use, d: nat, p: nat, x: real) {
    && x >= 1.0 / SCALE && OnGrid(m, x)
    && InvoiceOpen(db, u, d) && PaymentListed(db, u, d, p)
    && (d, p) !in Table(db, u)
  }

  /** What the payment can give the deal's customer altogether. */
  function Capacity(db: Db, u: Use, d: nat, p: nat): real
    requires db.IsDeal(d) && p in db.vouchers
  {
    var deal := db.vouchers[d].deal.value;
    Abs(Leg(db.vouchers[p], deal.counterparty, UnitOf(db, u, deal)))
  }

  /** What is already taken from payment `p` on behalf of the customer of `d`. */
  function UsedFor(db: Db, u: Use, d: nat, p: nat): real
    requires db.IsDeal(d)
  {
    var deal := db.vouchers[d].deal.value;
    Used(db, u, p, deal.counterparty, UnitOf(db, u, deal))
  }

  predicate CanAllocate(m: Rounding, db: Db, u: Use, d: nat, p: nat, x: real) {
    && Admissible(m, db, u, d, p, x)
    && x <= Remaining(db, u, d)
    && x <= Capacity(db, u, d, p) - UsedFor(db, u, d, p)
  }

  function Inserted(db: Db, u: Use, d: nat, p: nat, x: real): Db {
    if u.Settlement? then db.(settlements := db.settlements[(d, p) := x])
    else db.(deliveries := db.deliveries[(d, p) := x])
  }

  function Allocate(m: Rounding, db: Db, u: Use, d: nat, p: nat, x: real): Outcome {
    if !db.IsDeal(d) then Rejected(NotFound)
    else if !CanAllocate(m, db, u, d, p, x) then Rejected(NotAllocatable)
    else Committed(Inserted(db, u, d, p, x), d)
  }
}
