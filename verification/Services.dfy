/** The posting services as they run: rows are written step by step, and a refused call puts back
    whatever it had already written. */
module Services {
  import opened Algebra
  import opened Amounts
  import opened Inventory
  import B = Books
  import opened Books
  import opened Context
  import A = Allocation
  import R = Runs

  datatype Reply = Done(id: nat) | Refused(error: Failure)

  /** Adds a line to the running total of its currency, as a dictionary does. */
  function Bumped(totals: map<nat, real>, c: nat, x: real): map<nat, real> {
    totals[c := (if c in totals then totals[c] else 0.0) + x]
  }

  ghost predicate TotalsOf(m: Rounding, totals: map<nat, real>, lines: seq<Line>) {
    && (forall c :: c in totals <==> exists l :: l in lines && l.currency == c)
    && (forall c :: c in totals ==> totals[c] == LineTotal(m, lines, c))
  }

  ghost predicate StoredTotalsOf(totals: map<nat, real>, es: seq<Entry>) {
    && (forall c :: c in totals <==> exists e :: e in es && e.currency == c)
    && (forall c :: c in totals ==> totals[c] == EntrySum(es, InCurrency(c)))
  }

  class Ledger {
    const mode: Rounding
    const registry: Registry
    var vouchers: map<nat, Voucher>
    var nextId: nat
    var positions: map<nat, Position>
    var sequence: nat
    var settlements: map<(nat, nat), real>
    var deliveries: map<(nat, nat), real>

    constructor (mode: Rounding, registry: Registry)
      ensures this.mode == mode && State() == Empty(registry)
    {
      this.mode, this.registry := mode, registry;
      vouchers, nextId, positions, sequence, settlements, deliveries := map[], 0, map[], 0, map[], map[];
    }

    /** The contents of the tables. */
    function State(): Db
      reads this
    {
      Db(registry, vouchers, nextId, positions, sequence, settlements, deliveries)
    }

    /** The call has done what `spec` says: its new state when it commits, nothing when it refuses. */
    ghost predicate Settled(before: Db, spec: Outcome, reply: Reply)
      reads this
    {
      match spec
      case Committed(db, id) => State() == db && reply == Done(id)
      case Rejected(e) => State() == before && reply == Refused(e)
    }

    method Restore(before: Db)
      requires before.registry == registry
      modifies this
      ensures State() == before
    {
      vouchers, nextId, positions, sequence := before.vouchers, before.nextId, before.positions, before.sequence;
      settlements, deliveries := before.settlements, before.deliveries;
    }

    // ---------------------------------------------------------------- checks

    /** The first balance check, on the proposed lines. */
    static method AssertBalanced(m: Rounding, lines: seq<Line>) returns (ok: bool)
      ensures ok <==> Balanced(m, lines)
    {
      hide Ctx;
      var totals: map<nat, real> := map[];
      for i := 0 to |lines|
        invariant TotalsOf(m, totals, lines[..i])
      {
        assert lines[..i + 1][..i] == lines[..i];
        totals := Bumped(totals, lines[i].currency, Ctx(m, lines[i].amount));
        TotalsGrow(m, lines[..i], lines[i]);
        assert lines[..i + 1] == lines[..i] + [lines[i]];
      }
      assert lines[..|lines|] == lines;
      ok := forall c :: c in totals ==> totals[c] == 0.0;
      assert ok ==> forall l :: l in lines ==> l.currency in totals && LineTotal(m, lines, l.currency) == 0.0;
    }

    /** The second check, on the rows as stored. */
    static method VerifyPersistedBalance(es: seq<Entry>) returns (ok: bool)
      ensures ok <==> StoredBalanced(es)
    {
      var totals: map<nat, real> := map[];
      for i := 0 to |es|
        invariant StoredTotalsOf(totals, es[..i])
      {
        assert es[..i + 1][..i] == es[..i];
        totals := Bumped(totals, es[i].currency, es[i].amount);
        StoredTotalsGrow(es[..i], es[i]);
        assert es[..i + 1] == es[..i] + [es[i]];
      }
      assert es[..|es|] == es;
      ok := forall c :: c in totals ==> totals[c] == 0.0;
      assert ok ==> forall e :: e in es ==> e.currency in totals && EntrySum(es, InCurrency(e.currency)) == 0.0;
    }

    // ---------------------------------------------------------------- posting

    method NextVoucherNumber() returns (number: nat)
      modifies this`sequence
      ensures sequence == old(sequence) + 1 && number == sequence
    {
      sequence := sequence + 1;
      number := sequence;
    }

    /** Builds the rows one by one and stops at a line of amount zero. */
    method BuildEntries(lines: seq<Line>, date: int) returns (es: seq<Entry>, ok: bool)
      ensures ok <==> forall l :: l in lines ==> l.amount != 0.0
      ensures ok ==> es == EntriesOf(mode, lines, date)
    {
      es := [];
      for i := 0 to |lines|
        invariant es == EntriesOf(mode, lines[..i], date)
        invariant forall l :: l in lines[..i] ==> l.amount != 0.0
      {
        if lines[i].amount == 0.0 {
          assert lines[i] in lines;
          return es, false;
        }
        assert lines[..i + 1][..i] == lines[..i];
        es := es + [Entry(i + 1, lines[i].party, lines[i].currency, Store(mode, lines[i].amount), date)];
      }
      assert lines[..|lines|] == lines;
      ok := true;
    }

    method PostVoucher(r: Request) returns (reply: Reply)
      modifies this
      ensures Settled(old(State()), B.PostVoucher(mode, old(State()), r), reply)
    {
      hide Store, Balanced, StoredBalanced, EntriesOf, KeyHolder, StoredDealOf, LineTotal, EntrySum;
      if r.lines == [] {
        return Refused(NoLines);
      }
      var stored := StoredKey(r.key);
      if stored.Some? {
        var holder := KeyHolder(vouchers, nextId, stored.value);
        if holder.Some? {
          return Refused(DuplicateKey(holder.value));
        }
      }
      var balanced := AssertBalanced(mode, r.lines);
      if !balanced {
        return Refused(Unbalanced);
      }
      reply := WriteVoucher(r);
    }

    /** The part of posting that writes: the draft, its rows, the second check, the number. */
    method WriteVoucher(r: Request) returns (reply: Reply)
      requires r.lines != [] && Balanced(mode, r.lines)
      requires StoredKey(r.key).Some? ==> KeyHolder(vouchers, nextId, StoredKey(r.key).value).None?
      modifies this
      ensures Settled(old(State()), B.PostVoucher(mode, old(State()), r), reply)
    {
      hide Store, Balanced, StoredBalanced, EntriesOf, KeyHolder, StoredDealOf, LineTotal, EntrySum;
      var before := State();
      var id := nextId;
      var draft := Voucher(None, r.kind, Draft, r.date, StoredKey(r.key), r.reverses, [], None);
      vouchers, nextId := vouchers[id := draft], nextId + 1;
      var es, nonzero := BuildEntries(r.lines, r.date);
      if !nonzero {
        Restore(before);
        return Refused(ZeroLine);
      }
      if exists e :: e in es && e.amount == 0.0 {
        Restore(before);
        return Refused(StoredZero);
      }
      vouchers := vouchers[id := draft.(entries := es, deal := StoredDealOf(mode, r.deal))];
      var persisted := VerifyPersistedBalance(es);
      if !persisted {
        Restore(before);
        return Refused(StoredUnbalanced);
      }
      var number := NextVoucherNumber();
      vouchers := vouchers[id := vouchers[id].(number := Some(number), status := Final)];
      assert vouchers == before.vouchers[id := VoucherOf(mode, r, before.sequence + 1)];
      reply := Done(id);
    }

    // ---------------------------------------------------------------- inventory

    method ApplyInventory(side: Side, c: nat, q: real, p: real) returns (avgAtTime: real, realized: real)
      modifies this`positions
      ensures var fill := Apply(mode, old(State()).PositionRow(c), side, q, p);
        && positions == old(positions)[c := fill.position]
        && avgAtTime == fill.avgAtTime && realized == fill.realized
    {
      var row := State().PositionRow(c);
      var oldQty, oldAvg := row.quantity, row.avgCost;
      var newQty, newAvg;
      if side.Buy? {
        newQty := oldQty + q;
        if newQty > 0.0 {
          newAvg := if oldQty <= 0.0 then p else Over(Times(oldQty, oldAvg) + Times(q, p), newQty);
        } else {
          newAvg := oldAvg;
        }
        realized, avgAtTime := 0.0, oldAvg;
      } else {
        avgAtTime := if oldQty > 0.0 then oldAvg else p;
        realized := Times(p - avgAtTime, q);
        newQty := oldQty - q;
        newAvg := if newQty == 0.0 then 0.0 else oldAvg;
      }
      positions := positions[c := Position(Store(mode, newQty), Store(mode, newAvg))];
    }

    method ReverseInventory(d: Deal)
      modifies this`positions
      ensures positions == old(positions)[d.currency :=
        Reverse(mode, old(State()).PositionRow(d.currency), d.side, d.quantity, d.unitPrice, d.avgCost)]
    {
      var row := State().PositionRow(d.currency);
      if d.side.Sell? {
        row := row.(quantity := Store(mode, row.quantity + d.quantity),
                    avgCost := if row.avgCost == 0.0 then Store(mode, d.avgCost) else row.avgCost);
      } else {
        var newQty := row.quantity - d.quantity;
        if newQty > 0.0 {
          row := row.(avgCost := Store(mode,
            Over(Times(row.quantity, row.avgCost) - Times(d.quantity, d.unitPrice), newQty)));
        } else {
          row := row.(avgCost := Store(mode, 0.0));
        }
        row := row.(quantity := Store(mode, newQty));
      }
      positions := positions[d.currency := row];
    }

    // ---------------------------------------------------------------- orders

    /** Inventory first, voucher second; when the voucher is refused the inventory is put back. */
    method PostDeal(o: Order) returns (reply: Reply)
      requires o.DealOrder?
      modifies this
      ensures Settled(old(State()), PostOrder(mode, old(State()), o), reply)
    {
      var before := State();
      if exists a :: a in Named(o) && !registry.Knows(a) {
        return Refused(UnknownParty);
      }
      var error := DealError(registry, o);
      if error.Some? {
        return Refused(error.value);
      }
      var avgAtTime, realized := ApplyInventory(o.side, o.currency, o.quantity, o.unitPrice);
      var request := DealRequest(mode, o, registry.base.value, avgAtTime, realized);
      reply := PostVoucher(request);
      if reply.Refused? {
        Restore(before);
      }
    }

    /** The services that post one pair of lines. */
    method PostPair(o: Order) returns (reply: Reply)
      requires !o.DealOrder?
      modifies this
      ensures Settled(old(State()), PostOrder(mode, old(State()), o), reply)
    {
      if exists a :: a in Named(o) && !registry.Knows(a) {
        return Refused(UnknownParty);
      }
      var error := OrderError(registry, o);
      if error.Some? {
        return Refused(error.value);
      }
      reply := PostVoucher(OrderRequest(mode, o));
    }

    // ---------------------------------------------------------------- void and delete

    method VoidVoucher(id: nat, reason: string) returns (reply: Reply)
      modifies this
      ensures Settled(old(State()), B.VoidVoucher(mode, old(State()), id, reason), reply)
    {
      var before := State();
      var error := VoidError(State(), id, reason);
      if error.Some? {
        return Refused(error.value);
      }
      var v := vouchers[id];
      if v.deal.Some? {
        ReverseInventory(v.deal.value);
      }
      reply := PostVoucher(ReversalRequest(v, id));
      if reply.Refused? {
        Restore(before);
        return;
      }
      vouchers := vouchers[id := v.(status := Void)];
    }

    method DeleteVoucher(id: nat) returns (reply: Reply)
      modifies this
      ensures Settled(old(State()), B.DeleteVoucher(mode, old(State()), id), reply)
    {
      var error := DeleteError(State(), id);
      if error.Some? {
        return Refused(error.value);
      }
      var v := vouchers[id];
      if v.deal.Some? {
        ReverseInventory(v.deal.value);
      }
      vouchers := vouchers - {id};
      settlements, deliveries := Without(settlements, id), Without(deliveries, id);
      reply := Done(id);
    }

    // ---------------------------------------------------------------- allocations

    /** The view that adds an allocation: re-read the rows, validate the form field by field, save. */
    method AddAllocation(u: A.Use, d: nat, p: nat, x: real) returns (reply: Reply)
      modifies this
      ensures Settled(old(State()), A.Allocate(mode, old(State()), u, d, p, x), reply)
    {
      if !State().IsDeal(d) {
        return Refused(NotFound);
      }
      var deal := vouchers[d].deal.value;
      var errors := 0;
      if !A.PaymentListed(State(), u, d, p) || !OnGrid(mode, x) || x < 1.0 / SCALE {
        errors := errors + 1;
      }
      if x > A.Remaining(State(), u, d) {
        errors := errors + 1;
      }
      if !A.InvoiceOpen(State(), u, d) || (d, p) in A.Table(State(), u) {
        errors := errors + 1;
      }
      if p in vouchers && x > A.Capacity(State(), u, d, p) - A.UsedFor(State(), u, d, p) {
        errors := errors + 1;
      }
      if errors > 0 {
        return Refused(NotAllocatable);
      }
      if u.Settlement? {
        settlements := settlements[(d, p) := x];
      } else {
        deliveries := deliveries[(d, p) := x];
      }
      reply := Done(d);
    }

    /** Any call, carried out by its service. */
    method Serve(op: R.Op) returns (reply: Reply)
      modifies this
      ensures Settled(old(State()), R.Perform(mode, old(State()), op), reply)
      ensures State() == R.Step(mode, old(State()), op)
    {
      match op
      case Post(o) =>
        if o.DealOrder? {
          reply := PostDeal(o);
        } else {
          reply := PostPair(o);
        }
      case VoidOp(id, reason) => reply := VoidVoucher(id, reason);
      case DeleteOp(id) => reply := DeleteVoucher(id);
      case AllocateOp(u, d, p, x) => reply := AddAllocation(u, d, p, x);
    }
  }

  lemma TotalsGrow(m: Rounding, lines: seq<Line>, l: Line)
    ensures forall c :: LineTotal(m, lines + [l], c) == LineTotal(m, lines, c) + if l.currency == c then Ctx(m, l.amount) else 0.0
    ensures forall c :: (forall x :: x in lines ==> x.currency != c) ==> LineTotal(m, lines, c) == 0.0
  {
    assert (lines + [l])[..|lines|] == lines;
    forall c | forall x :: x in lines ==> x.currency != c
      ensures LineTotal(m, lines, c) == 0.0
    {
      NoLinesNoTotal(m, lines, c);
    }
  }

  lemma {:induction false} NoLinesNoTotal(m: Rounding, lines: seq<Line>, c: nat)
    requires forall l :: l in lines ==> l.currency != c
    ensures LineTotal(m, lines, c) == 0.0
  {
    if lines == [] {
    } else {
      NoLinesNoTotal(m, lines[..|lines| - 1], c);
    }
  }

  lemma StoredTotalsGrow(es: seq<Entry>, e: Entry)
    ensures forall c :: EntrySum(es + [e], InCurrency(c)) == EntrySum(es, InCurrency(c)) + InCurrency(c)(e)
    ensures forall c :: (forall x :: x in es ==> x.currency != c) ==> EntrySum(es, InCurrency(c)) == 0.0
  {
    assert (es + [e])[..|es|] == es;
    forall c | forall x :: x in es ==> x.currency != c
      ensures EntrySum(es, InCurrency(c)) == 0.0
    {
      R.EntrySumZero(es, InCurrency(c));
    }
  }
}
