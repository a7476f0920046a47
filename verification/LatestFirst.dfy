/** Runs that void and delete deals latest first: every stored row is the replay of the deals in force. */
module LatestFirst {
  import opened Algebra
  import opened Amounts
  import opened Inventory
  import opened Books
  import opened Allocation
  import AllocationSafety
  import opened Runs
  import opened Chains
  import opened InventoryBooks
  import opened NetWorth
  import opened OrderlyRuns

  /** The deals in force of one currency, in order of their vouchers. */
  ghost function History(vs: map<nat, Voucher>, n: nat, c: nat): seq<Deal> {
    if n == 0 then [] else History(vs, n - 1, c) + Entered(vs, n - 1, c)
  }

  ghost function Entered(vs: map<nat, Voucher>, id: nat, c: nat): seq<Deal> {
    if id in vs && vs[id].status == Final && vs[id].deal.Some? && vs[id].deal.value.currency == c
    then [vs[id].deal.value] else []
  }

  ghost function RowAfter(ds: seq<Deal>): Position {
    if ds == [] then EMPTY
    else
      var d := ds[|ds| - 1];
      Apply(Exact, RowAfter(ds[..|ds| - 1]), d.side, d.quantity, d.unitPrice).position
  }

  /** Every deal carries the cost and profit it had when it was made, after the deals before it. */
  ghost predicate Recorded(ds: seq<Deal>) {
    ds != [] ==>
      var init, d := ds[..|ds| - 1], ds[|ds| - 1];
      && Recorded(init) && Faithful(d) && d.unitPrice > 0.0
      && d.avgCost == Apply(Exact, RowAfter(init), d.side, d.quantity, d.unitPrice).avgAtTime
      && (d.side.Sell? ==> d.quantity <= RowAfter(init).quantity)
  }

  ghost predicate Replayed(db: Db, c: nat) {
    var ds := History(db.vouchers, db.nextId, c);
    Recorded(ds) && db.PositionRow(c) == RowAfter(ds)
  }

  /** No later deal in the currency of this one is in force. */
  ghost predicate Latest(db: Db, id: nat)
    requires db.IsDeal(id)
  {
    forall j :: j in db.vouchers && j > id ==> Entered(db.vouchers, j, db.vouchers[id].deal.value.currency) == []
  }

  /** As in orderly runs, but what a deal may be voided or deleted on is only that it is the latest. */
  ghost predicate InTurn(db: Db, op: Op) {
    match op
    case DeleteOp(id) => DeleteError(db, id).None? && db.IsDeal(id) ==> Latest(db, id)
    case VoidOp(id, reason) =>
      VoidError(db, id, reason).None? ==>
        && (db.IsDeal(id) ==> Latest(db, id))
        && (db.vouchers[id].reverses.Some? ==> !db.IsDeal(db.vouchers[id].reverses.value))
    case _ => Orderly(db, op)
  }

  // ------------------------------------------------------------------ the latest deal can be taken back

  lemma {:induction false} RowStocked(ds: seq<Deal>)
    requires Recorded(ds)
    ensures Stocked(Exact, RowAfter(ds))
  {
    hide Apply, Times;
    if ds == [] {
    } else {
      var init, d := ds[..|ds| - 1], ds[|ds| - 1];
      RowStocked(init);
      DealWorth(RowAfter(init), d.side, d.quantity, d.unitPrice);
    }
  }

  /** Taking back the latest deal is safe, and gives the row of the deals before it. */
  lemma LatestComesBack(ds: seq<Deal>)
    requires Recorded(ds) && ds != []
    ensures Retractable(RowAfter(ds), ds[|ds| - 1])
    ensures TakenBack(RowAfter(ds), ds[|ds| - 1]) == RowAfter(ds[..|ds| - 1])
  {
    hide Times, Blend, Recorded, RowAfter;
    var init, d := ds[..|ds| - 1], ds[|ds| - 1];
    LastRecorded(ds);
    RowStocked(init);
    var pos := RowAfter(init);
    match d.side
    case Buy =>
      UndoBuy(pos, d.quantity, d.unitPrice);
      BlendFromNothing(pos, d.quantity, d.unitPrice);
      TimesSwap(d.quantity, d.unitPrice);
    case Sell =>
      UndoSell(Exact, pos, d.quantity, d.unitPrice);
      SellStep(Exact, pos, d.quantity, d.unitPrice);
  }

  lemma LastRecorded(ds: seq<Deal>)
    requires Recorded(ds) && ds != []
    ensures var init, d := ds[..|ds| - 1], ds[|ds| - 1];
      var f := Apply(Exact, RowAfter(init), d.side, d.quantity, d.unitPrice);
      && Recorded(init) && Faithful(d) && d.unitPrice > 0.0
      && d.avgCost == f.avgAtTime && RowAfter(ds) == f.position
      && (d.side.Sell? ==> d.quantity <= RowAfter(init).quantity)
  {
  }

  lemma BlendFromNothing(pos: Position, q: real, p: real)
    requires q > 0.0 && pos.quantity >= 0.0
    ensures pos.quantity == 0.0 ==> Blend(pos, q, p) == p
  {
  }

  // ------------------------------------------------------------------ how calls change the history

  lemma {:induction false} SameHistory(vs: map<nat, Voucher>, vs': map<nat, Voucher>, n: nat, c: nat)
    requires forall id: nat :: id < n ==> Entered(vs, id, c) == Entered(vs', id, c)
    ensures History(vs, n, c) == History(vs', n, c)
  {
    if n == 0 {
    } else {
      SameHistory(vs, vs', n - 1, c);
    }
  }

  lemma {:induction false} LatestTaken(vs: map<nat, Voucher>, vs': map<nat, Voucher>, n: nat, id: nat, c: nat)
    requires id in vs && id < n && Entered(vs, id, c) != [] && Entered(vs', id, c) == []
    requires forall j: nat :: j < n && j != id ==> Entered(vs', j, c) == Entered(vs, j, c)
    requires forall j: nat :: id < j < n ==> Entered(vs, j, c) == []
    ensures History(vs, n, c) == History(vs', n, c) + [vs[id].deal.value]
  {
    if id == n - 1 {
      SameHistory(vs, vs', n - 1, c);
    } else {
      LatestTaken(vs, vs', n - 1, id, c);
      assert Entered(vs, n - 1, c) == [] && Entered(vs', n - 1, c) == [];
    }
  }

  lemma SameReplay(m: Rounding, db: Db, db': Db, c: nat)
    requires Replayed(db, c) && Inv(m, db) && db'.PositionRow(c) == db.PositionRow(c)
    requires db'.nextId == db.nextId || (db'.nextId == db.nextId + 1 && Entered(db'.vouchers, db.nextId, c) == [])
    requires forall id: nat :: id < db.nextId ==> Entered(db.vouchers, id, c) == Entered(db'.vouchers, id, c)
    ensures Replayed(db', c)
  {
    hide Inv, Recorded, RowAfter, Entered;
    SameHistory(db.vouchers, db'.vouchers, db.nextId, c);
    var ds := History(db.vouchers, db.nextId, c);
    assert ds + [] == ds;
  }

  lemma PostedReplay(db: Db, o: Order, c: nat)
    requires Inv(Exact, db) && PostOrder(Exact, db, o).Committed? && Orderly(db, Post(o)) && Replayed(db, c)
    ensures Replayed(PostOrder(Exact, db, o).db, c)
  {
    hide PostError, EntriesOf, Times, DealLines, OrderError, Apply, Recorded, RowAfter, VoucherOk, Linked, Distinct;
    OrderAdds(Exact, db, o);
    var db' := PostOrder(Exact, db, o).db;
    if o.DealOrder? && o.currency == c {
      SameHistory(db.vouchers, db'.vouchers, db.nextId, c);
      var ds := History(db.vouchers, db.nextId, c);
      var d := db'.vouchers[db.nextId].deal.value;
      DealEntered(Exact, db, o);
      DealChecked(db, o);
      Extended(ds, d);
    } else {
      EnteredElsewhere(Exact, db, o, c);
      SameReplay(Exact, db, db', c);
    }
  }

  lemma DealChecked(db: Db, o: Order)
    requires PostOrder(Exact, db, o).Committed? && o.DealOrder?
    ensures o.quantity > 0.0 && o.unitPrice > 0.0
    ensures var f := Apply(Exact, db.PositionRow(o.currency), o.side, o.quantity, o.unitPrice);
      f.realized == if o.side.Sell? then Times(o.unitPrice - f.avgAtTime, o.quantity) else 0.0
  {
    hide PostError, EntriesOf, Times, DealLines;
  }

  lemma Extended(ds: seq<Deal>, d: Deal)
    requires Recorded(ds) && Faithful(d) && d.unitPrice > 0.0
    requires d.avgCost == Apply(Exact, RowAfter(ds), d.side, d.quantity, d.unitPrice).avgAtTime
    requires d.side.Sell? ==> d.quantity <= RowAfter(ds).quantity
    ensures Recorded(ds + [d])
    ensures RowAfter(ds + [d]) == Apply(Exact, RowAfter(ds), d.side, d.quantity, d.unitPrice).position
  {
    hide Apply;
    assert (ds + [d])[..|ds|] == ds;
  }

  /** Taking the latest deal out of force, and its effect off its row, gives the replay of the deals before it. */
  lemma TakenReplay(db: Db, db': Db, id: nat, c: nat)
    requires Inv(Exact, db) && db.IsDeal(id) && db.vouchers[id].status == Final && Latest(db, id)
    requires db.vouchers[id].deal.value.currency == c && Replayed(db, c)
    requires db'.positions == Unwound(Exact, db, db.vouchers[id])
    requires Entered(db'.vouchers, id, c) == []
    requires forall j: nat :: j < db.nextId && j != id ==> Entered(db'.vouchers, j, c) == Entered(db.vouchers, j, c)
    requires db'.nextId == db.nextId || (db'.nextId == db.nextId + 1 && Entered(db'.vouchers, db.nextId, c) == [])
    ensures RowRetractable(db, id) && Replayed(db', c)
  {
    hide Recorded, RowAfter, Reverse, Retractable, VoucherOk, Linked, Runs.Distinct;
    assert id < db.nextId && Entered(db.vouchers, id, c) == [db.vouchers[id].deal.value];
    LatestTaken(db.vouchers, db'.vouchers, db.nextId, id, c);
    var ds, rest := History(db.vouchers, db.nextId, c), History(db'.vouchers, db.nextId, c);
    assert ds[..|ds| - 1] == rest && rest + [] == rest;
    LatestComesBack(ds);
    LastRecorded(ds);
  }

  lemma ElsewhereUnwound(db: Db, v: Voucher, c: nat)
    requires v.deal.Some? ==> v.deal.value.currency != c
    ensures db.(positions := Unwound(Exact, db, v)).PositionRow(c) == db.PositionRow(c)
  {
    hide Reverse;
  }

  lemma DeletedReplay(db: Db, id: nat, c: nat)
    requires Inv(Exact, db) && InTurn(db, DeleteOp(id)) && DeleteError(db, id).None? && Replayed(db, c)
    ensures db.IsDeal(id) && db.vouchers[id].deal.value.currency == c ==> RowRetractable(db, id)
    ensures Replayed(Step(Exact, db, DeleteOp(id)), c)
  {
    hide Inv, Unwound, Replayed, RowRetractable, Applied, DeleteError;
    var db' := Step(Exact, db, DeleteOp(id));
    CommittedDelete(db, id);
    if db.IsDeal(id) && db.vouchers[id].deal.value.currency == c {
      TakenReplay(db, db', id, c);
    } else {
      ElsewhereUnwound(db, db.vouchers[id], c);
      SameReplay(Exact, db, db', c);
    }
  }

  lemma CommittedDelete(db: Db, id: nat)
    requires Inv(Exact, db) && DeleteError(db, id).None?
    ensures var db' := Step(Exact, db, DeleteOp(id));
      && id in db.vouchers && db.vouchers[id].status == Final
      && db'.vouchers == db.vouchers - {id} && db'.nextId == db.nextId
      && db'.positions == Unwound(Exact, db, db.vouchers[id])
  {
    hide Inv, Unwound;
    StepChanges(Exact, db, DeleteOp(id));
  }

  lemma VoidedReplay(db: Db, id: nat, reason: string, c: nat)
    requires Inv(Exact, db) && InTurn(db, VoidOp(id, reason)) && Replayed(db, c)
    ensures VoidVoucher(Exact, db, id, reason).Committed? && db.IsDeal(id) && db.vouchers[id].deal.value.currency == c ==>
      RowRetractable(db, id)
    ensures Replayed(Step(Exact, db, VoidOp(id, reason)), c)
  {
    hide Inv, Unwound, Replayed, RowRetractable, VoidVoucher, VoidError, Mirrors, Reversed;
    var db' := Step(Exact, db, VoidOp(id, reason));
    if VoidVoucher(Exact, db, id, reason).Committed? {
      CommittedVoid(Exact, db, id, reason);
      VoidChanges(Exact, db, id, reason);
      VoidPositions(Exact, db, id, reason);
      BelowNext(Exact, db, id);
      if db.IsDeal(id) && db.vouchers[id].deal.value.currency == c {
        TakenReplay(db, db', id, c);
      } else {
        ElsewhereUnwound(db, db.vouchers[id], c);
        SameReplay(Exact, db, db', c);
      }
    }
  }

  lemma BelowNext(m: Rounding, db: Db, id: nat)
    requires Inv(m, db) && id in db.vouchers
    ensures id < db.nextId
  {
  }

  // ------------------------------------------------------------------ whole runs

  lemma InTurnStep(db: Db, op: Op)
    requires Inv(Exact, db) && InTurn(db, op) && forall c :: Replayed(db, c)
    ensures Orderly(db, op)
    ensures forall c :: Replayed(Step(Exact, db, op), c)
  {
    hide Inv, Replayed, RowRetractable, PostOrder, VoidVoucher, CanAllocate, Unwound, Entered, VoidError, DeleteError,
      Latest;
    match op
    case Post(o) =>
      if PostOrder(Exact, db, o).Committed? {
        forall c
          ensures Replayed(Step(Exact, db, op), c)
        {
          PostedReplay(db, o, c);
        }
      }
    case VoidOp(id, reason) =>
      if VoidError(db, id, reason).None? {
        AllocationSafety.VoidCommits(Exact, db, id, reason);
      }
      forall c
        ensures Replayed(Step(Exact, db, op), c)
        ensures VoidError(db, id, reason).None? && db.IsDeal(id) && db.vouchers[id].deal.value.currency == c ==>
          RowRetractable(db, id)
      {
        VoidedReplay(db, id, reason, c);
      }
      if VoidError(db, id, reason).None? && db.IsDeal(id) {
        assert Replayed(Step(Exact, db, op), db.vouchers[id].deal.value.currency);
      }
    case DeleteOp(id) =>
      if DeleteError(db, id).None? {
        forall c
          ensures Replayed(Step(Exact, db, op), c)
          ensures db.IsDeal(id) && db.vouchers[id].deal.value.currency == c ==> RowRetractable(db, id)
        {
          DeletedReplay(db, id, c);
        }
        if db.IsDeal(id) {
          assert Replayed(Step(Exact, db, op), db.vouchers[id].deal.value.currency);
        }
      }
    case AllocateOp(_, _, _, _) =>
      forall c
        ensures Replayed(Step(Exact, db, op), c)
      {
        SameReplay(Exact, db, Step(Exact, db, op), c);
      }
  }

  ghost predicate InTurnRun(g: Registry, ops: seq<Op>) {
    forall i :: 0 <= i < |ops| ==> InTurn(Run(Exact, g, ops[..i]), ops[i])
  }

  lemma InTurnPrefix(g: Registry, ops: seq<Op>)
    requires InTurnRun(g, ops) && ops != []
    ensures InTurnRun(g, ops[..|ops| - 1])
    ensures InTurn(Run(Exact, g, ops[..|ops| - 1]), ops[|ops| - 1])
  {
    hide Run, InTurn;
    var init := ops[..|ops| - 1];
    forall i | 0 <= i < |init|
      ensures init[..i] == ops[..i]
    {
    }
  }

  /** Voiding and deleting latest first is orderly, so net worth is profit in every such run; and every stored
      row is the replay of the deals in force, as if the others had never been made. */
  lemma {:induction false} LatestFirstIsOrderly(g: Registry, ops: seq<Op>)
    requires InTurnRun(g, ops)
    ensures OrderlyRun(g, ops) && forall c :: Replayed(Run(Exact, g, ops), c)
  {
    hide Inv, Step, Orderly, InTurn, InTurnRun, Replayed;
    if ops == [] {
      NothingToReplay(g);
    } else {
      var init := ops[..|ops| - 1];
      InTurnPrefix(g, ops);
      LatestFirstIsOrderly(g, init);
      Reachable(Exact, g, init);
      InTurnStep(Run(Exact, g, init), ops[|ops| - 1]);
      forall i | 0 <= i < |ops|
        ensures Orderly(Run(Exact, g, ops[..i]), ops[i])
      {
        if i < |init| {
          assert ops[..i] == init[..i] && ops[i] == init[i];
        }
      }
    }
  }

  lemma NothingToReplay(g: Registry)
    ensures forall c :: Replayed(Empty(g), c)
  {
  }
}
