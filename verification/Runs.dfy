/** Every run of the services: what each committed call keeps true of the tables. */
module Runs {
  import opened Amounts
  import opened Inventory
  import opened Books
  import opened Context
  import opened Allocation

  datatype Op =
    | Post(order: Order)
    | VoidOp(id: nat, reason: string)
    | DeleteOp(id: nat)
    | AllocateOp(use: Use, deal: nat, payment: nat, amount: real)

  function Perform(m: Rounding, db: Db, op: Op): Outcome {
    match op
    case Post(o) => PostOrder(m, db, o)
    case VoidOp(id, reason) => VoidVoucher(m, db, id, reason)
    case DeleteOp(id) => DeleteVoucher(m, db, id)
    case AllocateOp(u, d, p, x) => Allocate(m, db, u, d, p, x)
  }

  /** A refused call leaves the database as it was. */
  function Step(m: Rounding, db: Db, op: Op): Db {
    match Perform(m, db, op)
    case Committed(db', _) => db'
    case Rejected(_) => db
  }

  function Run(m: Rounding, g: Registry, ops: seq<Op>): Db {
    if ops == [] then Empty(g) else Step(m, Run(m, g, ops[..|ops| - 1]), ops[|ops| - 1])
  }

  // ------------------------------------------------------------------ invariants

  /** A row as the posting service leaves it: numbered, balanced in every currency, dated alike. */
  ghost predicate VoucherOk(m: Rounding, v: Voucher, sequence: nat) {
    && v.status != Draft
    && v.number.Some? && 1 <= v.number.value <= sequence
    && v.key != Some("")
    && v.entries != []
    && (forall i :: 0 <= i < |v.entries| ==>
        && v.entries[i].rowNo == i + 1 && v.entries[i].date == v.date
        && v.entries[i].amount != 0.0 && OnGrid(m, v.entries[i].amount))
    && (forall c :: EntrySum(v.entries, InCurrency(c)) == 0.0)
  }

  /** Entry by entry the same rows with opposite amounts. */
  ghost predicate Mirrors(es: seq<Entry>, es0: seq<Entry>) {
    |es| == |es0| && forall i :: 0 <= i < |es| ==> es[i] == Opposed(es0[i])
  }

  function Opposed(e: Entry): Entry {
    e.(amount := -e.amount)
  }

  /** `w` reverses `u`: an older voucher, now void, whose rows it mirrors. */
  ghost predicate ReversesOk(vs: map<nat, Voucher>, w: nat, u: nat)
    requires w in vs
  {
    && u < w && u in vs && vs[u].status == Void && vs[w].date == vs[u].date
    && Mirrors(vs[w].entries, vs[u].entries) && vs[w].deal.None? && vs[w].kind == AdjustV && vs[w].key.None?
  }

  ghost predicate Backward(vs: map<nat, Voucher>) {
    forall w :: w in vs && vs[w].reverses.Some? ==> ReversesOk(vs, w, vs[w].reverses.value)
  }

  ghost predicate Reversed(vs: map<nat, Voucher>, u: nat) {
    exists w :: w in vs && vs[w].reverses == Some(u)
  }

  ghost predicate Forward(vs: map<nat, Voucher>) {
    forall u :: u in vs && vs[u].status == Void ==> Reversed(vs, u)
  }

  ghost predicate OneToOne(vs: map<nat, Voucher>) {
    forall w, x :: w in vs && x in vs && vs[w].reverses.Some? && vs[w].reverses == vs[x].reverses ==> w == x
  }

  ghost predicate Linked(vs: map<nat, Voucher>) {
    Backward(vs) && Forward(vs) && OneToOne(vs)
  }

  ghost predicate Distinct(vs: map<nat, Voucher>) {
    && (forall v, w :: v in vs && w in vs && vs[v].number == vs[w].number ==> v == w)
    && (forall v, w :: v in vs && w in vs && vs[v].key.Some? && vs[v].key == vs[w].key ==> v == w)
  }

  ghost predicate RowsOk(m: Rounding, vs: map<nat, Voucher>, nextId: nat, sequence: nat) {
    forall id :: id in vs ==> id < nextId && VoucherOk(m, vs[id], sequence)
  }

  ghost predicate Inv(m: Rounding, db: Db) {
    && RowsOk(m, db.vouchers, db.nextId, db.sequence)
    && Linked(db.vouchers)
    && Distinct(db.vouchers)
  }

  // ------------------------------------------------------------------ lookups

  lemma {:induction false} KeyHolderFinds(vs: map<nat, Voucher>, n: nat, key: string)
    ensures var h := KeyHolder(vs, n, key);
      && (h.Some? ==> h.value < n && h.value in vs && vs[h.value].key == Some(key))
      && (h.None? ==> forall i: nat :: i < n && i in vs ==> vs[i].key != Some(key))
  {
    if n == 0 {
    } else {
      KeyHolderFinds(vs, n - 1, key);
    }
  }

  lemma {:induction false} ReverserFinds(vs: map<nat, Voucher>, n: nat, id: nat)
    ensures var r := Reverser(vs, n, id);
      && (r.Some? ==> r.value < n && r.value in vs && vs[r.value].reverses == Some(id))
      && (r.None? ==> forall i: nat :: i < n && i in vs ==> vs[i].reverses != Some(id))
  {
    if n == 0 {
    } else {
      ReverserFinds(vs, n - 1, id);
    }
  }

  // ------------------------------------------------------------------ sums

  lemma {:induction false} EntrySumZero(es: seq<Entry>, w: Entry -> real)
    requires forall e :: e in es ==> w(e) == 0.0
    ensures EntrySum(es, w) == 0.0
  {
    if es == [] {
    } else {
      EntrySumZero(es[..|es| - 1], w);
    }
  }

  lemma {:induction false} MirrorSum(es: seq<Entry>, es0: seq<Entry>, w: Entry -> real)
    requires Mirrors(es, es0)
    requires forall e :: e in es0 ==> w(Opposed(e)) == -w(e)
    ensures EntrySum(es, w) == -EntrySum(es0, w)
  {
    if es == [] {
    } else {
      MirrorSum(es[..|es| - 1], es0[..|es0| - 1], w);
    }
  }

  lemma {:induction false} OppositeTotal(m: Rounding, es: seq<Entry>, c: nat)
    requires forall e :: e in es ==> OnGrid(m, e.amount)
    ensures LineTotal(m, Opposite(es), c) == -EntrySum(es, InCurrency(c))
  {
    hide Ctx, OnGrid;
    if es == [] {
    } else {
      var init := es[..|es| - 1];
      assert Opposite(es)[..|es| - 1] == Opposite(init);
      OppositeTotal(m, init, c);
      var x := es[|es| - 1].amount;
      assert es[|es| - 1] in es;
      GridSum(m, x, x);
      CtxGrid(m, -x);
    }
  }

  lemma StoredBalancedEverywhere(es: seq<Entry>, c: nat)
    requires StoredBalanced(es)
    ensures EntrySum(es, InCurrency(c)) == 0.0
  {
    if forall e :: e in es ==> e.currency != c {
      EntrySumZero(es, InCurrency(c));
    }
  }

  /** A pair of lines always passes the first check, and the second one exactly when its amount is stored alike
      with all its digits and rounded to the context. */
  lemma PairBalanced(m: Rounding, a: Account, b: Account, c: nat, x: real, date: int)
    ensures Balanced(m, Pair(m, a, b, c, x))
    ensures StoredBalanced(EntriesOf(m, Pair(m, a, b, c, x), date)) <==> Store(m, x) == Store(m, Ctx(m, x))
  {
    hide Store, Ctx;
    StoreOdd(m, Ctx(m, x));
    CtxTwice(m, x);
    CtxOdd(m, Ctx(m, x));
    var lines := Pair(m, a, b, c, x);
    var es := EntriesOf(m, lines, date);
    assert lines[..1] == [lines[0]] && es[..1] == [es[0]];
    assert [lines[0]][..0] == [] && [es[0]][..0] == [];
    forall d: nat
      ensures LineTotal(m, lines, d) == 0.0
      ensures EntrySum(es, InCurrency(d)) == if c == d then Store(m, x) - Store(m, Ctx(m, x)) else 0.0
    {
      assert LineTotal(m, [lines[0]], d) == if c == d then Ctx(m, x) else 0.0;
      assert EntrySum([es[0]], InCurrency(d)) == if c == d then Store(m, x) else 0.0;
    }
    assert es[0] in es;
  }

  /** An amount with at most eight decimals always is. */
  lemma GridPair(m: Rounding, x: real)
    requires OnGrid(m, x)
    ensures Store(m, x) == Store(m, Ctx(m, x))
  {
    CtxGrid(m, x);
  }

  // ------------------------------------------------------------------ what posting adds

  /** Exactly one row is added, under the next number, and it is well formed. */
  lemma PostedVoucher(m: Rounding, db: Db, r: Request)
    requires PostError(m, db, r).None?
    ensures VoucherOk(m, VoucherOf(m, r, db.sequence + 1), db.sequence + 1)
  {
    hide Store, OnGrid, Within, EntrySum, LineTotal;
    var es := EntriesOf(m, r.lines, r.date);
    forall i | 0 <= i < |es|
      ensures es[i].amount != 0.0 && OnGrid(m, es[i].amount)
    {
      assert es[i] in es;
      StoreError(m, r.lines[i].amount);
    }
    forall c
      ensures EntrySum(es, InCurrency(c)) == 0.0
    {
      StoredBalancedEverywhere(es, c);
    }
  }

  lemma RowsInsert(m: Rounding, vs: map<nat, Voucher>, nextId: nat, sequence: nat, v: Voucher)
    requires RowsOk(m, vs, nextId, sequence) && VoucherOk(m, v, sequence + 1)
    ensures RowsOk(m, vs[nextId := v], nextId + 1, sequence + 1)
  {
    hide VoucherOk;
    forall id | id in vs
      ensures VoucherOk(m, vs[id], sequence + 1)
    {
      Renumber(m, vs[id], sequence, sequence + 1);
    }
  }

  lemma Renumber(m: Rounding, v: Voucher, n: nat, n': nat)
    requires VoucherOk(m, v, n) && n <= n'
    ensures VoucherOk(m, v, n')
  {
    hide OnGrid, EntrySum;
  }

  lemma NumberRange(m: Rounding, v: Voucher, n: nat)
    requires VoucherOk(m, v, n)
    ensures v.number.Some? && 1 <= v.number.value <= n
  {
    hide OnGrid, EntrySum;
  }

  lemma DistinctInsert(m: Rounding, vs: map<nat, Voucher>, nextId: nat, sequence: nat, v: Voucher)
    requires RowsOk(m, vs, nextId, sequence) && Distinct(vs) && v.number == Some(sequence + 1)
    requires v.key.Some? ==> forall i :: i in vs ==> vs[i].key != v.key
    ensures Distinct(vs[nextId := v])
  {
    hide VoucherOk;
    forall id | id in vs
      ensures id < nextId && vs[id].number.Some? && vs[id].number.value <= sequence
    {
      NumberRange(m, vs[id], sequence);
    }
  }

  lemma LinkedInsert(vs: map<nat, Voucher>, nextId: nat, v: Voucher)
    requires Linked(vs) && (forall id :: id in vs ==> id < nextId) && v.reverses.None? && v.status == Final
    ensures Linked(vs[nextId := v])
  {
    hide Mirrors;
    var vs' := vs[nextId := v];
    forall u | u in vs' && vs'[u].status == Void
      ensures Reversed(vs', u)
    {
      assert Reversed(vs, u);
      var w :| w in vs && vs[w].reverses == Some(u);
      assert w in vs' && vs'[w] == vs[w];
    }
  }

  /** The key of an accepted request is new. */
  lemma KeyIsNew(m: Rounding, db: Db, r: Request)
    requires Inv(m, db) && PostError(m, db, r).None? && StoredKey(r.key).Some?
    ensures forall i :: i in db.vouchers ==> db.vouchers[i].key != StoredKey(r.key)
  {
    hide VoucherOk, Linked, Distinct, EntriesOf, StoredBalanced, Balanced;
    KeyHolderFinds(db.vouchers, db.nextId, StoredKey(r.key).value);
  }

  lemma PostKeeps(m: Rounding, db: Db, r: Request)
    requires Inv(m, db) && PostError(m, db, r).None? && r.reverses.None?
    ensures Inv(m, PostVoucher(m, db, r).db)
  {
    hide VoucherOk, Linked, Distinct, PostError, EntriesOf;
    var v := VoucherOf(m, r, db.sequence + 1);
    PostedVoucher(m, db, r);
    RowsInsert(m, db.vouchers, db.nextId, db.sequence, v);
    LinkedInsert(db.vouchers, db.nextId, v);
    if StoredKey(r.key).Some? {
      KeyIsNew(m, db, r);
    }
    DistinctInsert(m, db.vouchers, db.nextId, db.sequence, v);
  }

  /** A reversal posts the mirror image of the rows, unchanged by rounding. */
  lemma ReversalPosts(m: Rounding, db: Db, id: nat, ps: map<nat, Position>)
    requires Inv(m, db) && id in db.vouchers
    ensures var v := db.vouchers[id];
      var r := ReversalRequest(v, id);
      && PostError(m, db.(positions := ps), r).None?
      && Mirrors(VoucherOf(m, r, db.sequence + 1).entries, v.entries)
  {
    hide Store, OnGrid, Within, EntrySum, LineTotal, Ctx;
    var v := db.vouchers[id];
    var r := ReversalRequest(v, id);
    var es := EntriesOf(m, r.lines, r.date);
    forall i | 0 <= i < |es|
      ensures es[i] == Opposed(v.entries[i])
    {
      GridSum(m, v.entries[i].amount, v.entries[i].amount);
      StoreOnGrid(m, -v.entries[i].amount);
    }
    forall c: nat
      ensures LineTotal(m, r.lines, c) == 0.0 && EntrySum(es, InCurrency(c)) == 0.0
    {
      OppositeTotal(m, v.entries, c);
      MirrorSum(es, v.entries, InCurrency(c));
    }
  }

  /** Marking `id` void in the same breath as its reversal is added keeps the links. */
  lemma LinkedReversal(vs: map<nat, Voucher>, nextId: nat, id: nat, rev: Voucher)
    requires Linked(vs) && (forall i :: i in vs ==> i < nextId) && id in vs && vs[id].status == Final
    requires forall i :: i in vs ==> vs[i].reverses != Some(id)
    requires rev.reverses == Some(id) && rev.status == Final && rev.date == vs[id].date && rev.deal.None?
    requires Mirrors(rev.entries, vs[id].entries) && rev.kind == AdjustV && rev.key.None?
    ensures Linked(vs[nextId := rev][id := vs[id].(status := Void)])
  {
    ForwardReversal(vs, nextId, id, rev);
    BackwardReversal(vs, nextId, id, rev);
    hide Mirrors, Forward, Backward;
  }

  lemma ForwardReversal(vs: map<nat, Voucher>, nextId: nat, id: nat, rev: Voucher)
    requires Forward(vs) && nextId !in vs && id in vs && rev.reverses == Some(id) && rev.status == Final
    ensures Forward(vs[nextId := rev][id := vs[id].(status := Void)])
  {
    var vs' := vs[nextId := rev][id := vs[id].(status := Void)];
    forall u | u in vs' && vs'[u].status == Void
      ensures Reversed(vs', u)
    {
      if u == id {
        assert nextId in vs' && vs'[nextId] == rev;
      } else {
        assert Reversed(vs, u);
        var w :| w in vs && vs[w].reverses == Some(u);
        assert w in vs' && vs'[w].reverses == Some(u);
      }
    }
  }

  lemma BackwardReversal(vs: map<nat, Voucher>, nextId: nat, id: nat, rev: Voucher)
    requires Backward(vs) && (forall i :: i in vs ==> i < nextId) && id in vs
    requires rev.reverses == Some(id) && rev.date == vs[id].date && rev.deal.None?
    requires Mirrors(rev.entries, vs[id].entries) && rev.kind == AdjustV && rev.key.None?
    ensures Backward(vs[nextId := rev][id := vs[id].(status := Void)])
  {
    hide Mirrors;
    var vs' := vs[nextId := rev][id := vs[id].(status := Void)];
    forall w | w in vs' && vs'[w].reverses.Some?
      ensures ReversesOk(vs', w, vs'[w].reverses.value)
    {
      if w != nextId {
        assert ReversesOk(vs, w, vs[w].reverses.value);
      }
    }
  }

  lemma Voided(m: Rounding, v: Voucher, n: nat)
    requires VoucherOk(m, v, n)
    ensures VoucherOk(m, v.(status := Void), n)
  {
    hide OnGrid, EntrySum;
  }

  /** Voiding a final, unreversed voucher never fails once the checks pass. */
  lemma VoidKeeps(m: Rounding, db: Db, id: nat, reason: string)
    requires Inv(m, db) && VoidError(db, id, reason).None?
    ensures var out := VoidVoucher(m, db, id, reason);
      && out.Committed? && out.id == db.nextId && Inv(m, out.db)
      && var v := db.vouchers[id];
         var rev := VoucherOf(m, ReversalRequest(v, id), db.sequence + 1);
         && Mirrors(rev.entries, v.entries)
         && out.db == db.(vouchers := db.vouchers[db.nextId := rev][id := v.(status := Void)],
                          nextId := db.nextId + 1, sequence := db.sequence + 1,
                          positions := Unwound(m, db, v))
  {
    hide VoucherOk, Linked, Distinct, PostError, EntriesOf, Mirrors, Unwound;
    var v := db.vouchers[id];
    var db1 := db.(positions := Unwound(m, db, v));
    ReversalPosts(m, db, id, db1.positions);
    PostedVoucher(m, db1, ReversalRequest(v, id));
    ReverserFinds(db.vouchers, db.nextId, id);
    var rev := VoucherOf(m, ReversalRequest(v, id), db.sequence + 1);
    RowsInsert(m, db.vouchers, db.nextId, db.sequence, rev);
    DistinctInsert(m, db.vouchers, db.nextId, db.sequence, rev);
    LinkedReversal(db.vouchers, db.nextId, id, rev);
    var vs := db.vouchers[db.nextId := rev];
    assert id < db.nextId;
    Voided(m, vs[id], db.sequence + 1);
    DistinctVoid(vs, id);
  }

  lemma DistinctVoid(vs: map<nat, Voucher>, id: nat)
    requires Distinct(vs) && id in vs
    ensures Distinct(vs[id := vs[id].(status := Void)])
  {
  }

  lemma LinkedRemove(vs: map<nat, Voucher>, id: nat)
    requires Linked(vs) && id in vs && vs[id].reverses.None? && forall i :: i in vs ==> vs[i].reverses != Some(id)
    ensures Linked(vs - {id})
  {
    hide Mirrors;
    var vs' := vs - {id};
    forall u | u in vs' && vs'[u].status == Void
      ensures Reversed(vs', u)
    {
      assert Reversed(vs, u);
      var w :| w in vs && vs[w].reverses == Some(u);
      assert w in vs' && vs'[w] == vs[w];
    }
    forall w | w in vs' && vs'[w].reverses.Some?
      ensures ReversesOk(vs', w, vs'[w].reverses.value)
    {
      assert ReversesOk(vs, w, vs[w].reverses.value);
    }
  }

  /** Only a voucher that is still final can be deleted. */
  lemma DeleteKeeps(m: Rounding, db: Db, id: nat)
    requires Inv(m, db) && DeleteError(db, id).None?
    ensures Inv(m, DeleteVoucher(m, db, id).db)
    ensures db.vouchers[id].status == Final
  {
    hide VoucherOk, Distinct, Unwound, Mirrors;
    ReverserFinds(db.vouchers, db.nextId, id);
    NotDraft(m, db, id);
    LinkedRemove(db.vouchers, id);
    DistinctRemove(db.vouchers, id);
  }

  lemma NotDraft(m: Rounding, db: Db, id: nat)
    requires Inv(m, db) && id in db.vouchers
    ensures db.vouchers[id].status != Draft
  {
    hide Linked, Distinct;
  }

  lemma DistinctRemove(vs: map<nat, Voucher>, id: nat)
    requires Distinct(vs)
    ensures Distinct(vs - {id})
  {
  }

  /** Every committed call, whatever its arguments, keeps the tables well formed. */
  lemma StepKeeps(m: Rounding, db: Db, op: Op)
    requires Inv(m, db)
    ensures Inv(m, Step(m, db, op))
  {
    hide VoucherOk, Linked, Distinct, PostError, VoidError, DeleteError, CanAllocate;
    match op
    case Post(o) =>
      OrderKeeps(m, db, o);
    case VoidOp(id, reason) =>
      if VoidError(db, id, reason).None? {
        VoidKeeps(m, db, id, reason);
      }
    case DeleteOp(id) =>
      if DeleteError(db, id).None? {
        DeleteKeeps(m, db, id);
      }
    case AllocateOp(u, d, p, x) =>
  }

  lemma OrderKeeps(m: Rounding, db: Db, o: Order)
    requires Inv(m, db)
    ensures PostOrder(m, db, o).Committed? ==> Inv(m, PostOrder(m, db, o).db)
  {
    hide VoucherOk, Linked, Distinct, PostError, OrderError, DealLines, Apply, Store;
    if PostOrder(m, db, o).Committed? {
      if o.DealOrder? {
        var fill := Apply(m, db.PositionRow(o.currency), o.side, o.quantity, o.unitPrice);
        PostKeeps(m, db.(positions := db.positions[o.currency := fill.position]),
                  DealRequest(m, o, db.registry.base.value, fill.avgAtTime, fill.realized));
      } else {
        PostKeeps(m, db, OrderRequest(m, o));
      }
    }
  }

  /** Every database a run can reach is well formed: each voucher sums to zero in every currency and
      carries one date, numbers and external keys are unique, and reversals are linked one to one to
      the vouchers they void. */
  lemma {:induction false} Reachable(m: Rounding, g: Registry, ops: seq<Op>)
    ensures Inv(m, Run(m, g, ops))
  {
    hide VoucherOk, Linked, Distinct, Perform;
    if ops == [] {
      EmptyInv(m, g);
    } else {
      Reachable(m, g, ops[..|ops| - 1]);
      StepKeeps(m, Run(m, g, ops[..|ops| - 1]), ops[|ops| - 1]);
    }
  }

  lemma EmptyInv(m: Rounding, g: Registry)
    ensures Inv(m, Empty(g))
  {
  }
}
