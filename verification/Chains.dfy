/** Reversal chains: a voucher, the reversal that voids it, the reversal of that, and so on. */
module Chains {
  import opened Amounts
  import opened Inventory
  import opened Books
  import opened Allocation
  import opened Runs
  import opened Sums

  ghost predicate Below(vs: map<nat, Voucher>, n: nat) {
    forall id :: id in vs ==> id < n
  }

  /** `id` followed by everything that was issued to reverse it. */
  ghost function Chain(vs: map<nat, Voucher>, n: nat, id: nat): seq<nat>
    requires Backward(vs) && Below(vs, n)
    decreases if id < n then n - id else 0
  {
    match Reverser(vs, n, id)
    case None => [id]
    case Some(w) =>
      ReverserFinds(vs, n, id);
      assert ReversesOk(vs, w, id);
      [id] + Chain(vs, n, w)
  }

  /** How many reversals `id` is removed from an ordinary voucher. */
  ghost function Depth(vs: map<nat, Voucher>, id: nat): nat {
    if id in vs && vs[id].reverses.Some? && vs[id].reverses.value < id
    then Depth(vs, vs[id].reverses.value) + 1
    else 0
  }

  /** The ordinary voucher a chain starts from. */
  ghost function Root(vs: map<nat, Voucher>, id: nat): nat {
    if id in vs && vs[id].reverses.Some? && vs[id].reverses.value < id
    then Root(vs, vs[id].reverses.value)
    else id
  }

  /** A weight that turns over with the sign of the amount; a balance restricted to any accounts,
      currencies and dates is a sum of such weights. */
  ghost predicate Odd(w: Entry -> real) {
    forall e :: w(Opposed(e)) == -w(e)
  }

  ghost function Effect(vs: map<nat, Voucher>, w: Entry -> real, id: nat): real {
    if id in vs then EntrySum(vs[id].entries, w) else 0.0
  }

  ghost function NetEffect(vs: map<nat, Voucher>, w: Entry -> real, ids: seq<nat>): real {
    if ids == [] then 0.0 else Effect(vs, w, ids[0]) + NetEffect(vs, w, ids[1..])
  }

  /** Along a chain every voucher reverses the one before it, all carry one date, all but the last
      are void and the last is not. */
  lemma {:induction false} ChainLinks(vs: map<nat, Voucher>, n: nat, id: nat, i: nat)
    requires Linked(vs) && Below(vs, n) && id in vs && i < |Chain(vs, n, id)|
    ensures var ch := Chain(vs, n, id);
      && ch[0] == id && ch[i] in vs && vs[ch[i]].date == vs[id].date
      && (i + 1 < |ch| ==> ch[i] < ch[i + 1] && ch[i + 1] in vs && vs[ch[i + 1]].reverses == Some(ch[i])
                           && vs[ch[i]].status == Void)
      && (i + 1 == |ch| ==> vs[ch[i]].status != Void && Reverser(vs, n, ch[i]).None?)
    decreases n - id
  {
    hide Mirrors;
    ReverserFinds(vs, n, id);
    var r := Reverser(vs, n, id);
    if r.Some? {
      assert ReversesOk(vs, r.value, id);
      if i > 0 {
        ChainLinks(vs, n, r.value, i - 1);
      } else {
        ChainLinks(vs, n, r.value, 0);
      }
    } else {
      assert !Reversed(vs, id);
    }
  }

  /** The net effect of a chain on every account, currency and date cut is that of its first voucher
      when its length is odd, and nothing when it is even. */
  lemma {:induction false} ChainNet(vs: map<nat, Voucher>, n: nat, id: nat, w: Entry -> real)
    requires Linked(vs) && Below(vs, n) && id in vs && Odd(w)
    ensures var ch := Chain(vs, n, id);
      NetEffect(vs, w, ch) == if |ch| % 2 == 1 then Effect(vs, w, id) else 0.0
    decreases n - id
  {
    hide EntrySum;
    ReverserFinds(vs, n, id);
    var r := Reverser(vs, n, id);
    if r.Some? {
      assert ReversesOk(vs, r.value, id);
      MirrorSum(vs[r.value].entries, vs[id].entries, w);
      ChainNet(vs, n, r.value, w);
      assert Chain(vs, n, id)[1..] == Chain(vs, n, r.value);
    } else {
      assert Chain(vs, n, id) == [id];
    }
  }

  /** Chains that start from ordinary vouchers cover every voucher... */
  lemma {:induction false} InRootChain(vs: map<nat, Voucher>, n: nat, id: nat)
    requires Linked(vs) && Below(vs, n) && id in vs
    ensures var r := Root(vs, id);
      r in vs && vs[r].reverses.None? && id in Chain(vs, n, r)
  {
    if vs[id].reverses.Some? {
      var u := vs[id].reverses.value;
      assert ReversesOk(vs, id, u);
      InRootChain(vs, n, u);
      ChainClosed(vs, n, Root(vs, u), u, id);
    }
  }

  lemma {:induction false} ChainClosed(vs: map<nat, Voucher>, n: nat, r: nat, u: nat, w: nat)
    requires Linked(vs) && Below(vs, n) && r in vs && u in Chain(vs, n, r)
    requires w in vs && vs[w].reverses == Some(u)
    ensures w in Chain(vs, n, r)
    decreases n - r
  {
    hide Mirrors;
    ReverserFinds(vs, n, r);
    var x := Reverser(vs, n, r);
    if x.Some? {
      assert ReversesOk(vs, x.value, r);
      if u == r {
        assert w == x.value;
        ChainLinks(vs, n, w, 0);
        assert w in Chain(vs, n, w);
      } else {
        ChainClosed(vs, n, x.value, u, w);
      }
    }
  }

  /** ...and never meet: a voucher is in the chain of its own root only. */
  lemma {:induction false} ChainsDisjoint(vs: map<nat, Voucher>, n: nat, r: nat, id: nat)
    requires Linked(vs) && Below(vs, n) && r in vs && id in Chain(vs, n, r)
    ensures Root(vs, id) == Root(vs, r)
    decreases n - r
  {
    hide Mirrors;
    ReverserFinds(vs, n, r);
    var x := Reverser(vs, n, r);
    if x.Some? && id != r {
      assert ReversesOk(vs, x.value, r);
      ChainsDisjoint(vs, n, x.value, id);
    }
  }

  /** A voucher can be deleted exactly when it is an ordinary one, alone in its chain, and no
      allocation uses it as payment. */
  lemma DeletableAlone(m: Rounding, db: Db, id: nat)
    requires Inv(m, db) && id in db.vouchers
    ensures DeleteError(db, id).None? <==>
      && Depth(db.vouchers, id) == 0
      && Chain(db.vouchers, db.nextId, id) == [id]
      && (forall k :: k in db.settlements || k in db.deliveries ==> k.1 != id)
  {
    hide VoucherOk, Distinct, Mirrors;
    var vs, n := db.vouchers, db.nextId;
    ReverserFinds(vs, n, id);
    if Reverser(vs, n, id).Some? {
      var w := Reverser(vs, n, id).value;
      ChainLinks(vs, n, w, 0);
      assert |Chain(vs, n, id)| > 1;
    }
    if vs[id].reverses.Some? {
      assert ReversesOk(vs, id, vs[id].reverses.value);
    }
  }

  // ------------------------------------------------------------------ the books as a whole

  /** The vouchers whose effect is in force: the ends of chains of odd length. */
  ghost predicate InForce(vs: map<nat, Voucher>, id: nat) {
    id in vs && vs[id].status == Final && Depth(vs, id) % 2 == 0
  }

  function PostedTerm(vs: map<nat, Voucher>, w: Entry -> real): nat -> real {
    (id: nat) => if id in vs && vs[id].status != Draft then EntrySum(vs[id].entries, w) else 0.0
  }

  ghost function InForceTerm(vs: map<nat, Voucher>, w: Entry -> real): nat -> real {
    (id: nat) => if InForce(vs, id) then EntrySum(vs[id].entries, w) else 0.0
  }

  /** The sum of a weight over all posted rows: every balance the system shows is one of these. */
  function Total(db: Db, w: Entry -> real): real {
    Sum(db.nextId, PostedTerm(db.vouchers, w))
  }

  ghost function InForceTotal(db: Db, w: Entry -> real): real {
    Sum(db.nextId, InForceTerm(db.vouchers, w))
  }

  /** Depth depends only on the links below a voucher. */
  lemma {:induction false} DepthSame(vs: map<nat, Voucher>, vs': map<nat, Voucher>, id: nat)
    requires Backward(vs) && id in vs && id in vs'
    requires forall i :: i in vs && i in vs' ==> vs'[i].reverses == vs[i].reverses
    requires forall i :: i in vs && i !in vs' ==> !Reversed(vs, i)
    ensures Depth(vs', id) == Depth(vs, id)
  {
    hide Mirrors;
    if vs[id].reverses.Some? {
      var u := vs[id].reverses.value;
      assert ReversesOk(vs, id, u);
      assert Reversed(vs, u);
      DepthSame(vs, vs', u);
    }
  }

  lemma TotalsAfterInsert(m: Rounding, db: Db, db': Db, v: Voucher, w: Entry -> real)
    requires Inv(m, db) && v.status == Final && v.reverses.None?
    requires db'.vouchers == db.vouchers[db.nextId := v] && db'.nextId == db.nextId + 1
    ensures Total(db', w) == Total(db, w) + EntrySum(v.entries, w)
    ensures InForceTotal(db', w) == InForceTotal(db, w) + EntrySum(v.entries, w)
  {
    hide VoucherOk, Distinct, Mirrors, EntrySum;
    var vs, vs', n := db.vouchers, db'.vouchers, db.nextId;
    SumEqual(n, PostedTerm(vs, w), PostedTerm(vs', w));
    forall i: nat | i < n
      ensures InForceTerm(vs, w)(i) == InForceTerm(vs', w)(i)
    {
      if i in vs {
        DepthSame(vs, vs', i);
      }
    }
    SumEqual(n, InForceTerm(vs, w), InForceTerm(vs', w));
  }

  /** `db'` is `db` after voucher `id` was voided by the reversal `rev`. */
  ghost predicate VoidedBy(db: Db, db': Db, id: nat, rev: Voucher) {
    && id in db.vouchers && db.vouchers[id].status == Final && !Reversed(db.vouchers, id)
    && rev.status == Final && rev.reverses == Some(id) && Mirrors(rev.entries, db.vouchers[id].entries)
    && db'.nextId == db.nextId + 1
    && db'.vouchers == db.vouchers[db.nextId := rev][id := db.vouchers[id].(status := Void)]
  }

  lemma TotalsAfterVoid(m: Rounding, db: Db, db': Db, id: nat, rev: Voucher, w: Entry -> real)
    requires Inv(m, db) && Odd(w) && VoidedBy(db, db', id, rev)
    ensures Total(db', w) == Total(db, w) - EntrySum(db.vouchers[id].entries, w)
    ensures InForceTotal(db', w) == InForceTotal(db, w) - EntrySum(db.vouchers[id].entries, w)
  {
    hide VoucherOk, Distinct, EntrySum, Mirrors, Linked, Odd, InForceTotal;
    var vs, vs', n := db.vouchers, db'.vouchers, db.nextId;
    assert id < n;
    OppositeRows(rev, vs[id], w);
    SumEqual(n, PostedTerm(vs, w), PostedTerm(vs', w));
    InForceAfterVoid(m, db, db', id, rev, w);
  }

  lemma InForceAfterVoid(m: Rounding, db: Db, db': Db, id: nat, rev: Voucher, w: Entry -> real)
    requires Inv(m, db) && VoidedBy(db, db', id, rev)
    ensures InForceTotal(db', w) == InForceTotal(db, w)
      + (if Depth(db.vouchers, id) % 2 == 0 then 0.0 else EntrySum(rev.entries, w))
      - (if Depth(db.vouchers, id) % 2 == 0 then EntrySum(db.vouchers[id].entries, w) else 0.0)
  {
    hide EntrySum, Inv, VoidedBy, Depth;
    var vs, vs', n := db.vouchers, db'.vouchers, db.nextId;
    DepthsAfterVoid(m, db, db', id, rev);
    SumUpdate(n, InForceTerm(vs, w), InForceTerm(vs', w), id);
  }

  lemma SameDepths(m: Rounding, db: Db, db': Db, id: nat, rev: Voucher)
    requires Inv(m, db) && VoidedBy(db, db', id, rev)
    ensures forall i: nat :: i in db.vouchers ==> Depth(db'.vouchers, i) == Depth(db.vouchers, i)
  {
    hide VoucherOk, Distinct, Mirrors, Forward, OneToOne;
    forall i: nat | i in db.vouchers
      ensures Depth(db'.vouchers, i) == Depth(db.vouchers, i)
    {
      DepthSame(db.vouchers, db'.vouchers, i);
    }
  }

  lemma OneDeeper(vs: map<nat, Voucher>, n: nat, id: nat)
    requires n in vs && vs[n].reverses == Some(id) && id < n
    ensures Depth(vs, n) == Depth(vs, id) + 1
  {
  }

  /** A void leaves every other voucher in force or not as it was; of the voided one and its reversal,
      the reversal is in force exactly when the other was not. */
  lemma DepthsAfterVoid(m: Rounding, db: Db, db': Db, id: nat, rev: Voucher)
    requires Inv(m, db) && VoidedBy(db, db', id, rev)
    ensures id in db.vouchers && id < db.nextId && db'.nextId == db.nextId + 1
    ensures forall i: nat :: i < db.nextId && i != id && (i in db.vouchers || i in db'.vouchers) ==>
      && i in db.vouchers && i in db'.vouchers && db'.vouchers[i] == db.vouchers[i]
      && (InForce(db'.vouchers, i) <==> InForce(db.vouchers, i))
    ensures !InForce(db'.vouchers, id) && (InForce(db.vouchers, id) <==> Depth(db.vouchers, id) % 2 == 0)
    ensures db.nextId in db'.vouchers && db'.vouchers[db.nextId] == rev
    ensures InForce(db'.vouchers, db.nextId) <==> Depth(db.vouchers, id) % 2 != 0
  {
    hide VoucherOk, Linked, Distinct, Mirrors, Depth, Reversed;
    SameDepths(m, db, db', id, rev);
    assert id < db.nextId && db'.vouchers[db.nextId] == rev;
    OneDeeper(db'.vouchers, db.nextId, id);
  }

  lemma OppositeRows(rev: Voucher, v: Voucher, w: Entry -> real)
    requires Odd(w) && Mirrors(rev.entries, v.entries)
    ensures EntrySum(rev.entries, w) == -EntrySum(v.entries, w)
  {
    MirrorSum(rev.entries, v.entries, w);
  }

  lemma TotalsAfterRemove(m: Rounding, db: Db, db': Db, id: nat, w: Entry -> real)
    requires Inv(m, db) && id in db.vouchers && db.vouchers[id].status == Final
    requires !Reversed(db.vouchers, id) && db.vouchers[id].reverses.None?
    requires db'.vouchers == db.vouchers - {id} && db'.nextId == db.nextId
    ensures Total(db', w) == Total(db, w) - EntrySum(db.vouchers[id].entries, w)
    ensures InForceTotal(db', w) == InForceTotal(db, w) - EntrySum(db.vouchers[id].entries, w)
  {
    hide VoucherOk, Distinct, Mirrors, EntrySum;
    var vs, vs', n := db.vouchers, db'.vouchers, db.nextId;
    assert id < n;
    SumUpdate(n, PostedTerm(vs, w), PostedTerm(vs', w), id);
    forall i: nat | i < n && i != id
      ensures InForceTerm(vs, w)(i) == InForceTerm(vs', w)(i)
    {
      if i in vs {
        DepthSame(vs, vs', i);
      }
    }
    SumUpdate(n, InForceTerm(vs, w), InForceTerm(vs', w), id);
  }

  /** How a call changes the voucher table. */
  datatype Change = Untouched | Added(voucher: Voucher) | Reversing(id: nat, reversal: Voucher) | Removed(id: nat)

  /** Nothing but voucher, inventory and counter rows differs. */
  ghost predicate SameAllocations(db: Db, db': Db) {
    db'.settlements == db.settlements && db'.deliveries == db.deliveries
  }

  ghost predicate Applied(db: Db, db': Db, c: Change) {
    db'.registry == db.registry && match c
    case Untouched => db'.vouchers == db.vouchers && db'.nextId == db.nextId && db'.sequence == db.sequence
    case Added(v) =>
      && v.status == Final && v.reverses.None? && v.number == Some(db.sequence + 1)
      && db'.vouchers == db.vouchers[db.nextId := v] && db'.nextId == db.nextId + 1
      && db'.sequence == db.sequence + 1 && SameAllocations(db, db')
    case Reversing(id, rev) =>
      && id in db.vouchers && db.vouchers[id].status == Final && !Reversed(db.vouchers, id)
      && rev.status == Final && rev.reverses == Some(id) && rev.deal.None?
      && rev.number == Some(db.sequence + 1)
      && Mirrors(rev.entries, db.vouchers[id].entries)
      && db'.vouchers == db.vouchers[db.nextId := rev][id := db.vouchers[id].(status := Void)]
      && db'.nextId == db.nextId + 1 && db'.sequence == db.sequence + 1 && SameAllocations(db, db')
    case Removed(id) =>
      && id in db.vouchers && db.vouchers[id].status == Final && !Reversed(db.vouchers, id)
      && db.vouchers[id].reverses.None?
      && db'.vouchers == db.vouchers - {id} && db'.nextId == db.nextId && db'.sequence == db.sequence
      && (forall k :: k in db.settlements || k in db.deliveries ==> k.1 != id)
      && db'.settlements == Without(db.settlements, id) && db'.deliveries == Without(db.deliveries, id)
  }

  /** The change a call makes. */
  ghost function ChangeOf(m: Rounding, db: Db, op: Op): Change {
    match Perform(m, db, op)
    case Rejected(_) => Untouched
    case Committed(db', id) =>
      match op
      case Post(o) => if id in db'.vouchers then Added(db'.vouchers[id]) else Untouched
      case VoidOp(v, _) => if id in db'.vouchers then Reversing(v, db'.vouchers[id]) else Untouched
      case DeleteOp(v) => Removed(v)
      case AllocateOp(_, _, _, _) => Untouched
  }

  lemma PostAdds(m: Rounding, db: Db, r: Request)
    requires PostVoucher(m, db, r).Committed? && r.reverses.None?
    ensures var out := PostVoucher(m, db, r);
      out.id == db.nextId && out.id in out.db.vouchers && Applied(db, out.db, Added(out.db.vouchers[out.id]))
  {
    hide PostError, EntriesOf;
  }

  lemma OrderAdds(m: Rounding, db: Db, o: Order)
    requires PostOrder(m, db, o).Committed?
    ensures var out := PostOrder(m, db, o);
      out.id == db.nextId && out.id in out.db.vouchers && Applied(db, out.db, Added(out.db.vouchers[out.id]))
  {
    hide PostVoucher, OrderError, DealLines, Apply;
    if o.DealOrder? {
      var fill := Apply(m, db.PositionRow(o.currency), o.side, o.quantity, o.unitPrice);
      PostAdds(m, db.(positions := db.positions[o.currency := fill.position]),
               DealRequest(m, o, db.registry.base.value, fill.avgAtTime, fill.realized));
    } else {
      PostAdds(m, db, OrderRequest(m, o));
    }
  }

  lemma StepChanges(m: Rounding, db: Db, op: Op)
    requires Inv(m, db)
    ensures Applied(db, Step(m, db, op), ChangeOf(m, db, op))
  {
    hide VoucherOk, Linked, Distinct, PostOrder, VoidVoucher, Mirrors, Unwound, CanAllocate, EntriesOf;
    match op
    case Post(o) =>
      if PostOrder(m, db, o).Committed? {
        OrderAdds(m, db, o);
      }
    case VoidOp(id, reason) =>
      VoidChanges(m, db, id, reason);
    case DeleteOp(id) =>
      if DeleteError(db, id).None? {
        DeleteKeeps(m, db, id);
        ReverserFinds(db.vouchers, db.nextId, id);
      }
    case AllocateOp(_, _, _, _) =>
  }

  lemma VoidChanges(m: Rounding, db: Db, id: nat, reason: string)
    requires Inv(m, db)
    ensures var out := VoidVoucher(m, db, id, reason);
      out.Committed? ==> out.id in out.db.vouchers && Applied(db, out.db, Reversing(id, out.db.vouchers[out.id]))
  {
    hide VoucherOk, Linked, Distinct, PostVoucher, Mirrors, Unwound, EntriesOf;
    if VoidError(db, id, reason).None? {
      VoidKeeps(m, db, id, reason);
      ReverserFinds(db.vouchers, db.nextId, id);
    }
  }

  lemma TotalsAfter(m: Rounding, db: Db, db': Db, c: Change, w: Entry -> real)
    requires Inv(m, db) && Odd(w) && Applied(db, db', c)
    ensures Total(db', w) - Total(db, w) == InForceTotal(db', w) - InForceTotal(db, w)
  {
    hide VoucherOk, Distinct, Mirrors, Linked, EntrySum;
    match c
    case Untouched =>
      SumEqual(db.nextId, PostedTerm(db.vouchers, w), PostedTerm(db'.vouchers, w));
      SumEqual(db.nextId, InForceTerm(db.vouchers, w), InForceTerm(db'.vouchers, w));
    case Added(v) => TotalsAfterInsert(m, db, db', v, w);
    case Reversing(id, rev) => TotalsAfterVoid(m, db, db', id, rev, w);
    case Removed(id) => TotalsAfterRemove(m, db, db', id, w);
  }

  /** In every reachable database, every balance is the sum over the vouchers in force alone: what
      was voided, and what was voided again, leaves no other trace in the books. */
  lemma {:induction false} BooksAreInForce(m: Rounding, g: Registry, ops: seq<Op>, w: Entry -> real)
    requires Odd(w)
    ensures Total(Run(m, g, ops), w) == InForceTotal(Run(m, g, ops), w)
  {
    hide Inv, Perform, Applied, EntrySum;
    if ops == [] {
    } else {
      var db := Run(m, g, ops[..|ops| - 1]);
      var op := ops[|ops| - 1];
      BooksAreInForce(m, g, ops[..|ops| - 1], w);
      Reachable(m, g, ops[..|ops| - 1]);
      StepChanges(m, db, op);
      TotalsAfter(m, db, Step(m, db, op), ChangeOf(m, db, op), w);
    }
  }

  // ------------------------------------------------------------------ numbering

  /** The voucher numbers handed out by a run, in order. */
  ghost function Issued(m: Rounding, g: Registry, ops: seq<Op>): seq<nat> {
    if ops == [] then []
    else
      var db := Run(m, g, ops[..|ops| - 1]);
      Issued(m, g, ops[..|ops| - 1]) + match ChangeOf(m, db, ops[|ops| - 1])
        case Added(v) => if v.number.Some? then [v.number.value] else []
        case Reversing(_, rev) => if rev.number.Some? then [rev.number.value] else []
        case _ => []
  }

  /** Whatever is refused or deleted in between, the numbers given out are 1, 2, 3, ... and the
      counter is the last of them: none is skipped and none is used twice. */
  lemma {:induction false} NumbersAreConsecutive(m: Rounding, g: Registry, ops: seq<Op>)
    ensures var given := Issued(m, g, ops);
      && |given| == Run(m, g, ops).sequence
      && forall i :: 0 <= i < |given| ==> given[i] == i + 1
  {
    hide Inv, Perform, ChangeOf;
    if ops == [] {
    } else {
      var db := Run(m, g, ops[..|ops| - 1]);
      NumbersAreConsecutive(m, g, ops[..|ops| - 1]);
      Reachable(m, g, ops[..|ops| - 1]);
      StepChanges(m, db, ops[|ops| - 1]);
    }
  }
}
