/** The drift bound on the books themselves: under any rounding, the inventory rows and the figures of the
    reports are the replay of the deals as they were entered. */
module Drift {
  import opened Algebra
  import opened Amounts
  import opened Inventory
  import opened Books
  import opened Allocation
  import opened Runs
  import opened Chains
  import opened Sums
  import opened InventoryBooks
  import opened Reports
  import opened NetWorth
  import opened OrderlyRuns

  /** The deals in currency `c` that a run accepted, as entered. */
  ghost function Accepted(m: Rounding, g: Registry, ops: seq<Op>, c: nat): seq<Trade> {
    if ops == [] then []
    else
      var init, op := ops[..|ops| - 1], ops[|ops| - 1];
      Accepted(m, g, init, c) + AcceptedOne(m, Run(m, g, init), op, c)
  }

  ghost function AcceptedOne(m: Rounding, db: Db, op: Op, c: nat): seq<Trade> {
    if op.Post? && op.order.DealOrder? && op.order.currency == c && PostOrder(m, db, op.order).Committed?
    then [Trade(op.order.side, op.order.quantity, op.order.unitPrice)]
    else []
  }

  /** Deals are neither voided nor deleted. */
  ghost predicate DealsStay(db: Db, op: Op) {
    match op
    case VoidOp(id, _) => !db.IsDeal(id)
    case DeleteOp(id) => !db.IsDeal(id)
    case _ => true
  }

  ghost predicate DealsStayThroughout(m: Rounding, g: Registry, ops: seq<Op>) {
    forall i :: 0 <= i < |ops| ==> DealsStay(Run(m, g, ops[..i]), ops[i])
  }

  ghost function Figure(db: Db, c: nat, f: Deal -> real): real {
    Sum(db.nextId, DealWeight(db.vouchers, KeyedBy(CurrencyOf(), c, f)))
  }

  /** Row and report figures of a currency are those of the tally. */
  ghost predicate Matches(db: Db, c: nat, t: Tally) {
    && db.PositionRow(c) == t.position
    && Figure(db, c, BoughtOf()) == t.bought
    && Figure(db, c, SoldOf()) == t.sold
    && Figure(db, c, ProfitOf()) == t.realized
  }

  lemma BuysRealizeNothing(m: Rounding, pos: Position, q: real, p: real)
    ensures Store(m, Apply(m, pos, Buy, q, p).realized) == 0.0
  {
    ZeroOnGrid(m);
  }

  lemma FigureAfter(m: Rounding, db: Db, o: Order, c: nat, f: Deal -> real)
    requires Inv(m, db) && PostOrder(m, db, o).Committed?
    ensures var v := PostOrder(m, db, o).db.vouchers;
      && db.nextId in v
      && Figure(PostOrder(m, db, o).db, c, f) == Figure(db, c, f)
         + (if v[db.nextId].deal.Some? then KeyedBy(CurrencyOf(), c, f)(v[db.nextId].deal.value) else 0.0)
  {
    hide Inv, PostOrder, DealWeight;
    OrderAdds(m, db, o);
    var out := PostOrder(m, db, o);
    WeightAfter(m, db, out.db, Added(out.db.vouchers[db.nextId]), KeyedBy(CurrencyOf(), c, f));
    WeightOfOne(out.db.vouchers[db.nextId], KeyedBy(CurrencyOf(), c, f));
  }

  lemma PostMatches(m: Rounding, db: Db, o: Order, c: nat, t: Tally)
    requires Inv(m, db) && PostOrder(m, db, o).Committed? && Matches(db, c, t)
    ensures Matches(PostOrder(m, db, o).db, c,
                    if o.DealOrder? && o.currency == c then Next(m, t, Trade(o.side, o.quantity, o.unitPrice)) else t)
  {
    hide Inv, PostOrder, Figure, Apply, Store, Times;
    FigureAfter(m, db, o, c, BoughtOf());
    FigureAfter(m, db, o, c, SoldOf());
    FigureAfter(m, db, o, c, ProfitOf());
    if o.DealOrder? && o.currency == c {
      DealEntered(m, db, o);
      BuysRealizeNothing(m, t.position, o.quantity, o.unitPrice);
    } else {
      EnteredElsewhere(m, db, o, c);
    }
  }

  lemma SameMatches(m: Rounding, db: Db, db': Db, ch: Change, c: nat, t: Tally)
    requires Inv(m, db) && Matches(db, c, t) && Applied(db, db', ch) && db'.positions == db.positions
    requires ch.Untouched? || ch.Reversing? || (ch.Removed? && !db.IsDeal(ch.id))
    ensures Matches(db', c, t)
  {
    hide Inv, DealWeight, Applied;
    WeightAfter(m, db, db', ch, KeyedBy(CurrencyOf(), c, BoughtOf()));
    WeightAfter(m, db, db', ch, KeyedBy(CurrencyOf(), c, SoldOf()));
    WeightAfter(m, db, db', ch, KeyedBy(CurrencyOf(), c, ProfitOf()));
    if ch.Removed? {
      NoDealNoWeight(db, ch.id);
    }
  }

  lemma NoDealNoWeight(db: Db, id: nat)
    requires !db.IsDeal(id)
    ensures forall f :: DealWeight(db.vouchers, f)(id) == 0.0
  {
  }

  lemma UnwoundNothing(m: Rounding, db: Db, op: Op)
    requires DealsStay(db, op) && !op.Post?
    ensures Step(m, db, op).positions == db.positions
  {
    hide PostError, EntriesOf, CanAllocate;
  }

  lemma StepMatches(m: Rounding, db: Db, op: Op, c: nat, ds: seq<Trade>)
    requires Inv(m, db) && DealsStay(db, op) && Matches(db, c, Replay(m, ds))
    ensures Matches(Step(m, db, op), c, Replay(m, ds + AcceptedOne(m, db, op, c)))
  {
    hide Inv, Matches, Next, PostOrder, VoidVoucher, DeleteVoucher, CanAllocate, Applied;
    assert ds + [] == ds;
    if op.Post? {
      var o := op.order;
      if PostOrder(m, db, o).Committed? {
        PostMatches(m, db, o, c, Replay(m, ds));
        if o.DealOrder? {
          assert (ds + [Trade(o.side, o.quantity, o.unitPrice)])[..|ds|] == ds;
        }
      }
    } else {
      StepChanges(m, db, op);
      UnwoundNothing(m, db, op);
      SameMatches(m, db, Step(m, db, op), ChangeOf(m, db, op), c, Replay(m, ds));
    }
  }

  lemma NothingMatches(m: Rounding, g: Registry, c: nat)
    ensures Matches(Empty(g), c, Replay(m, []))
  {
  }

  /** In every run that leaves its deals alone, whatever the rounding and whether or not it goes short,
      each inventory row and each reported total is the replay of the deals as entered. */
  lemma {:induction false} BooksReplayDeals(m: Rounding, g: Registry, ops: seq<Op>, c: nat)
    requires DealsStayThroughout(m, g, ops)
    ensures Matches(Run(m, g, ops), c, Replay(m, Accepted(m, g, ops, c)))
  {
    hide Matches, Step, Inv, AcceptedOne, DealsStay, Replay;
    if ops == [] {
      NothingMatches(m, g, c);
    } else {
      var init, op := ops[..|ops| - 1], ops[|ops| - 1];
      assert DealsStayThroughout(m, g, init) by {
        forall i | 0 <= i < |init|
          ensures init[..i] == ops[..i]
        {
        }
      }
      BooksReplayDeals(m, g, init, c);
      Reachable(m, g, init);
      assert ops[..|ops| - 1] == init;
      StepMatches(m, Run(m, g, init), op, c, Accepted(m, g, init, c));
    }
  }

  /** So if it never goes short, sales less purchases plus the value of the stock is the reported profit,
      up to half a quantum for each unit of weight; and exactly, where nothing is rounded. */
  lemma ReportedDrift(m: Rounding, g: Registry, ops: seq<Op>, c: nat)
    requires DealsStayThroughout(m, g, ops) && NoShort(m, Accepted(m, g, ops, c))
    ensures var db := Run(m, g, ops);
      Within(Figure(db, c, SoldOf()) - Figure(db, c, BoughtOf()) + Value(db.PositionRow(c)), Figure(db, c, ProfitOf()),
             Times(Replay(m, Accepted(m, g, ops, c)).weight, HalfUnit(m)))
  {
    hide Run, Accepted, Replay, NoShort, DealsStayThroughout, Times, HalfUnit;
    BooksReplayDeals(m, g, ops, c);
    DriftBound(m, Accepted(m, g, ops, c));
  }

  // ------------------------------------------------------------------ net worth under rounding

  /** No deal was voided. */
  ghost predicate AllInForce(db: Db) {
    forall id :: db.IsDeal(id) ==> db.vouchers[id].status == Final
  }

  ghost predicate Unvoided(db: Db) {
    AllInForce(db) && NoneReinstated(db)
  }

  lemma UnvoidedStep(m: Rounding, db: Db, op: Op)
    requires Inv(m, db) && PositionsTidy(db) && Unvoided(db) && DealsStay(db, op)
    ensures Unvoided(Step(m, db, op))
  {
    hide VoucherOk, Distinct, Forward, OneToOne, PositionsTidy, PostOrder, VoidVoucher, Unwound, CanAllocate, Mirrors,
      NoneReinstated, VoidError;
    StepChanges(m, db, op);
    SparesReversals(m, db, op);
    ReversalsStep(m, db, op);
    if op.Post? && PostOrder(m, db, op.order).Committed? {
      OrderAdds(m, db, op.order);
    } else if op.VoidOp? && VoidVoucher(m, db, op.id, op.reason).Committed? {
      VoidChanges(m, db, op.id, op.reason);
    }
  }

  lemma SparesReversals(m: Rounding, db: Db, op: Op)
    requires Inv(m, db) && AllInForce(db)
    ensures Spares(db, op)
  {
    hide VoucherOk, Distinct, Forward, OneToOne, Mirrors;
    if op.VoidOp? && VoidError(db, op.id, op.reason).None? && db.vouchers[op.id].reverses.Some? {
      assert ReversesOk(db.vouchers, op.id, db.vouchers[op.id].reverses.value);
    }
  }

  lemma {:induction false} UnvoidedRun(m: Rounding, g: Registry, ops: seq<Op>)
    requires Ordinary(m, ops) && DealsStayThroughout(m, g, ops)
    ensures Unvoided(Run(m, g, ops))
  {
    hide Step, Inv, DealsStay, PositionsTidy, Tidy, GridDeals;
    if ops == [] {
    } else {
      var init := ops[..|ops| - 1];
      StaysBefore(m, g, ops);
      UnvoidedRun(m, g, init);
      Reachable(m, g, init);
      TidyRun(m, g, init);
      UnvoidedStep(m, Run(m, g, init), ops[|ops| - 1]);
    }
  }

  lemma StaysBefore(m: Rounding, g: Registry, ops: seq<Op>)
    requires DealsStayThroughout(m, g, ops) && ops != []
    ensures DealsStayThroughout(m, g, ops[..|ops| - 1])
    ensures DealsStay(Run(m, g, ops[..|ops| - 1]), ops[|ops| - 1])
  {
    hide Run, DealsStay;
    var init := ops[..|ops| - 1];
    forall i | 0 <= i < |init|
      ensures init[..i] == ops[..i]
    {
    }
  }

  lemma NoneVoided(db: Db, f: Deal -> real)
    requires AllInForce(db)
    ensures SumOf(db, Void, f) == 0.0
    ensures SumOf(db, Final, f) == Sum(db.nextId, DealWeight(db.vouchers, f))
  {
    hide DealSum;
    DealsByVoucher(Having(db.vouchers, Void), db.nextId, f);
    SumZero(db.nextId, DealWeight(Having(db.vouchers, Void), f));
    DealsByVoucher(db.vouchers, db.nextId, f);
    ReportedSplit(db, f);
  }

  /** The drift of a currency, by the figures of the reports. */
  lemma DriftByFigures(db: Db, c: nat)
    requires AllInForce(db)
    ensures DriftOf(db)(c)
      == Figure(db, c, SoldOf()) - Figure(db, c, BoughtOf()) - Figure(db, c, ProfitOf()) + Value(db.PositionRow(c))
  {
    hide DealSum, Value;
    var f, s, b, p := Margins(c), KeyedBy(CurrencyOf(), c, SoldOf()), KeyedBy(CurrencyOf(), c, BoughtOf()),
      KeyedBy(CurrencyOf(), c, ProfitOf());
    NoneVoided(db, f);
    var n, vs := db.nextId, db.vouchers;
    var bp: nat -> real := (id: nat) => DealWeight(vs, b)(id) + DealWeight(vs, p)(id);
    var less: nat -> real := (id: nat) => -bp(id);
    SumPlus(n, DealWeight(vs, b), DealWeight(vs, p), bp);
    NegatedTerm(n, bp, less);
    SumPlus(n, DealWeight(vs, s), less, DealWeight(vs, f));
  }

  /** What rounding may have cost in one currency. */
  ghost function Allowance(m: Rounding, g: Registry, ops: seq<Op>): nat -> real {
    (c: nat) => Times(Replay(m, Accepted(m, g, ops, c)).weight, HalfUnit(m))
  }

  lemma {:induction false} SumWithin(n: nat, f: nat -> real, h: nat -> real)
    requires forall i: nat :: i < n ==> Within(f(i), 0.0, h(i))
    ensures Within(Sum(n, f), 0.0, Sum(n, h))
  {
    if n == 0 {
    } else {
      SumWithin(n - 1, f, h);
    }
  }

  /** Under every rounding, in every run that leaves its deals alone and never goes short: net worth is realised
      plus unrealised profit less the expense, income and equity accounts, up to half a quantum for each unit of
      weight in each currency. */
  lemma {:induction false} RoundedNetWorth(m: Rounding, g: Registry, ops: seq<Op>, rates: map<nat, real>, n: nat)
    requires Ordinary(m, ops) && NoSparePositions(g) && Rated(Run(m, g, ops), rates, n)
    requires DealsStayThroughout(m, g, ops) && forall c: nat :: c < n ==> NoShort(m, Accepted(m, g, ops, c))
    ensures var db := Run(m, g, ops);
      Within(Sum(n, NetTerm(db, rates)),
             DealSum(DealsOf(db.vouchers, db.nextId), ProfitOf()) + Sum(n, UnrealizedTerm(db.positions, rates, None))
               - Sum(n, InternalTerm(db, rates)),
             Sum(n, Allowance(m, g, ops)))
  {
    hide Run, Ordinary, NoSparePositions, Rated, DealsStayThroughout, NoShort, Accepted, Replay, NetTerm, UnrealizedTerm,
      InternalTerm, DealSum, DriftOf, HalfUnit, Reinstated, Inv, Times, Figure, Value, SumOf;
    var db := Run(m, g, ops);
    NetWorthIdentity(m, g, ops, rates, n);
    UnvoidedRun(m, g, ops);
    Reachable(m, g, ops);
    NoneVoided(db, ProfitOf());
    forall c: nat | c < n
      ensures Within(DriftOf(db)(c), 0.0, Allowance(m, g, ops)(c))
    {
      ReportedDrift(m, g, ops, c);
      DriftByFigures(db, c);
    }
    forall c: nat
      ensures ReinstatedValue(db, rates)(c) == 0.0
    {
      NothingReinstated(m, db, c);
      if Counted(db.registry, rates, c) {
        TimesZero(RateOf(db.registry, rates, c).value);
      }
    }
    SumWithin(n, DriftOf(db), Allowance(m, g, ops));
    SumZero(n, ReinstatedValue(db, rates));
  }
}
