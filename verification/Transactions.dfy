/** Concurrent transactions: row locks taken one at a time, reads made in between, effects published
    at commit.  Every interleaving leaves the database a serial run in commit order would leave. */
module Transactions {
  import opened Amounts
  import opened Inventory
  import opened Books
  import opened Allocation
  import opened Runs
  import opened Chains
  import opened AllocationSafety

  /** The rows that are locked for update, and the external keys: inserting one makes any other insertion of the
      same key wait for the end of the transaction. */
  datatype Resource = VoucherRow(id: nat) | InventoryRow(currency: nat) | KeyRow(key: string) | CounterRow

  /** The order in which every transaction asks for locks: vouchers by ascending key, then the
      inventory row, then its external key, then the voucher counter. */
  predicate Before(r: Resource, s: Resource) {
    match r
    case VoucherRow(i) => (match s case VoucherRow(j) => i < j case _ => true)
    case InventoryRow(i) => (match s case VoucherRow(_) => false case InventoryRow(j) => i < j case _ => true)
    case KeyRow(_) => s.CounterRow?
    case CounterRow => false
  }

  /** The locks a service call takes, in its order.  Whether a void or a delete needs the inventory
      row is known once its voucher has been read. */
  function Plan(db: Db, op: Op): seq<Resource> {
    match op
    case Post(o) => (if o.DealOrder? then [InventoryRow(o.currency)] else []) + KeysOf(o) + [CounterRow]
    case VoidOp(id, _) => [VoucherRow(id)] + InventoryOf(db, id) + [CounterRow]
    case DeleteOp(id) => [VoucherRow(id)] + InventoryOf(db, id)
    case AllocateOp(_, d, p, _) =>
      if d == p then [VoucherRow(d)]
      else if d < p then [VoucherRow(d), VoucherRow(p)]
      else [VoucherRow(p), VoucherRow(d)]
  }

  function KeysOf(o: Order): seq<Resource> {
    match StoredKey(o.key)
    case Some(k) => [KeyRow(k)]
    case None => []
  }

  function InventoryOf(db: Db, id: nat): seq<Resource> {
    if db.IsDeal(id) then [InventoryRow(db.vouchers[id].deal.value.currency)] else []
  }

  /** What a transaction has read so far: each locked row when its lock was granted, and for an
      allocation the outcome of the form's three queries, each made at its own moment. */
  datatype View = View(vouchers: map<nat, Voucher>, positions: map<nat, Position>, counter: Option<nat>,
                       admitted: bool, remaining: Option<real>, used: Option<real>)

  datatype Txn = Txn(op: Op, held: seq<Resource>, view: View)

  datatype System = System(db: Db, txns: map<nat, Txn>)

  datatype Action =
    | Begin(t: nat, op: Op)
    | Lock(t: nat)
    | CheckRows(t: nat)
    | ReadRemaining(t: nat)
    | ReadUsed(t: nat)
    | Commit(t: nat)
    | Abort(t: nat)

  function Read(db: Db, view: View, r: Resource): View {
    match r
    case VoucherRow(id) => if id in db.vouchers then view.(vouchers := view.vouchers[id := db.vouchers[id]]) else view
    case InventoryRow(c) => if c in db.positions then view.(positions := view.positions[c := db.positions[c]]) else view
    case KeyRow(_) => view
    case CounterRow => view.(counter := Some(db.sequence))
  }

  /** The database as the transaction believes it to be: for the rows it locked what it read then
      (a row that did not exist being absent), for the others what is there now. */
  function Believed(db: Db, x: Txn): Db {
    db.(vouchers := (map id | id in db.vouchers && VoucherRow(id) !in x.held :: db.vouchers[id]) + x.view.vouchers,
        positions := (map c | c in db.positions && InventoryRow(c) !in x.held :: db.positions[c]) + x.view.positions,
        sequence := if x.view.counter.Some? then x.view.counter.value else db.sequence)
  }

  ghost predicate Waiting(s: System, t: nat) {
    t in s.txns && |s.txns[t].held| < |Plan(s.db, s.txns[t].op)|
  }

  function Wanted(s: System, t: nat): Resource
    requires Waiting(s, t)
  {
    Plan(s.db, s.txns[t].op)[|s.txns[t].held|]
  }

  ghost predicate Holds(s: System, t: nat, r: Resource) {
    t in s.txns && r in s.txns[t].held
  }

  ghost predicate Free(s: System, r: Resource) {
    forall t :: !Holds(s, t, r)
  }

  ghost predicate AllLocked(s: System, t: nat) {
    t in s.txns && s.txns[t].held == Plan(s.db, s.txns[t].op)
  }

  /** What committing does, computed from what was read. */
  ghost function Effect(m: Rounding, db: Db, x: Txn): Outcome {
    match x.op
    case AllocateOp(u, d, p, amount) =>
      if x.view.admitted && x.view.remaining.Some? && x.view.used.Some?
         && db.IsDeal(d) && p in db.vouchers
         && amount <= x.view.remaining.value && amount <= Capacity(db, u, d, p) - x.view.used.value
      then Committed(Inserted(db, u, d, p, amount), d)
      else Rejected(NotAllocatable)
    case _ => Perform(m, Believed(db, x), x.op)
  }

  ghost predicate Enabled(m: Rounding, s: System, a: Action) {
    match a
    case Begin(t, _) => t !in s.txns
    case Lock(t) =>
      && Waiting(s, t) && Free(s, Wanted(s, t))
      && (Wanted(s, t).VoucherRow? ==> Wanted(s, t).id in s.db.vouchers)
    case CheckRows(t) =>
      && AllLocked(s, t)
      && (match s.txns[t].op case AllocateOp(u, d, p, x) => Admissible(m, s.db, u, d, p, x) case _ => false)
    case ReadRemaining(t) =>
      && AllLocked(s, t)
      && (match s.txns[t].op case AllocateOp(u, d, p, x) => s.db.IsDeal(d) case _ => false)
    case ReadUsed(t) =>
      && AllLocked(s, t)
      && (match s.txns[t].op case AllocateOp(u, d, p, x) => s.db.IsDeal(d) case _ => false)
    case Commit(t) => AllLocked(s, t) && Effect(m, s.db, s.txns[t]).Committed?
    case Abort(t) => t in s.txns
  }

  function WithView(s: System, t: nat, view: View): System
    requires t in s.txns
  {
    s.(txns := s.txns[t := s.txns[t].(view := view)])
  }

  /** One step of the system; a step that is not enabled does nothing. */
  ghost function Act(m: Rounding, s: System, a: Action): System {
    if !Enabled(m, s, a) then s
    else match a
      case Begin(t, op) => s.(txns := s.txns[t := Txn(op, [], View(map[], map[], None, false, None, None))])
      case Lock(t) =>
        var x, r := s.txns[t], Wanted(s, t);
        s.(txns := s.txns[t := Txn(x.op, x.held + [r], Read(s.db, x.view, r))])
      case CheckRows(t) => WithView(s, t, s.txns[t].view.(admitted := true))
      case ReadRemaining(t) =>
        var op := s.txns[t].op;
        WithView(s, t, s.txns[t].view.(remaining := Some(Remaining(s.db, op.use, op.deal))))
      case ReadUsed(t) =>
        var op := s.txns[t].op;
        WithView(s, t, s.txns[t].view.(used := Some(UsedFor(s.db, op.use, op.deal, op.payment))))
      case Commit(t) => System(Effect(m, s.db, s.txns[t]).db, s.txns - {t})
      case Abort(t) => s.(txns := s.txns - {t})
  }

  ghost function Schedule(m: Rounding, g: Registry, acts: seq<Action>): System {
    if acts == [] then System(Empty(g), map[])
    else Act(m, Schedule(m, g, acts[..|acts| - 1]), acts[|acts| - 1])
  }

  /** The calls that committed, in the order they did. */
  ghost function Serial(m: Rounding, g: Registry, acts: seq<Action>): seq<Op> {
    if acts == [] then []
    else
      var s, a := Schedule(m, g, acts[..|acts| - 1]), acts[|acts| - 1];
      Serial(m, g, acts[..|acts| - 1]) + if a.Commit? && Enabled(m, s, a) then [s.txns[a.t].op] else []
  }

  // ------------------------------------------------------------------ the invariant

  ghost predicate Exclusive(s: System) {
    forall t, t', r :: Holds(s, t, r) && Holds(s, t', r) ==> t == t'
  }

  ghost predicate VouchersCurrent(db: Db, held: seq<Resource>, view: View) {
    && (forall id: nat :: VoucherRow(id) in held ==>
          id in db.vouchers && id in view.vouchers && view.vouchers[id] == db.vouchers[id])
    && (forall id :: id in view.vouchers ==> VoucherRow(id) in held)
  }

  ghost predicate PositionsCurrent(db: Db, held: seq<Resource>, view: View) {
    && (forall c: nat :: InventoryRow(c) in held ==>
          (c in view.positions <==> c in db.positions)
          && (c in db.positions ==> view.positions[c] == db.positions[c]))
    && (forall c :: c in view.positions ==> InventoryRow(c) in held)
  }

  ghost predicate CounterCurrent(db: Db, held: seq<Resource>, view: View) {
    view.counter.Some? ==> CounterRow in held && view.counter.value == db.sequence
  }

  /** Every locked row still is what the transaction read. */
  ghost predicate Current(db: Db, x: Txn) {
    && x.held <= Plan(db, x.op)
    && VouchersCurrent(db, x.held, x.view) && PositionsCurrent(db, x.held, x.view) && CounterCurrent(db, x.held, x.view)
  }

  /** What an allocation read about rows it has not locked errs on the safe side. */
  ghost predicate Cautious(m: Rounding, db: Db, x: Txn) {
    match x.op
    case AllocateOp(u, d, p, amount) =>
      && (x.view.admitted || x.view.remaining.Some? || x.view.used.Some? ==> x.held == Plan(db, x.op) && db.IsDeal(d))
      && (x.view.admitted ==> Admissible(m, db, u, d, p, amount))
      && (x.view.remaining.Some? ==> x.view.remaining.value <= Remaining(db, u, d))
      && (x.view.used.Some? ==> x.view.used.value >= UsedFor(db, u, d, p))
    case _ => true
  }

  ghost predicate Sound(m: Rounding, s: System) {
    && Inv(m, s.db) && Safe(s.db) && Exclusive(s)
    && forall t :: t in s.txns ==> Current(s.db, s.txns[t]) && Cautious(m, s.db, s.txns[t])
  }

  // ------------------------------------------------------------------ at commit

  lemma BelievedIsTrue(db: Db, x: Txn)
    requires Current(db, x)
    ensures Believed(db, x) == db
  {
    assert Believed(db, x).vouchers == db.vouchers;
    assert Believed(db, x).positions == db.positions;
  }

  /** Whatever a transaction read before, and however long ago, it commits exactly what the same call
      would do on its own at that moment. */
  lemma CommitIsSerial(m: Rounding, db: Db, x: Txn)
    requires Current(db, x) && Cautious(m, db, x) && Effect(m, db, x).Committed?
    ensures Perform(m, db, x.op) == Effect(m, db, x)
  {
    hide Admissible, Remaining, UsedFor, Capacity, Inserted, Current, PostOrder, VoidVoucher, DeleteVoucher, Believed;
    BelievedIsTrue(db, x);
  }

  // ------------------------------------------------------------------ what a commit leaves alone

  ghost predicate Frame(m: Rounding, db: Db, db': Db, locked: seq<Resource>) {
    && db'.registry == db.registry
    && (forall id :: id in db.vouchers && VoucherRow(id) !in locked ==>
          id in db'.vouchers && db'.vouchers[id] == db.vouchers[id])
    && (forall c: nat :: InventoryRow(c) !in locked ==>
          (c in db'.positions <==> c in db.positions)
          && (c in db.positions ==> db'.positions[c] == db.positions[c]))
    && (CounterRow !in locked ==> db'.sequence == db.sequence)
  }

  /** No allocation joins `d` and `p` that did not, and neither is covered or drawn upon more. */
  ghost predicate OnlyFreed(db: Db, db': Db, u: Use, d: nat, p: nat) {
    && ((d, p) in Table(db', u) ==> (d, p) in Table(db, u))
    && Covered(db', u, d) <= Covered(db, u, d)
    && (forall a, c :: Used(db', u, p, a, c) <= Used(db, u, p, a, c))
  }

  /** Allocations of rows that are not locked only ever disappear. */
  ghost predicate AllocationFrame(db: Db, db': Db, locked: seq<Resource>) {
    forall u: Use, d: nat, p: nat ::
      VoucherRow(d) !in locked && VoucherRow(p) !in locked && db.IsDeal(d) && p in db.vouchers ==> OnlyFreed(db, db', u, d, p)
  }

  lemma StepFrame(m: Rounding, db: Db, op: Op)
    requires Inv(m, db) && Perform(m, db, op).Committed?
    ensures Frame(m, db, Step(m, db, op), Plan(db, op))
  {
    hide Inv, PostOrder, VoidVoucher, Mirrors, CanAllocate, Inserted, Without;
    StepChanges(m, db, op);
    match op
    case Post(o) =>
      PostFrame(m, db, o);
    case VoidOp(id, reason) =>
      VoidFrame(m, db, id, reason);
    case DeleteOp(id) =>
    case AllocateOp(u, d, p, x) =>
      InsertedFrame(m, db, u, d, p, x);
  }

  lemma InsertedFrame(m: Rounding, db: Db, u: Use, d: nat, p: nat, x: real)
    ensures Frame(m, db, Inserted(db, u, d, p, x), [])
  {
  }

  lemma PostFrame(m: Rounding, db: Db, o: Order)
    requires Inv(m, db) && PostOrder(m, db, o).Committed?
    ensures Frame(m, db, PostOrder(m, db, o).db, Plan(db, Post(o)))
  {
    hide VoucherOk, Linked, Distinct, PostError, DealLines, OrderError, Apply, VoucherOf;
    OrderAdds(m, db, o);
  }

  lemma VoidFrame(m: Rounding, db: Db, id: nat, reason: string)
    requires Inv(m, db) && VoidVoucher(m, db, id, reason).Committed?
    ensures Frame(m, db, VoidVoucher(m, db, id, reason).db, Plan(db, VoidOp(id, reason)))
  {
    hide Linked, Distinct, VoucherOk, Mirrors, EntriesOf, PostVoucher;
    if VoidError(db, id, reason).None? {
      VoidKeeps(m, db, id, reason);
      var p := Plan(db, VoidOp(id, reason));
      assert p[|p| - 1] == CounterRow;
      assert p[0] == VoucherRow(id);
      if db.IsDeal(id) {
        assert p[1] == InventoryRow(db.vouchers[id].deal.value.currency);
      }
    }
  }

  lemma AllocationStepFrame(m: Rounding, db: Db, op: Op)
    requires Inv(m, db) && Safe(db) && Perform(m, db, op).Committed?
    ensures AllocationFrame(db, Step(m, db, op), Plan(db, op))
  {
    hide Inv, Perform, InvoicesSafe, PaymentsSafe, Covered, Used, CoverTerm, UseTerm, Table, Applied, DealsPositive;
    var db', ch, locked := Step(m, db, op), ChangeOf(m, db, op), Plan(db, op);
    StepChanges(m, db, op);
    StepFrame(m, db, op);
    if ch.Untouched? && !op.AllocateOp? {
      UntouchedIsRefused(m, db, op);
    } else if ch.Untouched? {
      AllocateFrame(m, db, op);
    } else {
      forall u: Use, d: nat, p: nat | VoucherRow(d) !in locked && VoucherRow(p) !in locked && db.IsDeal(d) && p in db.vouchers
        ensures OnlyFreed(db, db', u, d, p)
      {
        assert RowsJoin(db, u);
        TableAfter(db, db', ch, u, d, p);
        CoveredAfter(m, db, db', ch, u, d);
        forall a, c
          ensures Used(db', u, p, a, c) <= Used(db, u, p, a, c)
        {
          UsedAfter(m, db, db', ch, u, p, a, c);
          TermsNonNegative(db, u, p, a, c);
        }
        TermsNonNegative(db, u, d, OpeningEquity, None);
      }
    }
  }

  lemma TermsNonNegative(db: Db, u: Use, x: nat, a: Account, c: Option<nat>)
    requires RowsJoin(db, u)
    ensures forall i :: CoverTerm(db, u, x)(i) >= 0.0 && UseTerm(db, u, x, a, c)(i) >= 0.0
  {
    hide Draws;
  }

  lemma AllocateFrame(m: Rounding, db: Db, op: Op)
    requires Inv(m, db) && Safe(db) && op.AllocateOp? && Perform(m, db, op).Committed?
    ensures AllocationFrame(db, Step(m, db, op), Plan(db, op))
  {
    hide Inv, Covered, Used, Admissible, Remaining, Capacity, UsedFor, InvoicesSafe, PaymentsSafe, DealsPositive;
    var AllocateOp(u0, d0, p0, x) := op;
    var db' := Step(m, db, op);
    AllocationEnds(m, db, u0, d0, p0, x);
    assert VoucherRow(d0) in Plan(db, op) && VoucherRow(p0) in Plan(db, op);
    forall u: Use, d: nat, p: nat | d != d0 && p != p0
      ensures OnlyFreed(db, db', u, d, p)
    {
      AllocateCovers(m, db, u0, d0, p0, x, u, d);
      forall a, c
        ensures Used(db', u, p, a, c) <= Used(db, u, p, a, c)
      {
        AllocateDraws(m, db, u0, d0, p0, x, u, p, a, c);
      }
    }
  }

  lemma AllocationEnds(m: Rounding, db: Db, u: Use, d: nat, p: nat, x: real)
    requires Inv(m, db) && CanAllocate(m, db, u, d, p, x)
    ensures d < db.nextId && p < db.nextId && p in db.vouchers
  {
    hide VoucherOk, Linked, Distinct, Leg, OnGrid;
  }

  // ------------------------------------------------------------------ every step keeps the invariant

  lemma PlanSame(db: Db, db': Db, x: Txn)
    requires Current(db, x) && (forall id :: VoucherRow(id) in x.held ==> id in db'.vouchers && db'.vouchers[id] == db.vouchers[id])
    ensures x.held <= Plan(db', x.op)
    ensures x.held == Plan(db, x.op) ==> Plan(db', x.op) == Plan(db, x.op)
  {
    if x.op.VoidOp? || x.op.DeleteOp? {
      assert Plan(db, x.op)[0] == VoucherRow(x.op.id);
      if x.held != [] {
        assert x.held[0] == VoucherRow(x.op.id);
      }
    }
  }

  lemma CurrentStays(m: Rounding, db: Db, db': Db, x: Txn, locked: seq<Resource>)
    requires Current(db, x) && Frame(m, db, db', locked) && forall r :: r in x.held ==> r !in locked
    ensures Current(db', x)
  {
    PlanSame(db, db', x);
    hide Plan;
  }

  lemma CautiousStays(m: Rounding, db: Db, db': Db, x: Txn, locked: seq<Resource>)
    requires Current(db, x) && Cautious(m, db, x) && forall r :: r in x.held ==> r !in locked
    requires Frame(m, db, db', locked) && AllocationFrame(db, db', locked)
    ensures Cautious(m, db', x)
  {
    hide Covered, Used, OnGrid, Leg;
    PlanSame(db, db', x);
    match x.op
    case AllocateOp(u, d, p, amount) =>
      if x.view.admitted || x.view.remaining.Some? || x.view.used.Some? {
        assert VoucherRow(d) in Plan(db, x.op) && VoucherRow(p) in Plan(db, x.op);
        assert d in db.vouchers && p in db.vouchers;
        assert db'.vouchers[d] == db.vouchers[d] && db'.vouchers[p] == db.vouchers[p];
        assert VoucherRow(d) !in locked && VoucherRow(p) !in locked;
        assert Coverable(db', u, d) == Coverable(db, u, d);
        assert OnlyFreed(db, db', u, d, p);
      }
    case _ =>
  }

  lemma CommitSound(m: Rounding, s: System, t: nat)
    requires Sound(m, s) && Enabled(m, s, Commit(t))
    ensures Sound(m, Act(m, s, Commit(t)))
    ensures Act(m, s, Commit(t)).db == Step(m, s.db, s.txns[t].op)
  {
    hide Inv, Safe, Current, Cautious, Frame, AllocationFrame, Effect, Perform, Plan;
    var x, s' := s.txns[t], Act(m, s, Commit(t));
    CommitIsSerial(m, s.db, x);
    StepKeeps(m, s.db, x.op);
    SafeStep(m, s.db, x.op);
    StepFrame(m, s.db, x.op);
    AllocationStepFrame(m, s.db, x.op);
    forall t' | t' in s'.txns
      ensures Current(s'.db, s'.txns[t']) && Cautious(m, s'.db, s'.txns[t'])
    {
      forall r | r in s.txns[t'].held
        ensures r !in x.held
      {
        assert Holds(s, t', r);
        assert r in x.held ==> Holds(s, t, r);
      }
      CurrentStays(m, s.db, s'.db, s.txns[t'], x.held);
      CautiousStays(m, s.db, s'.db, s.txns[t'], x.held);
    }
    forall u, u', r | Holds(s', u, r) && Holds(s', u', r)
      ensures u == u'
    {
      assert Holds(s, u, r) && Holds(s, u', r);
    }
  }

  lemma LockVouchers(db: Db, held: seq<Resource>, view: View, r: Resource)
    requires VouchersCurrent(db, held, view) && (r.VoucherRow? ==> r.id in db.vouchers)
    ensures VouchersCurrent(db, held + [r], Read(db, view, r))
  {
  }

  lemma LockPositions(db: Db, held: seq<Resource>, view: View, r: Resource)
    requires PositionsCurrent(db, held, view)
    ensures PositionsCurrent(db, held + [r], Read(db, view, r))
    ensures CounterCurrent(db, held, view) ==> CounterCurrent(db, held + [r], Read(db, view, r))
  {
  }

  /** Granting a lock keeps what was read earlier current and records the row just locked. */
  lemma LockCurrent(m: Rounding, db: Db, x: Txn)
    requires Current(db, x) && |x.held| < |Plan(db, x.op)|
    requires var r := Plan(db, x.op)[|x.held|]; r.VoucherRow? ==> r.id in db.vouchers
    ensures var r := Plan(db, x.op)[|x.held|];
      Current(db, Txn(x.op, x.held + [r], Read(db, x.view, r)))
  {
    hide Plan, VouchersCurrent, PositionsCurrent, CounterCurrent, Read;
    var r := Plan(db, x.op)[|x.held|];
    LockVouchers(db, x.held, x.view, r);
    LockPositions(db, x.held, x.view, r);
  }

  lemma LockCautious(m: Rounding, db: Db, x: Txn)
    requires Cautious(m, db, x) && |x.held| < |Plan(db, x.op)|
    ensures var r := Plan(db, x.op)[|x.held|];
      Cautious(m, db, Txn(x.op, x.held + [r], Read(db, x.view, r)))
  {
    hide Plan, Admissible, Remaining, UsedFor;
  }

  lemma OneTxnChanged(m: Rounding, s: System, t: nat, x: Txn)
    requires Sound(m, s) && Current(s.db, x) && Cautious(m, s.db, x)
    requires forall r, t' :: r in x.held && t' != t ==> !Holds(s, t', r)
    ensures Sound(m, s.(txns := s.txns[t := x]))
  {
    hide Inv, Safe, Current, Cautious;
    var s' := s.(txns := s.txns[t := x]);
    forall u, u', r | Holds(s', u, r) && Holds(s', u', r)
      ensures u == u'
    {
      assert u != t ==> Holds(s, u, r);
      assert u' != t ==> Holds(s, u', r);
    }
  }

  lemma BeginSound(m: Rounding, db: Db, op: Op)
    ensures var x := Txn(op, [], View(map[], map[], None, false, None, None));
      Current(db, x) && Cautious(m, db, x)
  {
  }

  /** What an allocation reads once its rows are locked is true at that moment. */
  lemma ReadIsCautious(m: Rounding, db: Db, x: Txn, view: View)
    requires Current(db, x) && Cautious(m, db, x) && x.op.AllocateOp? && x.held == Plan(db, x.op) && db.IsDeal(x.op.deal)
    requires view.vouchers == x.view.vouchers && view.positions == x.view.positions && view.counter == x.view.counter
    requires view.admitted ==> x.view.admitted || Admissible(m, db, x.op.use, x.op.deal, x.op.payment, x.op.amount)
    requires view.remaining == x.view.remaining || view.remaining == Some(Remaining(db, x.op.use, x.op.deal))
    requires view.used == x.view.used || view.used == Some(UsedFor(db, x.op.use, x.op.deal, x.op.payment))
    ensures Current(db, x.(view := view)) && Cautious(m, db, x.(view := view))
  {
    hide Admissible, Remaining, UsedFor, Plan;
  }

  lemma ActSound(m: Rounding, s: System, a: Action)
    requires Sound(m, s)
    ensures Sound(m, Act(m, s, a))
  {
    hide Inv, Safe, Effect, Admissible, Remaining, UsedFor, Plan, Current, Cautious, Exclusive;
    if Enabled(m, s, a) {
      match a
      case Begin(t, op) =>
        BeginSound(m, s.db, op);
        OneTxnChanged(m, s, t, Txn(op, [], View(map[], map[], None, false, None, None)));
      case Lock(t) =>
        LockSound(m, s, t);
      case CheckRows(t) =>
        var x := s.txns[t];
        AdmissibleIsDeal(m, s.db, x.op);
        ReadIsCautious(m, s.db, x, x.view.(admitted := true));
        ReadSound(m, s, t, x.view.(admitted := true));
      case ReadRemaining(t) =>
        var x := s.txns[t];
        var view := x.view.(remaining := Some(Remaining(s.db, x.op.use, x.op.deal)));
        ReadIsCautious(m, s.db, x, view);
        ReadSound(m, s, t, view);
      case ReadUsed(t) =>
        var x := s.txns[t];
        var view := x.view.(used := Some(UsedFor(s.db, x.op.use, x.op.deal, x.op.payment)));
        ReadIsCautious(m, s.db, x, view);
        ReadSound(m, s, t, view);
      case Commit(t) =>
        CommitSound(m, s, t);
      case Abort(t) =>
        AbortSound(m, s, t);
    }
  }

  lemma AdmissibleIsDeal(m: Rounding, db: Db, op: Op)
    requires op.AllocateOp? && Admissible(m, db, op.use, op.deal, op.payment, op.amount)
    ensures db.IsDeal(op.deal)
  {
  }

  lemma LockSound(m: Rounding, s: System, t: nat)
    requires Sound(m, s) && Enabled(m, s, Lock(t))
    ensures Sound(m, Act(m, s, Lock(t)))
  {
    hide Inv, Safe, Current, Cautious, Plan;
    var x, r := s.txns[t], Wanted(s, t);
    LockCurrent(m, s.db, x);
    LockCautious(m, s.db, x);
    forall r', t' | r' in x.held + [r] && t' != t
      ensures !Holds(s, t', r')
    {
      assert r' in x.held ==> Holds(s, t, r');
    }
    OneTxnChanged(m, s, t, Txn(x.op, x.held + [r], Read(s.db, x.view, r)));
  }

  lemma ReadSound(m: Rounding, s: System, t: nat, view: View)
    requires Sound(m, s) && t in s.txns
    requires Current(s.db, s.txns[t].(view := view)) && Cautious(m, s.db, s.txns[t].(view := view))
    ensures Sound(m, WithView(s, t, view))
  {
    hide Inv, Safe, Current, Cautious;
    var x := s.txns[t];
    forall r, t' | r in x.held && t' != t
      ensures !Holds(s, t', r)
    {
      assert Holds(s, t, r);
    }
    OneTxnChanged(m, s, t, x.(view := view));
  }

  lemma AbortSound(m: Rounding, s: System, t: nat)
    requires Sound(m, s)
    ensures Sound(m, s.(txns := s.txns - {t}))
  {
    hide Inv, Safe, Current, Cautious;
    var s' := s.(txns := s.txns - {t});
    forall u, u', r | Holds(s', u, r) && Holds(s', u', r)
      ensures u == u'
    {
      assert Holds(s, u, r) && Holds(s, u', r);
    }
  }

  // ------------------------------------------------------------------ every interleaving

  /** Under every interleaving of any number of transactions, with aborts anywhere, the database is the
      one a serial run of the committed calls, in commit order, produces. */
  lemma {:induction false} Serializable(m: Rounding, g: Registry, acts: seq<Action>)
    ensures Sound(m, Schedule(m, g, acts))
    ensures Schedule(m, g, acts).db == Run(m, g, Serial(m, g, acts))
  {
    hide Inv, Safe, Step, Enabled, Effect;
    if acts == [] {
      EmptyInv(m, g);
      EmptySafe(g);
    } else {
      var init, a := acts[..|acts| - 1], acts[|acts| - 1];
      var s, ops := Schedule(m, g, init), Serial(m, g, init);
      Serializable(m, g, init);
      ActSound(m, s, a);
      if a.Commit? && Enabled(m, s, a) {
        CommitSound(m, s, a.t);
        EnabledCommit(m, s, a.t);
        assert Serial(m, g, acts) == ops + [s.txns[a.t].op];
        assert (ops + [s.txns[a.t].op])[..|ops|] == ops;
      } else {
        assert Serial(m, g, acts) == ops;
      }
    }
  }

  lemma EnabledCommit(m: Rounding, s: System, t: nat)
    requires Enabled(m, s, Commit(t))
    ensures t in s.txns
  {
    hide Effect;
  }

  /** Capacity and numbering under every interleaving: allocations never overdraw an invoice or a
      payment, and the numbers of the posts that committed are 1, 2, ..., up to the counter. */
  lemma {:induction false} SafeUnderConcurrency(m: Rounding, g: Registry, acts: seq<Action>)
    ensures var db := Schedule(m, g, acts).db;
      var numbers := Issued(m, g, Serial(m, g, acts));
      && Inv(m, db) && Safe(db)
      && |numbers| == db.sequence && forall i :: 0 <= i < |numbers| ==> numbers[i] == i + 1
  {
    hide Inv, Safe, Schedule, Serial, Issued, Run;
    Serializable(m, g, acts);
    NumbersAreConsecutive(m, g, Serial(m, g, acts));
  }

  // ------------------------------------------------------------------ no deadlock

  lemma PlanAscends(db: Db, op: Op, i: nat, j: nat)
    requires i < j < |Plan(db, op)|
    ensures Before(Plan(db, op)[i], Plan(db, op)[j])
  {
  }

  lemma BeforeTransitive(r: Resource, s: Resource, t: Resource)
    requires Before(r, s) && Before(s, t)
    ensures Before(r, t)
  {
  }

  ghost predicate WaitsFor(s: System, t: nat, t': nat) {
    Waiting(s, t) && Holds(s, t', Wanted(s, t))
  }

  /** `ts` is a chain of transactions each waiting for a lock the next one holds. */
  ghost predicate WaitChain(s: System, ts: seq<nat>) {
    |ts| > 0 && forall i :: 0 <= i < |ts| - 1 ==> WaitsFor(s, ts[i], ts[i + 1])
  }

  lemma WantedAboveHeld(m: Rounding, s: System, t: nat, r: Resource)
    requires Sound(m, s) && Waiting(s, t) && Holds(s, t, r)
    ensures Before(r, Wanted(s, t))
  {
    hide Inv, Safe, Cautious;
    var x := s.txns[t];
    var i :| 0 <= i < |x.held| && x.held[i] == r;
    PlanAscends(s.db, x.op, i, |x.held|);
  }

  lemma {:induction false} WantedAscends(m: Rounding, s: System, ts: seq<nat>)
    requires Sound(m, s) && WaitChain(s, ts) && |ts| > 1 && Waiting(s, ts[|ts| - 1])
    ensures Waiting(s, ts[0]) && Before(Wanted(s, ts[0]), Wanted(s, ts[|ts| - 1]))
  {
    hide Inv, Safe, Cautious, Current, Before;
    var n := |ts|;
    assert WaitsFor(s, ts[n - 2], ts[n - 1]);
    WantedAboveHeld(m, s, ts[n - 1], Wanted(s, ts[n - 2]));
    if n > 2 {
      assert ts[..n - 1][n - 2] == ts[n - 2];
      WantedAscends(m, s, ts[..n - 1]);
      BeforeTransitive(Wanted(s, ts[0]), Wanted(s, ts[n - 2]), Wanted(s, ts[n - 1]));
    }
  }

  /** No schedule reaches a cycle of transactions waiting for each other. */
  lemma NoDeadlock(m: Rounding, g: Registry, acts: seq<Action>, ts: seq<nat>)
    requires WaitChain(Schedule(m, g, acts), ts) && |ts| > 1
    ensures ts[0] != ts[|ts| - 1]
  {
    hide Inv, Safe, Cautious, Current, Schedule, Serial, Run;
    Serializable(m, g, acts);
    var s := Schedule(m, g, acts);
    assert WaitsFor(s, ts[0], ts[1]);
    if ts[0] == ts[|ts| - 1] {
      WantedAscends(m, s, ts);
      NeverBeforeItself(Wanted(s, ts[0]));
    }
  }

  lemma NeverBeforeItself(r: Resource)
    ensures !Before(r, r)
  {
  }

  /** The transaction can take its next step: it has all its locks, or the next one is free. */
  ghost predicate Unblocked(s: System, t: nat) {
    t in s.txns && (Waiting(s, t) ==> Free(s, Wanted(s, t)))
  }

  ghost function Above(s: System, t: nat): set<nat>
    requires Waiting(s, t)
  {
    set u | u in s.txns && Waiting(s, u) && Before(Wanted(s, t), Wanted(s, u))
  }

  /** While any transaction is open, some transaction is not blocked. */
  lemma {:induction false} SomeoneCanMove(m: Rounding, s: System, t: nat)
    requires Sound(m, s) && t in s.txns
    ensures exists u :: Unblocked(s, u)
    decreases if Waiting(s, t) then |Above(s, t)| + 1 else 0
  {
    hide Inv, Safe, Cautious, Current, Before, Wanted;
    if Unblocked(s, t) {
    } else {
      var u :| Holds(s, u, Wanted(s, t));
      if Waiting(s, u) {
        WantedAboveHeld(m, s, u, Wanted(s, t));
        forall v | v in Above(s, u)
          ensures v in Above(s, t)
        {
          BeforeTransitive(Wanted(s, t), Wanted(s, u), Wanted(s, v));
        }
        NeverBeforeItself(Wanted(s, u));
        Fewer(Above(s, u), Above(s, t), u);
        SomeoneCanMove(m, s, u);
      } else {
        assert Unblocked(s, u);
      }
    }
  }

  lemma Fewer(a: set<nat>, b: set<nat>, x: nat)
    requires a <= b && x in b && x !in a
    ensures |a| < |b|
  {
    assert a <= b - {x};
    SubsetSize(a, b - {x});
  }

  lemma {:induction false} SubsetSize(a: set<nat>, b: set<nat>)
    requires a <= b
    ensures |a| <= |b|
  {
    if a != {} {
      var x :| x in a;
      SubsetSize(a - {x}, b - {x});
    }
  }
}
