/** The account statement, and the totals that must vanish, against the balances. */
module Statements {
  import opened Amounts
  import opened Books
  import opened Runs
  import opened Chains
  import opened Sums
  import opened Balances

  // ------------------------------------------------------------------ balances

  /** The balance of an account in a currency, counting rows up to a date if one is given. */
  function AsOf(a: Account, c: nat, to: Option<int>): Entry -> real {
    (e: Entry) => if e.party == a && e.currency == c && (to.Some? ==> e.date <= to.value) then e.amount else 0.0
  }

  /** The balance before a date; without a date nothing comes before. */
  function Prior(a: Account, c: nat, from: Option<int>): Entry -> real {
    (e: Entry) => if e.party == a && e.currency == c && from.Some? && e.date < from.value then e.amount else 0.0
  }

  /** The row is `last` or stands before it: on an earlier date, in an earlier voucher of that date, or in the same
      voucher no later. */
  predicate NoLater(r: Row, last: Row) {
    || r.entry.date < last.entry.date
    || (r.entry.date == last.entry.date && r.number < last.number)
    || (r.entry.date == last.entry.date && r.number == last.number && r.entry.rowNo <= last.entry.rowNo)
  }

  /** The balance of the account in the row's currency right after the row, in ledger order, whatever
      period is looked at. */
  function After(a: Account, last: Row): Row -> real {
    (r: Row) => if r.entry.party == a && r.entry.currency == last.entry.currency && NoLater(r, last) then r.entry.amount else 0.0
  }

  function BalanceAfter(db: Db, a: Account, last: Row): real {
    RowTotal(PostedRows(db.vouchers, db.nextId), After(a, last))
  }

  // ------------------------------------------------------------------ the statement

  predicate InScope(currency: Option<nat>, c: nat) {
    currency.Some? ==> c == currency.value
  }

  function Earlier(a: Account, currency: Option<nat>, from: Option<int>): Row -> bool {
    (r: Row) => r.entry.party == a && InScope(currency, r.entry.currency) && from.Some? && r.entry.date < from.value
  }

  function Window(a: Account, currency: Option<nat>, from: Option<int>, to: Option<int>): Row -> bool {
    (r: Row) => r.entry.party == a && InScope(currency, r.entry.currency)
                && (from.Some? ==> from.value <= r.entry.date) && (to.Some? ==> r.entry.date <= to.value)
  }

  datatype StatementRow = StatementRow(row: Row, running: real)

  datatype Statement = Statement(rows: seq<StatementRow>, opening: map<nat, real>, closing: map<nat, real>)

  function Get(balances: map<nat, real>, c: nat): real {
    if c in balances then balances[c] else 0.0
  }

  function InCur(c: nat): Row -> real {
    ByEntry(InCurrency(c))
  }

  /** The sums of some rows, currency by currency. */
  function Grouped(rows: seq<Row>): map<nat, real> {
    map c | c in (set r | r in rows :: r.entry.currency) :: RowTotal(rows, InCur(c))
  }

  lemma GroupedGet(rows: seq<Row>, c: nat)
    ensures Get(Grouped(rows), c) == RowTotal(rows, InCur(c))
  {
    if forall r :: r in rows ==> r.entry.currency != c {
      NoRows(rows, c);
    }
  }

  lemma {:induction false} NoRows(rows: seq<Row>, c: nat)
    requires forall r :: r in rows ==> r.entry.currency != c
    ensures RowTotal(rows, InCur(c)) == 0.0
  {
    if rows == [] {
    } else {
      NoRows(rows[..|rows| - 1], c);
    }
  }

  function Reversed<T>(s: seq<T>): (r: seq<T>)
    ensures |r| == |s| && forall i :: 0 <= i < |s| ==> r[i] == s[|s| - 1 - i]
  {
    if s == [] then [] else [s[|s| - 1]] + Reversed(s[..|s| - 1])
  }

  /** What the running figure at position `i` of the listed rows adds up to. */
  function RunningAt(before: seq<Row>, listed: seq<Row>, i: nat): real
    requires i < |listed|
  {
    var c := listed[i].entry.currency;
    RowTotal(before, InCur(c)) + RowTotal(listed[..i + 1], InCur(c))
  }

  /** The loop over the rows of the period, with one running figure per currency. */
  method Accumulate(before: seq<Row>, listed: seq<Row>) returns (rows: seq<StatementRow>, running: map<nat, real>)
    ensures |rows| == |listed|
    ensures forall i :: 0 <= i < |listed| ==> rows[i] == StatementRow(listed[i], RunningAt(before, listed, i))
    ensures forall c :: Get(running, c) == RowTotal(before, InCur(c)) + RowTotal(listed, InCur(c))
  {
    running := Grouped(before);
    forall c {
      GroupedGet(before, c);
    }
    rows := [];
    for i := 0 to |listed|
      invariant |rows| == i
      invariant forall c :: Get(running, c) == RowTotal(before, InCur(c)) + RowTotal(listed[..i], InCur(c))
      invariant forall j :: 0 <= j < i ==> rows[j] == StatementRow(listed[j], RunningAt(before, listed, j))
    {
      hide Grouped;
      var e := listed[i].entry;
      assert listed[..i + 1][..i] == listed[..i];
      running := running[e.currency := Get(running, e.currency) + e.amount];
      rows := rows + [StatementRow(listed[i], running[e.currency])];
    }
    assert listed[..|listed|] == listed;
  }

  /** Opening and closing figures are balances: before the period, and as of its end. */
  ghost predicate EndsRight(db: Db, a: Account, currency: Option<nat>, from: Option<int>, to: Option<int>,
                            opening: map<nat, real>, closing: map<nat, real>) {
    && (forall c :: InScope(currency, c) ==> Get(opening, c) == Total(db, Prior(a, c, from)))
    && (from.None? || to.None? || from.value <= to.value + 1 ==>
        forall c :: InScope(currency, c) ==> Get(closing, c) == Total(db, AsOf(a, c, to)))
    && (forall c :: !InScope(currency, c) ==> Get(opening, c) == 0.0 == Get(closing, c))
  }

  lemma EndsOf(db: Db, a: Account, currency: Option<nat>, from: Option<int>, to: Option<int>, closing: map<nat, real>)
    requires var table := Ordered(PostedRows(db.vouchers, db.nextId));
      forall c :: Get(closing, c) ==
        RowTotal(Filter(table, Earlier(a, currency, from)), InCur(c)) + RowTotal(Filter(table, Window(a, currency, from, to)), InCur(c))
    ensures EndsRight(db, a, currency, from, to,
                      Grouped(Filter(Ordered(PostedRows(db.vouchers, db.nextId)), Earlier(a, currency, from))), closing)
  {
    hide Ordered, PostedRows, Filter, RowTotal, Total, InScope, Get, Grouped, Window, Earlier;
    var before := Filter(Ordered(PostedRows(db.vouchers, db.nextId)), Earlier(a, currency, from));
    var opening := Grouped(before);
    forall c
      ensures InScope(currency, c) ==> Get(opening, c) == Total(db, Prior(a, c, from))
      ensures InScope(currency, c) && (from.None? || to.None? || from.value <= to.value + 1) ==>
        Get(closing, c) == Total(db, AsOf(a, c, to))
      ensures !InScope(currency, c) ==> Get(opening, c) == 0.0 == Get(closing, c)
    {
      GroupedGet(before, c);
      EndsAreBalances(db, a, currency, from, to, c);
    }
  }

  /** The rows of a statement from the oldest to the newest, without their figures. */
  function Listing(rows: seq<StatementRow>, newestFirst: bool): (r: seq<Row>)
    ensures |r| == |rows|
    ensures forall i :: 0 <= i < |r| ==> r[i] == rows[if newestFirst then |rows| - 1 - i else i].row
  {
    seq(|rows|, i requires 0 <= i < |rows| => rows[if newestFirst then |rows| - 1 - i else i].row)
  }

  /** The posted rows of the account in the period, in the currency asked for if one is, each in its place. */
  ghost predicate ListsPeriod(rows: seq<Row>, db: Db, a: Account, currency: Option<nat>, from: Option<int>, to: Option<int>) {
    && InOrder(rows)
    && forall r :: r in rows <==>
         && r in PostedRows(db.vouchers, db.nextId) && r.entry.party == a
         && (currency.Some? ==> r.entry.currency == currency.value)
         && (from.Some? ==> from.value <= r.entry.date) && (to.Some? ==> r.entry.date <= to.value)
  }

  /** The rows are those listed, from the first or from the last, each with the balance after it. */
  ghost predicate ShowsRows(rows: seq<StatementRow>, listed: seq<Row>, db: Db, a: Account, newestFirst: bool) {
    && |rows| == |listed|
    && forall i :: 0 <= i < |listed| ==>
         rows[if newestFirst then |listed| - 1 - i else i] == StatementRow(listed[i], BalanceAfter(db, a, listed[i]))
  }

  lemma TurnedAround(rows: seq<StatementRow>, listed: seq<Row>, db: Db, a: Account, newestFirst: bool)
    requires ShowsRows(rows, listed, db, a, false)
    ensures var shown := if newestFirst then Reversed(rows) else rows;
      ShowsRows(shown, listed, db, a, newestFirst) && Listing(shown, newestFirst) == listed
  {
    hide BalanceAfter;
  }

  /** The rows of the period, in ledger order, are the rows listed (newest first or last); each shows
      the balance right after it; the opening balance is what came before the period, and the
      closing balance is the balance as of its end. */
  method AccountStatement(m: Rounding, db: Db, a: Account, currency: Option<nat>, from: Option<int>, to: Option<int>,
                          newestFirst: bool) returns (st: Statement)
    requires Inv(m, db)
    ensures ShowsRows(st.rows, Filter(Ordered(PostedRows(db.vouchers, db.nextId)), Window(a, currency, from, to)), db, a,
                      newestFirst)
    ensures ListsPeriod(Listing(st.rows, newestFirst), db, a, currency, from, to)
    ensures EndsRight(db, a, currency, from, to, st.opening, st.closing)
  {
    hide Inv, Ordered, PostedRows, Filter, RowTotal, BalanceAfter, Get, Grouped, Window, Earlier, EndsRight, ListsPeriod;
    var table := Ordered(PostedRows(db.vouchers, db.nextId));
    var before := Filter(table, Earlier(a, currency, from));
    var listed := Filter(table, Window(a, currency, from, to));
    var rows, running := Accumulate(before, listed);
    forall i | 0 <= i < |listed|
      ensures rows[i].running == BalanceAfter(db, a, listed[i])
    {
      RunningIsBalance(m, db, a, currency, from, to, i);
    }
    EndsOf(db, a, currency, from, to, running);
    TurnedAround(rows, listed, db, a, newestFirst);
    hide ShowsRows, Listing, Reversed;
    if newestFirst {
      rows := Reversed(rows);
    }
    ListedRows(m, db, a, currency, from, to);
    st := Statement(rows, Grouped(before), running);
  }

  lemma ListedRows(m: Rounding, db: Db, a: Account, currency: Option<nat>, from: Option<int>, to: Option<int>)
    requires Inv(m, db)
    ensures ListsPeriod(Filter(Ordered(PostedRows(db.vouchers, db.nextId)), Window(a, currency, from, to)),
                        db, a, currency, from, to)
  {
    hide Ordered, PostedRows, Inv, Filter, Less, Ahead;
    var rows := PostedRows(db.vouchers, db.nextId);
    RowsPlaced(m, db, db.nextId);
    OrderedSound(rows);
    FilterMembers(Ordered(rows), Window(a, currency, from, to));
    FilterInOrder(Ordered(rows), Window(a, currency, from, to));
  }

  lemma TableTotal(db: Db, w: Entry -> real)
    ensures RowTotal(Ordered(PostedRows(db.vouchers, db.nextId)), ByEntry(w)) == Total(db, w)
  {
    OrderedTotal(PostedRows(db.vouchers, db.nextId), ByEntry(w));
    RowsMatchVouchers(db.vouchers, db.nextId, w);
  }

  lemma EndsAreBalances(db: Db, a: Account, currency: Option<nat>, from: Option<int>, to: Option<int>, c: nat)
    ensures var table := Ordered(PostedRows(db.vouchers, db.nextId));
      var opening := RowTotal(Filter(table, Earlier(a, currency, from)), InCur(c));
      var moved := RowTotal(Filter(table, Window(a, currency, from, to)), InCur(c));
      && (InScope(currency, c) ==> opening == Total(db, Prior(a, c, from)))
      && (InScope(currency, c) && (from.None? || to.None? || from.value <= to.value + 1) ==>
            opening + moved == Total(db, AsOf(a, c, to)))
      && (!InScope(currency, c) ==> opening == 0.0 && moved == 0.0)
  {
    hide Ordered, PostedRows, Total;
    var table := Ordered(PostedRows(db.vouchers, db.nextId));
    var f, g := Where(Earlier(a, currency, from), InCur(c)), Where(Window(a, currency, from, to), InCur(c));
    FilterTotal(table, Earlier(a, currency, from), InCur(c));
    FilterTotal(table, Window(a, currency, from, to), InCur(c));
    if InScope(currency, c) {
      RowTotalEqual(table, f, ByEntry(Prior(a, c, from)));
      TableTotal(db, Prior(a, c, from));
      TableTotal(db, AsOf(a, c, to));
      if from.None? || to.None? || from.value <= to.value + 1 {
        RowTotalPlus(table, f, g, ByEntry(AsOf(a, c, to)));
      }
    } else {
      RowTotalZero(table, f);
      RowTotalZero(table, g);
    }
  }

  lemma {:induction false} RowTotalZero(rows: seq<Row>, f: Row -> real)
    requires forall r :: r in rows ==> f(r) == 0.0
    ensures RowTotal(rows, f) == 0.0
  {
    if rows == [] {
    } else {
      RowTotalZero(rows[..|rows| - 1], f);
    }
  }

  /** The statement's running figure at a row, opening balance included, is the balance right after
      that row: the period chosen does not enter into it. */
  lemma RunningIsBalance(m: Rounding, db: Db, a: Account, currency: Option<nat>, from: Option<int>, to: Option<int>, i: nat)
    requires Inv(m, db)
    requires i < |Filter(Ordered(PostedRows(db.vouchers, db.nextId)), Window(a, currency, from, to))|
    ensures var table := Ordered(PostedRows(db.vouchers, db.nextId));
      var qs := Filter(table, Window(a, currency, from, to));
      var c := qs[i].entry.currency;
      RowTotal(Filter(table, Earlier(a, currency, from)), InCur(c)) + RowTotal(qs[..i + 1], InCur(c))
        == BalanceAfter(db, a, qs[i])
  {
    hide Ordered, PostedRows, Inv;
    var rows := PostedRows(db.vouchers, db.nextId);
    var table := Ordered(rows);
    var qs := Filter(table, Window(a, currency, from, to));
    var last := qs[i];
    var c := last.entry.currency;
    RowsPlaced(m, db, db.nextId);
    OrderedSound(rows);
    FilterMembers(table, Window(a, currency, from, to));
    assert last in qs;
    FilterTotal(table, Earlier(a, currency, from), InCur(c));
    PrefixTotal(table, Window(a, currency, from, to), InCur(c), i);
    var f := Where(Earlier(a, currency, from), InCur(c));
    var g := Where(Through(Window(a, currency, from, to), last), InCur(c));
    RowTotalPlus(table, f, g, After(a, last));
    OrderedTotal(rows, After(a, last));
  }

  /** Adjacent periods chain: what one closes with the next opens with. */
  lemma AdjacentPeriods(db: Db, a: Account, c: nat, day: int)
    ensures Total(db, AsOf(a, c, Some(day))) == Total(db, Prior(a, c, Some(day + 1)))
  {
    var w, w' := AsOf(a, c, Some(day)), Prior(a, c, Some(day + 1));
    forall id: nat | id < db.nextId
      ensures PostedTerm(db.vouchers, w)(id) == PostedTerm(db.vouchers, w')(id)
    {
      if id in db.vouchers {
        EntrySumEqual(db.vouchers[id].entries, w, w');
      }
    }
    SumEqual(db.nextId, PostedTerm(db.vouchers, w), PostedTerm(db.vouchers, w'));
  }

  lemma {:induction false} EntrySumEqual(es: seq<Entry>, w: Entry -> real, w': Entry -> real)
    requires forall e :: e in es ==> w(e) == w'(e)
    ensures EntrySum(es, w) == EntrySum(es, w')
  {
    if es == [] {
    } else {
      EntrySumEqual(es[..|es| - 1], w, w');
    }
  }

  lemma {:induction false} EntrySumPlus(es: seq<Entry>, f: Entry -> real, g: Entry -> real, h: Entry -> real)
    requires forall e :: e in es ==> h(e) == f(e) + g(e)
    ensures EntrySum(es, h) == EntrySum(es, f) + EntrySum(es, g)
  {
    if es == [] {
    } else {
      EntrySumPlus(es[..|es| - 1], f, g, h);
    }
  }

  // ------------------------------------------------------------------ totals that vanish

  predicate Between(from: Option<int>, to: Option<int>, date: int) {
    (from.Some? ==> from.value <= date) && (to.Some? ==> date <= to.value)
  }

  function AllIn(c: nat, from: Option<int>, to: Option<int>): Entry -> real {
    (e: Entry) => if e.currency == c && Between(from, to, e.date) then e.amount else 0.0
  }

  function DebitIn(c: nat, from: Option<int>, to: Option<int>): Entry -> real {
    (e: Entry) => if e.currency == c && Between(from, to, e.date) && e.amount > 0.0 then e.amount else 0.0
  }

  function CreditIn(c: nat, from: Option<int>, to: Option<int>): Entry -> real {
    (e: Entry) => if e.currency == c && Between(from, to, e.date) && e.amount < 0.0 then e.amount else 0.0
  }

  /** In every well-formed database each currency sums to zero over all accounts, at every cut-off and
      over every period, because the rows of a voucher stand or fall together. */
  lemma CurrencyTotalsVanish(m: Rounding, db: Db, c: nat, from: Option<int>, to: Option<int>)
    requires Inv(m, db)
    ensures Total(db, AllIn(c, from, to)) == 0.0
  {
    hide Linked, Distinct, OnGrid;
    var w := AllIn(c, from, to);
    forall id: nat | id < db.nextId
      ensures PostedTerm(db.vouchers, w)(id) == 0.0
    {
      if id in db.vouchers {
        var v := db.vouchers[id];
        if Between(from, to, v.date) {
          EntrySumEqual(v.entries, w, InCurrency(c));
        } else {
          EntrySumZero(v.entries, w);
        }
      }
    }
    SumZero(db.nextId, PostedTerm(db.vouchers, w));
  }

  /** Total debits equal total credits in every currency over every period, whatever was posted,
      voided or deleted before. */
  lemma DebitsEqualCredits(m: Rounding, g: Registry, ops: seq<Op>, c: nat, from: Option<int>, to: Option<int>)
    ensures var db := Run(m, g, ops);
      && Total(db, AllIn(c, None, to)) == 0.0
      && Total(db, DebitIn(c, from, to)) + Total(db, CreditIn(c, from, to)) == 0.0
  {
    hide Inv, Run;
    Reachable(m, g, ops);
    var db := Run(m, g, ops);
    CurrencyTotalsVanish(m, db, c, None, to);
    CurrencyTotalsVanish(m, db, c, from, to);
    var d, k, w := DebitIn(c, from, to), CreditIn(c, from, to), AllIn(c, from, to);
    forall id: nat | id < db.nextId
      ensures PostedTerm(db.vouchers, w)(id) == PostedTerm(db.vouchers, d)(id) + PostedTerm(db.vouchers, k)(id)
    {
      if id in db.vouchers {
        EntrySumPlus(db.vouchers[id].entries, d, k, w);
      }
    }
    SumPlus(db.nextId, PostedTerm(db.vouchers, d), PostedTerm(db.vouchers, k), PostedTerm(db.vouchers, w));
  }
}
