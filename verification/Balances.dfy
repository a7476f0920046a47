/** Balances, statements and totals, all computed from the posted rows at the moment they are asked for. */
module Balances {
  import opened Amounts
  import opened Books
  import opened Runs
  import opened Chains
  import opened Sums

  // ------------------------------------------------------------------ the posted rows

  /** A row together with the number of its voucher. */
  datatype Row = Row(entry: Entry, number: nat)

  function RowsOf(v: Voucher): (rows: seq<Row>)
    ensures |rows| == |v.entries|
    ensures forall i :: 0 <= i < |rows| ==>
      rows[i] == Row(v.entries[i], if v.number.Some? then v.number.value else 0)
  {
    seq(|v.entries|, i requires 0 <= i < |v.entries| => Row(v.entries[i], if v.number.Some? then v.number.value else 0))
  }

  /** The rows of every voucher that is not a draft. */
  function PostedRows(vs: map<nat, Voucher>, n: nat): seq<Row> {
    if n == 0 then []
    else PostedRows(vs, n - 1) + if n - 1 in vs && vs[n - 1].status != Draft then RowsOf(vs[n - 1]) else []
  }

  function RowTotal(rows: seq<Row>, f: Row -> real): real {
    if rows == [] then 0.0 else RowTotal(rows[..|rows| - 1], f) + f(rows[|rows| - 1])
  }

  function ByEntry(w: Entry -> real): Row -> real {
    (r: Row) => w(r.entry)
  }

  lemma {:induction false} RowTotalSplit(a: seq<Row>, b: seq<Row>, f: Row -> real)
    ensures RowTotal(a + b, f) == RowTotal(a, f) + RowTotal(b, f)
  {
    if b == [] {
      assert a + b == a;
    } else {
      RowTotalSplit(a, b[..|b| - 1], f);
      assert (a + b)[..|a + b| - 1] == a + b[..|b| - 1];
    }
  }

  lemma {:induction false} RowTotalEqual(rows: seq<Row>, f: Row -> real, g: Row -> real)
    requires forall r :: r in rows ==> f(r) == g(r)
    ensures RowTotal(rows, f) == RowTotal(rows, g)
  {
    if rows == [] {
    } else {
      RowTotalEqual(rows[..|rows| - 1], f, g);
    }
  }

  lemma {:induction false} RowTotalPlus(rows: seq<Row>, f: Row -> real, g: Row -> real, h: Row -> real)
    requires forall r :: r in rows ==> h(r) == f(r) + g(r)
    ensures RowTotal(rows, h) == RowTotal(rows, f) + RowTotal(rows, g)
  {
    if rows == [] {
    } else {
      RowTotalPlus(rows[..|rows| - 1], f, g, h);
    }
  }

  lemma {:induction false} VoucherRows(v: Voucher, k: nat, w: Entry -> real)
    requires k <= |v.entries|
    ensures RowTotal(RowsOf(v)[..k], ByEntry(w)) == EntrySum(v.entries[..k], w)
  {
    if k == 0 {
    } else {
      VoucherRows(v, k - 1, w);
      assert RowsOf(v)[..k][..k - 1] == RowsOf(v)[..k - 1];
      assert v.entries[..k][..k - 1] == v.entries[..k - 1];
    }
  }

  /** Summing row by row and summing voucher by voucher give the same balance. */
  lemma {:induction false} RowsMatchVouchers(vs: map<nat, Voucher>, n: nat, w: Entry -> real)
    ensures RowTotal(PostedRows(vs, n), ByEntry(w)) == Sum(n, PostedTerm(vs, w))
  {
    if n == 0 {
    } else {
      RowsMatchVouchers(vs, n - 1, w);
      if n - 1 in vs && vs[n - 1].status != Draft {
        var v := vs[n - 1];
        RowTotalSplit(PostedRows(vs, n - 1), RowsOf(v), ByEntry(w));
        VoucherRows(v, |v.entries|, w);
        assert RowsOf(v)[..|v.entries|] == RowsOf(v) && v.entries[..|v.entries|] == v.entries;
      } else {
        assert PostedRows(vs, n) == PostedRows(vs, n - 1) + [] == PostedRows(vs, n - 1);
      }
    }
  }

  // ------------------------------------------------------------------ ledger order

  /** Statement order: by date, then voucher number, then row number. */
  predicate Less(r: Row, s: Row) {
    || r.entry.date < s.entry.date
    || (r.entry.date == s.entry.date &&
        (r.number < s.number || (r.number == s.number && r.entry.rowNo < s.entry.rowNo)))
  }

  predicate Upto(r: Row, s: Row) {
    !Less(s, r)
  }

  ghost predicate Ascending(rows: seq<Row>) {
    forall i, j :: 0 <= i < j < |rows| ==> Less(rows[i], rows[j])
  }

  /** `r` has the smaller date, or on one date the smaller voucher number, or in one voucher the smaller row number. */
  predicate Ahead(r: Row, s: Row) {
    && r.entry.date <= s.entry.date
    && (r.entry.date == s.entry.date ==> r.number <= s.number)
    && (r.entry.date == s.entry.date && r.number == s.number ==> r.entry.rowNo < s.entry.rowNo)
  }

  ghost predicate InOrder(rows: seq<Row>) {
    forall i, j :: 0 <= i < j < |rows| ==> Ahead(rows[i], rows[j])
  }

  lemma AscendingMeans(rows: seq<Row>)
    requires Ascending(rows)
    ensures InOrder(rows)
  {
  }

  function Insert(r: Row, rows: seq<Row>): seq<Row> {
    if rows == [] || Less(rows[|rows| - 1], r) then rows + [r]
    else Insert(r, rows[..|rows| - 1]) + [rows[|rows| - 1]]
  }

  function Ordered(rows: seq<Row>): seq<Row> {
    if rows == [] then [] else Insert(rows[|rows| - 1], Ordered(rows[..|rows| - 1]))
  }

  /** No two rows take the same place. */
  ghost predicate Placed(rows: seq<Row>) {
    forall i, j :: 0 <= i < j < |rows| ==> Less(rows[i], rows[j]) || Less(rows[j], rows[i])
  }

  lemma {:induction false} InsertSound(r: Row, rows: seq<Row>)
    requires Ascending(rows) && forall s :: s in rows ==> Less(r, s) || Less(s, r)
    ensures Ascending(Insert(r, rows))
    ensures forall s :: s in Insert(r, rows) <==> s == r || s in rows
  {
    if rows != [] && !Less(rows[|rows| - 1], r) {
      var init, last := rows[..|rows| - 1], rows[|rows| - 1];
      assert rows == init + [last];
      InsertSound(r, init);
      assert last in rows;
      forall s | s in Insert(r, init)
        ensures Less(s, last)
      {
        if s in init {
          var i :| 0 <= i < |init| && init[i] == s;
          assert rows[i] == s;
        }
      }
    } else if rows != [] {
      var last := rows[|rows| - 1];
      forall i | 0 <= i < |rows|
        ensures Less(rows[i], r)
      {
        assert i < |rows| - 1 ==> Less(rows[i], last);
      }
    }
  }

  lemma {:induction false} InsertTotal(r: Row, rows: seq<Row>, f: Row -> real)
    ensures RowTotal(Insert(r, rows), f) == RowTotal(rows, f) + f(r)
  {
    if rows == [] || Less(rows[|rows| - 1], r) {
      assert (rows + [r])[..|rows|] == rows;
    } else {
      var init, last := rows[..|rows| - 1], rows[|rows| - 1];
      InsertTotal(r, init, f);
      assert (Insert(r, init) + [last])[..|Insert(r, init)|] == Insert(r, init);
    }
  }

  /** Ordering keeps the rows and every total over them. */
  lemma {:induction false} OrderedSound(rows: seq<Row>)
    requires Placed(rows)
    ensures Ascending(Ordered(rows)) && InOrder(Ordered(rows))
    ensures forall s :: s in Ordered(rows) <==> s in rows
  {
    if rows == [] {
    } else {
      var init, last := rows[..|rows| - 1], rows[|rows| - 1];
      assert rows == init + [last];
      OrderedSound(init);
      forall s | s in Ordered(init)
        ensures Less(last, s) || Less(s, last)
      {
        var i :| 0 <= i < |init| && init[i] == s;
        assert rows[i] == s;
      }
      InsertSound(last, Ordered(init));
    }
    AscendingMeans(Ordered(rows));
  }

  lemma {:induction false} OrderedTotal(rows: seq<Row>, f: Row -> real)
    ensures RowTotal(Ordered(rows), f) == RowTotal(rows, f)
  {
    if rows == [] {
    } else {
      OrderedTotal(rows[..|rows| - 1], f);
      InsertTotal(rows[|rows| - 1], Ordered(rows[..|rows| - 1]), f);
    }
  }

  lemma VoucherPlaced(m: Rounding, v: Voucher, sequence: nat)
    requires VoucherOk(m, v, sequence)
    ensures Placed(RowsOf(v)) && forall r :: r in RowsOf(v) ==> Some(r.number) == v.number
  {
    hide OnGrid, EntrySum;
  }

  /** In a well-formed database every row has a place of its own. */
  lemma {:induction false} RowsPlaced(m: Rounding, db: Db, n: nat)
    requires Inv(m, db)
    ensures Placed(PostedRows(db.vouchers, n))
    ensures forall r :: r in PostedRows(db.vouchers, n) ==>
      exists id :: id < n && id in db.vouchers && db.vouchers[id].number == Some(r.number)
  {
    hide VoucherOk, Linked, Placed, RowsOf;
    if n == 0 {
      NonePlaced();
    } else {
      RowsPlaced(m, db, n - 1);
      var earlier, id := PostedRows(db.vouchers, n - 1), n - 1;
      if id in db.vouchers && db.vouchers[id].status != Draft {
        var added := RowsOf(db.vouchers[id]);
        VoucherPlaced(m, db.vouchers[id], db.sequence);
        forall r, s | r in earlier && s in added
          ensures r.number != s.number
        {
          var i :| i < n - 1 && i in db.vouchers && db.vouchers[i].number == Some(r.number);
        }
        PlacedJoin(earlier, added);
      } else {
        assert PostedRows(db.vouchers, n) == earlier;
      }
    }
  }

  lemma NonePlaced()
    ensures Placed([])
  {
  }

  lemma PlacedJoin(a: seq<Row>, b: seq<Row>)
    requires Placed(a) && Placed(b)
    requires forall r, s :: r in a && s in b ==> r.number != s.number
    ensures Placed(a + b)
  {
    forall i, j | 0 <= i < j < |a + b|
      ensures Less((a + b)[i], (a + b)[j]) || Less((a + b)[j], (a + b)[i])
    {
      if i < |a| <= j {
        assert a[i] in a && b[j - |a|] in b;
      } else if |a| <= i {
        assert Less(b[i - |a|], b[j - |a|]) || Less(b[j - |a|], b[i - |a|]);
      }
    }
  }

  // ------------------------------------------------------------------ filters

  function Filter(rows: seq<Row>, p: Row -> bool): seq<Row> {
    if rows == [] then []
    else Filter(rows[..|rows| - 1], p) + if p(rows[|rows| - 1]) then [rows[|rows| - 1]] else []
  }

  function Where(p: Row -> bool, f: Row -> real): Row -> real {
    (r: Row) => if p(r) then f(r) else 0.0
  }

  lemma {:induction false} FilterTotal(rows: seq<Row>, p: Row -> bool, f: Row -> real)
    ensures RowTotal(Filter(rows, p), f) == RowTotal(rows, Where(p, f))
  {
    if rows == [] {
    } else {
      var init, last := rows[..|rows| - 1], rows[|rows| - 1];
      FilterTotal(init, p, f);
      assert (Filter(init, p) + [last])[..|Filter(init, p)|] == Filter(init, p);
      assert Filter(init, p) + [] == Filter(init, p);
    }
  }

  lemma {:induction false} FilterMembers(rows: seq<Row>, p: Row -> bool)
    ensures forall r :: r in Filter(rows, p) <==> r in rows && p(r)
  {
    if rows == [] {
    } else {
      FilterMembers(rows[..|rows| - 1], p);
      assert rows == rows[..|rows| - 1] + [rows[|rows| - 1]];
    }
  }

  function Through(p: Row -> bool, last: Row): Row -> bool {
    (r: Row) => p(r) && Upto(r, last)
  }

  lemma FilterLast(init: seq<Row>, x: Row, p: Row -> bool)
    ensures Filter(init + [x], p) == if p(x) then Filter(init, p) + [x] else Filter(init, p)
  {
    assert (init + [x])[..|init|] == init;
  }

  lemma {:induction false} FilterInOrder(rows: seq<Row>, p: Row -> bool)
    requires InOrder(rows)
    ensures InOrder(Filter(rows, p))
  {
    hide Ahead;
    if rows != [] {
      var init, x := rows[..|rows| - 1], rows[|rows| - 1];
      assert rows == init + [x];
      FilterInOrder(init, p);
      FilterMembers(init, p);
      forall r | r in Filter(init, p)
        ensures Ahead(r, x)
      {
        var i :| 0 <= i < |init| && init[i] == r;
        assert rows[i] == r && rows[|init|] == x;
      }
    }
  }

  /** Every row of an ascending list comes no later than its last. */
  lemma LastIsLast(init: seq<Row>, x: Row, p: Row -> bool, f: Row -> real)
    requires Ascending(init + [x]) && p(x)
    ensures RowTotal(Filter(init, p) + [x], f) == RowTotal(init + [x], Where(Through(p, x), f))
  {
    hide Filter, Less;
    var w := Filter(init, p);
    assert (w + [x])[..|w|] == w && (init + [x])[..|init|] == init;
    FilterTotal(init, p, f);
    NotAfter(init, x);
    RowTotalEqual(init, Where(p, f), Where(Through(p, x), f));
    SelfUpto(x);
  }

  lemma SelfUpto(x: Row)
    ensures Upto(x, x)
  {
  }

  lemma NotAfter(init: seq<Row>, x: Row)
    requires Ascending(init + [x])
    ensures forall r :: r in init ==> Less(r, x) && Upto(r, x) && !Upto(x, r)
  {
    forall r | r in init
      ensures Less(r, x) && Upto(r, x) && !Upto(x, r)
    {
      var j :| 0 <= j < |init| && init[j] == r;
      assert (init + [x])[j] == r && (init + [x])[|init|] == x;
    }
  }

  /** In ledger order, a prefix of a selection is the selection of the rows up to its last one. */
  lemma {:induction false} PrefixTotal(rows: seq<Row>, p: Row -> bool, f: Row -> real, i: nat)
    requires Ascending(rows) && i < |Filter(rows, p)|
    ensures var last := Filter(rows, p)[i];
      RowTotal(Filter(rows, p)[..i + 1], f) == RowTotal(rows, Where(Through(p, last), f))
  {
    assert rows != [];
    hide Filter, Less, Upto;
    var init, x := rows[..|rows| - 1], rows[|rows| - 1];
    assert rows == init + [x];
    FilterLast(init, x, p);
    var w := Filter(init, p);
    if i < |w| {
      assert Ascending(init);
      PrefixTotal(init, p, f, i);
      assert Filter(rows, p)[..i + 1] == w[..i + 1];
      FilterMembers(init, p);
      assert w[i] in w && w[i] in init;
      NotAfter(init, x);
    } else {
      assert Filter(rows, p)[..i + 1] == w + [x];
      LastIsLast(init, x, p, f);
    }
  }
}
