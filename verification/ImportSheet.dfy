/** Bringing a customer's sheet over: the totals of its columns, and the opening vouchers made of them. */
module ImportSheet {
  import opened Algebra
  import opened Amounts
  import opened Inventory
  import opened Books
  import opened Context
  import opened Runs
  import opened Chains
  import opened Effects
  import Money
  import Services

  // ------------------------------------------------------------------ the sheet

  /** A row after its cells have been read as numbers; an empty or unreadable cell is none. */
  datatype SheetRow = SheetRow(filled: bool, described: bool, date: Option<bool>,
                               debit: map<string, real>, credit: map<string, real>,
                               quantity: Option<real>, sellPrice: Option<real>, buyPrice: Option<real>)

  const CODES := ["IRR", "AED", "USD", "USDT"]

  predicate Counts(row: SheetRow) {
    row.filled && (row.described || row.date.Some?)
  }

  function Cell(cells: map<string, real>, code: string): real {
    if code in cells then cells[code] else 0.0
  }

  /** What a row adds to a column, by the source's own two operations. */
  function Effect(m: Rounding, row: SheetRow, code: string): real {
    if Counts(row) then Ctx(m, Ctx(m, Cell(row.debit, code)) - Cell(row.credit, code)) else 0.0
  }

  /** Debits minus credits of a column, every operation in the context. */
  function ColumnTotal(m: Rounding, rows: seq<SheetRow>, code: string): real {
    if rows == [] then 0.0
    else Ctx(m, ColumnTotal(m, rows[..|rows| - 1], code) + Effect(m, rows[|rows| - 1], code))
  }

  /** Debits minus credits. */
  function ColumnSum(rows: seq<SheetRow>, code: string): real {
    if rows == [] then 0.0
    else
      var row := rows[|rows| - 1];
      ColumnSum(rows[..|rows| - 1], code)
      + (if row.filled && (row.described || row.date.Some?) && code in row.debit then row.debit[code] else 0.0)
      - (if row.filled && (row.described || row.date.Some?) && code in row.credit then row.credit[code] else 0.0)
  }

  /** With cells of at most eight decimals the two are the same, and fit their column. */
  lemma {:induction false} PlainSheet(m: Rounding, rows: seq<SheetRow>, code: string)
    requires forall r :: r in rows && code in r.debit ==> OnGrid(m, r.debit[code])
    requires forall r :: r in rows && code in r.credit ==> OnGrid(m, r.credit[code])
    ensures ColumnTotal(m, rows, code) == ColumnSum(rows, code) && OnGrid(m, ColumnSum(rows, code))
  {
    hide Ctx, OnGrid;
    ZeroOnGrid(m);
    if rows == [] {
    } else {
      var init, row := rows[..|rows| - 1], rows[|rows| - 1];
      PlainSheet(m, init, code);
      assert row in rows;
      CtxGrid(m, Cell(row.debit, code));
      GridSum(m, Cell(row.debit, code), Cell(row.credit, code));
      CtxGrid(m, Cell(row.debit, code) - Cell(row.credit, code));
      GridSum(m, ColumnSum(init, code), Cell(row.debit, code) - Cell(row.credit, code));
      CtxGrid(m, ColumnSum(init, code));
      CtxGrid(m, ColumnSum(rows, code));
    }
  }

  /** The amount is the result of an operation: another one leaves it as it is. */
  predicate InContext(m: Rounding, x: real) {
    Ctx(m, x) == x
  }

  lemma ColumnInContext(m: Rounding, rows: seq<SheetRow>, code: string)
    ensures InContext(m, ColumnTotal(m, rows, code))
  {
    hide Ctx;
    CtxTwice(m, 0.0);
    ZeroInContext(m);
    if rows != [] {
      CtxTwice(m, ColumnTotal(m, rows[..|rows| - 1], code) + Effect(m, rows[|rows| - 1], code));
    }
  }

  lemma ZeroInContext(m: Rounding)
    ensures InContext(m, 0.0)
  {
  }

  function Or(x: Option<real>, y: Option<real>): Option<real> {
    if x.Some? && x.value != 0.0 then x else y
  }

  function CellAt(cells: map<string, real>, code: string): Option<real> {
    if code in cells then Some(cells[code]) else None
  }

  predicate Truthy(x: Option<real>) {
    x.Some? && x.value != 0.0
  }

  /** Quantity times price is off the recorded amount by more than one. */
  predicate Mismatch(row: SheetRow) {
    var price := Or(row.sellPrice, row.buyPrice);
    var recorded := Or(CellAt(row.debit, "IRR"), CellAt(row.credit, "IRR"));
    Truthy(row.quantity) && Truthy(price) && Truthy(recorded) &&
    Abs(Times(row.quantity.value, price.value) - recorded.value) > 1.0
  }

  /** The price a row is checked with: that of a sale, or where there is none (or a zero) that of a purchase. */
  predicate PricedAt(row: SheetRow, p: real) {
    p != 0.0 && (row.sellPrice == Some(p) || (row.sellPrice in {None, Some(0.0)} && row.buyPrice == Some(p)))
  }

  /** The amount in base it is checked against: the debit, or where there is none (or a zero) the credit. */
  predicate RecordedAt(row: SheetRow, x: real) {
    x != 0.0 && ((if "IRR" in row.debit then row.debit["IRR"] else 0.0) == x
                 || ((if "IRR" in row.debit then row.debit["IRR"] else 0.0) == 0.0
                     && "IRR" in row.credit && row.credit["IRR"] == x))
  }

  /** A row is reported exactly when it has a quantity, a price and an amount, none of them zero, and quantity times
      price is off the amount by more than one. */
  lemma MismatchMeans(row: SheetRow)
    ensures Mismatch(row) <==>
      exists q, p, x :: row.quantity == Some(q) && q != 0.0 && PricedAt(row, p) && RecordedAt(row, x)
        && !Within(Times(q, p), x, 1.0)
  {
    hide Times;
    if Mismatch(row) {
      var q, p, x := row.quantity.value, Or(row.sellPrice, row.buyPrice).value,
        Or(CellAt(row.debit, "IRR"), CellAt(row.credit, "IRR")).value;
      assert PricedAt(row, p) && RecordedAt(row, x);
    }
  }

  function Issues(rows: seq<SheetRow>): nat {
    if rows == [] then 0
    else
      var row := rows[|rows| - 1];
      Issues(rows[..|rows| - 1]) +
      (if Counts(row) && Mismatch(row) then 1 else 0) + (if Counts(row) && row.date == Some(false) then 1 else 0)
  }

  /** The places of the rows with a property. */
  ghost function Places(rows: seq<SheetRow>, p: SheetRow -> bool): set<int> {
    set i | 0 <= i < |rows| && p(rows[i])
  }

  lemma OneMorePlace(rows: seq<SheetRow>, p: SheetRow -> bool)
    requires rows != []
    ensures |Places(rows, p)| == |Places(rows[..|rows| - 1], p)| + if p(rows[|rows| - 1]) then 1 else 0
  {
    var init, n := rows[..|rows| - 1], |rows| - 1;
    assert Places(rows, p) == if p(rows[n]) then Places(init, p) + {n} else Places(init, p);
  }

  /** A row whose figures do not match, or whose date is unreadable, if the row counts at all. */
  function Off(): SheetRow -> bool {
    (row: SheetRow) => row.filled && (row.described || row.date.Some?) && Mismatch(row)
  }

  function Undated(): SheetRow -> bool {
    (row: SheetRow) => row.filled && row.date == Some(false)
  }

  /** An issue is reported for each of either kind. */
  lemma {:induction false} IssuesCounted(rows: seq<SheetRow>)
    ensures Issues(rows) == |Places(rows, Off())| + |Places(rows, Undated())|
  {
    hide Mismatch;
    if rows == [] {
      assert Places(rows, Off()) == {} && Places(rows, Undated()) == {};
    } else {
      hide Places;
      IssuesCounted(rows[..|rows| - 1]);
      OneMorePlace(rows, Off());
      OneMorePlace(rows, Undated());
    }
  }

  /** Running totals with the codes in order of first appearance. */
  datatype Totals = Totals(codes: seq<string>, amounts: map<string, real>)

  function Amount(t: Totals, code: string): real {
    if code in t.amounts then t.amounts[code] else 0.0
  }

  ghost predicate Consistent(m: Rounding, t: Totals, currencies: map<string, nat>) {
    && (forall x :: x in t.amounts ==> InContext(m, t.amounts[x]))
    && (forall i, j :: 0 <= i < j < |t.codes| ==> t.codes[i] != t.codes[j])
    && (forall x :: x in t.codes <==> x in t.amounts)
    && (forall x :: x in t.codes ==> x in currencies)
  }

  function Share(m: Rounding, row: SheetRow, codes: seq<string>, currencies: map<string, nat>, x: string): real {
    if x in codes && x in currencies then Effect(m, row, x) else 0.0
  }

  /** The effect of one row on one column. */
  method RowEffect(m: Rounding, row: SheetRow, code: string) returns (effect: real)
    requires Counts(row)
    ensures effect == Effect(m, row, code)
  {
    hide Ctx;
    ZeroInContext(m);
    CtxTwice(m, Cell(row.debit, code));
    effect := 0.0;
    if Cell(row.debit, code) != 0.0 {
      effect := Ctx(m, effect + Cell(row.debit, code));
    }
    if Cell(row.credit, code) != 0.0 {
      effect := Ctx(m, effect - Cell(row.credit, code));
    }
  }

  /** Adding to one total. */
  method AddTo(m: Rounding, t: Totals, code: string, effect: real, currencies: map<string, nat>) returns (t': Totals)
    requires Consistent(m, t, currencies) && code in currencies
    ensures Consistent(m, t', currencies)
    ensures forall x :: Amount(t', x) == if x == code then Ctx(m, Amount(t, x) + effect) else Amount(t, x)
    ensures t'.codes == if effect != 0.0 && code !in t.codes then t.codes + [code] else t.codes
  {
    hide Ctx;
    ZeroInContext(m);
    CtxTwice(m, Amount(t, code) + effect);
    t' := t;
    if effect != 0.0 {
      t' := Totals(if code in t.amounts then t.codes else t.codes + [code],
                   t.amounts[code := Ctx(m, Amount(t, code) + effect)]);
    }
  }

  ghost predicate RowAdded(m: Rounding, t: Totals, t': Totals, row: SheetRow, currencies: map<string, nat>) {
    forall x :: Amount(t', x) == Ctx(m, Amount(t, x) + Share(m, row, CODES, currencies, x))
  }

  /** The codes of the list that a row is the first to move. */
  function NewCodes(m: Rounding, seen: seq<string>, row: SheetRow, codes: seq<string>, currencies: map<string, nat>): seq<string> {
    if codes == [] then []
    else
      var x := codes[|codes| - 1];
      NewCodes(m, seen, row, codes[..|codes| - 1], currencies)
      + if x in currencies && Effect(m, row, x) != 0.0 && x !in seen then [x] else []
  }

  lemma {:induction false} NewCodesAmong(m: Rounding, seen: seq<string>, row: SheetRow, codes: seq<string>,
                                         currencies: map<string, nat>)
    ensures forall x :: x in NewCodes(m, seen, row, codes, currencies) <==>
      x in codes && x in currencies && Effect(m, row, x) != 0.0 && x !in seen
  {
    hide Effect;
    if codes != [] {
      NewCodesAmong(m, seen, row, codes[..|codes| - 1], currencies);
      assert codes == codes[..|codes| - 1] + [codes[|codes| - 1]];
    }
  }

  lemma NoNewCodes(m: Rounding, seen: seq<string>, row: SheetRow, currencies: map<string, nat>)
    ensures NewCodes(m, seen, row, CODES[..0], currencies) == []
  {
  }

  lemma OneCode(m: Rounding, seen: seq<string>, row: SheetRow, i: nat, currencies: map<string, nat>)
    requires i < |CODES|
    ensures NewCodes(m, seen, row, CODES[..i + 1], currencies) == NewCodes(m, seen, row, CODES[..i], currencies)
      + if CODES[i] in currencies && Effect(m, row, CODES[i]) != 0.0 && CODES[i] !in seen then [CODES[i]] else []
    ensures CODES[i] !in NewCodes(m, seen, row, CODES[..i], currencies)
  {
    hide Effect;
    NewCodesAmong(m, seen, row, CODES[..i], currencies);
    assert CODES[i] !in CODES[..i];
    var codes := CODES[..i + 1];
    assert codes[..|codes| - 1] == CODES[..i] && codes[|codes| - 1] == CODES[i];
  }

  /** The row has been added as far as these codes go. */
  ghost predicate Partly(m: Rounding, t: Totals, t': Totals, row: SheetRow, codes: seq<string>, currencies: map<string, nat>) {
    && (forall x :: Amount(t', x) == Ctx(m, Amount(t, x) + Share(m, row, codes, currencies, x)))
    && t'.codes == t.codes + NewCodes(m, t.codes, row, codes, currencies)
  }

  method AddRow(m: Rounding, t: Totals, row: SheetRow, currencies: map<string, nat>) returns (t': Totals)
    requires Consistent(m, t, currencies) && Counts(row)
    ensures Consistent(m, t', currencies)
    ensures RowAdded(m, t, t', row, currencies)
    ensures t'.codes == t.codes + NewCodes(m, t.codes, row, CODES, currencies)
  {
    hide Ctx, Consistent, Effect, Amount;
    t' := t;
    NothingAdded(m, t, row, currencies);
    for i := 0 to |CODES|
      invariant Consistent(m, t', currencies) && Partly(m, t, t', row, CODES[..i], currencies)
    {
      hide Partly;
      t' := AddCode(m, t, t', row, i, currencies);
    }
    assert CODES[..|CODES|] == CODES;
  }

  lemma NothingAdded(m: Rounding, t: Totals, row: SheetRow, currencies: map<string, nat>)
    requires Consistent(m, t, currencies)
    ensures Partly(m, t, t, row, CODES[..0], currencies)
  {
    hide Ctx, Amount;
    NoNewCodes(m, t.codes, row, currencies);
    AmountsInContext(m, t, currencies);
  }

  /** Adds the row's effect on one of the columns. */
  method AddCode(m: Rounding, ghost t0: Totals, t: Totals, row: SheetRow, i: nat, currencies: map<string, nat>)
    returns (t': Totals)
    requires Consistent(m, t0, currencies) && Consistent(m, t, currencies) && Counts(row) && i < |CODES|
    requires Partly(m, t0, t, row, CODES[..i], currencies)
    ensures Consistent(m, t', currencies) && Partly(m, t0, t', row, CODES[..i + 1], currencies)
  {
    hide Ctx, Consistent, Effect, NewCodes, Amount, Partly, CODES;
    var code := CODES[i];
    t' := t;
    if code in currencies {
      var effect := RowEffect(m, row, code);
      t' := AddTo(m, t, code, effect, currencies);
      CodeAdded(m, t0, t, t', row, i, currencies);
    } else {
      CodePassed(m, t0, t, row, i, currencies);
    }
  }

  lemma CodeAdded(m: Rounding, t0: Totals, t: Totals, t': Totals, row: SheetRow, i: nat, currencies: map<string, nat>)
    requires Consistent(m, t0, currencies) && i < |CODES| && Partly(m, t0, t, row, CODES[..i], currencies)
    requires CODES[i] in currencies
    requires forall x :: Amount(t', x) == if x == CODES[i] then Ctx(m, Amount(t, x) + Effect(m, row, CODES[i])) else Amount(t, x)
    requires t'.codes == if Effect(m, row, CODES[i]) != 0.0 && CODES[i] !in t.codes then t.codes + [CODES[i]] else t.codes
    ensures Partly(m, t0, t', row, CODES[..i + 1], currencies)
  {
    hide Ctx, Consistent, Effect, NewCodes, Amount, CODES;
    var code := CODES[i];
    OneCode(m, t0.codes, row, i, currencies);
    NotYet(i);
    AmountsInContext(m, t0, currencies);
    assert Ctx(m, Amount(t0, code)) == Amount(t0, code);
    assert Share(m, row, CODES[..i], currencies, code) == 0.0;
    assert Amount(t, code) == Amount(t0, code);
    forall x: string
      ensures Amount(t', x) == Ctx(m, Amount(t0, x) + Share(m, row, CODES[..i + 1], currencies, x))
    {
      if x != code {
        assert x in CODES[..i + 1] <==> x in CODES[..i];
        assert Share(m, row, CODES[..i + 1], currencies, x) == Share(m, row, CODES[..i], currencies, x);
      } else {
        assert Share(m, row, CODES[..i + 1], currencies, x) == Effect(m, row, code);
      }
    }
  }

  lemma CodePassed(m: Rounding, t0: Totals, t: Totals, row: SheetRow, i: nat, currencies: map<string, nat>)
    requires i < |CODES| && Partly(m, t0, t, row, CODES[..i], currencies) && CODES[i] !in currencies
    ensures Partly(m, t0, t, row, CODES[..i + 1], currencies)
  {
    hide Ctx, Effect, NewCodes, Amount, CODES;
    OneCode(m, t0.codes, row, i, currencies);
    NotYet(i);
    forall x: string
      ensures Share(m, row, CODES[..i + 1], currencies, x) == Share(m, row, CODES[..i], currencies, x)
    {
      assert x in CODES[..i + 1] <==> x in CODES[..i] || x == CODES[i];
    }
  }

  lemma NotYet(i: nat)
    requires i < |CODES|
    ensures CODES[..i + 1] == CODES[..i] + [CODES[i]] && CODES[i] !in CODES[..i]
  {
  }

  lemma AmountsInContext(m: Rounding, t: Totals, currencies: map<string, nat>)
    requires Consistent(m, t, currencies)
    ensures forall x :: Ctx(m, Amount(t, x)) == Amount(t, x)
  {
    hide Ctx;
    ZeroInContext(m);
  }

  /** The columns of the sheet that the ledger has currencies for. */
  ghost predicate OnSheet(currencies: map<string, nat>, x: string) {
    x in {"IRR", "AED", "USD", "USDT"} && x in currencies
  }

  /** The place of the first row that moves a code; the number of rows if none does. */
  ghost function FirstRow(m: Rounding, rows: seq<SheetRow>, x: string): (k: nat)
    ensures k <= |rows|
    ensures k < |rows| ==> Effect(m, rows[k], x) != 0.0
    ensures forall i :: 0 <= i < k ==> Effect(m, rows[i], x) == 0.0
  {
    if rows == [] then 0
    else
      var init := rows[..|rows| - 1];
      var k := FirstRow(m, init, x);
      if k < |init| then k else if Effect(m, rows[|rows| - 1], x) != 0.0 then |init| else |rows|
  }

  function CodePlace(x: string): nat {
    if x == "IRR" then 0 else if x == "AED" then 1 else if x == "USD" then 2 else 3
  }

  /** The codes that some row moves, in the order in which they are first moved: by row, and within a row rial, dirham,
      dollar, tether. */
  ghost predicate AsFirstMoved(m: Rounding, codes: seq<string>, rows: seq<SheetRow>, currencies: map<string, nat>) {
    && (forall x :: x in codes <==> OnSheet(currencies, x) && FirstRow(m, rows, x) < |rows|)
    && (forall i, j :: 0 <= i < j < |codes| ==> Sooner(m, rows, codes[i], codes[j]))
  }

  ghost predicate Sooner(m: Rounding, rows: seq<SheetRow>, x: string, y: string) {
    FirstRow(m, rows, x) < FirstRow(m, rows, y)
    || (FirstRow(m, rows, x) == FirstRow(m, rows, y) && CodePlace(x) < CodePlace(y))
  }

  lemma PlaceOf(k: nat)
    requires k < |CODES|
    ensures CodePlace(CODES[k]) == k
  {
  }

  lemma {:induction false} NewCodesOrdered(m: Rounding, seen: seq<string>, row: SheetRow, n: nat, currencies: map<string, nat>)
    requires n <= |CODES|
    ensures var added := NewCodes(m, seen, row, CODES[..n], currencies);
      PlacesAscend(added) && forall i :: 0 <= i < |added| ==> CodePlace(added[i]) < n
  {
    hide Effect, CodePlace, NewCodes, CODES;
    NoNewCodes(m, seen, row, currencies);
    if n > 0 {
      NewCodesOrdered(m, seen, row, n - 1, currencies);
      PlaceOf(n - 1);
      OneCode(m, seen, row, n - 1, currencies);
    }
  }

  ghost predicate PlacesAscend(codes: seq<string>) {
    forall i, j :: 0 <= i < j < |codes| ==> CodePlace(codes[i]) < CodePlace(codes[j])
  }

  lemma NewInOrder(m: Rounding, seen: seq<string>, row: SheetRow, currencies: map<string, nat>)
    ensures PlacesAscend(NewCodes(m, seen, row, CODES, currencies))
  {
    hide Effect, CodePlace, NewCodes, CODES;
    assert CODES[..|CODES|] == CODES;
    NewCodesOrdered(m, seen, row, |CODES|, currencies);
  }

  lemma FourCodes()
    ensures forall x :: x in CODES <==> x in {"IRR", "AED", "USD", "USDT"}
  {
  }

  lemma RowMoves(m: Rounding, rows: seq<SheetRow>, row: SheetRow, x: string)
    ensures FirstRow(m, rows + [row], x) ==
      if FirstRow(m, rows, x) < |rows| then FirstRow(m, rows, x)
      else if Effect(m, row, x) != 0.0 then |rows| else |rows| + 1
  {
    assert (rows + [row])[..|rows|] == rows;
  }

  /** Where a code is first moved once there is another row. */
  ghost function FirstAfter(m: Rounding, rows: seq<SheetRow>, row: SheetRow, x: string): nat {
    if FirstRow(m, rows, x) < |rows| then FirstRow(m, rows, x)
    else if Effect(m, row, x) != 0.0 then |rows| else |rows| + 1
  }

  lemma FirstRows(m: Rounding, rows: seq<SheetRow>, row: SheetRow)
    ensures forall x :: FirstRow(m, rows + [row], x) == FirstAfter(m, rows, row, x)
  {
    hide Effect, FirstRow;
    forall x: string
      ensures FirstRow(m, rows + [row], x) == FirstAfter(m, rows, row, x)
    {
      RowMoves(m, rows, row, x);
    }
  }

  lemma CodesGrow(m: Rounding, codes: seq<string>, rows: seq<SheetRow>, row: SheetRow, currencies: map<string, nat>)
    requires AsFirstMoved(m, codes, rows, currencies)
    ensures AsFirstMoved(m, codes + NewCodes(m, codes, row, CODES, currencies), rows + [row], currencies)
  {
    hide Effect, FirstRow, CodePlace, NewCodes, CODES;
    NewCodesAmong(m, codes, row, CODES, currencies);
    FourCodes();
    FirstRows(m, rows, row);
    CodesInOrder(m, codes, rows, row, currencies);
  }

  lemma CodesInOrder(m: Rounding, codes: seq<string>, rows: seq<SheetRow>, row: SheetRow, currencies: map<string, nat>)
    requires AsFirstMoved(m, codes, rows, currencies)
    ensures var all := codes + NewCodes(m, codes, row, CODES, currencies);
      forall i, j :: 0 <= i < j < |all| ==> Sooner(m, rows + [row], all[i], all[j])
  {
    hide Effect, FirstRow, CodePlace, NewCodes, CODES, OnSheet;
    var added := NewCodes(m, codes, row, CODES, currencies);
    NewCodesAmong(m, codes, row, CODES, currencies);
    FourCodes();
    FirstRows(m, rows, row);
    NewInOrder(m, codes, row, currencies);
    NotMovedYet(m, codes, rows, row, currencies);
    forall i, j | 0 <= i < j < |added|
      ensures Sooner(m, rows + [row], added[i], added[j])
    {
      AddedSooner(m, rows, row, added, i, j);
    }
    forall x, y | x in codes
      ensures y in added ==> Sooner(m, rows + [row], x, y)
      ensures y in codes && Sooner(m, rows, x, y) ==> Sooner(m, rows + [row], x, y)
    {
    }
    OrderJoined(m, rows + [row], codes, added);
  }

  lemma AddedSooner(m: Rounding, rows: seq<SheetRow>, row: SheetRow, added: seq<string>, i: nat, j: nat)
    requires PlacesAscend(added) && i < j < |added|
    requires forall x :: x in added ==> Effect(m, row, x) != 0.0 && FirstRow(m, rows, x) == |rows|
    ensures Sooner(m, rows + [row], added[i], added[j])
  {
    hide Effect, FirstRow, CodePlace;
    FirstRows(m, rows, row);
    var x, y := added[i], added[j];
    assert x in added && y in added && CodePlace(x) < CodePlace(y);
  }

  lemma NotMovedYet(m: Rounding, codes: seq<string>, rows: seq<SheetRow>, row: SheetRow, currencies: map<string, nat>)
    requires AsFirstMoved(m, codes, rows, currencies)
    ensures forall x :: x in codes ==> FirstRow(m, rows, x) < |rows|
    ensures forall x :: x in NewCodes(m, codes, row, CODES, currencies) ==> FirstRow(m, rows, x) == |rows|
  {
    hide Effect, FirstRow, NewCodes, CODES;
    NewCodesAmong(m, codes, row, CODES, currencies);
    FourCodes();
  }

  lemma OrderJoined(m: Rounding, rows: seq<SheetRow>, a: seq<string>, b: seq<string>)
    requires forall i, j :: 0 <= i < j < |a| ==> Sooner(m, rows, a[i], a[j])
    requires forall i, j :: 0 <= i < j < |b| ==> Sooner(m, rows, b[i], b[j])
    requires forall x, y :: x in a && y in b ==> Sooner(m, rows, x, y)
    ensures forall i, j :: 0 <= i < j < |a + b| ==> Sooner(m, rows, (a + b)[i], (a + b)[j])
  {
    hide Sooner;
    forall i, j | 0 <= i < j < |a + b|
      ensures Sooner(m, rows, (a + b)[i], (a + b)[j])
    {
      if i < |a| <= j {
        assert a[i] in a && b[j - |a|] in b;
      } else if |a| <= i {
        assert Sooner(m, rows, b[i - |a|], b[j - |a|]);
      }
    }
  }

  lemma SomeMember(s: seq<string>)
    requires s != []
    ensures exists x :: x in s
  {
    assert s[0] in s;
  }

  lemma CodesStay(m: Rounding, codes: seq<string>, rows: seq<SheetRow>, row: SheetRow, currencies: map<string, nat>)
    requires AsFirstMoved(m, codes, rows, currencies) && !Counts(row)
    ensures AsFirstMoved(m, codes, rows + [row], currencies)
  {
    hide Effect, FirstRow;
    NewCodesAmong(m, codes, row, CODES, currencies);
    forall x: string
      ensures Effect(m, row, x) == 0.0
    {
      NoEffect(m, row, x);
    }
    var added := NewCodes(m, codes, row, CODES, currencies);
    if added != [] {
      SomeMember(added);
    }
    CodesGrow(m, codes, rows, row, currencies);
    assert codes + [] == codes;
  }

  /** The loop over the rows. */
  method ProcessRows(m: Rounding, rows: seq<SheetRow>, currencies: map<string, nat>)
    returns (t: Totals, issues: nat)
    ensures TotalsOfSheet(m, t, rows, currencies) && AsFirstMoved(m, t.codes, rows, currencies)
    ensures issues == Issues(rows)
  {
    t, issues := Totals([], map[]), 0;
    for i := 0 to |rows|
      invariant TotalsOfSheet(m, t, rows[..i], currencies) && AsFirstMoved(m, t.codes, rows[..i], currencies)
      invariant issues == Issues(rows[..i])
    {
      hide Mismatch, TotalsOfSheet, AsFirstMoved;
      var row := rows[i];
      assert rows[..i + 1][..i] == rows[..i] && rows[..i] + [row] == rows[..i + 1];
      if Counts(row) {
        t := TakeRow(m, t, rows[..i], row, currencies);
        if Mismatch(row) {
          issues := issues + 1;
        }
        if row.date == Some(false) {
          issues := issues + 1;
        }
      } else {
        RowPassed(m, t, rows[..i], row, currencies);
      }
    }
    assert rows[..|rows|] == rows;
  }

  /** Adds a row that counts to the totals of those before it. */
  method TakeRow(m: Rounding, t: Totals, ghost rows: seq<SheetRow>, row: SheetRow, currencies: map<string, nat>)
    returns (t': Totals)
    requires TotalsOfSheet(m, t, rows, currencies) && AsFirstMoved(m, t.codes, rows, currencies) && Counts(row)
    ensures TotalsOfSheet(m, t', rows + [row], currencies) && AsFirstMoved(m, t'.codes, rows + [row], currencies)
  {
    hide Consistent, Amount, Ctx, TotalsOfSheet, RowAdded, AsFirstMoved, Effect, NewCodes, CODES;
    OneRowMore(m, t, rows, row, currencies);
    CodesGrow(m, t.codes, rows, row, currencies);
    t' := AddRow(m, t, row, currencies);
  }

  lemma RowPassed(m: Rounding, t: Totals, rows: seq<SheetRow>, row: SheetRow, currencies: map<string, nat>)
    requires TotalsOfSheet(m, t, rows, currencies) && AsFirstMoved(m, t.codes, rows, currencies) && !Counts(row)
    ensures TotalsOfSheet(m, t, rows + [row], currencies) && AsFirstMoved(m, t.codes, rows + [row], currencies)
  {
    hide Consistent, Amount, Ctx, TotalsOfSheet, RowAdded, AsFirstMoved, Effect;
    OneRowMore(m, t, rows, row, currencies);
    CodesStay(m, t.codes, rows, row, currencies);
  }

  /** The totals of the sheet. */
  ghost predicate TotalsOfSheet(m: Rounding, t: Totals, rows: seq<SheetRow>, currencies: map<string, nat>) {
    && Consistent(m, t, currencies)
    && forall y :: Amount(t, y) == if y in CODES && y in currencies then ColumnTotal(m, rows, y) else 0.0
  }

  lemma OneRowMore(m: Rounding, t: Totals, rows: seq<SheetRow>, row: SheetRow, currencies: map<string, nat>)
    requires TotalsOfSheet(m, t, rows, currencies)
    ensures Consistent(m, t, currencies)
    ensures !Counts(row) ==> TotalsOfSheet(m, t, rows + [row], currencies)
    ensures forall t' :: Consistent(m, t', currencies) && RowAdded(m, t, t', row, currencies) ==>
      TotalsOfSheet(m, t', rows + [row], currencies)
  {
    hide Ctx, Consistent, Amount, Effect;
    assert (rows + [row])[..|rows|] == rows;
    AmountsInContext(m, t, currencies);
    ZeroInContext(m);
    forall y: string
      ensures ColumnTotal(m, rows + [row], y) == Ctx(m, ColumnTotal(m, rows, y) + Effect(m, row, y))
      ensures !Counts(row) ==> ColumnTotal(m, rows + [row], y) == ColumnTotal(m, rows, y)
    {
      ColumnInContext(m, rows, y);
      NoEffect(m, row, y);
    }
  }

  lemma NoEffect(m: Rounding, row: SheetRow, y: string)
    ensures !Counts(row) ==> Effect(m, row, y) == 0.0
  {
  }

  // ------------------------------------------------------------------ posting the totals

  function OpeningKey(customer: nat, code: string): string {
    "opening:" + Money.Digits(customer) + ":" + code
  }

  function Opening(date: int, customer: nat, code: string, c: nat, amount: real): Order {
    OpeningOrder(date, Registered(customer), c, amount, Some(OpeningKey(customer, code)))
  }

  /** What the last step comes to: done, with the books as they then are and the refusals it reported; or
      aborted by an error it does not catch. */
  datatype Import = Finished(db: Db, issues: nat) | Aborted

  /** The openings of a list of codes, one after the other.  A zero total is passed over, an opening that is
      there already is left alone, and any other refusal by the service is an issue; but an amount that
      the column stores as zero breaks the constraint on entries, and that error nobody catches. */
  function Openings(m: Rounding, db: Db, date: int, customer: nat, codes: seq<string>, amounts: map<string, real>,
                    currencies: map<string, nat>): Import
    requires forall x :: x in codes ==> x in amounts && x in currencies
  {
    if codes == [] then Finished(db, 0)
    else
      var x := codes[|codes| - 1];
      match Openings(m, db, date, customer, codes[..|codes| - 1], amounts, currencies)
      case Aborted => Aborted
      case Finished(db', issues) => NextOpening(m, db', issues, Opening(date, customer, x, currencies[x], amounts[x]))
  }

  function NextOpening(m: Rounding, db: Db, issues: nat, o: Order): Import
    requires o.OpeningOrder?
  {
    if o.amount == 0.0 then Finished(db, issues)
    else
      match PostOrder(m, db, o)
      case Committed(db', _) => Finished(db', issues)
      case Rejected(DuplicateKey(_)) => Finished(db, issues)
      case Rejected(StoredZero) => Aborted
      case Rejected(_) => Finished(db, issues + 1)
  }

  /** The books after the command: it is one transaction, so an error puts everything back. */
  function Imported(m: Rounding, db: Db, date: int, customer: nat, codes: seq<string>, amounts: map<string, real>,
                    currencies: map<string, nat>): Db
    requires forall x :: x in codes ==> x in amounts && x in currencies
  {
    match Openings(m, db, date, customer, codes, amounts, currencies)
    case Finished(db', _) => db'
    case Aborted => db
  }

  /** The command's last step, for a customer that was found or has just been created. */
  method PostOpening(ledger: Services.Ledger, date: int, customer: nat, t: Totals, currencies: map<string, nat>)
    returns (issues: Option<nat>)
    requires forall x :: x in t.codes ==> x in t.amounts && x in currencies
    modifies ledger
    ensures ledger.State() ==
      Imported(ledger.mode, old(ledger.State()), date, customer, t.codes, t.amounts, currencies)
    ensures match Openings(ledger.mode, old(ledger.State()), date, customer, t.codes, t.amounts, currencies)
      case Finished(_, n) => issues == Some(n)
      case Aborted => issues == None
  {
    hide PostOrder, Openings, KeyHolder, Money.Digits, Ctx, VoidVoucher, DeleteVoucher;
    var before := ledger.State();
    var found := 0;
    NoCodes(ledger.mode, before, date, customer, t.codes, t.amounts, currencies);
    for i := 0 to |t.codes|
      invariant Openings(ledger.mode, before, date, customer, t.codes[..i], t.amounts, currencies)
        == Finished(ledger.State(), found)
    {
      var code := t.codes[i];
      assert code in t.codes;
      OneCodeMore(ledger.mode, before, date, customer, t.codes, t.amounts, currencies, i, ledger.State(), found);
      if t.amounts[code] != 0.0 {
        var reply := ledger.Serve(Post(Opening(date, customer, code, currencies[code], t.amounts[code])));
        match reply
        case Done(_) =>
        case Refused(DuplicateKey(_)) =>
        case Refused(StoredZero) =>
          AbortedStays(ledger.mode, before, date, customer, t.codes, t.amounts, currencies, i + 1);
          ledger.Restore(before);
          return None;
        case Refused(_) => found := found + 1;
      }
    }
    assert t.codes[..|t.codes|] == t.codes;
    issues := Some(found);
  }

  lemma NoCodes(m: Rounding, db: Db, date: int, customer: nat, codes: seq<string>, amounts: map<string, real>,
                currencies: map<string, nat>)
    requires forall x :: x in codes ==> x in amounts && x in currencies
    ensures Openings(m, db, date, customer, codes[..0], amounts, currencies) == Finished(db, 0)
  {
  }

  lemma OneCodeMore(m: Rounding, db: Db, date: int, customer: nat, codes: seq<string>, amounts: map<string, real>,
                    currencies: map<string, nat>, i: nat, db': Db, issues: nat)
    requires (forall x :: x in codes ==> x in amounts && x in currencies) && i < |codes|
    requires Openings(m, db, date, customer, codes[..i], amounts, currencies) == Finished(db', issues)
    ensures codes[i] in codes
    ensures Openings(m, db, date, customer, codes[..i + 1], amounts, currencies)
      == NextOpening(m, db', issues, Opening(date, customer, codes[i], currencies[codes[i]], amounts[codes[i]]))
  {
    hide NextOpening, Opening;
    assert codes[..i + 1][..i] == codes[..i];
  }

  lemma {:induction false} AbortedStays(m: Rounding, db: Db, date: int, customer: nat, codes: seq<string>,
                                        amounts: map<string, real>, currencies: map<string, nat>, i: nat)
    requires (forall x :: x in codes ==> x in amounts && x in currencies) && i <= |codes|
    requires Openings(m, db, date, customer, codes[..i], amounts, currencies).Aborted?
    ensures Openings(m, db, date, customer, codes, amounts, currencies).Aborted?
  {
    hide NextOpening;
    if i == |codes| {
      assert codes[..i] == codes;
    } else {
      assert codes[..|codes| - 1][..i] == codes[..i];
      AbortedStays(m, db, date, customer, codes[..|codes| - 1], amounts, currencies, i);
    }
  }

  // ------------------------------------------------------------------ one opening

  /** An amount that is not zero and is stored as zero. */
  predicate Lost(m: Rounding, amount: real) {
    amount != 0.0 && Store(m, amount) == 0.0
  }

  ghost predicate Posted(db: Db, customer: nat, code: string) {
    KeyHolder(db.vouchers, db.nextId, OpeningKey(customer, code)).Some?
  }

  lemma {:induction false} KeyKept(vs: map<nat, Voucher>, n: nat, k: nat, v: Voucher, key: string)
    requires n <= k
    ensures KeyHolder(vs[k := v], n, key) == KeyHolder(vs, n, key)
  {
    if n == 0 {
    } else {
      KeyKept(vs, n - 1, k, v, key);
    }
  }

  lemma ZeroStored(m: Rounding)
    ensures Store(m, 0.0) == 0.0
  {
  }

  /** What the service makes of an opening that is not zero.  An amount of more than 28 digits can be stored as two
      different numbers on its two legs, and is then refused. */
  lemma OpeningOutcome(m: Rounding, db: Db, date: int, customer: nat, code: string, c: nat, amount: real)
    requires amount != 0.0
    ensures var out := PostOrder(m, db, Opening(date, customer, code, c, amount));
      if customer !in db.registry.parties then out == Rejected(UnknownParty)
      else if Posted(db, customer, code) then out.Rejected? && out.error.DuplicateKey?
      else if Store(m, amount) == 0.0 || Store(m, Ctx(m, amount)) == 0.0 then out == Rejected(StoredZero)
      else if Store(m, amount) != Store(m, Ctx(m, amount)) then out == Rejected(StoredUnbalanced)
      else out.Committed?
  {
    hide Store, KeyHolder, EntriesOf, Balanced, StoredBalanced, Ctx;
    var o, key := Opening(date, customer, code, c, amount), OpeningKey(customer, code);
    if customer in db.registry.parties {
      assert Named(o) == {Registered(customer)};
      var lines := Pair(m, Registered(customer), OpeningEquity, c, amount);
      PairBalanced(m, Registered(customer), OpeningEquity, c, amount, date);
      StoreOdd(m, Ctx(m, amount));
      CtxTwice(m, amount);
      var es := EntriesOf(m, lines, date);
      assert es[0] in es && es[1] in es;
      assert forall e :: e in es ==> e == es[0] || e == es[1];
      assert StoredKey(o.key) == Some(key);
    } else {
      assert Registered(customer) in Named(o);
    }
  }

  lemma PostedKeys(m: Rounding, db: Db, o: Order, key: string)
    requires !o.DealOrder? && PostOrder(m, db, o).Committed?
    ensures var db' := PostOrder(m, db, o).db;
      && db'.registry == db.registry
      && (KeyHolder(db'.vouchers, db'.nextId, key).Some? <==>
          KeyHolder(db.vouchers, db.nextId, key).Some? || StoredKey(OrderRequest(m, o).key) == Some(key))
  {
    hide PostError, EntriesOf, OrderError;
    var db' := PostOrder(m, db, o).db;
    KeyKept(db.vouchers, db.nextId, db.nextId, db'.vouchers[db.nextId], key);
  }

  lemma KeysDiffer(customer: nat, x: string, y: string)
    requires OpeningKey(customer, x) == OpeningKey(customer, y)
    ensures x == y
  {
    var prefix := "opening:" + Money.Digits(customer) + ":";
    assert (prefix + x)[|prefix|..] == x;
    assert (prefix + y)[|prefix|..] == y;
  }

  /** The import of a registered customer is aborted exactly when a total that was not posted before is lost to
      rounding; otherwise it reports no issue, and afterwards exactly the openings are there that were
      there before or whose totals are not zero. */
  lemma {:induction false} ImportOutcome(m: Rounding, db: Db, date: int, customer: nat, codes: seq<string>,
                                         amounts: map<string, real>, currencies: map<string, nat>)
    requires forall x :: x in codes ==> x in amounts && x in currencies
    requires customer in db.registry.parties && AllInContext(m, codes, amounts)
    ensures var r := Openings(m, db, date, customer, codes, amounts, currencies);
      && (r.Aborted? <==> exists x :: x in codes && Lost(m, amounts[x]) && !Posted(db, customer, x))
      && (r.Finished? ==>
          && r.issues == 0 && r.db.registry == db.registry
          && forall x :: Posted(r.db, customer, x) <==> Posted(db, customer, x) || (x in codes && amounts[x] != 0.0))
  {
    hide Lost, PostOrder, OpeningKey, InContext;
    if codes == [] {
    } else {
      var init, last := codes[..|codes| - 1], codes[|codes| - 1];
      assert codes == init + [last];
      ImportOutcome(m, db, date, customer, init, amounts, currencies);
      var r := Openings(m, db, date, customer, init, amounts, currencies);
      if r.Finished? {
        OneMoreOpening(m, r.db, r.issues, date, customer, last, currencies[last], amounts[last]);
        ZeroNotLost(m);
      } else {
        var x :| x in init && Lost(m, amounts[x]) && !Posted(db, customer, x);
        assert x in codes;
      }
    }
  }

  /** The totals come out of the loop over the rows, each the result of an operation. */
  ghost predicate AllInContext(m: Rounding, codes: seq<string>, amounts: map<string, real>) {
    forall x :: x in codes ==> x in amounts && InContext(m, amounts[x])
  }

  lemma ZeroNotLost(m: Rounding)
    ensures !Lost(m, 0.0)
  {
  }

  lemma OneMoreOpening(m: Rounding, db: Db, issues: nat, date: int, customer: nat, code: string, c: nat, amount: real)
    requires customer in db.registry.parties && InContext(m, amount)
    ensures var r := NextOpening(m, db, issues, Opening(date, customer, code, c, amount));
      && (r.Aborted? <==> Lost(m, amount) && !Posted(db, customer, code))
      && (r.Finished? ==>
          && r.issues == issues && r.db.registry == db.registry
          && forall x :: Posted(r.db, customer, x) <==> Posted(db, customer, x) || (x == code && amount != 0.0))
  {
    hide PostOrder, Store, KeyHolder, OpeningKey, Ctx;
    if amount != 0.0 {
      var o := Opening(date, customer, code, c, amount);
      OpeningOutcome(m, db, date, customer, code, c, amount);
      KeyNotEmpty(customer, code);
      var r := NextOpening(m, db, issues, o);
      if PostOrder(m, db, o).Committed? {
        forall x
          ensures Posted(r.db, customer, x) <==> Posted(db, customer, x) || x == code
        {
          PostedKeys(m, db, o, OpeningKey(customer, x));
          if OpeningKey(customer, x) == OpeningKey(customer, code) {
            KeysDiffer(customer, x, code);
          }
        }
        PostedKeys(m, db, o, "");
      }
    }
  }

  lemma KeyNotEmpty(customer: nat, code: string)
    ensures OpeningKey(customer, code) != ""
  {
    assert OpeningKey(customer, code)[0] == 'o';
  }

  // ------------------------------------------------------------------ running it again

  lemma {:induction false} NothingLeft(m: Rounding, db: Db, date: int, customer: nat, codes: seq<string>,
                                       amounts: map<string, real>, currencies: map<string, nat>)
    requires customer in db.registry.parties
    requires forall x :: x in codes ==>
      x in amounts && x in currencies && (amounts[x] == 0.0 || Posted(db, customer, x))
    ensures Openings(m, db, date, customer, codes, amounts, currencies) == Finished(db, 0)
  {
    hide PostOrder, Posted;
    if codes == [] {
    } else {
      var last := codes[|codes| - 1];
      NothingLeft(m, db, date, customer, codes[..|codes| - 1], amounts, currencies);
      if amounts[last] != 0.0 {
        OpeningOutcome(m, db, date, customer, last, currencies[last], amounts[last]);
      }
    }
  }

  /** Importing the same sheet again, on whatever day, adds nothing; and what was aborted once is aborted
      again. */
  lemma ImportTwice(m: Rounding, db: Db, date: int, date': int, customer: nat, codes: seq<string>,
                    amounts: map<string, real>, currencies: map<string, nat>)
    requires forall x :: x in codes ==> x in amounts && x in currencies
    requires customer in db.registry.parties && AllInContext(m, codes, amounts)
    ensures var once := Imported(m, db, date, customer, codes, amounts, currencies);
      && Imported(m, once, date', customer, codes, amounts, currencies) == once
      && (Openings(m, once, date', customer, codes, amounts, currencies).Aborted?
          <==> Openings(m, db, date, customer, codes, amounts, currencies).Aborted?)
  {
    hide Posted, Lost, Openings, InContext;
    ImportOutcome(m, db, date, customer, codes, amounts, currencies);
    ImportOutcome(m, db, date', customer, codes, amounts, currencies);
    var r := Openings(m, db, date, customer, codes, amounts, currencies);
    if r.Finished? {
      NothingLeft(m, r.db, date', customer, codes, amounts, currencies);
    }
  }

  // ------------------------------------------------------------------ the first run

  /** One opening moves the customer's balance in its currency by the stored amount, and no other. */
  lemma OpeningMoves(m: Rounding, db: Db, issues: nat, date: int, customer: nat, code: string, c: nat, amount: real,
                     d: nat)
    requires Inv(m, db) && customer in db.registry.parties && !Posted(db, customer, code) && InContext(m, amount)
    ensures var r := NextOpening(m, db, issues, Opening(date, customer, code, c, amount));
      r.Finished? ==>
        && Inv(m, r.db)
        && Total(r.db, OnAccount(Registered(customer), d))
           == Total(db, OnAccount(Registered(customer), d)) + if c == d then Store(m, amount) else 0.0
  {
    hide Inv, Store, PostOrder, Total, Posted, Ctx;
    ZeroStored(m);
    if amount != 0.0 {
      var o := Opening(date, customer, code, c, amount);
      OpeningOutcome(m, db, date, customer, code, c, amount);
      if PostOrder(m, db, o).Committed? {
        OrderKeeps(m, db, o);
        PairMoves(m, db, o, Registered(customer), d);
      }
    }
  }

  ghost predicate Unposted(db: Db, customer: nat, codes: seq<string>) {
    forall x :: x in codes ==> !Posted(db, customer, x)
  }

  lemma {:induction false} FirstRun(m: Rounding, db: Db, date: int, customer: nat, codes: seq<string>,
                                    amounts: map<string, real>, currencies: map<string, nat>, x: string)
    requires forall y :: y in codes ==> y in amounts && y in currencies
    requires forall i, j :: 0 <= i < j < |codes| ==> codes[i] != codes[j]
    requires forall y, z :: y in currencies && z in currencies && currencies[y] == currencies[z] ==> y == z
    requires Inv(m, db) && customer in db.registry.parties && Unposted(db, customer, codes) && x in currencies
    requires AllInContext(m, codes, amounts)
    ensures var r := Openings(m, db, date, customer, codes, amounts, currencies);
      r.Finished? ==>
        && Inv(m, r.db)
        && Total(r.db, OnAccount(Registered(customer), currencies[x]))
           == Total(db, OnAccount(Registered(customer), currencies[x])) + if x in codes then Store(m, amounts[x]) else 0.0
  {
    hide Inv, Store, Total, Posted, Lost, NextOpening, InContext;
    if codes == [] {
    } else {
      var init, last := codes[..|codes| - 1], codes[|codes| - 1];
      assert codes == init + [last] && last !in init;
      FirstRun(m, db, date, customer, init, amounts, currencies, x);
      ImportOutcome(m, db, date, customer, init, amounts, currencies);
      var r := Openings(m, db, date, customer, init, amounts, currencies);
      if r.Finished? {
        OpeningMoves(m, r.db, r.issues, date, customer, last, currencies[last], amounts[last], currencies[x]);
      }
    }
  }

  ghost predicate NothingLost(m: Rounding, rows: seq<SheetRow>, currencies: map<string, nat>) {
    forall x :: OnSheet(currencies, x) ==> !Lost(m, ColumnTotal(m, rows, x))
  }

  ghost predicate AllStoredZero(m: Rounding, rows: seq<SheetRow>, currencies: map<string, nat>) {
    forall x :: OnSheet(currencies, x) ==> Store(m, ColumnTotal(m, rows, x)) == 0.0
  }

  /** A customer without rows, nothing of whom was imported before. */
  ghost predicate Fresh(db: Db, customer: nat, t: Totals, currencies: map<string, nat>) {
    && customer in db.registry.parties && Unposted(db, customer, t.codes)
    && (forall y, z :: y in currencies && z in currencies && currencies[y] == currencies[z] ==> y == z)
    && (forall x :: OnSheet(currencies, x) ==> Total(db, OnAccount(Registered(customer), currencies[x])) == 0.0)
  }

  ghost function BalanceAfter(m: Rounding, db: Db, date: int, customer: nat, t: Totals, currencies: map<string, nat>,
                              x: string): real
    requires Consistent(m, t, currencies) && x in currencies
  {
    Total(Imported(m, db, date, customer, t.codes, t.amounts, currencies), OnAccount(Registered(customer), currencies[x]))
  }

  /** After a first import the customer's balance in every currency of the sheet is its column's debits minus
      credits as stored, if no total is lost to rounding; and nothing at all, in any currency, if one is. */
  lemma BalancesAfterImport(m: Rounding, db: Db, date: int, customer: nat, rows: seq<SheetRow>, t: Totals,
                            currencies: map<string, nat>, x: string)
    requires Inv(m, db) && TotalsOfSheet(m, t, rows, currencies) && Fresh(db, customer, t, currencies)
    requires OnSheet(currencies, x)
    ensures BalanceAfter(m, db, date, customer, t, currencies, x)
      == if NothingLost(m, rows, currencies) then Store(m, ColumnTotal(m, rows, x)) else 0.0
  {
    hide Inv, Store, Total, Openings, Posted, ColumnTotal, InContext;
    ImportOutcome(m, db, date, customer, t.codes, t.amounts, currencies);
    FirstRun(m, db, date, customer, t.codes, t.amounts, currencies, x);
    LostTotals(m, rows, t, currencies);
    assert x in t.codes || ColumnTotal(m, rows, x) == 0.0 by {
      assert Amount(t, x) == ColumnTotal(m, rows, x) by { SheetAmount(m, t, rows, currencies, x); }
    }
    SheetAmount(m, t, rows, currencies, x);
    ZeroStored(m);
  }

  lemma SheetAmount(m: Rounding, t: Totals, rows: seq<SheetRow>, currencies: map<string, nat>, x: string)
    requires TotalsOfSheet(m, t, rows, currencies) && OnSheet(currencies, x)
    ensures Amount(t, x) == ColumnTotal(m, rows, x)
  {
  }

  lemma LostTotals(m: Rounding, rows: seq<SheetRow>, t: Totals, currencies: map<string, nat>)
    requires TotalsOfSheet(m, t, rows, currencies)
    ensures (exists x :: x in t.codes && Lost(m, t.amounts[x])) <==> !NothingLost(m, rows, currencies)
  {
    hide Store, ColumnTotal;
    if exists x :: x in t.codes && Lost(m, t.amounts[x]) {
      var x :| x in t.codes && Lost(m, t.amounts[x]);
      assert Amount(t, x) != 0.0;
      assert OnSheet(currencies, x) && Lost(m, ColumnTotal(m, rows, x));
    }
    if !NothingLost(m, rows, currencies) {
      var x :| OnSheet(currencies, x) && Lost(m, ColumnTotal(m, rows, x));
      assert Amount(t, x) == ColumnTotal(m, rows, x);
      assert x in t.codes && Lost(m, t.amounts[x]);
    }
  }

  /** A first import gives the customer the sheet's totals, as stored, in every currency if and only if no total
      is lost to rounding, or all of them store as zero and there was nothing to give. */
  lemma FirstImport(m: Rounding, db: Db, date: int, customer: nat, rows: seq<SheetRow>, t: Totals,
                    currencies: map<string, nat>)
    requires Inv(m, db) && TotalsOfSheet(m, t, rows, currencies) && Fresh(db, customer, t, currencies)
    ensures (forall x :: OnSheet(currencies, x) ==>
               BalanceAfter(m, db, date, customer, t, currencies, x) == Store(m, ColumnTotal(m, rows, x)))
      <==> NothingLost(m, rows, currencies) || AllStoredZero(m, rows, currencies)
  {
    hide Inv, Store, Fresh, BalanceAfter, ColumnTotal;
    forall x | OnSheet(currencies, x)
      ensures BalanceAfter(m, db, date, customer, t, currencies, x)
        == if NothingLost(m, rows, currencies) then Store(m, ColumnTotal(m, rows, x)) else 0.0
    {
      BalancesAfterImport(m, db, date, customer, rows, t, currencies, x);
    }
  }

  // ------------------------------------------------------------------ a sheet that is not imported

  /** A hundred in base, and in the second currency 0.3 against a cell that a spreadsheet computed as 0.3. */
  const FLOAT_SHEET: seq<SheetRow> := [
    SheetRow(true, true, None, map["IRR" := 100.0, "AED" := 0.3], map["AED" := 0.30000000000000004], None, None, None)
  ]

  /** That sheet posts nothing: the leftover of the float stores as zero, and takes the hundred with it. */
  lemma FloatSheetAborts(m: Rounding, db: Db, date: int, customer: nat, t: Totals, currencies: map<string, nat>)
    requires m != Exact && Inv(m, db) && "IRR" in currencies && "AED" in currencies
    requires TotalsOfSheet(m, t, FLOAT_SHEET, currencies) && Fresh(db, customer, t, currencies)
    ensures ColumnTotal(m, FLOAT_SHEET, "IRR") == 100.0 == Store(m, 100.0)
    ensures Openings(m, db, date, customer, t.codes, t.amounts, currencies).Aborted?
    ensures BalanceAfter(m, db, date, customer, t, currencies, "IRR") == 0.0
  {
    hide Inv, Store, Openings, ColumnTotal, Posted, Total, Amount, Ctx, InContext, Lost, Imported, Fl, BalanceAfter,
      FLOAT_SHEET;
    FloatColumns(m);
    assert OnSheet(currencies, "IRR") && OnSheet(currencies, "AED");
    assert !NothingLost(m, FLOAT_SHEET, currencies);
    LostTotals(m, FLOAT_SHEET, t, currencies);
    ImportOutcome(m, db, date, customer, t.codes, t.amounts, currencies);
    BalancesAfterImport(m, db, date, customer, FLOAT_SHEET, t, currencies, "IRR");
  }

  lemma FloatColumns(m: Rounding)
    requires m != Exact
    ensures ColumnTotal(m, FLOAT_SHEET, "IRR") == 100.0 && Store(m, 100.0) == 100.0
    ensures Lost(m, ColumnTotal(m, FLOAT_SHEET, "AED"))
  {
    hide Fl;
    OneColumn(m, FLOAT_SHEET[0], "IRR");
    OneColumn(m, FLOAT_SHEET[0], "AED");
    assert FLOAT_SHEET == [FLOAT_SHEET[0]];
    Leftover(m);
    assert 100.0 * SCALE == 10000000000.0;
    NearestInt(10000000000);
    CtxGrid(m, 100.0);
  }

  lemma Leftover(m: Rounding)
    requires m != Exact
    ensures Ctx(m, 0.3) == 0.3 && Lost(m, Ctx(m, 0.3 - 0.30000000000000004))
  {
    hide Fl;
    assert 0.3 * SCALE == 30000000.0;
    CtxGrid(m, 0.3);
    FlError(0.00000000000000004);
    var y := Fl(0.00000000000000004);
    assert 0.00000000000000003 < y < 0.00000000000000005;
    assert (-y * SCALE).Floor == -1;
  }

  lemma OneColumn(m: Rounding, row: SheetRow, code: string)
    ensures ColumnTotal(m, [row], code) == Effect(m, row, code)
  {
    hide Ctx;
    assert [row][..0] == [];
    ZeroInContext(m);
    CtxTwice(m, Ctx(m, Cell(row.debit, code)) - Cell(row.credit, code));
  }
}
