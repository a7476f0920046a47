/** The trade reports: buckets per day, running profit, and totals, folded over the deals. */
module Reports {
  import opened Algebra
  import opened Inventory
  import opened Books
  import opened Sums
  import opened Sorting

  // ------------------------------------------------------------------ sums over deals

  function DealSum(ds: seq<Deal>, f: Deal -> real): real {
    if ds == [] then 0.0 else DealSum(ds[..|ds| - 1], f) + f(ds[|ds| - 1])
  }

  /** The weight of the deals with a given key only. */
  function KeyedBy<K(==)>(key: Deal -> K, k: K, f: Deal -> real): Deal -> real {
    (d: Deal) => if key(d) == k then f(d) else 0.0
  }

  function SumOver<K(==)>(ks: seq<K>, ds: seq<Deal>, key: Deal -> K, f: Deal -> real): real {
    if ks == [] then 0.0
    else SumOver(ks[..|ks| - 1], ds, key, f) + DealSum(ds, KeyedBy(key, ks[|ks| - 1], f))
  }

  lemma DealSumLast(ds: seq<Deal>, d: Deal, f: Deal -> real)
    ensures DealSum(ds + [d], f) == DealSum(ds, f) + f(d)
  {
    assert (ds + [d])[..|ds|] == ds;
  }

  lemma {:induction false} DealSumEqual(ds: seq<Deal>, f: Deal -> real, g: Deal -> real)
    requires forall d :: d in ds ==> f(d) == g(d)
    ensures DealSum(ds, f) == DealSum(ds, g)
  {
    if ds == [] {
    } else {
      DealSumEqual(ds[..|ds| - 1], f, g);
    }
  }

  lemma {:induction false} DealSumPlus(ds: seq<Deal>, f: Deal -> real, g: Deal -> real, h: Deal -> real)
    requires forall d :: d in ds ==> h(d) == f(d) + g(d)
    ensures DealSum(ds, h) == DealSum(ds, f) + DealSum(ds, g)
  {
    if ds == [] {
    } else {
      DealSumPlus(ds[..|ds| - 1], f, g, h);
    }
  }

  lemma {:induction false} SumOverLast<K(!new)>(ks: seq<K>, ds: seq<Deal>, d: Deal, key: Deal -> K, f: Deal -> real)
    requires NoRepeats(ks)
    ensures SumOver(ks, ds + [d], key, f) == SumOver(ks, ds, key, f) + if key(d) in ks then f(d) else 0.0
  {
    if ks == [] {
    } else {
      var init, k := ks[..|ks| - 1], ks[|ks| - 1];
      assert ks == init + [k];
      assert key(d) == k ==> key(d) !in init;
      SumOverLast(init, ds, d, key, f);
      DealSumLast(ds, d, KeyedBy(key, k, f));
    }
  }

  /** However deals are put into buckets, the buckets together hold what the deals hold. */
  lemma {:induction false} BucketsPartition<K(!new)>(ks: seq<K>, ds: seq<Deal>, key: Deal -> K, f: Deal -> real)
    requires NoRepeats(ks) && forall d :: d in ds ==> key(d) in ks
    ensures SumOver(ks, ds, key, f) == DealSum(ds, f)
  {
    if ds == [] {
      EmptyBuckets(ks, key, f);
    } else {
      var init, d := ds[..|ds| - 1], ds[|ds| - 1];
      assert ds == init + [d];
      BucketsPartition(ks, init, key, f);
      SumOverLast(ks, init, d, key, f);
    }
  }

  lemma {:induction false} EmptyBuckets<K(!new)>(ks: seq<K>, key: Deal -> K, f: Deal -> real)
    ensures SumOver(ks, [], key, f) == 0.0
  {
    if ks == [] {
    } else {
      EmptyBuckets(ks[..|ks| - 1], key, f);
    }
  }

  // ------------------------------------------------------------------ weights

  function One(): Deal -> real {
    (d: Deal) => 1.0
  }

  /** Counts the deals of one side. */
  function OneOn(side: Side): Deal -> real {
    (d: Deal) => if d.side == side then 1.0 else 0.0
  }

  function QuantityOf(): Deal -> real {
    (d: Deal) => d.quantity
  }

  function TotalOf(): Deal -> real {
    (d: Deal) => d.total
  }

  function BoughtOf(): Deal -> real {
    (d: Deal) => if d.side.Buy? then d.total else 0.0
  }

  function SoldOf(): Deal -> real {
    (d: Deal) => if d.side.Sell? then d.total else 0.0
  }

  /** Profit counts at the sale only. */
  function ProfitOf(): Deal -> real {
    (d: Deal) => if d.side.Sell? then d.realized else 0.0
  }

  function DayOf(): Deal -> int {
    (d: Deal) => d.date
  }

  // ------------------------------------------------------------------ profit per day

  datatype Day = Day(bought: real, buys: nat, sold: real, sells: nat, profit: real)
  datatype DayRow = DayRow(date: int, day: Day, running: real, margin: Option<real>)
  datatype ProfitTotals = ProfitTotals(bought: real, sold: real, profit: real, days: nat, profitDays: nat, lossDays: nat,
                                       margin: Option<real>)

  /** Profit in percent of what was sold; none where nothing was. */
  function Margin(profit: real, sold: real): Option<real> {
    if sold != 0.0 then Some(100.0 * Over(profit, sold)) else None
  }

  /** The margin is the profit in percent of the sales, and is missing exactly where nothing was sold. */
  ghost predicate InPercent(margin: Option<real>, profit: real, sold: real) {
    && (margin.None? <==> sold == 0.0)
    && (margin.Some? ==> Times(margin.value, sold) == Times(100.0, profit))
  }

  lemma MarginSound(profit: real, sold: real)
    ensures InPercent(Margin(profit, sold), profit, sold)
  {
    if sold != 0.0 {
      TimesOver(sold, profit);
      Percent(Over(profit, sold), sold);
    }
  }

  lemma Percent(x: real, sold: real)
    ensures Times(100.0 * x, sold) == Times(100.0, Times(sold, x))
  {
  }

  /** The days among the first `k` that made a profit, or with the sign turned a loss. */
  function GoodDays(ds: seq<Deal>, days: seq<int>, k: nat, sign: real): nat
    requires k <= |days|
  {
    if k == 0 then 0
    else GoodDays(ds, days, k - 1, sign) +
         if sign * DealSum(ds, KeyedBy(DayOf(), days[k - 1], ProfitOf())) > 0.0 then 1 else 0
  }

  /** The bucket of a date holds exactly the deals of that date. */
  ghost predicate Holds(day: Day, ds: seq<Deal>, date: int) {
    && day.bought == DealSum(ds, KeyedBy(DayOf(), date, BoughtOf()))
    && day.sold == DealSum(ds, KeyedBy(DayOf(), date, SoldOf()))
    && day.profit == DealSum(ds, KeyedBy(DayOf(), date, ProfitOf()))
    && day.buys as real == DealSum(ds, KeyedBy(DayOf(), date, OneOn(Buy)))
    && day.sells as real == DealSum(ds, KeyedBy(DayOf(), date, OneOn(Sell)))
  }

  /** The deals up to and including a date. */
  function Through(date: int, f: Deal -> real): Deal -> real {
    (d: Deal) => if d.date <= date then f(d) else 0.0
  }

  function ByDate(): (int, int) -> bool {
    (x: int, y: int) => x <= y
  }

  function SortDays(days: seq<int>): seq<int> {
    Sort(days, ByDate())
  }

  ghost predicate Increasing(days: seq<int>) {
    forall i, j :: 0 <= i < j < |days| ==> days[i] < days[j]
  }

  lemma SortDaysSound(days: seq<int>)
    requires NoRepeats(days)
    ensures Increasing(SortDays(days)) && |SortDays(days)| == |days|
    ensures forall x :: x in SortDays(days) <==> x in days
  {
    hide Sort, Stable;
    SortSound(days, ByDate());
    SortNoRepeats(days, ByDate());
  }

  const EMPTY_DAY := Day(0.0, 0, 0.0, 0, 0.0)

  /** The bucket of a date, set up empty when first asked for. */
  function BucketOf(perDay: map<int, Day>, x: int): Day {
    if x in perDay then perDay[x] else EMPTY_DAY
  }

  ghost predicate Dated(ds: seq<Deal>, x: int) {
    exists d :: d in ds && d.date == x
  }

  ghost predicate Filled(perDay: map<int, Day>, ds: seq<Deal>) {
    && (forall x :: Holds(BucketOf(perDay, x), ds, x))
    && (forall x :: x in perDay <==> Dated(ds, x))
  }

  /** Fills the buckets, one deal at a time; `days` lists their dates in order of first appearance. */
  method FillDays(ds: seq<Deal>) returns (days: seq<int>, perDay: map<int, Day>)
    ensures NoRepeats(days) && Filled(perDay, ds)
    ensures forall x :: x in days <==> x in perDay
  {
    days, perDay := [], map[];
    for i := 0 to |ds|
      invariant NoRepeats(days) && Filled(perDay, ds[..i])
      invariant forall x :: x in days <==> x in perDay
    {
      hide DealSum, Holds, Filled;
      var d := ds[i];
      assert ds[..i + 1] == ds[..i] + [d];
      FillStep(perDay, ds[..i], d);
      if d.date !in perDay {
        days := days + [d.date];
      }
      var day := BucketOf(perDay, d.date);
      if d.side.Buy? {
        day := day.(bought := day.bought + d.total, buys := day.buys + 1);
      } else {
        day := day.(sold := day.sold + d.total, sells := day.sells + 1, profit := day.profit + d.realized);
      }
      perDay := perDay[d.date := day];
    }
    assert ds[..|ds|] == ds;
  }

  function Moved(b: Day, d: Deal): Day {
    if d.side.Buy? then b.(bought := b.bought + d.total, buys := b.buys + 1)
    else b.(sold := b.sold + d.total, sells := b.sells + 1, profit := b.profit + d.realized)
  }

  lemma HoldsLast(b: Day, ds: seq<Deal>, d: Deal, x: int)
    requires Holds(b, ds, x)
    ensures Holds(if x == d.date then Moved(b, d) else b, ds + [d], x)
  {
    hide DealSum;
    DealSumLast(ds, d, KeyedBy(DayOf(), x, BoughtOf()));
    DealSumLast(ds, d, KeyedBy(DayOf(), x, SoldOf()));
    DealSumLast(ds, d, KeyedBy(DayOf(), x, ProfitOf()));
    DealSumLast(ds, d, KeyedBy(DayOf(), x, OneOn(Buy)));
    DealSumLast(ds, d, KeyedBy(DayOf(), x, OneOn(Sell)));
  }

  lemma DatedLast(ds: seq<Deal>, d: Deal, x: int)
    ensures Dated(ds + [d], x) <==> x == d.date || Dated(ds, x)
  {
    if x == d.date {
      assert d in ds + [d];
    } else if Dated(ds, x) {
      var e :| e in ds && e.date == x;
      assert e in ds + [d];
    }
  }

  /** One deal moves the bucket of its date and no other. */
  lemma FillStep(perDay: map<int, Day>, ds: seq<Deal>, d: Deal)
    requires Filled(perDay, ds)
    ensures Filled(perDay[d.date := Moved(BucketOf(perDay, d.date), d)], ds + [d])
  {
    hide Holds, Dated, Moved;
    var perDay' := perDay[d.date := Moved(BucketOf(perDay, d.date), d)];
    forall x: int
      ensures Holds(BucketOf(perDay', x), ds + [d], x)
    {
      assert Holds(BucketOf(perDay, x), ds, x);
      HoldsLast(BucketOf(perDay, x), ds, d, x);
    }
    forall x: int
      ensures x in perDay' <==> Dated(ds + [d], x)
    {
      DatedLast(ds, d, x);
    }
  }

  /** Days in order: nothing is dated between two neighbours, so one more day adds just its own deals. */
  lemma NextDay(ds: seq<Deal>, days: seq<int>, k: nat, f: Deal -> real)
    requires Increasing(days) && (forall d :: d in ds ==> d.date in days) && k < |days|
    ensures DealSum(ds, Through(days[k], f)) ==
      (if k == 0 then 0.0 else DealSum(ds, Through(days[k - 1], f))) + DealSum(ds, KeyedBy(DayOf(), days[k], f))
  {
    if k == 0 {
      forall d | d in ds
        ensures Through(days[0], f)(d) == KeyedBy(DayOf(), days[0], f)(d)
      {
        var i :| 0 <= i < |days| && days[i] == d.date;
      }
      DealSumEqual(ds, Through(days[0], f), KeyedBy(DayOf(), days[0], f));
    } else {
      forall d | d in ds
        ensures Through(days[k], f)(d) == Through(days[k - 1], f)(d) + KeyedBy(DayOf(), days[k], f)(d)
      {
        var i :| 0 <= i < |days| && days[i] == d.date;
        assert i < k - 1 ==> days[i] < days[k - 1];
        assert i > k ==> days[k] < days[i];
      }
      DealSumPlus(ds, Through(days[k - 1], f), KeyedBy(DayOf(), days[k], f), Through(days[k], f));
    }
  }

  lemma AllThrough(ds: seq<Deal>, last: int, f: Deal -> real)
    requires forall d :: d in ds ==> d.date <= last
    ensures DealSum(ds, Through(last, f)) == DealSum(ds, f)
  {
    DealSumEqual(ds, Through(last, f), f);
  }

  lemma LastDay(ds: seq<Deal>, days: seq<int>, f: Deal -> real)
    requires Increasing(days) && forall d :: d in ds ==> d.date in days
    ensures DealSum(ds, f) == if days == [] then 0.0 else DealSum(ds, Through(days[|days| - 1], f))
  {
    assert ds != [] ==> ds[0] in ds;
    if days != [] {
      forall d | d in ds
        ensures d.date <= days[|days| - 1]
      {
        var i :| 0 <= i < |days| && days[i] == d.date;
      }
      AllThrough(ds, days[|days| - 1], f);
    }
  }

  /** A bucket per date, and every date that has deals. */
  ghost predicate Covers(days: seq<int>, perDay: map<int, Day>, ds: seq<Deal>) {
    && Increasing(days)
    && (forall k :: 0 <= k < |days| ==> Holds(BucketOf(perDay, days[k]), ds, days[k]))
    && (forall d :: d in ds ==> d.date in days)
  }

  /** Profit, purchases or sales of the deals up to the k-th day. */
  ghost function UpToDay(ds: seq<Deal>, days: seq<int>, k: nat, f: Deal -> real): real
    requires k <= |days|
  {
    if k == 0 then 0.0 else DealSum(ds, Through(days[k - 1], f))
  }

  lemma MoreDays(ds: seq<Deal>, days: seq<int>, perDay: map<int, Day>, k: nat)
    requires Covers(days, perDay, ds) && k < |days|
    ensures var day := BucketOf(perDay, days[k]);
      && UpToDay(ds, days, k + 1, ProfitOf()) == UpToDay(ds, days, k, ProfitOf()) + day.profit
      && UpToDay(ds, days, k + 1, BoughtOf()) == UpToDay(ds, days, k, BoughtOf()) + day.bought
      && UpToDay(ds, days, k + 1, SoldOf()) == UpToDay(ds, days, k, SoldOf()) + day.sold
  {
    hide DealSum, Increasing;
    assert Holds(BucketOf(perDay, days[k]), ds, days[k]);
    NextDay(ds, days, k, ProfitOf());
    NextDay(ds, days, k, BoughtOf());
    NextDay(ds, days, k, SoldOf());
  }

  ghost predicate RowOf(row: DayRow, ds: seq<Deal>, date: int) {
    && row.date == date && Holds(row.day, ds, date)
    && row.running == DealSum(ds, Through(date, ProfitOf()))
    && InPercent(row.margin, row.day.profit, row.day.sold)
  }

  /** The loops over the sorted buckets: running profit, margins, totals and the good and bad days. */
  method RunningProfit(ghost ds: seq<Deal>, days: seq<int>, perDay: map<int, Day>)
    returns (rows: seq<DayRow>, totals: ProfitTotals)
    requires Covers(days, perDay, ds)
    ensures |rows| == |days| && forall k :: 0 <= k < |rows| ==> RowOf(rows[k], ds, days[k])
    ensures totals.bought == UpToDay(ds, days, |days|, BoughtOf())
    ensures totals.sold == UpToDay(ds, days, |days|, SoldOf())
    ensures totals.profit == UpToDay(ds, days, |days|, ProfitOf())
    ensures totals.days == |days| && InPercent(totals.margin, totals.profit, totals.sold)
    ensures totals.profitDays == GoodDays(ds, days, |days|, 1.0) && totals.lossDays == GoodDays(ds, days, |days|, -1.0)
  {
    rows, totals := [], ProfitTotals(0.0, 0.0, 0.0, |days|, 0, 0, None);
    for i := 0 to |days|
      invariant |rows| == i && totals.days == |days|
      invariant totals.bought == UpToDay(ds, days, i, BoughtOf())
      invariant totals.sold == UpToDay(ds, days, i, SoldOf())
      invariant totals.profit == UpToDay(ds, days, i, ProfitOf())
      invariant totals.profitDays == GoodDays(ds, days, i, 1.0) && totals.lossDays == GoodDays(ds, days, i, -1.0)
      invariant forall k :: 0 <= k < i ==> RowOf(rows[k], ds, days[k])
    {
      hide DealSum, Increasing, UpToDay, InPercent;
      MoreDays(ds, days, perDay, i);
      assert Holds(BucketOf(perDay, days[i]), ds, days[i]);
      var day := BucketOf(perDay, days[i]);
      totals := totals.(bought := totals.bought + day.bought, sold := totals.sold + day.sold,
                        profit := totals.profit + day.profit,
                        profitDays := totals.profitDays + if day.profit > 0.0 then 1 else 0,
                        lossDays := totals.lossDays + if day.profit < 0.0 then 1 else 0);
      UpToNow(ds, days, i + 1);
      MarginSound(day.profit, day.sold);
      rows := rows + [DayRow(days[i], day, totals.profit, Margin(day.profit, day.sold))];
    }
    MarginSound(totals.profit, totals.sold);
    totals := totals.(margin := Margin(totals.profit, totals.sold));
  }

  lemma UpToNow(ds: seq<Deal>, days: seq<int>, k: nat)
    requires 0 < k <= |days|
    ensures UpToDay(ds, days, k, ProfitOf()) == DealSum(ds, Through(days[k - 1], ProfitOf()))
  {
  }

  lemma SortedCover(ds: seq<Deal>, seen: seq<int>, perDay: map<int, Day>)
    requires NoRepeats(seen) && Filled(perDay, ds) && forall x :: x in seen <==> x in perDay
    ensures Covers(SortDays(seen), perDay, ds)
    ensures forall k :: 0 <= k < |SortDays(seen)| ==> Dated(ds, SortDays(seen)[k])
  {
    hide DealSum, SortDays, Holds;
    SortDaysSound(seen);
    forall d | d in ds
      ensures d.date in SortDays(seen)
    {
      assert Dated(ds, d.date);
    }
    forall k | 0 <= k < |SortDays(seen)|
      ensures Dated(ds, SortDays(seen)[k])
    {
      var x := SortDays(seen)[k];
      assert x in SortDays(seen);
    }
  }

  /** The report: one row per date that has deals, in date order, holding that date's figures; the
      running profit of a row is the profit of every deal up to its date; the totals are those of all
      the deals, and the last running profit is the period's profit. */
  method DailyProfit(ds: seq<Deal>) returns (rows: seq<DayRow>, totals: ProfitTotals)
    ensures forall i, j :: 0 <= i < j < |rows| ==> rows[i].date < rows[j].date
    ensures forall d :: d in ds ==> exists i :: 0 <= i < |rows| && rows[i].date == d.date
    ensures forall i :: 0 <= i < |rows| ==> Dated(ds, rows[i].date) && RowOf(rows[i], ds, rows[i].date)
    ensures totals.bought == DealSum(ds, BoughtOf()) && totals.sold == DealSum(ds, SoldOf())
    ensures totals.profit == DealSum(ds, ProfitOf()) && InPercent(totals.margin, totals.profit, totals.sold)
    ensures totals.days == |rows|
    ensures totals.profitDays == RowsWith(rows, |rows|, 1.0) && totals.lossDays == RowsWith(rows, |rows|, -1.0)
    ensures rows != [] ==> rows[|rows| - 1].running == totals.profit
  {
    hide DealSum, Holds, SortDays, Dated, Filled;
    var seen, perDay := FillDays(ds);
    var days := SortDays(seen);
    SortedCover(ds, seen, perDay);
    rows, totals := RunningProfit(ds, days, perDay);
    LastDay(ds, days, ProfitOf());
    LastDay(ds, days, BoughtOf());
    LastDay(ds, days, SoldOf());
    forall d | d in ds
      ensures exists i :: 0 <= i < |rows| && rows[i].date == d.date
    {
      var i :| 0 <= i < |days| && days[i] == d.date;
      assert RowOf(rows[i], ds, days[i]);
    }
    assert forall i :: 0 <= i < |rows| ==> RowOf(rows[i], ds, days[i]);
    GoodRows(rows, ds, days, |rows|, 1.0);
    GoodRows(rows, ds, days, |rows|, -1.0);
  }

  /** How many of the first `k` rows show a profit, or with the sign turned a loss. */
  function RowsWith(rows: seq<DayRow>, k: nat, sign: real): nat
    requires k <= |rows|
  {
    if k == 0 then 0
    else RowsWith(rows, k - 1, sign) + if sign * rows[k - 1].day.profit > 0.0 then 1 else 0
  }

  lemma {:induction false} GoodRows(rows: seq<DayRow>, ds: seq<Deal>, days: seq<int>, k: nat, sign: real)
    requires k <= |rows| == |days| && forall i :: 0 <= i < |rows| ==> RowOf(rows[i], ds, days[i])
    ensures RowsWith(rows, k, sign) == GoodDays(ds, days, k, sign)
  {
    hide DealSum;
    if k == 0 {
    } else {
      GoodRows(rows, ds, days, k - 1, sign);
      assert RowOf(rows[k - 1], ds, days[k - 1]);
    }
  }

  // ------------------------------------------------------------------ which deals are reported

  /** The deals of every voucher that is not a draft, in order of their vouchers. */
  function DealsOf(vs: map<nat, Voucher>, n: nat): seq<Deal> {
    if n == 0 then []
    else DealsOf(vs, n - 1) + Reported(vs, n - 1)
  }

  /** Voided deals are reported; only drafts are not. */
  function Reported(vs: map<nat, Voucher>, id: nat): seq<Deal> {
    if id in vs && vs[id].status != Draft && vs[id].deal.Some? then [vs[id].deal.value] else []
  }

  function DealWeight(vs: map<nat, Voucher>, f: Deal -> real): nat -> real {
    (id: nat) => if id in vs && vs[id].status != Draft && vs[id].deal.Some? then f(vs[id].deal.value) else 0.0
  }

  lemma {:induction false} DealsByVoucher(vs: map<nat, Voucher>, n: nat, f: Deal -> real)
    ensures DealSum(DealsOf(vs, n), f) == Sum(n, DealWeight(vs, f))
  {
    hide DealSum, Reported, DealWeight;
    if n == 0 {
      NoDealsSum(f);
    } else {
      DealsByVoucher(vs, n - 1, f);
      OneVoucher(DealsOf(vs, n - 1), vs, n - 1, f);
    }
  }

  lemma NoDealsSum(f: Deal -> real)
    ensures DealSum([], f) == 0.0
  {
  }

  lemma OneVoucher(ds: seq<Deal>, vs: map<nat, Voucher>, id: nat, f: Deal -> real)
    ensures DealSum(ds + Reported(vs, id), f) == DealSum(ds, f) + DealWeight(vs, f)(id)
  {
    if Reported(vs, id) == [] {
      assert ds + [] == ds;
    } else {
      DealSumLast(ds, vs[id].deal.value, f);
    }
  }

  lemma {:induction false} DealsAreReported(vs: map<nat, Voucher>, n: nat, d: Deal)
    ensures d in DealsOf(vs, n) <==>
      exists id: nat :: id < n && id in vs && vs[id].status != Draft && vs[id].deal == Some(d)
  {
    if n == 0 {
    } else {
      DealsAreReported(vs, n - 1, d);
      assert d in Reported(vs, n - 1) <==>
        n - 1 in vs && vs[n - 1].status != Draft && vs[n - 1].deal == Some(d);
    }
  }

  /** The deals are reported in the order of their vouchers, each of them once. */
  lemma {:induction false} DealsOrdered(vs: map<nat, Voucher>, n: nat) returns (ids: seq<nat>)
    ensures |ids| == |DealsOf(vs, n)|
    ensures forall i :: 0 <= i < |ids| ==> ids[i] < n && ids[i] in vs && vs[ids[i]].deal == Some(DealsOf(vs, n)[i])
    ensures forall i, j :: 0 <= i < j < |ids| ==> ids[i] < ids[j]
  {
    ids := [];
    if n > 0 {
      ids := DealsOrdered(vs, n - 1);
      if Reported(vs, n - 1) != [] {
        ids := ids + [n - 1];
      }
    }
  }

  /** The filter of the queries: a period, and possibly one side and one currency. */
  predicate Asked(from: int, to: int, side: Option<Side>, currency: Option<nat>, d: Deal) {
    && from <= d.date <= to
    && (side.Some? ==> d.side == side.value)
    && (currency.Some? ==> d.currency == currency.value)
  }

  function Select(ds: seq<Deal>, from: int, to: int, side: Option<Side>, currency: Option<nat>): seq<Deal> {
    if ds == [] then []
    else
      var d := ds[|ds| - 1];
      Select(ds[..|ds| - 1], from, to, side, currency) + if Asked(from, to, side, currency, d) then [d] else []
  }

  function AskedWeight(from: int, to: int, side: Option<Side>, currency: Option<nat>, f: Deal -> real): Deal -> real {
    (d: Deal) => if Asked(from, to, side, currency, d) then f(d) else 0.0
  }

  lemma {:induction false} SelectSum(ds: seq<Deal>, from: int, to: int, side: Option<Side>, currency: Option<nat>,
                                     f: Deal -> real)
    ensures DealSum(Select(ds, from, to, side, currency), f) == DealSum(ds, AskedWeight(from, to, side, currency, f))
  {
    if ds == [] {
    } else {
      var d := ds[|ds| - 1];
      var init := Select(ds[..|ds| - 1], from, to, side, currency);
      SelectSum(ds[..|ds| - 1], from, to, side, currency, f);
      DealSumLast(init, d, f);
      assert init + [] == init;
    }
  }

  /** Exactly the deals of the period are asked for, of the side and in the currency if they are given. */
  lemma SelectFinds(ds: seq<Deal>, from: int, to: int, side: Option<Side>, currency: Option<nat>)
    ensures forall d :: d in Select(ds, from, to, side, currency) <==>
      d in ds && from <= d.date && d.date <= to
      && (side.None? || side.value == d.side) && (currency.None? || currency.value == d.currency)
  {
    SelectMembers(ds, from, to, side, currency);
  }

  /** The figure of the report on one currency. */
  function InOne(ds: seq<Deal>, from: int, to: int, side: Option<Side>, f: Deal -> real): nat -> real {
    (c: nat) => DealSum(Select(ds, from, to, side, Some(c)), f)
  }

  /** The reports on the single currencies add up to the one on all, and those on the two sides to the one on both. */
  lemma FiltersPartition(ds: seq<Deal>, from: int, to: int, side: Option<Side>, currency: Option<nat>, n: nat,
                         f: Deal -> real)
    requires forall d :: d in ds ==> d.currency < n
    ensures Sum(n, InOne(ds, from, to, side, f)) == DealSum(Select(ds, from, to, side, None), f)
    ensures DealSum(Select(ds, from, to, Some(Buy), currency), f) + DealSum(Select(ds, from, to, Some(Sell), currency), f)
      == DealSum(Select(ds, from, to, None, currency), f)
  {
    hide DealSum, Select;
    var w := AskedWeight(from, to, side, None, f);
    forall c: nat
      ensures InOne(ds, from, to, side, f)(c) == SplitTerm(ds, w)(c)
    {
      SelectSum(ds, from, to, side, Some(c), f);
      DealSumEqual(ds, AskedWeight(from, to, side, Some(c), f), KeyedBy(CurrencyOf(), c, w));
    }
    SumEqual(n, InOne(ds, from, to, side, f), SplitTerm(ds, w));
    CurrencySplit(n, ds, w);
    SelectSum(ds, from, to, side, None, f);
    SelectSum(ds, from, to, Some(Buy), currency, f);
    SelectSum(ds, from, to, Some(Sell), currency, f);
    SelectSum(ds, from, to, None, currency, f);
    DealSumPlus(ds, AskedWeight(from, to, Some(Buy), currency, f), AskedWeight(from, to, Some(Sell), currency, f),
                AskedWeight(from, to, None, currency, f));
  }

  /** Adjacent periods add up, for every figure the reports show. */
  lemma AdjacentRanges(ds: seq<Deal>, from: int, mid: int, to: int, side: Option<Side>, currency: Option<nat>,
                       f: Deal -> real)
    requires from <= mid + 1 && mid <= to
    ensures DealSum(Select(ds, from, to, side, currency), f) ==
      DealSum(Select(ds, from, mid, side, currency), f) + DealSum(Select(ds, mid + 1, to, side, currency), f)
  {
    SelectSum(ds, from, to, side, currency, f);
    SelectSum(ds, from, mid, side, currency, f);
    SelectSum(ds, mid + 1, to, side, currency, f);
    DealSumPlus(ds, AskedWeight(from, mid, side, currency, f), AskedWeight(mid + 1, to, side, currency, f),
                AskedWeight(from, to, side, currency, f));
  }

  /** Profit is made by sales alone, so a report over the sales shows the profit of all the deals. */
  lemma SalesCarryProfit(ds: seq<Deal>, from: int, to: int, currency: Option<nat>)
    ensures DealSum(Select(ds, from, to, Some(Sell), currency), ProfitOf())
      == DealSum(Select(ds, from, to, None, currency), ProfitOf())
  {
    SelectSum(ds, from, to, Some(Sell), currency, ProfitOf());
    SelectSum(ds, from, to, None, currency, ProfitOf());
    DealSumEqual(ds, AskedWeight(from, to, Some(Sell), currency, ProfitOf()),
                 AskedWeight(from, to, None, currency, ProfitOf()));
  }

  // ------------------------------------------------------------------ trades per day, currency and side

  datatype Key = Key(date: int, currency: nat, side: Side)
  datatype Bucket = Bucket(quantity: real, total: real, count: nat)
  datatype TradeRow = TradeRow(key: Key, bucket: Bucket, avgPrice: real)
  datatype TradeTotals = TradeTotals(bought: real, sold: real, count: nat)

  function KeyOf(): Deal -> Key {
    (d: Deal) => Key(d.date, d.currency, d.side)
  }

  const EMPTY_BUCKET := Bucket(0.0, 0.0, 0)

  function TradesAt(buckets: map<Key, Bucket>, k: Key): Bucket {
    if k in buckets then buckets[k] else EMPTY_BUCKET
  }

  ghost predicate Gathers(b: Bucket, ds: seq<Deal>, k: Key) {
    && b.quantity == DealSum(ds, KeyedBy(KeyOf(), k, QuantityOf()))
    && b.total == DealSum(ds, KeyedBy(KeyOf(), k, TotalOf()))
    && b.count as real == DealSum(ds, KeyedBy(KeyOf(), k, One()))
  }

  lemma GathersLast(b: Bucket, ds: seq<Deal>, d: Deal, k: Key)
    requires Gathers(b, ds, k)
    ensures Gathers(if k == KeyOf()(d) then Bucket(b.quantity + d.quantity, b.total + d.total, b.count + 1) else b,
                    ds + [d], k)
  {
    hide DealSum;
    DealSumLast(ds, d, KeyedBy(KeyOf(), k, QuantityOf()));
    DealSumLast(ds, d, KeyedBy(KeyOf(), k, TotalOf()));
    DealSumLast(ds, d, KeyedBy(KeyOf(), k, One()));
  }

  ghost predicate KeysOf(keys: seq<Key>, ds: seq<Deal>) {
    && NoRepeats(keys)
    && (forall d :: d in ds ==> KeyOf()(d) in keys)
    && (forall k :: k in keys ==> exists d :: d in ds && KeyOf()(d) == k)
  }

  /** The keys in order of first appearance. */
  function FirstSeen(ds: seq<Deal>): seq<Key> {
    if ds == [] then []
    else
      var before, k := FirstSeen(ds[..|ds| - 1]), KeyOf()(ds[|ds| - 1]);
      if k in before then before else before + [k]
  }

  lemma {:induction false} FirstSeenSound(ds: seq<Deal>)
    ensures KeysOf(FirstSeen(ds), ds)
  {
    if ds == [] {
    } else {
      var init, d := ds[..|ds| - 1], ds[|ds| - 1];
      assert ds == init + [d];
      FirstSeenSound(init);
      var before, after := FirstSeen(init), FirstSeen(ds);
      assert forall k :: k in after <==> k in before || k == KeyOf()(d);
      assert d in ds;
    }
  }

  /** There is a deal under key `x` up to which there is none under `y`. */
  ghost predicate SeenBefore(ds: seq<Deal>, x: Key, y: Key) {
    exists a :: 0 <= a < |ds| && KeyOf()(ds[a]) == x && NoneUpTo(ds, a, y)
  }

  ghost predicate NoneUpTo(ds: seq<Deal>, a: int, y: Key) {
    forall b :: 0 <= b <= a < |ds| ==> KeyOf()(ds[b]) != y
  }

  /** Keys are listed as they are first seen. */
  lemma {:induction false} FirstSeenOrder(ds: seq<Deal>, i: nat, j: nat)
    requires i < j < |FirstSeen(ds)|
    ensures SeenBefore(ds, FirstSeen(ds)[i], FirstSeen(ds)[j])
  {
    var init, d := ds[..|ds| - 1], ds[|ds| - 1];
    var before := FirstSeen(init);
    FirstSeenSound(init);
    assert before[i] in before;
    if j < |before| {
      FirstSeenOrder(init, i, j);
      var a :| 0 <= a < |init| && KeyOf()(init[a]) == before[i] && NoneUpTo(init, a, before[j]);
      assert ds[a] == init[a] && NoneUpTo(ds, a, before[j]);
    } else {
      var e :| e in init && KeyOf()(e) == before[i];
      var a :| 0 <= a < |init| && init[a] == e;
      assert ds[a] == e;
      forall b | 0 <= b <= a
        ensures KeyOf()(ds[b]) != FirstSeen(ds)[j]
      {
        assert ds[b] == init[b] && init[b] in init;
      }
      assert NoneUpTo(ds, a, FirstSeen(ds)[j]);
    }
  }

  /** Rows go by date, then by the sort order of the currency, then purchases before sales. */
  function ByDay(order: nat -> int): (Key, Key) -> bool {
    (x: Key, y: Key) =>
      x.date < y.date ||
      (x.date == y.date && (order(x.currency) < order(y.currency) ||
                            (order(x.currency) == order(y.currency) && (x.side.Buy? || !y.side.Buy?))))
  }

  /** The later row has no earlier date, on one date no smaller sort order, and with one sort order it is not the
      purchase where the earlier row is the sale. */
  ghost predicate InDayOrder(keys: seq<Key>, order: nat -> int) {
    forall i, j :: 0 <= i < j < |keys| ==>
      var x, y := keys[i], keys[j];
      && x.date <= y.date
      && (x.date == y.date ==> order(x.currency) <= order(y.currency))
      && (x.date == y.date && order(x.currency) == order(y.currency) ==> !(x.side == Sell && y.side == Buy))
  }

  /** Keys of one date, sort order and side stand in order of first appearance. */
  ghost predicate TiesAsSeen(seen: seq<Key>, keys: seq<Key>, order: nat -> int) {
    forall i, j :: 0 <= i < j < |seen| && Tied(seen[i], seen[j], order) ==> Precedes(keys, seen[i], seen[j])
  }

  predicate Tied(x: Key, y: Key, order: nat -> int) {
    x.date == y.date && order(x.currency) == order(y.currency) && x.side == y.side
  }

  /** The rows of the daily report stand in that order, and where it decides nothing in order of first
      appearance; each key has one row. */
  lemma KeysInOrder(ds: seq<Deal>, order: nat -> int)
    ensures var keys := Sort(FirstSeen(ds), ByDay(order));
      && KeysOf(keys, ds) && Sorted(keys, ByDay(order)) && Stable(FirstSeen(ds), keys, ByDay(order))
      && InDayOrder(keys, order) && TiesAsSeen(FirstSeen(ds), keys, order)
  {
    DayOrderMeans(Sort(FirstSeen(ds), ByDay(order)), FirstSeen(ds), order);
    hide Sort, Stable, Sorted, ByDay, InDayOrder, TiesAsSeen;
    DayIsPreorder(order);
    FirstSeenSound(ds);
    SortSound(FirstSeen(ds), ByDay(order));
    SortNoRepeats(FirstSeen(ds), ByDay(order));
  }

  lemma DayOrderMeans(keys: seq<Key>, seen: seq<Key>, order: nat -> int)
    ensures Sorted(keys, ByDay(order)) ==> InDayOrder(keys, order)
    ensures Stable(seen, keys, ByDay(order)) ==> TiesAsSeen(seen, keys, order)
  {
  }

  lemma DayIsPreorder(order: nat -> int)
    ensures Preorder(ByDay(order))
  {
  }

  ghost predicate Gathered(buckets: map<Key, Bucket>, ds: seq<Deal>) {
    forall k :: Gathers(TradesAt(buckets, k), ds, k)
  }

  /** The buckets of the daily report. */
  method FillTrades(ds: seq<Deal>) returns (keys: seq<Key>, buckets: map<Key, Bucket>)
    ensures keys == FirstSeen(ds) && Gathered(buckets, ds)
    ensures forall k :: k in keys <==> k in buckets
  {
    keys, buckets := [], map[];
    for i := 0 to |ds|
      invariant keys == FirstSeen(ds[..i]) && Gathered(buckets, ds[..i])
      invariant forall k :: k in keys <==> k in buckets
    {
      hide DealSum, Gathers;
      var d := ds[i];
      var key := Key(d.date, d.currency, d.side);
      assert ds[..i + 1] == ds[..i] + [d] && KeyOf()(d) == key;
      ghost var before := buckets;
      var b := TradesAt(buckets, key);
      if key !in buckets {
        keys := keys + [key];
      }
      buckets := buckets[key := Bucket(b.quantity + d.quantity, b.total + d.total, b.count + 1)];
      forall k: Key
        ensures Gathers(TradesAt(buckets, k), ds[..i + 1], k)
      {
        assert Gathers(TradesAt(before, k), ds[..i], k);
        GathersLast(TradesAt(before, k), ds[..i], d, k);
      }
    }
    assert ds[..|ds|] == ds;
  }

  function RowSum(rows: seq<TradeRow>, f: TradeRow -> real): real {
    if rows == [] then 0.0 else RowSum(rows[..|rows| - 1], f) + f(rows[|rows| - 1])
  }

  function RowQuantity(): TradeRow -> real {
    (r: TradeRow) => r.bucket.quantity
  }

  function RowCount(): TradeRow -> real {
    (r: TradeRow) => r.bucket.count as real
  }

  function RowTotalOn(side: Side): TradeRow -> real {
    (r: TradeRow) => if r.key.side == side then r.bucket.total else 0.0
  }

  function TotalOn(side: Side): Deal -> real {
    (d: Deal) => if d.side == side then d.total else 0.0
  }

  ghost predicate Shows(r: TradeRow, ds: seq<Deal>) {
    && Gathers(r.bucket, ds, r.key)
    && r.avgPrice == if r.bucket.quantity != 0.0 then Over(r.bucket.total, r.bucket.quantity) else 0.0
  }

  /** If every row holds its key's share of a figure, the rows together hold all of it. */
  lemma {:induction false} RowsPartition(rows: seq<TradeRow>, keys: seq<Key>, ds: seq<Deal>,
                                         f: Deal -> real, g: TradeRow -> real)
    requires |rows| == |keys|
    requires forall i :: 0 <= i < |rows| ==> g(rows[i]) == DealSum(ds, KeyedBy(KeyOf(), keys[i], f))
    ensures RowSum(rows, g) == SumOver(keys, ds, KeyOf(), f)
  {
    if rows == [] {
    } else {
      RowsPartition(rows[..|rows| - 1], keys[..|keys| - 1], ds, f, g);
    }
  }

  lemma SideShare(r: TradeRow, ds: seq<Deal>, side: Side)
    requires Shows(r, ds)
    ensures RowTotalOn(side)(r) == DealSum(ds, KeyedBy(KeyOf(), r.key, TotalOn(side)))
  {
    var f, g := KeyedBy(KeyOf(), r.key, TotalOf()), KeyedBy(KeyOf(), r.key, TotalOn(side));
    if r.key.side == side {
      DealSumEqual(ds, f, g);
    } else {
      DealSumZero(ds, g);
    }
  }

  lemma {:induction false} DealSumZero(ds: seq<Deal>, f: Deal -> real)
    requires forall d :: d in ds ==> f(d) == 0.0
    ensures DealSum(ds, f) == 0.0
  {
    if ds == [] {
    } else {
      DealSumZero(ds[..|ds| - 1], f);
    }
  }

  function KeysOfRows(rows: seq<TradeRow>): (keys: seq<Key>)
    ensures |keys| == |rows| && forall i :: 0 <= i < |rows| ==> keys[i] == rows[i].key
  {
    seq(|rows|, i requires 0 <= i < |rows| => rows[i].key)
  }

  /** The daily report: one row per date, currency and side that occurs, in order; the totals are computed
      apart from the rows, straight from the deals. */
  method DailyData(ds: seq<Deal>, order: nat -> int) returns (rows: seq<TradeRow>, totals: TradeTotals)
    ensures KeysOf(KeysOfRows(rows), ds) && InDayOrder(KeysOfRows(rows), order)
    ensures TiesAsSeen(FirstSeen(ds), KeysOfRows(rows), order)
    ensures forall i :: 0 <= i < |rows| ==> Shows(rows[i], ds)
    ensures totals == TradeTotals(DealSum(ds, TotalOn(Buy)), DealSum(ds, TotalOn(Sell)), |ds|)
  {
    hide Sort, FirstSeen, ByDay, InDayOrder, TiesAsSeen;
    var keys, buckets := FillTrades(ds);
    var sorted := Sort(keys, ByDay(order));
    KeysInOrder(ds, order);
    FirstSeenSound(ds);
    rows := [];
    for i := 0 to |sorted|
      invariant |rows| == i
      invariant forall j :: 0 <= j < i ==> rows[j].key == sorted[j] && Shows(rows[j], ds)
    {
      hide DealSum, Gathers;
      var k := sorted[i];
      assert Gathers(TradesAt(buckets, k), ds, k);
      assert k in sorted;
      var b := buckets[k];
      rows := rows + [TradeRow(k, b, if b.quantity != 0.0 then Over(b.total, b.quantity) else 0.0)];
    }
    assert KeysOfRows(rows) == sorted;
    totals := TradeTotals(DealSum(ds, TotalOn(Buy)), DealSum(ds, TotalOn(Sell)), |ds|);
  }

  /** Rows and flat totals agree: purchases, sales, and the number of deals. */
  lemma RowsMatchTotals(ds: seq<Deal>, rows: seq<TradeRow>)
    requires KeysOf(KeysOfRows(rows), ds)
    requires forall i :: 0 <= i < |rows| ==> Shows(rows[i], ds)
    ensures RowSum(rows, RowTotalOn(Buy)) == DealSum(ds, TotalOn(Buy))
    ensures RowSum(rows, RowTotalOn(Sell)) == DealSum(ds, TotalOn(Sell))
    ensures RowSum(rows, RowQuantity()) == DealSum(ds, QuantityOf())
    ensures RowSum(rows, RowCount()) == |ds| as real
  {
    hide DealSum, RowSum, SumOver;
    var keys := KeysOfRows(rows);
    forall i | 0 <= i < |rows|
      ensures RowTotalOn(Buy)(rows[i]) == DealSum(ds, KeyedBy(KeyOf(), rows[i].key, TotalOn(Buy)))
      ensures RowTotalOn(Sell)(rows[i]) == DealSum(ds, KeyedBy(KeyOf(), rows[i].key, TotalOn(Sell)))
    {
      SideShare(rows[i], ds, Buy);
      SideShare(rows[i], ds, Sell);
    }
    RowsPartition(rows, keys, ds, TotalOn(Buy), RowTotalOn(Buy));
    RowsPartition(rows, keys, ds, TotalOn(Sell), RowTotalOn(Sell));
    RowsPartition(rows, keys, ds, QuantityOf(), RowQuantity());
    RowsPartition(rows, keys, ds, One(), RowCount());
    BucketsPartition(keys, ds, KeyOf(), TotalOn(Buy));
    BucketsPartition(keys, ds, KeyOf(), TotalOn(Sell));
    BucketsPartition(keys, ds, KeyOf(), QuantityOf());
    BucketsPartition(keys, ds, KeyOf(), One());
    DealCount(ds);
  }

  lemma {:induction false} DealCount(ds: seq<Deal>)
    ensures DealSum(ds, One()) == |ds| as real
  {
    if ds == [] {
    } else {
      DealCount(ds[..|ds| - 1]);
    }
  }

  // ------------------------------------------------------------------ the profit report

  function CurrencyOf(): Deal -> nat {
    (d: Deal) => d.currency
  }

  datatype ProfitRow = ProfitRow(currency: nat, soldQuantity: real, turnover: real, deals: real, realized: real,
                                 stock: real, avgCost: real, rate: Option<real>, unrealized: Option<real>)

  /** Whether the report has a row for a currency: it sold something, or holds stock or is short. */
  predicate Covered(sales: seq<Deal>, positions: map<nat, Position>, wanted: Option<nat>, c: nat) {
    (exists d :: d in sales && d.currency == c) || Held(positions, wanted, c)
  }

  predicate Held(positions: map<nat, Position>, wanted: Option<nat>, c: nat) {
    c in positions && positions[c].quantity != 0.0 && (wanted.Some? ==> c == wanted.value)
  }

  function RateAt(rates: map<nat, real>, c: nat): Option<real> {
    if c in rates then Some(rates[c]) else None
  }

  function ProfitRowOf(sales: seq<Deal>, positions: map<nat, Position>, rates: map<nat, real>, wanted: Option<nat>,
                       c: nat): ProfitRow {
    var held := if Held(positions, wanted, c) then positions[c] else EMPTY;
    ProfitRow(c, DealSum(sales, KeyedBy(CurrencyOf(), c, QuantityOf())),
              DealSum(sales, KeyedBy(CurrencyOf(), c, TotalOf())),
              DealSum(sales, KeyedBy(CurrencyOf(), c, One())),
              DealSum(sales, KeyedBy(CurrencyOf(), c, ProfitOf())),
              held.quantity, held.avgCost, RateAt(rates, c),
              if Held(positions, wanted, c) && c in rates
              then Some(Times(rates[c] - held.avgCost, held.quantity)) else None)
  }

  /** The deals of one currency, in their order. */
  function Own(ds: seq<Deal>, c: nat): seq<Deal> {
    if ds == [] then []
    else Own(ds[..|ds| - 1], c) + if ds[|ds| - 1].currency == c then [ds[|ds| - 1]] else []
  }

  lemma {:induction false} OwnSum(ds: seq<Deal>, c: nat, f: Deal -> real)
    ensures DealSum(Own(ds, c), f) == DealSum(ds, KeyedBy(CurrencyOf(), c, f))
  {
    if ds != [] {
      OwnSum(ds[..|ds| - 1], c, f);
      DealSumLast(Own(ds[..|ds| - 1], c), ds[|ds| - 1], f);
      assert Own(ds[..|ds| - 1], c) + [] == Own(ds[..|ds| - 1], c);
    }
  }

  /** What a row must show: of the currency's own sales their quantities, totals, number and profits, and of its stock
      what is held, at what average and rate, and what it would gain at that rate. */
  ghost predicate ShowsSales(r: ProfitRow, sales: seq<Deal>, positions: map<nat, Position>, rates: map<nat, real>,
                             wanted: Option<nat>) {
    var own, c := Own(sales, r.currency), r.currency;
    var held := c in positions && positions[c].quantity != 0.0 && (wanted.None? || wanted.value == c);
    && r.soldQuantity == DealSum(own, (d: Deal) => d.quantity)
    && r.turnover == DealSum(own, (d: Deal) => d.total)
    && r.deals == |own| as real
    && r.realized == DealSum(own, (d: Deal) => if d.side == Sell then d.realized else 0.0)
    && r.stock == (if held then positions[c].quantity else 0.0)
    && r.avgCost == (if held then positions[c].avgCost else 0.0)
    && r.rate == (if c in rates then Some(rates[c]) else None)
    && (held && c in rates ==>
          r.unrealized == Some(Times(rates[c], positions[c].quantity) - Times(positions[c].avgCost, positions[c].quantity)))
    && (!held || c !in rates ==> r.unrealized == None)
  }

  lemma ProfitRowShows(sales: seq<Deal>, positions: map<nat, Position>, rates: map<nat, real>, wanted: Option<nat>,
                       c: nat)
    ensures ShowsSales(ProfitRowOf(sales, positions, rates, wanted, c), sales, positions, rates, wanted)
  {
    hide DealSum, Times;
    var own := Own(sales, c);
    OwnSum(sales, c, QuantityOf());
    OwnSum(sales, c, TotalOf());
    OwnSum(sales, c, One());
    OwnSum(sales, c, ProfitOf());
    DealCount(own);
    DealSumEqual(own, QuantityOf(), (d: Deal) => d.quantity);
    DealSumEqual(own, TotalOf(), (d: Deal) => d.total);
    DealSumEqual(own, ProfitOf(), (d: Deal) => if d.side == Sell then d.realized else 0.0);
    if c in positions && c in rates {
      TimesSum(positions[c].quantity, rates[c] - positions[c].avgCost, positions[c].avgCost, rates[c]);
    }
  }

  /** What the stock of one currency would gain if sold at today's rate. */
  function UnrealizedTerm(positions: map<nat, Position>, rates: map<nat, real>, wanted: Option<nat>): nat -> real {
    (c: nat) => if Held(positions, wanted, c) && c in rates
                then Times(rates[c] - positions[c].avgCost, positions[c].quantity) else 0.0
  }

  function RealizedTerm(sales: seq<Deal>): nat -> real {
    (c: nat) => DealSum(sales, KeyedBy(CurrencyOf(), c, ProfitOf()))
  }

  lemma {:induction false} SumLast(n: nat, ds: seq<Deal>, d: Deal, f: Deal -> real)
    ensures Sum(n, SplitTerm(ds + [d], f)) == Sum(n, SplitTerm(ds, f)) + if d.currency < n then f(d) else 0.0
  {
    if n == 0 {
    } else {
      SumLast(n - 1, ds, d, f);
      DealSumLast(ds, d, KeyedBy(CurrencyOf(), n - 1, f));
    }
  }

  function SplitTerm(ds: seq<Deal>, f: Deal -> real): nat -> real {
    (c: nat) => DealSum(ds, KeyedBy(CurrencyOf(), c, f))
  }

  /** Splitting by currency loses nothing. */
  lemma {:induction false} CurrencySplit(n: nat, ds: seq<Deal>, f: Deal -> real)
    requires forall d :: d in ds ==> d.currency < n
    ensures Sum(n, SplitTerm(ds, f)) == DealSum(ds, f)
  {
    if ds == [] {
      SumZero(n, SplitTerm(ds, f));
    } else {
      var init, d := ds[..|ds| - 1], ds[|ds| - 1];
      assert ds == init + [d];
      CurrencySplit(n, init, f);
      SumLast(n, init, d, f);
    }
  }

  lemma NotSold(sales: seq<Deal>, positions: map<nat, Position>, wanted: Option<nat>, c: nat)
    requires !Covered(sales, positions, wanted, c)
    ensures RealizedTerm(sales)(c) == 0.0
  {
    DealSumZero(sales, KeyedBy(CurrencyOf(), c, ProfitOf()));
  }

  datatype ProfitReport = ProfitReport(rows: seq<ProfitRow>, realized: real, unrealized: real, missing: seq<nat>)

  function ByOrder(order: nat -> int): (ProfitRow, ProfitRow) -> bool {
    (x: ProfitRow, y: ProfitRow) => order(x.currency) <= order(y.currency)
  }

  /** The currencies with stock and no rate, in the order of the rows. */
  function Unpriced(rows: seq<ProfitRow>): seq<nat> {
    if rows == [] then []
    else
      var row := rows[|rows| - 1];
      Unpriced(rows[..|rows| - 1]) + if row.stock != 0.0 && row.rate.None? then [row.currency] else []
  }

  lemma {:induction false} UnpricedRows(rows: seq<ProfitRow>, c: nat)
    ensures c in Unpriced(rows) <==> exists r :: r in rows && r.currency == c && r.stock != 0.0 && r.rate.None?
  {
    if rows == [] {
    } else {
      UnpricedRows(rows[..|rows| - 1], c);
      assert rows == rows[..|rows| - 1] + [rows[|rows| - 1]];
    }
  }

  /** One row for each covered currency. */
  ghost predicate RowsOfCovered(rows: seq<ProfitRow>, sales: seq<Deal>, positions: map<nat, Position>,
                                rates: map<nat, real>, wanted: Option<nat>, n: nat) {
    && NoRepeats(rows)
    && forall r :: r in rows <==>
         r.currency < n && Covered(sales, positions, wanted, r.currency)
         && r == ProfitRowOf(sales, positions, rates, wanted, r.currency)
  }

  function ProfitRowSum(rows: seq<ProfitRow>, f: ProfitRow -> real): real {
    if rows == [] then 0.0 else ProfitRowSum(rows[..|rows| - 1], f) + f(rows[|rows| - 1])
  }

  /** The rows stand by sort order, and each currency that sold something or is held has one. */
  ghost predicate ListsCovered(rows: seq<ProfitRow>, sales: seq<Deal>, positions: map<nat, Position>,
                               rates: map<nat, real>, wanted: Option<nat>, order: nat -> int) {
    && (forall i, j :: 0 <= i < j < |rows| ==>
          rows[i].currency != rows[j].currency && order(rows[i].currency) <= order(rows[j].currency))
    && (forall r :: r in rows ==> ShowsSales(r, sales, positions, rates, wanted))
    && (forall c: nat :: (exists r :: r in rows && r.currency == c) <==>
          Own(sales, c) != [] || (c in positions && positions[c].quantity != 0.0 && (wanted.None? || wanted.value == c)))
  }

  /** The profit report over the sales of a period and the stock of today: one row per covered currency, in
      sort order, and totals over the rows.  Currencies are numbered below `n`. */
  method ProfitData(sales: seq<Deal>, positions: map<nat, Position>, rates: map<nat, real>, wanted: Option<nat>,
                    order: nat -> int, n: nat)
    returns (report: ProfitReport)
    requires forall d :: d in sales ==> d.currency < n
    requires forall c :: c in positions ==> c < n
    ensures RowsOfCovered(report.rows, sales, positions, rates, wanted, n) && Sorted(report.rows, ByOrder(order))
    ensures ListsCovered(report.rows, sales, positions, rates, wanted, order)
    ensures report.realized == DealSum(sales, ProfitOf())
    ensures report.unrealized == Sum(n, UnrealizedTerm(positions, rates, wanted))
    ensures report.missing == Unpriced(report.rows)
    ensures forall c: nat :: c in report.missing <==> Held(positions, wanted, c) && c !in rates
  {
    var rows: seq<ProfitRow>, realized, unrealized := [], 0.0, 0.0;
    for c := 0 to n
      invariant RowsOfCovered(rows, sales, positions, rates, wanted, c)
      invariant realized == Sum(c, RealizedTerm(sales))
      invariant unrealized == Sum(c, UnrealizedTerm(positions, rates, wanted))
    {
      hide DealSum, Times, RowsOfCovered, Covered, Sort;
      OneMoreRow(rows, sales, positions, rates, wanted, c);
      if Covered(sales, positions, wanted, c) {
        var row := ProfitRowOf(sales, positions, rates, wanted, c);
        realized := realized + row.realized;
        unrealized := unrealized + if row.unrealized.Some? then row.unrealized.value else 0.0;
        rows := rows + [row];
      } else {
        NotSold(sales, positions, wanted, c);
      }
    }
    hide DealSum, RowsOfCovered, Sort, Sorted, Held, ListsCovered;
    SumEqual(n, RealizedTerm(sales), SplitTerm(sales, ProfitOf()));
    CurrencySplit(n, sales, ProfitOf());
    var sorted := Sort(rows, ByOrder(order));
    RowsSorted(rows, sales, positions, rates, wanted, order, n);
    CoveredListed(sorted, sales, positions, rates, wanted, order, n);
    report := ProfitReport(sorted, realized, unrealized, Unpriced(sorted));
  }

  lemma OneMoreRow(rows: seq<ProfitRow>, sales: seq<Deal>, positions: map<nat, Position>, rates: map<nat, real>,
                   wanted: Option<nat>, c: nat)
    requires RowsOfCovered(rows, sales, positions, rates, wanted, c)
    ensures RowsOfCovered(if Covered(sales, positions, wanted, c)
                          then rows + [ProfitRowOf(sales, positions, rates, wanted, c)] else rows,
                          sales, positions, rates, wanted, c + 1)
    ensures !Covered(sales, positions, wanted, c) ==> !Held(positions, wanted, c)
  {
    hide DealSum, Times, Held;
  }

  lemma RowsSorted(rows: seq<ProfitRow>, sales: seq<Deal>, positions: map<nat, Position>, rates: map<nat, real>,
                   wanted: Option<nat>, order: nat -> int, n: nat)
    requires RowsOfCovered(rows, sales, positions, rates, wanted, n) && forall c :: c in positions ==> c < n
    ensures var sorted := Sort(rows, ByOrder(order));
      && RowsOfCovered(sorted, sales, positions, rates, wanted, n) && Sorted(sorted, ByOrder(order))
      && forall c: nat :: c in Unpriced(sorted) <==> Held(positions, wanted, c) && c !in rates
  {
    hide Sort, Stable, Sorted, DealSum, Times, Unpriced, ByOrder;
    OrderIsPreorder(order);
    SortSound(rows, ByOrder(order));
    SortNoRepeats(rows, ByOrder(order));
    var sorted := Sort(rows, ByOrder(order));
    forall c: nat
      ensures c in Unpriced(sorted) <==> Held(positions, wanted, c) && c !in rates
    {
      UnpricedRows(sorted, c);
      var row := ProfitRowOf(sales, positions, rates, wanted, c);
      assert c < n && Covered(sales, positions, wanted, c) ==> row in sorted;
    }
  }

  lemma OwnNone(sales: seq<Deal>, c: nat)
    ensures Own(sales, c) != [] <==> exists d :: d in sales && d.currency == c
  {
    if sales != [] {
      OwnNone(sales[..|sales| - 1], c);
      assert sales == sales[..|sales| - 1] + [sales[|sales| - 1]];
    }
  }

  lemma CoveredListed(rows: seq<ProfitRow>, sales: seq<Deal>, positions: map<nat, Position>, rates: map<nat, real>,
                      wanted: Option<nat>, order: nat -> int, n: nat)
    requires RowsOfCovered(rows, sales, positions, rates, wanted, n) && Sorted(rows, ByOrder(order))
    requires forall d :: d in sales ==> d.currency < n
    requires forall c :: c in positions ==> c < n
    ensures ListsCovered(rows, sales, positions, rates, wanted, order)
  {
    hide DealSum, Times, ShowsSales, Own;
    forall i, j | 0 <= i < j < |rows|
      ensures rows[i].currency != rows[j].currency && order(rows[i].currency) <= order(rows[j].currency)
    {
      assert rows[i] in rows && rows[j] in rows;
      assert ByOrder(order)(rows[i], rows[j]);
    }
    forall r | r in rows
      ensures ShowsSales(r, sales, positions, rates, wanted)
    {
      ProfitRowShows(sales, positions, rates, wanted, r.currency);
    }
    forall c: nat
      ensures (exists r :: r in rows && r.currency == c) <==>
        Own(sales, c) != [] || (c in positions && positions[c].quantity != 0.0 && (wanted.None? || wanted.value == c))
    {
      OwnNone(sales, c);
      var row := ProfitRowOf(sales, positions, rates, wanted, c);
      assert row.currency == c;
      assert c < n && Covered(sales, positions, wanted, c) ==> row in rows;
    }
  }

  lemma OrderIsPreorder(order: nat -> int)
    ensures Preorder(ByOrder(order))
  {
  }

  /** Rows of different currencies add up to the sum over the currencies, if those without a row have nothing. */
  lemma {:induction false} RowsByCurrency(rows: seq<ProfitRow>, g: ProfitRow -> real, n: nat, t: nat -> real)
    requires forall i, j :: 0 <= i < j < |rows| ==> rows[i].currency != rows[j].currency
    requires forall r :: r in rows ==> r.currency < n && g(r) == t(r.currency)
    requires forall c: nat :: c < n && t(c) != 0.0 ==> exists r :: r in rows && r.currency == c
    ensures ProfitRowSum(rows, g) == Sum(n, t)
  {
    if rows == [] {
      SumZero(n, t);
    } else {
      var init, last := rows[..|rows| - 1], rows[|rows| - 1];
      assert rows == init + [last] && last in rows;
      var k := last.currency;
      var t': nat -> real := (c: nat) => if c == k then 0.0 else t(c);
      forall r | r in init
        ensures r in rows && r.currency != k
      {
        var i :| 0 <= i < |init| && init[i] == r;
        assert rows[i] == r;
      }
      RowsByCurrency(init, g, n, t');
      SumUpdate(n, t, t', k);
    }
  }

  /** The rows of the profit report add up: quantities sold, turnovers, numbers of deals and profits to those of all
      the sales, and what the stock would gain to the total shown. */
  lemma ProfitRowsAddUp(rows: seq<ProfitRow>, sales: seq<Deal>, positions: map<nat, Position>, rates: map<nat, real>,
                        wanted: Option<nat>, order: nat -> int, n: nat)
    requires ListsCovered(rows, sales, positions, rates, wanted, order)
    requires forall d :: d in sales ==> d.currency < n
    requires forall c :: c in positions ==> c < n
    ensures ProfitRowSum(rows, (r: ProfitRow) => r.soldQuantity) == DealSum(sales, (d: Deal) => d.quantity)
    ensures ProfitRowSum(rows, (r: ProfitRow) => r.turnover) == DealSum(sales, (d: Deal) => d.total)
    ensures ProfitRowSum(rows, (r: ProfitRow) => r.deals) == |sales| as real
    ensures ProfitRowSum(rows, (r: ProfitRow) => r.realized) == DealSum(sales, ProfitOf())
    ensures ProfitRowSum(rows, (r: ProfitRow) => if r.unrealized.Some? then r.unrealized.value else 0.0)
      == Sum(n, UnrealizedTerm(positions, rates, wanted))
  {
    hide DealSum, Times, ProfitRowSum, Own;
    var quantity: Deal -> real, total: Deal -> real := (d: Deal) => d.quantity, (d: Deal) => d.total;
    Parts(rows, sales, positions, rates, wanted, order, n, (r: ProfitRow) => r.soldQuantity, quantity);
    Parts(rows, sales, positions, rates, wanted, order, n, (r: ProfitRow) => r.turnover, total);
    forall r | r in rows
      ensures r.deals == DealSum(Own(sales, r.currency), One())
      ensures r.realized == DealSum(Own(sales, r.currency), ProfitOf())
      ensures r.unrealized == if UnrealizedTerm(positions, rates, wanted)(r.currency) == 0.0 && r.unrealized.None? then None
                              else Some(UnrealizedTerm(positions, rates, wanted)(r.currency))
    {
      DealCount(Own(sales, r.currency));
      DealSumEqual(Own(sales, r.currency), ProfitOf(), (d: Deal) => if d.side == Sell then d.realized else 0.0);
      if r.currency in positions && r.currency in rates {
        var p, rate := positions[r.currency], rates[r.currency];
        TimesSum(p.quantity, rate - p.avgCost, p.avgCost, rate);
      }
    }
    Parts(rows, sales, positions, rates, wanted, order, n, (r: ProfitRow) => r.deals, One());
    Parts(rows, sales, positions, rates, wanted, order, n, (r: ProfitRow) => r.realized, ProfitOf());
    DealCount(sales);
    CurrenciesBelow(rows, sales, positions, rates, wanted, order, n);
    RowsByCurrency(rows, (r: ProfitRow) => if r.unrealized.Some? then r.unrealized.value else 0.0, n,
                   UnrealizedTerm(positions, rates, wanted));
  }

  lemma CurrenciesBelow(rows: seq<ProfitRow>, sales: seq<Deal>, positions: map<nat, Position>, rates: map<nat, real>,
                        wanted: Option<nat>, order: nat -> int, n: nat)
    requires ListsCovered(rows, sales, positions, rates, wanted, order)
    requires forall d :: d in sales ==> d.currency < n
    requires forall c :: c in positions ==> c < n
    ensures forall r :: r in rows ==> r.currency < n
  {
    hide DealSum, Own, ShowsSales;
    forall r | r in rows
      ensures r.currency < n
    {
      OwnNone(sales, r.currency);
    }
  }

  lemma Parts(rows: seq<ProfitRow>, sales: seq<Deal>, positions: map<nat, Position>, rates: map<nat, real>,
              wanted: Option<nat>, order: nat -> int, n: nat, g: ProfitRow -> real, f: Deal -> real)
    requires ListsCovered(rows, sales, positions, rates, wanted, order)
    requires forall d :: d in sales ==> d.currency < n
    requires forall c :: c in positions ==> c < n
    requires forall r :: r in rows ==> g(r) == DealSum(Own(sales, r.currency), f)
    ensures ProfitRowSum(rows, g) == DealSum(sales, f)
  {
    hide DealSum, Own, ShowsSales, ProfitRowSum;
    var t := SplitTerm(sales, f);
    CurrenciesBelow(rows, sales, positions, rates, wanted, order, n);
    forall c: nat
      ensures t(c) == DealSum(Own(sales, c), f)
      ensures t(c) != 0.0 ==> Own(sales, c) != []
    {
      OwnSum(sales, c, f);
      NoDealsSum(f);
    }
    RowsByCurrency(rows, g, n, t);
    CurrencySplit(n, sales, f);
  }

  /** The daily profit report and the profit report, computed apart, show the same profit for the same
      period and currency. */
  method ProfitReportsAgree(ds: seq<Deal>, from: int, to: int, wanted: Option<nat>, positions: map<nat, Position>,
                            rates: map<nat, real>, order: nat -> int, n: nat)
    returns (daily: ProfitTotals, report: ProfitReport)
    requires forall d :: d in ds ==> d.currency < n
    requires forall c :: c in positions ==> c < n
    ensures daily.profit == report.realized
  {
    var rows;
    rows, daily := DailyProfit(Select(ds, from, to, None, wanted));
    SelectMembers(ds, from, to, Some(Sell), wanted);
    report := ProfitData(Select(ds, from, to, Some(Sell), wanted), positions, rates, wanted, order, n);
    SalesCarryProfit(ds, from, to, wanted);
  }

  lemma {:induction false} SelectMembers(ds: seq<Deal>, from: int, to: int, side: Option<Side>, currency: Option<nat>)
    ensures forall d :: d in Select(ds, from, to, side, currency) <==> d in ds && Asked(from, to, side, currency, d)
  {
    if ds == [] {
    } else {
      SelectMembers(ds[..|ds| - 1], from, to, side, currency);
    }
  }
}
