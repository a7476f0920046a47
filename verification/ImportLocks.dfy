/** The spreadsheet import beside the service calls: one transaction that posts several openings, and
    so inserts further external keys while it already holds the voucher counter. */
module ImportLocks {
  import opened Books
  import opened Runs
  import opened Transactions
  import opened ImportSheet

  /** A transaction by the locks it takes: rows first, then the first external key, the counter, and
      the keys of the later openings. */
  datatype Job = Job(rows: seq<Resource>, keys: seq<string>)

  function LockList(j: Job): seq<Resource> {
    if j.keys == [] then j.rows
    else j.rows + [KeyRow(j.keys[0]), CounterRow] + Later(j.keys[1..])
  }

  function Later(keys: seq<string>): (r: seq<Resource>)
    ensures |r| == |keys| && forall i :: 0 <= i < |keys| ==> r[i] == KeyRow(keys[i])
  {
    if keys == [] then [] else [KeyRow(keys[0])] + Later(keys[1..])
  }

  ghost predicate NoRepeats(keys: seq<string>) {
    forall i, j :: 0 <= i < j < |keys| ==> keys[i] != keys[j]
  }

  /** Rows are taken in the order of `Before`; who posts more than once locks no other rows. */
  ghost predicate Proper(j: Job) {
    && (forall i, k :: 0 <= i < k < |j.rows| ==> Before(j.rows[i], j.rows[k]))
    && (forall r :: r in j.rows ==> !r.KeyRow? && (r.CounterRow? ==> j.keys == []))
    && (|j.keys| > 1 ==> j.rows == [])
    && NoRepeats(j.keys)
  }

  function CallJob(db: Db, op: Op): Job {
    if op.Post? && StoredKey(op.order.key).Some?
    then Job(if op.order.DealOrder? then [InventoryRow(op.order.currency)] else [], [StoredKey(op.order.key).value])
    else Job(Plan(db, op), [])
  }

  /** Every service call is such a transaction. */
  lemma CallsAreJobs(db: Db, op: Op)
    ensures Proper(CallJob(db, op)) && LockList(CallJob(db, op)) == Plan(db, op)
  {
    hide Before;
    forall i, k | 0 <= i < k < |Plan(db, op)|
      ensures Before(Plan(db, op)[i], Plan(db, op)[k])
    {
      PlanAscends(db, op, i, k);
    }
  }

  /** The import of a customer that posts openings for `codes`, in that order. */
  function ImportJob(customer: nat, codes: seq<string>): Job {
    Job([], OpeningKeys(customer, codes))
  }

  function OpeningKeys(customer: nat, codes: seq<string>): (r: seq<string>)
    ensures |r| == |codes| && forall i :: 0 <= i < |codes| ==> r[i] == OpeningKey(customer, codes[i])
  {
    if codes == [] then [] else [OpeningKey(customer, codes[0])] + OpeningKeys(customer, codes[1..])
  }

  // ------------------------------------------------------------------ the jobs side by side

  /** Take the next lock if it is free, or end, by commit or by abort, and give all of them back. */
  datatype Move = Take(t: nat) | End(t: nat)

  /** How many of its locks each job holds. */
  type Standing = seq<nat>

  ghost predicate Fits(pool: seq<Job>, n: Standing) {
    |n| == |pool| && forall t :: 0 <= t < |pool| ==> n[t] <= |LockList(pool[t])|
  }

  ghost predicate Asks(pool: seq<Job>, n: Standing, t: nat)
    requires Fits(pool, n)
  {
    t < |pool| && n[t] < |LockList(pool[t])|
  }

  ghost function NextLock(pool: seq<Job>, n: Standing, t: nat): Resource
    requires Fits(pool, n) && Asks(pool, n, t)
  {
    LockList(pool[t])[n[t]]
  }

  ghost predicate Has(pool: seq<Job>, n: Standing, t: nat, r: Resource)
    requires Fits(pool, n)
  {
    t < |pool| && r in LockList(pool[t])[..n[t]]
  }

  ghost predicate CanTake(pool: seq<Job>, n: Standing, t: nat)
    requires Fits(pool, n)
  {
    Asks(pool, n, t) && forall u :: !Has(pool, n, u, NextLock(pool, n, t))
  }

  ghost function AfterMove(pool: seq<Job>, n: Standing, a: Move): (r: Standing)
    requires Fits(pool, n)
    ensures Fits(pool, r)
  {
    match a
    case Take(t) => if CanTake(pool, n, t) then n[t := n[t] + 1] else n
    case End(t) => if t < |pool| then n[t := 0] else n
  }

  function Idle(k: nat): Standing {
    seq(k, _ => 0)
  }

  ghost function After(pool: seq<Job>, moves: seq<Move>): (r: Standing)
    ensures Fits(pool, r)
  {
    if moves == [] then Idle(|pool|) else AfterMove(pool, After(pool, moves[..|moves| - 1]), moves[|moves| - 1])
  }

  ghost predicate Waits(pool: seq<Job>, n: Standing, t: nat, u: nat)
    requires Fits(pool, n)
  {
    Asks(pool, n, t) && Has(pool, n, u, NextLock(pool, n, t))
  }

  /** A circle of jobs each waiting for a lock the next one holds. */
  ghost predicate Circle(pool: seq<Job>, n: Standing, ts: seq<nat>)
    requires Fits(pool, n)
  {
    && |ts| > 1 && ts[0] == ts[|ts| - 1]
    && forall i :: 0 <= i < |ts| - 1 ==> Waits(pool, n, ts[i], ts[i + 1])
  }

  ghost predicate CanDeadlock(pool: seq<Job>) {
    exists moves, ts :: Circle(pool, After(pool, moves), ts)
  }

  /** The first key of `a` is a later key of `b`. */
  ghost predicate Clash(a: Job, b: Job) {
    a.keys != [] && b.keys != [] && a.keys[0] in b.keys[1..]
  }

  ghost predicate ProperPool(pool: seq<Job>) {
    forall t :: 0 <= t < |pool| ==> Proper(pool[t])
  }

  // ------------------------------------------------------------------ one holder a lock

  ghost predicate OneHolder(pool: seq<Job>, n: Standing)
    requires Fits(pool, n)
  {
    forall t, u, r :: Has(pool, n, t, r) && Has(pool, n, u, r) ==> t == u
  }

  lemma {:induction false} AlwaysOneHolder(pool: seq<Job>, moves: seq<Move>)
    ensures OneHolder(pool, After(pool, moves))
  {
    hide LockList;
    if moves != [] {
      var init, a := moves[..|moves| - 1], moves[|moves| - 1];
      AlwaysOneHolder(pool, init);
      var n := After(pool, init);
      match a
      case Take(t) =>
        if CanTake(pool, n, t) {
          var list := LockList(pool[t]);
          assert list[..n[t] + 1] == list[..n[t]] + [list[n[t]]];
          var n' := n[t := n[t] + 1];
          forall u: nat, r | Has(pool, n', u, r)
            ensures Has(pool, n, u, r) || (u == t && r == NextLock(pool, n, t))
          {
            if u != t {
              assert n'[u] == n[u];
            }
          }
        }
      case End(t) =>
        if t < |pool| {
          var n' := n[t := 0];
          forall u: nat, r | Has(pool, n', u, r)
            ensures Has(pool, n, u, r)
          {
            if u != t {
              assert n'[u] == n[u];
            }
          }
        }
    }
  }

  // ------------------------------------------------------------------ no circle without a clash

  lemma ListAt(j: Job, k: nat)
    requires k < |LockList(j)|
    ensures k < |j.rows| ==> LockList(j)[k] == j.rows[k]
    ensures k >= |j.rows| ==> j.keys != []
    ensures k == |j.rows| ==> LockList(j)[k] == KeyRow(j.keys[0])
    ensures k == |j.rows| + 1 ==> LockList(j)[k] == CounterRow
    ensures k > |j.rows| + 1 ==> k - |j.rows| <= |j.keys| && LockList(j)[k] == KeyRow(j.keys[k - |j.rows| - 1])
  {
  }

  lemma NoLockTwice(j: Job, i: nat, k: nat)
    requires Proper(j) && i < k < |LockList(j)|
    ensures LockList(j)[i] != LockList(j)[k]
  {
    hide LockList, Before;
    ListAt(j, i);
    ListAt(j, k);
    if i < |j.rows| {
      assert j.rows[i] in j.rows;
      if k < |j.rows| {
        assert Before(j.rows[i], j.rows[k]);
        NeverBeforeItself(j.rows[k]);
      }
    } else if i > |j.rows| + 1 {
      assert j.keys[i - |j.rows| - 1] != j.keys[k - |j.rows| - 1];
    } else if i == |j.rows| && k > i + 1 {
      assert j.keys[0] != j.keys[k - |j.rows| - 1];
    }
  }

  lemma CounterFirst(j: Job, k: nat)
    requires |j.rows| + 1 < k <= |LockList(j)|
    ensures CounterRow in LockList(j)[..k]
  {
    hide LockList;
    ListAt(j, |j.rows| + 1);
    assert LockList(j)[..k][|j.rows| + 1] == CounterRow;
  }

  /** Up to the counter the locks ascend. */
  lemma Climbs(j: Job, i: nat, k: nat)
    requires Proper(j) && i < k < |LockList(j)|
    ensures CounterRow in LockList(j)[..k] || Before(LockList(j)[i], LockList(j)[k])
  {
    hide LockList;
    ListAt(j, i);
    ListAt(j, k);
    if k > |j.rows| + 1 {
      CounterFirst(j, k);
    }
  }

  /** What is asked for with the counter in hand is a later key, and it is not in hand yet. */
  lemma AfterCounter(j: Job, k: nat)
    requires Proper(j) && k < |LockList(j)| && CounterRow in LockList(j)[..k]
    ensures 2 <= k <= |j.keys| && LockList(j)[k] == KeyRow(j.keys[k - 1])
    ensures LockList(j)[k] !in LockList(j)[..k]
  {
    hide LockList;
    var i :| 0 <= i < k && LockList(j)[i] == CounterRow;
    ListAt(j, i);
    ListAt(j, k);
    forall h | 0 <= h < k
      ensures LockList(j)[h] != LockList(j)[k]
    {
      NoLockTwice(j, h, k);
    }
  }

  /** A key held without the counter is the first one. */
  lemma BeforeCounter(j: Job, k: nat, key: string)
    requires Proper(j) && k <= |LockList(j)|
    requires KeyRow(key) in LockList(j)[..k] && CounterRow !in LockList(j)[..k]
    ensures j.keys != [] && j.keys[0] == key
  {
    hide LockList;
    var i :| 0 <= i < k && LockList(j)[i] == KeyRow(key);
    ListAt(j, i);
    if i > |j.rows| + 1 {
      CounterFirst(j, k);
    }
  }

  /** Who waits with the counter in hand waits for a job that holds its own first key. */
  lemma WaitingWithCounter(pool: seq<Job>, n: Standing, t: nat, u: nat)
    requires ProperPool(pool) && Fits(pool, n) && OneHolder(pool, n)
    requires Waits(pool, n, t, u) && Has(pool, n, t, CounterRow)
    ensures Clash(pool[u], pool[t])
  {
    hide LockList, Proper;
    var a, b := pool[u], pool[t];
    AfterCounter(b, n[t]);
    assert u != t;
    assert !Has(pool, n, u, CounterRow);
    var key := b.keys[n[t] - 1];
    BeforeCounter(a, n[u], key);
    assert b.keys[1..][n[t] - 2] == key;
  }

  ghost predicate NoClash(pool: seq<Job>) {
    forall a, b :: a in pool && b in pool ==> !Clash(a, b)
  }

  /** Along a chain of waiting jobs, without a clash, what they ask for ascends. */
  lemma {:induction false} AskedAscends(pool: seq<Job>, n: Standing, ts: seq<nat>)
    requires ProperPool(pool) && Fits(pool, n) && OneHolder(pool, n) && NoClash(pool)
    requires |ts| > 1 && forall i :: 0 <= i < |ts| - 1 ==> Waits(pool, n, ts[i], ts[i + 1])
    requires Asks(pool, n, ts[|ts| - 1]) && !Has(pool, n, ts[|ts| - 1], CounterRow)
    ensures Asks(pool, n, ts[0]) && Before(NextLock(pool, n, ts[0]), NextLock(pool, n, ts[|ts| - 1]))
  {
    hide LockList, Proper, Clash, Before;
    var last := |ts| - 1;
    var t, u := ts[last - 1], ts[last];
    assert Waits(pool, n, t, u);
    var i :| 0 <= i < n[u] && LockList(pool[u])[i] == NextLock(pool, n, t);
    Climbs(pool[u], i, n[u]);
    if last > 1 {
      var front := ts[..last];
      forall k | 0 <= k < |front| - 1
        ensures Waits(pool, n, front[k], front[k + 1])
      {
        assert Waits(pool, n, ts[k], ts[k + 1]);
      }
      NoCounterHeld(pool, n, t, u);
      AskedAscends(pool, n, front);
      BeforeTransitive(NextLock(pool, n, ts[0]), NextLock(pool, n, t), NextLock(pool, n, u));
    }
  }

  lemma NoCounterHeld(pool: seq<Job>, n: Standing, t: nat, u: nat)
    requires ProperPool(pool) && Fits(pool, n) && OneHolder(pool, n) && NoClash(pool)
    requires Waits(pool, n, t, u)
    ensures !Has(pool, n, t, CounterRow)
  {
    hide LockList, Proper, Clash;
    if Has(pool, n, t, CounterRow) {
      WaitingWithCounter(pool, n, t, u);
    }
  }

  lemma NoCircle(pool: seq<Job>, n: Standing, ts: seq<nat>)
    requires ProperPool(pool) && Fits(pool, n) && OneHolder(pool, n) && NoClash(pool)
    ensures !Circle(pool, n, ts)
  {
    hide LockList, Proper, Clash, Before;
    if Circle(pool, n, ts) {
      assert Waits(pool, n, ts[0], ts[1]);
      NoCounterHeld(pool, n, ts[0], ts[1]);
      AskedAscends(pool, n, ts);
      NeverBeforeItself(NextLock(pool, n, ts[0]));
    }
  }

  // ------------------------------------------------------------------ a clash can be run into

  /** A job that has nothing takes its first `k` locks while nobody else holds one of them. */
  lemma {:induction false} TakeSome(pool: seq<Job>, moves: seq<Move>, t: nat, k: nat) returns (more: seq<Move>)
    requires t < |pool| && After(pool, moves)[t] == 0 && k <= |LockList(pool[t])|
    requires forall u, i :: u != t && 0 <= i < k ==> !Has(pool, After(pool, moves), u, LockList(pool[t])[i])
    requires forall i, h :: 0 <= i < h < k ==> LockList(pool[t])[i] != LockList(pool[t])[h]
    ensures After(pool, more) == After(pool, moves)[t := k]
  {
    hide LockList;
    var n := After(pool, moves);
    if k == 0 {
      more := moves;
      assert n[t := 0] == n;
    } else {
      var before := TakeSome(pool, moves, t, k - 1);
      var n' := n[t := k - 1];
      more := before + [Take(t)];
      assert more[..|more| - 1] == before;
      var r := LockList(pool[t])[k - 1];
      forall u: nat
        ensures !Has(pool, n', u, r)
      {
        if u != t && u < |pool| {
          assert n'[u] == n[u];
          assert !Has(pool, n, u, LockList(pool[t])[k - 1]);
        }
      }
      assert n'[t := k] == n[t := k];
    }
  }

  /** Two jobs, the first key of one being a later key of the other, can come to wait for each other. */
  lemma ClashIsReached(pool: seq<Job>, t: nat, u: nat)
    requires ProperPool(pool) && t < |pool| && u < |pool| && Clash(pool[t], pool[u])
    ensures CanDeadlock(pool)
  {
    hide LockList;
    var a, b := pool[t], pool[u];
    var h :| 0 <= h < |b.keys| - 1 && b.keys[1..][h] == a.keys[0];
    var j := h + 1;
    assert b.keys[j] == a.keys[0] && b.keys[0] != a.keys[0];
    var la, lb := LockList(a), LockList(b);
    Lengths(a);
    Lengths(b);
    NoLocksTwice(a);
    NoLocksTwice(b);
    var first := TakeSome(pool, [], t, |a.rows| + 1);
    var n := Idle(|pool|)[t := |a.rows| + 1];
    forall v, i | v != u && 0 <= i < j + 1
      ensures !Has(pool, n, v, lb[i])
    {
      if v == t {
        LocksApart(a, b, j, i);
      }
    }
    var moves := TakeSome(pool, first, u, j + 1);
    var n' := After(pool, moves);
    ListAt(a, |a.rows| + 1);
    ListAt(a, |a.rows|);
    ListAt(b, j + 1);
    ListAt(b, 1);
    assert la[..n'[t]][|a.rows|] == lb[j + 1];
    assert lb[..n'[u]][1] == CounterRow;
    assert Waits(pool, n', t, u) && Waits(pool, n', u, t);
    var ts: seq<nat> := [t, u, t];
    assert Circle(pool, n', ts);
  }

  lemma NoLocksTwice(j: Job)
    requires Proper(j)
    ensures forall i, k :: 0 <= i < k < |LockList(j)| ==> LockList(j)[i] != LockList(j)[k]
  {
    hide LockList, Proper;
    forall i, k | 0 <= i < k < |LockList(j)|
      ensures LockList(j)[i] != LockList(j)[k]
    {
      NoLockTwice(j, i, k);
    }
  }

  /** What `a` holds before its counter, and `b` before the key they share, are different locks. */
  lemma LocksApart(a: Job, b: Job, j: nat, i: nat)
    requires Proper(a) && Proper(b) && a.keys != [] && 0 < j < |b.keys| && b.keys[j] == a.keys[0]
    requires i < j + 1 && i < |LockList(b)| && |a.rows| < |LockList(a)|
    ensures LockList(b)[i] !in LockList(a)[..|a.rows| + 1]
  {
    hide LockList, Before;
    ListAt(b, i);
    if i != 1 {
      assert LockList(b)[i] == KeyRow(b.keys[if i == 0 then 0 else i - 1]);
    }
    forall x | 0 <= x < |a.rows| + 1
      ensures LockList(a)[x] != LockList(b)[i]
    {
      ListAt(a, x);
      if x < |a.rows| {
        assert a.rows[x] in a.rows;
      }
    }
  }

  lemma Lengths(j: Job)
    requires j.keys != []
    ensures |LockList(j)| == |j.rows| + 1 + |j.keys|
  {
  }

  /** Any number of service calls and imports side by side can come to wait for each other in a circle
      if and only if the first key of one of them is a later key of another. */
  lemma DeadlockIffClash(pool: seq<Job>)
    requires ProperPool(pool)
    ensures CanDeadlock(pool) <==> exists a, b :: a in pool && b in pool && Clash(a, b)
  {
    hide LockList, Proper, Clash;
    if exists a, b :: a in pool && b in pool && Clash(a, b) {
      var a, b :| a in pool && b in pool && Clash(a, b);
      var t :| 0 <= t < |pool| && pool[t] == a;
      var u :| 0 <= u < |pool| && pool[u] == b;
      ClashIsReached(pool, t, u);
    } else if CanDeadlock(pool) {
      var moves, ts :| Circle(pool, After(pool, moves), ts);
      AlwaysOneHolder(pool, moves);
      NoCircle(pool, After(pool, moves), ts);
    }
  }

  // ------------------------------------------------------------------ two imports

  /** The key of an opening tells its customer and its code. */
  lemma KeysTellApart(c: nat, x: string, d: nat, y: string)
    requires OpeningKey(c, x) == OpeningKey(d, y)
    ensures c == d && x == y
  {
    hide Money.Digits;
    var a, b := Money.Digits(c), Money.Digits(d);
    Money.DigitsSound(c);
    Money.DigitsSound(d);
    var s, t := a + ":" + x, b + ":" + y;
    assert OpeningKey(c, x)[8..] == s;
    assert OpeningKey(d, y)[8..] == t;
    assert s[|a|] == ':' && t[|b|] == ':';
    assert |a| == |b|;
    assert s[..|a|] == a && t[..|b|] == b;
    KeysDiffer(c, x, y);
  }

  lemma ImportProper(customer: nat, codes: seq<string>)
    requires NoRepeats(codes)
    ensures Proper(ImportJob(customer, codes))
  {
    hide OpeningKey, Before;
    var keys := OpeningKeys(customer, codes);
    forall i, j | 0 <= i < j < |keys|
      ensures keys[i] != keys[j]
    {
      if keys[i] == keys[j] {
        KeysTellApart(customer, codes[i], customer, codes[j]);
      }
    }
  }

  lemma ImportClash(c: nat, xs: seq<string>, d: nat, ys: seq<string>)
    ensures Clash(ImportJob(c, xs), ImportJob(d, ys)) <==> c == d && xs != [] && ys != [] && xs[0] in ys[1..]
  {
    hide OpeningKey;
    var ks, ls := OpeningKeys(c, xs), OpeningKeys(d, ys);
    if xs != [] && ys != [] {
      if ks[0] in ls[1..] {
        var i :| 0 <= i < |ls| - 1 && ls[1..][i] == ks[0];
        KeysTellApart(c, xs[0], d, ys[i + 1]);
        assert ys[1..][i] == xs[0];
      }
      if c == d && xs[0] in ys[1..] {
        var i :| 0 <= i < |ys| - 1 && ys[1..][i] == xs[0];
        assert ls[1..][i] == ks[0];
      }
    }
  }

  /** Two imports can come to wait for each other if and only if they are of the same customer and the
      first code of one sheet comes later on the other.  To meet the codes in one order is not enough. */
  lemma ImportsDeadlock(c: nat, xs: seq<string>, d: nat, ys: seq<string>)
    requires NoRepeats(xs) && NoRepeats(ys)
    ensures CanDeadlock([ImportJob(c, xs), ImportJob(d, ys)]) <==>
      c == d && xs != [] && ys != [] && (xs[0] in ys[1..] || ys[0] in xs[1..])
  {
    hide CanDeadlock, Proper, Clash, ImportJob;
    var a, b := ImportJob(c, xs), ImportJob(d, ys);
    ImportProper(c, xs);
    ImportProper(d, ys);
    DeadlockIffClash([a, b]);
    ImportClash(c, xs, d, ys);
    ImportClash(d, ys, c, xs);
    ImportClash(c, xs, c, xs);
    ImportClash(d, ys, d, ys);
    FirstIsNotLater(xs);
    FirstIsNotLater(ys);
    assert a in [a, b] && b in [a, b];
  }

  lemma FirstIsNotLater(xs: seq<string>)
    requires NoRepeats(xs)
    ensures xs != [] ==> xs[0] !in xs[1..]
  {
  }
}
