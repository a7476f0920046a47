/** Stable sorting by a comparison. */
module Sorting {

  ghost predicate Preorder<T(!new)>(le: (T, T) -> bool) {
    && (forall x, y :: le(x, y) || le(y, x))
    && (forall x, y, z :: le(x, y) && le(y, z) ==> le(x, z))
  }

  ghost predicate Sorted<T>(s: seq<T>, le: (T, T) -> bool) {
    forall i, j :: 0 <= i < j < |s| ==> le(s[i], s[j])
  }

  /** Where `x` goes: after everything it does not come before. */
  function Place<T>(s: seq<T>, x: T, le: (T, T) -> bool): nat
    ensures Place(s, x, le) <= |s|
  {
    if s == [] || le(s[|s| - 1], x) then |s| else Place(s[..|s| - 1], x, le)
  }

  function Insert<T>(s: seq<T>, x: T, le: (T, T) -> bool): seq<T> {
    var k := Place(s, x, le);
    s[..k] + [x] + s[k..]
  }

  function Sort<T>(s: seq<T>, le: (T, T) -> bool): seq<T> {
    if s == [] then [] else Insert(Sort(s[..|s| - 1], le), s[|s| - 1], le)
  }

  ghost predicate Precedes<T>(s: seq<T>, x: T, y: T) {
    exists a, b :: 0 <= a < b < |s| && s[a] == x && s[b] == y
  }

  /** Elements that compare alike stay in the order they came in. */
  ghost predicate Stable<T>(s: seq<T>, t: seq<T>, le: (T, T) -> bool) {
    forall i, j :: 0 <= i < j < |s| && le(s[i], s[j]) && le(s[j], s[i]) ==> Precedes(t, s[i], s[j])
  }

  lemma {:induction false} PlaceSound<T(!new)>(s: seq<T>, x: T, le: (T, T) -> bool)
    requires Preorder(le) && Sorted(s, le)
    ensures forall i :: 0 <= i < |s| ==> if i < Place(s, x, le) then le(s[i], x) else !le(s[i], x) && le(x, s[i])
  {
    if s == [] {
    } else if !le(s[|s| - 1], x) {
      PlaceSound(s[..|s| - 1], x, le);
    }
  }

  lemma InsertSorted<T(!new)>(s: seq<T>, x: T, le: (T, T) -> bool)
    requires Preorder(le) && Sorted(s, le)
    ensures Sorted(Insert(s, x, le), le) && multiset(Insert(s, x, le)) == multiset(s) + multiset{x}
  {
    PlaceSound(s, x, le);
    hide Preorder, Place;
    var k := Place(s, x, le);
    assert s == s[..k] + s[k..];
  }

  lemma InsertKeepsOrder<T(!new)>(s: seq<T>, x: T, le: (T, T) -> bool)
    requires Preorder(le) && Sorted(s, le)
    ensures forall y :: y in s && le(y, x) ==> Precedes(Insert(s, x, le), y, x)
    ensures forall y, z :: Precedes(s, y, z) ==> Precedes(Insert(s, x, le), y, z)
  {
    PlaceSound(s, x, le);
    hide Preorder, Place, Sorted;
    var k, t := Place(s, x, le), Insert(s, x, le);
    forall y | y in s && le(y, x)
      ensures Precedes(t, y, x)
    {
      var a :| 0 <= a < |s| && s[a] == y;
      assert t[a] == y && t[k] == x;
    }
    forall y, z | Precedes(s, y, z)
      ensures Precedes(t, y, z)
    {
      var a, b :| 0 <= a < b < |s| && s[a] == y && s[b] == z;
      var a', b' := if a < k then a else a + 1, if b < k then b else b + 1;
      assert t[a'] == y && t[b'] == z;
    }
  }

  /** The result is in order, holds the same elements, and keeps the order of those that compare alike. */
  lemma {:induction false} SortSound<T(!new)>(s: seq<T>, le: (T, T) -> bool)
    requires Preorder(le)
    ensures Sorted(Sort(s, le), le) && multiset(Sort(s, le)) == multiset(s) && Stable(s, Sort(s, le), le)
  {
    if s == [] {
    } else {
      hide Preorder, Insert, Precedes, Sorted;
      var init, x := s[..|s| - 1], s[|s| - 1];
      assert s == init + [x];
      SortSound(init, le);
      InsertSorted(Sort(init, le), x, le);
      InsertKeepsOrder(Sort(init, le), x, le);
      forall i, j | 0 <= i < j < |s| && le(s[i], s[j]) && le(s[j], s[i])
        ensures Precedes(Sort(s, le), s[i], s[j])
      {
        if j == |init| {
          assert s[i] == init[i] && init[i] in multiset(init);
        } else {
          assert s[i] == init[i] && s[j] == init[j];
        }
      }
    }
  }

  ghost predicate NoRepeats<T>(s: seq<T>) {
    forall i, j :: 0 <= i < j < |s| ==> s[i] != s[j]
  }

  /** Sorting a list without repeats leaves one without repeats, of the same elements. */
  lemma SortNoRepeats<T(!new)>(s: seq<T>, le: (T, T) -> bool)
    requires Preorder(le) && NoRepeats(s)
    ensures var t := Sort(s, le);
      |t| == |s| && NoRepeats(t) && forall x :: x in t <==> x in s
  {
    SortSound(s, le);
    hide Preorder, Sort, Sorted, Stable;
    var t := Sort(s, le);
    assert |multiset(t)| == |t| && |multiset(s)| == |s|;
    forall x: T
      ensures x in t <==> x in s
    {
      assert x in t <==> x in multiset(t);
      assert x in s <==> x in multiset(s);
    }
    NoRepeatsCounts(s);
    CountsNoRepeats(t);
  }

  lemma {:induction false} NoRepeatsCounts<T(!new)>(s: seq<T>)
    requires NoRepeats(s)
    ensures forall x :: multiset(s)[x] <= 1
  {
    if s == [] {
    } else {
      var init, last := s[..|s| - 1], s[|s| - 1];
      assert s == init + [last];
      NoRepeatsCounts(init);
      assert last !in multiset(init);
    }
  }

  lemma CountsNoRepeats<T(!new)>(s: seq<T>)
    requires forall x :: multiset(s)[x] <= 1
    ensures NoRepeats(s)
  {
    forall i, j | 0 <= i < j < |s|
      ensures s[i] != s[j]
    {
      assert s == s[..j] + [s[j]] + s[j + 1..];
      assert s[i] == s[..j][i] && s[i] in multiset(s[..j]);
      var before := multiset(s[..j]);
      assert multiset(s) == before + multiset{s[j]} + multiset(s[j + 1..]);
      assert before[s[i]] >= 1 && multiset(s)[s[j]] >= before[s[j]] + 1;
    }
  }
}
