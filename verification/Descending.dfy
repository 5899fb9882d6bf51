/** Python's stable `sorted(..., reverse=True)` by a numeric key, and what taking its first
    elements means. */
module Descending {

  /** The position behind every element whose key is at least that of `x`. */
  function Place<T>(r: seq<T>, x: T, key: T -> real): (p: nat)
    ensures p <= |r| && (p > 0 ==> key(r[p - 1]) >= key(x))
    ensures forall i :: p <= i < |r| ==> key(r[i]) < key(x)
  {
    if r == [] || key(r[|r| - 1]) >= key(x) then |r| else Place(r[..|r| - 1], x, key)
  }

  function Insert<T>(r: seq<T>, x: T, key: T -> real): seq<T> {
    var p := Place(r, x, key);
    r[..p] + [x] + r[p..]
  }

  function Sort<T>(s: seq<T>, key: T -> real): seq<T> {
    if s == [] then [] else Insert(Sort(s[..|s| - 1], key), s[|s| - 1], key)
  }

  function Take<T>(s: seq<T>, k: nat): (r: seq<T>)
    ensures |r| <= k && |r| <= |s|
  {
    if |s| <= k then s else s[..k]
  }

  ghost predicate Falls<T>(s: seq<T>, key: T -> real) {
    forall i, j :: 0 <= i < j < |s| ==> key(s[i]) >= key(s[j])
  }

  lemma InsertFalls<T>(r: seq<T>, x: T, key: T -> real)
    requires Falls(r, key)
    ensures Falls(Insert(r, x, key), key)
  {
    var n := Insert(r, x, key);
    forall i, j | 0 <= i < j < |n| ensures key(n[i]) >= key(n[j]) {
      InsertAt(r, x, key, i);
      InsertAt(r, x, key, j);
    }
  }

  lemma InsertMembers<T>(r: seq<T>, x: T, key: T -> real)
    ensures multiset(Insert(r, x, key)) == multiset(r) + multiset{x}
  {
    var p := Place(r, x, key);
    assert r == r[..p] + r[p..];
  }

  lemma {:induction false} SortFalls<T>(s: seq<T>, key: T -> real)
    ensures Falls(Sort(s, key), key)
  {
    if s != [] {
      SortFalls(s[..|s| - 1], key);
      InsertFalls(Sort(s[..|s| - 1], key), s[|s| - 1], key);
    }
  }

  /** Sorting rearranges its input. */
  lemma {:induction false} SortMembers<T>(s: seq<T>, key: T -> real)
    ensures multiset(Sort(s, key)) == multiset(s) && |Sort(s, key)| == |s|
  {
    if s != [] {
      var n := |s| - 1;
      SortMembers(s[..n], key);
      InsertMembers(Sort(s[..n], key), s[n], key);
      assert s == s[..n] + [s[n]];
    }
  }

  lemma SortedMember<T>(s: seq<T>, key: T -> real, i: nat)
    requires i < |Sort(s, key)|
    ensures Sort(s, key)[i] in s
  {
    SortMembers(s, key);
    assert Sort(s, key)[i] in multiset(Sort(s, key));
  }

  lemma {:induction false} SortFixed<T>(s: seq<T>, key: T -> real)
    requires Falls(s, key)
    ensures Sort(s, key) == s
  {
    if s != [] {
      SortFixed(s[..|s| - 1], key);
      assert s == s[..|s| - 1] + [s[|s| - 1]];
    }
  }

  lemma InsertAt<T>(r: seq<T>, x: T, key: T -> real, i: nat)
    requires i <= |r|
    ensures var p := Place(r, x, key);
      |Insert(r, x, key)| == |r| + 1
      && Insert(r, x, key)[i] == if i < p then r[i] else if i == p then x else r[i - 1]
  {
  }

  /** Keeping only the first `k` at every insertion gives the first `k` of the whole. */
  lemma InsertTake<T>(r: seq<T>, x: T, key: T -> real, k: nat)
    requires Falls(r, key) && k < |r|
    ensures Take(Insert(r[..k], x, key), k) == Take(Insert(r, x, key), k)
  {
    var p := Place(r, x, key);
    PlaceUnique(r[..k], x, key, if p <= k then p else k);
    forall i | 0 <= i < k ensures Insert(r[..k], x, key)[i] == Insert(r, x, key)[i] {
      InsertAt(r, x, key, i);
      InsertAt(r[..k], x, key, i);
    }
  }

  lemma PlaceUnique<T>(r: seq<T>, x: T, key: T -> real, p: nat)
    requires Falls(r, key) && p <= |r| && (p > 0 ==> key(r[p - 1]) >= key(x))
    requires forall i :: p <= i < |r| ==> key(r[i]) < key(x)
    ensures Place(r, x, key) == p
  {
  }

  /** Keys that compare alike sort alike. */
  lemma {:induction false} SameOrder<T>(s: seq<T>, key: T -> real, other: T -> real)
    requires forall x, y :: key(x) >= key(y) <==> other(x) >= other(y)
    ensures Sort(s, key) == Sort(s, other)
  {
    if s != [] {
      SameOrder(s[..|s| - 1], key, other);
      SamePlace(Sort(s[..|s| - 1], key), s[|s| - 1], key, other);
    }
  }

  lemma {:induction false} SamePlace<T>(r: seq<T>, x: T, key: T -> real, other: T -> real)
    requires forall x, y :: key(x) >= key(y) <==> other(x) >= other(y)
    ensures Place(r, x, key) == Place(r, x, other)
  {
    if r != [] {
      SamePlace(r[..|r| - 1], x, key, other);
    }
  }

  // ---- the first k of a falling sequence dominate ------------------------------------------------------------

  function Sum<T>(s: seq<T>, key: T -> real): real {
    if s == [] then 0.0 else Sum(s[..|s| - 1], key) + key(s[|s| - 1])
  }

  /** The sum of the first `k`, or of all. */
  function Top<T>(s: seq<T>, key: T -> real, k: nat): real {
    if k == 0 then 0.0 else Top(s, key, k - 1) + At(s, key, k - 1)
  }

  function At<T>(s: seq<T>, key: T -> real, i: nat): real {
    if i < |s| then key(s[i]) else 0.0
  }

  lemma {:induction false} TopOfNone<T>(key: T -> real, k: nat)
    ensures Top([], key, k) == 0.0
  {
    if k > 0 {
      TopOfNone(key, k - 1);
    }
  }

  /** What stands at each position after an insertion. */
  lemma AtInsert<T>(r: seq<T>, x: T, key: T -> real, i: nat)
    ensures var p := Place(r, x, key);
      At(Insert(r, x, key), key, i) == if i < p then At(r, key, i) else if i == p then key(x) else At(r, key, i - 1)
  {
  }

  /** How one more element changes the first `k`: those before its place stay, the others move on. */
  lemma {:induction false} TopInsert<T>(r: seq<T>, x: T, key: T -> real, k: nat)
    ensures var p := Place(r, x, key);
      Top(Insert(r, x, key), key, k) == if k <= p then Top(r, key, k) else Top(r, key, k - 1) + key(x)
  {
    if k > 0 {
      TopInsert(r, x, key, k - 1);
      AtInsert(r, x, key, k - 1);
    }
  }

  lemma TopInsertBounds<T>(r: seq<T>, x: T, key: T -> real, k: nat)
    requires Falls(r, key) && key(x) >= 0.0
    ensures Top(Insert(r, x, key), key, k) >= Top(r, key, k)
    ensures k > 0 ==> Top(Insert(r, x, key), key, k) >= Top(r, key, k - 1) + key(x)
  {
    TopInsert(r, x, key, k);
  }

  // ---- choices --------------------------------------------------------------------------------------------------

  /** How many elements a mask chooses, and their sum. */
  function Count(mask: seq<bool>): nat {
    if mask == [] then 0 else Count(mask[..|mask| - 1]) + if mask[|mask| - 1] then 1 else 0
  }

  function Chosen<T>(s: seq<T>, mask: seq<bool>, key: T -> real): real
    requires |mask| == |s|
  {
    if s == [] then 0.0
    else Chosen(s[..|s| - 1], mask[..|s| - 1], key) + if mask[|s| - 1] then key(s[|s| - 1]) else 0.0
  }

  lemma ChosenSnoc<T>(s: seq<T>, mask: seq<bool>, x: T, taken: bool, key: T -> real)
    requires |mask| == |s|
    ensures Chosen(s + [x], mask + [taken], key) == Chosen(s, mask, key) + if taken then key(x) else 0.0
    ensures Count(mask + [taken]) == Count(mask) + if taken then 1 else 0
  {
    assert (s + [x])[..|s|] == s && (mask + [taken])[..|s|] == mask;
  }

  /** No choice of at most `k` elements has a larger sum than the first `k` after sorting. */
  lemma {:induction false} TopDominates<T>(s: seq<T>, mask: seq<bool>, key: T -> real, k: nat)
    requires |mask| == |s| && Count(mask) <= k && forall i :: 0 <= i < |s| ==> key(s[i]) >= 0.0
    ensures Chosen(s, mask, key) <= Top(Sort(s, key), key, k)
  {
    if s == [] {
      TopOfNone(key, k);
    } else {
      var n := |s| - 1;
      SortFalls(s[..n], key);
      TopInsertBounds(Sort(s[..n], key), s[n], key, k);
      TopDominates(s[..n], mask[..n], key, if mask[n] then k - 1 else k);
    }
  }

  /** `n` times `x`. */
  ghost function Times(n: int, x: real): real
    decreases if n < 0 then -n else n
  {
    if n == 0 then 0.0 else if n > 0 then Times(n - 1, x) + x else Times(n + 1, x) - x
  }

  lemma TimesStep(n: int, x: real)
    ensures Times(n, x) == Times(n - 1, x) + x
  {
  }

  lemma {:induction false} TimesNonnegative(n: nat, x: real)
    requires x >= 0.0
    ensures Times(n, x) >= 0.0
  {
    if n > 0 {
      TimesNonnegative(n - 1, x);
    }
  }

  ghost predicate Splits<T>(s: seq<T>, mask: seq<bool>, key: T -> real, limit: real)
    requires |mask| == |s|
  {
    forall i :: 0 <= i < |s| ==> if mask[i] then key(s[i]) >= limit else 0.0 <= key(s[i]) <= limit
  }

  lemma ChoiceStep<T>(r: seq<T>, x: T, key: T -> real, limit: real, k: nat, chosen: real, c: int, taken: bool)
    requires Top(r, key, k) <= chosen + Times(c, limit)
    requires k > 0 ==> Top(r, key, k - 1) <= chosen + Times(c - 1, limit)
    requires if taken then key(x) >= limit else 0.0 <= key(x) <= limit
    ensures Top(Insert(r, x, key), key, k)
         <= chosen + (if taken then key(x) else 0.0) + Times(if taken then c - 1 else c, limit)
  {
    TopInsert(r, x, key, k);
    TimesStep(c, limit);
  }

  lemma {:induction false} SplitsFront<T>(s: seq<T>, mask: seq<bool>, key: T -> real, limit: real)
    requires |mask| == |s| > 0 && Splits(s, mask, key, limit)
    ensures var n := |s| - 1;
      Splits(s[..n], mask[..n], key, limit) && if mask[n] then key(s[n]) >= limit else 0.0 <= key(s[n]) <= limit
  {
  }

  /** A choice of elements that are at least `limit`, all others being at most `limit`, is a best
      choice of its size. */
  lemma {:induction false} ChoiceIsTop<T>(s: seq<T>, mask: seq<bool>, key: T -> real, limit: real, k: nat)
    requires |mask| == |s| && limit >= 0.0 && Splits(s, mask, key, limit)
    ensures Top(Sort(s, key), key, k) <= Chosen(s, mask, key) + Times(k - Count(mask), limit)
  {
    if s == [] {
      TopOfNone(key, k);
      TimesNonnegative(k, limit);
    } else {
      var n := |s| - 1;
      var front, rest := s[..n], mask[..n];
      SplitsFront(s, mask, key, limit);
      ChoiceIsTop(front, rest, key, limit, k);
      if k > 0 {
        ChoiceIsTop(front, rest, key, limit, k - 1);
      }
      ChoiceStep(Sort(front, key), s[n], key, limit, k, Chosen(front, rest, key), k - Count(rest), mask[n]);
    }
  }
}
