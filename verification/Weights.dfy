/** Weighted sums with falling weights: partial sums decide. */
module Weights {

  type Weight = nat -> real

  ghost predicate Falling(d: Weight) {
    (forall i :: d(i) > 0.0) && (forall i, j | i < j :: d(i) > d(j))
  }

  /** The value at a position, zero behind the end. */
  function Entry(a: seq<real>, i: nat): real {
    if i < |a| then a[i] else 0.0
  }

  function Prefix(a: seq<real>, n: nat): real {
    if n == 0 then 0.0 else Prefix(a, n - 1) + Entry(a, n - 1)
  }

  function Weighted(a: seq<real>, d: Weight, n: nat): real {
    if n == 0 then 0.0 else Weighted(a, d, n - 1) + Product(Entry(a, n - 1), d(n - 1))
  }

  function Product(x: real, y: real): real { x * y }

  lemma PrefixEntry(a: seq<real>, b: seq<real>, i: nat)
    requires Prefix(a, i) == Prefix(b, i) && Prefix(a, i + 1) == Prefix(b, i + 1)
    ensures Entry(a, i) == Entry(b, i)
  {
  }

  ghost predicate Dominates(a: seq<real>, b: seq<real>, n: nat) {
    forall k :: 0 <= k <= n ==> Prefix(b, k) <= Prefix(a, k)
  }

  lemma MulSign(x: real, y: real)
    requires x >= 0.0 && y >= 0.0
    ensures x * y >= 0.0 && (x > 0.0 && y > 0.0 ==> x * y > 0.0)
  {
  }

  lemma GapStep(wa: real, wb: real, pa: real, pb: real, before: real, now: real, x: real, y: real)
    requires wa - wb >= Product(before, pa - pb) && pa >= pb && before >= now
    ensures (wa + Product(x, now)) - (wb + Product(y, now)) >= Product(now, (pa + x) - (pb + y))
  {
    MulSign(before - now, pa - pb);
    assert Product(x, now) - Product(y, now) == now * (x - y);
  }

  lemma {:induction false} Gap(a: seq<real>, b: seq<real>, d: Weight, n: nat)
    requires Falling(d) && Dominates(a, b, n) && n > 0
    ensures Weighted(a, d, n) - Weighted(b, d, n) >= Product(d(n - 1), Prefix(a, n) - Prefix(b, n))
  {
    if n > 1 {
      Gap(a, b, d, n - 1);
      GapStep(Weighted(a, d, n - 1), Weighted(b, d, n - 1), Prefix(a, n - 1), Prefix(b, n - 1),
              d(n - 2), d(n - 1), Entry(a, n - 1), Entry(b, n - 1));
    } else {
      GapStep(0.0, 0.0, 0.0, 0.0, d(0), d(0), Entry(a, 0), Entry(b, 0));
    }
  }

  lemma ProductSign(x: real, y: real)
    requires y > 0.0
    ensures x >= 0.0 ==> Product(x, y) >= 0.0 && Product(y, x) >= 0.0
    ensures x > 0.0 ==> Product(x, y) > 0.0
    ensures x == 0.0 ==> Product(x, y) == 0.0
  {
  }

  lemma AtMost(a: seq<real>, b: seq<real>, d: Weight, n: nat)
    requires Falling(d) && Dominates(a, b, n)
    ensures Weighted(b, d, n) <= Weighted(a, d, n)
  {
    if n > 0 {
      Gap(a, b, d, n);
      ProductSign(Prefix(a, n) - Prefix(b, n), d(n - 1));
    }
  }

  lemma Distribute(a: real, b: real, c: real)
    ensures (a + b) * c == a * c + b * c
  {
  }

  /** A gap of `diff * now` that is at least `before * p`, with `diff` at most `p`, leaves no room. */
  lemma NoPrefixGap(p: real, before: real, now: real, diff: real)
    requires p >= 0.0 && before > now > 0.0 && diff <= p && diff * now >= before * p
    ensures p == 0.0
  {
    MulSign(p - diff, now);
    Distribute(p - diff, diff, now);
    MulSign(before - now, p);
    Distribute(before - now, now, p);
    assert p * now == now * p;
  }

  /** No gap in the weighted sums: no gap in the last partial sum but one either. */
  lemma TightStep(gap: real, p: real, before: real, now: real, x: real, y: real)
    requires p >= 0.0 && before > now > 0.0 && gap >= Product(before, p)
    requires gap + Product(x, now) - Product(y, now) == 0.0 && p + x - y >= 0.0
    ensures p == 0.0 && x == y && gap == 0.0
  {
    Distribute(y - x, x, now);
    assert gap == (y - x) * now;
    NoPrefixGap(p, before, now, y - x);
    assert Product(before, 0.0) == 0.0;
    Distribute(y - x, x - y, now);
    TightEnd(gap, now, x - y);
  }

  lemma TightEnd(gap: real, now: real, diff: real)
    requires now > 0.0 && gap == -diff * now && diff >= 0.0 && gap >= 0.0
    ensures diff == 0.0 && gap == 0.0
  {
    MulSign(diff, now);
  }

  lemma {:induction false} Tight(a: seq<real>, b: seq<real>, d: Weight, n: nat)
    requires Falling(d) && Dominates(a, b, n) && Weighted(a, d, n) == Weighted(b, d, n)
    ensures forall i :: 0 <= i < n ==> Entry(a, i) == Entry(b, i)
  {
    if n > 1 {
      Gap(a, b, d, n - 1);
      assert Prefix(b, n) <= Prefix(a, n);
      TightStep(Weighted(a, d, n - 1) - Weighted(b, d, n - 1), Prefix(a, n - 1) - Prefix(b, n - 1),
                d(n - 2), d(n - 1), Entry(a, n - 1), Entry(b, n - 1));
      Tight(a, b, d, n - 1);
    } else if n == 1 {
      assert Prefix(b, 1) <= Prefix(a, 1);
      TightStep(0.0, 0.0, d(0) + 1.0, d(0), Entry(a, 0), Entry(b, 0));
    }
  }

  lemma {:induction false} SameEntries(a: seq<real>, b: seq<real>, d: Weight, n: nat)
    requires forall i :: 0 <= i < n ==> Entry(a, i) == Entry(b, i)
    ensures Weighted(a, d, n) == Weighted(b, d, n)
  {
    if n > 0 {
      SameEntries(a, b, d, n - 1);
      assert Entry(a, n - 1) == Entry(b, n - 1);
    }
  }

  lemma {:induction false} WeightedSign(a: seq<real>, d: Weight, n: nat)
    requires Falling(d) && forall i :: 0 <= i < |a| ==> a[i] >= 0.0
    ensures Weighted(a, d, n) >= 0.0
    ensures n > 0 && |a| > 0 && a[0] > 0.0 ==> Weighted(a, d, n) > 0.0
  {
    if n > 0 {
      WeightedSign(a, d, n - 1);
      ProductSign(Entry(a, n - 1), d(n - 1));
    }
  }
}
