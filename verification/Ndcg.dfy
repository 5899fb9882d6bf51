/** nDCG at ten over a ranking of contracts with graded gold contracts. Scores are reals; the
    discount of a rank is any positive function that falls with the rank, as 1 / log2(rank + 1) does. */
module Ndcg {
  import opened Evidence
  import opened Descending
  import opened Weights

  datatype Gold = Gold(contract: string, grade: nat)

  /** What the gold query model accepts: unique contracts, grades from one to three. */
  predicate GoldOk(gold: seq<Gold>) {
    && (forall i, j :: 0 <= i < j < |gold| ==> gold[i].contract != gold[j].contract)
    && (forall i :: 0 <= i < |gold| ==> 1 <= gold[i].grade <= 3)
  }

  function Power2(n: nat): nat {
    if n == 0 then 1 else 2 * Power2(n - 1)
  }

  function Gain(grade: nat): real {
    (Power2(grade) - 1) as real
  }

  lemma {:induction false} PowerMonotone(m: nat, n: nat)
    requires m <= n
    ensures 1 <= Power2(m) <= Power2(n) && (m < n ==> Power2(m) < Power2(n))
  {
    if m < n {
      PowerMonotone(m, n - 1);
    } else if m > 0 {
      PowerMonotone(m - 1, n - 1);
    }
  }

  /** `relevance.get(contract, 0)`. */
  function Grade(gold: seq<Gold>, contract: string): nat {
    if gold == [] then 0
    else if gold[|gold| - 1].contract == contract then gold[|gold| - 1].grade
    else Grade(gold[..|gold| - 1], contract)
  }

  /** The gain at each rank. */
  function Gains(gold: seq<Gold>, ranked: seq<string>): (r: seq<real>)
    ensures |r| == |ranked| && forall i :: 0 <= i < |r| ==> r[i] == Gain(Grade(gold, ranked[i]))
  {
    if ranked == [] then []
    else Gains(gold, ranked[..|ranked| - 1]) + [Gain(Grade(gold, ranked[|ranked| - 1]))]
  }

  function Grades(gold: seq<Gold>): seq<nat> {
    if gold == [] then [] else Grades(gold[..|gold| - 1]) + [gold[|gold| - 1].grade]
  }

  function AsReal(n: nat): real { n as real }

  /** `sorted(relevance.values(), reverse=True)`. */
  function IdealGrades(gold: seq<Gold>): seq<nat> {
    Sort(Grades(gold), AsReal)
  }

  function GainsOf(grades: seq<nat>): (r: seq<real>)
    ensures |r| == |grades| && forall i :: 0 <= i < |r| ==> r[i] == Gain(grades[i])
  {
    if grades == [] then [] else GainsOf(grades[..|grades| - 1]) + [Gain(grades[|grades| - 1])]
  }

  function IdealGains(gold: seq<Gold>): seq<real> {
    GainsOf(Take(IdealGrades(gold), 10))
  }

  /** The discounted sum over all given ranks. */
  function Dcg(gains: seq<real>, d: Weight): real {
    Weighted(gains, d, |gains|)
  }

  /** Which gold contracts a ranking holds. */
  function Held(gold: seq<Gold>, ranking: seq<string>): (mask: seq<bool>)
    ensures |mask| == |gold|
  {
    if gold == [] then [] else Held(gold[..|gold| - 1], ranking) + [gold[|gold| - 1].contract in ranking]
  }

  lemma {:induction false} GradesLength(gold: seq<Gold>)
    ensures |Grades(gold)| == |gold| && forall i :: 0 <= i < |gold| ==> Grades(gold)[i] == gold[i].grade
  {
    if gold != [] {
      GradesLength(gold[..|gold| - 1]);
    }
  }

  /** The gain of the gold contracts that a ranking holds, and their number. */
  function HeldGain(gold: seq<Gold>, ranking: seq<string>): real {
    if gold == [] then 0.0
    else HeldGain(gold[..|gold| - 1], ranking)
         + if gold[|gold| - 1].contract in ranking then Gain(gold[|gold| - 1].grade) else 0.0
  }

  function HeldCount(gold: seq<Gold>, ranking: seq<string>): nat {
    if gold == [] then 0
    else HeldCount(gold[..|gold| - 1], ranking) + if gold[|gold| - 1].contract in ranking then 1 else 0
  }

  lemma {:induction false} HeldChosen(gold: seq<Gold>, ranking: seq<string>)
    ensures |Grades(gold)| == |gold|
    ensures HeldGain(gold, ranking) == Chosen(Grades(gold), Held(gold, ranking), Gain)
    ensures HeldCount(gold, ranking) == Count(Held(gold, ranking))
  {
    if gold != [] {
      var n := |gold| - 1;
      HeldChosen(gold[..n], ranking);
      ChosenSnoc(Grades(gold[..n]), Held(gold[..n], ranking), gold[n].grade, gold[n].contract in ranking, Gain);
    }
  }

  predicate IsGold(gold: seq<Gold>, contract: string) {
    exists i :: 0 <= i < |gold| && gold[i].contract == contract
  }

  lemma {:induction false} GradeOf(gold: seq<Gold>, contract: string)
    ensures !IsGold(gold, contract) ==> Grade(gold, contract) == 0
    ensures forall i :: 0 <= i < |gold| && gold[i].contract == contract && GoldOk(gold) ==> Grade(gold, contract) == gold[i].grade
  {
    if gold != [] {
      var front := gold[..|gold| - 1];
      GradeOf(front, contract);
      if IsGold(front, contract) {
        var i :| 0 <= i < |front| && front[i].contract == contract;
        assert gold[i].contract == contract;
      }
      if IsGold(gold, contract) && gold[|gold| - 1].contract != contract {
        var i :| 0 <= i < |gold| && gold[i].contract == contract;
        assert front[i].contract == contract;
      }
    }
  }

  /** One more ranked contract adds its own gain, and holds at most one more gold contract. */
  lemma {:induction false} HeldAdd(gold: seq<Gold>, ranking: seq<string>, x: string)
    requires GoldOk(gold) && x !in ranking
    ensures HeldGain(gold, ranking + [x]) == HeldGain(gold, ranking) + Gain(Grade(gold, x))
    ensures HeldCount(gold, ranking + [x]) == HeldCount(gold, ranking) + if IsGold(gold, x) then 1 else 0
  {
    if gold != [] {
      var n := |gold| - 1;
      var front, g := gold[..n], gold[n];
      assert gold == front + [g];
      HeldAdd(front, ranking, x);
      GradeOf(front, x);
      IsGoldSnoc(front, g, x);
    }
  }

  lemma IsGoldSnoc(front: seq<Gold>, g: Gold, x: string)
    ensures IsGold(front + [g], x) <==> IsGold(front, x) || g.contract == x
  {
    var gold := front + [g];
    if IsGold(front, x) {
      var i :| 0 <= i < |front| && front[i].contract == x;
      assert gold[i].contract == x;
    }
    if g.contract == x { assert gold[|front|].contract == x; }
    if IsGold(gold, x) {
      var i :| 0 <= i < |gold| && gold[i].contract == x;
      if i < |front| { assert front[i].contract == x; }
    }
  }

  lemma {:induction false} HeldNone(gold: seq<Gold>)
    ensures HeldGain(gold, []) == 0.0 && HeldCount(gold, []) == 0
  {
    if gold != [] {
      HeldNone(gold[..|gold| - 1]);
    }
  }

  lemma TakeStep(ranking: seq<string>, n: nat)
    requires Distinct(ranking) && n > 0
    ensures n > |ranking| ==> Take(ranking, n) == Take(ranking, n - 1)
    ensures n <= |ranking| ==>
      Take(ranking, n) == Take(ranking, n - 1) + [ranking[n - 1]] && ranking[n - 1] !in Take(ranking, n - 1)
  {
  }

  /** The undiscounted gain of the first ranks is that of the gold contracts they hold. */
  lemma {:induction false} CumulatedHeld(gold: seq<Gold>, ranking: seq<string>, n: nat)
    requires GoldOk(gold) && Distinct(ranking)
    ensures Prefix(Gains(gold, ranking), n) == HeldGain(gold, Take(ranking, n))
    ensures HeldCount(gold, Take(ranking, n)) <= n
  {
    if n == 0 {
      HeldNone(gold);
      assert Take(ranking, 0) == [];
    } else {
      CumulatedHeld(gold, ranking, n - 1);
      TakeStep(ranking, n);
      if n <= |ranking| {
        HeldAdd(gold, Take(ranking, n - 1), ranking[n - 1]);
      }
    }
  }

  lemma GainOrder()
    ensures forall x: nat, y: nat :: AsReal(x) >= AsReal(y) <==> Gain(x) >= Gain(y)
    ensures forall x: nat :: Gain(x) >= 0.0
  {
    forall x: nat, y: nat ensures AsReal(x) >= AsReal(y) <==> Gain(x) >= Gain(y) {
      if x >= y { PowerMonotone(y, x); } else { PowerMonotone(x, y); }
    }
    forall x: nat ensures Gain(x) >= 0.0 {
      PowerMonotone(x, x);
    }
  }

  lemma {:induction false} IdealPrefix(gold: seq<Gold>, n: nat)
    requires n <= 10
    ensures Prefix(IdealGains(gold), n) == Top(IdealGrades(gold), Gain, n)
  {
    if n > 0 {
      IdealPrefix(gold, n - 1);
    }
  }

  /** At every depth the ideal order has gained at least as much as any ranking. */
  lemma IdealDominates(gold: seq<Gold>, ranking: seq<string>, n: nat)
    requires GoldOk(gold) && Distinct(ranking) && n <= 10
    ensures Prefix(Gains(gold, ranking), n) <= Prefix(IdealGains(gold), n)
  {
    GainOrder();
    IdealPrefix(gold, n);
    GradesLength(gold);
    SameOrder(Grades(gold), AsReal, Gain);
    CumulatedHeld(gold, ranking, n);
    HeldChosen(gold, Take(ranking, n));
    TopDominates(Grades(gold), Held(gold, Take(ranking, n)), Gain, n);
  }

  // ---- bounds ---------------------------------------------------------------------------------------------------

  lemma {:induction false} WeightedPast(a: seq<real>, d: Weight, n: nat)
    requires |a| <= n
    ensures Weighted(a, d, n) == Dcg(a, d)
  {
    if n > |a| {
      WeightedPast(a, d, n - 1);
      assert Product(0.0, d(n - 1)) == 0.0;
    }
  }

  lemma IdealPositive(gold: seq<Gold>, d: Weight)
    requires GoldOk(gold) && gold != [] && Falling(d)
    ensures Dcg(IdealGains(gold), d) > 0.0
  {
    FirstGain(gold);
    GainOrder();
    WeightedSign(IdealGains(gold), d, |IdealGains(gold)|);
  }

  lemma FirstGain(gold: seq<Gold>)
    requires GoldOk(gold) && gold != []
    ensures |IdealGains(gold)| > 0 && IdealGains(gold)[0] > 0.0
  {
    GradesLength(gold);
    SortMembers(Grades(gold), AsReal);
    SortedMember(Grades(gold), AsReal, 0);
    var first := IdealGrades(gold)[0];
    var i :| 0 <= i < |gold| && Grades(gold)[i] == first;
    PowerMonotone(1, first);
  }

  /** `ndcg_at_10`. */
  function Ndcg(gold: seq<Gold>, ranking: seq<string>, d: Weight): real
    requires Dcg(IdealGains(gold), d) != 0.0
  {
    Dcg(Gains(gold, Take(ranking, 10)), d) / Dcg(IdealGains(gold), d)
  }

  lemma Quotient(a: real, b: real)
    requires b > 0.0
    ensures 0.0 <= a <= b ==> 0.0 <= a / b <= 1.0
    ensures a / b == 1.0 <==> a == b
  {
  }

  /** Each of the ten ranks has the ideal gain. */
  ghost predicate Perfect(gold: seq<Gold>, ranking: seq<string>) {
    forall i :: 0 <= i < 10 ==> Entry(IdealGains(gold), i) == Entry(Gains(gold, Take(ranking, 10)), i)
  }

  /** For every gold grading and every ranking without repetitions nDCG lies between zero and one,
      and it is one exactly when each of the ten ranks has the ideal gain. */
  lemma NdcgBounds(gold: seq<Gold>, ranking: seq<string>, d: Weight)
    requires GoldOk(gold) && gold != [] && Distinct(ranking) && Falling(d)
    ensures Dcg(IdealGains(gold), d) > 0.0
    ensures 0.0 <= Ndcg(gold, ranking, d) <= 1.0
    ensures Ndcg(gold, ranking, d) == 1.0 <==> Perfect(gold, ranking)
  {
    var a, b := IdealGains(gold), Gains(gold, Take(ranking, 10));
    IdealPositive(gold, d);
    GainOrder();
    WeightedSign(b, d, |b|);
    WeightedPast(a, d, 10);
    WeightedPast(b, d, 10);
    forall k | 0 <= k <= 10 ensures Prefix(b, k) <= Prefix(a, k) {
      IdealDominates(gold, Take(ranking, 10), k);
    }
    AtMost(a, b, d, 10);
    Quotient(Dcg(b, d), Dcg(a, d));
    if Dcg(b, d) == Dcg(a, d) {
      Tight(a, b, d, 10);
    }
    if Perfect(gold, ranking) {
      SameEntries(a, b, d, 10);
    }
  }

  // ---- gold contracts first -------------------------------------------------------------------------------------

  /** The first ranks are gold contracts in falling grade, as many as fit into ten, and no gold
      contract behind them has a higher grade. */
  ghost predicate GoldFirst(gold: seq<Gold>, ranking: seq<string>, m: nat) {
    && m == (if |gold| < 10 then |gold| else 10) && m <= |ranking|
    && (forall i :: 0 <= i < m ==> IsGold(gold, ranking[i]))
    && GradesFall(gold, ranking, m) && OthersLower(gold, ranking, m)
  }

  ghost predicate GradesFall(gold: seq<Gold>, ranking: seq<string>, m: nat)
    requires m <= |ranking|
  {
    forall i, j :: 0 <= i < j < m ==> Grade(gold, ranking[i]) >= Grade(gold, ranking[j])
  }

  ghost predicate OthersLower(gold: seq<Gold>, ranking: seq<string>, m: nat)
    requires m <= |ranking|
  {
    forall i, k :: 0 <= i < m && 0 <= k < |gold| && gold[k].contract !in ranking[..m] ==>
      Grade(gold, ranking[i]) >= gold[k].grade
  }

  lemma {:induction false} HeldAt(gold: seq<Gold>, ranking: seq<string>)
    ensures forall k :: 0 <= k < |gold| ==> (Held(gold, ranking)[k] <==> gold[k].contract in ranking)
  {
    if gold != [] {
      HeldAt(gold[..|gold| - 1], ranking);
    }
  }

  lemma {:induction false} AllHeld(gold: seq<Gold>, ranking: seq<string>, n: nat)
    requires GoldOk(gold) && Distinct(ranking) && n <= |ranking| && forall i :: 0 <= i < n ==> IsGold(gold, ranking[i])
    ensures HeldCount(gold, Take(ranking, n)) == n
  {
    if n == 0 {
      HeldNone(gold);
      assert Take(ranking, 0) == [];
    } else {
      AllHeld(gold, ranking, n - 1);
      TakeStep(ranking, n);
      HeldAdd(gold, Take(ranking, n - 1), ranking[n - 1]);
    }
  }

  lemma GradeInside(gold: seq<Gold>, ranking: seq<string>, m: nat, n: nat, contract: string)
    requires 0 < n <= m <= |ranking| && GradesFall(gold, ranking, m) && contract in ranking[..n]
    ensures Grade(gold, contract) >= Grade(gold, ranking[n - 1])
  {
    var i :| 0 <= i < n && ranking[..n][i] == contract;
    assert ranking[i] == contract;
  }

  lemma GradeBetween(gold: seq<Gold>, ranking: seq<string>, m: nat, n: nat, contract: string)
    requires 0 < n <= m <= |ranking| && GradesFall(gold, ranking, m)
    requires contract in ranking[..m] && contract !in ranking[..n]
    ensures Grade(gold, contract) <= Grade(gold, ranking[n - 1])
  {
    var i :| 0 <= i < m && ranking[..m][i] == contract;
    assert ranking[i] == contract;
    assert forall j :: 0 <= j < n ==> ranking[..n][j] == ranking[j] && ranking[j] in ranking[..n];
    assert i >= n;
  }

  lemma GradeOrder(gold: seq<Gold>, ranking: seq<string>, m: nat, n: nat, k: nat)
    requires GoldOk(gold) && GoldFirst(gold, ranking, m) && 0 < n <= m && k < |gold|
    ensures var limit := Grade(gold, ranking[n - 1]);
      if gold[k].contract in ranking[..n] then gold[k].grade >= limit else gold[k].grade <= limit
  {
    GradeOf(gold, gold[k].contract);
    if gold[k].contract in ranking[..n] {
      GradeInside(gold, ranking, m, n, gold[k].contract);
    } else if gold[k].contract in ranking[..m] {
      GradeBetween(gold, ranking, m, n, gold[k].contract);
    }
  }

  lemma GoldFirstSplits(gold: seq<Gold>, ranking: seq<string>, m: nat, n: nat)
    requires GoldOk(gold) && Distinct(ranking) && GoldFirst(gold, ranking, m) && 0 < n <= m
    ensures |Grades(gold)| == |gold|
    ensures Splits(Grades(gold), Held(gold, Take(ranking, n)), Gain, Gain(Grade(gold, ranking[n - 1])))
  {
    var r, limit := Take(ranking, n), Grade(gold, ranking[n - 1]);
    GradesLength(gold);
    HeldAt(gold, r);
    assert r == ranking[..n];
    GainOrder();
    forall k | 0 <= k < |gold|
      ensures if Held(gold, r)[k] then Gain(Grades(gold)[k]) >= Gain(limit) else 0.0 <= Gain(Grades(gold)[k]) <= Gain(limit)
    {
      GradeOrder(gold, ranking, m, n, k);
      assert AsReal(Grades(gold)[k]) >= AsReal(limit) || AsReal(limit) >= AsReal(Grades(gold)[k]);
    }
  }

  lemma {:induction false} GoldFirstReaches(gold: seq<Gold>, ranking: seq<string>, m: nat, n: nat)
    requires GoldOk(gold) && Distinct(ranking) && GoldFirst(gold, ranking, m) && n <= m
    ensures Prefix(Gains(gold, ranking), n) == Prefix(IdealGains(gold), n)
  {
    if n > 0 {
      var r, limit := Take(ranking, n), Gain(Grade(gold, ranking[n - 1]));
      GainOrder();
      IdealPrefix(gold, n);
      SameOrder(Grades(gold), AsReal, Gain);
      GoldFirstSplits(gold, ranking, m, n);
      ChoiceIsTop(Grades(gold), Held(gold, r), Gain, limit, n);
      HeldChosen(gold, r);
      AllHeld(gold, ranking, n);
      CumulatedHeld(gold, ranking, n);
      IdealDominates(gold, ranking, n);
    }
  }

  /** With fewer than ten gold contracts, nothing is left to gain behind them. */
  lemma BehindGold(gold: seq<Gold>, ranking: seq<string>, m: nat, i: nat)
    requires GoldOk(gold) && Distinct(ranking) && GoldFirst(gold, ranking, m) && m <= i < 10
    ensures Entry(IdealGains(gold), i) == 0.0 && Entry(Gains(gold, ranking), i) == 0.0
  {
    GradesLength(gold);
    SortMembers(Grades(gold), AsReal);
    if i < |ranking| {
      GradeOf(gold, ranking[i]);
      AllHeld(gold, ranking, m);
      assert ranking[i] !in Take(ranking, m);
      HeldAdd(gold, Take(ranking, m), ranking[i]);
      HeldBounded(gold, Take(ranking, m) + [ranking[i]]);
    }
  }

  lemma {:induction false} HeldBounded(gold: seq<Gold>, ranking: seq<string>)
    ensures HeldCount(gold, ranking) <= |gold|
  {
    if gold != [] {
      HeldBounded(gold[..|gold| - 1], ranking);
    }
  }

  lemma {:induction false} GoldFirstInside(gold: seq<Gold>, ranking: seq<string>, m: nat, i: nat)
    requires GoldOk(gold) && Distinct(ranking) && GoldFirst(gold, ranking, m) && i < m
    ensures Entry(IdealGains(gold), i) == Entry(Gains(gold, ranking), i)
  {
    var a, b := IdealGains(gold), Gains(gold, ranking);
    GoldFirstReaches(gold, ranking, m, i);
    GoldFirstReaches(gold, ranking, m, i + 1);
    PrefixEntry(a, b, i);
  }

  lemma {:induction false} GoldFirstEntry(gold: seq<Gold>, ranking: seq<string>, m: nat, i: nat)
    requires GoldOk(gold) && Distinct(ranking) && GoldFirst(gold, ranking, m) && i < 10
    ensures Entry(IdealGains(gold), i) == Entry(Gains(gold, ranking), i)
  {
    if i < m {
      GoldFirstInside(gold, ranking, m, i);
    } else {
      BehindGold(gold, ranking, m, i);
    }
  }

  lemma TopTen(gold: seq<Gold>, ranking: seq<string>, i: nat)
    requires i < 10
    ensures Entry(Gains(gold, Take(ranking, 10)), i) == Entry(Gains(gold, ranking), i)
  {
  }

  /** A ranking with the gold contracts first, in falling grade, has nDCG one. */
  lemma GoldFirstIsPerfect(gold: seq<Gold>, ranking: seq<string>, d: Weight, m: nat)
    requires GoldOk(gold) && gold != [] && Distinct(ranking) && Falling(d) && GoldFirst(gold, ranking, m)
    ensures Dcg(IdealGains(gold), d) > 0.0 && Ndcg(gold, ranking, d) == 1.0
  {
    forall i | 0 <= i < 10 ensures Entry(IdealGains(gold), i) == Entry(Gains(gold, Take(ranking, 10)), i) {
      GoldFirstEntry(gold, ranking, m, i);
      TopTen(gold, ranking, i);
    }
    NdcgBounds(gold, ranking, d);
  }
}
