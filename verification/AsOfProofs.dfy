/** When the `as_of` rule covers every lineage, and when its two rules agree. */
module AsOfProofs {
  import opened Evidence
  import opened AsOf

  // ---- finite injections -------------------------------------------------------------------------------------------

  ghost predicate Injective<T(!new)>(e: set<T>, f: T -> T) {
    forall x, y :: x in e && y in e && f(x) == f(y) ==> x == y
  }

  ghost function Image<T(!new)>(e: set<T>, f: T -> T): set<T> {
    set x | x in e :: f(x)
  }

  lemma {:induction false} ImageSize<T(!new)>(e: set<T>, f: T -> T)
    requires Injective(e, f)
    ensures |Image(e, f)| == |e|
    decreases |e|
  {
    if e != {} {
      var x :| x in e;
      var rest := e - {x};
      ImageSize(rest, f);
      assert Image(e, f) == Image(rest, f) + {f(x)};
    }
  }

  /** An injection of a finite set into itself reaches every element. */
  lemma InjectionCovers<T(!new)>(e: set<T>, f: T -> T, y: T) returns (x: T)
    requires Injective(e, f) && Image(e, f) <= e && y in e
    ensures x in e && f(x) == y
  {
    ImageSize(e, f);
    FullSubset(Image(e, f), e);
    assert y in Image(e, f);
    x :| x in e && f(x) == y;
  }

  lemma FullSubset<T>(a: set<T>, b: set<T>)
    requires a <= b && |a| == |b|
    ensures a == b
  {
    assert |b - a| == |b| - |a|;
  }

  // ---- permutations of the eligible revisions ------------------------------------------------------------------------

  /** Supersession stays within lineages. */
  predicate WithinLineage(revs: seq<Revision>) {
    forall i, j :: 0 <= i < |revs| && 0 <= j < |revs| && revs[i].supersedes == Some(revs[j].id) ==>
      revs[i].lineage == revs[j].lineage
  }

  ghost function EligibleIds(revs: seq<Revision>, asOf: nat, lineage: string): set<string> {
    set i | 0 <= i < |revs| && revs[i].lineage == lineage && Eligible(revs[i], asOf) :: revs[i].id
  }

  /** Which revision each revision names as its predecessor. */
  ghost function Supersession(revs: seq<Revision>): map<string, string> {
    if revs == [] then map[]
    else
      var front, r := Supersession(revs[..|revs| - 1]), revs[|revs| - 1];
      if r.supersedes.Some? then front[r.id := r.supersedes.value] else front
  }

  lemma {:induction false} SupersessionIs(revs: seq<Revision>, i: nat, x: string)
    requires UniqueRevisions(revs) && i < |revs|
    ensures revs[i].supersedes == Some(x) <==> revs[i].id in Supersession(revs) && Supersession(revs)[revs[i].id] == x
  {
    var n := |revs| - 1;
    if i < n {
      SupersessionIs(revs[..n], i, x);
    } else {
      SupersessionKeys(revs[..n], revs[n].id);
    }
  }

  lemma {:induction false} SupersessionKeys(revs: seq<Revision>, id: string)
    requires forall i :: 0 <= i < |revs| ==> revs[i].id != id
    ensures id !in Supersession(revs)
  {
    if revs != [] {
      SupersessionKeys(revs[..|revs| - 1], id);
    }
  }

  /** Each member names a member as predecessor, no two the same: the set consists of cycles. */
  ghost predicate Permutes<T(!new)>(sup: map<T, T>, e: set<T>) {
    && e <= sup.Keys
    && (forall x {:trigger sup[x]} :: x in e ==> sup[x] in e)
    && (forall x, y {:trigger sup[x], sup[y]} :: x in e && y in e && sup[x] == sup[y] ==> x == y)
  }

  ghost predicate Succeeded<T(!new)>(sup: map<T, T>, e: set<T>, x: T) {
    exists y :: y in e && y in sup && sup[y] == x
  }

  ghost predicate Covers<T(!new)>(sup: map<T, T>, e: set<T>) {
    forall x {:trigger Succeeded(sup, e, x)} :: x in e ==> Succeeded(sup, e, x)
  }

  ghost function Successor<T(!new)>(sup: map<T, T>, e: set<T>, x: T): (y: T)
    ensures Succeeded(sup, e, x) ==> y in e && y in sup && sup[y] == x
  {
    if Succeeded(sup, e, x) then
      var y :| y in e && y in sup && sup[y] == x;
      y
    else x
  }

  /** `f` maps each member to a member whose predecessor it is. */
  ghost predicate Inverts<T(!new)>(sup: map<T, T>, e: set<T>, f: T -> T) {
    forall x {:trigger f(x)} :: x in e ==> f(x) in e && f(x) in sup && sup[f(x)] == x
  }

  lemma InversePermutes<T(!new)>(sup: map<T, T>, e: set<T>, f: T -> T, y: T)
    requires Inverts(sup, e, f) && y in e
    ensures y in sup && sup[y] in e && f(sup[y]) == y
  {
    var x := InjectionCovers(e, f, y);
  }

  lemma CoversPermutes<T(!new)>(sup: map<T, T>, e: set<T>)
    requires Covers(sup, e)
    ensures Permutes(sup, e)
  {
    var f := (x: T) => Successor(sup, e, x);
    assert Inverts(sup, e, f);
    forall y | y in e ensures y in sup {
      InversePermutes(sup, e, f, y);
    }
    forall y | y in e ensures sup[y] in e && f(sup[y]) == y {
      InversePermutes(sup, e, f, y);
    }
  }

  lemma PermutesCovers<T(!new)>(sup: map<T, T>, e: set<T>)
    requires Permutes(sup, e)
    ensures Covers(sup, e)
  {
    var f := (x: T) => if x in sup then sup[x] else x;
    assert Injective(e, f);
    assert Image(e, f) <= e;
    forall y | y in e ensures Succeeded(sup, e, y) {
      var x := InjectionCovers(e, f, y);
      assert x in sup && sup[x] == y;
    }
  }

  /** By counting: every eligible revision has an eligible successor exactly when supersession
      permutes the eligible revisions. */
  lemma CoversIffPermutes<T(!new)>(sup: map<T, T>, e: set<T>)
    ensures Covers(sup, e) <==> Permutes(sup, e)
  {
    if Covers(sup, e) {
      CoversPermutes(sup, e);
    }
    if Permutes(sup, e) {
      PermutesCovers(sup, e);
    }
  }

  lemma SupersededIsSucceeded(revs: seq<Revision>, asOf: nat, lineage: string, k: nat)
    requires UniqueRevisions(revs) && WithinLineage(revs) && k < |revs| && revs[k].lineage == lineage
    requires Superseded(revs, asOf, revs[k].id)
    ensures Succeeded(Supersession(revs), EligibleIds(revs, asOf, lineage), revs[k].id)
  {
    var i :| 0 <= i < |revs| && Eligible(revs[i], asOf) && revs[i].supersedes == Some(revs[k].id)
             && NonMonotonic(revs, revs[i].lineage);
    SupersessionIs(revs, i, revs[k].id);
    assert revs[i].id in EligibleIds(revs, asOf, lineage);
  }

  lemma SucceededIsSuperseded(revs: seq<Revision>, asOf: nat, lineage: string, x: string)
    requires UniqueRevisions(revs) && NonMonotonic(revs, lineage)
    requires Succeeded(Supersession(revs), EligibleIds(revs, asOf, lineage), x)
    ensures Superseded(revs, asOf, x)
  {
    var y := Successor(Supersession(revs), EligibleIds(revs, asOf, lineage), x);
    var i :| 0 <= i < |revs| && revs[i].lineage == lineage && Eligible(revs[i], asOf) && revs[i].id == y;
    SupersessionIs(revs, i, x);
  }

  lemma AllSupersededCovers(revs: seq<Revision>, asOf: nat, lineage: string)
    requires UniqueRevisions(revs) && WithinLineage(revs) && AllSuperseded(revs, asOf, lineage)
    ensures Covers(Supersession(revs), EligibleIds(revs, asOf, lineage))
  {
    forall x | x in EligibleIds(revs, asOf, lineage)
      ensures Succeeded(Supersession(revs), EligibleIds(revs, asOf, lineage), x)
    {
      var k :| 0 <= k < |revs| && revs[k].lineage == lineage && Eligible(revs[k], asOf) && revs[k].id == x;
      assert Superseded(revs, asOf, revs[k].id);
      SupersededIsSucceeded(revs, asOf, lineage, k);
    }
  }

  lemma CoversAllSuperseded(revs: seq<Revision>, asOf: nat, lineage: string)
    requires UniqueRevisions(revs) && NonMonotonic(revs, lineage)
    requires Covers(Supersession(revs), EligibleIds(revs, asOf, lineage))
    ensures AllSuperseded(revs, asOf, lineage)
  {
    forall k | 0 <= k < |revs| && revs[k].lineage == lineage && Eligible(revs[k], asOf)
      ensures Superseded(revs, asOf, revs[k].id)
    {
      assert revs[k].id in EligibleIds(revs, asOf, lineage);
      assert Succeeded(Supersession(revs), EligibleIds(revs, asOf, lineage), revs[k].id);
      SucceededIsSuperseded(revs, asOf, lineage, revs[k].id);
    }
  }

  /** Where supersession stays within lineages, a lineage with an eligible revision is missing from
      the selection exactly when a successor was backdated, its eligible revisions form
      supersession cycles, and it has no undated ambiguous revision. */
  lemma MissingIffCyclic(revs: seq<Revision>, asOf: nat, lineage: string)
    requires UniqueRevisions(revs) && WithinLineage(revs) && HasEligible(revs, asOf, lineage)
    ensures !HasSelected(revs, asOf, lineage) <==>
      && NonMonotonic(revs, lineage) && !HasUndated(revs, lineage)
      && Permutes(Supersession(revs), EligibleIds(revs, asOf, lineage))
  {
    MissingLineage(revs, asOf, lineage);
    if NonMonotonic(revs, lineage) {
      CoversIffPermutes(Supersession(revs), EligibleIds(revs, asOf, lineage));
      if AllSuperseded(revs, asOf, lineage) {
        AllSupersededCovers(revs, asOf, lineage);
      } else if Covers(Supersession(revs), EligibleIds(revs, asOf, lineage)) {
        CoversAllSuperseded(revs, asOf, lineage);
      }
    }
  }

  /** Two revisions that supersede each other, the one backdated: nothing is selected. */
  lemma CycleLosesLineage()
    ensures var a := Revision("a", "card", Some(1), CurrentRevision, Some("b"));
            var b := Revision("b", "card", Some(2), SupersededRevision, Some("a"));
      HasEligible([a, b], 5, "card") && OneEach(Selected([a, b], 5)) && !HasSelected([a, b], 5, "card")
  {
    var a := Revision("a", "card", Some(1), CurrentRevision, Some("b"));
    var b := Revision("b", "card", Some(2), SupersededRevision, Some("a"));
    var revs := [a, b];
    assert revs[0] == a && revs[1] == b;
    assert Backdates(revs[0], revs[1]);
    assert NonMonotonic(revs, "card");
    assert Superseded(revs, 5, "b") by { assert Eligible(revs[0], 5) && revs[0].supersedes == Some("b"); }
    assert Superseded(revs, 5, "a") by { assert Eligible(revs[1], 5) && revs[1].supersedes == Some("a"); }
    assert HasEligible(revs, 5, "card") by { assert Eligible(revs[0], 5) && revs[0].lineage == "card"; }
    MissingLineage(revs, 5, "card");
    var selected := Selected(revs, 5);
    if selected != [] {
      SelectedMembers(revs, 5, selected[0]);
    }
  }

  // ---- validated tables ---------------------------------------------------------------------------------------------

  function Row(revs: seq<Revision>, id: string): (k: nat)
    ensures k <= |revs| && (k < |revs| ==> revs[k].id == id)
    ensures k == |revs| ==> forall i :: 0 <= i < |revs| ==> revs[i].id != id
  {
    if revs == [] then 0
    else
      var k := Row(revs[..|revs| - 1], id);
      if k < |revs| - 1 then k else if revs[|revs| - 1].id == id then |revs| - 1 else |revs|
  }

  function Ids(revs: seq<Revision>): set<string> {
    set i | 0 <= i < |revs| :: revs[i].id
  }

  /** The walk along predecessors that the database check makes: it must end without a repetition
      and without leaving the lineage. */
  predicate ChainOk(revs: seq<Revision>, lineage: string, current: Option<string>, seen: set<string>)
    decreases |Ids(revs) - seen|
  {
    if current.None? then true
    else if current.value in seen then false
    else
      var k := Row(revs, current.value);
      if k == |revs| || revs[k].lineage != lineage then false
      else
        assert current.value in Ids(revs);
        assert Ids(revs) - (seen + {current.value}) == (Ids(revs) - seen) - {current.value};
        ChainOk(revs, lineage, revs[k].supersedes, seen + {current.value})
  }

  predicate TableOk(revs: seq<Revision>) {
    forall i :: 0 <= i < |revs| ==> ChainOk(revs, revs[i].lineage, revs[i].supersedes, {revs[i].id})
  }

  method CheckChain(revs: seq<Revision>, r: Revision) returns (ok: bool)
    ensures ok == ChainOk(revs, r.lineage, r.supersedes, {r.id})
  {
    var seen := {r.id};
    var current := r.supersedes;
    while current.Some?
      invariant ChainOk(revs, r.lineage, current, seen) == ChainOk(revs, r.lineage, r.supersedes, {r.id})
      decreases |Ids(revs) - seen|
    {
      if current.value in seen {
        return false;
      }
      var k := Row(revs, current.value);
      if k == |revs| || revs[k].lineage != r.lineage {
        return false;
      }
      assert current.value in Ids(revs);
      assert Ids(revs) - (seen + {current.value}) == (Ids(revs) - seen) - {current.value};
      seen := seen + {current.value};
      current := revs[k].supersedes;
    }
    ok := true;
  }

  method CheckTable(revs: seq<Revision>) returns (ok: bool)
    ensures ok == TableOk(revs)
  {
    for i := 0 to |revs|
      invariant forall k :: 0 <= k < i ==> ChainOk(revs, revs[k].lineage, revs[k].supersedes, {revs[k].id})
    {
      var chain := CheckChain(revs, revs[i]);
      if !chain {
        return false;
      }
    }
    ok := true;
  }

  lemma TableWithin(revs: seq<Revision>)
    requires UniqueRevisions(revs) && TableOk(revs)
    ensures WithinLineage(revs)
  {
    forall i, j | 0 <= i < |revs| && 0 <= j < |revs| && revs[i].supersedes == Some(revs[j].id)
      ensures revs[i].lineage == revs[j].lineage
    {
      assert ChainOk(revs, revs[i].lineage, revs[i].supersedes, {revs[i].id});
      var k := Row(revs, revs[j].id);
      assert k == j;
    }
  }

  /** A walk that never leaves a set in which everyone has a predecessor cannot be accepted. */
  lemma {:induction false} CycleRefused(revs: seq<Revision>, lineage: string, current: string, seen: set<string>, e: set<string>)
    requires UniqueRevisions(revs) && current in e && Permutes(Supersession(revs), e)
    ensures !ChainOk(revs, lineage, Some(current), seen)
    decreases |Ids(revs) - seen|
  {
    var k := Row(revs, current);
    if current !in seen && k < |revs| && revs[k].lineage == lineage {
      var next := Supersession(revs)[current];
      SupersessionIs(revs, k, next);
      assert current in Ids(revs);
      assert Ids(revs) - (seen + {current}) == (Ids(revs) - seen) - {current};
      CycleRefused(revs, lineage, next, seen + {current}, e);
    }
  }

  /** In a table that passes the database check, every lineage with an eligible revision is
      represented, and a returned selection holds exactly one revision of it. */
  lemma ValidTableCovered(revs: seq<Revision>, asOf: nat, lineage: string)
    requires UniqueRevisions(revs) && TableOk(revs) && HasEligible(revs, asOf, lineage)
    ensures HasSelected(revs, asOf, lineage)
    ensures OneEach(Selected(revs, asOf)) ==> Occurrences(Selected(revs, asOf), lineage) == 1
  {
    var e := EligibleIds(revs, asOf, lineage);
    TableWithin(revs);
    MissingIffCyclic(revs, asOf, lineage);
    var i :| 0 <= i < |revs| && revs[i].lineage == lineage && Eligible(revs[i], asOf);
    assert revs[i].id in e;
    assert ChainOk(revs, lineage, revs[i].supersedes, {revs[i].id});
    if Permutes(Supersession(revs), e) {
      var next := Supersession(revs)[revs[i].id];
      SupersessionIs(revs, i, next);
      CycleRefused(revs, lineage, next, {revs[i].id}, e);
    }
    var r :| InLineage(Selected(revs, asOf), lineage, r);
    var k :| 0 <= k < |Selected(revs, asOf)| && Selected(revs, asOf)[k] == r;
  }

  // ---- the two rules on ordinary chains --------------------------------------------------------------------------------

  /** A supersession chain with strictly rising dates. */
  ghost predicate RisingChain(chain: seq<Revision>) {
    && UniqueRevisions(chain)
    && (forall i :: 0 <= i < |chain| ==> chain[i].lineage == chain[0].lineage && chain[i].effective.Some?)
    && (chain != [] ==> chain[0].supersedes.None?)
    && (forall i {:trigger chain[i].supersedes} :: 0 < i < |chain| ==> chain[i].supersedes == Some(chain[i - 1].id))
    && (forall i, j :: 0 <= i < j < |chain| ==> chain[i].effective.value < chain[j].effective.value)
  }

  /** No eligible revision names it as predecessor. */
  ghost predicate Terminal(chain: seq<Revision>, asOf: nat, k: nat)
    requires k < |chain|
  {
    forall i :: 0 <= i < |chain| && Eligible(chain[i], asOf) ==> chain[i].supersedes != Some(chain[k].id)
  }

  /** On a chain with rising dates the end of the eligible chain is the latest eligible revision. */
  lemma RulesAgree(chain: seq<Revision>, asOf: nat, k: nat)
    requires RisingChain(chain) && k < |chain| && Eligible(chain[k], asOf)
    ensures Terminal(chain, asOf, k) <==> Latest(chain, asOf, chain[k])
  {
    if Terminal(chain, asOf, k) {
      forall i | 0 <= i < |chain| && Eligible(chain[i], asOf)
        ensures chain[i].effective.value <= chain[k].effective.value
      {
        if k < i {
          NextNames(chain, asOf, k, i);
        }
      }
    }
    if !Terminal(chain, asOf, k) {
      var i :| 0 <= i < |chain| && Eligible(chain[i], asOf) && chain[i].supersedes == Some(chain[k].id);
      assert i != 0;
      assert chain[i - 1].id == chain[k].id;
      assert chain[i].lineage == chain[k].lineage;
    }
  }

  lemma NextNames(chain: seq<Revision>, asOf: nat, k: nat, i: nat)
    requires RisingChain(chain) && k < i < |chain| && Eligible(chain[i], asOf)
    ensures !Terminal(chain, asOf, k)
  {
    assert k + 1 < i ==> chain[k + 1].effective.value < chain[i].effective.value;
    assert Eligible(chain[k + 1], asOf) && chain[k + 1].supersedes == Some(chain[k].id);
  }
}
