/** What the corpus builder gives the job protocol: a configuration the protocol proofs accept. */
module CorpusProofs {
  import opened Evidence
  import opened Reduction
  import opened Packing
  import opened Corpus
  import opened Ledger

  lemma {:induction false} UnitsCount(units: seq<MapUnit>, i: nat, page: nat, pos: nat)
    requires i < |units|
    ensures CoverCount(units[i].sources, page, pos) <= CoverCount(UnitSources(units), page, pos)
  {
    var n := |units| - 1;
    CoverConcat(UnitSources(units[..n]), units[n].sources, page, pos);
    if i < n {
      UnitsCount(units[..n], i, page, pos);
    }
  }

  lemma {:induction false} UnitsCountTwo(units: seq<MapUnit>, i: nat, j: nat, page: nat, pos: nat)
    requires i < j < |units|
    ensures CoverCount(units[i].sources, page, pos) + CoverCount(units[j].sources, page, pos)
         <= CoverCount(UnitSources(units), page, pos)
  {
    var n := |units| - 1;
    CoverConcat(UnitSources(units[..n]), units[n].sources, page, pos);
    if j < n {
      UnitsCountTwo(units[..n], i, j, page, pos);
    } else {
      UnitsCount(units[..n], i, page, pos);
    }
  }

  lemma StartCount(c: Contract, units: seq<MapUnit>, s: Source)
    requires CoveredOnce(c.pages, UnitSources(units)) && OnPage(c.pages, s) && s.text != []
    ensures CoverCount(UnitSources(units), s.page, s.start) <= 1
  {
    var m :| 0 <= m < |c.pages| && c.pages[m].page == s.page && s.End() <= |c.pages[m].text|
             && s.text == c.pages[m].text[s.start..s.End()];
    assert OncePosition(c.pages[m].text, s.start, CoverCount(UnitSources(units), c.pages[m].page, s.start));
  }

  /** Single coverage makes the units of a contract, and hence their ids, distinct. */
  lemma ContractUnitsDistinct(c: Contract, query: string, maxInput: nat, units: seq<MapUnit>)
    requires ContractOk(c, query, maxInput, units)
    ensures Distinct(units)
  {
    forall i, j | 0 <= i < j < |units| ensures units[i] != units[j] {
      assert UnitOf(c, query, maxInput, units[i]);
      var s := units[i].sources[0];
      StartCount(c, units, s);
      CoverOne(units[i].sources, 0, s.page, s.start);
      UnitsCountTwo(units, i, j, s.page, s.start);
    }
  }

  /** The place of an element of a flattened sequence. */
  lemma {:induction false} FlattenAt<T>(ss: seq<seq<T>>, k: nat) returns (i: nat, j: nat)
    requires k < |Flatten(ss)|
    ensures i < |ss| && j < |ss[i]| && ss[i][j] == Flatten(ss)[k]
  {
    if k < |ss[0]| {
      i, j := 0, k;
    } else {
      i, j := FlattenAt(ss[1..], k - |ss[0]|);
      i := i + 1;
    }
  }

  ghost predicate Apart<T>(a: seq<T>, b: seq<T>) {
    forall i, j :: 0 <= i < |a| && 0 <= j < |b| ==> a[i] != b[j]
  }

  lemma {:induction false} ApartAll<T>(a: seq<T>, ss: seq<seq<T>>)
    requires forall i :: 0 <= i < |ss| ==> Apart(a, ss[i])
    ensures Apart(a, Flatten(ss))
  {
    forall i, k | 0 <= i < |a| && 0 <= k < |Flatten(ss)| ensures a[i] != Flatten(ss)[k] {
      var m, j := FlattenAt(ss, k);
    }
  }

  lemma {:induction false} FlattenDistinct<T>(ss: seq<seq<T>>)
    requires forall i :: 0 <= i < |ss| ==> Distinct(ss[i])
    requires forall i, j :: 0 <= i < j < |ss| ==> Apart(ss[i], ss[j])
    ensures Distinct(Flatten(ss))
  {
    if ss != [] {
      FlattenDistinct(ss[1..]);
      ApartAll(ss[0], ss[1..]);
    }
  }

  lemma UnitFits(c: Contract, query: string, maxInput: nat, units: seq<MapUnit>, k: nat)
    requires ContractOk(c, query, maxInput, units) && k < |units|
    ensures units[k].contract == c.id && MapPromptCharacters(query, units[k]) <= maxInput
  {
    assert UnitOf(c, query, maxInput, units[k]);
  }

  /** Every unit of a plan fits its prompt. */
  lemma PlanFits(contracts: seq<Contract>, query: string, maxInput: nat, plan: seq<seq<MapUnit>>, k: nat)
    requires PlanOk(contracts, query, maxInput, plan) && k < |Flatten(plan)|
    ensures MapPromptCharacters(query, Flatten(plan)[k]) <= maxInput
  {
    var i, j := FlattenAt(plan, k);
    UnitFits(contracts[i], query, maxInput, plan[i], j);
  }

  ghost predicate DistinctIds(contracts: seq<Contract>) {
    forall i, j :: 0 <= i < j < |contracts| ==> contracts[i].id != contracts[j].id
  }

  lemma PlansApart(contracts: seq<Contract>, query: string, maxInput: nat, plan: seq<seq<MapUnit>>, i: nat, j: nat)
    requires PlanOk(contracts, query, maxInput, plan) && DistinctIds(contracts) && i < j < |plan|
    ensures Apart(plan[i], plan[j])
  {
    forall a, b | 0 <= a < |plan[i]| && 0 <= b < |plan[j]| ensures plan[i][a] != plan[j][b] {
      UnitFits(contracts[i], query, maxInput, plan[i], a);
      UnitFits(contracts[j], query, maxInput, plan[j], b);
    }
  }

  /** No two units of a plan are equal, so their ids are distinct. */
  lemma PlanDistinct(contracts: seq<Contract>, query: string, maxInput: nat, plan: seq<seq<MapUnit>>)
    requires PlanOk(contracts, query, maxInput, plan) && DistinctIds(contracts)
    ensures Distinct(Flatten(plan))
  {
    forall i | 0 <= i < |plan| ensures Distinct(plan[i]) {
      ContractUnitsDistinct(contracts[i], query, maxInput, plan[i]);
    }
    forall i, j | 0 <= i < j < |plan| ensures Apart(plan[i], plan[j]) {
      PlansApart(contracts, query, maxInput, plan, i, j);
    }
    FlattenDistinct(plan);
  }

  /** A corpus plan, a valid profile and an admissible query form a valid job configuration. */
  lemma PlanGivesConfig(contracts: seq<Contract>, plan: seq<seq<MapUnit>>, c: Config)
    requires c.profile.Valid() && |c.query| <= MAX_QUERY_CHARACTERS
    requires PlanOk(contracts, c.query, c.profile.maxInput, plan) && DistinctIds(contracts)
    requires |plan| > 0 && |Flatten(plan)| <= MAX_MAP_UNITS && c.Units() == Flatten(plan)
    ensures c.Valid()
  {
    PlanDistinct(contracts, c.query, c.profile.maxInput, plan);
    forall u | u in c.Units() ensures 0 < MapPromptCharacters(c.query, u) <= c.profile.maxInput {
      var k :| 0 <= k < |Flatten(plan)| && Flatten(plan)[k] == u;
      PlanFits(contracts, c.query, c.profile.maxInput, plan, k);
    }
    assert ContractOk(contracts[0], c.query, c.profile.maxInput, plan[0]);
    FlattenHas(plan, 0, 0);
  }
}
