/** What a sequence of evidence bundles shows, and that merging groups into it loses nothing. */
module Bundles {
  import opened ClauseGroup
  import opened Merging

  /** Something a bundle can hold. */
  datatype Fact = NodeFact(id: string) | LinkFact(node: string, link: Link) | MatchFact(match_: string) | BodyFact(body: StructureNode)

  ghost predicate Tells(b: Bundle, f: Fact) {
    match f
    case NodeFact(id) => HasId(b.nodes, id)
    case LinkFact(node, link) => HasLink(b.nodes, node, link)
    case MatchFact(id) => HasMatch(b.matches, id)
    case BodyFact(body) => HasBody(b.nodes, body)
  }

  ghost predicate Shows(bs: seq<Bundle>, contract: string, f: Fact) {
    exists i :: 0 <= i < |bs| && bs[i].contract == contract && Tells(bs[i], f)
  }

  ghost predicate AllOk(bs: seq<Bundle>) {
    forall i :: 0 <= i < |bs| ==> BundleOk(bs[i])
  }

  /** One bundle for each contract. */
  ghost predicate OneEach(bs: seq<Bundle>) {
    && AllOk(bs)
    && forall i, j :: 0 <= i < j < |bs| ==> bs[i].contract != bs[j].contract
  }

  function ContractSlot(bs: seq<Bundle>, contract: string): (k: nat)
    ensures k <= |bs| && (k < |bs| ==> bs[k].contract == contract)
    ensures k == |bs| ==> forall i :: 0 <= i < |bs| ==> bs[i].contract != contract
  {
    if bs == [] then 0
    else
      var k := ContractSlot(bs[..|bs| - 1], contract);
      if k < |bs| - 1 then k else if bs[|bs| - 1].contract == contract then |bs| - 1 else |bs|
  }

  function Merged(bs: seq<Bundle>, group: Bundle): (r: seq<Bundle>)
    requires OneEach(bs) && BundleOk(group)
    ensures OneEach(r)
  {
    var k := ContractSlot(bs, group.contract);
    if k < |bs| then bs[k := MergeBundle(bs[k], group)] else bs + [group]
  }

  /** `_merge`. */
  method Merge(bundles: seq<Bundle>, group: Bundle) returns (r: seq<Bundle>)
    requires OneEach(bundles) && BundleOk(group)
    ensures r == Merged(bundles, group)
  {
    for index := 0 to |bundles|
      invariant forall i :: 0 <= i < index ==> bundles[i].contract != group.contract
    {
      if bundles[index].contract == group.contract {
        return bundles[index := MergeBundle(bundles[index], group)];
      }
    }
    r := bundles + [group];
  }

  /** The group has no other content for a node whose content the fact states. */
  ghost predicate Undisputed(group: Bundle, f: Fact) {
    f.BodyFact? ==> OnlyBody(group.nodes, f.body)
  }

  lemma MergedBundleTells(previous: Bundle, group: Bundle, f: Fact)
    requires BundleOk(previous) && BundleOk(group)
    ensures Tells(MergeBundle(previous, group), f) ==> Tells(previous, f) || Tells(group, f)
    ensures Undisputed(group, f) && (Tells(previous, f) || Tells(group, f)) ==> Tells(MergeBundle(previous, group), f)
  {
    MergeNodesFacts(previous, group);
    if f.BodyFact? && OnlyBody(group.nodes, f.body) && (HasBody(previous.nodes, f.body) || HasBody(group.nodes, f.body)) {
      MergeNodesBodies(previous, group, f.body);
    }
  }

  lemma MergedShowsOnly(bs: seq<Bundle>, group: Bundle, contract: string, f: Fact)
    requires OneEach(bs) && BundleOk(group) && Shows(Merged(bs, group), contract, f)
    ensures Shows(bs, contract, f) || (group.contract == contract && Tells(group, f))
  {
    var k, r := ContractSlot(bs, group.contract), Merged(bs, group);
    var i :| 0 <= i < |r| && r[i].contract == contract && Tells(r[i], f);
    if i != k {
      assert bs[i] == r[i];
    } else if k < |bs| {
      MergedBundleTells(bs[k], group, f);
    }
  }

  lemma MergedShowsAll(bs: seq<Bundle>, group: Bundle, contract: string, f: Fact)
    requires OneEach(bs) && BundleOk(group) && (group.contract == contract ==> Undisputed(group, f))
    requires Shows(bs, contract, f) || (group.contract == contract && Tells(group, f))
    ensures Shows(Merged(bs, group), contract, f)
  {
    var k, r := ContractSlot(bs, group.contract), Merged(bs, group);
    if k < |bs| {
      MergedBundleTells(bs[k], group, f);
    }
    if Shows(bs, contract, f) {
      var i :| 0 <= i < |bs| && bs[i].contract == contract && Tells(bs[i], f);
      assert r[i].contract == contract && Tells(r[i], f);
    } else {
      assert r[k].contract == contract && Tells(r[k], f);
    }
  }

  // ---- how many contracts --------------------------------------------------------------------------------------

  function ContractsOf(groups: seq<Bundle>): set<string> {
    set i | 0 <= i < |groups| :: groups[i].contract
  }

  lemma ContractsSnoc(bs: seq<Bundle>, g: Bundle)
    ensures ContractsOf(bs + [g]) == ContractsOf(bs) + {g.contract}
  {
    var all := bs + [g];
    assert all[|bs|] == g;
    forall c | c in ContractsOf(bs) ensures c in ContractsOf(all) {
      var i :| 0 <= i < |bs| && bs[i].contract == c;
      assert all[i].contract == c;
    }
  }

  lemma SameContracts(a: seq<Bundle>, b: seq<Bundle>)
    requires |a| == |b| && forall i :: 0 <= i < |a| ==> a[i].contract == b[i].contract
    ensures ContractsOf(a) == ContractsOf(b)
  {
    assert forall i :: 0 <= i < |a| ==> b[i].contract in ContractsOf(a) && a[i].contract in ContractsOf(b);
  }

  lemma {:induction false} DistinctContracts(bs: seq<Bundle>)
    requires OneEach(bs)
    ensures |ContractsOf(bs)| == |bs|
  {
    if bs != [] {
      var n := |bs| - 1;
      DistinctContracts(bs[..n]);
      assert bs == bs[..n] + [bs[n]];
      ContractsSnoc(bs[..n], bs[n]);
    }
  }

  lemma MergedContracts(bs: seq<Bundle>, g: Bundle)
    requires OneEach(bs) && BundleOk(g)
    ensures ContractsOf(Merged(bs, g)) == ContractsOf(bs) + {g.contract}
  {
    var k := ContractSlot(bs, g.contract);
    if k < |bs| {
      assert bs[k].contract in ContractsOf(bs);
      SameContracts(bs, Merged(bs, g));
    } else {
      ContractsSnoc(bs, g);
    }
  }
}
