/** Document scores from row scores: the form over the whole list, and the streaming accumulator
    that keeps three child scores. Scores are reals. */
module Aggregation {
  import opened Evidence
  import opened Descending

  datatype View = ContractView | ChildView(name: string)

  datatype Row = Row(view: View, score: real)

  datatype Policy = MaxChild | Top3Mean | ContractPlusChild

  function Id(x: real): real { x }

  // ---- the form over the whole list ----------------------------------------------------------------------------

  function Children(rows: seq<Row>): seq<real> {
    if rows == [] then []
    else
      var front := Children(rows[..|rows| - 1]);
      if rows[|rows| - 1].view.ContractView? then front else front + [rows[|rows| - 1].score]
  }

  function Contracts(rows: seq<Row>): seq<real> {
    if rows == [] then []
    else
      var front := Contracts(rows[..|rows| - 1]);
      if rows[|rows| - 1].view.ContractView? then front + [rows[|rows| - 1].score] else front
  }

  function Maximum(s: seq<real>): (m: real)
    requires s != []
    ensures m in s && forall i :: 0 <= i < |s| ==> s[i] <= m
  {
    if |s| == 1 then s[0]
    else
      var m := Maximum(s[..|s| - 1]);
      if s[|s| - 1] > m then s[|s| - 1] else m
  }

  function Mean(s: seq<real>): real
    requires s != []
  {
    Sum(s, Id) / |s| as real
  }

  /** `aggregate_document_view_scores`; `None` is a raised error. */
  function Aggregate(rows: seq<Row>, policy: Policy): Option<real> {
    var children := Children(rows);
    if children == [] then None
    else
      match policy
      case MaxChild => Some(Maximum(children))
      case Top3Mean =>
        SortMembers(children, Id);
        Some(Mean(Take(Sort(children, Id), 3)))
      case ContractPlusChild =>
        var contracts := Contracts(rows);
        if |contracts| != 1 then None else Some(0.5 * contracts[0] + 0.5 * Maximum(children))
  }

  // ---- the accumulator -----------------------------------------------------------------------------------------

  datatype Totals = Totals(contract: Option<real>, top: seq<real>)

  /** What the accumulator holds after some rows; `None` after a second contract row. */
  ghost function After(rows: seq<Row>): Option<Totals> {
    if |Contracts(rows)| > 1 then None
    else Some(Totals(if Contracts(rows) == [] then None else Some(Contracts(rows)[0]),
                     Take(Sort(Children(rows), Id), 3)))
  }

  class ContractAccumulator {
    var contractScore: Option<real>
    var childScores: seq<real>

    ghost predicate Holds(rows: seq<Row>)
      reads this
    {
      After(rows) == Some(Totals(contractScore, childScores))
    }

    constructor ()
      ensures Holds([])
    {
      contractScore, childScores := None, [];
    }

    /** `add`: fails exactly on a second contract row, and then changes nothing. */
    method Add(row: Row, ghost rows: seq<Row>) returns (ok: bool)
      requires Holds(rows)
      modifies this
      ensures ok <==> !(row.view.ContractView? && Contracts(rows) != [])
      ensures ok ==> Holds(rows + [row])
      ensures !ok ==> After(rows + [row]) == None
      ensures !ok ==> contractScore == old(contractScore) && childScores == old(childScores)
    {
      RowSnoc(rows, row);
      if row.view.ContractView? {
        if contractScore.Some? {
          return false;
        }
        contractScore := Some(row.score);
      } else {
        KeepThree(Children(rows), row.score);
        childScores := Sort(childScores + [row.score], Id);
        childScores := Take(childScores, 3);
      }
      ok := true;
    }

    /** `scores`: an error unless there is one contract row and a child row. */
    method Scores(ghost rows: seq<Row>) returns (maxChild: Option<real>, topMean: Option<real>, mixed: Option<real>)
      requires Holds(rows)
      ensures |Contracts(rows)| == 1 && Children(rows) != [] ==>
        && maxChild == Aggregate(rows, MaxChild)
        && topMean == Aggregate(rows, Top3Mean)
        && mixed == Aggregate(rows, ContractPlusChild)
        && maxChild.Some? && topMean.Some? && mixed.Some?
      ensures |Contracts(rows)| != 1 || Children(rows) == [] ==> maxChild.None? && topMean.None? && mixed.None?
    {
      KeptScores(Children(rows));
      if contractScore.None? || childScores == [] {
        return None, None, None;
      }
      var ordered := Sort(childScores, Id);
      var best := ordered[0];
      ordered := Take(ordered, 3);
      maxChild := Some(best);
      topMean := Some(Mean(ordered));
      mixed := Some(0.5 * contractScore.value + 0.5 * best);
    }
  }

  lemma RowSnoc(rows: seq<Row>, row: Row)
    ensures Children(rows + [row]) == if row.view.ContractView? then Children(rows) else Children(rows) + [row.score]
    ensures Contracts(rows + [row]) == if row.view.ContractView? then Contracts(rows) + [row.score] else Contracts(rows)
  {
    assert (rows + [row])[..|rows|] == rows;
  }

  /** Three kept scores suffice to know the three best after one more row. */
  lemma KeepThree(children: seq<real>, x: real)
    ensures Take(Sort(Take(Sort(children, Id), 3) + [x], Id), 3) == Take(Sort(children + [x], Id), 3)
  {
    var all := Sort(children, Id);
    var kept := Take(all, 3);
    SortFalls(children, Id);
    SortFixed(kept, Id);
    assert (kept + [x])[..|kept|] == kept && (children + [x])[..|children|] == children;
    if |all| > 3 {
      InsertTake(all, x, Id, 3);
    }
  }

  lemma KeptScores(children: seq<real>)
    ensures var top := Take(Sort(children, Id), 3);
      && (top == [] <==> children == [])
      && Sort(top, Id) == top
      && (children != [] ==> top[0] == Maximum(children))
  {
    SortMembers(children, Id);
    SortFalls(children, Id);
    SortFixed(Take(Sort(children, Id), 3), Id);
    if children != [] {
      BestFirst(children);
    }
  }

  lemma BestFirst(s: seq<real>)
    requires s != []
    ensures |Sort(s, Id)| == |s| && Sort(s, Id)[0] == Maximum(s)
  {
    SortMembers(s, Id);
    SortFalls(s, Id);
    SortedMember(s, Id, 0);
    var r := Sort(s, Id);
    assert Maximum(s) in multiset(s) && Maximum(s) in r;
    var k :| 0 <= k < |r| && r[k] == Maximum(s);
    assert Id(r[0]) >= Id(r[k]);
  }

  // ---- the whole stream ----------------------------------------------------------------------------------------

  /** Streams the rows of one contract: for every order of the rows the three policies agree with
      the form over the whole list, and it fails exactly when a contract row is missing or doubled
      or no child row exists. */
  method StreamScores(rows: seq<Row>) returns (maxChild: Option<real>, topMean: Option<real>, mixed: Option<real>)
    ensures |Contracts(rows)| == 1 && Children(rows) != [] ==>
      && maxChild == Aggregate(rows, MaxChild) && maxChild.Some?
      && topMean == Aggregate(rows, Top3Mean) && topMean.Some?
      && mixed == Aggregate(rows, ContractPlusChild) && mixed.Some?
    ensures |Contracts(rows)| != 1 || Children(rows) == [] ==> maxChild.None? && topMean.None? && mixed.None?
  {
    var acc := new ContractAccumulator();
    for i := 0 to |rows|
      invariant acc.Holds(rows[..i])
    {
      assert rows[..i + 1] == rows[..i] + [rows[i]];
      var ok := acc.Add(rows[i], rows[..i]);
      if !ok {
        ContractsGrow(rows, i + 1);
        return None, None, None;
      }
    }
    assert rows[..|rows|] == rows;
    maxChild, topMean, mixed := acc.Scores(rows);
  }

  lemma {:induction false} ContractsGrow(rows: seq<Row>, n: nat)
    requires n <= |rows|
    ensures |Contracts(rows[..n])| <= |Contracts(rows)|
    decreases |rows| - n
  {
    if n < |rows| {
      assert rows[..n + 1][..n] == rows[..n];
      ContractsGrow(rows, n + 1);
    } else {
      assert rows[..n] == rows;
    }
  }
}
