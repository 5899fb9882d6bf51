/** Exact scoring of embedding rows in blocks, and the scores of nodes and contracts that follow.
    A score is a real and depends on its row and the query vector alone. */
module Scoring {
  import opened Evidence
  import opened Descending
  import opened Aggregation

  const VECTOR_BLOCK_ROWS := 512

  datatype Lane = Title | RawItem | ContextualItem | Detail | MajorSectionLane | ContractLane

  datatype VectorRow = VectorRow(contract: string, node: string, lane: Lane, index: nat)

  datatype ViewScore = ViewScore(index: nat, lane: Lane, score: real)

  /** The dictionary of one node: its best row of each lane, in order of first appearance. */
  datatype NodeViews = NodeViews(contract: string, node: string, views: seq<ViewScore>)

  /** The dot product of each row with one query vector. */
  type Dot = nat -> real

  // ---- the scoring dictionary ----------------------------------------------------------------------------------------

  function LaneSlot(views: seq<ViewScore>, lane: Lane): (k: nat)
    ensures k <= |views| && (k < |views| ==> views[k].lane == lane)
    ensures k == |views| ==> forall i :: 0 <= i < |views| ==> views[i].lane != lane
  {
    if views == [] then 0
    else
      var k := LaneSlot(views[..|views| - 1], lane);
      if k < |views| - 1 then k else if views[|views| - 1].lane == lane then |views| - 1 else |views|
  }

  /** Keeps the first of the best scores of a lane. */
  function AddView(views: seq<ViewScore>, v: ViewScore): seq<ViewScore> {
    var k := LaneSlot(views, v.lane);
    if k == |views| then views + [v]
    else if v.score > views[k].score then views[k := v]
    else views
  }

  predicate SameNode(e: NodeViews, row: VectorRow) { e.contract == row.contract && e.node == row.node }

  /** One more row: a known node keeps its place. */
  function AddRow(entries: seq<NodeViews>, row: VectorRow, dot: Dot): seq<NodeViews> {
    var v := ViewScore(row.index, row.lane, dot(row.index));
    if entries == [] then [NodeViews(row.contract, row.node, [v])]
    else if SameNode(entries[0], row) then [entries[0].(views := AddView(entries[0].views, v))] + entries[1..]
    else [entries[0]] + AddRow(entries[1..], row, dot)
  }

  function ScoreAll(rows: seq<VectorRow>, dot: Dot): seq<NodeViews> {
    if rows == [] then [] else AddRow(ScoreAll(rows[..|rows| - 1], dot), rows[|rows| - 1], dot)
  }

  /** `_score_rows`: blocks of rows give the same dictionary as row by row. */
  method ScoreRows(rows: seq<VectorRow>, dot: Dot) returns (entries: seq<NodeViews>, blocks: nat)
    ensures entries == ScoreAll(rows, dot)
    ensures (blocks - 1) * VECTOR_BLOCK_ROWS < |rows| <= blocks * VECTOR_BLOCK_ROWS || (rows == [] && blocks == 0)
  {
    entries, blocks := [], 0;
    var start := 0;
    while start < |rows|
      invariant 0 <= start <= |rows| && entries == ScoreAll(rows[..start], dot)
      invariant start == blocks * VECTOR_BLOCK_ROWS || (start == |rows| && (blocks - 1) * VECTOR_BLOCK_ROWS < start <= blocks * VECTOR_BLOCK_ROWS)
    {
      var end := if start + VECTOR_BLOCK_ROWS <= |rows| then start + VECTOR_BLOCK_ROWS else |rows|;
      blocks := blocks + 1;
      for i := start to end
        invariant entries == ScoreAll(rows[..i], dot)
      {
        assert rows[..i + 1][..i] == rows[..i];
        entries := AddRow(entries, rows[i], dot);
      }
      start := end;
    }
    assert rows[..|rows|] == rows;
  }

  // ---- one contract at a time ----------------------------------------------------------------------------------------

  function RowsOf(rows: seq<VectorRow>, contract: string): seq<VectorRow> {
    if rows == [] then []
    else
      var front, r := RowsOf(rows[..|rows| - 1], contract), rows[|rows| - 1];
      if r.contract == contract then front + [r] else front
  }

  function EntriesOf(entries: seq<NodeViews>, contract: string): seq<NodeViews> {
    if entries == [] then []
    else (if entries[0].contract == contract then [entries[0]] else []) + EntriesOf(entries[1..], contract)
  }

  lemma EntriesCons(e: NodeViews, rest: seq<NodeViews>, contract: string)
    ensures EntriesOf([e] + rest, contract)
         == if e.contract == contract then [e] + EntriesOf(rest, contract) else EntriesOf(rest, contract)
  {
    assert ([e] + rest)[1..] == rest;
  }

  lemma AddRowCons(e: NodeViews, rest: seq<NodeViews>, row: VectorRow, dot: Dot)
    ensures !SameNode(e, row) ==> AddRow([e] + rest, row, dot) == [e] + AddRow(rest, row, dot)
    ensures SameNode(e, row) ==>
      AddRow([e] + rest, row, dot) == [e.(views := AddView(e.views, ViewScore(row.index, row.lane, dot(row.index))))] + rest
  {
    assert ([e] + rest)[1..] == rest;
  }

  lemma {:induction false} AddRowOf(entries: seq<NodeViews>, row: VectorRow, dot: Dot, contract: string)
    ensures EntriesOf(AddRow(entries, row, dot), contract)
         == if row.contract == contract then AddRow(EntriesOf(entries, contract), row, dot) else EntriesOf(entries, contract)
  {
    if entries == [] {
      EntriesCons(AddRow(entries, row, dot)[0], [], contract);
    } else {
      var e, rest := entries[0], entries[1..];
      assert entries == [e] + rest;
      AddRowCons(e, rest, row, dot);
      AddRowCons(e, EntriesOf(rest, contract), row, dot);
      EntriesCons(e, rest, contract);
      if SameNode(e, row) {
        EntriesCons(AddRow(entries, row, dot)[0], rest, contract);
      } else {
        AddRowOf(rest, row, dot, contract);
        EntriesCons(e, AddRow(rest, row, dot), contract);
      }
    }
  }

  /** Scoring the rows of one contract alone gives its part of the dictionary of all rows. */
  lemma {:induction false} ContractAlone(rows: seq<VectorRow>, dot: Dot, contract: string)
    ensures EntriesOf(ScoreAll(rows, dot), contract) == ScoreAll(RowsOf(rows, contract), dot)
  {
    if rows != [] {
      var front, r := rows[..|rows| - 1], rows[|rows| - 1];
      ContractAlone(front, dot, contract);
      AddRowOf(ScoreAll(front, dot), r, dot, contract);
      var mine := RowsOf(front, contract);
      assert (mine + [r])[..|mine|] == mine;
    }
  }

  // ---- node and contract scores --------------------------------------------------------------------------------------

  datatype NodeScore = NodeScore(node: string, score: real, matched: seq<Lane>, views: seq<ViewScore>)

  function LaneOrder(lane: Lane): nat {
    match lane
    case Title => 0
    case RawItem => 1
    case ContextualItem => 2
    case Detail => 3
    case MajorSectionLane => 4
    case ContractLane => 5
  }

  /** Lanes are distinct within a node, so the row index never decides. */
  function ViewKey(v: ViewScore): real { -(LaneOrder(v.lane) as real) }

  /** The highest score of a node. */
  function Best(views: seq<ViewScore>): (b: real)
    requires views != []
    ensures forall i :: 0 <= i < |views| ==> views[i].score <= b
    ensures exists i :: 0 <= i < |views| && views[i].score == b
  {
    if |views| == 1 then views[0].score
    else
      var n := |views| - 1;
      var b := Best(views[..n]);
      assert exists i :: 0 <= i < n && views[i].score == b by {
        var i :| 0 <= i < |views[..n]| && views[..n][i].score == b;
        assert views[i].score == b;
      }
      if views[n].score > b then views[n].score else b
  }

  function Abs(x: real): real { if x < 0.0 then -x else x }

  /** `math.isclose(a, b, abs_tol=1e-7)`. */
  predicate Close(a: real, b: real) {
    var m := if Abs(a) > Abs(b) then Abs(a) else Abs(b);
    Abs(a - b) <= 0.000000001 * m || Abs(a - b) <= 0.0000001
  }

  function MatchedLanes(views: seq<ViewScore>, best: real): seq<Lane> {
    if views == [] then []
    else (if Close(views[0].score, best) then [views[0].lane] else []) + MatchedLanes(views[1..], best)
  }

  /** Matched are the lanes whose score is close to the best. */
  lemma {:induction false} MatchedMeans(views: seq<ViewScore>, best: real, lane: Lane)
    ensures lane in MatchedLanes(views, best) <==>
      exists i :: 0 <= i < |views| && views[i].lane == lane && Close(views[i].score, best)
  {
    if views != [] {
      var rest := views[1..];
      MatchedMeans(rest, best, lane);
      if lane in MatchedLanes(rest, best) {
        var i :| 0 <= i < |rest| && rest[i].lane == lane && Close(rest[i].score, best);
        assert views[i + 1] == rest[i];
      }
      if exists i :: 0 < i < |views| && views[i].lane == lane && Close(views[i].score, best) {
        var i :| 0 < i < |views| && views[i].lane == lane && Close(views[i].score, best);
        assert rest[i - 1] == views[i];
      }
    }
  }

  function Collapse(e: NodeViews): NodeScore
    requires e.views != []
  {
    var best, views := Best(e.views), Sort(e.views, ViewKey);
    NodeScore(e.node, best, MatchedLanes(views, best), views)
  }

  ghost predicate NoneEmpty(entries: seq<NodeViews>) {
    forall i :: 0 <= i < |entries| ==> entries[i].views != []
  }

  lemma {:induction false} AddRowNonempty(entries: seq<NodeViews>, row: VectorRow, dot: Dot)
    requires NoneEmpty(entries)
    ensures NoneEmpty(AddRow(entries, row, dot))
  {
    if entries != [] && !SameNode(entries[0], row) {
      AddRowNonempty(entries[1..], row, dot);
    }
  }

  lemma {:induction false} ScoreNonempty(rows: seq<VectorRow>, dot: Dot)
    ensures NoneEmpty(ScoreAll(rows, dot))
  {
    if rows != [] {
      ScoreNonempty(rows[..|rows| - 1], dot);
      AddRowNonempty(ScoreAll(rows[..|rows| - 1], dot), rows[|rows| - 1], dot);
    }
  }

  function NodeScores(entries: seq<NodeViews>): seq<NodeScore>
    requires NoneEmpty(entries)
  {
    if entries == [] then [] else [Collapse(entries[0])] + NodeScores(entries[1..])
  }

  function ViewOf(lane: Lane): View {
    if lane == ContractLane then ContractView else ChildView("")
  }

  function ViewRows(views: seq<ViewScore>): seq<Row> {
    if views == [] then [] else [Row(ViewOf(views[0].lane), views[0].score)] + ViewRows(views[1..])
  }

  function AllViews(nodes: seq<NodeScore>): seq<ViewScore> {
    if nodes == [] then [] else nodes[0].views + AllViews(nodes[1..])
  }

  /** The scores of one contract as `_collapse_scores` and the audit record them. */
  datatype ContractScore = ContractScore(contract: string, nodes: seq<NodeScore>, score: real)

  /** `None` where the aggregation fails or a row was lost to a doubled lane. */
  function ContractResult(contract: string, entries: seq<NodeViews>, rows: nat, policy: Policy): Option<ContractScore>
    requires NoneEmpty(entries)
  {
    var nodes := NodeScores(entries);
    var views := AllViews(nodes);
    var score := Aggregate(ViewRows(views), policy);
    if entries == [] || score.None? || |views| != rows then None
    else Some(ContractScore(contract, nodes, score.value))
  }

  /** The scores of a contract in one pass over all rows. */
  function OnePass(rows: seq<VectorRow>, dot: Dot, contract: string, policy: Policy): Option<ContractScore> {
    var entries := EntriesOf(ScoreAll(rows, dot), contract);
    ContractAlone(rows, dot, contract);
    ScoreNonempty(RowsOf(rows, contract), dot);
    ContractResult(contract, entries, |RowsOf(rows, contract)|, policy)
  }

  /** One step of the audit loop: score the rows of one contract. */
  method ScoreContract(rows: seq<VectorRow>, dot: Dot, contract: string, policy: Policy) returns (r: Option<ContractScore>)
    ensures r == OnePass(rows, dot, contract, policy)
  {
    ContractAlone(rows, dot, contract);
    var mine := RowsOf(rows, contract);
    var entries, blocks := ScoreRows(mine, dot);
    ScoreNonempty(mine, dot);
    r := ContractResult(contract, entries, |mine|, policy);
  }

  // ---- no row is lost ------------------------------------------------------------------------------------------------

  ghost predicate UniqueLanes(rows: seq<VectorRow>) {
    forall i, j :: 0 <= i < j < |rows| ==>
      rows[i].contract != rows[j].contract || rows[i].node != rows[j].node || rows[i].lane != rows[j].lane
  }

  function ViewCount(entries: seq<NodeViews>): nat {
    if entries == [] then 0 else |entries[0].views| + ViewCount(entries[1..])
  }

  ghost predicate HasLane(entries: seq<NodeViews>, row: VectorRow) {
    exists i, j :: 0 <= i < |entries| && SameNode(entries[i], row) && 0 <= j < |entries[i].views| && entries[i].views[j].lane == row.lane
  }

  lemma {:induction false} AddRowCounts(entries: seq<NodeViews>, row: VectorRow, dot: Dot)
    requires !HasLane(entries, row)
    ensures ViewCount(AddRow(entries, row, dot)) == ViewCount(entries) + 1
  {
    if entries != [] {
      var r := AddRow(entries, row, dot);
      if SameNode(entries[0], row) {
        assert forall j :: 0 <= j < |entries[0].views| ==> entries[0].views[j].lane != row.lane;
        assert r[1..] == entries[1..];
      } else {
        assert !HasLane(entries[1..], row);
        AddRowCounts(entries[1..], row, dot);
        assert r[1..] == AddRow(entries[1..], row, dot);
      }
    } else {
      assert AddRow(entries, row, dot)[1..] == [];
    }
  }

  lemma {:induction false} AddRowLanes(entries: seq<NodeViews>, row: VectorRow, dot: Dot, other: VectorRow)
    requires HasLane(AddRow(entries, row, dot), other)
    ensures HasLane(entries, other) || (row.contract == other.contract && row.node == other.node && row.lane == other.lane)
  {
    var r := AddRow(entries, row, dot);
    var i, j :| 0 <= i < |r| && SameNode(r[i], other) && 0 <= j < |r[i].views| && r[i].views[j].lane == other.lane;
    if entries != [] {
      if SameNode(entries[0], row) {
        if i > 0 {
          assert r[i] == entries[i];
        } else if j < |entries[0].views| && entries[0].views[j].lane == other.lane {
          assert SameNode(entries[0], other);
        }
      } else if i == 0 {
        assert SameNode(entries[0], other) && entries[0].views[j].lane == other.lane;
      } else {
        var tail := AddRow(entries[1..], row, dot);
        assert tail[i - 1] == r[i];
        AddRowLanes(entries[1..], row, dot, other);
        if HasLane(entries[1..], other) {
          var a, b :| 0 <= a < |entries[1..]| && SameNode(entries[1..][a], other) && 0 <= b < |entries[1..][a].views|
                      && entries[1..][a].views[b].lane == other.lane;
          assert entries[a + 1] == entries[1..][a];
        }
      }
    }
  }

  lemma {:induction false} LanesFromRows(rows: seq<VectorRow>, dot: Dot, other: VectorRow)
    requires HasLane(ScoreAll(rows, dot), other)
    ensures exists i :: 0 <= i < |rows| && rows[i].contract == other.contract && rows[i].node == other.node && rows[i].lane == other.lane
  {
    if rows != [] {
      var n := |rows| - 1;
      AddRowLanes(ScoreAll(rows[..n], dot), rows[n], dot, other);
      if HasLane(ScoreAll(rows[..n], dot), other) {
        LanesFromRows(rows[..n], dot, other);
        var i :| 0 <= i < n && rows[..n][i].contract == other.contract && rows[..n][i].node == other.node && rows[..n][i].lane == other.lane;
        assert rows[i] == rows[..n][i];
      }
    }
  }

  /** With at most one row for a node and lane, every row has its view. */
  lemma {:induction false} NoRowLost(rows: seq<VectorRow>, dot: Dot)
    requires UniqueLanes(rows)
    ensures ViewCount(ScoreAll(rows, dot)) == |rows|
  {
    if rows != [] {
      var n := |rows| - 1;
      NoRowLost(rows[..n], dot);
      if HasLane(ScoreAll(rows[..n], dot), rows[n]) {
        LanesFromRows(rows[..n], dot, rows[n]);
      }
      AddRowCounts(ScoreAll(rows[..n], dot), rows[n], dot);
    }
  }

  lemma {:induction false} AllViewsCount(entries: seq<NodeViews>)
    requires NoneEmpty(entries)
    ensures |AllViews(NodeScores(entries))| == ViewCount(entries)
  {
    if entries != [] {
      AllViewsCount(entries[1..]);
      SortMembers(entries[0].views, ViewKey);
      var nodes := NodeScores(entries);
      assert nodes[1..] == NodeScores(entries[1..]);
    }
  }

  lemma {:induction false} RowsOfMembers(rows: seq<VectorRow>, contract: string)
    ensures forall r :: r in RowsOf(rows, contract) ==> r in rows
    ensures UniqueLanes(rows) ==> UniqueLanes(RowsOf(rows, contract))
  {
    if rows != [] {
      var n := |rows| - 1;
      var mine := RowsOf(rows[..n], contract);
      RowsOfMembers(rows[..n], contract);
      assert rows == rows[..n] + [rows[n]];
      if UniqueLanes(rows) {
        forall i | 0 <= i < |mine|
          ensures mine[i].contract != rows[n].contract || mine[i].node != rows[n].node || mine[i].lane != rows[n].lane
        {
          assert mine[i] in mine && mine[i] in rows[..n];
          var k :| 0 <= k < n && rows[k] == mine[i];
        }
      }
    }
  }

  /** With unique rows a contract is scored unless it has no rows or its aggregation is refused. */
  lemma ScoredWhenUnique(rows: seq<VectorRow>, dot: Dot, contract: string, policy: Policy)
    requires UniqueLanes(rows)
    ensures NoneEmpty(EntriesOf(ScoreAll(rows, dot), contract))
    ensures OnePass(rows, dot, contract, policy).None? <==>
      EntriesOf(ScoreAll(rows, dot), contract) == []
      || Aggregate(ViewRows(AllViews(NodeScores(EntriesOf(ScoreAll(rows, dot), contract)))), policy).None?
  {
    var mine := RowsOf(rows, contract);
    ContractAlone(rows, dot, contract);
    ScoreNonempty(mine, dot);
    RowsOfMembers(rows, contract);
    NoRowLost(mine, dot);
    AllViewsCount(ScoreAll(mine, dot));
  }

  // ---- every view is the best row of its lane ------------------------------------------------------------------------

  predicate RowFor(row: VectorRow, contract: string, node: string, lane: Lane) {
    row.contract == contract && row.node == node && row.lane == lane
  }

  /** `v` is the score of a row of this node and lane, and no such row scores higher. */
  ghost predicate BestRow(rows: seq<VectorRow>, dot: Dot, contract: string, node: string, v: ViewScore) {
    && (exists i :: 0 <= i < |rows| && RowFor(rows[i], contract, node, v.lane) && rows[i].index == v.index && v.score == dot(v.index))
    && (forall i :: 0 <= i < |rows| && RowFor(rows[i], contract, node, v.lane) ==> dot(rows[i].index) <= v.score)
  }

  ghost predicate BestEntry(rows: seq<VectorRow>, dot: Dot, e: NodeViews) {
    && (forall j :: 0 <= j < |e.views| ==> BestRow(rows, dot, e.contract, e.node, e.views[j]))
    && (forall i :: 0 <= i < |rows| && rows[i].contract == e.contract && rows[i].node == e.node ==>
        LaneSlot(e.views, rows[i].lane) < |e.views|)
  }

  lemma BestRowKept(rows: seq<VectorRow>, row: VectorRow, dot: Dot, contract: string, node: string, v: ViewScore)
    requires BestRow(rows, dot, contract, node, v)
    requires RowFor(row, contract, node, v.lane) ==> dot(row.index) <= v.score
    ensures BestRow(rows + [row], dot, contract, node, v)
  {
    var all := rows + [row];
    var i :| 0 <= i < |rows| && RowFor(rows[i], contract, node, v.lane) && rows[i].index == v.index && v.score == dot(v.index);
    assert all[i] == rows[i];
  }

  lemma BestRowNew(rows: seq<VectorRow>, row: VectorRow, dot: Dot)
    requires forall i :: 0 <= i < |rows| && RowFor(rows[i], row.contract, row.node, row.lane) ==> dot(rows[i].index) <= dot(row.index)
    ensures BestRow(rows + [row], dot, row.contract, row.node, ViewScore(row.index, row.lane, dot(row.index)))
  {
    var all := rows + [row];
    assert all[|rows|] == row;
  }

  lemma BestEntryOther(rows: seq<VectorRow>, row: VectorRow, dot: Dot, e: NodeViews)
    requires BestEntry(rows, dot, e) && !SameNode(e, row)
    ensures BestEntry(rows + [row], dot, e)
  {
    forall j | 0 <= j < |e.views| ensures BestRow(rows + [row], dot, e.contract, e.node, e.views[j]) {
      BestRowKept(rows, row, dot, e.contract, e.node, e.views[j]);
    }
  }

  /** Adding a view loses no lane, and has a place for its own. */
  lemma {:induction false} AddViewLanes(views: seq<ViewScore>, v: ViewScore, lane: Lane)
    requires lane == v.lane || LaneSlot(views, lane) < |views|
    ensures LaneSlot(AddView(views, v), lane) < |AddView(views, v)|
  {
    var k := LaneSlot(views, if lane == v.lane then v.lane else lane);
    assert AddView(views, v)[k].lane == lane;
  }

  lemma {:induction false} AddViewBest(rows: seq<VectorRow>, row: VectorRow, dot: Dot, e: NodeViews)
    requires BestEntry(rows, dot, e) && SameNode(e, row)
    requires forall j, k :: 0 <= j < k < |e.views| ==> e.views[j].lane != e.views[k].lane
    ensures var v := ViewScore(row.index, row.lane, dot(row.index));
            var r := e.(views := AddView(e.views, v));
      && BestEntry(rows + [row], dot, r)
      && (forall j, k :: 0 <= j < k < |r.views| ==> r.views[j].lane != r.views[k].lane)
  {
    var v := ViewScore(row.index, row.lane, dot(row.index));
    var k := LaneSlot(e.views, row.lane);
    var views := AddView(e.views, v);
    forall j | 0 <= j < |views| ensures BestRow(rows + [row], dot, e.contract, e.node, views[j]) {
      if j < |e.views| && views[j] == e.views[j] {
        BestRowKept(rows, row, dot, e.contract, e.node, e.views[j]);
      } else {
        assert j == k && views[j] == v;
        forall i | 0 <= i < |rows| && RowFor(rows[i], row.contract, row.node, row.lane) ensures dot(rows[i].index) <= v.score {
          assert LaneSlot(e.views, rows[i].lane) < |e.views|;
          assert BestRow(rows, dot, e.contract, e.node, e.views[k]);
        }
        BestRowNew(rows, row, dot);
      }
    }
    forall i | 0 <= i < |rows + [row]| && (rows + [row])[i].contract == e.contract && (rows + [row])[i].node == e.node
      ensures LaneSlot(views, (rows + [row])[i].lane) < |views|
    {
      if i < |rows| {
        assert LaneSlot(e.views, rows[i].lane) < |e.views|;
      }
      AddViewLanes(e.views, v, (rows + [row])[i].lane);
    }
  }

  ghost predicate GoodEntry(rows: seq<VectorRow>, dot: Dot, e: NodeViews) {
    BestEntry(rows, dot, e) && forall j, k :: 0 <= j < k < |e.views| ==> e.views[j].lane != e.views[k].lane
  }

  ghost predicate AllGood(rows: seq<VectorRow>, dot: Dot, entries: seq<NodeViews>) {
    entries == [] || (GoodEntry(rows, dot, entries[0]) && AllGood(rows, dot, entries[1..]))
  }

  /** The dictionary has an entry for the node of a row. */
  predicate HasEntry(entries: seq<NodeViews>, contract: string, node: string) {
    entries != [] && ((entries[0].contract == contract && entries[0].node == node) || HasEntry(entries[1..], contract, node))
  }

  predicate UniqueNodes(entries: seq<NodeViews>) {
    entries == [] || (!HasEntry(entries[1..], entries[0].contract, entries[0].node) && UniqueNodes(entries[1..]))
  }

  ghost predicate HasRow(rows: seq<VectorRow>, contract: string, node: string) {
    exists i :: 0 <= i < |rows| && rows[i].contract == contract && rows[i].node == node
  }

  lemma {:induction false} AddRowNodes(entries: seq<NodeViews>, row: VectorRow, dot: Dot, contract: string, node: string)
    ensures HasEntry(AddRow(entries, row, dot), contract, node) <==>
      HasEntry(entries, contract, node) || (row.contract == contract && row.node == node)
  {
    var r := AddRow(entries, row, dot);
    if entries == [] {
      assert r[1..] == [];
    } else if SameNode(entries[0], row) {
      assert r[1..] == entries[1..];
    } else {
      assert r[1..] == AddRow(entries[1..], row, dot);
      AddRowNodes(entries[1..], row, dot, contract, node);
    }
  }

  lemma {:induction false} AddRowUnique(entries: seq<NodeViews>, row: VectorRow, dot: Dot)
    requires UniqueNodes(entries)
    ensures UniqueNodes(AddRow(entries, row, dot))
  {
    var r := AddRow(entries, row, dot);
    if entries == [] {
      assert r[1..] == [];
    } else if SameNode(entries[0], row) {
      assert r[1..] == entries[1..];
    } else {
      assert r[1..] == AddRow(entries[1..], row, dot);
      AddRowUnique(entries[1..], row, dot);
      AddRowNodes(entries[1..], row, dot, entries[0].contract, entries[0].node);
    }
  }

  lemma {:induction false} OthersGood(rows: seq<VectorRow>, row: VectorRow, dot: Dot, entries: seq<NodeViews>)
    requires AllGood(rows, dot, entries) && !HasEntry(entries, row.contract, row.node)
    ensures AllGood(rows + [row], dot, entries)
  {
    if entries != [] {
      BestEntryOther(rows, row, dot, entries[0]);
      OthersGood(rows, row, dot, entries[1..]);
    }
  }

  lemma NewEntryGood(rows: seq<VectorRow>, row: VectorRow, dot: Dot)
    requires !HasRow(rows, row.contract, row.node)
    ensures GoodEntry(rows + [row], dot, NodeViews(row.contract, row.node, [ViewScore(row.index, row.lane, dot(row.index))]))
  {
    var v := ViewScore(row.index, row.lane, dot(row.index));
    BestRowNew(rows, row, dot);
    assert [v][0].lane == row.lane;
    forall i | 0 <= i < |rows + [row]| && (rows + [row])[i].contract == row.contract && (rows + [row])[i].node == row.node
      ensures LaneSlot([v], (rows + [row])[i].lane) < 1
    {
      assert i == |rows|;
    }
  }

  lemma {:induction false} AddRowGood(rows: seq<VectorRow>, row: VectorRow, dot: Dot, entries: seq<NodeViews>)
    requires AllGood(rows, dot, entries) && UniqueNodes(entries)
    requires HasRow(rows, row.contract, row.node) ==> HasEntry(entries, row.contract, row.node)
    ensures AllGood(rows + [row], dot, AddRow(entries, row, dot))
  {
    var r := AddRow(entries, row, dot);
    if entries == [] {
      NewEntryGood(rows, row, dot);
      assert r[1..] == [];
    } else if SameNode(entries[0], row) {
      AddViewBest(rows, row, dot, entries[0]);
      OthersGood(rows, row, dot, entries[1..]);
      assert r[1..] == entries[1..];
    } else {
      BestEntryOther(rows, row, dot, entries[0]);
      AddRowGood(rows, row, dot, entries[1..]);
      assert r[1..] == AddRow(entries[1..], row, dot);
    }
  }

  /** Scoring keeps one entry for every node with a row, and one view for each of its lanes: the row
      of that lane with the highest score. */
  lemma {:induction false} BestOfEveryLane(rows: seq<VectorRow>, dot: Dot)
    ensures AllGood(rows, dot, ScoreAll(rows, dot)) && UniqueNodes(ScoreAll(rows, dot))
    ensures forall contract, node :: HasEntry(ScoreAll(rows, dot), contract, node) <==> HasRow(rows, contract, node)
  {
    if rows != [] {
      var n := |rows| - 1;
      var front, row, entries := rows[..n], rows[n], ScoreAll(rows[..n], dot);
      BestOfEveryLane(front, dot);
      AddRowGood(front, row, dot, entries);
      AddRowUnique(entries, row, dot);
      assert rows == front + [row];
      forall contract, node
        ensures HasEntry(ScoreAll(rows, dot), contract, node) <==> HasRow(rows, contract, node)
      {
        AddRowNodes(entries, row, dot, contract, node);
        HasRowSnoc(front, row, contract, node);
      }
    }
  }

  lemma HasRowSnoc(rows: seq<VectorRow>, row: VectorRow, contract: string, node: string)
    ensures HasRow(rows + [row], contract, node) <==> HasRow(rows, contract, node) || (row.contract == contract && row.node == node)
  {
    var all := rows + [row];
    if HasRow(rows, contract, node) {
      var i :| 0 <= i < |rows| && rows[i].contract == contract && rows[i].node == node;
      assert all[i] == rows[i];
    }
    if row.contract == contract && row.node == node { assert all[|rows|] == row; }
  }
}
