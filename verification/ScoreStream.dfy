/** The merge join that pairs the active vector rows with their database provenance, in row order. */
module ScoreStream {
  import opened Evidence

  /** Metadata of one vector row, and of one database row. */
  datatype Meta = Meta(rowIndex: nat, contract: string, node: string, view: string, profile: string)

  datatype Provenance = Provenance(row: nat, contract: string, node: string, view: string, input: string, profile: string)

  /** `ORDER BY row_index` over a primary key. */
  ghost predicate Ascending(table: seq<Provenance>) {
    forall i, j :: 0 <= i < j < |table| ==> table[i].row < table[j].row
  }

  /** The rows of active contracts, in order. */
  function ActiveRows(vectors: seq<Meta>, active: set<string>): (r: seq<nat>)
    ensures forall k :: 0 <= k < |r| ==> r[k] < |vectors|
    ensures forall j, k :: 0 <= j < k < |r| ==> r[j] < r[k]
  {
    if vectors == [] then []
    else
      var n := |vectors| - 1;
      var front := ActiveRows(vectors[..n], active);
      if vectors[n].contract in active then front + [n] else front
  }

  predicate Agrees(vectors: seq<Meta>, index: nat, p: Provenance)
    requires index < |vectors|
  {
    var m := vectors[index];
    && p.row == index && m.rowIndex == index
    && p.contract == m.contract && p.node == m.node && p.view == m.view && p.profile == m.profile
  }

  /** The database knows the row, with the same metadata. */
  ghost predicate Known(vectors: seq<Meta>, table: seq<Provenance>, index: nat) {
    index < |vectors| && exists j :: 0 <= j < |table| && Agrees(vectors, index, table[j])
  }

  /** Everything before the cursor lies before the next row to join. */
  ghost predicate Behind(table: seq<Provenance>, cursor: nat, index: nat) {
    cursor <= |table| && forall j :: 0 <= j < cursor ==> table[j].row < index
  }

  method Skip(table: seq<Provenance>, cursor: nat, index: nat) returns (next: nat)
    requires Ascending(table) && Behind(table, cursor, index)
    ensures Behind(table, next, index) && (next < |table| ==> table[next].row >= index)
  {
    next := cursor;
    while next < |table| && table[next].row < index
      invariant Behind(table, next, index)
    {
      next := next + 1;
    }
  }

  lemma OnlyAtCursor(vectors: seq<Meta>, table: seq<Provenance>, cursor: nat, index: nat)
    requires Ascending(table) && Behind(table, cursor, index) && (cursor < |table| ==> table[cursor].row >= index)
    requires index < |vectors|
    ensures Known(vectors, table, index) <==> cursor < |table| && Agrees(vectors, index, table[cursor])
  {
    if Known(vectors, table, index) {
      var j :| 0 <= j < |table| && Agrees(vectors, index, table[j]);
      assert j >= cursor;
    }
  }

  /** The row loop of `capture_unscoped_current_score_stream`: it succeeds exactly when the database
      knows every active row, and then yields each of them once, in row order. */
  method JoinRows(vectors: seq<Meta>, active: set<string>, table: seq<Provenance>) returns (r: Option<seq<Provenance>>)
    requires Ascending(table)
    ensures r.Some? <==> forall k :: 0 <= k < |ActiveRows(vectors, active)| ==> Known(vectors, table, ActiveRows(vectors, active)[k])
    ensures r.Some? ==> |r.value| == |ActiveRows(vectors, active)|
    ensures r.Some? ==> forall k :: 0 <= k < |r.value| ==> r.value[k] in table && Agrees(vectors, ActiveRows(vectors, active)[k], r.value[k])
  {
    var indices := ActiveRows(vectors, active);
    var out: seq<Provenance> := [];
    var cursor := 0;
    for i := 0 to |indices|
      invariant |out| == i && cursor <= |table| && (i < |indices| ==> Behind(table, cursor, indices[i]))
      invariant forall k :: 0 <= k < i ==> Known(vectors, table, indices[k])
      invariant forall k :: 0 <= k < i ==> out[k] in table && Agrees(vectors, indices[k], out[k])
    {
      var index := indices[i];
      cursor := Skip(table, cursor, index);
      OnlyAtCursor(vectors, table, cursor, index);
      if cursor == |table| || !Agrees(vectors, index, table[cursor]) {
        assert !Known(vectors, table, ActiveRows(vectors, active)[i]);
        return None;
      }
      out := out + [table[cursor]];
      cursor := cursor + 1;
    }
    r := Some(out);
  }
}
