/** Capturing the score matrices query by query, resuming an interrupted capture, and reading the
    combined matrices back by offset. A digest is modelled by the bytes it was computed from. */
module Capture {
  import opened Evidence

  type Bytes = seq<bv8>

  const F32_BYTES := 4
  const QUERY_VECTOR_COUNT := 4_096
  const COPY_BLOCK := 1_048_576

  /** The capture identity: distinct queries, corpus rows and active contracts. */
  datatype CaptureConfig = CaptureConfig(queries: seq<string>, rows: nat, contracts: nat) {
    predicate Valid() {
      rows >= 1 && forall i, j :: 0 <= i < j < |queries| ==> queries[i] != queries[j]
    }
    function ScoreBytes(): nat { rows * F32_BYTES }
    function VectorBytes(): nat { QUERY_VECTOR_COUNT * F32_BYTES }
  }

  datatype Coverage = Coverage(
    ordinal: nat, query: string, rows: nat, contracts: nat,
    scoreOffset: nat, scoreCount: nat, scores: Bytes, vectorOffset: nat, vectorCount: nat, vector: Bytes)
  {
    /** What the coverage model accepts. */
    predicate Valid() { rows >= 1 && scoreCount == rows && vectorCount == QUERY_VECTOR_COUNT }
    function ScoreSize(): nat { scoreCount * F32_BYTES }
    function VectorSize(): nat { vectorCount * F32_BYTES }
  }

  /** `n` times `size`, as a running offset. */
  function Scaled(n: nat, size: nat): nat {
    if n == 0 then 0 else Scaled(n - 1, size) + size
  }

  lemma {:induction false} ScaledIs(n: nat, size: nat)
    ensures Scaled(n, size) == n * size
  {
    if n > 0 {
      ScaledIs(n - 1, size);
    }
  }

  function CoverageFor(c: CaptureConfig, i: nat, scores: Bytes, vector: Bytes): Coverage
    requires i < |c.queries|
  {
    Coverage(i, c.queries[i], c.rows, c.contracts, Scaled(i, c.ScoreBytes()), c.rows, scores,
             Scaled(i, c.VectorBytes()), QUERY_VECTOR_COUNT, vector)
  }

  // ---- resuming ------------------------------------------------------------------------------------------------------

  /** The three files of one query. */
  datatype Slot = Slot(coverage: Option<Coverage>, scores: Option<Bytes>, vector: Option<Bytes>)

  const EMPTY := Slot(None, None, None)

  datatype ParsedSlot = Missing | Refused | Completed(coverage: Coverage)

  /** The published trio of a query holds its shards and the coverage that describes them. */
  predicate Trio(c: CaptureConfig, i: nat, s: Slot)
    requires i < |c.queries|
  {
    && s.coverage.Some? && s.scores.Some? && s.vector.Some?
    && |s.scores.value| == c.ScoreBytes() && |s.vector.value| == c.VectorBytes()
    && s.coverage.value == CoverageFor(c, i, s.scores.value, s.vector.value)
  }

  /** `_parse_completed_query`. */
  function ParseSlot(c: CaptureConfig, i: nat, s: Slot): ParsedSlot
    requires i < |c.queries|
  {
    if s.coverage.None? && s.scores.None? && s.vector.None? then Missing
    else if s.coverage.None? || s.scores.None? || s.vector.None? then Refused
    else
      var v := s.coverage.value;
      if !v.Valid() || v.ordinal != i || v.query != c.queries[i] || v.rows != c.rows || v.contracts != c.contracts
         || v.scoreOffset != i * c.rows * F32_BYTES || v.vectorOffset != i * QUERY_VECTOR_COUNT * F32_BYTES
      then Refused
      else if v.ScoreSize() != c.rows * F32_BYTES || s.scores.value != v.scores || |s.scores.value| != v.ScoreSize()
      then Refused
      else if s.vector.value != v.vector || |s.vector.value| != v.VectorSize() then Refused
      else Completed(v)
  }

  lemma ParsedTrio(c: CaptureConfig, i: nat, s: Slot)
    requires c.Valid() && i < |c.queries|
    ensures ParseSlot(c, i, s).Completed? <==> Trio(c, i, s)
    ensures ParseSlot(c, i, s).Completed? ==> ParseSlot(c, i, s).coverage == s.coverage.value
    ensures ParseSlot(c, i, s).Missing? <==> s == EMPTY
  {
    ScaledIs(i, c.ScoreBytes());
    ScaledIs(i, c.VectorBytes());
    assert i * c.rows * F32_BYTES == i * (c.rows * F32_BYTES);
    assert i * QUERY_VECTOR_COUNT * F32_BYTES == i * (QUERY_VECTOR_COUNT * F32_BYTES);
  }

  /** The first `k` queries are complete and nothing exists of the others. */
  ghost predicate PrefixState(c: CaptureConfig, slots: seq<Slot>, k: nat)
    requires |slots| == |c.queries|
  {
    && k <= |slots|
    && (forall i :: 0 <= i < k ==> Trio(c, i, slots[i]))
    && (forall i :: k <= i < |slots| ==> slots[i] == EMPTY)
  }

  ghost function Coverages(slots: seq<Slot>, k: nat): (r: seq<Coverage>)
    requires k <= |slots| && forall i :: 0 <= i < k ==> slots[i].coverage.Some?
    ensures |r| == k && forall i :: 0 <= i < k ==> r[i] == slots[i].coverage.value
  {
    if k == 0 then [] else Coverages(slots, k - 1) + [slots[k - 1].coverage.value]
  }

  /** The resume scan: it accepts exactly the states whose complete trios form a prefix, nothing of a
      later query existing, and returns their coverages. */
  method Scan(c: CaptureConfig, slots: seq<Slot>) returns (done: Option<seq<Coverage>>)
    requires c.Valid() && |slots| == |c.queries|
    ensures done.Some? <==> exists k :: PrefixState(c, slots, k)
    ensures done.Some? ==> PrefixState(c, slots, |done.value|) && done.value == Coverages(slots, |done.value|)
  {
    var completed: seq<Coverage> := [];
    var gapSeen := false;
    for index := 0 to |slots|
      invariant |completed| <= index && (gapSeen <==> |completed| < index)
      invariant forall i :: 0 <= i < |completed| ==> Trio(c, i, slots[i]) && completed[i] == slots[i].coverage.value
      invariant forall i :: |completed| <= i < index ==> slots[i] == EMPTY
    {
      var item := ParseSlot(c, index, slots[index]);
      ParsedTrio(c, index, slots[index]);
      if item.Refused? {
        NoPrefix(c, slots, index, |completed|);
        return None;
      }
      if item.Missing? {
        gapSeen := true;
      } else if gapSeen {
        NoPrefix(c, slots, index, |completed|);
        return None;
      } else {
        completed := completed + [item.coverage];
      }
    }
    assert PrefixState(c, slots, |completed|);
    done := Some(completed);
  }

  /** A trio behind a gap, or a refused one, excludes every prefix. */
  lemma NoPrefix(c: CaptureConfig, slots: seq<Slot>, index: nat, k: nat)
    requires c.Valid() && |slots| == |c.queries| && k <= index < |slots|
    requires forall i :: k <= i < index ==> slots[i] == EMPTY
    requires slots[index] != EMPTY && (Trio(c, index, slots[index]) ==> k < index)
    ensures !exists j :: PrefixState(c, slots, j)
  {
    forall j ensures !PrefixState(c, slots, j) {
      var here, gap := Trio(c, index, slots[index]), Trio(c, k, slots[k]);
    }
  }

  /** The state directory: the trios, the saved progress, and temporaries that no list allows. */
  datatype Directory = Directory(slots: seq<Slot>, progress: Option<seq<Coverage>>, temporaries: nat)

  /** Nothing unlisted lies in the directory, and the complete trios form a prefix of `k` queries that
      extends the saved progress. */
  ghost predicate Resumable(c: CaptureConfig, d: Directory, k: nat)
    requires |d.slots| == |c.queries|
  {
    && d.temporaries == 0 && PrefixState(c, d.slots, k)
    && (d.progress.Some? ==> d.progress.value <= Coverages(d.slots, k))
  }

  /** What a restart does with the directory: the coverages it may build on, or a refusal. Entries
      that are not listed are refused before any trio is read. */
  method Resume(c: CaptureConfig, d: Directory) returns (done: Option<seq<Coverage>>)
    requires c.Valid() && |d.slots| == |c.queries|
    ensures done.Some? <==> exists k: nat :: Resumable(c, d, k)
    ensures done.Some? ==> Resumable(c, d, |done.value|) && done.value == Coverages(d.slots, |done.value|)
  {
    if d.temporaries > 0 {
      return None;
    }
    done := Scan(c, d.slots);
    if done.None? {
      return;
    }
    ghost var k := |done.value|;
    OnlyPrefix(c, d.slots, k);
    if d.progress.Some? {
      var p := |d.progress.value|;
      if p > |done.value| || done.value[..p] != d.progress.value {
        return None;
      }
    }
    assert Resumable(c, d, k);
  }

  lemma OnlyPrefix(c: CaptureConfig, slots: seq<Slot>, k: nat)
    requires |slots| == |c.queries| && PrefixState(c, slots, k)
    ensures forall j: nat :: PrefixState(c, slots, j) ==> j == k
  {
    forall j: nat | PrefixState(c, slots, j) ensures j == k {
      var a := k < |slots| && Trio(c, k, slots[k]);
      var b := j < |slots| && Trio(c, j, slots[j]);
    }
  }

  // ---- capturing -----------------------------------------------------------------------------------------------------

  /** The shards that scoring a query yields. */
  datatype Shards = Shards(scores: Bytes, vector: Bytes)

  predicate ShardsOk(c: CaptureConfig, s: Shards) {
    |s.scores| == c.ScoreBytes() && |s.vector| == c.VectorBytes()
  }

  ghost predicate AllShardsOk(c: CaptureConfig, shards: nat -> Shards) {
    forall i :: 0 <= i < |c.queries| ==> ShardsOk(c, shards(i))
  }

  function FullSlot(c: CaptureConfig, i: nat, s: Shards): Slot
    requires i < |c.queries|
  {
    Slot(Some(CoverageFor(c, i, s.scores, s.vector)), Some(s.scores), Some(s.vector))
  }

  /** Publishing all files of the next query extends the prefix and its coverages by one. */
  lemma FullSlotExtends(c: CaptureConfig, slots: seq<Slot>, k: nat, s: Shards)
    requires |slots| == |c.queries| && k < |slots| && PrefixState(c, slots, k) && ShardsOk(c, s)
    ensures var more := slots[k := FullSlot(c, k, s)];
      PrefixState(c, more, k + 1) && Coverages(more, k + 1) == Coverages(slots, k) + [CoverageFor(c, k, s.scores, s.vector)]
  {
    assert Trio(c, k, FullSlot(c, k, s));
  }

  /** The files of one query after `stage` of its three publications: scores, vector, coverage. */
  function StagedSlot(c: CaptureConfig, i: nat, s: Shards, stage: nat): Slot
    requires i < |c.queries|
  {
    if stage == 0 then EMPTY
    else if stage == 1 then Slot(None, Some(s.scores), None)
    else if stage == 2 then Slot(None, Some(s.scores), Some(s.vector))
    else FullSlot(c, i, s)
  }

  /** From the first `first` queries the capture has come to `index`. */
  ghost predicate Advanced(c: CaptureConfig, start: seq<Slot>, slots: seq<Slot>, first: nat, index: nat, completed: seq<Coverage>)
    requires |slots| == |c.queries|
  {
    && first <= index <= |slots| == |start| && PrefixState(c, slots, index) && completed == Coverages(slots, index)
    && slots[..first] == start[..first]
  }

  lemma AdvanceStep(c: CaptureConfig, start: seq<Slot>, before: seq<Slot>, slots: seq<Slot>, first: nat, index: nat, completed: seq<Coverage>, item: Coverage)
    requires |before| == |slots| == |c.queries| && Advanced(c, start, before, first, index, completed)
    requires index < |slots| && slots == before[index := slots[index]] && PrefixState(c, slots, index + 1)
    requires completed + [item] == Coverages(slots, index + 1)
    ensures Advanced(c, start, slots, first, index + 1, completed + [item])
  {
  }

  class CaptureState {
    var slots: seq<Slot>
    var progress: Option<seq<Coverage>>
    var temporaries: nat
    /** Queries for which the embedder was called, in order. */
    ghost var embedded: seq<nat>

    ghost predicate Valid(c: CaptureConfig)
      reads this
    {
      c.Valid() && |slots| == |c.queries|
    }

    function State(): Directory
      reads this
    {
      Directory(slots, progress, temporaries)
    }

    /** One query: embed and score into a temporary, then publish the three files and the progress,
        each through a temporary of its own. */
    method CaptureQuery(c: CaptureConfig, index: nat, s: Shards, completed: seq<Coverage>) returns (item: Coverage)
      requires Valid(c) && index < |slots| && PrefixState(c, slots, index) && ShardsOk(c, s)
      requires completed == Coverages(slots, index)
      modifies this
      ensures Valid(c) && PrefixState(c, slots, index + 1) && slots == old(slots)[index := FullSlot(c, index, s)]
      ensures completed + [item] == Coverages(slots, index + 1) && progress == Some(completed + [item])
      ensures embedded == old(embedded) + [index] && temporaries == old(temporaries)
    {
      FullSlotExtends(c, slots, index, s);
      temporaries := temporaries + 1;
      embedded := embedded + [index];
      slots := slots[index := slots[index].(scores := Some(s.scores))];
      temporaries := temporaries - 1;
      temporaries := temporaries + 1;
      slots := slots[index := slots[index].(vector := Some(s.vector))];
      temporaries := temporaries - 1;
      item := CoverageFor(c, index, s.scores, s.vector);
      temporaries := temporaries + 1;
      slots := slots[index := slots[index].(coverage := Some(item))];
      temporaries := temporaries - 1;
      temporaries := temporaries + 1;
      progress, temporaries := Some(completed + [item]), temporaries - 1;
    }

    /** The body of the capture loop. */
    method CaptureNext(c: CaptureConfig, shards: nat -> Shards, ghost begin: seq<Slot>, ghost first: nat, completed: seq<Coverage>)
      returns (more: seq<Coverage>)
      requires Valid(c) && AllShardsOk(c, shards) && |completed| < |slots|
      requires Advanced(c, begin, slots, first, |completed|, completed)
      modifies this
      ensures Valid(c) && |more| == |completed| + 1 && Advanced(c, begin, slots, first, |more|, more) && progress == Some(more)
      ensures embedded == old(embedded) + [|completed|] && temporaries == old(temporaries)
    {
      ghost var before := slots;
      var item := CaptureQuery(c, |completed|, shards(|completed|), completed);
      AdvanceStep(c, begin, before, slots, first, |completed|, completed, item);
      more := completed + [item];
    }

    /** The capture loop from the first query that is not complete. */
    method CaptureFrom(c: CaptureConfig, shards: nat -> Shards, start: seq<Coverage>) returns (completed: seq<Coverage>)
      requires Valid(c) && AllShardsOk(c, shards)
      requires PrefixState(c, slots, |start|) && start == Coverages(slots, |start|) && progress == Some(start)
      modifies this
      ensures Valid(c) && Advanced(c, old(slots), slots, |start|, |slots|, completed) && progress == Some(completed)
      ensures embedded == old(embedded) + Counting(|start|, |slots|) && temporaries == old(temporaries)
    {
      completed := start;
      ghost var first, begin, log := |start|, slots, embedded;
      var index := |start|;
      while index < |slots|
        invariant Valid(c) && index == |completed| && Advanced(c, begin, slots, first, index, completed)
        invariant progress == Some(completed) && embedded == log + Counting(first, index)
        invariant temporaries == old(temporaries)
      {
        completed := CaptureNext(c, shards, begin, first, completed);
        index := index + 1;
      }
    }

    /** Resume and capture: every query that was not complete is captured once, in order, and no
        complete query is embedded again. A refusal changes nothing. */
    method CaptureRest(c: CaptureConfig, shards: nat -> Shards) returns (done: Option<seq<Coverage>>, ghost first: nat)
      requires Valid(c) && AllShardsOk(c, shards)
      modifies this
      ensures Valid(c) && temporaries == old(temporaries)
      ensures done.Some? <==> exists k: nat :: Resumable(c, old(State()), k)
      ensures done.Some? ==>
        && Resumable(c, old(State()), first)
        && Advanced(c, old(slots), slots, first, |slots|, done.value) && progress == done
        && embedded == old(embedded) + Counting(first, |slots|)
      ensures done.None? ==> State() == old(State()) && embedded == old(embedded)
    {
      var resumed := Resume(c, State());
      if resumed.None? {
        return None, 0;
      }
      first := |resumed.value|;
      if progress.None? || |progress.value| < |resumed.value| {
        progress := resumed;
      } else {
        assert progress.value == resumed.value;
      }
      var completed := CaptureFrom(c, shards, resumed.value);
      done := Some(completed);
    }
  }

  /** The numbers from `a` up to `b`. */
  ghost function Counting(a: nat, b: nat): (r: seq<nat>)
    requires a <= b
    ensures |r| == b - a && forall i :: 0 <= i < |r| ==> r[i] == a + i
  {
    if a == b then [] else Counting(a, b - 1) + [b - 1]
  }
}
