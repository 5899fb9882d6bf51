/** The combined score and query vector matrices: concatenated shards, opened by running offsets. */
module ScoreArtifact {
  import opened Evidence
  import opened Capture

  function Concat(ss: seq<Bytes>): Bytes {
    if ss == [] then [] else Concat(ss[..|ss| - 1]) + ss[|ss| - 1]
  }

  lemma {:induction false} ConcatGrows(ss: seq<Bytes>, i: nat)
    requires i <= |ss|
    ensures |Concat(ss[..i])| <= |Concat(ss)|
    decreases |ss| - i
  {
    if i < |ss| {
      assert ss[..i + 1][..i] == ss[..i];
      ConcatGrows(ss, i + 1);
    } else {
      assert ss[..i] == ss;
    }
  }

  /** `_publish_combined`: copies the shards block by block under a predicted size. */
  method PublishCombined(shards: seq<Bytes>, expected: nat, cap: nat) returns (r: Option<Bytes>)
    ensures r == if 1 <= expected <= cap && |Concat(shards)| == expected then Some(Concat(shards)) else None
  {
    if expected < 1 || expected > cap {
      return None;
    }
    var output: Bytes := [];
    for i := 0 to |shards|
      invariant output == Concat(shards[..i]) && |output| <= expected
    {
      var shard := shards[i];
      assert shards[..i + 1][..i] == shards[..i];
      assert Concat(shards[..i + 1]) == Concat(shards[..i]) + shard;
      ConcatGrows(shards, i + 1);
      var pos := 0;
      ghost var head := output;
      while pos < |shard|
        invariant 0 <= pos <= |shard| && output == head + shard[..pos] && |output| <= expected
      {
        var end := if pos + COPY_BLOCK < |shard| then pos + COPY_BLOCK else |shard|;
        var block := shard[pos..end];
        if |block| > expected - |output| {
          return None;
        }
        assert shard[..end] == shard[..pos] + block;
        output := output + block;
        pos := end;
      }
      assert shard[..|shard|] == shard;
    }
    assert shards[..|shards|] == shards;
    r := if |output| == expected then Some(output) else None;
  }

  // ---- one matrix ------------------------------------------------------------------------------------------------------

  /** A recorded segment of a matrix. */
  datatype Piece = Piece(offset: nat, size: nat, digest: Bytes)

  /** `array`: the bytes of a segment, if it lies within the matrix and has the recorded digest. */
  function Read(matrix: Bytes, p: Piece): Option<Bytes> {
    if p.size < 1 || p.offset + p.size > |matrix| then None
    else if matrix[p.offset..p.offset + p.size] != p.digest then None
    else Some(matrix[p.offset..p.offset + p.size])
  }

  function Start(ps: seq<Piece>, n: nat): nat
    requires n <= |ps|
  {
    if n == 0 then 0 else Start(ps, n - 1) + ps[n - 1].size
  }

  predicate FitsAt(ps: seq<Piece>, matrix: Bytes, i: nat)
    requires i < |ps|
  {
    ps[i].offset == Start(ps, i) && Read(matrix, ps[i]).Some?
  }

  predicate FitUpTo(ps: seq<Piece>, matrix: Bytes, n: nat)
    requires n <= |ps|
  {
    n == 0 || (FitUpTo(ps, matrix, n - 1) && FitsAt(ps, matrix, n - 1))
  }

  /** Each segment starts where the one before ended, all can be read, the last ends with the matrix. */
  predicate Tiles(ps: seq<Piece>, matrix: Bytes) {
    FitUpTo(ps, matrix, |ps|) && Start(ps, |ps|) == |matrix|
  }

  function Digests(ps: seq<Piece>): (r: seq<Bytes>)
    ensures |r| == |ps| && forall i :: 0 <= i < |r| ==> r[i] == ps[i].digest
  {
    if ps == [] then [] else Digests(ps[..|ps| - 1]) + [ps[|ps| - 1].digest]
  }

  lemma ConcatSnoc(ss: seq<Bytes>, s: Bytes)
    ensures Concat(ss + [s]) == Concat(ss) + s
  {
    assert (ss + [s])[..|ss|] == ss;
  }

  lemma TileStep(matrix: Bytes, p: Piece, before: Bytes)
    requires p.offset <= |matrix| && matrix[..p.offset] == before && Read(matrix, p).Some?
    ensures p.offset + p.size <= |matrix| && matrix[..p.offset + p.size] == before + p.digest
  {
    var a, b := p.offset, p.offset + p.size;
    assert matrix[..b] == matrix[..a] + matrix[a..b];
  }

  lemma {:induction false} FitsConcat(ps: seq<Piece>, matrix: Bytes, n: nat)
    requires n <= |ps| && FitUpTo(ps, matrix, n)
    ensures Start(ps, n) <= |matrix| && matrix[..Start(ps, n)] == Concat(Digests(ps)[..n])
  {
    var ds := Digests(ps);
    if n == 0 {
      assert ds[..0] == [];
    } else {
      FitsConcat(ps, matrix, n - 1);
      TileStep(matrix, ps[n - 1], Concat(ds[..n - 1]));
      ConcatSnoc(ds[..n - 1], ds[n - 1]);
      assert ds[..n] == ds[..n - 1] + [ds[n - 1]];
    }
  }

  /** The segments that tile a matrix are the whole matrix, in order. */
  lemma TilesWhole(ps: seq<Piece>, matrix: Bytes)
    requires Tiles(ps, matrix)
    ensures matrix == Concat(Digests(ps))
  {
    FitsConcat(ps, matrix, |ps|);
    assert matrix[..|matrix|] == matrix && Digests(ps)[..|ps|] == Digests(ps);
  }

  // ---- equal shards ----------------------------------------------------------------------------------------------------

  ghost predicate Even(ss: seq<Bytes>, size: nat) {
    forall k :: 0 <= k < |ss| ==> |ss[k]| == size
  }

  lemma {:induction false} ConcatSize(ss: seq<Bytes>, size: nat)
    requires Even(ss, size)
    ensures |Concat(ss)| == Scaled(|ss|, size)
  {
    if ss != [] {
      ConcatSize(ss[..|ss| - 1], size);
    }
  }

  lemma SliceLeft(x: Bytes, y: Bytes, a: nat, b: nat)
    requires a <= b <= |x|
    ensures (x + y)[a..b] == x[a..b]
  {
  }

  lemma {:induction false} ConcatAt(ss: seq<Bytes>, size: nat, i: nat)
    requires i < |ss| && Even(ss, size)
    ensures Scaled(i, size) + size <= |Concat(ss)| && Concat(ss)[Scaled(i, size)..Scaled(i, size) + size] == ss[i]
  {
    var n := |ss| - 1;
    var front := ss[..n];
    ConcatSize(front, size);
    if i < n {
      ConcatAt(front, size, i);
      SliceLeft(Concat(front), ss[n], Scaled(i, size), Scaled(i, size) + size);
    }
  }

  /** The recorded segments of equal shards. */
  ghost predicate Laid(ps: seq<Piece>, ss: seq<Bytes>, size: nat) {
    |ps| == |ss| && forall i :: 0 <= i < |ps| ==> ps[i] == Piece(Scaled(i, size), size, ss[i])
  }

  lemma {:induction false} LaidStart(ps: seq<Piece>, ss: seq<Bytes>, size: nat, n: nat)
    requires Laid(ps, ss, size) && n <= |ps|
    ensures Start(ps, n) == Scaled(n, size)
  {
    if n > 0 {
      LaidStart(ps, ss, size, n - 1);
    }
  }

  lemma ReadOne(ps: seq<Piece>, ss: seq<Bytes>, size: nat, i: nat)
    requires Laid(ps, ss, size) && Even(ss, size) && size >= 1 && i < |ss|
    ensures Read(Concat(ss), ps[i]) == Some(ss[i]) && ps[i].offset == Start(ps, i)
  {
    ConcatAt(ss, size, i);
    LaidStart(ps, ss, size, i);
  }

  lemma {:induction false} LaidFits(ps: seq<Piece>, ss: seq<Bytes>, size: nat, n: nat)
    requires Laid(ps, ss, size) && Even(ss, size) && size >= 1 && n <= |ps|
    ensures FitUpTo(ps, Concat(ss), n)
  {
    if n > 0 {
      LaidFits(ps, ss, size, n - 1);
      ReadOne(ps, ss, size, n - 1);
    }
  }

  /** Equal shards, concatenated, are tiled by their recorded segments; each reads back unchanged. */
  lemma LaidTiles(ps: seq<Piece>, ss: seq<Bytes>, size: nat)
    requires Laid(ps, ss, size) && Even(ss, size) && size >= 1
    ensures Tiles(ps, Concat(ss))
  {
    LaidFits(ps, ss, size, |ps|);
    LaidStart(ps, ss, size, |ps|);
    ConcatSize(ss, size);
  }

  // ---- opening ---------------------------------------------------------------------------------------------------------

  datatype Manifest = Manifest(queryCount: nat, rows: nat, scoreCount: nat, scoreMatrix: Bytes, vectorMatrix: Bytes)

  function ScorePiece(c: Coverage): Piece { Piece(c.scoreOffset, c.ScoreSize(), c.scores) }

  function VectorPiece(c: Coverage): Piece { Piece(c.vectorOffset, c.VectorSize(), c.vector) }

  function ScorePieces(cs: seq<Coverage>): (r: seq<Piece>)
    ensures |r| == |cs| && forall i :: 0 <= i < |r| ==> r[i] == ScorePiece(cs[i])
  {
    if cs == [] then [] else ScorePieces(cs[..|cs| - 1]) + [ScorePiece(cs[|cs| - 1])]
  }

  function VectorPieces(cs: seq<Coverage>): (r: seq<Piece>)
    ensures |r| == |cs| && forall i :: 0 <= i < |r| ==> r[i] == VectorPiece(cs[i])
  {
    if cs == [] then [] else VectorPieces(cs[..|cs| - 1]) + [VectorPiece(cs[|cs| - 1])]
  }

  function ScoreTotal(cs: seq<Coverage>): nat {
    if cs == [] then 0 else ScoreTotal(cs[..|cs| - 1]) + cs[|cs| - 1].scoreCount
  }

  function ScoreStart(cs: seq<Coverage>, n: nat): nat
    requires n <= |cs|
  {
    if n == 0 then 0 else ScoreStart(cs, n - 1) + cs[n - 1].ScoreSize()
  }

  function VectorStart(cs: seq<Coverage>, n: nat): nat
    requires n <= |cs|
  {
    if n == 0 then 0 else VectorStart(cs, n - 1) + cs[n - 1].VectorSize()
  }

  predicate PlacedAt(m: Manifest, cs: seq<Coverage>, i: nat)
    requires i < |cs|
  {
    && cs[i].Valid() && cs[i].ordinal == i && cs[i].rows == m.rows
    && cs[i].scoreOffset == ScoreStart(cs, i) && cs[i].vectorOffset == VectorStart(cs, i)
  }

  predicate Placed(m: Manifest, cs: seq<Coverage>, n: nat)
    requires n <= |cs|
  {
    n == 0 || (Placed(m, cs, n - 1) && PlacedAt(m, cs, n - 1))
  }

  predicate Readable(cs: seq<Coverage>, scores: Bytes, vectors: Bytes, n: nat)
    requires n <= |cs|
  {
    n == 0
    || (Readable(cs, scores, vectors, n - 1)
        && Read(scores, ScorePiece(cs[n - 1])).Some? && Read(vectors, VectorPiece(cs[n - 1])).Some?)
  }

  predicate UniqueQueries(cs: seq<Coverage>) {
    forall i, j :: 0 <= i < j < |cs| ==> cs[i].query != cs[j].query
  }

  /** What `open_score_artifact` demands of the coverages and the two matrices. */
  predicate Opens(m: Manifest, cs: seq<Coverage>, scores: Bytes, vectors: Bytes) {
    && |cs| == m.queryCount && Placed(m, cs, |cs|) && UniqueQueries(cs)
    && ScoreStart(cs, |cs|) == |m.scoreMatrix| && VectorStart(cs, |cs|) == |m.vectorMatrix| && ScoreTotal(cs) == m.scoreCount
    && scores == m.scoreMatrix && vectors == m.vectorMatrix && Readable(cs, scores, vectors, |cs|)
  }

  lemma {:induction false} PlacedBefore(m: Manifest, cs: seq<Coverage>, i: nat, n: nat)
    requires i < n <= |cs| && Placed(m, cs, n)
    ensures PlacedAt(m, cs, i)
  {
    if i < n - 1 {
      PlacedBefore(m, cs, i, n - 1);
    }
  }

  lemma {:induction false} ReadableBefore(cs: seq<Coverage>, scores: Bytes, vectors: Bytes, i: nat, n: nat)
    requires i < n <= |cs| && Readable(cs, scores, vectors, n)
    ensures Read(scores, ScorePiece(cs[i])).Some? && Read(vectors, VectorPiece(cs[i])).Some?
  {
    if i < n - 1 {
      ReadableBefore(cs, scores, vectors, i, n - 1);
    }
  }

  /** The coverage loop with its running offsets. */
  method CheckOffsets(m: Manifest, cs: seq<Coverage>) returns (ok: bool, scoreEnd: nat, vectorEnd: nat, total: nat)
    ensures ok == Placed(m, cs, |cs|)
    ensures ok ==> scoreEnd == ScoreStart(cs, |cs|) && vectorEnd == VectorStart(cs, |cs|) && total == ScoreTotal(cs)
  {
    scoreEnd, vectorEnd, total := 0, 0, 0;
    for i := 0 to |cs|
      invariant scoreEnd == ScoreStart(cs, i) && vectorEnd == VectorStart(cs, i) && total == ScoreTotal(cs[..i])
      invariant Placed(m, cs, i)
    {
      assert cs[..i + 1][..i] == cs[..i];
      if !cs[i].Valid() || cs[i].ordinal != i || cs[i].rows != m.rows
         || cs[i].scoreOffset != scoreEnd || cs[i].vectorOffset != vectorEnd
      {
        if Placed(m, cs, |cs|) {
          PlacedBefore(m, cs, i, |cs|);
        }
        return false, 0, 0, 0;
      }
      scoreEnd := scoreEnd + cs[i].ScoreSize();
      vectorEnd := vectorEnd + cs[i].VectorSize();
      total := total + cs[i].scoreCount;
    }
    assert cs[..|cs|] == cs;
    ok := true;
  }

  method CheckSegments(cs: seq<Coverage>, scores: Bytes, vectors: Bytes) returns (ok: bool)
    ensures ok == Readable(cs, scores, vectors, |cs|)
  {
    for i := 0 to |cs|
      invariant Readable(cs, scores, vectors, i)
    {
      if Read(scores, ScorePiece(cs[i])).None? || Read(vectors, VectorPiece(cs[i])).None? {
        if Readable(cs, scores, vectors, |cs|) {
          ReadableBefore(cs, scores, vectors, i, |cs|);
        }
        return false;
      }
    }
    ok := true;
  }

  method Open(m: Manifest, cs: seq<Coverage>, scores: Bytes, vectors: Bytes) returns (ok: bool)
    ensures ok == Opens(m, cs, scores, vectors)
  {
    if |cs| != m.queryCount {
      return false;
    }
    var placed, scoreEnd, vectorEnd, total := CheckOffsets(m, cs);
    if !placed || !UniqueQueries(cs) || scoreEnd != |m.scoreMatrix| || vectorEnd != |m.vectorMatrix| || total != m.scoreCount
       || scores != m.scoreMatrix || vectors != m.vectorMatrix
    {
      return false;
    }
    ok := CheckSegments(cs, scores, vectors);
  }

  lemma {:induction false} PieceStarts(cs: seq<Coverage>, n: nat)
    requires n <= |cs|
    ensures Start(ScorePieces(cs), n) == ScoreStart(cs, n) && Start(VectorPieces(cs), n) == VectorStart(cs, n)
  {
    if n > 0 {
      PieceStarts(cs, n - 1);
    }
  }

  lemma {:induction false} OpenedFits(m: Manifest, cs: seq<Coverage>, scores: Bytes, vectors: Bytes, n: nat)
    requires n <= |cs| && Placed(m, cs, n) && Readable(cs, scores, vectors, n)
    ensures FitUpTo(ScorePieces(cs), scores, n) && FitUpTo(VectorPieces(cs), vectors, n)
  {
    if n > 0 {
      OpenedFits(m, cs, scores, vectors, n - 1);
      PieceStarts(cs, n - 1);
    }
  }

  /** The segments of an opened artifact are the whole of both matrices, in query order. */
  lemma SegmentsTile(m: Manifest, cs: seq<Coverage>, scores: Bytes, vectors: Bytes)
    requires Opens(m, cs, scores, vectors)
    ensures scores == Concat(Digests(ScorePieces(cs))) && vectors == Concat(Digests(VectorPieces(cs)))
  {
    OpenedFits(m, cs, scores, vectors, |cs|);
    PieceStarts(cs, |cs|);
    TilesWhole(ScorePieces(cs), scores);
    TilesWhole(VectorPieces(cs), vectors);
  }

  // ---- the round trip --------------------------------------------------------------------------------------------------

  /** All queries are captured. */
  ghost predicate Complete(c: CaptureConfig, slots: seq<Slot>) {
    |slots| == |c.queries| && forall i :: 0 <= i < |slots| ==> Trio(c, i, slots[i])
  }

  ghost function ScoreShards(slots: seq<Slot>): (r: seq<Bytes>)
    requires forall i :: 0 <= i < |slots| ==> slots[i].scores.Some?
    ensures |r| == |slots| && forall i :: 0 <= i < |r| ==> r[i] == slots[i].scores.value
  {
    if slots == [] then [] else ScoreShards(slots[..|slots| - 1]) + [slots[|slots| - 1].scores.value]
  }

  ghost function VectorShards(slots: seq<Slot>): (r: seq<Bytes>)
    requires forall i :: 0 <= i < |slots| ==> slots[i].vector.Some?
    ensures |r| == |slots| && forall i :: 0 <= i < |r| ==> r[i] == slots[i].vector.value
  {
    if slots == [] then [] else VectorShards(slots[..|slots| - 1]) + [slots[|slots| - 1].vector.value]
  }

  lemma TrioPieces(c: CaptureConfig, i: nat, s: Slot)
    requires c.Valid() && i < |c.queries| && Trio(c, i, s)
    ensures ScorePiece(s.coverage.value) == Piece(Scaled(i, c.ScoreBytes()), c.ScoreBytes(), s.scores.value)
    ensures VectorPiece(s.coverage.value) == Piece(Scaled(i, c.VectorBytes()), c.VectorBytes(), s.vector.value)
    ensures s.coverage.value.Valid() && s.coverage.value.ordinal == i && s.coverage.value.rows == c.rows
    ensures s.coverage.value.query == c.queries[i] && s.coverage.value.scoreCount == c.rows
    ensures |s.scores.value| == c.ScoreBytes() >= 1 && |s.vector.value| == c.VectorBytes() >= 1
  {
  }

  lemma CompleteAt(c: CaptureConfig, slots: seq<Slot>, cs: seq<Coverage>, i: nat)
    requires c.Valid() && Complete(c, slots) && cs == Coverages(slots, |slots|) && i < |slots|
    ensures ScorePieces(cs)[i] == Piece(Scaled(i, c.ScoreBytes()), c.ScoreBytes(), ScoreShards(slots)[i])
    ensures VectorPieces(cs)[i] == Piece(Scaled(i, c.VectorBytes()), c.VectorBytes(), VectorShards(slots)[i])
    ensures |ScoreShards(slots)[i]| == c.ScoreBytes() && |VectorShards(slots)[i]| == c.VectorBytes()
  {
    assert Trio(c, i, slots[i]);
    TrioPieces(c, i, slots[i]);
  }

  lemma CompleteLaid(c: CaptureConfig, slots: seq<Slot>, cs: seq<Coverage>)
    requires c.Valid() && Complete(c, slots) && cs == Coverages(slots, |slots|)
    ensures Laid(ScorePieces(cs), ScoreShards(slots), c.ScoreBytes()) && Even(ScoreShards(slots), c.ScoreBytes())
    ensures Laid(VectorPieces(cs), VectorShards(slots), c.VectorBytes()) && Even(VectorShards(slots), c.VectorBytes())
  {
    forall i | 0 <= i < |slots|
      ensures ScorePieces(cs)[i] == Piece(Scaled(i, c.ScoreBytes()), c.ScoreBytes(), ScoreShards(slots)[i])
      ensures VectorPieces(cs)[i] == Piece(Scaled(i, c.VectorBytes()), c.VectorBytes(), VectorShards(slots)[i])
      ensures |ScoreShards(slots)[i]| == c.ScoreBytes() && |VectorShards(slots)[i]| == c.VectorBytes()
    {
      CompleteAt(c, slots, cs, i);
    }
  }

  lemma {:induction false} CompleteTotal(c: CaptureConfig, slots: seq<Slot>, cs: seq<Coverage>, n: nat)
    requires c.Valid() && Complete(c, slots) && cs == Coverages(slots, |slots|) && n <= |cs|
    ensures ScoreTotal(cs[..n]) == Scaled(n, c.rows)
  {
    if n > 0 {
      CompleteTotal(c, slots, cs, n - 1);
      assert cs[..n][..n - 1] == cs[..n - 1];
      assert Trio(c, n - 1, slots[n - 1]);
      TrioPieces(c, n - 1, slots[n - 1]);
    }
  }

  ghost predicate Described(cs: seq<Coverage>, rows: nat) {
    forall i :: 0 <= i < |cs| ==> cs[i].Valid() && cs[i].ordinal == i && cs[i].rows == rows
  }

  lemma CompleteDescribed(c: CaptureConfig, slots: seq<Slot>, cs: seq<Coverage>)
    requires c.Valid() && Complete(c, slots) && cs == Coverages(slots, |slots|)
    ensures Described(cs, c.rows)
  {
    forall i | 0 <= i < |cs| ensures cs[i].Valid() && cs[i].ordinal == i && cs[i].rows == c.rows {
      assert Trio(c, i, slots[i]);
      TrioPieces(c, i, slots[i]);
    }
  }

  lemma {:induction false} FitsPlaced(cs: seq<Coverage>, m: Manifest, scores: Bytes, vectors: Bytes, n: nat)
    requires Described(cs, m.rows) && n <= |cs|
    requires FitUpTo(ScorePieces(cs), scores, n) && FitUpTo(VectorPieces(cs), vectors, n)
    ensures Placed(m, cs, n) && Readable(cs, scores, vectors, n)
  {
    if n > 0 {
      FitsPlaced(cs, m, scores, vectors, n - 1);
      PieceStarts(cs, n - 1);
    }
  }

  lemma CompleteUnique(c: CaptureConfig, slots: seq<Slot>, cs: seq<Coverage>)
    requires c.Valid() && Complete(c, slots) && cs == Coverages(slots, |slots|)
    ensures UniqueQueries(cs)
  {
    forall i | 0 <= i < |cs| ensures cs[i].query == c.queries[i] {
      assert Trio(c, i, slots[i]);
    }
  }

  /** The manifest of a complete capture. */
  ghost function CombinedManifest(c: CaptureConfig, slots: seq<Slot>): Manifest
    requires Complete(c, slots)
  {
    Manifest(|c.queries|, c.rows, Scaled(|c.queries|, c.rows), Concat(ScoreShards(slots)), Concat(VectorShards(slots)))
  }

  lemma CompleteTiles(c: CaptureConfig, slots: seq<Slot>, cs: seq<Coverage>)
    requires c.Valid() && Complete(c, slots) && cs == Coverages(slots, |slots|)
    ensures Tiles(ScorePieces(cs), Concat(ScoreShards(slots))) && Tiles(VectorPieces(cs), Concat(VectorShards(slots)))
  {
    CompleteLaid(c, slots, cs);
    LaidTiles(ScorePieces(cs), ScoreShards(slots), c.ScoreBytes());
    LaidTiles(VectorPieces(cs), VectorShards(slots), c.VectorBytes());
  }

  /** Capture, combine and open: the artifact is accepted. */
  lemma CaptureThenOpen(c: CaptureConfig, slots: seq<Slot>)
    requires c.Valid() && Complete(c, slots)
    ensures var m := CombinedManifest(c, slots);
      Opens(m, Coverages(slots, |slots|), m.scoreMatrix, m.vectorMatrix)
  {
    var m, cs := CombinedManifest(c, slots), Coverages(slots, |slots|);
    CompleteTotal(c, slots, cs, |cs|);
    assert cs[..|cs|] == cs;
    CompleteTiles(c, slots, cs);
    CompleteUnique(c, slots, cs);
    CompleteDescribed(c, slots, cs);
    FitsPlaced(cs, m, m.scoreMatrix, m.vectorMatrix, |cs|);
    PieceStarts(cs, |cs|);
  }

  /** Every query reads back exactly the scores and the vector that were captured for it. */
  lemma CapturedReadsBack(c: CaptureConfig, slots: seq<Slot>, i: nat)
    requires c.Valid() && Complete(c, slots) && i < |slots|
    ensures var m, cs := CombinedManifest(c, slots), Coverages(slots, |slots|);
      && Read(m.scoreMatrix, ScorePiece(cs[i])) == slots[i].scores
      && Read(m.vectorMatrix, VectorPiece(cs[i])) == slots[i].vector
  {
    var cs := Coverages(slots, |slots|);
    CompleteLaid(c, slots, cs);
    ReadOne(ScorePieces(cs), ScoreShards(slots), c.ScoreBytes(), i);
    ReadOne(VectorPieces(cs), VectorShards(slots), c.VectorBytes(), i);
  }
}
