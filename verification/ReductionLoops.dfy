/** The loops that the lane runs, proved against the functions of `Reduction`. */
module ReductionLoops {
  import opened Evidence
  import opened Reduction

  /** `_deduplicated_spans`. */
  method DeduplicatedSpans(spans: seq<Span>) returns (r: seq<Span>)
    ensures r == Dedup(spans)
  {
    r := [];
    for i := 0 to |spans|
      invariant r == Dedup(spans[..i])
    {
      assert spans[..i + 1][..i] == spans[..i];
      if spans[i] !in r {
        r := r + [spans[i]];
      }
    }
    assert spans[..|spans|] == spans;
  }

  /** What one span does to the batches. */
  lemma {:induction false} PartitionStep(open: seq<Span>, spans: seq<Span>, i: nat, available: int)
    requires i < |spans|
    ensures JoinedCharacters(open + [spans[i]])
         == JoinedCharacters(open) + SpanCharacters(spans[i]) + (if open == [] then 0 else 1)
    ensures JoinedCharacters([spans[i]]) == SpanCharacters(spans[i])
    ensures PartitionFrom(open, spans[i..], available)
         == if open != [] && JoinedCharacters(open + [spans[i]]) > available
            then [open] + PartitionFrom([spans[i]], spans[i + 1..], available)
            else PartitionFrom(open + [spans[i]], spans[i + 1..], available)
  {
    JoinedSnoc(open, spans[i]);
    JoinedSnoc([], spans[i]);
    assert [] + [spans[i]] == [spans[i]];
    assert spans[i..][0] == spans[i] && spans[i..][1..] == spans[i + 1..];
  }

  lemma {:induction false} AllFitSnoc(spans: seq<Span>, i: nat, available: int)
    requires i < |spans| && AllFit(spans[..i], available) && 2 * SpanCharacters(spans[i]) + 1 <= available
    ensures AllFit(spans[..i + 1], available)
  {
    assert spans[..i + 1][..i] == spans[..i] && spans[..i + 1][i] == spans[i];
  }

  lemma {:induction false} CannotFit(spans: seq<Span>, i: nat, available: int)
    requires i < |spans| && 2 * SpanCharacters(spans[i]) + 1 > available
    ensures !AllFit(spans, available)
  {
    AllFitMembers(spans, available);
    assert spans[i] in spans && !SpanFits(spans[i], available);
  }

  /** `_partition_reduce_spans`; `None` is the "cannot enter bounded hierarchical reduce" error. */
  method PartitionReduceSpans(spans: seq<Span>, available: int) returns (r: Option<seq<seq<Span>>>)
    ensures r.Some? <==> AllFit(spans, available)
    ensures r.Some? ==> r.value == Partition(spans, available)
  {
    var batches: seq<seq<Span>> := [];
    var open: seq<Span> := [];
    var size := 0;
    for i := 0 to |spans|
      invariant AllFit(spans[..i], available)
      invariant size == JoinedCharacters(open)
      invariant Partition(spans, available) == batches + PartitionFrom(open, spans[i..], available)
    {
      var span := spans[i];
      var spanSize := SpanCharacters(span);
      if 2 * spanSize + 1 > available {
        CannotFit(spans, i, available);
        return None;
      }
      AllFitSnoc(spans, i, available);
      PartitionStep(open, spans, i, available);
      var combined := size + spanSize + (if open == [] then 0 else 1);
      if open != [] && combined > available {
        batches := batches + [open];
        open := [span];
        size := spanSize;
      } else {
        open := open + [span];
        size := combined;
      }
    }
    assert spans[..|spans|] == spans && spans[|spans|..] == [];
    if open != [] {
      batches := batches + [open];
    }
    r := Some(batches);
  }

  /** `next` followed by what the rest of a round yields. */
  ghost function After(next: seq<Span>, c: Consumed): Consumed {
    if c.Finished? then Finished(next + c.next, c.rest) else c
  }

  /** The batch loop of one round, starting at `from` in the completed reductions. */
  method ReplayRound(batches: seq<seq<Span>>, done: seq<BatchResult>, from: nat, round: nat)
    returns (c: Consumed, offset: nat)
    requires from <= |done|
    ensures c == Consume(batches, done[from..], round, 0)
    ensures from <= offset <= |done|
    ensures c.Finished? ==> c.rest == done[offset..] && offset == from + |batches|
  {
    offset := from;
    ghost var goal := Consume(batches, done[from..], round, 0);
    var next: seq<Span> := [];
    for b := 0 to |batches|
      invariant offset == from + b <= |done|
      invariant goal == After(next, Consume(batches, done[offset..], round, b))
    {
      if offset == |done| {
        return Stopped(b), offset;
      }
      var result := done[offset];
      assert done[offset..][0] == result && done[offset..][1..] == done[offset + 1..];
      if result.round != round || result.batch != b || result.input != batches[b] {
        return Bad(StaleInput), offset;
      }
      if !Subset(result.spans, batches[b]) {
        return Bad(NewSpan), offset;
      }
      if |batches| > 1 && |result.spans| > ShrinkBound(|batches[b]|) {
        return Bad(BatchTooLarge), offset;
      }
      ghost var tail := Consume(batches, done[offset + 1..], round, b + 1);
      assert tail.Finished? ==> next + (result.spans + tail.next) == (next + result.spans) + tail.next;
      next := next + result.spans;
      offset := offset + 1;
    }
    assert next + [] == next;
    c := Finished(next, done[offset..]);
  }

  /** The body of the round loop. */
  method ComputeRound(frontier: seq<Span>, done: seq<BatchResult>, from: nat, round: nat, available: int, responses: seq<string>)
    returns (step: RoundStep, offset: nat)
    requires from <= |done|
    ensures step == Round(frontier, done[from..], round, available, responses)
    ensures step.Continue? ==> from <= offset <= |done| && step.rest == done[offset..]
  {
    offset := from;
    var partition := PartitionReduceSpans(frontier, available);
    if partition.None? {
      return Settled(Broken(SpanCannotEnter)), from;
    }
    var batches := partition.value;
    var c, end := ReplayRound(batches, done, from, round);
    if c.Bad? {
      return Settled(Broken(c.why)), from;
    } else if c.Stopped? {
      return Settled(Pending(round, c.at, batches[c.at], |batches| == 1)), from;
    }
    offset := end;
    if |batches| == 1 {
      if offset != |done| {
        return Settled(Broken(BatchesAfterFinal)), offset;
      }
      FinishedOne(batches, done[from..], round);
      var final := done[offset - 1];
      return Settled(Terminal(ProviderResult(final.providerRelevant, final.spans, final.rejected, responses))), offset;
    }
    var unique := DeduplicatedSpans(c.next);
    if |unique| >= |frontier| {
      return Settled(Broken(DidNotShrink)), offset;
    }
    if unique == [] {
      return Settled(if offset != |done| then Broken(BatchesAfterEmpty)
                     else Terminal(ProviderResult(false, [], 0, responses))), offset;
    }
    step := Continue(unique, done[offset..]);
  }

  datatype Point = Point(frontier: seq<Span>, rest: seq<BatchResult>)

  ghost predicate Leads(a: Point, b: Point, round: nat, available: int, responses: seq<string>) {
    Round(a.frontier, a.rest, round, available, responses) == Continue(b.frontier, b.rest)
  }

  /** The rounds passed through so far. */
  ghost predicate Trail(trail: seq<Point>, available: int, responses: seq<string>) {
    forall i, j :: 0 <= i && j == i + 1 < |trail| ==> Leads(trail[i], trail[j], i, available, responses)
  }

  lemma WalkStep(a: Point, b: Point, round: nat, available: int, responses: seq<string>)
    requires round < MAX_REDUCE_ROUNDS && Leads(a, b, round, available, responses)
    ensures Walk(a.frontier, a.rest, round, available, responses)
         == Walk(b.frontier, b.rest, round + 1, available, responses)
  {
  }

  lemma {:induction false} ChainEqual<T>(outs: seq<T>, k: nat)
    requires k < |outs| && forall i, j :: 0 <= i && j == i + 1 < |outs| ==> outs[i] == outs[j]
    ensures outs[k] == outs[|outs| - 1]
    decreases |outs| - k
  {
    if k + 1 < |outs| {
      ChainEqual(outs, k + 1);
    }
  }

  /** The outcome at the end of a trail is the outcome at its start. */
  lemma TrailOutcome(trail: seq<Point>, available: int, responses: seq<string>)
    requires Trail(trail, available, responses) && 0 < |trail| <= MAX_REDUCE_ROUNDS + 1
    ensures var last := |trail| - 1;
      Walk(trail[0].frontier, trail[0].rest, 0, available, responses)
      == Walk(trail[last].frontier, trail[last].rest, last, available, responses)
  {
    var outs := seq(|trail|, i requires 0 <= i < |trail| => Walk(trail[i].frontier, trail[i].rest, i, available, responses));
    forall i, j | 0 <= i && j == i + 1 < |outs| ensures outs[i] == outs[j] {
      WalkStep(trail[i], trail[j], i, available, responses);
    }
    ChainEqual(outs, 0);
  }

  /** The round loop, advancing one offset through the completed reductions. */
  method ComputeWalk(spans: seq<Span>, done: seq<BatchResult>, available: int, responses: seq<string>)
    returns (state: State)
    ensures state == Walk(spans, done, 0, available, responses)
  {
    var frontier, offset := spans, 0;
    ghost var trail := [Point(spans, done)];
    for round := 0 to MAX_REDUCE_ROUNDS
      invariant 0 <= offset <= |done|
      invariant |trail| == round + 1 && trail[0] == Point(spans, done)
      invariant trail[round] == Point(frontier, done[offset..])
      invariant Trail(trail, available, responses)
    {
      var step, end := ComputeRound(frontier, done, offset, round, available, responses);
      if step.Settled? {
        TrailOutcome(trail, available, responses);
        return step.state;
      }
      frontier, offset := step.frontier, end;
      trail := trail + [Point(step.frontier, step.rest)];
    }
    state := Broken(RoundBound);
    TrailOutcome(trail, available, responses);
  }

  /** `_reduction_state`. */
  method ComputeReductionState(unitCount: nat, maps: seq<MapResult>, done: seq<BatchResult>, available: int)
    returns (state: State)
    ensures state == ReductionState(unitCount, maps, done, available)
  {
    if |maps| != unitCount {
      return Broken(MapsIncomplete);
    }
    var frontier := DeduplicatedSpans(MappedSpans(maps));
    if frontier == [] {
      return if done != [] then Broken(EmptyFrontierHasBatches) else Terminal(DeterministicEmpty);
    }
    state := ComputeWalk(frontier, done, available, Responses(done));
  }
}
