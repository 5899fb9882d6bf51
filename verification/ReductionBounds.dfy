/** Why the hierarchical reduction always ends: every non-final round halves the frontier, so
    rounds and batches stay below their sealed limits and the corresponding error branches of
    the replay cannot be taken. */
module ReductionBounds {
  import opened Evidence
  import opened Reduction

  function CeilHalf(n: nat): nat { (n + 1) / 2 }

  /** Non-final rounds that `n` spans can still cause. */
  function Levels(n: nat): nat {
    if n <= 2 then 0 else 1 + Levels(CeilHalf(n))
  }

  lemma {:induction false} LevelsMonotone(m: nat, n: nat)
    requires m <= n
    ensures Levels(m) <= Levels(n)
  {
    if m > 2 {
      LevelsMonotone(CeilHalf(m), CeilHalf(n));
    }
  }

  function Power(k: nat): nat { if k == 0 then 1 else 2 * Power(k - 1) }

  /** The levels are the binary logarithm: more than `2^k` and at most `2^(k+1)` spans have `k` of them. */
  lemma {:induction false} LevelsAre(n: nat, k: nat)
    requires Power(k) < n <= Power(k + 1)
    ensures Levels(n) == k
  {
    if k > 0 {
      assert Power(k) >= 2 * Power(k - 1) >= 2 by { PowerPositive(k - 1); }
      LevelsAre(CeilHalf(n), k - 1);
    }
  }

  lemma {:induction false} PowerPositive(k: nat)
    ensures Power(k) >= 1
  {
    if k > 0 {
      PowerPositive(k - 1);
    }
  }

  /** The largest admissible frontier, 64 spans from each of 100,000 units, needs 23 rounds. */
  lemma LargestFrontierLevels()
    ensures Levels(MAX_PROVIDER_SPANS * MAX_MAP_UNITS) == 22
  {
    assert Power(2) == 4 && Power(4) == 16 && Power(6) == 64 && Power(8) == 256 && Power(10) == 1_024;
    assert Power(12) == 4_096 && Power(14) == 16_384 && Power(16) == 65_536 && Power(18) == 262_144;
    assert Power(20) == 1_048_576 && Power(22) == 4_194_304 && Power(23) == 8_388_608;
    LevelsAre(MAX_PROVIDER_SPANS * MAX_MAP_UNITS, 22);
  }

  ghost predicate Paired(batches: seq<seq<Span>>) {
    && (forall i :: 0 <= i < |batches| ==> batches[i] != [])
    && (forall i :: 0 <= i < |batches| - 1 ==> |batches[i]| >= 2)
  }

  /** Most spans a round over these batches can keep. */
  function Kept(batches: seq<seq<Span>>): nat {
    if batches == [] then 0 else ShrinkBound(|batches[0]|) + Kept(batches[1..])
  }

  lemma {:induction false} PairedHalves(batches: seq<seq<Span>>)
    requires Paired(batches)
    ensures Kept(batches) <= CeilHalf(|Flatten(batches)|)
    ensures |batches| <= CeilHalf(|Flatten(batches)|)
  {
    if |batches| > 0 {
      var rest := batches[1..];
      assert forall i :: 0 <= i < |rest| ==> rest[i] == batches[i + 1];
      PairedHalves(rest);
      if rest == [] { assert Flatten(batches) == batches[0] + Flatten(rest); }
    }
  }

  lemma PartitionPaired(frontier: seq<Span>, available: int)
    requires AllFit(frontier, available) && frontier != []
    ensures var b := Partition(frontier, available);
            Paired(b) && Flatten(b) == frontier && |b| >= 1 && (|b| > 1 ==> |frontier| >= 3)
            && |b| <= CeilHalf(|frontier|)
  {
    var b := Partition(frontier, available);
    AllFitMembers(frontier, available);
    PartitionPairs(frontier, available);
    PartitionFits([], frontier, available);
    PartitionFlattens([], frontier, available);
    assert [] + frontier == frontier;
    PairedHalves(b);
  }

  lemma {:induction false} ConsumeKeeps(batches: seq<seq<Span>>, done: seq<BatchResult>, round: nat, b: nat)
    requires b <= |batches| && Consume(batches, done, round, b).Finished?
    ensures var c := Consume(batches, done, round, b);
      && |done| == |c.rest| + (|batches| - b)
      && c.rest == done[|batches| - b..]
      && (|batches| > 1 ==> |c.next| <= Kept(batches[b..]))
      && (forall s :: s in c.next ==> s in Flatten(batches[b..]))
    decreases |batches| - b
  {
    if b < |batches| {
      ConsumeKeeps(batches, done[1..], round, b + 1);
      SubsetMembers(done[0].spans, batches[b]);
      assert batches[b..][1..] == batches[b + 1..];
      assert Flatten(batches[b..]) == batches[b] + Flatten(batches[b + 1..]);
      var c := Consume(batches, done[1..], round, b + 1);
      assert done[1..][|batches| - b - 1..] == done[|batches| - b..];
    }
  }

  /** One finished non-final round: what remains is part of the frontier and at most half of it. */
  lemma RoundHalves(frontier: seq<Span>, done: seq<BatchResult>, round: nat, available: int)
    requires frontier != [] && AllFit(frontier, available)
    requires var b := Partition(frontier, available); Consume(b, done, round, 0).Finished?
    ensures var b := Partition(frontier, available);
            var c := Consume(b, done, round, 0);
            && Subset(Dedup(c.next), frontier)
            && AllFit(Dedup(c.next), available)
            && (|b| > 1 ==> |Dedup(c.next)| <= CeilHalf(|frontier|) < |frontier|)
  {
    var b := Partition(frontier, available);
    PartitionPaired(frontier, available);
    ConsumeKeeps(b, done, round, 0);
    assert b[0..] == b;
    PairedHalves(b);
    var next := Consume(b, done, round, 0).next;
    DedupFacts(next);
    SubsetMembers(Dedup(next), frontier);
    AllFitMembers(frontier, available);
    AllFitMembers(Dedup(next), available);
  }

  /** What a round leaves to the next one, and how it can break. */
  lemma {:induction false} RoundFacts(frontier: seq<Span>, done: seq<BatchResult>, round: nat, available: int, responses: seq<string>)
    requires frontier != [] && AllFit(frontier, available)
    ensures var step := Round(frontier, done, round, available, responses);
      && (step.Continue? ==>
        && AllFit(step.frontier, available) && Subset(step.frontier, frontier)
        && |step.frontier| <= CeilHalf(|frontier|) && |frontier| >= 3
        && |done| - |step.rest| <= CeilHalf(|frontier|))
      && (step.Settled? && step.state.Broken? ==>
        var e := step.state.error; !e.RoundBound? && !e.DidNotShrink? && !e.SpanCannotEnter?)
      && (step.Settled? && step.state.Terminal? ==> |done| <= CeilHalf(|frontier|))
      && (step.Settled? && step.state.Pending? ==>
        step.state.round == round && |done| == step.state.batch < CeilHalf(|frontier|))
  {
    var b := Partition(frontier, available);
    PartitionPaired(frontier, available);
    var c := Consume(b, done, round, 0);
    if c.Finished? {
      RoundHalves(frontier, done, round, available);
      ConsumeKeeps(b, done, round, 0);
    } else if c.Stopped? {
      ConsumeStops(b, done, round, 0);
    }
  }

  /** Whatever batches are recorded, the round bound, a round that did not shrink and an
      inadmissible span are never what breaks the replay. */
  lemma {:induction false} WalkNeverOverruns(
      frontier: seq<Span>, done: seq<BatchResult>, round: nat, available: int, responses: seq<string>)
    requires frontier != [] && AllFit(frontier, available)
    requires round + Levels(|frontier|) < MAX_REDUCE_ROUNDS
    ensures var w := Walk(frontier, done, round, available, responses);
      w.Broken? ==> !w.error.RoundBound? && !w.error.DidNotShrink? && !w.error.SpanCannotEnter?
    decreases MAX_REDUCE_ROUNDS - round
  {
    RoundFacts(frontier, done, round, available, responses);
    var step := Round(frontier, done, round, available, responses);
    if step.Continue? {
      LevelsMonotone(|step.frontier|, CeilHalf(|frontier|));
      WalkNeverOverruns(step.frontier, step.rest, round + 1, available, responses);
    }
  }

  /** `done` batches over `spans` spans stay within the levels, fewer than two batches per span. */
  predicate Counted(w: State, spans: nat, done: nat, round: nat) {
    && (w.Pending? ==> round <= w.round <= round + Levels(spans) && done < 2 * spans - 1 && w.batch < CeilHalf(spans))
    && (w.Terminal? ==> done <= 2 * spans - 1)
  }

  lemma {:induction false} CountedBefore(w: State, next: nat, rest: nat, spans: nat, done: nat, round: nat)
    requires Counted(w, next, rest, round + 1)
    requires next <= CeilHalf(spans) && spans >= 3 && done - rest <= CeilHalf(spans)
    ensures Counted(w, spans, done, round)
  {
    LevelsMonotone(next, CeilHalf(spans));
  }

  /** An accepted replay stays within its levels and has fewer than two batches per span. */
  lemma {:induction false} WalkCounts(
      frontier: seq<Span>, done: seq<BatchResult>, round: nat, available: int, responses: seq<string>)
    requires frontier != [] && AllFit(frontier, available) && round <= MAX_REDUCE_ROUNDS
    ensures Counted(Walk(frontier, done, round, available, responses), |frontier|, |done|, round)
    decreases MAX_REDUCE_ROUNDS - round
  {
    if round < MAX_REDUCE_ROUNDS {
      RoundFacts(frontier, done, round, available, responses);
      var step := Round(frontier, done, round, available, responses);
      if step.Continue? {
        WalkCounts(step.frontier, step.rest, round + 1, available, responses);
        CountedBefore(Walk(frontier, done, round, available, responses), |step.frontier|, |step.rest|, |frontier|, |done|, round);
      }
    }
  }

  lemma {:induction false} ConsumeStops(batches: seq<seq<Span>>, done: seq<BatchResult>, round: nat, b: nat)
    requires b <= |batches| && Consume(batches, done, round, b).Stopped?
    ensures var c := Consume(batches, done, round, b);
      && b <= c.at < |batches| && |done| == c.at - b
      && (done != [] ==> done[|done| - 1].round == round && done[|done| - 1].batch == c.at - 1)
    decreases |batches| - b
  {
    if done != [] {
      ConsumeStops(batches, done[1..], round, b + 1);
    }
  }

  /** A result that answers the pending batch `p` within its limits. */
  predicate Answers(r: BatchResult, p: State)
    requires p.Pending?
  {
    && r.round == p.round && r.batch == p.batch && r.input == p.spans
    && Subset(r.spans, p.spans)
    && (!p.final ==> |r.spans| <= ShrinkBound(|p.spans|))
  }

  lemma {:induction false} ConsumeSnoc(batches: seq<seq<Span>>, done: seq<BatchResult>, round: nat, b: nat, r: BatchResult)
    requires b <= |batches|
    requires var c := Consume(batches, done, round, b);
      c.Stopped? ==> b <= c.at < |batches| && Answers(r, Pending(round, c.at, batches[c.at], |batches| == 1))
    ensures var c := Consume(batches, done, round, b);
            var d := Consume(batches, done + [r], round, b);
      && (c.Stopped? ==> if c.at + 1 < |batches| then d == Stopped(c.at + 1) else d.Finished? && d.rest == [])
      && (c.Finished? ==> d == Finished(c.next, c.rest + [r]))
    decreases |batches| - b
  {
    if b < |batches| && !Consume(batches, done, round, b).Bad? {
      if done == [] {
        assert (done + [r])[1..] == [];
        assert (done + [r])[0] == r;
      } else {
        assert (done + [r])[1..] == done[1..] + [r];
        assert (done + [r])[0] == done[0];
        ConsumeSnoc(batches, done[1..], round, b + 1, r);
      }
    }
  }

  /** What one more answer does to a round. */
  lemma {:induction false} RoundSnoc(
      frontier: seq<Span>, done: seq<BatchResult>, round: nat, available: int,
      responses: seq<string>, responses': seq<string>, r: BatchResult)
    requires frontier != [] && AllFit(frontier, available)
    requires var step := Round(frontier, done, round, available, responses);
      step.Settled? ==> step.state.Pending? && Answers(r, step.state)
    ensures var step := Round(frontier, done, round, available, responses);
            var step' := Round(frontier, done + [r], round, available, responses');
      && (step.Continue? ==> step' == Continue(step.frontier, step.rest + [r]))
      && (step.Settled? ==> if step'.Continue? then step'.rest == [] else !step'.state.Broken?)
  {
    var b := Partition(frontier, available);
    PartitionPaired(frontier, available);
    ConsumeSnoc(b, done, round, 0, r);
    RoundFacts(frontier, done + [r], round, available, responses');
  }

  /** What an answer to the pending batch makes of a round, and how many levels then remain. */
  lemma {:induction false} RoundAnswered(
      frontier: seq<Span>, done: seq<BatchResult>, round: nat, available: int,
      responses: seq<string>, responses': seq<string>, r: BatchResult)
    requires frontier != [] && AllFit(frontier, available)
    requires var step := Round(frontier, done, round, available, responses);
      step.Settled? ==> step.state.Pending? && Answers(r, step.state)
    ensures var step := Round(frontier, done, round, available, responses);
            var step' := Round(frontier, done + [r], round, available, responses');
      && (step.Continue? ==> step' == Continue(step.frontier, step.rest + [r]))
      && (step.Settled? ==> if step'.Continue? then step'.rest == [] else !step'.state.Broken?)
      && (step'.Continue? ==>
        && step'.frontier != [] && AllFit(step'.frontier, available) && Levels(|step'.frontier|) < Levels(|frontier|))
  {
    RoundSnoc(frontier, done, round, available, responses, responses', r);
    RoundFacts(frontier, done + [r], round, available, responses');
    var step' := Round(frontier, done + [r], round, available, responses');
    if step'.Continue? {
      LevelsMonotone(|step'.frontier|, CeilHalf(|frontier|));
    }
  }

  /** Committing an answer to the pending batch never breaks the replay. */
  lemma {:induction false} WalkSnoc(
      frontier: seq<Span>, done: seq<BatchResult>, round: nat, available: int,
      responses: seq<string>, responses': seq<string>, r: BatchResult)
    requires frontier != [] && AllFit(frontier, available)
    requires round + Levels(|frontier|) < MAX_REDUCE_ROUNDS
    requires var w := Walk(frontier, done, round, available, responses); w.Pending? && Answers(r, w)
    ensures !Walk(frontier, done + [r], round, available, responses').Broken?
    decreases MAX_REDUCE_ROUNDS - round
  {
    RoundAnswered(frontier, done, round, available, responses, responses', r);
    var step := Round(frontier, done, round, available, responses);
    if step.Continue? {
      WalkSnoc(step.frontier, step.rest, round + 1, available, responses, responses', r);
    } else {
      var step' := Round(frontier, done + [r], round, available, responses');
      if step'.Continue? {
        WalkFresh(step'.frontier, round + 1, available, responses');
      }
    }
  }

  lemma {:induction false} WalkFresh(frontier: seq<Span>, round: nat, available: int, responses: seq<string>)
    requires frontier != [] && AllFit(frontier, available) && round < MAX_REDUCE_ROUNDS
    ensures var b := Partition(frontier, available);
      b != [] && Walk(frontier, [], round, available, responses) == Pending(round, 0, b[0], |b| == 1)
  {
    PartitionPaired(frontier, available);
  }

  /** Coordinates advance one batch at a time, or to the first batch of the next round. */
  predicate Follows(round: nat, batch: nat, done: seq<BatchResult>, first: nat) {
    if done == [] then round == first && batch == 0
    else
      var last := done[|done| - 1];
      || (round == last.round && batch == last.batch + 1)
      || (round == last.round + 1 && batch == 0)
  }

  /** A pending batch follows the last checkpoint, fits, and takes its spans from the frontier; so does
      a final result. */
  predicate Located(w: State, frontier: seq<Span>, done: seq<BatchResult>, round: nat, available: int) {
    && (w.Pending? ==>
      && Follows(w.round, w.batch, done, round) && Subset(w.spans, frontier) && w.spans != []
      && JoinedCharacters(w.spans) <= available)
    && (w.Terminal? ==> Subset(w.result.Spans(), frontier))
  }

  /** What the rounds from the next one on locate is located for the round before them. */
  lemma {:induction false} LocatedBefore(w: State, next: seq<Span>, rest: seq<BatchResult>,
                                         frontier: seq<Span>, done: seq<BatchResult>, round: nat, available: int)
    requires Located(w, next, rest, round + 1, available) && Subset(next, frontier) && done != []
    requires if rest == [] then done[|done| - 1].round == round else done[|done| - 1] == rest[|rest| - 1]
    ensures Located(w, frontier, done, round, available)
  {
    if w.Pending? {
      SubsetTransitive(w.spans, next, frontier);
    } else if w.Terminal? {
      SubsetTransitive(w.result.Spans(), next, frontier);
    }
  }

  lemma {:induction false} WalkCoordinates(
      frontier: seq<Span>, done: seq<BatchResult>, round: nat, available: int, responses: seq<string>)
    requires frontier != [] && AllFit(frontier, available) && round <= MAX_REDUCE_ROUNDS
    ensures Located(Walk(frontier, done, round, available, responses), frontier, done, round, available)
    decreases MAX_REDUCE_ROUNDS - round
  {
    if round < MAX_REDUCE_ROUNDS {
      RoundFacts(frontier, done, round, available, responses);
      RoundCoordinates(frontier, done, round, available, responses);
      var step := Round(frontier, done, round, available, responses);
      if step.Continue? {
        WalkCoordinates(step.frontier, step.rest, round + 1, available, responses);
        LocatedBefore(Walk(frontier, done, round, available, responses), step.frontier, step.rest, frontier, done, round, available);
      }
    }
  }

  lemma SubsetTransitive(a: seq<Span>, b: seq<Span>, c: seq<Span>)
    requires Subset(a, b) && Subset(b, c)
    ensures Subset(a, c)
  {
    SubsetMembers(a, b);
    SubsetMembers(b, c);
    SubsetMembers(a, c);
  }

  lemma {:induction false} RoundCoordinates(
      frontier: seq<Span>, done: seq<BatchResult>, round: nat, available: int, responses: seq<string>)
    requires frontier != [] && AllFit(frontier, available)
    ensures var step := Round(frontier, done, round, available, responses);
      && (step.Settled? ==> Located(step.state, frontier, done, round, available))
      && (step.Continue? ==>
        && done != []
        && if step.rest == [] then done[|done| - 1].round == round else done[|done| - 1] == step.rest[|step.rest| - 1])
  {
    var b := Partition(frontier, available);
    PartitionPaired(frontier, available);
    var c := Consume(b, done, round, 0);
    if c.Stopped? {
      ConsumeStops(b, done, round, 0);
      AllFitMembers(frontier, available);
      PartitionFits([], frontier, available);
      SubsetMembers(b[c.at], frontier);
      forall s | s in b[c.at] ensures s in frontier {
        var k :| 0 <= k < |b[c.at]| && b[c.at][k] == s;
        FlattenHas(b, c.at, k);
      }
    } else if c.Finished? {
      ConsumeKeeps(b, done, round, 0);
      assert b[0..] == b;
      SubsetMembers(c.next, frontier);
      if |b| == 1 {
        FinishedOne(b, done, round);
      } else if c.rest == [] {
        ConsumeLast(b, done, round, 0);
      }
    }
  }

  lemma {:induction false} ConsumeLast(batches: seq<seq<Span>>, done: seq<BatchResult>, round: nat, b: nat)
    requires b < |batches| && var c := Consume(batches, done, round, b); c.Finished? && c.rest == []
    ensures done != [] && done[|done| - 1].round == round
    decreases |batches| - b
  {
    if b + 1 < |batches| {
      ConsumeLast(batches, done[1..], round, b + 1);
    }
  }
}
