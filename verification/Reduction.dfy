/** Hierarchical reduction: the greedy batch partition, the replay of completed batches and
    the bounds on rounds and batches. */
module Reduction {
  import opened Evidence

  // ---- the greedy partition ----------------------------------------------------------------

  function Flatten<T>(ss: seq<seq<T>>): seq<T> {
    if ss == [] then [] else ss[0] + Flatten(ss[1..])
  }

  /** Batches for `spans` when `open` is the batch being filled. */
  function PartitionFrom(open: seq<Span>, spans: seq<Span>, available: int): seq<seq<Span>>
    decreases |spans|
  {
    if spans == [] then if open == [] then [] else [open]
    else if open != [] && JoinedCharacters(open + [spans[0]]) > available then
      [open] + PartitionFrom([spans[0]], spans[1..], available)
    else
      PartitionFrom(open + [spans[0]], spans[1..], available)
  }

  function Partition(spans: seq<Span>, available: int): seq<seq<Span>> {
    PartitionFrom([], spans, available)
  }

  /** `batch` could not take the first span of `next` as well. */
  predicate Full(batch: seq<Span>, next: seq<Span>, available: int) {
    next != [] && JoinedCharacters(batch + [next[0]]) > available
  }

  ghost predicate BatchesFit(batches: seq<seq<Span>>, available: int) {
    forall i :: 0 <= i < |batches| ==> batches[i] != [] && JoinedCharacters(batches[i]) <= available
  }

  ghost predicate BatchesFull(batches: seq<seq<Span>>, available: int) {
    forall i, j :: 0 <= i && j == i + 1 < |batches| ==> Full(batches[i], batches[j], available)
  }

  lemma JoinedSnoc(open: seq<Span>, s: Span)
    ensures JoinedCharacters(open + [s])
         == JoinedCharacters(open) + SpanCharacters(s) + (if open == [] then 0 else 1)
  {
    var whole := open + [s];
    assert whole[..|whole| - 1] == open;
  }

  lemma {:induction false} PartitionFlattens(open: seq<Span>, spans: seq<Span>, available: int)
    ensures Flatten(PartitionFrom(open, spans, available)) == open + spans
    decreases |spans|
  {
    if spans == [] {
      assert Flatten([open]) == open + Flatten([]);
    } else if open != [] && JoinedCharacters(open + [spans[0]]) > available {
      PartitionFlattens([spans[0]], spans[1..], available);
      var rest := PartitionFrom([spans[0]], spans[1..], available);
      assert ([open] + rest)[1..] == rest;
    } else {
      PartitionFlattens(open + [spans[0]], spans[1..], available);
    }
  }

  lemma {:induction false} PartitionOpens(open: seq<Span>, spans: seq<Span>, available: int)
    requires open != []
    ensures PartitionFrom(open, spans, available) != [] && open <= PartitionFrom(open, spans, available)[0]
    decreases |spans|
  {
    if spans != [] && JoinedCharacters(open + [spans[0]]) <= available {
      PartitionOpens(open + [spans[0]], spans[1..], available);
      assert open <= open + [spans[0]];
    }
  }

  lemma {:induction false} PartitionFits(open: seq<Span>, spans: seq<Span>, available: int)
    requires forall s :: s in spans ==> SpanFits(s, available)
    requires open != [] ==> JoinedCharacters(open) <= available
    ensures BatchesFit(PartitionFrom(open, spans, available), available)
    decreases |spans|
  {
    if spans != [] {
      assert SpanFits(spans[0], available);
      JoinedSnoc(open, spans[0]);
      if open != [] && JoinedCharacters(open + [spans[0]]) > available {
        JoinedSnoc([], spans[0]);
        assert [] + [spans[0]] == [spans[0]];
        PartitionFits([spans[0]], spans[1..], available);
      } else {
        PartitionFits(open + [spans[0]], spans[1..], available);
      }
    }
  }

  lemma {:induction false} PartitionFull(open: seq<Span>, spans: seq<Span>, available: int)
    ensures BatchesFull(PartitionFrom(open, spans, available), available)
    decreases |spans|
  {
    if spans != [] {
      if open != [] && JoinedCharacters(open + [spans[0]]) > available {
        PartitionFull([spans[0]], spans[1..], available);
        PartitionOpens([spans[0]], spans[1..], available);
      } else {
        PartitionFull(open + [spans[0]], spans[1..], available);
      }
    }
  }

  /** Two admissible spans always share a batch, so only the last batch can be a singleton. */
  lemma PartitionPairs(spans: seq<Span>, available: int)
    requires AllFit(spans, available)
    ensures var b := Partition(spans, available);
            forall i :: 0 <= i < |b| - 1 ==> |b[i]| >= 2
  {
    var b := Partition(spans, available);
    AllFitMembers(spans, available);
    PartitionFlattens([], spans, available);
    PartitionFits([], spans, available);
    PartitionFull([], spans, available);
    assert [] + spans == spans;
    forall i | 0 <= i < |b| - 1 ensures |b[i]| >= 2 {
      var j := i + 1;
      assert Full(b[i], b[j], available);
      FlattenHas(b, i, 0);
      FlattenHas(b, j, 0);
      JoinedSnoc(b[i], b[j][0]);
      assert SpanFits(b[i][0], available) && SpanFits(b[j][0], available);
    }
  }

  lemma {:induction false} FlattenHas<T>(ss: seq<seq<T>>, i: nat, k: nat)
    requires i < |ss| && k < |ss[i]|
    ensures ss[i][k] in Flatten(ss)
  {
    if i > 0 {
      assert ss[i] == ss[1..][i - 1];
      FlattenHas(ss[1..], i - 1, k);
    }
  }

  lemma {:induction false} JoinedPrefix(a: seq<Span>, b: seq<Span>)
    requires a <= b
    ensures JoinedCharacters(a) <= JoinedCharacters(b)
  {
    if |a| < |b| {
      assert b == b[..|b| - 1] + [b[|b| - 1]];
      JoinedSnoc(b[..|b| - 1], b[|b| - 1]);
      JoinedPrefix(a, b[..|b| - 1]);
    } else {
      assert a == b;
    }
  }

  lemma TailConditions(batches: seq<seq<Span>>, available: int)
    requires batches != [] && BatchesFit(batches, available) && BatchesFull(batches, available)
    ensures BatchesFit(batches[1..], available) && BatchesFull(batches[1..], available)
  {
    var rest := batches[1..];
    forall i | 0 <= i < |rest| ensures rest[i] != [] && JoinedCharacters(rest[i]) <= available {
      assert rest[i] == batches[i + 1];
    }
    forall i, j | 0 <= i && j == i + 1 < |rest| ensures Full(rest[i], rest[j], available) {
      assert Full(batches[i + 1], batches[j + 1], available);
    }
  }

  /** The three batching conditions leave no choice: they describe `PartitionFrom` exactly. */
  lemma {:induction false} GreedyUnique(batches: seq<seq<Span>>, open: seq<Span>, spans: seq<Span>, available: int)
    requires batches != [] && open <= batches[0] && Flatten(batches) == open + spans
    requires BatchesFit(batches, available) && BatchesFull(batches, available)
    ensures PartitionFrom(open, spans, available) == batches
    decreases |spans|
  {
    var rest := batches[1..];
    assert Flatten(batches) == batches[0] + Flatten(rest);
    if open == batches[0] {
      assert Flatten(rest) == spans by { assert (open + spans)[|open|..] == spans; }
      if rest == [] {
        assert batches == [open];
      } else {
        assert Full(batches[0], batches[1], available);
        assert rest[0] == batches[1];
        assert Flatten(rest) == rest[0] + Flatten(rest[1..]);
        TailConditions(batches, available);
        assert [spans[0]] + spans[1..] == spans;
        GreedyUnique(rest, [spans[0]], spans[1..], available);
        assert [open] + rest == batches;
      }
    } else {
      assert |open| < |batches[0]|;
      assert spans[0] == (open + spans)[|open|] == batches[0][|open|];
      JoinedPrefix(open + [spans[0]], batches[0]);
      assert open + [spans[0]] + spans[1..] == open + spans;
      GreedyUnique(batches, open + [spans[0]], spans[1..], available);
    }
  }

  // ---- replaying completed batches ---------------------------------------------------------

  datatype ReduceError = MapsIncomplete | EmptyFrontierHasBatches | SpanCannotEnter | StaleInput | NewSpan
    | BatchTooLarge | BatchesAfterFinal | DidNotShrink | BatchesAfterEmpty | RoundBound

  datatype State =
    | Pending(round: nat, batch: nat, spans: seq<Span>, final: bool)
    | Terminal(result: FinalResult)
    | Broken(error: ReduceError)

  datatype Consumed =
    | Finished(next: seq<Span>, rest: seq<BatchResult>)
    | Stopped(at: nat)
    | Bad(why: ReduceError)

  function Max(a: int, b: int): int { if a >= b then a else b }
  function Min(a: int, b: int): int { if a <= b then a else b }

  /** Span limit of a non-final batch. */
  function ShrinkBound(n: nat): nat { Max(1, n / 2) }

  predicate Subset(a: seq<Span>, b: seq<Span>) {
    a == [] || (Subset(a[..|a| - 1], b) && a[|a| - 1] in b)
  }

  lemma {:induction false} SubsetMembers(a: seq<Span>, b: seq<Span>)
    ensures Subset(a, b) <==> forall s :: s in a ==> s in b
  {
    if a != [] {
      SubsetMembers(a[..|a| - 1], b);
      assert a == a[..|a| - 1] + [a[|a| - 1]];
    }
  }

  /** Check the completed results of one round against its batches, from batch `b` on. */
  function Consume(batches: seq<seq<Span>>, done: seq<BatchResult>, round: nat, b: nat): (c: Consumed)
    requires b <= |batches|
    ensures c.Stopped? ==> b <= c.at < |batches|
    ensures c.Bad? ==> c.why.StaleInput? || c.why.NewSpan? || c.why.BatchTooLarge?
    decreases |batches| - b
  {
    if b == |batches| then Finished([], done)
    else if done == [] then Stopped(b)
    else
      var r := done[0];
      if r.round != round || r.batch != b || r.input != batches[b] then Bad(StaleInput)
      else if !Subset(r.spans, batches[b]) then Bad(NewSpan)
      else if |batches| > 1 && |r.spans| > ShrinkBound(|batches[b]|) then Bad(BatchTooLarge)
      else
        match Consume(batches, done[1..], round, b + 1)
        case Finished(next, rest) => Finished(r.spans + next, rest)
        case Stopped(at) => Stopped(at)
        case Bad(why) => Bad(why)
  }

  datatype RoundStep = Settled(state: State) | Continue(frontier: seq<Span>, rest: seq<BatchResult>)

  /** One round over `frontier`: a state to report, or the next frontier and remaining results. */
  function Round(frontier: seq<Span>, done: seq<BatchResult>, round: nat, available: int, responses: seq<string>): (r: RoundStep)
    ensures r.Continue? ==> r.frontier != []
  {
    if !AllFit(frontier, available) then Settled(Broken(SpanCannotEnter))
    else
      var batches := Partition(frontier, available);
      match Consume(batches, done, round, 0)
      case Bad(why) => Settled(Broken(why))
      case Stopped(at) => Settled(Pending(round, at, batches[at], |batches| == 1))
      case Finished(next, rest) =>
        if |batches| == 1 then
          if rest != [] then Settled(Broken(BatchesAfterFinal))
          else
            FinishedOne(batches, done, round);
            Settled(Terminal(ProviderResult(done[0].providerRelevant, done[0].spans, done[0].rejected, responses)))
        else
          var unique := Dedup(next);
          if |unique| >= |frontier| then Settled(Broken(DidNotShrink))
          else if unique != [] then Continue(unique, rest)
          else if rest != [] then Settled(Broken(BatchesAfterEmpty))
          else Settled(Terminal(ProviderResult(false, [], 0, responses)))
  }

  /** The state after `done` completed batches, `round` rounds having produced `frontier`. */
  function Walk(frontier: seq<Span>, done: seq<BatchResult>, round: nat, available: int, responses: seq<string>): State
    requires round <= MAX_REDUCE_ROUNDS
    decreases MAX_REDUCE_ROUNDS - round, |frontier|, |done|
  {
    if round == MAX_REDUCE_ROUNDS then Broken(RoundBound)
    else
      match Round(frontier, done, round, available, responses)
      case Settled(state) => state
      case Continue(next, rest) => Walk(next, rest, round + 1, available, responses)
  }

  lemma FinishedOne(batches: seq<seq<Span>>, done: seq<BatchResult>, round: nat)
    requires |batches| == 1 && Consume(batches, done, round, 0).Finished?
    ensures done != [] && Consume(batches, done, round, 0) == Finished(done[0].spans, done[1..])
  {
    assert Consume(batches, done[1..], round, 1) == Finished([], done[1..]);
    assert done[0].spans + [] == done[0].spans;
  }

  function MappedSpans(maps: seq<MapResult>): seq<Span> {
    if maps == [] then [] else MappedSpans(maps[..|maps| - 1]) + maps[|maps| - 1].spans
  }

  function Responses(done: seq<BatchResult>): seq<string> {
    seq(|done|, i requires 0 <= i < |done| => done[i].response)
  }

  /** `_reduction_state`: where the reduction stands, from the completed maps and batches. */
  function ReductionState(unitCount: nat, maps: seq<MapResult>, done: seq<BatchResult>, available: int): State {
    if |maps| != unitCount then Broken(MapsIncomplete)
    else
      var frontier := Dedup(MappedSpans(maps));
      if frontier == [] then
        if done != [] then Broken(EmptyFrontierHasBatches) else Terminal(DeterministicEmpty)
      else Walk(frontier, done, 0, available, Responses(done))
  }
}
