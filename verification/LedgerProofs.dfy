/** Consistent ledgers, whose results all follow from their receipts: every writer keeps them so, and
    for them the next call, the commit and the reduction never fail. */
module LedgerProofs {
  import opened Text
  import opened Evidence
  import opened Reduction
  import opened ReductionBounds
  import opened Selection
  import opened Ledger

  /** Completed maps follow from their receipts. */
  ghost predicate MapsReplay(c: Config, maps: seq<MapResult>) {
    && |maps| <= |c.Units()|
    && forall i :: 0 <= i < |maps| ==>
      ReceiptOk(maps[i].receipt) && maps[i] == MapResultOf(c, c.Units()[i], maps[i].receipt)
  }

  // ---- spans of completed maps -----------------------------------------------------------------

  lemma MapResultSpans(c: Config, unit: MapUnit, r: Receipt)
    requires ReceiptOk(r)
    ensures var m := MapResultOf(c, unit, r);
      && |m.spans| + m.rejected == |r.decision.spans| <= MAX_PROVIDER_SPANS
      && Distinct(m.spans)
      && (forall s :: s in m.spans ==> Exact(s, unit, c.snapshot.pages) && SpanFits(s, c.Available()))
      && (forall s :: s in m.spans ==> exists p :: p in r.decision.spans && SpanOf(p) == s)
  {
    ValidateSelects(r.decision.spans, unit, c.snapshot.pages, c.Available());
  }

  lemma BatchResultSpans(p: State, r: Receipt)
    requires ReceiptOk(r) && p.Pending? && Distinct(p.spans)
    ensures var b := BatchResultOf(p, r);
      && |b.spans| + b.rejected == |r.decision.spans| <= MAX_PROVIDER_SPANS
      && |b.spans| <= MaximumOutputs(p.spans, p.final)
      && Distinct(b.spans) && Subset(b.spans, p.spans)
      && Answers(b, p)
  {
    SelectKeeps(r.decision.spans, p.spans, MaximumOutputs(p.spans, p.final));
  }

  /** Some map result holds the span, and it is page text of the unit that result mapped. */
  ghost predicate FromUnit(c: Config, maps: seq<MapResult>, s: Span) {
    exists i :: 0 <= i < |maps| && ProducedBy(c, maps, s, i)
  }

  /** Map result `i` holds the span, and the span is page text of the unit that was mapped. */
  ghost predicate ProducedBy(c: Config, maps: seq<MapResult>, s: Span, i: nat)
    requires i < |maps|
  {
    i < |c.Units()| && maps[i].unit == c.Units()[i] && s in maps[i].spans && Exact(s, c.Units()[i], c.snapshot.pages)
  }

  lemma {:induction false} MappedSpansSound(c: Config, maps: seq<MapResult>)
    requires MapsReplay(c, maps)
    ensures |MappedSpans(maps)| <= MAX_PROVIDER_SPANS * |maps|
    ensures forall s :: s in MappedSpans(maps) ==> FromUnit(c, maps, s) && SpanFits(s, c.Available())
  {
    if maps != [] {
      var n := |maps| - 1;
      MappedSpansSound(c, maps[..n]);
      MapResultSpans(c, c.Units()[n], maps[n].receipt);
      forall s | s in MappedSpans(maps) ensures FromUnit(c, maps, s) && SpanFits(s, c.Available()) {
        if s in MappedSpans(maps[..n]) {
          var i :| 0 <= i < |maps[..n]| && ProducedBy(c, maps[..n], s, i);
          assert ProducedBy(c, maps, s, i);
        } else {
          assert ProducedBy(c, maps, s, n);
        }
      }
    }
  }

  /** The frontier of a job fits the partition and needs at most 23 rounds. */
  lemma FrontierBounds(c: Config, maps: seq<MapResult>)
    requires c.Valid() && MapsReplay(c, maps)
    ensures var f := Dedup(MappedSpans(maps));
      AllFit(f, c.Available()) && |f| <= MAX_PROVIDER_SPANS * MAX_MAP_UNITS && Levels(|f|) <= 22
  {
    MappedSpansSound(c, maps);
    var f := Dedup(MappedSpans(maps));
    DedupFacts(MappedSpans(maps));
    AllFitMembers(f, c.Available());
    LevelsMonotone(|f|, MAX_PROVIDER_SPANS * MAX_MAP_UNITS);
    LargestFrontierLevels();
  }

  // ---- states reached by replay -------------------------------------------------------------------

  lemma {:induction false} WalkDistinct(
      frontier: seq<Span>, done: seq<BatchResult>, round: nat, available: int, responses: seq<string>)
    requires round <= MAX_REDUCE_ROUNDS && frontier != [] && Distinct(frontier) && AllFit(frontier, available)
    ensures var w := Walk(frontier, done, round, available, responses); w.Pending? ==> Distinct(w.spans)
    decreases MAX_REDUCE_ROUNDS - round
  {
    if round < MAX_REDUCE_ROUNDS {
      RoundFacts(frontier, done, round, available, responses);
      RoundDistinct(frontier, done, round, available, responses);
      var step := Round(frontier, done, round, available, responses);
      if step.Continue? {
        WalkDistinct(step.frontier, step.rest, round + 1, available, responses);
      }
    }
  }

  lemma RoundDistinct(
      frontier: seq<Span>, done: seq<BatchResult>, round: nat, available: int, responses: seq<string>)
    requires frontier != [] && Distinct(frontier) && AllFit(frontier, available)
    ensures var step := Round(frontier, done, round, available, responses);
      if step.Continue? then Distinct(step.frontier) else step.state.Pending? ==> Distinct(step.state.spans)
  {
    var step := Round(frontier, done, round, available, responses);
    var b := Partition(frontier, available);
    if step.Continue? {
      DedupFacts(Consume(b, done, round, 0).next);
    } else if step.state.Pending? {
      PartitionPaired(frontier, available);
      FlattenDistinct(b, step.state.batch);
    }
  }

  lemma {:induction false} FlattenDistinct<T>(ss: seq<seq<T>>, i: nat)
    requires i < |ss| && Distinct(Flatten(ss))
    ensures Distinct(ss[i])
  {
    var f := Flatten(ss);
    assert f == ss[0] + Flatten(ss[1..]);
    if i > 0 {
      var rest := Flatten(ss[1..]);
      assert forall k :: 0 <= k < |rest| ==> rest[k] == f[|ss[0]| + k];
      FlattenDistinct(ss[1..], i - 1);
    } else {
      assert forall k :: 0 <= k < |ss[0]| ==> ss[0][k] == f[k];
    }
  }

  /** Facts about a pending batch, whatever batches were recorded before it. */
  lemma PendingFacts(c: Config, maps: seq<MapResult>, done: seq<BatchResult>)
    requires c.Valid() && MapsReplay(c, maps)
    ensures var p := StateOf(c, maps, done);
      p.Pending? ==>
        && Distinct(p.spans) && p.spans != [] && Subset(p.spans, MappedSpans(maps))
        && JoinedCharacters(p.spans) <= c.Available()
        && p.round <= 22 && p.batch < MAX_PROVIDER_SPANS * MAX_MAP_UNITS
        && |done| + 1 < MAX_REDUCE_BATCHES
        && Follows(p.round, p.batch, done, 0)
    ensures var p := StateOf(c, maps, done);
      p.Terminal? ==> Subset(p.result.Spans(), MappedSpans(maps)) && |done| < MAX_REDUCE_BATCHES
  {
    var f := Dedup(MappedSpans(maps));
    if |maps| == |c.Units()| && f != [] {
      FrontierBounds(c, maps);
      DedupFacts(MappedSpans(maps));
      SubsetMembers(f, MappedSpans(maps));
      var p := StateOf(c, maps, done);
      WalkCounts(f, done, 0, c.Available(), Responses(done));
      WalkCoordinates(f, done, 0, c.Available(), Responses(done));
      WalkDistinct(f, done, 0, c.Available(), Responses(done));
      if p.Pending? {
        SubsetTransitive(p.spans, f, MappedSpans(maps));
      } else if p.Terminal? {
        SubsetTransitive(p.result.Spans(), f, MappedSpans(maps));
      }
    }
  }

  /** Committing the receipt of the pending batch never breaks the reduction. */
  lemma CommitKeepsState(c: Config, maps: seq<MapResult>, done: seq<BatchResult>, r: Receipt)
    requires c.Valid() && MapsReplay(c, maps) && ReceiptOk(r)
    requires StateOf(c, maps, done).Pending?
    ensures !StateOf(c, maps, done + [BatchResultOf(StateOf(c, maps, done), r)]).Broken?
  {
    var p := StateOf(c, maps, done);
    var f := Dedup(MappedSpans(maps));
    FrontierBounds(c, maps);
    PendingFacts(c, maps, done);
    BatchResultSpans(p, r);
    var b := BatchResultOf(p, r);
    WalkSnoc(f, done, 0, c.Available(), Responses(done), Responses(done + [b]), b);
  }

  /** Every reduce prompt built from a batch fits the sealed input limit. */
  lemma ReducePromptFits(c: Config, maps: seq<MapResult>, done: seq<BatchResult>, sequence: nat)
    requires c.Valid() && MapsReplay(c, maps)
    requires StateOf(c, maps, done).Pending?
    ensures ReducePending(c, sequence, StateOf(c, maps, done)).inputCharacters <= c.profile.maxInput
  {
    var p := StateOf(c, maps, done);
    PendingFacts(c, maps, done);
    DecimalLengthMonotone(MaximumOutputs(p.spans, p.final), MAX_PROVIDER_SPANS);
  }

  // ---- consistent ledgers ---------------------------------------------------------------------------

  ghost predicate MapFrom(c: Config, m: MapResult, r: Receipt, i: nat) {
    && i < |c.Units()| && ReceiptOk(r)
    && m == MapResultOf(c, c.Units()[i], r) && MatchesPending(c, r, MapPending(c, i))
  }

  /** Batch `b` answers the state `p` through the receipt with sequence number `k`. */
  ghost predicate BatchFrom(c: Config, p: State, b: BatchResult, r: Receipt, k: nat) {
    && p.Pending? && ReceiptOk(r)
    && b == BatchResultOf(p, r) && MatchesPending(c, r, ReducePending(c, k, p))
  }

  /** Results are exactly what their receipts yield, each batch at the state its predecessors imply. */
  ghost predicate Recorded(c: Config, maps: seq<MapResult>, done: seq<BatchResult>, rs: seq<Receipt>) {
    && |maps| <= |c.Units()| && |rs| == |maps| + |done|
    && (done != [] ==> |maps| == |c.Units()|)
    && (forall i :: 0 <= i < |maps| ==> MapFrom(c, maps[i], rs[i], i))
    && (forall j, k :: 0 <= j < |done| && k == |maps| + j ==>
      BatchFrom(c, StateOf(c, maps, done[..j]), done[j], rs[k], k))
  }

  ghost predicate Charges(c: Config, l: JobLedger) {
    && l.calls == |l.receipts| + PendingCount(l) <= c.profile.maxCalls
    && l.inputCharacters == InputSum(l.receipts) + PendingInput(l) <= c.profile.maxJobInput
    && l.outputTokens == l.calls * c.profile.maxCompletion <= c.profile.maxJobOutput
    && l.promptTokens == PromptSum(l.receipts)
    && l.completionTokens == CompletionSum(l.receipts)
    && l.totalTokens == TotalSum(l.receipts)
  }

  /** A progress ledger whose results all follow from its receipts, with at most one reservation,
      and whose counters are the sums of its receipts. */
  ghost predicate Consistent(c: Config, l: JobLedger) {
    && l.units == c.Units() && l.status == Progress && l.result.None?
    && Recorded(c, l.maps, l.reductions, l.receipts)
    && Charges(c, l)
    && (l.pending.Some? ==> NextCall(c, l.maps, l.reductions) == Call(l.pending.value))
  }

  lemma BeginConsistent(c: Config)
    requires c.Valid()
    ensures Consistent(c, Begin(c))
  {
  }

  lemma RecordedMaps(c: Config, maps: seq<MapResult>, done: seq<BatchResult>, rs: seq<Receipt>)
    requires Recorded(c, maps, done, rs)
    ensures MapsReplay(c, maps)
  {
    forall i | 0 <= i < |maps|
      ensures ReceiptOk(maps[i].receipt) && maps[i] == MapResultOf(c, c.Units()[i], maps[i].receipt)
    {
      assert MapFrom(c, maps[i], rs[i], i);
    }
  }

  /** With all maps complete, the reduction of recorded results is never broken. */
  lemma ReductionSound(c: Config, maps: seq<MapResult>, done: seq<BatchResult>, rs: seq<Receipt>)
    requires c.Valid() && Recorded(c, maps, done, rs) && |maps| == |c.Units()|
    ensures !StateOf(c, maps, done).Broken?
  {
    RecordedMaps(c, maps, done, rs);
    if done == [] {
      var f := Dedup(MappedSpans(maps));
      FrontierBounds(c, maps);
      if f != [] {
        WalkFresh(f, 0, c.Available(), Responses([]));
      }
    } else {
      var j := |done| - 1;
      var k := |maps| + j;
      assert BatchFrom(c, StateOf(c, maps, done[..j]), done[j], rs[k], k);
      CommitKeepsState(c, maps, done[..j], rs[k]);
      assert done == done[..j] + [done[j]];
    }
  }

  /** `_next_call` of recorded results never raises. */
  lemma NextCallSound(c: Config, maps: seq<MapResult>, done: seq<BatchResult>, rs: seq<Receipt>)
    requires c.Valid() && Recorded(c, maps, done, rs)
    ensures var next := NextCall(c, maps, done);
      && !next.Fault?
      && (next.Call? ==>
        && next.call.sequence == |rs| && next.call.maxCompletion == c.profile.maxCompletion
        && |rs| < MAX_JOB_PROVIDER_CALLS && 0 < next.call.inputCharacters <= c.profile.maxInput
        && (next.call.key.ReduceCall? ==> next.call.key.round < MAX_REDUCE_ROUNDS && next.call.key.batch < MAX_REDUCE_BATCHES))
  {
    if |maps| < |c.Units()| {
      assert c.Units()[|maps|] in c.Units();
    } else {
      ReductionSound(c, maps, done, rs);
      RecordedMaps(c, maps, done, rs);
      if StateOf(c, maps, done).Pending? {
        ReducePromptFits(c, maps, done, |rs|);
        PendingFacts(c, maps, done);
      }
    }
  }

  lemma MulStep(n: nat, m: nat)
    ensures (n + 1) * m == n * m + m
  {
  }

  lemma ReserveCharges(c: Config, l: JobLedger, p: PendingCall)
    requires Charges(c, l) && l.pending.None? && WithinBudget(c, l, p) && p.maxCompletion == c.profile.maxCompletion
    ensures Charges(c, Reserved(l, p))
  {
    MulStep(l.calls, c.profile.maxCompletion);
  }

  lemma ReserveConsistent(c: Config, l: JobLedger, p: PendingCall)
    requires c.Valid() && Consistent(c, l) && l.pending.None?
    requires NextCall(c, l.maps, l.reductions) == Call(p) && WithinBudget(c, l, p)
    ensures Consistent(c, Reserved(l, p))
  {
    NextCallSound(c, l.maps, l.reductions, l.receipts);
    ReserveCharges(c, l, p);
  }

  lemma SumsSnoc(rs: seq<Receipt>, r: Receipt)
    ensures InputSum(rs + [r]) == InputSum(rs) + r.inputCharacters
    ensures PromptSum(rs + [r]) == PromptSum(rs) + r.usage.prompt
    ensures CompletionSum(rs + [r]) == CompletionSum(rs) + r.usage.completion
    ensures TotalSum(rs + [r]) == TotalSum(rs) + r.usage.total
  {
    assert (rs + [r])[..|rs|] == rs;
  }

  lemma RecordedMapSnoc(c: Config, maps: seq<MapResult>, rs: seq<Receipt>, r: Receipt)
    requires Recorded(c, maps, [], rs) && |maps| < |c.Units()|
    requires ReceiptOk(r) && MatchesPending(c, r, MapPending(c, |maps|))
    ensures Recorded(c, maps + [MapResultOf(c, c.Units()[|maps|], r)], [], rs + [r])
  {
    var maps', rs' := maps + [MapResultOf(c, c.Units()[|maps|], r)], rs + [r];
    forall i | 0 <= i < |maps'| ensures MapFrom(c, maps'[i], rs'[i], i) {
      if i < |maps| {
        assert MapFrom(c, maps[i], rs[i], i);
      }
    }
  }

  lemma RecordedBatchSnoc(c: Config, maps: seq<MapResult>, done: seq<BatchResult>, rs: seq<Receipt>, r: Receipt)
    requires Recorded(c, maps, done, rs) && |maps| == |c.Units()|
    requires var p := StateOf(c, maps, done);
      p.Pending? && ReceiptOk(r) && MatchesPending(c, r, ReducePending(c, |rs|, p))
    ensures Recorded(c, maps, done + [BatchResultOf(StateOf(c, maps, done), r)], rs + [r])
  {
    var p := StateOf(c, maps, done);
    var done', rs' := done + [BatchResultOf(p, r)], rs + [r];
    forall i | 0 <= i < |maps| ensures MapFrom(c, maps[i], rs'[i], i) {
      assert MapFrom(c, maps[i], rs[i], i);
    }
    forall j, k | 0 <= j < |done'| && k == |maps| + j
      ensures BatchFrom(c, StateOf(c, maps, done'[..j]), done'[j], rs'[k], k)
    {
      if j < |done| {
        assert done'[..j] == done[..j];
        assert BatchFrom(c, StateOf(c, maps, done[..j]), done[j], rs[k], k);
      } else {
        assert done'[..j] == done;
      }
    }
  }

  lemma ChargedCharges(c: Config, l: JobLedger, r: Receipt)
    requires Charges(c, l) && l.pending.Some? && r.inputCharacters == l.pending.value.inputCharacters
    ensures Charges(c, Charged(l, r)) && Charged(l, r).calls == l.calls
    ensures Charged(l, r).receipts == l.receipts + [r] && Charged(l, r).pending.None?
  {
    SumsSnoc(l.receipts, r);
  }

  /** Committing the receipt of the reservation always succeeds, appends exactly that receipt and
      keeps the ledger consistent. */
  lemma CommitConsistent(c: Config, l: JobLedger, r: Receipt)
    requires c.Valid() && Consistent(c, l) && l.pending.Some?
    requires ReceiptOk(r) && MatchesPending(c, r, l.pending.value)
    ensures Commit(c, l, r).Some?
    ensures var l' := Commit(c, l, r).value;
      Consistent(c, l') && l'.pending.None? && l'.receipts == l.receipts + [r] && l'.calls == l.calls
  {
    ChargedCharges(c, l, r);
    if |l.maps| < |c.Units()| {
      RecordedMapSnoc(c, l.maps, l.receipts, r);
    } else {
      RecordedMaps(c, l.maps, l.reductions, l.receipts);
      RecordedBatchSnoc(c, l.maps, l.reductions, l.receipts, r);
      CommitKeepsState(c, l.maps, l.reductions, r);
    }
  }
}
