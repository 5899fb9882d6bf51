/** Writer and verifier agree: consistent ledgers are exactly the progress ledgers that the
    validator and `_verify` accept, and exactly the replays of their receipts. */
module VerifierProofs {
  import opened Evidence
  import opened Reduction
  import opened ReductionBounds
  import opened Ledger
  import opened LedgerProofs

  // ---- coordinates ------------------------------------------------------------------------------------

  ghost predicate Stepwise(done: seq<BatchResult>) {
    forall j :: 0 <= j < |done| ==> Follows(done[j].round, done[j].batch, done[..j], 0)
  }

  lemma {:induction false} StepwiseOrdered(done: seq<BatchResult>)
    requires Stepwise(done)
    ensures OrderedCoordinates(done)
  {
    if done != [] {
      var n := |done| - 1;
      var front := done[..n];
      forall j | 0 <= j < |front| ensures Follows(front[j].round, front[j].batch, front[..j], 0) {
        assert front[..j] == done[..j];
        assert Follows(done[j].round, done[j].batch, done[..j], 0);
      }
      StepwiseOrdered(front);
      assert Follows(done[n].round, done[n].batch, front, 0);
      forall i, j | 0 <= i < j < |done| ensures Before(done[i], done[j]) {
        LastBefore(done, i, j);
      }
      forall i, round: nat | 0 <= i < |done| && round <= done[i].round ensures HasRound(done, round) {
        LastRound(done, i, round);
      }
      forall i, batch: nat | 0 <= i < |done| && batch <= done[i].batch ensures HasCoordinate(done, done[i].round, batch) {
        LastBatch(done, i, batch);
      }
    }
  }

  lemma LastBefore(done: seq<BatchResult>, i: nat, j: nat)
    requires i < j < |done|
    requires var n := |done| - 1; OrderedCoordinates(done[..n]) && Follows(done[n].round, done[n].batch, done[..n], 0)
    ensures Before(done[i], done[j])
  {
    var n := |done| - 1;
    var front := done[..n];
    if j < n {
      assert Before(front[i], front[j]);
    } else if i < n - 1 {
      assert Before(front[i], front[n - 1]);
    }
  }

  lemma LastRound(done: seq<BatchResult>, i: nat, round: nat)
    requires i < |done| && round <= done[i].round
    requires var n := |done| - 1; OrderedCoordinates(done[..n]) && Follows(done[n].round, done[n].batch, done[..n], 0)
    ensures HasRound(done, round)
  {
    var n := |done| - 1;
    var front := done[..n];
    if done[i].round == round {
    } else if i < n {
      assert HasRound(front, round);
      var k :| 0 <= k < |front| && front[k].round == round;
      assert done[k].round == round;
    } else {
      assert n > 0 && round <= front[n - 1].round;
      assert HasRound(front, round);
      var k :| 0 <= k < |front| && front[k].round == round;
      assert done[k].round == round;
    }
  }

  lemma LastBatch(done: seq<BatchResult>, i: nat, batch: nat)
    requires i < |done| && batch <= done[i].batch
    requires var n := |done| - 1; OrderedCoordinates(done[..n]) && Follows(done[n].round, done[n].batch, done[..n], 0)
    ensures HasCoordinate(done, done[i].round, batch)
  {
    var n := |done| - 1;
    var front := done[..n];
    if done[i].batch != batch {
      var m := if i < n then i else n - 1;
      assert HasCoordinate(front, front[m].round, batch);
      var k :| 0 <= k < |front| && front[k].round == front[m].round && front[k].batch == batch;
      assert done[k].round == done[i].round && done[k].batch == batch;
    }
  }

  // ---- the validator accepts what the writers produce ---------------------------------------------------

  lemma RecordedBatch(c: Config, maps: seq<MapResult>, done: seq<BatchResult>, rs: seq<Receipt>, j: nat)
    requires c.Valid() && Recorded(c, maps, done, rs) && j < |done|
    ensures var p := StateOf(c, maps, done[..j]);
      && BatchFrom(c, p, done[j], rs[|maps| + j], |maps| + j)
      && BatchResultOk(done[j]) && Subset(done[j].spans, MappedSpans(maps))
      && Follows(done[j].round, done[j].batch, done[..j], 0)
      && |done[j].spans| + done[j].rejected == |rs[|maps| + j].decision.spans|
      && j + 1 < MAX_REDUCE_BATCHES
  {
    var k := |maps| + j;
    var p := StateOf(c, maps, done[..j]);
    assert BatchFrom(c, p, done[j], rs[k], k);
    RecordedMaps(c, maps, done, rs);
    PendingFacts(c, maps, done[..j]);
    BatchResultSpans(p, rs[k]);
    SubsetTransitive(done[j].spans, p.spans, MappedSpans(maps));
  }

  lemma RecordedReductionsOk(c: Config, l: JobLedger)
    requires c.Valid() && l.units == c.Units() && Recorded(c, l.maps, l.reductions, l.receipts)
    ensures ReductionsOk(l)
  {
    forall j | 0 <= j < |l.reductions|
      ensures BatchResultOk(l.reductions[j]) && Subset(l.reductions[j].spans, MappedSpans(l.maps))
      ensures Follows(l.reductions[j].round, l.reductions[j].batch, l.reductions[..j], 0)
    {
      RecordedBatch(c, l.maps, l.reductions, l.receipts, j);
    }
    StepwiseOrdered(l.reductions);
    if l.reductions != [] {
      RecordedBatch(c, l.maps, l.reductions, l.receipts, |l.reductions| - 1);
    }
  }

  lemma RecordedMapsOk(c: Config, l: JobLedger)
    requires c.Valid() && l.units == c.Units() && Recorded(c, l.maps, l.reductions, l.receipts)
    ensures MapsOk(l) && ChainOk(l)
  {
    forall i | 0 <= i < |l.maps|
      ensures l.maps[i].unit == l.units[i] && l.maps[i].contract == l.units[i].contract && MapResultOk(l.maps[i])
      ensures l.maps[i].receipt == l.receipts[i]
    {
      assert MapFrom(c, l.maps[i], l.receipts[i], i);
      MapResultSpans(c, c.Units()[i], l.receipts[i]);
    }
    forall j | 0 <= j < |l.reductions| ensures l.reductions[j].receipt == l.receipts[|l.maps| + j] {
      var k := |l.maps| + j;
      assert BatchFrom(c, StateOf(c, l.maps, l.reductions[..j]), l.reductions[j], l.receipts[k], k);
    }
  }

  /** Every ledger the writers produce passes the ledger validator. */
  lemma ConsistentValid(c: Config, l: JobLedger)
    requires c.Valid() && Consistent(c, l)
    ensures ValidLedger(c, l)
  {
    RecordedMapsOk(c, l);
    RecordedReductionsOk(c, l);
    NextCallSound(c, l.maps, l.reductions, l.receipts);
  }

  // ---- receipt files --------------------------------------------------------------------------------------

  /** Files 0..n-1 are the committed receipts; the only other file answers the reservation. */
  ghost predicate FilesMatch(c: Config, l: JobLedger, files: Files) {
    && (forall k :: 0 <= k < |l.receipts| ==> k in files && files[k] == l.receipts[k])
    && (forall k :: k in files ==>
      (k < |l.receipts|
       || (l.pending.Some? && k == l.pending.value.sequence && MatchesPending(c, files[k], l.pending.value))))
    && (forall k :: k in files ==> ReceiptOk(files[k]))
  }

  /** Receipt by receipt, what was recorded and what is verified coincide. */
  lemma MapEntryAgrees(c: Config, m: MapResult, r: Receipt, i: nat)
    requires ReceiptOk(r) && c.Valid()
    ensures MapFrom(c, m, r, i) ==> MapEntry(c, m, r, i) && MapRecomputed(c, m, r, i)
    ensures MapEntry(c, m, r, i) && MapRecomputed(c, m, r, i) ==> MapFrom(c, m, r, i)
  {
    if i < |c.Units()| {
      MapResultSpans(c, c.Units()[i], r);
    }
  }

  lemma BatchEntryAgrees(c: Config, p: State, b: BatchResult, r: Receipt, k: nat)
    requires ReceiptOk(r)
    ensures BatchFrom(c, p, b, r, k) <==> BatchEntry(c, b, r, k) && BatchReplay(p, b, r) && BatchRecomputed(c, p, r)
  {
  }

  lemma ConsistentVerifiesBasic(c: Config, l: JobLedger, files: Files)
    requires c.Valid() && Recorded(c, l.maps, l.reductions, l.receipts) && Charges(c, l)
    requires FilesMatch(c, l, files) && (l.pending.Some? ==> l.pending.value.sequence == |l.receipts|)
    requires l.status == Complete ==> l.result.Some? && StateOf(c, l.maps, l.reductions) == Terminal(l.result.value)
    ensures VerifyBasic(c, l, files)
  {
    forall i | 0 <= i < |l.maps| ensures MapEntry(c, l.maps[i], l.receipts[i], i) {
      assert MapFrom(c, l.maps[i], l.receipts[i], i);
      MapEntryAgrees(c, l.maps[i], l.receipts[i], i);
    }
    forall j, k | 0 <= j < |l.reductions| && k == |l.maps| + j
      ensures BatchEntry(c, l.reductions[j], l.receipts[k], k)
      ensures BatchReplay(StateOf(c, l.maps, l.reductions[..j]), l.reductions[j], l.receipts[k])
    {
      assert BatchFrom(c, StateOf(c, l.maps, l.reductions[..j]), l.reductions[j], l.receipts[k], k);
      BatchEntryAgrees(c, StateOf(c, l.maps, l.reductions[..j]), l.reductions[j], l.receipts[k], k);
    }
  }

  lemma RecordedRequests(c: Config, l: JobLedger)
    requires c.Valid() && Recorded(c, l.maps, l.reductions, l.receipts)
    ensures forall i :: 0 <= i < |l.maps| ==> MapRecomputed(c, l.maps[i], l.receipts[i], i)
    ensures forall j, k :: 0 <= j < |l.reductions| && k == |l.maps| + j ==>
      BatchRecomputed(c, StateOf(c, l.maps, l.reductions[..j]), l.receipts[k])
  {
    forall i | 0 <= i < |l.maps| ensures MapRecomputed(c, l.maps[i], l.receipts[i], i) {
      assert MapFrom(c, l.maps[i], l.receipts[i], i);
    }
    forall j, k | 0 <= j < |l.reductions| && k == |l.maps| + j
      ensures BatchRecomputed(c, StateOf(c, l.maps, l.reductions[..j]), l.receipts[k])
    {
      assert BatchFrom(c, StateOf(c, l.maps, l.reductions[..j]), l.reductions[j], l.receipts[k], k);
    }
  }

  /** Every ledger the writers produce passes `_verify` on reload against the same snapshot. */
  lemma ConsistentVerifies(c: Config, l: JobLedger, files: Files)
    requires c.Valid() && Consistent(c, l) && FilesMatch(c, l, files)
    ensures ValidLedger(c, l) && Verify(c, l, files)
  {
    ConsistentValid(c, l);
    NextCallSound(c, l.maps, l.reductions, l.receipts);
    ConsistentVerifiesBasic(c, l, files);
    RecordedRequests(c, l);
    if |l.maps| == |l.units| {
      ReductionSound(c, l.maps, l.reductions, l.receipts);
    }
  }

  lemma VerifiedRecorded(c: Config, l: JobLedger, files: Files)
    requires c.Valid() && ValidLedger(c, l) && Verify(c, l, files)
    requires forall k :: k in files ==> ReceiptOk(files[k])
    ensures Recorded(c, l.maps, l.reductions, l.receipts)
  {
    forall i | 0 <= i < |l.maps| ensures MapFrom(c, l.maps[i], l.receipts[i], i) {
      assert i in files && files[i] == l.receipts[i];
      MapEntryAgrees(c, l.maps[i], l.receipts[i], i);
    }
    forall j, k | 0 <= j < |l.reductions| && k == |l.maps| + j
      ensures BatchFrom(c, StateOf(c, l.maps, l.reductions[..j]), l.reductions[j], l.receipts[k], k)
    {
      assert k in files && files[k] == l.receipts[k];
      BatchEntryAgrees(c, StateOf(c, l.maps, l.reductions[..j]), l.reductions[j], l.receipts[k], k);
    }
  }

  /** Conversely, a progress ledger that the validator and `_verify` accept is consistent. */
  lemma VerifiedConsistent(c: Config, l: JobLedger, files: Files)
    requires c.Valid() && ValidLedger(c, l) && l.status == Progress && Verify(c, l, files)
    requires forall k :: k in files ==> ReceiptOk(files[k])
    ensures Consistent(c, l) && FilesMatch(c, l, files)
  {
    VerifiedRecorded(c, l, files);
    if l.pending.Some? {
      NextCallSound(c, l.maps, l.reductions, l.receipts);
    }
  }

  // ---- replay ------------------------------------------------------------------------------------------------

  /** Reserve the next call and commit `r` as its answer. */
  function ReplayOne(c: Config, l: JobLedger, r: Receipt): Option<JobLedger> {
    var next := NextCall(c, l.maps, l.reductions);
    if next.Call? && WithinBudget(c, l, next.call) then Commit(c, Reserved(l, next.call), r) else None
  }

  /** The ledger obtained from nothing but an ordered list of receipts. */
  function Replay(c: Config, rs: seq<Receipt>): Option<JobLedger> {
    if rs == [] then Some(Begin(c))
    else
      var before := Replay(c, rs[..|rs| - 1]);
      if before.None? then None else ReplayOne(c, before.value, rs[|rs| - 1])
  }

  /** `l` is the replay of its receipts, possibly with the next call reserved. */
  ghost predicate IsReplay(c: Config, l: JobLedger) {
    && (forall r :: r in l.receipts ==> ReceiptOk(r))
    && Replay(c, l.receipts).Some?
    && var base := Replay(c, l.receipts).value;
      || l == base
      || (var next := NextCall(c, base.maps, base.reductions);
          next.Call? && WithinBudget(c, base, next.call) && l == Reserved(base, next.call))
  }

  lemma {:induction false} ReplayConsistent(c: Config, rs: seq<Receipt>)
    requires c.Valid() && Replay(c, rs).Some? && forall r :: r in rs ==> ReceiptOk(r)
    ensures var l := Replay(c, rs).value; Consistent(c, l) && l.receipts == rs && l.pending.None?
  {
    if rs == [] {
      BeginConsistent(c);
    } else {
      var front, last := rs[..|rs| - 1], rs[|rs| - 1];
      assert rs == front + [last];
      ReplayConsistent(c, front);
      var l := Replay(c, front).value;
      var p := NextCall(c, l.maps, l.reductions).call;
      ReserveConsistent(c, l, p);
      assert last in rs;
      CommitConsistent(c, Reserved(l, p), last);
    }
  }

  /** The ledger without reservation that these results and receipts determine. */
  ghost function Tallied(c: Config, maps: seq<MapResult>, done: seq<BatchResult>, rs: seq<Receipt>): JobLedger {
    JobLedger(Progress, c.Units(), maps, done, rs, |rs|, InputSum(rs), PromptSum(rs), CompletionSum(rs),
              TotalSum(rs), |rs| * c.profile.maxCompletion, None, None)
  }

  lemma RecordedPrefix(c: Config, maps: seq<MapResult>, done: seq<BatchResult>, rs: seq<Receipt>)
    requires Recorded(c, maps, done, rs) && rs != []
    ensures var n := |rs| - 1;
      if done != [] then Recorded(c, maps, done[..|done| - 1], rs[..n])
      else maps != [] && Recorded(c, maps[..n], [], rs[..n])
  {
    var n := |rs| - 1;
    var front := rs[..n];
    if done != [] {
      var done' := done[..|done| - 1];
      forall i | 0 <= i < |maps| ensures MapFrom(c, maps[i], front[i], i) {
        assert MapFrom(c, maps[i], rs[i], i);
      }
      forall j, k | 0 <= j < |done'| && k == |maps| + j
        ensures BatchFrom(c, StateOf(c, maps, done'[..j]), done'[j], front[k], k)
      {
        assert BatchFrom(c, StateOf(c, maps, done[..j]), done[j], rs[k], k);
        assert done'[..j] == done[..j];
      }
    } else {
      forall i | 0 <= i < n ensures MapFrom(c, maps[..n][i], front[i], i) {
        assert MapFrom(c, maps[i], rs[i], i);
      }
    }
  }

  /** The tally after one more receipt is the charged reservation of the tally before it. */
  lemma TallyCharges(c: Config, maps: seq<MapResult>, done: seq<BatchResult>, rs: seq<Receipt>, r: Receipt, p: PendingCall)
    requires p.inputCharacters == r.inputCharacters && p.maxCompletion == c.profile.maxCompletion
    ensures Charged(Reserved(Tallied(c, maps, done, rs), p), r)
         == Tallied(c, maps, done, rs + [r])
  {
    MulStep(|rs|, c.profile.maxCompletion);
    SumsSnoc(rs, r);
    var n := |rs + [r]|;
    assert n == |rs| + 1;
    assert n * c.profile.maxCompletion == |rs| * c.profile.maxCompletion + p.maxCompletion;
  }

  /** Budgets that hold for all receipts hold before the last one is reserved. */
  ghost predicate Affordable(c: Config, rs: seq<Receipt>) {
    && |rs| <= c.profile.maxCalls && InputSum(rs) <= c.profile.maxJobInput
    && |rs| * c.profile.maxCompletion <= c.profile.maxJobOutput
  }

  lemma AffordableStep(c: Config, maps: seq<MapResult>, done: seq<BatchResult>, rs: seq<Receipt>, r: Receipt, p: PendingCall)
    requires p.inputCharacters == r.inputCharacters && p.maxCompletion == c.profile.maxCompletion
    requires Affordable(c, rs + [r])
    ensures WithinBudget(c, Tallied(c, maps, done, rs), p) && Affordable(c, rs)
  {
    MulStep(|rs|, c.profile.maxCompletion);
    SumsSnoc(rs, r);
    assert |rs + [r]| == |rs| + 1;
  }

  lemma TallyMapStep(c: Config, maps: seq<MapResult>, rs: seq<Receipt>, m: MapResult, r: Receipt)
    requires c.Valid() && Recorded(c, maps, [], rs) && MapFrom(c, m, r, |maps|)
    requires Affordable(c, rs + [r])
    ensures ReplayOne(c, Tallied(c, maps, [], rs), r) == Some(Tallied(c, maps + [m], [], rs + [r]))
  {
    var p := MapPending(c, |maps|);
    NextCallSound(c, maps, [], rs);
    assert NextCall(c, maps, []) == Call(p);
    TallyCharges(c, maps, [], rs, r, p);
    AffordableStep(c, maps, [], rs, r, p);
  }

  lemma TallyBatchStep(c: Config, maps: seq<MapResult>, done: seq<BatchResult>, rs: seq<Receipt>, b: BatchResult, r: Receipt)
    requires c.Valid() && Recorded(c, maps, done, rs) && |maps| == |c.Units()|
    requires BatchFrom(c, StateOf(c, maps, done), b, r, |rs|)
    requires Affordable(c, rs + [r])
    ensures ReplayOne(c, Tallied(c, maps, done, rs), r) == Some(Tallied(c, maps, done + [b], rs + [r]))
  {
    var state := StateOf(c, maps, done);
    var p := ReducePending(c, |rs|, state);
    NextCallSound(c, maps, done, rs);
    RecordedMaps(c, maps, done, rs);
    assert NextCall(c, maps, done) == Call(p);
    CommitKeepsState(c, maps, done, r);
    TallyCharges(c, maps, done, rs, r, p);
    AffordableStep(c, maps, done, rs, r, p);
  }

  /** Committing the last receipt on top of the others gives the whole tally. */
  lemma TallyStep(c: Config, maps: seq<MapResult>, done: seq<BatchResult>, rs: seq<Receipt>)
    requires c.Valid() && Recorded(c, maps, done, rs) && rs != []
    requires Affordable(c, rs)
    ensures var n := |rs| - 1;
      var before := if done != [] then Tallied(c, maps, done[..|done| - 1], rs[..n]) else Tallied(c, maps[..n], [], rs[..n]);
      ReplayOne(c, before, rs[n]) == Some(Tallied(c, maps, done, rs))
  {
    var n := |rs| - 1;
    assert rs == rs[..n] + [rs[n]];
    RecordedPrefix(c, maps, done, rs);
    if done != [] {
      var j := |done| - 1;
      assert BatchFrom(c, StateOf(c, maps, done[..j]), done[j], rs[n], n);
      assert done == done[..j] + [done[j]];
      TallyBatchStep(c, maps, done[..j], rs[..n], done[j], rs[n]);
    } else {
      assert MapFrom(c, maps[n], rs[n], n);
      assert maps == maps[..n] + [maps[n]];
      TallyMapStep(c, maps[..n], rs[..n], maps[n], rs[n]);
    }
  }

  lemma {:induction false} TallyReplays(c: Config, maps: seq<MapResult>, done: seq<BatchResult>, rs: seq<Receipt>)
    requires c.Valid() && Recorded(c, maps, done, rs)
    requires Affordable(c, rs)
    ensures Replay(c, rs) == Some(Tallied(c, maps, done, rs))
    decreases |rs|
  {
    if rs != [] {
      var n := |rs| - 1;
      MulStep(n, c.profile.maxCompletion);
      assert Affordable(c, rs[..n]);
      RecordedPrefix(c, maps, done, rs);
      if done != [] {
        TallyReplays(c, maps, done[..|done| - 1], rs[..n]);
      } else {
        TallyReplays(c, maps[..n], [], rs[..n]);
      }
      TallyStep(c, maps, done, rs);
    }
  }

  lemma RecordedReceiptsOk(c: Config, maps: seq<MapResult>, done: seq<BatchResult>, rs: seq<Receipt>)
    requires Recorded(c, maps, done, rs)
    ensures forall r :: r in rs ==> ReceiptOk(r)
  {
    forall k | 0 <= k < |rs| ensures ReceiptOk(rs[k]) {
      if k < |maps| {
        assert MapFrom(c, maps[k], rs[k], k);
      } else {
        var j := k - |maps|;
        assert BatchFrom(c, StateOf(c, maps, done[..j]), done[j], rs[k], k);
      }
    }
  }

  lemma ConsistentTally(c: Config, l: JobLedger)
    requires Charges(c, l) && l.units == c.Units() && l.status == Progress && l.result.None?
    requires l.pending.Some? ==> l.pending.value.maxCompletion == c.profile.maxCompletion
    ensures var base := Tallied(c, l.maps, l.reductions, l.receipts);
      if l.pending.None? then l == base
      else l == Reserved(base, l.pending.value) && WithinBudget(c, base, l.pending.value)
    ensures Affordable(c, l.receipts)
  {
    MulStep(|l.receipts|, c.profile.maxCompletion);
  }

  lemma ConsistentIsReplay(c: Config, l: JobLedger)
    requires c.Valid() && Consistent(c, l)
    ensures IsReplay(c, l)
  {
    NextCallSound(c, l.maps, l.reductions, l.receipts);
    ConsistentTally(c, l);
    RecordedReceiptsOk(c, l.maps, l.reductions, l.receipts);
    TallyReplays(c, l.maps, l.reductions, l.receipts);
  }

  lemma ReplayIsConsistent(c: Config, l: JobLedger)
    requires c.Valid() && IsReplay(c, l)
    ensures Consistent(c, l)
  {
    ReplayConsistent(c, l.receipts);
    var base := Replay(c, l.receipts).value;
    if l != base {
      ReserveConsistent(c, base, NextCall(c, base.maps, base.reductions).call);
    }
  }

  /** Writer and verifier agree, in both directions: a progress ledger with its receipt files is
      accepted on reload exactly when it is the replay of its ordered receipts, plus at most one
      reservation, and the files are those receipts plus at most the reservation's answer. */
  lemma AcceptedIffReplay(c: Config, l: JobLedger, files: Files)
    requires c.Valid() && forall k :: k in files ==> ReceiptOk(files[k])
    ensures l.status == Progress && ValidLedger(c, l) && Verify(c, l, files)
       <==> IsReplay(c, l) && FilesMatch(c, l, files)
  {
    if l.status == Progress && ValidLedger(c, l) && Verify(c, l, files) {
      VerifiedConsistent(c, l, files);
      ConsistentIsReplay(c, l);
    }
    if IsReplay(c, l) && FilesMatch(c, l, files) {
      ReplayIsConsistent(c, l);
      ConsistentVerifies(c, l, files);
    }
  }
}
