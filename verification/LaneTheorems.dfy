/** What the protocol invariant means for callers, over every run from an unstarted job. */
module LaneTheorems {
  import opened Evidence
  import opened Reduction
  import opened Ledger
  import opened LedgerProofs
  import opened VerifierProofs
  import opened Lane
  import opened LaneProofs

  lemma {:induction false} RunInvariant(c: Config, w: World, acts: seq<Act>)
    requires Invariant(c, w) && Run(c, w, acts).Some?
    ensures Invariant(c, Run(c, w, acts).value)
  {
    if acts != [] {
      RunInvariant(c, w, acts[..|acts| - 1]);
      var last := acts[|acts| - 1];
      StepInvariant(c, Run(c, w, acts[..|acts| - 1]).value, last.id, last.event);
    }
  }

  // ---- provider calls ---------------------------------------------------------------------------------

  /** Distinct numbers below `n` are at most `n` many. */
  lemma {:induction false} DistinctBounded(s: seq<nat>, n: nat)
    requires Distinct(s) && forall x :: x in s ==> x < n
    ensures |s| <= n
    decreases n
  {
    if s != [] {
      assert s[0] in s;
      if n - 1 in s {
        var i :| 0 <= i < |s| && s[i] == n - 1;
        var rest := s[..i] + s[i + 1..];
        assert forall x :: x in rest ==> x in s;
        assert forall k :: 0 <= k < |rest| ==> rest[k] == if k < i then s[k] else s[k + 1];
        DistinctBounded(rest, n - 1);
      } else {
        DistinctBounded(s, n - 1);
      }
    }
  }

  /** In every run, no sequence number reaches the provider twice, and the durable call counter is
      never below the number of real calls. Each committed receipt had its own call. */
  lemma AtMostOnceCalls(c: Config, w: World, acts: seq<Act>)
    requires c.Valid() && Initial(w) && Run(c, w, acts).Some?
    ensures var w' := Run(c, w, acts).value;
      && Distinct(w'.calls)
      && (w'.d.progress.None? ==> w'.calls == [])
      && (w'.d.progress.Some? ==>
        var l := w'.d.progress.value;
        && |w'.calls| <= l.calls
        && (forall n :: n in w'.calls ==> n < l.calls)
        && (forall n :: 0 <= n < |l.receipts| ==> n in w'.calls && l.receipts[n].sequence == n))
  {
    InitialInvariant(c, w);
    RunInvariant(c, w, acts);
    var w' := Run(c, w, acts).value;
    if w'.d.progress.Some? {
      var l := w'.d.progress.value;
      DistinctBounded(w'.calls, l.calls);
      ReceiptSequences(c, l);
    }
  }

  lemma ReceiptSequences(c: Config, l: JobLedger)
    requires Recorded(c, l.maps, l.reductions, l.receipts)
    ensures forall n :: 0 <= n < |l.receipts| ==> l.receipts[n].sequence == n
  {
    forall n | 0 <= n < |l.receipts| ensures l.receipts[n].sequence == n {
      if n < |l.maps| {
        assert MapFrom(c, l.maps[n], l.receipts[n], n);
      } else {
        var j := n - |l.maps|;
        assert BatchFrom(c, StateOf(c, l.maps, l.reductions[..j]), l.reductions[j], l.receipts[n], n);
      }
    }
  }

  // ---- terminal states -----------------------------------------------------------------------------------

  /** In every run: never both markers, and a published job that has not ended keeps its root. */
  lemma ExclusiveEnds(c: Config, w: World, acts: seq<Act>)
    requires c.Valid() && Initial(w) && Run(c, w, acts).Some?
    ensures var d := Run(c, w, acts).value.d;
      && !(d.complete.Some? && d.cancelled.Some?)
      && (d.progress.Some? && !d.Ended() ==> d.root)
      && (d.Ended() ==> d.progress.Some?)
  {
    InitialInvariant(c, w);
    RunInvariant(c, w, acts);
  }

  /** Where a process must stand to change the ledger, the receipts, a marker or the call history. */
  lemma {:induction false} StepFrame(c: Config, w: World, id: nat, e: Event)
    requires Step(c, w, id, e).Some?
    ensures id in w.procs
    ensures var pc := w.procs[id].pc;
            var w' := Step(c, w, id, e).value;
      && (w'.d.progress == w.d.progress || pc.Rooted? || pc.Reserving?
          || (pc.Committing? && w'.d.progress == Commit(c, pc.l, pc.r) && w'.d.progress.Some?))
      && (w'.d.files == w.d.files || pc.Answered?)
      && (w'.d.complete == w.d.complete || pc.Completing?)
      && (w'.d.cancelled == w.d.cancelled || pc.Cancelling?)
      && (w'.calls == w.calls || pc.Calling?)
  {
  }

  /** An event of a process that may act on an ended job changes nothing but the root. */
  lemma StepKeepsEnd(c: Config, w: World, id: nat, e: Event)
    requires Invariant(c, w) && w.d.Ended() && Step(c, w, id, e).Some?
    ensures var w' := Step(c, w, id, e).value;
      w'.d == w.d.(root := w'.d.root) && w'.calls == w.calls
  {
    StepFrame(c, w, id, e);
    EndedBlocks(c, w, id);
  }

  lemma EndedBlocks(c: Config, w: World, id: nat)
    requires Invariant(c, w) && id in w.procs && w.d.Ended()
    ensures var pc := w.procs[id].pc;
      && !pc.Rooted? && !pc.Reserving? && !pc.Calling? && !pc.Answered? && !pc.Committing?
      && !pc.Completing? && !pc.Cancelling?
  {
    assert HolderOk(c, w.d, w.calls, w.procs[id]);
  }

  /** Once a marker is published, every continuation keeps the ledger, the receipts, the markers
      and the provider calls as they are. */
  lemma {:induction false} EndIsStable(c: Config, w: World, acts: seq<Act>)
    requires Invariant(c, w) && w.d.Ended() && Run(c, w, acts).Some?
    ensures var w' := Run(c, w, acts).value;
      w'.d == w.d.(root := w'.d.root) && w'.calls == w.calls
  {
    if acts != [] {
      var front, last := acts[..|acts| - 1], acts[|acts| - 1];
      EndIsStable(c, w, front);
      RunInvariant(c, w, front);
      StepKeepsEnd(c, Run(c, w, front).value, last.id, last.event);
    }
  }

  lemma CompletedValid(c: Config, l: JobLedger, result: FinalResult)
    requires ValidLedger(c, l) && l.pending.None? && |l.maps| == |l.units|
    requires Subset(result.Spans(), MappedSpans(l.maps))
    ensures ValidLedger(c, Completed(l, result))
  {
    var sealed := Completed(l, result);
    assert MapsOk(sealed) && ReductionsOk(sealed) && ChainOk(sealed);
  }

  lemma CompletedVerifies(c: Config, l: JobLedger, sealed: JobLedger, files: Files)
    requires c.Valid() && Consistent(c, l) && FilesMatch(c, l, files) && Sealed(c, l, sealed)
    ensures ValidLedger(c, sealed) && VerifyBasic(c, sealed, files)
  {
    ConsistentValid(c, l);
    CompletedState(c, l);
    CompletedValid(c, l, sealed.result.value);
    ConsistentVerifiesBasic(c, sealed, files);
  }

  lemma CancelledValid(c: Config, l: JobLedger)
    requires ValidLedger(c, l) && l.status == Progress
    ensures ValidLedger(c, CancelledLedger(l))
  {
    var sealed := CancelledLedger(l);
    assert MapsOk(sealed) && ReductionsOk(sealed) && ChainOk(sealed);
  }

  lemma CancelledVerifies(c: Config, l: JobLedger, files: Files)
    requires c.Valid() && Consistent(c, l) && FilesMatch(c, l, files)
    ensures ValidLedger(c, CancelledLedger(l)) && VerifyBasic(c, CancelledLedger(l), files)
  {
    ConsistentValid(c, l);
    CancelledValid(c, l);
    ConsistentVerifiesBasic(c, CancelledLedger(l), files);
  }

  /** The artifact behind a terminal marker is accepted when it is inspected again. */
  lemma EndedLedgerVerifies(c: Config, w: World)
    requires Invariant(c, w)
    ensures w.d.complete.Some? ==> ValidLedger(c, w.d.complete.value) && VerifyBasic(c, w.d.complete.value, w.d.files)
    ensures w.d.cancelled.Some? ==> ValidLedger(c, w.d.cancelled.value) && VerifyBasic(c, w.d.cancelled.value, w.d.files)
  {
    if w.d.complete.Some? {
      CompletedVerifies(c, w.d.progress.value, w.d.complete.value, w.d.files);
    }
    if w.d.cancelled.Some? {
      CancelledVerifies(c, w.d.progress.value, w.d.files);
    }
  }

  lemma CompletedState(c: Config, l: JobLedger)
    requires c.Valid() && Consistent(c, l) && NextCall(c, l.maps, l.reductions).Finish?
    ensures |l.maps| == |c.Units()|
    ensures var result := NextCall(c, l.maps, l.reductions).result;
      StateOf(c, l.maps, l.reductions) == Terminal(result) && Subset(result.Spans(), MappedSpans(l.maps))
  {
    RecordedMaps(c, l.maps, l.reductions, l.receipts);
    PendingFacts(c, l.maps, l.reductions);
  }

  // ---- recovery of published receipts -----------------------------------------------------------------------

  /** While a published receipt waits, no process stands before a write other than its commit. */
  lemma PublishedBlocks(c: Config, w: World, id: nat)
    requires Invariant(c, w) && id in w.procs && w.d.progress.Some?
    requires var l := w.d.progress.value; l.pending.Some? && |l.receipts| in w.d.files
    ensures var pc := w.procs[id].pc;
      && !pc.Rooted? && !pc.Reserving? && !pc.Calling? && !pc.Answered?
      && (pc.Committing? ==> pc.l == w.d.progress.value && pc.r == w.d.files[|pc.l.receipts|])
  {
    assert HolderOk(c, w.d, w.calls, w.procs[id]);
  }

  /** A published but uncommitted receipt: the next change of the ledger commits exactly it, and
      until then neither the receipts nor the provider calls change. */
  lemma PublishedIsCommittedNext(c: Config, w: World, id: nat, e: Event)
    requires Invariant(c, w) && Step(c, w, id, e).Some? && w.d.progress.Some?
    requires var l := w.d.progress.value; l.pending.Some? && |l.receipts| in w.d.files
    ensures var l := w.d.progress.value;
            var w' := Step(c, w, id, e).value;
      && w'.d.files == w.d.files && w'.calls == w.calls
      && (w'.d.progress == w.d.progress
          || (w'.d.progress == Commit(c, l, w.d.files[|l.receipts|]) && w'.d.progress.Some?))
  {
    StepFrame(c, w, id, e);
    PublishedBlocks(c, w, id);
  }

  /** The world while process `id` polls, holding the lease at `pc`. */
  function Polling(w: World, id: nat, pc: Pc): World {
    w.(lease := Some(id), procs := w.procs[id := Proc(Poll, pc)])
  }

  /** The events of one poll up to the commit of a recovered receipt. */
  function RecoveringPoll(id: nat): seq<Act> {
    [Act(id, Arrive(Poll)), Act(id, Acquire), Act(id, Inspect), Act(id, VerifyRoot), Act(id, Load),
     Act(id, Recover), Act(id, CommitReceipt)]
  }

  lemma RunNext(c: Config, w: World, acts: seq<Act>, k: nat, now: World)
    requires k < |acts| && Run(c, w, acts[..k]) == Some(now)
    ensures Run(c, w, acts[..k + 1]) == Step(c, now, acts[k].id, acts[k].event)
  {
    assert acts[..k + 1][..k] == acts[..k];
  }

  lemma PollEnters(c: Config, w: World, id: nat)
    requires id in w.procs && w.procs[id].pc.Idle? && w.lease.None?
    ensures Run(c, w, RecoveringPoll(id)[..2]) == Some(Polling(w, id, Inspecting))
  {
    var waiting := w.(procs := w.procs[id := Proc(Poll, Waiting)]);
    assert w.d.(root := w.d.root || false) == w.d;
    assert waiting.procs[id := Proc(Poll, Inspecting)] == w.procs[id := Proc(Poll, Inspecting)];
    RunNext(c, w, RecoveringPoll(id), 0, w);
    RunNext(c, w, RecoveringPoll(id), 1, waiting);
  }

  lemma PollInspects(c: Config, w: World, id: nat)
    requires w.d.progress.Some? && !w.d.Ended()
    requires Run(c, w, RecoveringPoll(id)[..2]) == Some(Polling(w, id, Inspecting))
    ensures Run(c, w, RecoveringPoll(id)[..3]) == Some(Polling(w, id, Existing))
  {
    assert w.procs[id := Proc(Poll, Inspecting)][id := Proc(Poll, Existing)] == w.procs[id := Proc(Poll, Existing)];
    RunNext(c, w, RecoveringPoll(id), 2, Polling(w, id, Inspecting));
  }

  lemma PollChecks(c: Config, w: World, id: nat)
    requires w.d.progress.Some? && !w.d.Ended() && w.d.root
    requires Run(c, w, RecoveringPoll(id)[..2]) == Some(Polling(w, id, Inspecting))
    ensures Run(c, w, RecoveringPoll(id)[..4]) == Some(Polling(w, id, Checked))
  {
    PollInspects(c, w, id);
    assert w.procs[id := Proc(Poll, Existing)][id := Proc(Poll, Checked)] == w.procs[id := Proc(Poll, Checked)];
    RunNext(c, w, RecoveringPoll(id), 3, Polling(w, id, Existing));
  }

  lemma PollLoads(c: Config, w: World, id: nat, l: JobLedger)
    requires w.d.progress == Some(l) && ValidLedger(c, l) && Verify(c, l, w.d.files)
    requires Run(c, w, RecoveringPoll(id)[..4]) == Some(Polling(w, id, Checked))
    ensures Run(c, w, RecoveringPoll(id)[..5]) == Some(Polling(w, id, Loaded(l)))
  {
    assert w.procs[id := Proc(Poll, Checked)][id := Proc(Poll, Loaded(l))] == w.procs[id := Proc(Poll, Loaded(l))];
    RunNext(c, w, RecoveringPoll(id), 4, Polling(w, id, Checked));
  }

  lemma PollFindsReceipt(c: Config, w: World, id: nat, l: JobLedger, r: Receipt)
    requires l.pending.Some? && l.pending.value.sequence in w.d.files && w.d.files[l.pending.value.sequence] == r
    requires Run(c, w, RecoveringPoll(id)[..5]) == Some(Polling(w, id, Loaded(l)))
    ensures Run(c, w, RecoveringPoll(id)[..6]) == Some(Polling(w, id, Committing(l, r)))
  {
    var loaded, committing := Proc(Poll, Loaded(l)), Proc(Poll, Committing(l, r));
    assert w.procs[id := loaded][id := committing] == w.procs[id := committing];
    RunNext(c, w, RecoveringPoll(id), 5, Polling(w, id, Loaded(l)));
  }

  lemma CommitStep(c: Config, w: World, id: nat, l: JobLedger, r: Receipt)
    requires id in w.procs && w.procs[id].pc == Committing(l, r) && Commit(c, l, r).Some?
    ensures var after := Step(c, w, id, CommitReceipt);
      after.Some? && after.value.d.progress == Commit(c, l, r) && after.value.calls == w.calls
  {
  }

  lemma PollCommits(c: Config, w: World, id: nat, l: JobLedger, r: Receipt, acts: seq<Act>)
    requires Commit(c, l, r).Some? && |acts| == 7 && acts[6] == Act(id, CommitReceipt)
    requires Run(c, w, acts[..6]) == Some(Polling(w, id, Committing(l, r)))
    ensures Run(c, w, acts).Some?
    ensures var w' := Run(c, w, acts).value; w'.d.progress == Commit(c, l, r) && w'.calls == w.calls
  {
    CommitStep(c, Polling(w, id, Committing(l, r)), id, l, r);
    RunNext(c, w, acts, 6, Polling(w, id, Committing(l, r)));
    assert acts[..7] == acts;
  }

  /** With the lease free, a single poll commits the published receipt without a provider call. */
  lemma PollRecovers(c: Config, w: World, id: nat)
    requires Invariant(c, w) && id in w.procs && w.procs[id].pc.Idle? && w.lease.None?
    requires w.d.progress.Some? && !w.d.Ended()
    requires var l := w.d.progress.value; l.pending.Some? && |l.receipts| in w.d.files
    ensures Run(c, w, RecoveringPoll(id)).Some?
    ensures var l := w.d.progress.value;
            var w' := Run(c, w, RecoveringPoll(id)).value;
      w'.d.progress == Commit(c, l, w.d.files[|l.receipts|]) && w'.calls == w.calls
  {
    var l := w.d.progress.value;
    PollEnters(c, w, id);
    PollChecks(c, w, id);
    NextCallSound(c, l.maps, l.reductions, l.receipts);
    ConsistentVerifies(c, l, w.d.files);
    PollLoads(c, w, id, l);
    CommitDurable(c, w.d, w.calls, l, w.d.files[|l.receipts|]);
    PollFindsReceipt(c, w, id, l, w.d.files[|l.receipts|]);
    PollCommits(c, w, id, l, w.d.files[|l.receipts|], RecoveringPoll(id));
  }

  // ---- budgets ------------------------------------------------------------------------------------------------

  /** In every run the ledger charges the sealed cap for each call and the exact input of each
      receipt and reservation, within every budget. */
  lemma BudgetsConserved(c: Config, w: World, acts: seq<Act>)
    requires c.Valid() && Initial(w) && Run(c, w, acts).Some?
    requires Run(c, w, acts).value.d.progress.Some?
    ensures var l := Run(c, w, acts).value.d.progress.value;
      && l.outputTokens == l.calls * c.profile.maxCompletion <= c.profile.maxJobOutput
      && l.calls == |l.receipts| + PendingCount(l) <= c.profile.maxCalls
      && l.inputCharacters == InputSum(l.receipts) + PendingInput(l) <= c.profile.maxJobInput
  {
    InitialInvariant(c, w);
    RunInvariant(c, w, acts);
  }

  lemma {:induction false} PlanPrefix(c: Config, m: nat, n: nat)
    requires m <= n <= |c.Units()|
    ensures PlanCharacters(c, m) <= PlanCharacters(c, n)
  {
    if m < n { PlanPrefix(c, m, n - 1); }
  }

  lemma {:induction false} MapInputs(c: Config, maps: seq<MapResult>, rs: seq<Receipt>)
    requires Recorded(c, maps, [], rs)
    ensures InputSum(rs) == PlanCharacters(c, |maps|)
    decreases |rs|
  {
    if rs != [] {
      var n := |rs| - 1;
      assert MapFrom(c, maps[n], rs[n], n);
      RecordedPrefix(c, maps, [], rs);
      MapInputs(c, maps[..n], rs[..n]);
    }
  }

  lemma MulMonotone(a: nat, b: nat, m: nat)
    requires a <= b
    ensures a * m <= b * m
  {
  }

  /** A job admitted by the minimum-budget check never runs out of budget while mapping. */
  lemma MapPhaseAffordable(c: Config, w: World, acts: seq<Act>)
    requires c.Valid() && Initial(w) && Run(c, w, acts).Some?
    requires var d := Run(c, w, acts).value.d;
      d.progress.Some? && d.progress.value.pending.None? && |d.progress.value.maps| < |c.Units()|
    ensures var l := Run(c, w, acts).value.d.progress.value;
            var next := NextCall(c, l.maps, l.reductions);
      next == Call(MapPending(c, |l.maps|)) && WithinBudget(c, l, next.call)
  {
    InitialInvariant(c, w);
    RunInvariant(c, w, acts);
    var l := Run(c, w, acts).value.d.progress.value;
    AffordNextMap(c, l);
  }

  lemma AffordNextMap(c: Config, l: JobLedger)
    requires c.Valid() && Consistent(c, l) && MinimumBudget(c) && l.pending.None? && |l.maps| < |c.Units()|
    ensures NextCall(c, l.maps, l.reductions) == Call(MapPending(c, |l.maps|))
    ensures WithinBudget(c, l, MapPending(c, |l.maps|))
  {
    var n := |l.maps|;
    assert c.Units()[n] in c.Units();
    MapInputs(c, l.maps, l.receipts);
    PlanPrefix(c, n + 1, |c.Units()|);
    MulStep(n, c.profile.maxCompletion);
    MulMonotone(n + 1, |c.Units()|, c.profile.maxCompletion);
  }

  // ---- evidence -------------------------------------------------------------------------------------------------

  /** Every span of a completed job was accepted from the answer for a map unit, and is the literal
      page text at its offsets, in the contract and inside a source range of that unit. */
  lemma EvidenceSound(c: Config, w: World, acts: seq<Act>)
    requires c.Valid() && Initial(w) && Run(c, w, acts).Some?
    requires Run(c, w, acts).value.d.complete.Some?
    ensures var l := Run(c, w, acts).value.d.complete.value;
      l.result.Some? && forall s :: s in l.result.value.Spans() ==> FromUnit(c, l.maps, s)
  {
    InitialInvariant(c, w);
    RunInvariant(c, w, acts);
    var d := Run(c, w, acts).value.d;
    var l := d.progress.value;
    CompletedState(c, l);
    RecordedMaps(c, l.maps, l.reductions, l.receipts);
    MappedSpansSound(c, l.maps);
    SubsetMembers(d.complete.value.result.value.Spans(), MappedSpans(l.maps));
  }

  /** In every run, accepted plus rejected spans of each result equal what its answer proposed. */
  lemma SpansConserved(c: Config, w: World, acts: seq<Act>)
    requires c.Valid() && Initial(w) && Run(c, w, acts).Some?
    requires Run(c, w, acts).value.d.progress.Some?
    ensures var l := Run(c, w, acts).value.d.progress.value;
      && (forall i :: 0 <= i < |l.maps| ==>
        |l.maps[i].spans| + l.maps[i].rejected == |l.maps[i].receipt.decision.spans|)
      && (forall j :: 0 <= j < |l.reductions| ==>
        |l.reductions[j].spans| + l.reductions[j].rejected == |l.reductions[j].receipt.decision.spans|)
  {
    InitialInvariant(c, w);
    RunInvariant(c, w, acts);
    var l := Run(c, w, acts).value.d.progress.value;
    forall i | 0 <= i < |l.maps|
      ensures |l.maps[i].spans| + l.maps[i].rejected == |l.maps[i].receipt.decision.spans|
    {
      assert MapFrom(c, l.maps[i], l.receipts[i], i);
      MapResultSpans(c, c.Units()[i], l.receipts[i]);
    }
    forall j | 0 <= j < |l.reductions|
      ensures |l.reductions[j].spans| + l.reductions[j].rejected == |l.reductions[j].receipt.decision.spans|
    {
      RecordedBatch(c, l.maps, l.reductions, l.receipts, j);
    }
  }
}
