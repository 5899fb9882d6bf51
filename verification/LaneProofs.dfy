/** The invariant of the job protocol, and that every event of every process keeps it. */
module LaneProofs {
  import opened Evidence
  import opened Ledger
  import opened LedgerProofs
  import opened VerifierProofs
  import opened Lane

  // ---- the inductive invariant ---------------------------------------------------------------------

  /** The provider was invoked once per committed receipt, at most once more for the reservation,
      and for nothing else. */
  ghost predicate CallsMatch(l: JobLedger, calls: seq<nat>) {
    && Distinct(calls)
    && (forall n :: n in calls ==> n < |l.receipts| || (l.pending.Some? && n == |l.receipts|))
    && (forall n :: 0 <= n < |l.receipts| ==> n in calls)
  }

  ghost predicate DurableOk(c: Config, d: Durable, calls: seq<nat>) {
    && !(d.complete.Some? && d.cancelled.Some?)
    && (d.progress.None? ==> d.files == map[] && !d.Ended() && calls == [])
    && (d.progress.Some? ==>
      && Consistent(c, d.progress.value) && FilesMatch(c, d.progress.value, d.files)
      && CallsMatch(d.progress.value, calls)
      && (d.progress.value.pending.Some? && |d.progress.value.receipts| in d.files ==>
          |d.progress.value.receipts| in calls))
    && (d.complete.Some? ==> d.progress.Some? && Sealed(c, d.progress.value, d.complete.value))
    && (d.cancelled.Some? ==>
      && d.progress.Some? && d.cancelled.value == CancelledLedger(d.progress.value)
      && (d.progress.value.pending.Some? ==> |d.progress.value.receipts| !in d.files))
    && (d.progress.Some? && !d.Ended() ==> d.root)
    && (d.progress.Some? ==> MinimumBudget(c))
  }

  /** The completed ledger is the progress ledger with the result its reduction implies. */
  ghost predicate Sealed(c: Config, l: JobLedger, sealed: JobLedger) {
    && l.pending.None?
    && var next := NextCall(c, l.maps, l.reductions);
       next.Finish? && sealed == Completed(l, next.result)
  }

  /** The holder's copy is the durable progress of a job that has not ended. */
  ghost predicate Current(d: Durable, l: JobLedger) {
    d.progress == Some(l) && !d.Ended()
  }

  /** What the lease holder knows at each point. */
  ghost predicate HolderOk(c: Config, d: Durable, calls: seq<nat>, p: Proc) {
    match p.pc
    case Idle => true
    case Waiting => true
    case Inspecting => true
    case Fresh => d.progress.None?
    case Rooted => d.progress.None? && d.root
    case Existing => d.progress.Some? && !d.Ended()
    case Checked => d.progress.Some? && !d.Ended()
    case Loaded(l) => Current(d, l)
    case Ready(l) => Current(d, l) && l.pending.None? && p.action != Cancel
    case Reserving(l, call) => Current(d, l) && l.pending.None? && NextCall(c, l.maps, l.reductions) == Call(call)
    case Calling(l) =>
      Current(d, l) && l.pending.Some? && |l.receipts| !in calls && |l.receipts| !in d.files
    case Answered(l, r) =>
      Current(d, l) && l.pending.Some? && |l.receipts| in calls && |l.receipts| !in d.files
      && ReceiptOk(r) && r.sequence == |l.receipts|
    case Committing(l, r) =>
      Current(d, l) && l.pending.Some? && |l.receipts| in d.files && d.files[|l.receipts|] == r
    case Settling(l) => Current(d, l) && l.pending.None?
    case Completing(l, result) =>
      Current(d, l) && l.pending.None? && NextCall(c, l.maps, l.reductions) == Finish(result)
    case Cancelling(l) => Current(d, l) && (l.pending.Some? ==> |l.receipts| !in d.files)
    case Releasing => d.Ended()
    case Unwinding => true
    case Discarding => d.progress.None?
    case Leaving => true
  }

  ghost predicate LeaseOk(w: World) {
    forall id :: id in w.procs ==> (HoldsLease(w.procs[id].pc) <==> w.lease == Some(id))
  }

  ghost predicate Invariant(c: Config, w: World) {
    && c.Valid()
    && DurableOk(c, w.d, w.calls)
    && LeaseOk(w)
    && (forall id :: id in w.procs ==> HolderOk(c, w.d, w.calls, w.procs[id]))
  }

  lemma InitialInvariant(c: Config, w: World)
    requires c.Valid() && Initial(w)
    ensures Invariant(c, w)
  {
  }

  /** A step of the lease holder that stays in the locked section. */
  lemma HolderMoves(c: Config, w: World, id: nat, d: Durable, calls: seq<nat>, pc: Pc)
    requires Invariant(c, w) && id in w.procs && HoldsLease(w.procs[id].pc) && HoldsLease(pc)
    requires DurableOk(c, d, calls) && HolderOk(c, d, calls, Proc(w.procs[id].action, pc))
    ensures Invariant(c, At(w.(d := d, calls := calls), id, pc))
  {
    var w' := At(w.(d := d, calls := calls), id, pc);
    forall k | k in w'.procs
      ensures HolderOk(c, w'.d, w'.calls, w'.procs[k])
      ensures HoldsLease(w'.procs[k].pc) <==> w'.lease == Some(k)
    {
      assert w.lease == Some(id);
      if k != id {
        assert !HoldsLease(w.procs[k].pc);
      }
    }
  }

  // ---- durable operations -----------------------------------------------------------------------------

  lemma BeginDurable(c: Config, d: Durable, calls: seq<nat>)
    requires c.Valid() && DurableOk(c, d, calls) && d.progress.None? && d.root && MinimumBudget(c)
    ensures DurableOk(c, d.(progress := Some(Begin(c))), calls)
  {
    BeginConsistent(c);
  }

  lemma ReserveDurable(c: Config, d: Durable, calls: seq<nat>, l: JobLedger, p: PendingCall)
    requires c.Valid() && DurableOk(c, d, calls) && Current(d, l) && l.pending.None?
    requires NextCall(c, l.maps, l.reductions) == Call(p) && WithinBudget(c, l, p)
    ensures DurableOk(c, d.(progress := Some(Reserved(l, p))), calls)
    ensures |l.receipts| !in calls && |l.receipts| !in d.files
  {
    ReserveConsistent(c, l, p);
    NextCallSound(c, l.maps, l.reductions, l.receipts);
  }

  lemma CallDurable(c: Config, d: Durable, calls: seq<nat>, l: JobLedger)
    requires c.Valid() && DurableOk(c, d, calls) && Current(d, l) && l.pending.Some?
    requires |l.receipts| !in calls && |l.receipts| !in d.files
    ensures l.pending.value.sequence == |l.receipts|
    ensures DurableOk(c, d, calls + [|l.receipts|])
  {
    NextCallSound(c, l.maps, l.reductions, l.receipts);
  }

  lemma PublishDurable(c: Config, d: Durable, calls: seq<nat>, l: JobLedger, r: Receipt)
    requires c.Valid() && DurableOk(c, d, calls) && Current(d, l) && l.pending.Some?
    requires |l.receipts| in calls && r.sequence == |l.receipts| && ReceiptOk(r)
    requires MatchesPending(c, r, l.pending.value)
    ensures DurableOk(c, d.(files := d.files[r.sequence := r]), calls)
  {
  }

  lemma CommitFiles(c: Config, l: JobLedger, l': JobLedger, files: Files, calls: seq<nat>, r: Receipt)
    requires FilesMatch(c, l, files) && CallsMatch(l, calls) && l.pending.Some?
    requires l.pending.value.sequence == |l.receipts| && |l.receipts| in files && files[|l.receipts|] == r
    requires |l.receipts| in calls && l'.receipts == l.receipts + [r] && l'.pending.None?
    ensures FilesMatch(c, l', files) && CallsMatch(l', calls)
  {
  }

  lemma CommitDurable(c: Config, d: Durable, calls: seq<nat>, l: JobLedger, r: Receipt)
    requires c.Valid() && DurableOk(c, d, calls) && Current(d, l) && l.pending.Some?
    requires |l.receipts| in d.files && d.files[|l.receipts|] == r
    ensures Commit(c, l, r).Some?
    ensures var l' := Commit(c, l, r).value;
      DurableOk(c, d.(progress := Some(l')), calls) && l'.pending.None? && l'.receipts == l.receipts + [r]
  {
    NextCallSound(c, l.maps, l.reductions, l.receipts);
    CommitConsistent(c, l, r);
    CommitFiles(c, l, Commit(c, l, r).value, d.files, calls, r);
  }

  // ---- each event keeps the invariant --------------------------------------------------------------------

  lemma ArriveInvariant(c: Config, w: World, id: nat, a: Action)
    requires Invariant(c, w) && id in w.procs && OnArrive(w, id, a).Some?
    ensures Invariant(c, OnArrive(w, id, a).value)
  {
    var w' := OnArrive(w, id, a).value;
    forall k | k in w'.procs
      ensures HolderOk(c, w'.d, w'.calls, w'.procs[k])
      ensures HoldsLease(w'.procs[k].pc) <==> w'.lease == Some(k)
    {
      assert HolderOk(c, w.d, w.calls, w.procs[k]);
    }
  }

  lemma AcquireInvariant(c: Config, w: World, id: nat)
    requires Invariant(c, w) && id in w.procs && OnAcquire(w, id).Some?
    ensures Invariant(c, OnAcquire(w, id).value)
  {
    var w' := OnAcquire(w, id).value;
    forall k | k in w'.procs
      ensures HolderOk(c, w'.d, w'.calls, w'.procs[k])
      ensures HoldsLease(w'.procs[k].pc) <==> w'.lease == Some(k)
    {
      assert HolderOk(c, w.d, w.calls, w.procs[k]);
    }
  }

  lemma LeaveInvariant(c: Config, w: World, id: nat)
    requires Invariant(c, w) && id in w.procs && OnLeave(w, id).Some?
    ensures Invariant(c, OnLeave(w, id).value)
  {
    var w' := OnLeave(w, id).value;
    forall k | k in w'.procs
      ensures HolderOk(c, w'.d, w'.calls, w'.procs[k])
      ensures HoldsLease(w'.procs[k].pc) <==> w'.lease == Some(k)
    {
      assert HolderOk(c, w.d, w.calls, w.procs[k]);
    }
  }

  lemma CrashInvariant(c: Config, w: World, id: nat)
    requires Invariant(c, w) && id in w.procs && OnCrash(w, id).Some?
    ensures Invariant(c, OnCrash(w, id).value)
  {
    var w' := OnCrash(w, id).value;
    forall k | k in w'.procs
      ensures HolderOk(c, w'.d, w'.calls, w'.procs[k])
      ensures HoldsLease(w'.procs[k].pc) <==> w'.lease == Some(k)
    {
      assert HolderOk(c, w.d, w.calls, w.procs[k]);
    }
  }

  lemma InspectInvariant(c: Config, w: World, id: nat)
    requires Invariant(c, w) && id in w.procs && OnInspect(w, id).Some?
    ensures Invariant(c, OnInspect(w, id).value)
  {
    HolderMoves(c, w, id, w.d, w.calls, Inspected(w.d, w.procs[id].action));
  }

  lemma RootInvariant(c: Config, w: World, id: nat)
    requires Invariant(c, w) && id in w.procs && OnVerifyRoot(w, id).Some?
    ensures Invariant(c, OnVerifyRoot(w, id).value)
  {
    var p := w.procs[id];
    HolderMoves(c, w, id, w.d, w.calls,
                if !w.d.root then Failed(p.action) else if p.pc.Fresh? then Rooted else Checked);
  }

  lemma UnwindInvariant(c: Config, w: World, id: nat)
    requires Invariant(c, w) && id in w.procs && OnUnwind(w, id).Some?
    ensures Invariant(c, OnUnwind(w, id).value)
  {
    HolderMoves(c, w, id, w.d, w.calls, if w.d.progress.Some? || w.d.Ended() then Leaving else Discarding);
  }

  lemma FailInvariant(c: Config, w: World, id: nat)
    requires Invariant(c, w) && id in w.procs && OnFail(w, id).Some?
    ensures Invariant(c, OnFail(w, id).value)
  {
    HolderMoves(c, w, id, w.d, w.calls, Failed(w.procs[id].action));
  }

  lemma LoadInvariant(c: Config, w: World, id: nat)
    requires Invariant(c, w) && id in w.procs && OnLoad(c, w, id).Some?
    ensures Invariant(c, OnLoad(c, w, id).value)
  {
    var l := w.d.progress.value;
    ConsistentVerifies(c, l, w.d.files);
    HolderMoves(c, w, id, w.d, w.calls, Loaded(l));
  }

  lemma RecoverInvariant(c: Config, w: World, id: nat)
    requires Invariant(c, w) && id in w.procs && OnRecover(w, id).Some?
    ensures Invariant(c, OnRecover(w, id).value)
  {
    var l := w.procs[id].pc.l;
    NextCallSound(c, l.maps, l.reductions, l.receipts);
    HolderMoves(c, w, id, w.d, w.calls, Recovered(w.d, l, w.procs[id].action));
  }

  lemma NextInvariant(c: Config, w: World, id: nat)
    requires Invariant(c, w) && id in w.procs && OnNext(c, w, id).Some?
    ensures Invariant(c, OnNext(c, w, id).value)
  {
    HolderMoves(c, w, id, w.d, w.calls, Chosen(c, w.procs[id].pc.l, w.procs[id].action));
  }

  lemma SettleInvariant(c: Config, w: World, id: nat)
    requires Invariant(c, w) && id in w.procs && OnSettle(c, w, id).Some?
    ensures Invariant(c, OnSettle(c, w, id).value)
  {
    var l := w.procs[id].pc.l;
    var next := NextCall(c, l.maps, l.reductions);
    HolderMoves(c, w, id, w.d, w.calls, if next.Finish? then Completing(l, next.result) else Leaving);
  }

  lemma BeginInvariant(c: Config, w: World, id: nat)
    requires Invariant(c, w) && id in w.procs && OnBegin(c, w, id).Some?
    ensures Invariant(c, OnBegin(c, w, id).value)
  {
    if MinimumBudget(c) {
      BeginDurable(c, w.d, w.calls);
      HolderMoves(c, w, id, w.d.(progress := Some(Begin(c))), w.calls, Loaded(Begin(c)));
    } else {
      HolderMoves(c, w, id, w.d, w.calls, Failed(w.procs[id].action));
    }
  }

  lemma ReserveInvariant(c: Config, w: World, id: nat)
    requires Invariant(c, w) && id in w.procs && OnReserve(c, w, id).Some?
    ensures Invariant(c, OnReserve(c, w, id).value)
  {
    var l, call := w.procs[id].pc.l, w.procs[id].pc.call;
    if WithinBudget(c, l, call) {
      ReserveDurable(c, w.d, w.calls, l, call);
      HolderMoves(c, w, id, w.d.(progress := Some(Reserved(l, call))), w.calls, Calling(Reserved(l, call)));
    } else {
      HolderMoves(c, w, id, w.d, w.calls, Failed(w.procs[id].action));
    }
  }

  lemma CommitInvariant(c: Config, w: World, id: nat)
    requires Invariant(c, w) && id in w.procs && OnCommit(c, w, id).Some?
    ensures Invariant(c, OnCommit(c, w, id).value)
  {
    var l, r := w.procs[id].pc.l, w.procs[id].pc.r;
    CommitDurable(c, w.d, w.calls, l, r);
    var l' := Commit(c, l, r).value;
    HolderMoves(c, w, id, w.d.(progress := Some(l')), w.calls,
                if w.procs[id].action == Cancel then Cancelling(l') else Settling(l'));
  }

  lemma CallInvariant(c: Config, w: World, id: nat, a: Answer)
    requires Invariant(c, w) && id in w.procs && OnCall(c, w, id, a).Some?
    ensures Invariant(c, OnCall(c, w, id, a).value)
  {
    var l := w.procs[id].pc.l;
    CallDurable(c, w.d, w.calls, l);
    var calls := w.calls + [|l.receipts|];
    if a.Reply? && ReceiptOk(ReceiptFor(c, l.pending.value, a)) {
      HolderMoves(c, w, id, w.d, calls, Answered(l, ReceiptFor(c, l.pending.value, a)));
    } else {
      HolderMoves(c, w, id, w.d, calls, Leaving);
    }
  }

  lemma PublishInvariant(c: Config, w: World, id: nat)
    requires Invariant(c, w) && id in w.procs && OnPublish(c, w, id).Some?
    ensures Invariant(c, OnPublish(c, w, id).value)
  {
    var l, r := w.procs[id].pc.l, w.procs[id].pc.r;
    if MatchesPending(c, r, l.pending.value) {
      PublishDurable(c, w.d, w.calls, l, r);
      HolderMoves(c, w, id, w.d.(files := w.d.files[r.sequence := r]), w.calls, Committing(l, r));
    } else {
      HolderMoves(c, w, id, w.d, w.calls, Leaving);
    }
  }

  lemma EndDurable(c: Config, d: Durable, calls: seq<nat>, p: Proc)
    requires DurableOk(c, d, calls) && HolderOk(c, d, calls, p)
    ensures p.pc.Completing? ==> DurableOk(c, d.(complete := Some(Completed(p.pc.l, p.pc.result))), calls)
    ensures p.pc.Cancelling? ==> DurableOk(c, d.(cancelled := Some(CancelledLedger(p.pc.l))), calls)
  {
  }

  lemma CompleteInvariant(c: Config, w: World, id: nat)
    requires Invariant(c, w) && id in w.procs && OnComplete(w, id).Some?
    ensures Invariant(c, OnComplete(w, id).value)
  {
    var pc := w.procs[id].pc;
    EndDurable(c, w.d, w.calls, w.procs[id]);
    HolderMoves(c, w, id, w.d.(complete := Some(Completed(pc.l, pc.result))), w.calls, Releasing);
  }

  lemma CancelInvariant(c: Config, w: World, id: nat)
    requires Invariant(c, w) && id in w.procs && OnCancel(w, id).Some?
    ensures Invariant(c, OnCancel(w, id).value)
  {
    var pc := w.procs[id].pc;
    EndDurable(c, w.d, w.calls, w.procs[id]);
    HolderMoves(c, w, id, w.d.(cancelled := Some(CancelledLedger(pc.l))), w.calls, Releasing);
  }

  lemma RootDropped(c: Config, d: Durable, calls: seq<nat>)
    requires DurableOk(c, d, calls) && (d.progress.None? || d.Ended())
    ensures DurableOk(c, d.(root := false), calls)
  {
  }

  lemma ReleaseInvariant(c: Config, w: World, id: nat)
    requires Invariant(c, w) && id in w.procs && OnRelease(w, id).Some?
    ensures Invariant(c, OnRelease(w, id).value)
  {
    RootDropped(c, w.d, w.calls);
    HolderMoves(c, w, id, w.d.(root := false), w.calls, Leaving);
  }

  lemma DiscardInvariant(c: Config, w: World, id: nat)
    requires Invariant(c, w) && id in w.procs && OnDiscard(w, id).Some?
    ensures Invariant(c, OnDiscard(w, id).value)
  {
    RootDropped(c, w.d, w.calls);
    HolderMoves(c, w, id, w.d.(root := false), w.calls, Leaving);
  }

  /** Every event of every process keeps the invariant. */
  lemma StepInvariant(c: Config, w: World, id: nat, e: Event)
    requires Invariant(c, w) && Step(c, w, id, e).Some?
    ensures Invariant(c, Step(c, w, id, e).value)
  {
    match e
    case Arrive(a) => ArriveInvariant(c, w, id, a);
    case Acquire => AcquireInvariant(c, w, id);
    case Inspect => InspectInvariant(c, w, id);
    case VerifyRoot => RootInvariant(c, w, id);
    case BeginJob => BeginInvariant(c, w, id);
    case Load => LoadInvariant(c, w, id);
    case Recover => RecoverInvariant(c, w, id);
    case Next => NextInvariant(c, w, id);
    case Reserve => ReserveInvariant(c, w, id);
    case CallProvider(a) => CallInvariant(c, w, id, a);
    case Publish => PublishInvariant(c, w, id);
    case CommitReceipt => CommitInvariant(c, w, id);
    case Settle => SettleInvariant(c, w, id);
    case Complete => CompleteInvariant(c, w, id);
    case CancelJob => CancelInvariant(c, w, id);
    case ReleaseRoot => ReleaseInvariant(c, w, id);
    case Unwind => UnwindInvariant(c, w, id);
    case Discard => DiscardInvariant(c, w, id);
    case Leave => LeaveInvariant(c, w, id);
    case Fail => FailInvariant(c, w, id);
    case Crash => CrashInvariant(c, w, id);
  }
}
