/** The job protocol as a transition system: any number of processes start, poll and cancel one
    job, each may fail or die between any two durable operations, and a lease serializes the
    part between inspecting and leaving the job. */
module Lane {
  import opened Evidence
  import opened Ledger

  /** What survives a crash. A terminal marker names its content-addressed artifact, so it is
      modelled by the ledger it seals. `root` is the generation root claimed for this job. */
  datatype Durable = Durable(
    progress: Option<JobLedger>, files: Files, complete: Option<JobLedger>, cancelled: Option<JobLedger>, root: bool)
  {
    predicate Ended() { complete.Some? || cancelled.Some? }
  }

  datatype Action = Start | Poll | Cancel

  /** Where a process stands. Everything from `Inspecting` on holds the lease; the ledger a
      process carries is its local copy. */
  datatype Pc =
    | Idle
    | Waiting
    | Inspecting
    | Fresh
    | Rooted
    | Existing
    | Checked
    | Loaded(l: JobLedger)
    | Ready(l: JobLedger)
    | Reserving(l: JobLedger, call: PendingCall)
    | Calling(l: JobLedger)
    | Answered(l: JobLedger, r: Receipt)
    | Committing(l: JobLedger, r: Receipt)
    | Settling(l: JobLedger)
    | Completing(l: JobLedger, result: FinalResult)
    | Cancelling(l: JobLedger)
    | Releasing
    | Unwinding
    | Discarding
    | Leaving

  datatype Proc = Proc(action: Action, pc: Pc)

  /** `calls` lists the sequence numbers for which the provider was really invoked. */
  datatype World = World(d: Durable, lease: Option<nat>, procs: map<nat, Proc>, calls: seq<nat>)

  predicate HoldsLease(pc: Pc) { !pc.Idle? && !pc.Waiting? }

  /** A provider answer as far as the lane does not control it. */
  datatype Answer = NoAnswer | Reply(responder: string, content: string, decision: Decision, usage: Usage)

  datatype Event =
    | Arrive(action: Action)   // start claims the generation root before it has the lease
    | Acquire
    | Inspect
    | VerifyRoot
    | BeginJob
    | Load
    | Recover
    | Next
    | Reserve
    | CallProvider(answer: Answer)
    | Publish
    | CommitReceipt
    | Settle
    | Complete
    | CancelJob
    | ReleaseRoot
    | Unwind
    | Discard
    | Leave
    | Fail                     // any raised error
    | Crash                    // the process dies; the kernel drops its lease

  /** `_verify_minimum_job_budget`. */
  predicate MinimumBudget(c: Config) {
    && |c.Units()| <= c.profile.maxCalls
    && PlanCharacters(c, |c.Units()|) <= c.profile.maxJobInput
    && |c.Units()| * c.profile.maxCompletion <= c.profile.maxJobOutput
  }

  function PlanCharacters(c: Config, n: nat): nat
    requires n <= |c.Units()|
  {
    if n == 0 then 0 else PlanCharacters(c, n - 1) + MapPromptCharacters(c.query, c.Units()[n - 1])
  }

  function At(w: World, id: nat, pc: Pc): World
    requires id in w.procs
  {
    w.(procs := w.procs[id := w.procs[id].(pc := pc)])
  }

  /** Where a raised error leads: a start still checks whether its claim must be undone. */
  function Failed(action: Action): Pc {
    if action == Start then Unwinding else Leaving
  }

  /** The receipt the lane builds from a reservation and an answer. */
  function ReceiptFor(c: Config, p: PendingCall, a: Answer): Receipt
    requires a.Reply?
  {
    Receipt(p.sequence, p.key, p.request, p.inputCharacters, p.maxCompletion, c.maker,
            a.responder, a.content, a.decision, a.usage)
  }

  // ---- the effect of each event; `None` when it cannot happen there -------------------------------

  function OnArrive(w: World, id: nat, a: Action): Option<World>
    requires id in w.procs
  {
    if !w.procs[id].pc.Idle? then None
    else Some(w.(procs := w.procs[id := Proc(a, Waiting)], d := w.d.(root := w.d.root || a == Start)))
  }

  function OnAcquire(w: World, id: nat): Option<World>
    requires id in w.procs
  {
    if !w.procs[id].pc.Waiting? || w.lease.Some? then None
    else Some(At(w.(lease := Some(id)), id, Inspecting))
  }

  function OnInspect(w: World, id: nat): Option<World>
    requires id in w.procs
  {
    if !w.procs[id].pc.Inspecting? then None else Some(At(w, id, Inspected(w.d, w.procs[id].action)))
  }

  function OnVerifyRoot(w: World, id: nat): Option<World>
    requires id in w.procs
  {
    var p := w.procs[id];
    if !p.pc.Fresh? && !p.pc.Existing? then None
    else Some(At(w, id, if !w.d.root then Failed(p.action) else if p.pc.Fresh? then Rooted else Checked))
  }

  function OnBegin(c: Config, w: World, id: nat): Option<World>
    requires id in w.procs
  {
    if !w.procs[id].pc.Rooted? then None
    else if !MinimumBudget(c) then Some(At(w, id, Failed(w.procs[id].action)))
    else Some(At(w.(d := w.d.(progress := Some(Begin(c)))), id, Loaded(Begin(c))))
  }

  function OnLoad(c: Config, w: World, id: nat): Option<World>
    requires id in w.procs
  {
    if !w.procs[id].pc.Checked? then None
    else if w.d.progress.Some? && ValidLedger(c, w.d.progress.value) && Verify(c, w.d.progress.value, w.d.files)
    then Some(At(w, id, Loaded(w.d.progress.value)))
    else Some(At(w, id, Failed(w.procs[id].action)))
  }

  function OnRecover(w: World, id: nat): Option<World>
    requires id in w.procs
  {
    var p := w.procs[id];
    if !p.pc.Loaded? then None else Some(At(w, id, Recovered(w.d, p.pc.l, p.action)))
  }

  function OnNext(c: Config, w: World, id: nat): Option<World>
    requires id in w.procs
  {
    var p := w.procs[id];
    if !p.pc.Ready? then None else Some(At(w, id, Chosen(c, p.pc.l, p.action)))
  }

  function OnReserve(c: Config, w: World, id: nat): Option<World>
    requires id in w.procs
  {
    var p := w.procs[id];
    if !p.pc.Reserving? then None
    else if !WithinBudget(c, p.pc.l, p.pc.call) then Some(At(w, id, Failed(p.action)))
    else
      var l := Reserved(p.pc.l, p.pc.call);
      Some(At(w.(d := w.d.(progress := Some(l))), id, Calling(l)))
  }

  function OnCall(c: Config, w: World, id: nat, a: Answer): Option<World>
    requires id in w.procs
  {
    var pc := w.procs[id].pc;
    if !pc.Calling? || pc.l.pending.None? then None
    else
      var w' := w.(calls := w.calls + [pc.l.pending.value.sequence]);
      if a.Reply? && ReceiptOk(ReceiptFor(c, pc.l.pending.value, a))
      then Some(At(w', id, Answered(pc.l, ReceiptFor(c, pc.l.pending.value, a))))
      else Some(At(w', id, Leaving))
  }

  function OnPublish(c: Config, w: World, id: nat): Option<World>
    requires id in w.procs
  {
    var pc := w.procs[id].pc;
    if !pc.Answered? then None
    else if pc.l.pending.None? || !MatchesPending(c, pc.r, pc.l.pending.value)
            || (pc.r.sequence in w.d.files && w.d.files[pc.r.sequence] != pc.r)
    then Some(At(w, id, Leaving))
    else Some(At(w.(d := w.d.(files := w.d.files[pc.r.sequence := pc.r])), id, Committing(pc.l, pc.r)))
  }

  function OnCommit(c: Config, w: World, id: nat): Option<World>
    requires id in w.procs
  {
    var p := w.procs[id];
    if !p.pc.Committing? then None
    else
      var next := Commit(c, p.pc.l, p.pc.r);
      if next.None? then Some(At(w, id, Failed(p.action)))
      else Some(At(w.(d := w.d.(progress := next)), id,
                   if p.action == Cancel then Cancelling(next.value) else Settling(next.value)))
  }

  function OnSettle(c: Config, w: World, id: nat): Option<World>
    requires id in w.procs
  {
    var pc := w.procs[id].pc;
    if !pc.Settling? then None
    else
      var next := NextCall(c, pc.l.maps, pc.l.reductions);
      Some(At(w, id, if next.Finish? then Completing(pc.l, next.result) else Leaving))
  }

  /** An immutable marker that exists with other bytes is an error. */
  function OnComplete(w: World, id: nat): Option<World>
    requires id in w.procs
  {
    var p := w.procs[id];
    if !p.pc.Completing? then None
    else
      var sealed := Completed(p.pc.l, p.pc.result);
      if w.d.complete.Some? && w.d.complete.value != sealed then Some(At(w, id, Failed(p.action)))
      else Some(At(w.(d := w.d.(complete := Some(sealed))), id, Releasing))
  }

  function OnCancel(w: World, id: nat): Option<World>
    requires id in w.procs
  {
    var p := w.procs[id];
    if !p.pc.Cancelling? then None
    else
      var sealed := CancelledLedger(p.pc.l);
      if w.d.cancelled.Some? && w.d.cancelled.value != sealed then Some(At(w, id, Failed(p.action)))
      else Some(At(w.(d := w.d.(cancelled := Some(sealed))), id, Releasing))
  }

  function OnRelease(w: World, id: nat): Option<World>
    requires id in w.procs
  {
    if !w.procs[id].pc.Releasing? then None else Some(At(w.(d := w.d.(root := false)), id, Leaving))
  }

  /** `_release_unstarted_claim`: only a job that never published progress loses its root. */
  function OnUnwind(w: World, id: nat): Option<World>
    requires id in w.procs
  {
    if !w.procs[id].pc.Unwinding? then None
    else Some(At(w, id, if w.d.progress.Some? || w.d.Ended() then Leaving else Discarding))
  }

  function OnDiscard(w: World, id: nat): Option<World>
    requires id in w.procs
  {
    if !w.procs[id].pc.Discarding? then None else Some(At(w.(d := w.d.(root := false)), id, Leaving))
  }

  function OnLeave(w: World, id: nat): Option<World>
    requires id in w.procs
  {
    if !w.procs[id].pc.Leaving? then None else Some(At(w.(lease := None), id, Idle))
  }

  function OnFail(w: World, id: nat): Option<World>
    requires id in w.procs
  {
    if !HoldsLease(w.procs[id].pc) then None else Some(At(w, id, Failed(w.procs[id].action)))
  }

  function OnCrash(w: World, id: nat): Option<World>
    requires id in w.procs
  {
    Some(At(w.(lease := if HoldsLease(w.procs[id].pc) then None else w.lease), id, Idle))
  }

  /** The effect of one event of process `id`. */
  function Step(c: Config, w: World, id: nat, e: Event): Option<World> {
    if id !in w.procs then None
    else
      match e
      case Arrive(a) => OnArrive(w, id, a)
      case Acquire => OnAcquire(w, id)
      case Inspect => OnInspect(w, id)
      case VerifyRoot => OnVerifyRoot(w, id)
      case BeginJob => OnBegin(c, w, id)
      case Load => OnLoad(c, w, id)
      case Recover => OnRecover(w, id)
      case Next => OnNext(c, w, id)
      case Reserve => OnReserve(c, w, id)
      case CallProvider(a) => OnCall(c, w, id, a)
      case Publish => OnPublish(c, w, id)
      case CommitReceipt => OnCommit(c, w, id)
      case Settle => OnSettle(c, w, id)
      case Complete => OnComplete(w, id)
      case CancelJob => OnCancel(w, id)
      case ReleaseRoot => OnRelease(w, id)
      case Unwind => OnUnwind(w, id)
      case Discard => OnDiscard(w, id)
      case Leave => OnLeave(w, id)
      case Fail => OnFail(w, id)
      case Crash => OnCrash(w, id)
  }

  /** `inspect`: terminal markers first, then progress. */
  function Inspected(d: Durable, action: Action): Pc {
    if d.complete.Some? && d.cancelled.Some? then Failed(action)
    else if d.Ended() then Releasing
    else if d.progress.None? then Fresh
    else Existing
  }

  /** `_recover_pending_receipt` and the branch on a surviving reservation. */
  function Recovered(d: Durable, l: JobLedger, action: Action): Pc {
    if l.pending.Some? && l.pending.value.sequence in d.files
    then Committing(l, d.files[l.pending.value.sequence])
    else if action == Cancel then Cancelling(l)
    else if l.pending.Some? then Leaving
    else Ready(l)
  }

  function Chosen(c: Config, l: JobLedger, action: Action): Pc {
    match NextCall(c, l.maps, l.reductions)
    case Finish(result) => Completing(l, result)
    case Call(call) => Reserving(l, call)
    case Fault => Failed(action)
  }

  /** No job yet, or only a root left by a start that died before publishing progress. */
  predicate Initial(w: World) {
    && w.d.progress.None? && w.d.files == map[] && !w.d.Ended()
    && w.lease.None? && w.calls == []
    && forall id :: id in w.procs ==> w.procs[id].pc.Idle?
  }

  datatype Act = Act(id: nat, event: Event)

  /** The world after a run; `None` if some event of it could not happen. */
  function Run(c: Config, w: World, acts: seq<Act>): Option<World> {
    if acts == [] then Some(w)
    else
      var before := Run(c, w, acts[..|acts| - 1]);
      var last := acts[|acts| - 1];
      if before.None? then None else Step(c, before.value, last.id, last.event)
  }
}
