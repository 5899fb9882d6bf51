/** Any number of processes polling one audit job without a lock: every interleaving of their file
    operations, with failures and deaths in between. */
module AuditRuns {
  import opened Evidence
  import opened Audit

  datatype Files = Files(vector: Option<Vector>, progress: Option<Ledger>, complete: Option<Ledger>)

  datatype Pc =
    | Idle
    | Embedding
    | Beginning(v: Vector)
    | Opening(v: Vector)
    | Working(l: Ledger, left: nat)
    | Finishing(l: Ledger)
    | Returned(l: Ledger)

  datatype World = World(files: Files, procs: map<nat, Pc>)

  datatype Event =
    | Load
    | Embed(v: Vector)
    | PublishVector
    | WriteInitial
    | Checkpoint
    | EndLoop
    | PublishComplete
    | Stop   // the call returns, raises or dies

  function Loaded(f: Files): Pc {
    if f.complete.Some? then Returned(f.complete.value)
    else if f.progress.Some? then
      if f.vector == Some(f.progress.value.vector) then Working(f.progress.value, CONTRACTS_PER_CALL) else Idle
    else if f.vector.Some? then Beginning(f.vector.value)
    else Embedding
  }

  /** The effect of an event on the files and on the process; `None` when it cannot happen there. */
  function Effect(c: AuditConfig, f: Files, pc: Pc, e: Event): Option<(Files, Pc)> {
    match e
    case Load => if pc.Idle? then Some((f, Loaded(f))) else None
    case Embed(v) => if pc.Embedding? then Some((f, Beginning(v))) else None
    case PublishVector =>
      if !pc.Beginning? then None
      else if f.vector.Some? && f.vector.value != pc.v then Some((f, Idle))
      else Some((f.(vector := Some(pc.v)), Opening(pc.v)))
    case WriteInitial =>
      if !pc.Opening? then None
      else Some((f.(progress := Some(Ledger(pc.v, [], 0))), Working(Ledger(pc.v, [], 0), CONTRACTS_PER_CALL)))
    case Checkpoint =>
      if !pc.Working? || pc.left == 0 || |pc.l.done| >= |c.contracts| then None
      else
        var scored := Score(c, pc.l.vector, |pc.l.done|);
        if scored.None? then Some((f, Idle))
        else
          var next := Extended(c, pc.l, scored.value);
          Some((f.(progress := Some(next)), Working(next, pc.left - 1)))
    case EndLoop =>
      if !pc.Working? || (pc.left > 0 && |pc.l.done| < |c.contracts|) then None
      else Some((f, if |pc.l.done| == |c.contracts| then Finishing(pc.l) else Returned(pc.l)))
    case PublishComplete =>
      if !pc.Finishing? then None
      else if f.complete.Some? && f.complete.value != pc.l then Some((f, Idle))
      else Some((f.(complete := Some(pc.l)), Returned(pc.l)))
    case Stop => Some((f, Idle))
  }

  function Step(c: AuditConfig, w: World, id: nat, e: Event): Option<World> {
    if id !in w.procs then None
    else
      var r := Effect(c, w.files, w.procs[id], e);
      if r.None? then None else Some(World(r.value.0, w.procs[id := r.value.1]))
  }

  datatype Act = Act(id: nat, event: Event)

  function Run(c: AuditConfig, w: World, acts: seq<Act>): Option<World> {
    if acts == [] then Some(w)
    else
      var before, last := Run(c, w, acts[..|acts| - 1]), acts[|acts| - 1];
      if before.None? then None else Step(c, before.value, last.id, last.event)
  }

  predicate Initial(w: World) {
    w.files == Files(None, None, None) && forall id :: id in w.procs ==> w.procs[id].Idle?
  }

  // ---- the invariant -----------------------------------------------------------------------------------------------

  ghost predicate FilesOk(c: AuditConfig, f: Files) {
    && (f.vector.None? ==> f.progress.None? && f.complete.None?)
    && (f.progress.Some? ==> PrefixOf(c, f.vector.value, f.progress.value))
    && (f.complete.Some? ==> PrefixOf(c, f.vector.value, f.complete.value) && |f.complete.value.done| == |c.contracts|)
  }

  ghost predicate ProcOk(c: AuditConfig, f: Files, pc: Pc) {
    match pc
    case Idle => true
    case Embedding => true
    case Beginning(v) => true
    case Opening(v) => f.vector == Some(v)
    case Working(l, left) => f.vector.Some? && PrefixOf(c, f.vector.value, l)
    case Finishing(l) => f.vector.Some? && PrefixOf(c, f.vector.value, l) && |l.done| == |c.contracts|
    case Returned(l) => f.vector.Some? && PrefixOf(c, f.vector.value, l)
  }

  ghost predicate Invariant(c: AuditConfig, w: World) {
    FilesOk(c, w.files) && forall id :: id in w.procs ==> ProcOk(c, w.files, w.procs[id])
  }

  /** Two ledgers of the same vector and length are the same. */
  lemma PrefixUnique(c: AuditConfig, v: Vector, a: Ledger, b: Ledger)
    requires PrefixOf(c, v, a) && PrefixOf(c, v, b) && |a.done| == |b.done|
    ensures a == b
  {
    forall i | 0 <= i < |a.done| ensures a.done[i] == b.done[i] {
      assert Score(c, v, i) == Some(a.done[i]) && Score(c, v, i) == Some(b.done[i]);
    }
  }

  /** A published vector or result is never replaced. */
  ghost predicate Keeps(f: Files, f': Files) {
    (f.vector.Some? ==> f'.vector == f.vector) && (f.complete.Some? ==> f'.complete == f.complete)
  }

  lemma EffectOk(c: AuditConfig, f: Files, pc: Pc, e: Event)
    requires FilesOk(c, f) && ProcOk(c, f, pc) && Effect(c, f, pc, e).Some?
    ensures var (f', pc') := Effect(c, f, pc, e).value;
      FilesOk(c, f') && ProcOk(c, f', pc') && Keeps(f, f')
  {
    if e.Checkpoint? {
      var scored := Score(c, pc.l.vector, |pc.l.done|);
      if scored.Some? {
        ExtendedPrefix(c, f.vector.value, pc.l, scored.value);
      }
    }
  }

  lemma StepInvariant(c: AuditConfig, w: World, id: nat, e: Event)
    requires Invariant(c, w) && Step(c, w, id, e).Some?
    ensures Invariant(c, Step(c, w, id, e).value) && Keeps(w.files, Step(c, w, id, e).value.files)
  {
    EffectOk(c, w.files, w.procs[id], e);
    var w' := Step(c, w, id, e).value;
    forall k | k in w'.procs ensures ProcOk(c, w'.files, w'.procs[k]) {
      if k != id {
        assert ProcOk(c, w.files, w.procs[k]);
      }
    }
  }

  /** In every run each ledger on disk, in a process or returned is an ordered prefix of one-pass
      scores for the one published vector. */
  lemma {:induction false} RunInvariant(c: AuditConfig, w: World, acts: seq<Act>)
    requires Initial(w) && Run(c, w, acts).Some?
    ensures Invariant(c, Run(c, w, acts).value)
  {
    if acts != [] {
      var last := acts[|acts| - 1];
      RunInvariant(c, w, acts[..|acts| - 1]);
      StepInvariant(c, Run(c, w, acts[..|acts| - 1]).value, last.id, last.event);
    }
  }

  lemma {:induction false} RunKeeps(c: AuditConfig, w: World, acts: seq<Act>)
    requires Invariant(c, w) && Run(c, w, acts).Some?
    ensures Invariant(c, Run(c, w, acts).value) && Keeps(w.files, Run(c, w, acts).value.files)
  {
    if acts != [] {
      var last := acts[|acts| - 1];
      RunKeeps(c, w, acts[..|acts| - 1]);
      StepInvariant(c, Run(c, w, acts[..|acts| - 1]).value, last.id, last.event);
    }
  }

  /** Whatever ran before: a completed job holds the one-pass score of every expected contract for
      the published vector, and no later run changes that result or the vector. */
  lemma CompletedIsOnePass(c: AuditConfig, start: World, acts: seq<Act>, more: seq<Act>)
    requires Initial(start) && Run(c, start, acts).Some? && Run(c, start, acts).value.files.complete.Some?
    requires Run(c, Run(c, start, acts).value, more).Some?
    ensures var f := Run(c, start, acts).value.files;
      && f.vector.Some? && |f.complete.value.done| == |c.contracts|
      && (forall i :: 0 <= i < |c.contracts| ==> Score(c, f.vector.value, i) == Some(f.complete.value.done[i]))
      && f.complete.value.scoredRows == RowTotal(c, |c.contracts|)
    ensures Run(c, Run(c, start, acts).value, more).value.files.complete == Run(c, start, acts).value.files.complete
    ensures Run(c, Run(c, start, acts).value, more).value.files.vector == Run(c, start, acts).value.files.vector
  {
    RunInvariant(c, start, acts);
    RunKeeps(c, Run(c, start, acts).value, more);
  }

  /** Two processes that finish the job publish the same result: the second finds its own bytes. */
  lemma FinishersAgree(c: AuditConfig, w: World, id: nat)
    requires Invariant(c, w) && id in w.procs && w.procs[id].Finishing? && w.files.complete.Some?
    ensures w.files.complete == Some(w.procs[id].l)
  {
    assert ProcOk(c, w.files, w.procs[id]);
    PrefixUnique(c, w.files.vector.value, w.files.complete.value, w.procs[id].l);
  }

  /** Returned partial results are prefixes of the completed one. */
  lemma ReturnedIsPrefix(c: AuditConfig, w: World, id: nat)
    requires Invariant(c, w) && id in w.procs && w.procs[id].Returned? && w.files.complete.Some?
    ensures w.procs[id].l.done <= w.files.complete.value.done
  {
    assert ProcOk(c, w.files, w.procs[id]);
    var l, full, v := w.procs[id].l, w.files.complete.value, w.files.vector.value;
    forall i | 0 <= i < |l.done| ensures l.done[i] == full.done[i] {
      assert Score(c, v, i) == Some(l.done[i]) && Score(c, v, i) == Some(full.done[i]);
    }
  }
}
