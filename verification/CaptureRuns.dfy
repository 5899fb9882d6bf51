/** The capture as a sequence of single file operations, each of which may be the last one before
    the process dies: exactly which directories a restart accepts, over every history of starts,
    failures and deaths. A lock keeps other processes out while one runs. */
module CaptureRuns {
  import opened Evidence
  import opened Capture

  /** Where the running process stands. A temporary is created before and unlinked after each link;
      the score temporary exists while the query is embedded and scored. */
  datatype Pc =
    | Idle
    | Opening(step: nat)                                 // publishes inventory and identity, then resumes
    | Updating(step: nat, done: seq<Coverage>)           // brings the saved progress up to date
    | Capturing(step: nat, done: seq<Coverage>, s: Shards)
    | Finished

  datatype World = World(d: Directory, pc: Pc, embedded: seq<nat>)

  datatype Event =
    | Start
    | Next(s: Shards)   // the next file operation; scoring yields `s`
    | Fail              // a raised error: the pending temporary is unlinked on the way out
    | Die               // the process is killed

  const NO_SHARDS := Shards([], [])

  /** The process owns a temporary. */
  predicate Holding(pc: Pc) {
    match pc
    case Idle => false
    case Opening(step) => step == 1 || step == 2 || step == 4 || step == 5
    case Updating(step, done) => step == 1
    case Capturing(step, done, s) =>
      step == 1 || step == 2 || step == 3 || step == 5 || step == 6 || step == 8 || step == 9 || step == 11
    case Finished => false
  }

  function Owned(pc: Pc): nat { if Holding(pc) then 1 else 0 }

  /** How many files of the current query exist. */
  function Stage(step: nat): nat {
    if step <= 2 then 0 else if step <= 5 then 1 else if step <= 8 then 2 else 3
  }

  ghost predicate Accepted(c: CaptureConfig, d: Directory)
    requires |d.slots| == |c.queries|
  {
    exists k: nat :: Resumable(c, d, k)
  }

  ghost function Resumed(c: CaptureConfig, d: Directory): (done: seq<Coverage>)
    requires |d.slots| == |c.queries| && Accepted(c, d)
    ensures Resumable(c, d, |done|) && done == Coverages(d.slots, |done|)
  {
    var k: nat :| Resumable(c, d, k);
    Coverages(d.slots, k)
  }

  function Continue(c: CaptureConfig, done: seq<Coverage>): Pc {
    if |done| == |c.queries| then Finished else Capturing(0, done, NO_SHARDS)
  }

  function Created(w: World, pc: Pc): World {
    World(w.d.(temporaries := w.d.temporaries + 1), pc, w.embedded)
  }

  function Unlinked(w: World, pc: Pc): World {
    World(w.d.(temporaries := if w.d.temporaries == 0 then 0 else w.d.temporaries - 1), pc, w.embedded)
  }

  function WithSlot(w: World, k: nat, slot: Slot, pc: Pc): World
    requires k < |w.d.slots|
  {
    World(w.d.(slots := w.d.slots[k := slot]), pc, w.embedded)
  }

  /** Replacing the progress file consumes its temporary. */
  function Replaced(w: World, done: seq<Coverage>, pc: Pc): World {
    Unlinked(w.(d := w.d.(progress := Some(done))), pc)
  }

  ghost function OpeningStep(c: CaptureConfig, w: World, step: nat): World
    requires |w.d.slots| == |c.queries|
  {
    if step == 0 || step == 3 then Created(w, Opening(step + 1))
    else if step == 1 || step == 4 then w.(pc := Opening(step + 1))
    else if step == 2 || step == 5 then Unlinked(w, Opening(step + 1))
    else if !Accepted(c, w.d) then w.(pc := Idle)
    else
      var done := Resumed(c, w.d);
      w.(pc := if w.d.progress.None? || |w.d.progress.value| < |done| then Updating(0, done) else Continue(c, done))
  }

  /** One query: temporary, score, link, unlink; then vector, coverage and progress in the same way. */
  ghost function CapturingStep(c: CaptureConfig, w: World, step: nat, done: seq<Coverage>, s: Shards, scored: Shards): World
    requires |w.d.slots| == |c.queries| && |done| < |c.queries|
  {
    var k := |done|;
    if step == 0 || step == 4 || step == 7 || step == 10 then Created(w, Capturing(step + 1, done, s))
    else if step == 1 then World(w.d, Capturing(2, done, scored), w.embedded + [k])
    else if step == 2 then WithSlot(w, k, w.d.slots[k].(scores := Some(s.scores)), Capturing(3, done, s))
    else if step == 5 then WithSlot(w, k, w.d.slots[k].(vector := Some(s.vector)), Capturing(6, done, s))
    else if step == 8 then WithSlot(w, k, w.d.slots[k].(coverage := Some(CoverageFor(c, k, s.scores, s.vector))), Capturing(9, done, s))
    else if step == 3 || step == 6 || step == 9 then Unlinked(w, Capturing(step + 1, done, s))
    else
      var more := done + [CoverageFor(c, k, s.scores, s.vector)];
      Replaced(w, more, Continue(c, more))
  }

  /** The effect of an event; `None` when it cannot happen there. */
  ghost function Step(c: CaptureConfig, w: World, e: Event): Option<World>
    requires |w.d.slots| == |c.queries|
  {
    match e
    case Start => if w.pc.Idle? || w.pc.Finished? then Some(w.(pc := Opening(0))) else None
    case Next(s) =>
      (match w.pc
       case Idle => None
       case Finished => None
       case Opening(step) => Some(OpeningStep(c, w, step))
       case Updating(step, done) =>
         Some(if step == 0 then Created(w, Updating(1, done)) else Replaced(w, done, Continue(c, done)))
       case Capturing(step, done, shards) =>
         if |done| >= |c.queries| || (step == 1 && !ShardsOk(c, s)) then None
         else Some(CapturingStep(c, w, step, done, shards, s)))
    case Fail => Some(if Holding(w.pc) then Unlinked(w, Idle) else w.(pc := Idle))
    case Die => Some(w.(pc := Idle))
  }

  // ---- the shape of the directory --------------------------------------------------------------------------------------

  /** `k` queries are complete, `stage` files of the next exist, nothing of the others, and the saved
      progress is a prefix of the complete queries. */
  ghost predicate Shape(c: CaptureConfig, d: Directory, k: nat, stage: nat, s: Shards) {
    && |d.slots| == |c.queries| && k <= |d.slots| && stage <= 3 && (stage > 0 ==> k < |d.slots| && ShardsOk(c, s))
    && (forall i :: 0 <= i < k ==> Trio(c, i, d.slots[i]))
    && (k < |d.slots| ==> d.slots[k] == StagedSlot(c, k, s, stage))
    && (forall i :: k < i < |d.slots| ==> d.slots[i] == EMPTY)
    && (d.progress.Some? ==> d.progress.value <= Coverages(d.slots, k))
  }

  ghost predicate SomeShape(c: CaptureConfig, d: Directory) {
    exists k: nat, stage: nat, s: Shards :: Shape(c, d, k, stage, s)
  }

  /** A directory of this shape is accepted exactly when no temporary is left and none or all of the
      three files of the interrupted query exist; with all three that query counts as complete. */
  lemma ShapeAccepted(c: CaptureConfig, d: Directory, k: nat, stage: nat, s: Shards)
    requires c.Valid() && Shape(c, d, k, stage, s)
    ensures Accepted(c, d) <==> d.temporaries == 0 && (stage == 0 || stage == 3)
    ensures d.temporaries == 0 && stage == 0 ==> Resumable(c, d, k)
    ensures d.temporaries == 0 && stage == 3 ==> Resumable(c, d, k + 1)
  {
    if stage == 0 {
      assert d.temporaries == 0 ==> Resumable(c, d, k);
    } else if stage == 3 {
      assert Trio(c, k, d.slots[k]);
      assert Coverages(d.slots, k) <= Coverages(d.slots, k + 1);
      assert d.temporaries == 0 ==> Resumable(c, d, k + 1);
    } else {
      NoPrefix(c, d.slots, k, k);
    }
  }

  // ---- the invariant -------------------------------------------------------------------------------------------------

  ghost predicate PcOk(c: CaptureConfig, w: World) {
    match w.pc
    case Idle => SomeShape(c, w.d)
    case Finished => SomeShape(c, w.d)
    case Opening(step) => step <= 6 && SomeShape(c, w.d) && Owned(w.pc) <= w.d.temporaries
    case Updating(step, done) =>
      && step <= 1 && Shape(c, w.d, |done|, 0, NO_SHARDS) && w.d.temporaries == Owned(w.pc)
      && done == Coverages(w.d.slots, |done|)
    case Capturing(step, done, s) =>
      && step <= 11 && |done| < |c.queries| && Shape(c, w.d, |done|, Stage(step), s) && w.d.temporaries == Owned(w.pc)
      && done == Coverages(w.d.slots, |done|) && (step >= 2 ==> ShardsOk(c, s))
  }

  ghost predicate Invariant(c: CaptureConfig, w: World) {
    c.Valid() && |w.d.slots| == |c.queries| && PcOk(c, w)
  }

  predicate Initial(c: CaptureConfig, w: World) {
    && w.pc.Idle? && w.d.progress.None? && w.d.temporaries == 0 && w.embedded == []
    && |w.d.slots| == |c.queries| && forall i :: 0 <= i < |w.d.slots| ==> w.d.slots[i] == EMPTY
  }

  lemma InitialInvariant(c: CaptureConfig, w: World)
    requires c.Valid() && Initial(c, w)
    ensures Invariant(c, w)
  {
    assert Shape(c, w.d, 0, 0, NO_SHARDS);
  }

  /** A shape does not depend on the number of temporaries. */
  lemma ShapeKept(c: CaptureConfig, d: Directory, d': Directory)
    requires SomeShape(c, d) && d'.slots == d.slots && d'.progress == d.progress
    ensures SomeShape(c, d')
  {
    var k: nat, stage: nat, s: Shards :| Shape(c, d, k, stage, s);
    assert Shape(c, d', k, stage, s);
  }

  /** With all files of query `k` published, the directory has the shape of `k + 1` complete queries. */
  lemma ShapeNext(c: CaptureConfig, d: Directory, k: nat, s: Shards)
    requires c.Valid() && Shape(c, d, k, 3, s)
    ensures Shape(c, d, k + 1, 0, NO_SHARDS)
    ensures Coverages(d.slots, k + 1) == Coverages(d.slots, k) + [CoverageFor(c, k, s.scores, s.vector)]
  {
    assert Trio(c, k, d.slots[k]);
  }

  lemma {:induction false} ValidateOk(c: CaptureConfig, w: World)
    requires Invariant(c, w) && w.pc == Opening(6)
    ensures Invariant(c, OpeningStep(c, w, 6))
  {
    if Accepted(c, w.d) {
      assert Shape(c, w.d, |Resumed(c, w.d)|, 0, NO_SHARDS);
    }
  }

  lemma {:induction false} OpeningOk(c: CaptureConfig, w: World, step: nat)
    requires Invariant(c, w) && w.pc == Opening(step)
    ensures Invariant(c, OpeningStep(c, w, step))
  {
    if step == 6 {
      ValidateOk(c, w);
    } else {
      ShapeKept(c, w.d, OpeningStep(c, w, step).d);
    }
  }

  lemma {:induction false} UpdatingOk(c: CaptureConfig, w: World, step: nat, done: seq<Coverage>)
    requires Invariant(c, w) && w.pc == Updating(step, done)
    ensures Invariant(c, if step == 0 then Created(w, Updating(1, done)) else Replaced(w, done, Continue(c, done)))
  {
    if step == 1 {
      assert Shape(c, Replaced(w, done, Continue(c, done)).d, |done|, 0, NO_SHARDS);
    }
  }

  lemma {:induction false} LinkOk(c: CaptureConfig, d: Directory, k: nat, stage: nat, s: Shards, slot: Slot)
    requires Shape(c, d, k, stage, s) && k < |d.slots| && stage < 3 && ShardsOk(c, s) && slot == StagedSlot(c, k, s, stage + 1)
    ensures Shape(c, d.(slots := d.slots[k := slot]), k, stage + 1, s)
    ensures Coverages(d.slots[k := slot], k) == Coverages(d.slots, k)
  {
  }

  lemma {:induction false} StageZero(c: CaptureConfig, d: Directory, k: nat, s: Shards, s': Shards)
    requires Shape(c, d, k, 0, s)
    ensures Shape(c, d, k, 0, s')
  {
  }

  lemma LinkSteps(c: CaptureConfig, w: World, step: nat, done: seq<Coverage>, s: Shards, scored: Shards)
    requires Invariant(c, w) && w.pc == Capturing(step, done, s) && (step == 2 || step == 5 || step == 8)
    ensures Invariant(c, CapturingStep(c, w, step, done, s, scored))
  {
    var k := |done|;
    var slot := if step == 2 then w.d.slots[k].(scores := Some(s.scores))
                else if step == 5 then w.d.slots[k].(vector := Some(s.vector))
                else w.d.slots[k].(coverage := Some(CoverageFor(c, k, s.scores, s.vector)));
    LinkOk(c, w.d, k, Stage(step), s, slot);
  }

  lemma LastStep(c: CaptureConfig, w: World, done: seq<Coverage>, s: Shards, scored: Shards)
    requires Invariant(c, w) && w.pc == Capturing(11, done, s)
    ensures Invariant(c, CapturingStep(c, w, 11, done, s, scored))
  {
    ShapeNext(c, w.d, |done|, s);
    var more := done + [CoverageFor(c, |done|, s.scores, s.vector)];
    assert Shape(c, Replaced(w, more, Continue(c, more)).d, |more|, 0, NO_SHARDS);
  }

  lemma {:induction false} TemporarySteps(c: CaptureConfig, w: World, step: nat, done: seq<Coverage>, s: Shards, scored: Shards)
    requires Invariant(c, w) && w.pc == Capturing(step, done, s)
    requires step == 0 || step == 3 || step == 4 || step == 6 || step == 7 || step == 9 || step == 10
    ensures Invariant(c, CapturingStep(c, w, step, done, s, scored))
  {
    assert Shape(c, CapturingStep(c, w, step, done, s, scored).d, |done|, Stage(step), s);
  }

  lemma {:induction false} CapturingOk(c: CaptureConfig, w: World, step: nat, done: seq<Coverage>, s: Shards, scored: Shards)
    requires Invariant(c, w) && w.pc == Capturing(step, done, s) && (step == 1 ==> ShardsOk(c, scored))
    ensures Invariant(c, CapturingStep(c, w, step, done, s, scored))
  {
    if step == 2 || step == 5 || step == 8 {
      LinkSteps(c, w, step, done, s, scored);
    } else if step == 11 {
      LastStep(c, w, done, s, scored);
    } else if step == 1 {
      StageZero(c, w.d, |done|, s, scored);
    } else {
      TemporarySteps(c, w, step, done, s, scored);
    }
  }

  lemma PcShape(c: CaptureConfig, w: World)
    requires Invariant(c, w)
    ensures SomeShape(c, w.d)
  {
  }

  /** Every file operation, failure and death keeps the invariant. */
  lemma StepInvariant(c: CaptureConfig, w: World, e: Event)
    requires Invariant(c, w) && Step(c, w, e).Some?
    ensures Invariant(c, Step(c, w, e).value)
  {
    PcShape(c, w);
    if e.Next? {
      match w.pc
      case Opening(step) => OpeningOk(c, w, step);
      case Updating(step, done) => UpdatingOk(c, w, step, done);
      case Capturing(step, done, s) => CapturingOk(c, w, step, done, s, e.s);
    } else {
      ShapeKept(c, w.d, Step(c, w, e).value.d);
    }
  }

  ghost function Run(c: CaptureConfig, w: World, es: seq<Event>): Option<World>
    requires |w.d.slots| == |c.queries|
    ensures Run(c, w, es).Some? ==> |Run(c, w, es).value.d.slots| == |c.queries|
  {
    if es == [] then Some(w)
    else
      var before := Run(c, w, es[..|es| - 1]);
      if before.None? then None else Step(c, before.value, es[|es| - 1])
  }

  lemma {:induction false} RunInvariant(c: CaptureConfig, w: World, es: seq<Event>)
    requires Invariant(c, w) && Run(c, w, es).Some?
    ensures Invariant(c, Run(c, w, es).value)
  {
    if es != [] {
      RunInvariant(c, w, es[..|es| - 1]);
      StepInvariant(c, Run(c, w, es[..|es| - 1]).value, es[|es| - 1]);
    }
  }

  // ---- what a death leaves behind -----------------------------------------------------------------------------------------

  /** A capture killed in a query is resumed exactly when it owned no temporary and none or all of the
      query's three files existed: before the score temporary is created, or after the coverage
      temporary is unlinked and before that of the progress is created. In the second case the query
      counts as complete. */
  lemma InterruptedCapture(c: CaptureConfig, w: World)
    requires Invariant(c, w) && w.pc.Capturing?
    ensures Step(c, w, Die).Some?
    ensures var d := Step(c, w, Die).value.d;
      && (Accepted(c, d) <==> !Holding(w.pc) && (Stage(w.pc.step) == 0 || Stage(w.pc.step) == 3))
      && (Accepted(c, d) <==> w.pc.step == 0 || w.pc.step == 10)
      && (w.pc.step == 0 ==> Resumable(c, d, |w.pc.done|))
      && (w.pc.step == 10 ==> Resumable(c, d, |w.pc.done| + 1))
  {
    ShapeAccepted(c, w.d, |w.pc.done|, Stage(w.pc.step), w.pc.s);
  }

  /** A death that leaves the temporary of the inventory, the identity or the progress is never resumed;
      one before the temporary of the progress always is. */
  lemma InterruptedOpening(c: CaptureConfig, w: World)
    requires Invariant(c, w) && (w.pc.Opening? || w.pc.Updating?)
    ensures Step(c, w, Die).Some?
    ensures var d := Step(c, w, Die).value.d;
      && (Accepted(c, d) ==> !Holding(w.pc))
      && (w.pc.Updating? ==> (Accepted(c, d) <==> w.pc.step == 0))
  {
    if w.pc.Updating? {
      ShapeAccepted(c, w.d, |w.pc.done|, 0, NO_SHARDS);
    }
  }

  // ---- killed while scoring: a concrete run ----------------------------------------------------------------------------------

  const ONE_QUERY := CaptureConfig(["query"], 1, 1)

  function Fresh(d: Directory, pc: Pc): World { World(d, pc, []) }

  function Blank(progress: Option<seq<Coverage>>, temporaries: nat): Directory {
    Directory([EMPTY], progress, temporaries)
  }

  lemma {:induction false} RunSnoc(c: CaptureConfig, w: World, es: seq<Event>, e: Event, now: World)
    requires |w.d.slots| == |c.queries| && Run(c, w, es) == Some(now) && |now.d.slots| == |c.queries|
    ensures Run(c, w, es + [e]) == Step(c, now, e)
  {
    assert (es + [e])[..|es|] == es;
  }

  ghost function Nexts(n: nat): seq<Event> {
    if n == 0 then [Start] else Nexts(n - 1) + [Next(NO_SHARDS)]
  }

  /** Where the process stands after its first operations on an empty directory. */
  function After(n: nat): World
    requires n <= 10
  {
    if n <= 6 then Fresh(Blank(None, if n == 1 || n == 2 || n == 4 || n == 5 then 1 else 0), Opening(n))
    else if n == 7 then Fresh(Blank(None, 0), Updating(0, []))
    else if n == 8 then Fresh(Blank(None, 1), Updating(1, []))
    else if n == 9 then Fresh(Blank(Some([]), 0), Capturing(0, [], NO_SHARDS))
    else Fresh(Blank(Some([]), 1), Capturing(1, [], NO_SHARDS))
  }

  lemma BlankAccepted()
    ensures ONE_QUERY.Valid() && Accepted(ONE_QUERY, Blank(None, 0)) && Resumed(ONE_QUERY, Blank(None, 0)) == []
  {
    var d := Blank(None, 0);
    assert Shape(ONE_QUERY, d, 0, 0, NO_SHARDS);
    ShapeAccepted(ONE_QUERY, d, 0, 0, NO_SHARDS);
    OnlyPrefix(ONE_QUERY, d.slots, 0);
  }

  lemma {:induction false} OpeningAfter(n: nat)
    requires n < 6
    ensures Step(ONE_QUERY, After(n), Next(NO_SHARDS)) == Some(After(n + 1))
  {
  }

  lemma ValidateAfter()
    ensures Step(ONE_QUERY, After(6), Next(NO_SHARDS)) == Some(After(7))
  {
    BlankAccepted();
  }

  lemma {:induction false} CapturingAfter(n: nat)
    requires 7 <= n < 10
    ensures Step(ONE_QUERY, After(n), Next(NO_SHARDS)) == Some(After(n + 1))
  {
  }

  lemma {:induction false} NextAfter(n: nat)
    requires n < 10
    ensures Step(ONE_QUERY, After(n), Next(NO_SHARDS)) == Some(After(n + 1))
  {
    if n < 6 {
      OpeningAfter(n);
    } else if n == 6 {
      ValidateAfter();
    } else {
      CapturingAfter(n);
    }
  }

  lemma {:induction false} FirstOperations(n: nat)
    requires n <= 10
    ensures Run(ONE_QUERY, Fresh(Blank(None, 0), Idle), Nexts(n)) == Some(After(n))
  {
    var w := Fresh(Blank(None, 0), Idle);
    if n == 0 {
      RunSnoc(ONE_QUERY, w, [], Start, w);
      assert [] + [Start] == [Start];
    } else {
      FirstOperations(n - 1);
      NextAfter(n - 1);
      RunSnoc(ONE_QUERY, w, Nexts(n - 1), Next(NO_SHARDS), After(n - 1));
    }
  }

  /** Started on an empty directory and killed while its only query is scored, the capture leaves none
      of the three files, and yet no restart is accepted. */
  lemma KilledWhileScoring()
    ensures var end := Run(ONE_QUERY, Fresh(Blank(None, 0), Idle), Nexts(10) + [Die]);
      && end.Some? && end.value.d.slots == [EMPTY] && end.value.pc == Idle
      && !Accepted(ONE_QUERY, end.value.d)
  {
    FirstOperations(10);
    RunSnoc(ONE_QUERY, Fresh(Blank(None, 0), Idle), Nexts(10), Die, After(10));
    assert Shape(ONE_QUERY, After(10).d, 0, 0, NO_SHARDS);
    ShapeAccepted(ONE_QUERY, After(10).d, 0, 0, NO_SHARDS);
  }

  // ---- over every history ------------------------------------------------------------------------------------------------

  /** A query whose files exist in part. */
  ghost predicate Partial(c: CaptureConfig, d: Directory)
    requires |d.slots| == |c.queries|
  {
    exists i :: 0 <= i < |d.slots| && d.slots[i] != EMPTY && !Trio(c, i, d.slots[i])
  }

  lemma ShapePartial(c: CaptureConfig, d: Directory, k: nat, stage: nat, s: Shards)
    requires c.Valid() && Shape(c, d, k, stage, s)
    ensures Partial(c, d) <==> stage == 1 || stage == 2
  {
    if stage == 1 || stage == 2 {
      assert d.slots[k] != EMPTY && !Trio(c, k, d.slots[k]);
    } else if stage == 3 {
      assert Trio(c, k, d.slots[k]);
    }
  }

  /** Over every history of starts, failures and deaths: the directory is resumed exactly when no
      temporary is left and no query's files exist in part. */
  lemma ResumedIff(c: CaptureConfig, w: World, es: seq<Event>)
    requires c.Valid() && Initial(c, w) && Run(c, w, es).Some?
    ensures var d := Run(c, w, es).value.d;
      Accepted(c, d) <==> d.temporaries == 0 && !Partial(c, d)
  {
    InitialInvariant(c, w);
    RunInvariant(c, w, es);
    var w' := Run(c, w, es).value;
    PcShape(c, w');
    var k: nat, stage: nat, s: Shards :| Shape(c, w'.d, k, stage, s);
    ShapeAccepted(c, w'.d, k, stage, s);
    ShapePartial(c, w'.d, k, stage, s);
  }

  /** Left behind by an earlier process: a temporary, or the files of a query in part. */
  ghost predicate Spoiled(c: CaptureConfig, w: World)
    requires |w.d.slots| == |c.queries|
  {
    (w.pc.Idle? || w.pc.Opening?) && (w.d.temporaries > Owned(w.pc) || Partial(c, w.d))
  }

  /** No start heals such a directory: it is refused again and again, and nothing in it changes. */
  lemma SpoiledStep(c: CaptureConfig, w: World, e: Event)
    requires Invariant(c, w) && Spoiled(c, w) && Step(c, w, e).Some?
    ensures var w' := Step(c, w, e).value;
      Spoiled(c, w') && w'.d.slots == w.d.slots && w'.d.progress == w.d.progress && w'.embedded == w.embedded
  {
    PcShape(c, w);
    var k: nat, stage: nat, s: Shards :| Shape(c, w.d, k, stage, s);
    ShapeAccepted(c, w.d, k, stage, s);
    ShapePartial(c, w.d, k, stage, s);
  }

  lemma {:induction false} SpoiledForever(c: CaptureConfig, w: World, es: seq<Event>)
    requires Invariant(c, w) && Spoiled(c, w) && Run(c, w, es).Some?
    ensures var w' := Run(c, w, es).value;
      && Invariant(c, w') && Spoiled(c, w')
      && w'.d.slots == w.d.slots && w'.d.progress == w.d.progress && w'.embedded == w.embedded
  {
    if es != [] {
      var before := es[..|es| - 1];
      SpoiledForever(c, w, before);
      StepInvariant(c, Run(c, w, before).value, es[|es| - 1]);
      SpoiledStep(c, Run(c, w, before).value, es[|es| - 1]);
    }
  }

  /** A complete query keeps its files, and only a query without any file is ever embedded. */
  lemma NeverEmbedsAgain(c: CaptureConfig, w: World, e: Event)
    requires Invariant(c, w) && Step(c, w, e).Some?
    ensures var w' := Step(c, w, e).value;
      && (forall i :: 0 <= i < |w.d.slots| && Trio(c, i, w.d.slots[i]) ==> w'.d.slots[i] == w.d.slots[i])
      && (w'.embedded == w.embedded
          || (exists k :: 0 <= k < |w.d.slots| && w.d.slots[k] == EMPTY && w'.embedded == w.embedded + [k]))
  {
    if e.Next? && w.pc.Capturing? {
      var k := |w.pc.done|;
      assert w.d.slots[k] == StagedSlot(c, k, w.pc.s, Stage(w.pc.step));
    }
  }
}
