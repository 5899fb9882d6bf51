/** The durable ledger of one job: its writers, and what its validator and the receipt
    verifier accept. */
module Ledger {
  import opened Text
  import opened Evidence
  import opened Reduction
  import opened Selection

  /** Everything a job id fixes: sealed profile, corpus snapshot and query. */
  datatype Config = Config(profile: Profile, snapshot: Snapshot, query: string, maker: string, responder: string)
  {
    function Available(): int { Evidence.Available(profile) }
    function Units(): seq<MapUnit> { snapshot.units }

    /** What the profile model, the query check and the corpus builder guarantee. */
    predicate Valid() {
      && profile.Valid()
      && |query| <= MAX_QUERY_CHARACTERS
      && 1 <= |Units()| <= MAX_MAP_UNITS
      && Distinct(Units())
      && forall u :: u in Units() ==> 0 < MapPromptCharacters(query, u) <= profile.maxInput
    }
  }

  datatype PendingCall = PendingCall(
    sequence: nat, key: CallKey, request: Request, inputCharacters: nat, maxCompletion: nat)

  datatype Status = Progress | Complete | Cancelled

  datatype JobLedger = JobLedger(
    status: Status, units: seq<MapUnit>, maps: seq<MapResult>, reductions: seq<BatchResult>,
    receipts: seq<Receipt>, calls: nat, inputCharacters: nat,
    promptTokens: nat, completionTokens: nat, totalTokens: nat, outputTokens: nat,
    pending: Option<PendingCall>, result: Option<FinalResult>)

  // ---- results derived from receipts ---------------------------------------------------------

  function MapResultOf(c: Config, unit: MapUnit, r: Receipt): MapResult {
    var (spans, rejected) := ValidatedSpans(r.decision, unit, c.snapshot.pages, c.Available());
    MapResult(unit, unit.contract, r.decision.relevant, spans, rejected, r.content, r)
  }

  function BatchResultOf(p: State, r: Receipt): BatchResult
    requires p.Pending?
  {
    var (spans, rejected) := SelectedSpans(r.decision, p.spans, MaximumOutputs(p.spans, p.final));
    BatchResult(p.round, p.batch, p.spans, r.decision.relevant, spans, rejected, r.content, r)
  }

  function StateOf(c: Config, maps: seq<MapResult>, done: seq<BatchResult>): State {
    ReductionState(|c.Units()|, maps, done, c.Available())
  }

  // ---- the next call --------------------------------------------------------------------------

  function MapPending(c: Config, i: nat): PendingCall
    requires i < |c.Units()|
  {
    var u := c.Units()[i];
    PendingCall(i, MapCall(u), MapRequest(u), MapPromptCharacters(c.query, u), c.profile.maxCompletion)
  }

  function ReducePending(c: Config, sequence: nat, p: State): PendingCall
    requires p.Pending?
  {
    var limit := MaximumOutputs(p.spans, p.final);
    PendingCall(sequence, ReduceCall(p.round, p.batch), ReduceRequest(p.spans, limit),
                ReducePromptCharacters(c.query, p.spans, limit), c.profile.maxCompletion)
  }

  datatype Next = Call(call: PendingCall) | Finish(result: FinalResult) | Fault

  /** `_next_call`: the request to reserve next, or that the reduction is terminal. `Fault` is a
      raised error: a broken reduction state or a prompt above the sealed input limit. */
  function NextCall(c: Config, maps: seq<MapResult>, done: seq<BatchResult>): Next {
    if |maps| < |c.Units()| then CallOf(c, MapPending(c, |maps|))
    else NextReduce(c, |maps| + |done|, StateOf(c, maps, done))
  }

  function NextReduce(c: Config, sequence: nat, state: State): Next {
    match state
    case Broken(_) => Fault
    case Terminal(result) => Finish(result)
    case Pending(_, _, _, _) => CallOf(c, ReducePending(c, sequence, state))
  }

  function CallOf(c: Config, call: PendingCall): Next {
    if call.inputCharacters > c.profile.maxInput then Fault else Call(call)
  }

  // ---- writers ----------------------------------------------------------------------------------

  function Begin(c: Config): JobLedger {
    JobLedger(Progress, c.Units(), [], [], [], 0, 0, 0, 0, 0, 0, None, None)
  }

  /** The three budget guards of `reserve_call`. */
  predicate WithinBudget(c: Config, l: JobLedger, p: PendingCall) {
    && l.calls + 1 <= c.profile.maxCalls
    && l.inputCharacters + p.inputCharacters <= c.profile.maxJobInput
    && l.outputTokens + p.maxCompletion <= c.profile.maxJobOutput
  }

  function Reserved(l: JobLedger, p: PendingCall): JobLedger {
    l.(calls := l.calls + 1, inputCharacters := l.inputCharacters + p.inputCharacters,
       outputTokens := l.outputTokens + p.maxCompletion, pending := Some(p))
  }

  function Charged(l: JobLedger, r: Receipt): JobLedger {
    l.(receipts := l.receipts + [r],
       promptTokens := l.promptTokens + r.usage.prompt,
       completionTokens := l.completionTokens + r.usage.completion,
       totalTokens := l.totalTokens + r.usage.total,
       pending := None)
  }

  /** `_receipt_matches_pending`. */
  predicate MatchesPending(c: Config, r: Receipt, p: PendingCall) {
    && r.maker == c.maker && r.sequence == p.sequence && r.key == p.key
    && r.request == p.request && r.inputCharacters == p.inputCharacters
    && r.maxCompletion == p.maxCompletion
    && r.responder == c.responder
    && r.usage.output <= p.maxCompletion
  }

  /** What parsing a receipt file guarantees. */
  predicate ReceiptOk(r: Receipt) {
    r.decision.Valid() && r.usage.prompt + r.usage.completion <= r.usage.total && r.usage.completion <= r.usage.output
  }

  /** `_commit_receipt` and the two checkpoint writers, up to the final validation. `None` is a
      raised error: no reservation, a foreign receipt, a result out of order, or a reduction state
      that the new checkpoint would break. */
  function Commit(c: Config, l: JobLedger, r: Receipt): Option<JobLedger> {
    if l.pending.None? || !MatchesPending(c, r, l.pending.value) then None
    else if l.pending.value.key.MapCall? then
      if |l.maps| >= |l.units| || |l.maps| >= |c.Units()| then None
      else
        var result := MapResultOf(c, c.Units()[|l.maps|], r);
        if result.unit != l.units[|l.maps|] then None
        else Some(Charged(l, r).(maps := l.maps + [result]))
    else
      var p := StateOf(c, l.maps, l.reductions);
      if !p.Pending? then None
      else
        var done := l.reductions + [BatchResultOf(p, r)];
        if StateOf(c, l.maps, done).Broken? then None
        else Some(Charged(l, r).(reductions := done))
  }

  /** `complete` for the terminal result that the checkpoints imply. */
  function Completed(l: JobLedger, result: FinalResult): JobLedger {
    l.(status := Complete, result := Some(result))
  }

  function CancelledLedger(l: JobLedger): JobLedger {
    l.(status := Cancelled)
  }

  // ---- what a ledger must satisfy -----------------------------------------------------------------

  function InputSum(rs: seq<Receipt>): nat {
    if rs == [] then 0 else InputSum(rs[..|rs| - 1]) + rs[|rs| - 1].inputCharacters
  }
  function PromptSum(rs: seq<Receipt>): nat {
    if rs == [] then 0 else PromptSum(rs[..|rs| - 1]) + rs[|rs| - 1].usage.prompt
  }
  function CompletionSum(rs: seq<Receipt>): nat {
    if rs == [] then 0 else CompletionSum(rs[..|rs| - 1]) + rs[|rs| - 1].usage.completion
  }
  function TotalSum(rs: seq<Receipt>): nat {
    if rs == [] then 0 else TotalSum(rs[..|rs| - 1]) + rs[|rs| - 1].usage.total
  }
  function PendingInput(l: JobLedger): nat {
    if l.pending.None? then 0 else l.pending.value.inputCharacters
  }
  function PendingCount(l: JobLedger): nat {
    if l.pending.None? then 0 else 1
  }

  predicate Before(a: BatchResult, b: BatchResult) {
    a.round < b.round || (a.round == b.round && a.batch < b.batch)
  }

  predicate HasRound(done: seq<BatchResult>, round: nat) {
    exists i :: 0 <= i < |done| && done[i].round == round
  }

  predicate HasCoordinate(done: seq<BatchResult>, round: nat, batch: nat) {
    exists i :: 0 <= i < |done| && done[i].round == round && done[i].batch == batch
  }

  /** Coordinates strictly increase, rounds are contiguous from 0, batches contiguous per round. */
  predicate OrderedCoordinates(done: seq<BatchResult>) {
    && (forall i, j :: 0 <= i < j < |done| ==> Before(done[i], done[j]))
    && (forall i, round: nat :: 0 <= i < |done| && round <= done[i].round ==> HasRound(done, round))
    && (forall i, batch: nat :: 0 <= i < |done| && batch <= done[i].batch ==> HasCoordinate(done, done[i].round, batch))
  }

  predicate MapResultOk(m: MapResult) {
    && |m.spans| <= MAX_PROVIDER_SPANS && m.rejected <= MAX_PROVIDER_SPANS && Distinct(m.spans)
    && forall s :: s in m.spans ==> s.contract == m.contract
  }

  predicate BatchResultOk(b: BatchResult) {
    && b.round < MAX_REDUCE_ROUNDS && b.batch < MAX_REDUCE_BATCHES && b.input != []
    && |b.spans| <= MAX_PROVIDER_SPANS && b.rejected <= MAX_PROVIDER_SPANS && Distinct(b.spans)
  }

  predicate PendingOk(c: Config, l: JobLedger, p: PendingCall) {
    && p.sequence == |l.receipts| && p.maxCompletion == c.profile.maxCompletion
    && p.sequence < MAX_JOB_PROVIDER_CALLS && 0 < p.inputCharacters <= 2_000_000
    && (p.key.ReduceCall? ==> p.key.round < MAX_REDUCE_ROUNDS && p.key.batch < MAX_REDUCE_BATCHES)
  }

  /** Completed maps are an ordered prefix of the units, within their own contracts. */
  predicate MapsOk(l: JobLedger) {
    && |l.maps| <= |l.units|
    && forall i :: 0 <= i < |l.maps| ==>
      l.maps[i].unit == l.units[i] && l.maps[i].contract == l.units[i].contract && MapResultOk(l.maps[i])
  }

  predicate ReductionsOk(l: JobLedger) {
    && (l.reductions != [] ==> |l.maps| == |l.units|)
    && |l.reductions| <= MAX_REDUCE_BATCHES
    && OrderedCoordinates(l.reductions)
    && forall j :: 0 <= j < |l.reductions| ==>
      BatchResultOk(l.reductions[j]) && Subset(l.reductions[j].spans, MappedSpans(l.maps))
  }

  predicate ChainOk(l: JobLedger) {
    && |l.receipts| == |l.maps| + |l.reductions|
    && (forall i :: 0 <= i < |l.maps| ==> l.maps[i].receipt == l.receipts[i])
    && (forall j :: 0 <= j < |l.reductions| ==> l.reductions[j].receipt == l.receipts[|l.maps| + j])
  }

  predicate CountersOk(c: Config, l: JobLedger) {
    && l.calls == |l.receipts| + PendingCount(l)
    && l.calls <= c.profile.maxCalls
    && PendingInput(l) <= l.inputCharacters <= c.profile.maxJobInput
    && l.outputTokens == l.calls * c.profile.maxCompletion
    && l.outputTokens <= c.profile.maxJobOutput
    && (l.pending.Some? ==> PendingOk(c, l, l.pending.value))
  }

  predicate StatusOk(l: JobLedger) {
    match l.status
    case Progress => l.result.None?
    case Cancelled => l.result.None?
    case Complete =>
      && |l.maps| == |l.units| && l.result.Some? && l.pending.None?
      && Subset(l.result.value.Spans(), MappedSpans(l.maps))
  }

  /** `ledger_is_an_ordered_complete_prefix` together with the field limits of the model. */
  predicate ValidLedger(c: Config, l: JobLedger) {
    MapsOk(l) && ReductionsOk(l) && ChainOk(l) && CountersOk(c, l) && StatusOk(l)
  }

  // ---- what a reload checks ------------------------------------------------------------------------

  type Files = map<nat, Receipt>

  /** The checks common to every completed receipt. */
  predicate ReceiptContract(c: Config, r: Receipt, sequence: nat, response: string, relevant: bool) {
    && r.sequence == sequence && r.maker == c.maker && r.responder == c.responder
    && r.maxCompletion == c.profile.maxCompletion && r.usage.output <= r.maxCompletion
    && response == r.content && relevant == r.decision.relevant
  }

  /** `_verify_map_result_decision_binding`. */
  predicate MapBinding(c: Config, m: MapResult, r: Receipt) {
    && m.rejected == |r.decision.spans| - |m.spans|
    && forall s :: s in m.spans ==>
      && (exists p :: p in r.decision.spans && SpanOf(p) == s)
      && s.contract == m.contract && !Blank(s.text) && SpanFits(s, c.Available())
  }

  predicate MapEntry(c: Config, m: MapResult, r: Receipt, sequence: nat) {
    && m.receipt == r && ReceiptContract(c, r, sequence, m.response, m.providerRelevant)
    && r.key == MapCall(m.unit) && MapBinding(c, m, r)
  }

  predicate BatchEntry(c: Config, b: BatchResult, r: Receipt, sequence: nat) {
    && b.receipt == r && ReceiptContract(c, r, sequence, b.response, b.providerRelevant)
    && r.key == ReduceCall(b.round, b.batch)
  }

  /** A completed batch is what its receipt yields at the state its predecessors imply. */
  predicate BatchReplay(p: State, b: BatchResult, r: Receipt) {
    p.Pending? && b == BatchResultOf(p, r)
  }

  /** The receipt files are the committed receipts and at most the answer to the reservation. */
  predicate VerifyFiles(c: Config, l: JobLedger, files: Files) {
    && (forall k :: 0 <= k < |l.receipts| ==> k in files && files[k] == l.receipts[k])
    && (l.pending.Some? && l.pending.value.sequence in files ==>
      MatchesPending(c, files[l.pending.value.sequence], l.pending.value))
    && (forall k :: k in files ==> k < |l.receipts| || (l.pending.Some? && k == l.pending.value.sequence))
  }

  predicate VerifyUsage(l: JobLedger) {
    && l.inputCharacters == InputSum(l.receipts) + PendingInput(l)
    && l.promptTokens == PromptSum(l.receipts)
    && l.completionTokens == CompletionSum(l.receipts)
    && l.totalTokens == TotalSum(l.receipts)
  }

  /** `_verify_receipts_basic`, which needs no corpus snapshot. */
  predicate VerifyBasic(c: Config, l: JobLedger, files: Files) {
    && |l.receipts| == |l.maps| + |l.reductions|
    && VerifyFiles(c, l, files)
    && (forall i :: 0 <= i < |l.maps| ==> MapEntry(c, l.maps[i], l.receipts[i], i))
    && (forall j, k :: 0 <= j < |l.reductions| && k == |l.maps| + j ==>
      BatchEntry(c, l.reductions[j], l.receipts[k], k))
    && VerifyUsage(l)
    && (forall j, k :: 0 <= j < |l.reductions| && k == |l.maps| + j ==>
      BatchReplay(StateOf(c, l.maps, l.reductions[..j]), l.reductions[j], l.receipts[k]))
    && (l.status == Complete ==>
      l.result.Some? && StateOf(c, l.maps, l.reductions) == Terminal(l.result.value))
  }

  /** The request and result of completed map `i`, recomputed from the snapshot. */
  predicate MapRecomputed(c: Config, m: MapResult, r: Receipt, i: nat) {
    && i < |c.Units()|
    && r.request == MapPending(c, i).request && r.inputCharacters == MapPending(c, i).inputCharacters
    && m == MapResultOf(c, c.Units()[i], r)
  }

  predicate BatchRecomputed(c: Config, p: State, r: Receipt) {
    && p.Pending?
    && r.request == ReducePending(c, 0, p).request
    && r.inputCharacters == ReducePending(c, 0, p).inputCharacters
  }

  predicate PendingRequest(c: Config, p: PendingCall, next: Next) {
    next.Call? && p.key == next.call.key && p.request == next.call.request
    && p.inputCharacters == next.call.inputCharacters
  }

  /** `_verify` of a non-terminal ledger against the snapshot. */
  predicate Verify(c: Config, l: JobLedger, files: Files) {
    && l.units == c.Units()
    && VerifyBasic(c, l, files)
    && (forall i :: 0 <= i < |l.maps| ==> MapRecomputed(c, l.maps[i], l.receipts[i], i))
    && (forall j, k :: 0 <= j < |l.reductions| && k == |l.maps| + j ==>
      BatchRecomputed(c, StateOf(c, l.maps, l.reductions[..j]), l.receipts[k]))
    && (l.pending.Some? ==> PendingRequest(c, l.pending.value, NextCall(c, l.maps, l.reductions)))
    && (|l.maps| == |l.units| ==> !StateOf(c, l.maps, l.reductions).Broken?)
  }
}
