/** The exhaustive audit: contracts are scored eight at a time, each checkpoint is durable, and any
    number of processes may poll, fail or die without a lock. */
module Audit {
  import opened Evidence
  import opened Aggregation
  import opened Scoring

  const CONTRACTS_PER_CALL := 8

  type Vector = seq<real>

  /** What identifies the job: the active rows, the expected contracts in order, and the policy.
      `dot` gives the row scores for a query vector. */
  datatype AuditConfig = AuditConfig(
    rows: seq<VectorRow>, contracts: seq<string>, policy: Policy, dot: Vector -> Dot)

  /** A digest of the query vector is modelled by the vector. */
  datatype Ledger = Ledger(vector: Vector, done: seq<ContractScore>, scoredRows: nat)

  function RowTotal(c: AuditConfig, n: nat): nat
    requires n <= |c.contracts|
  {
    if n == 0 then 0 else RowTotal(c, n - 1) + |RowsOf(c.rows, c.contracts[n - 1])|
  }

  /** The score that one pass over all active rows gives to expected contract `i`. */
  function Score(c: AuditConfig, v: Vector, i: nat): Option<ContractScore>
    requires i < |c.contracts|
  {
    OnePass(c.rows, c.dot(v), c.contracts[i], c.policy)
  }

  /** An ordered prefix of the expected contracts with their one-pass scores for this vector. */
  ghost predicate PrefixOf(c: AuditConfig, v: Vector, l: Ledger) {
    && l.vector == v && |l.done| <= |c.contracts| && l.scoredRows == RowTotal(c, |l.done|)
    && forall i :: 0 <= i < |l.done| ==> Score(c, v, i) == Some(l.done[i])
  }

  function Extended(c: AuditConfig, l: Ledger, r: ContractScore): Ledger
    requires |l.done| < |c.contracts|
  {
    Ledger(l.vector, l.done + [r], l.scoredRows + |RowsOf(c.rows, c.contracts[|l.done|])|)
  }

  lemma ExtendedPrefix(c: AuditConfig, v: Vector, l: Ledger, r: ContractScore)
    requires PrefixOf(c, v, l) && |l.done| < |c.contracts| && Score(c, v, |l.done|) == Some(r)
    ensures PrefixOf(c, v, Extended(c, l, r))
  {
    var e := Extended(c, l, r);
    forall i | 0 <= i < |e.done| ensures Score(c, v, i) == Some(e.done[i]) {
      if i < |l.done| {
        assert e.done[i] == l.done[i];
      }
    }
  }

  // ---- the store and one undisturbed poll ------------------------------------------------------------------------------

  class AuditStore {
    var vector: Option<Vector>
    var progress: Option<Ledger>
    var complete: Option<Ledger>

    ghost predicate Valid(c: AuditConfig)
      reads this
    {
      && (vector.None? ==> progress.None? && complete.None?)
      && (progress.Some? ==> PrefixOf(c, vector.value, progress.value))
      && (complete.Some? ==> PrefixOf(c, vector.value, complete.value) && |complete.value.done| == |c.contracts|)
    }

    constructor (ghost c: AuditConfig)
      ensures Valid(c) && vector.None? && progress.None? && complete.None?
    {
      vector, progress, complete := None, None, None;
    }

    /** How far the job has come. */
    ghost function Done(c: AuditConfig): nat
      reads this
    {
      if complete.Some? then |c.contracts| else if progress.Some? then |progress.value.done| else 0
    }

    /** `begin`, after an interrupted one too: a published vector is kept. */
    method Begin(ghost c: AuditConfig, embedded: Vector) returns (l: Ledger)
      requires Valid(c) && progress.None? && complete.None?
      modifies this
      ensures Valid(c) && complete.None? && progress == Some(l) && l.done == [] && vector == Some(l.vector)
      ensures l.vector == if old(vector).Some? then old(vector).value else embedded
    {
      var v := if vector.Some? then vector.value else embedded;
      vector := Some(v);
      l := Ledger(v, [], 0);
      progress := Some(l);
    }

    /** `_exhaustive_scores`: at most eight more contracts, each checkpointed; completed when none is
        left. `None` is a scoring error, which leaves the checkpoints made so far. */
    method Poll(c: AuditConfig, embedded: Vector) returns (r: Option<Ledger>)
      requires Valid(c)
      modifies this
      ensures Valid(c) && (old(vector).Some? ==> vector == old(vector)) && (old(complete).Some? ==> complete == old(complete))
      ensures old(Done(c)) <= Done(c)
      ensures r.Some? ==>
        && vector.Some? && PrefixOf(c, vector.value, r.value) && Done(c) == |r.value.done|
        && Done(c) == (if old(Done(c)) + CONTRACTS_PER_CALL <= |c.contracts| then old(Done(c)) + CONTRACTS_PER_CALL else |c.contracts|)
        && (complete == Some(r.value) <==> Done(c) == |c.contracts|)
      ensures r.None? ==> vector.Some? && exists i :: 0 <= i < |c.contracts| && Score(c, vector.value, i).None?
    {
      if complete.Some? {
        return Some(complete.value);
      }
      var l: Ledger;
      if progress.None? {
        l := Begin(c, embedded);
      } else {
        l := progress.value;
      }
      ghost var v, first := l.vector, |l.done|;
      var k := 0;
      while k < CONTRACTS_PER_CALL && |l.done| < |c.contracts|
        invariant 0 <= k <= CONTRACTS_PER_CALL && |l.done| == first + k
        invariant vector == Some(v) && progress == Some(l) && complete.None? && PrefixOf(c, v, l)
        decreases CONTRACTS_PER_CALL - k
      {
        var scored := ScoreContract(c.rows, c.dot(l.vector), c.contracts[|l.done|], c.policy);
        if scored.None? {
          assert Score(c, v, |l.done|).None?;
          return None;
        }
        ExtendedPrefix(c, v, l, scored.value);
        l := Extended(c, l, scored.value);
        progress := Some(l);
        k := k + 1;
      }
      if |l.done| == |c.contracts| {
        complete := Some(l);
      }
      r := Some(l);
    }
  }

  /** Polling until the job is complete gives every expected contract the score of one pass over all
      active rows with one query vector, in the expected order. */
  method PollToCompletion(c: AuditConfig, store: AuditStore, embedded: Vector) returns (r: Option<Ledger>)
    requires store.Valid(c)
    modifies store
    ensures store.Valid(c)
    ensures r.Some? ==> PrefixOf(c, r.value.vector, r.value) && |r.value.done| == |c.contracts| && store.complete == r
                        && r.value.scoredRows == RowTotal(c, |c.contracts|)
    ensures r.None? ==> store.vector.Some? && exists i :: 0 <= i < |c.contracts| && Score(c, store.vector.value, i).None?
  {
    r := store.Poll(c, embedded);
    while r.Some? && store.complete.None?
      invariant store.Valid(c)
      invariant r.Some? ==> store.vector.Some? && PrefixOf(c, store.vector.value, r.value) && store.Done(c) == |r.value.done|
      invariant r.Some? ==> (store.complete == Some(r.value) <==> store.Done(c) == |c.contracts|)
      invariant r.None? ==> store.vector.Some? && exists i :: 0 <= i < |c.contracts| && Score(c, store.vector.value, i).None?
      decreases if r.None? then 0 else 1 + |c.contracts| - store.Done(c)
    {
      r := store.Poll(c, embedded);
    }
  }
}
