/** Which proposed spans become evidence: the exact-quote check on a map answer and the
    exact-subset check on a reduce answer. */
module Selection {
  import opened Text
  import opened Evidence
  import opened Reduction

  // ---- map answers -------------------------------------------------------------------------

  /** `_span_is_inside_unit`. */
  predicate InsideUnit(page: nat, start: nat, end: nat, unit: MapUnit) {
    exists i :: 0 <= i < |unit.sources|
      && unit.sources[i].page == page && unit.sources[i].start <= start && end <= unit.sources[i].End()
  }

  /** `span` is literally the page text at its offsets, in this unit's contract and ranges. */
  predicate Exact(span: Span, unit: MapUnit, pages: Pages) {
    && span.contract == unit.contract
    && (unit.contract, span.page) in pages
    && span.start <= span.end <= |pages[(unit.contract, span.page)]|
    && pages[(unit.contract, span.page)][span.start..span.end] == span.text
    && !Blank(span.text)
    && InsideUnit(span.page, span.start, span.end, unit)
  }

  function SpanOf(p: Proposal): Span {
    Span(p.contract, p.page, p.start, p.end, p.quote)
  }

  /** What the source range, quote and contract checks of `_validated_spans` let through. */
  predicate Acceptable(p: Proposal, unit: MapUnit, pages: Pages, available: int) {
    Exact(SpanOf(p), unit, pages) && SpanFits(SpanOf(p), available)
  }

  /** Accepted spans and rejection count of an answer that claims relevance. */
  function Validate(ps: seq<Proposal>, unit: MapUnit, pages: Pages, available: int): (seq<Span>, nat) {
    if ps == [] then ([], 0)
    else
      var (accepted, rejected) := Validate(ps[..|ps| - 1], unit, pages, available);
      var p := ps[|ps| - 1];
      if Acceptable(p, unit, pages, available) && SpanOf(p) !in accepted
      then (accepted + [SpanOf(p)], rejected)
      else (accepted, rejected + 1)
  }

  function ValidatedSpans(d: Decision, unit: MapUnit, pages: Pages, available: int): (seq<Span>, nat) {
    if !d.relevant then ([], |d.spans|) else Validate(d.spans, unit, pages, available)
  }

  lemma {:induction false} ValidateCounts(ps: seq<Proposal>, unit: MapUnit, pages: Pages, available: int)
    ensures var (accepted, rejected) := Validate(ps, unit, pages, available);
      |accepted| + rejected == |ps| && Distinct(accepted)
  {
    if ps != [] {
      ValidateCounts(ps[..|ps| - 1], unit, pages, available);
    }
  }

  ghost predicate Proposed(ps: seq<Proposal>, s: Span, unit: MapUnit, pages: Pages, available: int) {
    exists i :: 0 <= i < |ps| && SpanOf(ps[i]) == s && Acceptable(ps[i], unit, pages, available)
  }

  lemma {:induction false} ValidateMembers(ps: seq<Proposal>, unit: MapUnit, pages: Pages, available: int, s: Span)
    ensures s in Validate(ps, unit, pages, available).0 <==> Proposed(ps, s, unit, pages, available)
  {
    if ps != [] {
      var n := |ps| - 1;
      var front := ps[..n];
      ValidateMembers(front, unit, pages, available, s);
      if Proposed(front, s, unit, pages, available) {
        var i :| 0 <= i < n && SpanOf(front[i]) == s && Acceptable(front[i], unit, pages, available);
        assert ps[i] == front[i];
      }
      if Proposed(ps, s, unit, pages, available) {
        var i :| 0 <= i < |ps| && SpanOf(ps[i]) == s && Acceptable(ps[i], unit, pages, available);
        if i < n {
          assert front[i] == ps[i];
          assert Proposed(front, s, unit, pages, available);
        }
      }
    }
  }

  /** Accepted spans are exactly the acceptable proposals, once each; nothing is lost in the count. */
  lemma ValidateSelects(ps: seq<Proposal>, unit: MapUnit, pages: Pages, available: int)
    ensures var (accepted, rejected) := Validate(ps, unit, pages, available);
      && |accepted| + rejected == |ps|
      && Distinct(accepted)
      && (forall s :: s in accepted <==> Proposed(ps, s, unit, pages, available))
      && (forall s :: s in accepted ==> Exact(s, unit, pages) && SpanFits(s, available))
  {
    ValidateCounts(ps, unit, pages, available);
    forall s ensures s in Validate(ps, unit, pages, available).0 <==> Proposed(ps, s, unit, pages, available) {
      ValidateMembers(ps, unit, pages, available, s);
    }
  }

  /** `_validated_spans` for a map unit. */
  method ComputeValidatedSpans(d: Decision, unit: MapUnit, pages: Pages, available: int)
    returns (accepted: seq<Span>, rejected: nat)
    ensures (accepted, rejected) == ValidatedSpans(d, unit, pages, available)
  {
    accepted, rejected := [], 0;
    if !d.relevant {
      return [], |d.spans|;
    }
    var seen: set<Span> := {};
    for i := 0 to |d.spans|
      invariant (accepted, rejected) == Validate(d.spans[..i], unit, pages, available)
      invariant forall s :: s in seen <==> s in accepted
    {
      var proposed := d.spans[i];
      assert d.spans[..i + 1][..i] == d.spans[..i] && d.spans[..i + 1][i] == proposed;
      var key := (unit.contract, proposed.page);
      if key !in pages || proposed.end > |pages[key]| || proposed.end - proposed.start != |proposed.quote|
         || Blank(proposed.quote) || pages[key][proposed.start..proposed.end] != proposed.quote
         || proposed.contract != unit.contract
         || !InsideUnit(proposed.page, proposed.start, proposed.end, unit)
      {
        rejected := rejected + 1;
        continue;
      }
      var span := SpanOf(proposed);
      if span in seen || !SpanFits(span, available) {
        rejected := rejected + 1;
        continue;
      }
      seen := seen + {span};
      accepted := accepted + [span];
    }
    assert d.spans[..|d.spans|] == d.spans;
  }

  // ---- reduce answers ----------------------------------------------------------------------

  /** Outputs allowed for a batch: half of it, unless it is the final one. */
  function MaximumOutputs(batch: seq<Span>, final: bool): (r: nat)
    ensures 1 <= r <= MAX_PROVIDER_SPANS
  {
    if final then MAX_PROVIDER_SPANS else Min(MAX_PROVIDER_SPANS, ShrinkBound(|batch|))
  }

  /** The batch spans a proposal names. */
  function Matches(batch: seq<Span>, p: Proposal): seq<Span> {
    if batch == [] then []
    else
      var front := Matches(batch[..|batch| - 1], p);
      if batch[|batch| - 1] == SpanOf(p) then front + [batch[|batch| - 1]] else front
  }

  /** In a batch without repetitions a proposal names one span, or none. */
  lemma {:induction false} MatchesUnique(batch: seq<Span>, p: Proposal)
    requires Distinct(batch)
    ensures Matches(batch, p) == if SpanOf(p) in batch then [SpanOf(p)] else []
  {
    if batch != [] {
      var front, last := batch[..|batch| - 1], batch[|batch| - 1];
      assert batch == front + [last];
      MatchesUnique(front, p);
    }
  }

  function Select(ps: seq<Proposal>, batch: seq<Span>, limit: nat): (seq<Span>, nat) {
    if ps == [] then ([], 0)
    else
      var (kept, rejected) := Select(ps[..|ps| - 1], batch, limit);
      var p := ps[|ps| - 1];
      if Matches(batch, p) == [SpanOf(p)] && SpanOf(p) !in kept && |kept| < limit
      then (kept + [SpanOf(p)], rejected)
      else (kept, rejected + 1)
  }

  function SelectedSpans(d: Decision, batch: seq<Span>, limit: nat): (seq<Span>, nat) {
    if !d.relevant then ([], |d.spans|) else Select(d.spans, batch, limit)
  }

  /** Kept spans come from the batch unchanged, once each and within the limit; a named batch span
      is dropped only when the limit is reached. */
  lemma {:induction false} SelectKeeps(ps: seq<Proposal>, batch: seq<Span>, limit: nat)
    requires Distinct(batch)
    ensures var (kept, rejected) := Select(ps, batch, limit);
      && |kept| + rejected == |ps| && |kept| <= limit
      && Distinct(kept) && Subset(kept, batch)
      && (forall s :: s in kept ==> exists p :: p in ps && SpanOf(p) == s)
      && (|kept| < limit ==> forall p :: p in ps && SpanOf(p) in batch ==> SpanOf(p) in kept)
  {
    if ps != [] {
      var front, p := ps[..|ps| - 1], ps[|ps| - 1];
      assert ps == front + [p];
      SelectKeeps(front, batch, limit);
      SubsetMembers(Select(front, batch, limit).0, batch);
      SubsetMembers(Select(ps, batch, limit).0, batch);
      MatchesUnique(batch, p);
      var (kept, rejected) := Select(ps, batch, limit);
      forall s | s in kept ensures exists q :: q in ps && SpanOf(q) == s {
        if s == SpanOf(p) { assert p in ps; }
        else {
          var q :| q in front && SpanOf(q) == s;
          assert q in ps;
        }
      }
    }
  }

  /** The candidate loop of `_reduce_result_from_receipt`. */
  method ComputeSelectedSpans(d: Decision, batch: seq<Span>, final: bool) returns (kept: seq<Span>, rejected: nat)
    ensures (kept, rejected) == SelectedSpans(d, batch, MaximumOutputs(batch, final))
  {
    kept, rejected := [], 0;
    if !d.relevant {
      return [], |d.spans|;
    }
    var limit := MaximumOutputs(batch, final);
    for i := 0 to |d.spans|
      invariant (kept, rejected) == Select(d.spans[..i], batch, limit)
    {
      var proposed := d.spans[i];
      assert d.spans[..i + 1][..i] == d.spans[..i] && d.spans[..i + 1][i] == proposed;
      var matches := Matches(batch, proposed);
      MatchesNamed(batch, proposed);
      if |matches| != 1 {
        rejected := rejected + 1;
        continue;
      }
      if matches[0] in kept || |kept| >= limit {
        rejected := rejected + 1;
        continue;
      }
      kept := kept + [matches[0]];
    }
    assert d.spans[..|d.spans|] == d.spans;
  }

  lemma {:induction false} MatchesNamed(batch: seq<Span>, p: Proposal)
    ensures forall i :: 0 <= i < |Matches(batch, p)| ==> Matches(batch, p)[i] == SpanOf(p)
  {
    if batch != [] {
      MatchesNamed(batch[..|batch| - 1], p);
    }
  }
}
