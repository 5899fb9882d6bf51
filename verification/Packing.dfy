/** Cutting one section of a contract into map units whose prompts fit the sealed input limit. */
module Packing {
  import opened Text
  import opened Evidence

  datatype PackError = UnitCap | RefCap | PromptOverhead | FragmentTooLarge | EmptySection
    | BadRange | LostParent | ParentCycle | SpansOverlap | UncoveredText | NoText | NoContracts

  datatype Result<+T> = Ok(value: T) | Err(error: PackError)

  /** The part of a unit that does not depend on its sources, and the limits that apply to it. */
  datatype Frame = Frame(query: string, contract: string, scope: Scope, maxInput: nat) {
    function Unit(sources: seq<Source>): MapUnit { MapUnit(contract, scope, sources) }

    predicate Fits(sources: seq<Source>) { MapPromptCharacters(query, Unit(sources)) <= maxInput }
  }

  // ---- coverage counts ----------------------------------------------------------------------------

  function Hit(s: Source, page: nat, pos: nat): nat {
    if s.page == page && s.start <= pos < s.End() then 1 else 0
  }

  /** How many of the ranges contain this page position. */
  function CoverCount(sources: seq<Source>, page: nat, pos: nat): nat {
    if sources == [] then 0 else CoverCount(sources[..|sources| - 1], page, pos) + Hit(sources[|sources| - 1], page, pos)
  }

  lemma {:induction false} CoverConcat(a: seq<Source>, b: seq<Source>, page: nat, pos: nat)
    ensures CoverCount(a + b, page, pos) == CoverCount(a, page, pos) + CoverCount(b, page, pos)
  {
    if b == [] {
      assert a + b == a;
    } else {
      assert (a + b)[..|a + b| - 1] == a + b[..|b| - 1];
      CoverConcat(a, b[..|b| - 1], page, pos);
    }
  }

  // ---- fragments of one leaf --------------------------------------------------------------------------

  function Fragment(s: Source, from: nat, to: nat): Source
    requires from <= to <= |s.text|
  {
    Source(s.page, s.start + from, s.text[from..to])
  }

  predicate FragmentFits(f: Frame, s: Source, from: nat, to: nat)
    requires from <= to <= |s.text|
  {
    f.Fits([Fragment(s, from, to)])
  }

  /** Prompt length grows with the range end, which is what the binary search relies on. */
  lemma FragmentFitsMonotone(f: Frame, s: Source, from: nat, shorter: nat, longer: nat)
    requires from <= shorter <= longer <= |s.text| && FragmentFits(f, s, from, longer)
    ensures FragmentFits(f, s, from, shorter)
  {
    DecimalLengthMonotone(s.start + shorter, s.start + longer);
    SingleSource(Fragment(s, from, shorter));
    SingleSource(Fragment(s, from, longer));
  }

  lemma SingleSource(s: Source)
    ensures SourcesCharacters([s]) == SourceCharacters(s)
  {
    assert [s][..0] == [];
  }

  /** The binary search: the largest end whose fragment fits, or `from` when none does. */
  method LargestFit(f: Frame, s: Source, from: nat) returns (end: nat)
    requires from < |s.text|
    ensures from <= end <= |s.text|
    ensures end > from ==> FragmentFits(f, s, from, end)
    ensures forall e :: end < e <= |s.text| ==> !FragmentFits(f, s, from, e)
  {
    var low, high := from + 1, |s.text|;
    end := from;
    while low <= high
      invariant from <= end == low - 1 <= high <= |s.text|
      invariant end > from ==> FragmentFits(f, s, from, end)
      invariant forall e :: high < e <= |s.text| ==> !FragmentFits(f, s, from, e)
      decreases high - low + 1
    {
      var midpoint := (low + high) / 2;
      if FragmentFits(f, s, from, midpoint) {
        end := midpoint;
        low := midpoint + 1;
      } else {
        forall e | midpoint <= e <= |s.text| ensures !FragmentFits(f, s, from, e) {
          if FragmentFits(f, s, from, e) { FragmentFitsMonotone(f, s, from, midpoint, e); }
        }
        high := midpoint - 1;
      }
    }
  }

  // ---- paragraph ends: matches of (\r?\n)[ \t]*(\r?\n)+ ------------------------------------------------

  /** Length of a newline at `i`, or 0. */
  function NewlineAt(t: string, i: nat): nat
    requires i <= |t|
  {
    if i < |t| && t[i] == '\n' then 1
    else if i + 1 < |t| && t[i] == '\r' && t[i + 1] == '\n' then 2
    else 0
  }

  function SkipBlanks(t: string, i: nat): (j: nat)
    requires i <= |t|
    ensures i <= j <= |t|
    decreases |t| - i
  {
    if i < |t| && (t[i] == ' ' || t[i] == '\t') then SkipBlanks(t, i + 1) else i
  }

  function SkipNewlines(t: string, i: nat): (j: nat)
    requires i <= |t|
    ensures i <= j <= |t|
    decreases |t| - i
  {
    if NewlineAt(t, i) > 0 then SkipNewlines(t, i + NewlineAt(t, i)) else i
  }

  /** End of a paragraph break that starts at `i`, or `i` when there is none. */
  function BreakAt(t: string, i: nat): (j: nat)
    requires i <= |t|
    ensures i <= j <= |t|
  {
    if NewlineAt(t, i) == 0 then i
    else
      var blank := SkipBlanks(t, i + NewlineAt(t, i));
      var end := SkipNewlines(t, blank);
      if end == blank then i else end
  }

  predicate Ascending(s: seq<nat>) {
    forall i, j :: 0 <= i < j < |s| ==> s[i] < s[j]
  }

  /** Ends of the paragraph breaks from `i` on, without overlaps. */
  function ParagraphEnds(t: string, i: nat): (ends: seq<nat>)
    requires i <= |t|
    ensures Ascending(ends) && forall e :: e in ends ==> i < e <= |t|
    decreases |t| - i
  {
    if i == |t| then []
    else if BreakAt(t, i) > i then
      var rest := ParagraphEnds(t, BreakAt(t, i));
      assert forall k :: 0 <= k < |rest| ==> rest[k] in rest;
      [BreakAt(t, i)] + rest
    else ParagraphEnds(t, i + 1)
  }

  /** `bisect_right`: how many ends are at most `x`. */
  method BisectRight(ends: seq<nat>, x: nat) returns (n: nat)
    requires Ascending(ends)
    ensures n <= |ends|
    ensures forall i :: 0 <= i < n ==> ends[i] <= x
    ensures forall i :: n <= i < |ends| ==> x < ends[i]
  {
    var low, high := 0, |ends|;
    while low < high
      invariant 0 <= low <= high <= |ends|
      invariant forall i :: 0 <= i < low ==> ends[i] <= x
      invariant forall i :: high <= i < |ends| ==> x < ends[i]
    {
      var mid := (low + high) / 2;
      if x < ends[mid] {
        forall i | mid <= i < |ends| ensures x < ends[i] { assert i == mid || ends[mid] < ends[i]; }
        high := mid;
      } else {
        forall i | 0 <= i <= mid ensures ends[i] <= x { assert i == mid || ends[i] < ends[mid]; }
        low := mid + 1;
      }
    }
    n := low;
  }

  /** The end chosen for a fragment: the last paragraph end that fits, else the last end that fits. */
  ghost predicate GoodCut(f: Frame, s: Source, from: nat, end: nat) {
    && from < end <= |s.text| && FragmentFits(f, s, from, end)
    && (forall e :: end < e <= |s.text| && e in ParagraphEnds(s.text, 0) ==> !FragmentFits(f, s, from, e))
    && (end in ParagraphEnds(s.text, 0)
        || forall e :: from < e <= |s.text| && FragmentFits(f, s, from, e) ==> e <= end && e !in ParagraphEnds(s.text, 0))
  }

  /** `pieces` are consecutive non-empty slices of `s`, from relative offset 0 up to `cursor`. */
  ghost predicate Slices(s: Source, pieces: seq<Source>, cursor: nat) {
    && cursor <= |s.text|
    && if pieces == [] then cursor == 0
       else
         var last := pieces[|pieces| - 1];
         && s.start <= last.start < s.start + cursor
         && last == Fragment(s, last.start - s.start, cursor)
         && Slices(s, pieces[..|pieces| - 1], last.start - s.start)
  }

  /** Slices cover each position of their part of the leaf once, and nothing else. */
  lemma {:induction false} SlicesCover(s: Source, pieces: seq<Source>, cursor: nat, page: nat, pos: nat)
    requires Slices(s, pieces, cursor)
    ensures CoverCount(pieces, page, pos) == if page == s.page && s.start <= pos < s.start + cursor then 1 else 0
    decreases |pieces|
  {
    if pieces != [] {
      SlicesCover(s, pieces[..|pieces| - 1], pieces[|pieces| - 1].start - s.start, page, pos);
    }
  }

  ghost predicate AllFitAlone(f: Frame, pieces: seq<Source>) {
    forall k :: 0 <= k < |pieces| ==> f.Fits([pieces[k]])
  }

  /** Slices that are each cut as the fragment loop cuts them. */
  ghost predicate WellCut(f: Frame, s: Source, pieces: seq<Source>, cursor: nat)
    requires Slices(s, pieces, cursor)
  {
    pieces == []
    || (var last := pieces[|pieces| - 1];
        GoodCut(f, s, last.start - s.start, cursor)
        && WellCut(f, s, pieces[..|pieces| - 1], last.start - s.start))
  }

  /** Not even one character fits from here. */
  predicate NoRoom(f: Frame, s: Source, from: nat) {
    from < |s.text| && !FragmentFits(f, s, from, from + 1)
  }

  // ---- the one way to cut a leaf ----------------------------------------------------------------------------

  /** There is at most one end for a fragment. */
  lemma GoodCutUnique(f: Frame, s: Source, from: nat, a: nat, b: nat)
    requires GoodCut(f, s, from, a) && GoodCut(f, s, from, b)
    ensures a == b
  {
  }

  lemma SlicesEnd(s: Source, pieces: seq<Source>, a: nat, b: nat)
    requires Slices(s, pieces, a) && Slices(s, pieces, b)
    ensures a == b
  {
    if pieces != [] {
      var last := pieces[|pieces| - 1];
      assert last.End() == s.start + a && last.End() == s.start + b;
    }
  }

  ghost predicate CutUpTo(f: Frame, s: Source, pieces: seq<Source>, cursor: nat) {
    Slices(s, pieces, cursor) && WellCut(f, s, pieces, cursor)
  }

  /** The last fragment of a well cut part. */
  lemma {:induction false} LastPiece(f: Frame, s: Source, part: seq<Source>, q: nat) returns (start: nat)
    requires CutUpTo(f, s, part, q) && part != []
    ensures start < q <= |s.text| && CutUpTo(f, s, part[..|part| - 1], start) && GoodCut(f, s, start, q)
    ensures part[|part| - 1] == Fragment(s, start, q)
  {
    var last := part[|part| - 1];
    start := last.start - s.start;
    assert GoodCut(f, s, start, q) && last == Fragment(s, start, q);
  }

  /** Fragment `k` of a well cut leaf starts where the fragments before it end. */
  lemma {:induction false} PieceAt(f: Frame, s: Source, pieces: seq<Source>, cursor: nat, k: nat) returns (from: nat, to: nat)
    requires CutUpTo(f, s, pieces, cursor) && k < |pieces|
    ensures from < to <= cursor <= |s.text| && CutUpTo(f, s, pieces[..k], from)
    ensures GoodCut(f, s, from, to) && pieces[k] == Fragment(s, from, to)
    decreases |pieces|
  {
    var n := |pieces| - 1;
    var start := LastPiece(f, s, pieces, cursor);
    if k == n {
      from, to := start, cursor;
    } else {
      from, to := PieceAt(f, s, pieces[..n], start, k);
      assert pieces[..n][..k] == pieces[..k];
    }
  }

  /** Behind a part of it, a cut leaf continues with the one fragment that fits there. */
  lemma {:induction false} NextPiece(f: Frame, s: Source, part: seq<Source>, q: nat, whole: seq<Source>, e: nat) returns (to: nat)
    requires CutUpTo(f, s, part, q) && CutUpTo(f, s, whole, e) && part <= whole && q < e
    ensures |part| < |whole| && q < to <= e <= |s.text| && GoodCut(f, s, q, to) && whole[|part|] == Fragment(s, q, to)
  {
    if |whole| == |part| {
      assert whole == part;
      SlicesEnd(s, part, q, e);
    }
    var from: nat;
    from, to := PieceAt(f, s, whole, e, |part|);
    assert whole[..|part|] == part;
    SlicesEnd(s, part, from, q);
  }

  /** Fragments cut so far are a prefix of every way to cut the whole leaf. */
  lemma {:induction false} CutPrefix(f: Frame, s: Source, part: seq<Source>, q: nat, whole: seq<Source>, e: nat)
    requires CutUpTo(f, s, part, q) && CutUpTo(f, s, whole, e) && q <= e
    ensures part <= whole
    decreases |part|
  {
    if part != [] {
      var n := |part| - 1;
      var start := LastPiece(f, s, part, q);
      CutPrefix(f, s, part[..n], start, whole, e);
      var to := NextPiece(f, s, part[..n], start, whole, e);
      GoodCutUnique(f, s, start, to, q);
      assert part == part[..n] + [part[n]];
    }
  }

  /** The fragments of one leaf: itself if it fits, else well cut slices within the unit cap. */
  ghost predicate Cutting(f: Frame, s: Source, firstOrdinal: nat, pieces: seq<Source>) {
    if f.Fits([s]) then pieces == [s]
    else CutUpTo(f, s, pieces, |s.text|) && firstOrdinal + |pieces| <= MAX_MAP_UNITS
  }

  lemma CuttingUnique(f: Frame, s: Source, firstOrdinal: nat, a: seq<Source>, b: seq<Source>)
    requires Cutting(f, s, firstOrdinal, a) && Cutting(f, s, firstOrdinal, b)
    ensures a == b
  {
    if !f.Fits([s]) {
      CutPrefix(f, s, a, |s.text|, b, |s.text|);
      CutPrefix(f, s, b, |s.text|, a, |s.text|);
    }
  }

  /** The fragments of a leaf, if it can be cut. */
  ghost function Cut(f: Frame, s: Source, firstOrdinal: nat): (r: Option<seq<Source>>)
    ensures r.Some? ==> Cutting(f, s, firstOrdinal, r.value)
    ensures r.None? ==> forall pieces :: !Cutting(f, s, firstOrdinal, pieces)
  {
    if exists pieces :: Cutting(f, s, firstOrdinal, pieces) then
      var pieces :| Cutting(f, s, firstOrdinal, pieces);
      Some(pieces)
    else None
  }

  /** Where no fragment fits, or the cap is reached, the whole leaf cannot be cut. */
  lemma {:induction false} CutFails(f: Frame, s: Source, firstOrdinal: nat, part: seq<Source>, cursor: nat)
    requires CutUpTo(f, s, part, cursor) && cursor < |s.text| && !f.Fits([s])
    requires NoRoom(f, s, cursor) || firstOrdinal + |part| >= MAX_MAP_UNITS
    ensures Cut(f, s, firstOrdinal).None?
  {
    if Cut(f, s, firstOrdinal).Some? {
      var whole := Cut(f, s, firstOrdinal).value;
      CutPrefix(f, s, part, cursor, whole, |s.text|);
      var to := NextPiece(f, s, part, cursor, whole, |s.text|);
      FragmentFitsMonotone(f, s, cursor, cursor + 1, to);
    }
  }

  /** `bounded_fragments`: the leaf itself if it fits, else slices that tile it, each fitting and
      each cut at a paragraph end where one fits. It fails exactly where the leaf cannot be cut in
      this way within the unit cap. */
  method BoundedFragments(f: Frame, s: Source, firstOrdinal: nat) returns (r: Result<seq<Source>>)
    requires s.text != []
    ensures r.Ok? <==> Cut(f, s, firstOrdinal).Some?
    ensures r.Ok? ==> Cut(f, s, firstOrdinal) == Some(r.value)
    ensures r.Ok? ==> Slices(s, r.value, |s.text|) && AllFitAlone(f, r.value)
    ensures r.Ok? && r.value != [s] ==> WellCut(f, s, r.value, |s.text|)
    ensures f.Fits([s]) ==> r == Ok([s])
    ensures r.Err? ==> r.error == UnitCap || r.error == PromptOverhead
    ensures r == Err(PromptOverhead) ==> exists from :: NoRoom(f, s, from)
  {
    if f.Fits([s]) {
      WholeSlice(s);
      assert Cutting(f, s, firstOrdinal, [s]);
      return Ok([s]);
    }
    var ends := ParagraphEnds(s.text, 0);
    var pieces: seq<Source> := [];
    var cursor := 0;
    while cursor < |s.text|
      invariant 0 <= cursor <= |s.text| && (pieces != [] ==> firstOrdinal + |pieces| <= MAX_MAP_UNITS)
      invariant CutUpTo(f, s, pieces, cursor)
    {
      var end := NextCut(f, s, cursor, ends);
      if end == cursor {
        CutFails(f, s, firstOrdinal, pieces, cursor);
        return Err(PromptOverhead);
      }
      if firstOrdinal + |pieces| >= MAX_MAP_UNITS {
        CutFails(f, s, firstOrdinal, pieces, cursor);
        return Err(UnitCap);
      }
      SlicesSnoc(f, s, pieces, cursor, end);
      pieces := pieces + [Fragment(s, cursor, end)];
      cursor := end;
    }
    PiecesFit(f, s, pieces, cursor);
    assert Cutting(f, s, firstOrdinal, pieces);
    CuttingUnique(f, s, firstOrdinal, pieces, Cut(f, s, firstOrdinal).value);
    r := Ok(pieces);
  }

  lemma SlicesSnoc(f: Frame, s: Source, pieces: seq<Source>, cursor: nat, end: nat)
    requires Slices(s, pieces, cursor) && WellCut(f, s, pieces, cursor) && GoodCut(f, s, cursor, end)
    ensures var more := pieces + [Fragment(s, cursor, end)];
      Slices(s, more, end) && WellCut(f, s, more, end)
  {
    assert (pieces + [Fragment(s, cursor, end)])[..|pieces|] == pieces;
  }

  lemma WholeSlice(s: Source)
    requires s.text != []
    ensures Slices(s, [s], |s.text|)
  {
    assert Fragment(s, 0, |s.text|) == s;
  }

  lemma {:induction false} PiecesFit(f: Frame, s: Source, pieces: seq<Source>, cursor: nat)
    requires Slices(s, pieces, cursor) && WellCut(f, s, pieces, cursor)
    ensures AllFitAlone(f, pieces)
    decreases |pieces|
  {
    if pieces != [] {
      var n := |pieces| - 1;
      PiecesFit(f, s, pieces[..n], pieces[n].start - s.start);
      assert pieces == pieces[..n] + [pieces[n]];
    }
  }

  /** Where the fragment that starts at `cursor` ends; `cursor` itself when nothing fits. */
  method NextCut(f: Frame, s: Source, cursor: nat, ends: seq<nat>) returns (end: nat)
    requires cursor < |s.text| && ends == ParagraphEnds(s.text, 0)
    ensures end == cursor ==> NoRoom(f, s, cursor)
    ensures end != cursor ==> GoodCut(f, s, cursor, end)
  {
    var maximum := LargestFit(f, s, cursor);
    if maximum == cursor {
      return cursor;
    }
    var count := BisectRight(ends, maximum);
    end := if count > 0 && ends[count - 1] > cursor then ends[count - 1] else maximum;
    CutIsGood(f, s, cursor, maximum, count, end);
  }

  lemma CutIsGood(f: Frame, s: Source, from: nat, maximum: nat, count: nat, end: nat)
    requires from < maximum <= |s.text| && FragmentFits(f, s, from, maximum)
    requires forall e :: maximum < e <= |s.text| ==> !FragmentFits(f, s, from, e)
    requires var ends := ParagraphEnds(s.text, 0);
      && count <= |ends|
      && (forall i :: 0 <= i < count ==> ends[i] <= maximum)
      && (forall i :: count <= i < |ends| ==> maximum < ends[i])
      && end == if count > 0 && ends[count - 1] > from then ends[count - 1] else maximum
    ensures GoodCut(f, s, from, end)
  {
    var ends := ParagraphEnds(s.text, 0);
    FragmentFitsMonotone(f, s, from, end, maximum);
    forall e | e in ends && from < e <= |s.text| && FragmentFits(f, s, from, e)
      ensures e <= end && end in ends
    {
      var i :| 0 <= i < |ends| && ends[i] == e;
      assert i == count - 1 || ends[i] < ends[count - 1];
    }
  }

  // ---- all leaves of a section -------------------------------------------------------------------------

  /** `p` is an exact non-empty part of the range `s`. */
  predicate SliceOf(p: Source, s: Source) {
    && p.page == s.page && p.text != [] && s.start <= p.start && p.End() <= s.End()
    && p.text == s.text[p.start - s.start..p.End() - s.start]
  }

  predicate Precedes(a: Source, b: Source) {
    a.page < b.page || (a.page == b.page && a.End() <= b.start)
  }

  /** Ranges in page order, without overlap; strictly increasing as (page, start, end). */
  ghost predicate Ordered(sources: seq<Source>) {
    && (forall i :: 0 <= i < |sources| ==> sources[i].text != [])
    && (forall i, j :: 0 <= i < j < |sources| ==> Precedes(sources[i], sources[j]))
  }

  lemma {:induction false} SlicesInside(s: Source, pieces: seq<Source>, cursor: nat, i: nat)
    requires Slices(s, pieces, cursor) && i < |pieces|
    ensures SliceOf(pieces[i], s) && pieces[i].End() <= s.start + cursor
    decreases |pieces|
  {
    var n := |pieces| - 1;
    if i < n {
      SlicesInside(s, pieces[..n], pieces[n].start - s.start, i);
    }
  }

  lemma {:induction false} SlicesAscend(s: Source, pieces: seq<Source>, cursor: nat, i: nat, j: nat)
    requires Slices(s, pieces, cursor) && i < j < |pieces|
    ensures Precedes(pieces[i], pieces[j])
    decreases |pieces|
  {
    var n := |pieces| - 1;
    var front := pieces[..n];
    SlicesInside(s, pieces, cursor, j);
    if j < n {
      SlicesAscend(s, front, pieces[n].start - s.start, i, j);
    } else {
      SlicesInside(s, front, pieces[n].start - s.start, i);
    }
  }

  ghost predicate SameCoverage(a: seq<Source>, b: seq<Source>) {
    forall page: nat, pos: nat :: CoverCount(a, page, pos) == CoverCount(b, page, pos)
  }

  ghost predicate PartOfSome(p: Source, sources: seq<Source>) {
    exists i :: 0 <= i < |sources| && SliceOf(p, sources[i])
  }

  ghost predicate Parts(sources: seq<Source>, pieces: seq<Source>) {
    forall k :: 0 <= k < |pieces| ==> PartOfSome(pieces[k], sources)
  }

  /** `pieces` cut `sources` up: the same positions equally often, exact parts only, same order. */
  ghost predicate CutsUp(sources: seq<Source>, pieces: seq<Source>) {
    SameCoverage(sources, pieces) && Parts(sources, pieces) && (Ordered(sources) ==> Ordered(pieces))
  }

  lemma CutsCoverage(sources: seq<Source>, pieces: seq<Source>, s: Source, more: seq<Source>)
    requires SameCoverage(sources, pieces) && Slices(s, more, |s.text|)
    ensures SameCoverage(sources + [s], pieces + more)
  {
    forall page: nat, pos: nat
      ensures CoverCount(sources + [s], page, pos) == CoverCount(pieces + more, page, pos)
    {
      CoverConcat(pieces, more, page, pos);
      SlicesCover(s, more, |s.text|, page, pos);
      assert (sources + [s])[..|sources|] == sources;
    }
  }

  lemma CutsParts(sources: seq<Source>, pieces: seq<Source>, s: Source, more: seq<Source>)
    requires Parts(sources, pieces) && Slices(s, more, |s.text|)
    ensures Parts(sources + [s], pieces + more)
  {
    var all, parts := sources + [s], pieces + more;
    forall k | 0 <= k < |parts| ensures PartOfSome(parts[k], all) {
      if k < |pieces| {
        var i :| 0 <= i < |sources| && SliceOf(pieces[k], sources[i]);
        assert SliceOf(parts[k], all[i]);
      } else {
        SlicesInside(s, more, |s.text|, k - |pieces|);
        assert SliceOf(parts[k], all[|sources|]);
      }
    }
  }

  lemma CutsOrder(sources: seq<Source>, pieces: seq<Source>, s: Source, more: seq<Source>)
    requires Parts(sources, pieces) && Ordered(pieces) && Slices(s, more, |s.text|)
    requires Ordered(sources + [s])
    ensures Ordered(pieces + more)
  {
    var parts := pieces + more;
    forall k | 0 <= k < |parts| ensures parts[k].text != [] {
      if k >= |pieces| { SlicesInside(s, more, |s.text|, k - |pieces|); }
    }
    forall i, j | 0 <= i < j < |parts| ensures Precedes(parts[i], parts[j]) {
      if j < |pieces| {
      } else if i >= |pieces| {
        SlicesAscend(s, more, |s.text|, i - |pieces|, j - |pieces|);
      } else {
        SlicesInside(s, more, |s.text|, j - |pieces|);
        var k :| 0 <= k < |sources| && SliceOf(pieces[i], sources[k]);
        assert Precedes((sources + [s])[k], (sources + [s])[|sources|]);
      }
    }
  }

  lemma OrderedPrefix(sources: seq<Source>, s: Source)
    requires Ordered(sources + [s])
    ensures Ordered(sources)
  {
    var all := sources + [s];
    assert forall i :: 0 <= i < |sources| ==> sources[i] == all[i];
  }

  lemma CutsUpSnoc(sources: seq<Source>, pieces: seq<Source>, s: Source, more: seq<Source>)
    requires CutsUp(sources, pieces) && Slices(s, more, |s.text|)
    ensures CutsUp(sources + [s], pieces + more)
  {
    CutsCoverage(sources, pieces, s, more);
    CutsParts(sources, pieces, s, more);
    if Ordered(sources + [s]) {
      OrderedPrefix(sources, s);
      CutsOrder(sources, pieces, s, more);
    }
  }

  /** Fragments collected so far: they cut up the leaves and each fits a prompt of its own. */
  ghost predicate Expanded(f: Frame, sources: seq<Source>, pieces: seq<Source>) {
    CutsUp(sources, pieces) && AllFitAlone(f, pieces)
  }

  lemma ExpandedSnoc(f: Frame, sources: seq<Source>, i: nat, pieces: seq<Source>, more: seq<Source>)
    requires i < |sources| && Expanded(f, sources[..i], pieces)
    requires Slices(sources[i], more, |sources[i].text|) && AllFitAlone(f, more)
    ensures Expanded(f, sources[..i + 1], pieces + more)
  {
    CutsUpSnoc(sources[..i], pieces, sources[i], more);
    assert sources[..i + 1] == sources[..i] + [sources[i]];
  }

  /** The fragments of every leaf, if all leaves can be cut. */
  ghost function Cuts(f: Frame, sources: seq<Source>, firstOrdinal: nat): Option<seq<Source>> {
    if sources == [] then Some([])
    else
      var front := Cuts(f, sources[..|sources| - 1], firstOrdinal);
      var last := Cut(f, sources[|sources| - 1], firstOrdinal);
      if front.None? || last.None? then None else Some(front.value + last.value)
  }

  lemma {:induction false} CutsNone(f: Frame, sources: seq<Source>, firstOrdinal: nat, i: nat)
    requires i <= |sources| && Cuts(f, sources[..i], firstOrdinal).None?
    ensures Cuts(f, sources, firstOrdinal).None?
    decreases |sources| - i
  {
    if i < |sources| {
      assert sources[..i + 1][..i] == sources[..i];
      CutsNone(f, sources, firstOrdinal, i + 1);
    } else {
      assert sources[..i] == sources;
    }
  }

  /** `expanded_sources`: the fragments of every leaf, in order; it fails exactly where one of the
      leaves cannot be cut. */
  method ExpandSources(f: Frame, sources: seq<Source>, firstOrdinal: nat) returns (r: Result<seq<Source>>)
    requires forall i :: 0 <= i < |sources| ==> sources[i].text != []
    ensures r.Ok? <==> Cuts(f, sources, firstOrdinal).Some?
    ensures r.Ok? ==> Cuts(f, sources, firstOrdinal) == Some(r.value) && Expanded(f, sources, r.value)
    ensures r.Err? ==> r.error == UnitCap || r.error == PromptOverhead
  {
    var pieces: seq<Source> := [];
    var i := 0;
    assert Expanded(f, sources[..0], []);
    while i < |sources|
      invariant 0 <= i <= |sources| && Expanded(f, sources[..i], pieces)
      invariant Cuts(f, sources[..i], firstOrdinal) == Some(pieces)
    {
      var more := BoundedFragments(f, sources[i], firstOrdinal);
      assert sources[..i + 1][..i] == sources[..i];
      if more.Err? {
        CutsNone(f, sources, firstOrdinal, i + 1);
        return Err(more.error);
      }
      ExpandedSnoc(f, sources, i, pieces, more.value);
      pieces := pieces + more.value;
      i := i + 1;
    }
    assert sources[..|sources|] == sources;
    r := Ok(pieces);
  }

  // ---- packing fragments into units ------------------------------------------------------------------------

  function UnitSources(units: seq<MapUnit>): seq<Source> {
    if units == [] then [] else UnitSources(units[..|units| - 1]) + units[|units| - 1].sources
  }

  lemma UnitSourcesSnoc(units: seq<MapUnit>, u: MapUnit)
    ensures UnitSources(units + [u]) == UnitSources(units) + u.sources
  {
    assert (units + [u])[..|units|] == units;
  }

  ghost predicate UnitOk(f: Frame, u: MapUnit) {
    u == f.Unit(u.sources) && 0 < |u.sources| <= MAX_SOURCE_REFS_PER_UNIT && f.Fits(u.sources)
  }

  /** `a` could not also have taken the first source of `b`. */
  ghost predicate UnitFull(f: Frame, a: MapUnit, b: MapUnit) {
    b.sources != [] && !f.Fits(a.sources + [b.sources[0]])
  }

  ghost predicate Packed(f: Frame, units: seq<MapUnit>) {
    && (forall i :: 0 <= i < |units| ==> UnitOk(f, units[i]))
    && (forall i, j :: 0 <= i && j == i + 1 < |units| ==> UnitFull(f, units[i], units[j]))
  }

  /** The last packed unit could not also take what is being collected. */
  ghost predicate Closed(f: Frame, units: seq<MapUnit>, open: seq<Source>) {
    units != [] ==> UnitFull(f, units[|units| - 1], f.Unit(open))
  }

  lemma {:induction false} PackedSnoc(f: Frame, units: seq<MapUnit>, open: seq<Source>)
    requires Packed(f, units) && Closed(f, units, open) && UnitOk(f, f.Unit(open))
    ensures Packed(f, units + [f.Unit(open)])
    ensures UnitSources(units + [f.Unit(open)]) == UnitSources(units) + open
  {
    UnitSourcesSnoc(units, f.Unit(open));
    var all := units + [f.Unit(open)];
    forall i, j | 0 <= i && j == i + 1 < |all| ensures UnitFull(f, all[i], all[j]) {
      if j < |units| { assert UnitFull(f, units[i], units[j]); }
    }
  }

  lemma {:induction false} UnitSourcesConcat(a: seq<MapUnit>, b: seq<MapUnit>)
    ensures UnitSources(a + b) == UnitSources(a) + UnitSources(b)
  {
    if b == [] {
      assert a + b == a;
    } else {
      assert (a + b)[..|a + b| - 1] == a + b[..|b| - 1];
      UnitSourcesConcat(a, b[..|b| - 1]);
    }
  }

  // ---- the one way to group fragments ----------------------------------------------------------------------

  /** Full units in order within the caps; only the last may hold as many ranges as a unit may. */
  ghost predicate FullPacking(f: Frame, pieces: seq<Source>, firstOrdinal: nat, units: seq<MapUnit>) {
    && units != [] && UnitSources(units) == pieces && Packed(f, units) && firstOrdinal + |units| <= MAX_MAP_UNITS
    && forall k :: 0 <= k < |units| - 1 ==> |units[k].sources| < MAX_SOURCE_REFS_PER_UNIT
  }

  /** The units begin with what is packed, and the next one with what is being collected. */
  ghost predicate Follows(units: seq<MapUnit>, packed: seq<MapUnit>, open: seq<Source>) {
    |packed| < |units| && packed <= units && open <= units[|packed|].sources
  }

  lemma {:induction false} SourcesPrefix(a: seq<Source>, b: seq<Source>)
    requires a <= b
    ensures SourcesCharacters(a) <= SourcesCharacters(b)
  {
    if |a| < |b| {
      SourcesPrefix(a, b[..|b| - 1]);
    } else {
      assert a == b;
    }
  }

  lemma FitsPrefix(f: Frame, a: seq<Source>, b: seq<Source>)
    requires a <= b && f.Fits(b)
    ensures f.Fits(a)
  {
    SourcesPrefix(a, b);
  }

  /** Where the sources of unit `k` stand in the whole. */
  lemma {:induction false} UnitElement(units: seq<MapUnit>, k: nat, j: nat)
    requires k < |units| && j < |units[k].sources|
    ensures |UnitSources(units[..k])| + j < |UnitSources(units)|
    ensures UnitSources(units)[|UnitSources(units[..k])| + j] == units[k].sources[j]
  {
    var n := |units| - 1;
    if k < n {
      UnitElement(units[..n], k, j);
      assert units[..n][..k] == units[..k];
    }
  }

  lemma UnitEnd(units: seq<MapUnit>, k: nat)
    requires k < |units|
    ensures |UnitSources(units[..k + 1])| == |UnitSources(units[..k])| + |units[k].sources|
    ensures k + 1 == |units| ==> |UnitSources(units)| == |UnitSources(units[..k])| + |units[k].sources|
  {
    assert units[..k + 1][..k] == units[..k];
  }

  /** Behind a whole unit the next one begins. */
  lemma {:induction false} UnitBehind(units: seq<MapUnit>, k: nat)
    requires k < |units| && |UnitSources(units[..k])| + |units[k].sources| < |UnitSources(units)|
    requires forall j :: 0 <= j < |units| ==> units[j].sources != []
    ensures k + 1 < |units|
    ensures units[k + 1].sources[0] == UnitSources(units)[|UnitSources(units[..k])| + |units[k].sources|]
  {
    UnitEnd(units, k);
    UnitElement(units, k + 1, 0);
  }

  /** The next fragment continues the unit that is being collected, or starts the one behind it. */
  lemma {:induction false} NextFragment(units: seq<MapUnit>, packed: seq<MapUnit>, open: seq<Source>, i: nat)
    requires Follows(units, packed, open) && forall k :: 0 <= k < |units| ==> units[k].sources != []
    requires i == |UnitSources(packed)| + |open| && i < |UnitSources(units)|
    ensures if |open| < |units[|packed|].sources| then units[|packed|].sources[|open|] == UnitSources(units)[i]
      else |packed| + 1 < |units| && units[|packed| + 1].sources[0] == UnitSources(units)[i]
  {
    assert units[..|packed|] == packed;
    if |open| < |units[|packed|].sources| {
      UnitElement(units, |packed|, |open|);
    } else {
      UnitBehind(units, |packed|);
    }
  }

  lemma PackedUnit(f: Frame, pieces: seq<Source>, firstOrdinal: nat, units: seq<MapUnit>, k: nat)
    requires FullPacking(f, pieces, firstOrdinal, units) && k < |units|
    ensures UnitOk(f, units[k])
    ensures k + 1 < |units| ==> UnitFull(f, units[k], units[k + 1]) && |units[k].sources| < MAX_SOURCE_REFS_PER_UNIT
  {
  }

  /** What a grouping says about the fragment at hand. */
  lemma {:induction false} Continues(f: Frame, pieces: seq<Source>, firstOrdinal: nat, units: seq<MapUnit>, packed: seq<MapUnit>, open: seq<Source>, i: nat)
    requires FullPacking(f, pieces, firstOrdinal, units) && Follows(units, packed, open)
    requires i < |pieces| && i == |UnitSources(packed)| + |open|
    ensures var k := |packed|;
      if |open| < |units[k].sources| then
        units[k].sources[|open|] == pieces[i] && f.Fits(open + [pieces[i]]) && |open| < MAX_SOURCE_REFS_PER_UNIT
      else
        && k + 1 < |units| && units[k] == f.Unit(open) && |open| < MAX_SOURCE_REFS_PER_UNIT
        && units[k + 1].sources != [] && units[k + 1].sources[0] == pieces[i] && !f.Fits(open + [pieces[i]])
  {
    var k := |packed|;
    forall j | 0 <= j < |units| ensures units[j].sources != [] { PackedUnit(f, pieces, firstOrdinal, units, j); }
    NextFragment(units, packed, open, i);
    PackedUnit(f, pieces, firstOrdinal, units, k);
    if |open| < |units[k].sources| {
      FitsPrefix(f, open + [pieces[i]], units[k].sources);
    } else {
      assert open == units[k].sources;
    }
  }

  lemma {:induction false} CollectFollows(f: Frame, pieces: seq<Source>, firstOrdinal: nat, units: seq<MapUnit>, packed: seq<MapUnit>, open: seq<Source>, i: nat)
    requires FullPacking(f, pieces, firstOrdinal, units) && Follows(units, packed, open)
    requires i < |pieces| && i == |UnitSources(packed)| + |open| && f.Fits(open + [pieces[i]])
    ensures Follows(units, packed, open + [pieces[i]])
  {
    Continues(f, pieces, firstOrdinal, units, packed, open, i);
  }

  lemma {:induction false} FlushFollows(f: Frame, pieces: seq<Source>, firstOrdinal: nat, units: seq<MapUnit>, packed: seq<MapUnit>, open: seq<Source>, i: nat)
    requires FullPacking(f, pieces, firstOrdinal, units) && Follows(units, packed, open)
    requires i < |pieces| && i == |UnitSources(packed)| + |open| && !f.Fits(open + [pieces[i]])
    ensures Follows(units, packed + [f.Unit(open)], [pieces[i]])
  {
    Continues(f, pieces, firstOrdinal, units, packed, open, i);
    assert packed + [f.Unit(open)] == units[..|packed| + 1];
  }


  /** Behind the last fragment nothing but the collected unit remains. */
  lemma {:induction false} NothingBehind(units: seq<MapUnit>, packed: seq<MapUnit>, open: seq<Source>)
    requires Follows(units, packed, open) && forall k :: 0 <= k < |units| ==> units[k].sources != []
    requires |UnitSources(units)| == |UnitSources(packed)| + |open|
    ensures |units| == |packed| + 1 && units[|packed|].sources == open
  {
    var k := |packed|;
    assert units[..k] == packed;
    if |open| < |units[k].sources| {
      UnitElement(units, k, |open|);
    }
    assert units[k].sources == open;
    if k + 1 < |units| {
      UnitEnd(units, k);
      UnitElement(units, k + 1, 0);
    }
  }

  lemma {:induction false} FinishFollows(f: Frame, pieces: seq<Source>, firstOrdinal: nat, units: seq<MapUnit>, packed: seq<MapUnit>, open: seq<Source>)
    requires FullPacking(f, pieces, firstOrdinal, units) && Follows(units, packed, open)
    requires |pieces| == |UnitSources(packed)| + |open|
    ensures units == packed + [f.Unit(open)]
  {
    forall j | 0 <= j < |units| ensures units[j].sources != [] { PackedUnit(f, pieces, firstOrdinal, units, j); }
    NothingBehind(units, packed, open);
    PackedUnit(f, pieces, firstOrdinal, units, |packed|);
    assert units == packed + [units[|packed|]];
  }

  /** What every way to group the fragments begins with. */
  ghost predicate AllFollow(f: Frame, pieces: seq<Source>, firstOrdinal: nat, packed: seq<MapUnit>, open: seq<Source>) {
    forall units :: FullPacking(f, pieces, firstOrdinal, units) ==> Follows(units, packed, open)
  }

  ghost predicate CannotGroup(f: Frame, pieces: seq<Source>, firstOrdinal: nat) {
    forall units :: !FullPacking(f, pieces, firstOrdinal, units)
  }

  /** After `i` fragments: packed units plus the sources being collected. */
  ghost predicate Packing(f: Frame, pieces: seq<Source>, i: nat, packed: seq<MapUnit>, open: seq<Source>)
    requires i <= |pieces|
  {
    && UnitSources(packed) + open == pieces[..i] && |packed| + |open| <= i
    && (if i == 0 then packed == [] && open == [] else UnitOk(f, f.Unit(open)))
    && Packed(f, packed) && Closed(f, packed, open)
    && forall k :: 0 <= k < |packed| ==> |packed[k].sources| < MAX_SOURCE_REFS_PER_UNIT
  }

  lemma {:induction false} CollectStep(f: Frame, pieces: seq<Source>, i: nat, packed: seq<MapUnit>, open: seq<Source>)
    requires i < |pieces| && Packing(f, pieces, i, packed, open)
    requires f.Fits(open + [pieces[i]]) && |open| < MAX_SOURCE_REFS_PER_UNIT
    ensures Packing(f, pieces, i + 1, packed, open + [pieces[i]])
  {
    assert pieces[..i + 1] == pieces[..i] + [pieces[i]];
    if i > 0 {
      assert (open + [pieces[i]])[0] == open[0];
    }
  }

  lemma {:induction false} FlushStep(f: Frame, pieces: seq<Source>, i: nat, packed: seq<MapUnit>, open: seq<Source>)
    requires i < |pieces| && Packing(f, pieces, i, packed, open)
    requires !f.Fits(open + [pieces[i]]) && f.Fits([pieces[i]]) && |open| < MAX_SOURCE_REFS_PER_UNIT
    ensures i > 0 && open != [] && Packing(f, pieces, i + 1, packed + [f.Unit(open)], [pieces[i]])
  {
    assert [] + [pieces[i]] == [pieces[i]];
    assert pieces[..i + 1] == pieces[..i] + [pieces[i]];
    PackedSnoc(f, packed, open);
  }

  lemma {:induction false} FinishStep(f: Frame, pieces: seq<Source>, packed: seq<MapUnit>, open: seq<Source>)
    requires pieces != [] && Packing(f, pieces, |pieces|, packed, open)
    ensures open != [] && Packed(f, packed + [f.Unit(open)]) && UnitSources(packed + [f.Unit(open)]) == pieces
  {
    assert pieces[..|pieces|] == pieces;
    PackedSnoc(f, packed, open);
  }

  /** The packing loop after `i` fragments: every way to group them all begins like this. */
  ghost predicate Filling(f: Frame, pieces: seq<Source>, firstOrdinal: nat, i: nat, packed: seq<MapUnit>, open: seq<Source>) {
    i <= |pieces| && Packing(f, pieces, i, packed, open) && AllFollow(f, pieces, firstOrdinal, packed, open)
  }

  lemma {:induction false} Consumed(f: Frame, pieces: seq<Source>, i: nat, packed: seq<MapUnit>, open: seq<Source>)
    requires i <= |pieces| && Packing(f, pieces, i, packed, open)
    ensures i == |UnitSources(packed)| + |open|
  {
    assert |UnitSources(packed) + open| == |pieces[..i]|;
  }

  lemma {:induction false} CapReached(f: Frame, pieces: seq<Source>, firstOrdinal: nat, i: nat, packed: seq<MapUnit>, open: seq<Source>)
    requires Filling(f, pieces, firstOrdinal, i, packed, open) && firstOrdinal + |packed| >= MAX_MAP_UNITS
    ensures CannotGroup(f, pieces, firstOrdinal) && firstOrdinal + |pieces| >= MAX_MAP_UNITS
  {
  }

  lemma {:induction false} RefsReached(f: Frame, pieces: seq<Source>, firstOrdinal: nat, i: nat, packed: seq<MapUnit>, open: seq<Source>)
    requires i < |pieces| && Filling(f, pieces, firstOrdinal, i, packed, open) && |open| >= MAX_SOURCE_REFS_PER_UNIT
    ensures CannotGroup(f, pieces, firstOrdinal) && |pieces| > MAX_SOURCE_REFS_PER_UNIT
  {
    Consumed(f, pieces, i, packed, open);
    forall units: seq<MapUnit> | FullPacking(f, pieces, firstOrdinal, units) ensures false {
      Continues(f, pieces, firstOrdinal, units, packed, open, i);
    }
  }

  lemma {:induction false} CollectAll(f: Frame, pieces: seq<Source>, firstOrdinal: nat, i: nat, packed: seq<MapUnit>, open: seq<Source>)
    requires i < |pieces| && AllFollow(f, pieces, firstOrdinal, packed, open) && i == |UnitSources(packed)| + |open|
    requires f.Fits(open + [pieces[i]])
    ensures AllFollow(f, pieces, firstOrdinal, packed, open + [pieces[i]])
  {
    forall units: seq<MapUnit> | FullPacking(f, pieces, firstOrdinal, units) ensures Follows(units, packed, open + [pieces[i]]) {
      CollectFollows(f, pieces, firstOrdinal, units, packed, open, i);
    }
  }

  lemma {:induction false} FlushAll(f: Frame, pieces: seq<Source>, firstOrdinal: nat, i: nat, packed: seq<MapUnit>, open: seq<Source>)
    requires i < |pieces| && AllFollow(f, pieces, firstOrdinal, packed, open) && i == |UnitSources(packed)| + |open|
    requires !f.Fits(open + [pieces[i]])
    ensures AllFollow(f, pieces, firstOrdinal, packed + [f.Unit(open)], [pieces[i]])
    ensures open == [] || !f.Fits([pieces[i]]) ==> CannotGroup(f, pieces, firstOrdinal)
  {
    forall units: seq<MapUnit> | FullPacking(f, pieces, firstOrdinal, units)
      ensures Follows(units, packed + [f.Unit(open)], [pieces[i]]) && open != [] && f.Fits([pieces[i]])
    {
      FlushFollows(f, pieces, firstOrdinal, units, packed, open, i);
      PackedUnit(f, pieces, firstOrdinal, units, |packed|);
      PackedUnit(f, pieces, firstOrdinal, units, |packed| + 1);
      FitsPrefix(f, [pieces[i]], units[|packed| + 1].sources);
      assert (packed + [f.Unit(open)])[|packed|] == units[|packed|];
    }
  }

  lemma {:induction false} Collected(f: Frame, pieces: seq<Source>, firstOrdinal: nat, i: nat, packed: seq<MapUnit>, open: seq<Source>)
    requires i < |pieces| && Filling(f, pieces, firstOrdinal, i, packed, open)
    requires f.Fits(open + [pieces[i]]) && |open| < MAX_SOURCE_REFS_PER_UNIT
    ensures Filling(f, pieces, firstOrdinal, i + 1, packed, open + [pieces[i]])
  {
    Consumed(f, pieces, i, packed, open);
    CollectStep(f, pieces, i, packed, open);
    CollectAll(f, pieces, firstOrdinal, i, packed, open);
  }

  lemma {:induction false} Flushed(f: Frame, pieces: seq<Source>, firstOrdinal: nat, i: nat, packed: seq<MapUnit>, open: seq<Source>)
    requires i < |pieces| && Filling(f, pieces, firstOrdinal, i, packed, open)
    requires !f.Fits(open + [pieces[i]]) && |open| < MAX_SOURCE_REFS_PER_UNIT
    ensures |packed| + |open| <= |pieces|
    ensures if f.Fits([pieces[i]]) then open != [] && Filling(f, pieces, firstOrdinal, i + 1, packed + [f.Unit(open)], [pieces[i]])
      else CannotGroup(f, pieces, firstOrdinal) && !AllFitAlone(f, pieces)
  {
    Consumed(f, pieces, i, packed, open);
    FlushAll(f, pieces, firstOrdinal, i, packed, open);
    if f.Fits([pieces[i]]) {
      FlushStep(f, pieces, i, packed, open);
    }
  }

  /** Which cap a refused packing has hit. */
  ghost predicate Refusal(f: Frame, pieces: seq<Source>, firstOrdinal: nat, error: PackError) {
    || (error == UnitCap && firstOrdinal + |pieces| >= MAX_MAP_UNITS)
    || (error == RefCap && |pieces| > MAX_SOURCE_REFS_PER_UNIT)
    || (error == FragmentTooLarge && !AllFitAlone(f, pieces))
    || (error == EmptySection && pieces == [])
  }

  /** A fragment that does not fit closes the unit and starts the next, or hits a cap. */
  method StartNext(f: Frame, ghost pieces: seq<Source>, ghost i: nat, piece: Source,
                   packed: seq<MapUnit>, open: seq<Source>, firstOrdinal: nat)
    returns (error: Option<PackError>, more: seq<MapUnit>)
    requires i < |pieces| && piece == pieces[i] && Filling(f, pieces, firstOrdinal, i, packed, open)
    requires !f.Fits(open + [piece]) && |open| < MAX_SOURCE_REFS_PER_UNIT
    ensures error.None? ==> Filling(f, pieces, firstOrdinal, i + 1, more, [piece]) && firstOrdinal + |more| < MAX_MAP_UNITS
    ensures error.Some? ==> CannotGroup(f, pieces, firstOrdinal) && Refusal(f, pieces, firstOrdinal, error.value)
  {
    Flushed(f, pieces, firstOrdinal, i, packed, open);
    more := if open != [] then packed + [f.Unit(open)] else packed;
    if firstOrdinal + |more| >= MAX_MAP_UNITS {
      error := Some(UnitCap);
      if f.Fits([piece]) {
        CapReached(f, pieces, firstOrdinal, i + 1, more, [piece]);
      }
    } else {
      error := if f.Fits([piece]) then None else Some(FragmentTooLarge);
    }
  }

  /** One iteration of the packing loop, or the cap that was hit. */
  method PackOne(f: Frame, ghost pieces: seq<Source>, ghost i: nat, piece: Source,
                 packed: seq<MapUnit>, open: seq<Source>, firstOrdinal: nat)
    returns (error: Option<PackError>, packed': seq<MapUnit>, open': seq<Source>)
    requires i < |pieces| && piece == pieces[i] && Filling(f, pieces, firstOrdinal, i, packed, open)
    ensures error.None? ==> Filling(f, pieces, firstOrdinal, i + 1, packed', open') && firstOrdinal + |packed'| < MAX_MAP_UNITS
    ensures error.Some? ==> CannotGroup(f, pieces, firstOrdinal) && Refusal(f, pieces, firstOrdinal, error.value)
  {
    error, packed', open' := None, packed, open;
    if firstOrdinal + |packed| >= MAX_MAP_UNITS {
      CapReached(f, pieces, firstOrdinal, i, packed, open);
      error := Some(UnitCap);
    } else if |open| + 1 > MAX_SOURCE_REFS_PER_UNIT {
      RefsReached(f, pieces, firstOrdinal, i, packed, open);
      error := Some(RefCap);
    } else if f.Fits(open + [piece]) {
      Collected(f, pieces, firstOrdinal, i, packed, open);
      open' := open + [piece];
    } else {
      error, packed' := StartNext(f, pieces, i, piece, packed, open, firstOrdinal);
      open' := [piece];
    }
  }

  /** The packing loop of `_pack_section_units`: it returns the one grouping of the fragments, and
      fails exactly where there is none. */
  method PackFragments(f: Frame, pieces: seq<Source>, firstOrdinal: nat) returns (r: Result<seq<MapUnit>>)
    ensures forall units :: FullPacking(f, pieces, firstOrdinal, units) <==> r == Ok(units)
    ensures r.Err? ==> Refusal(f, pieces, firstOrdinal, r.error)
  {
    var packed: seq<MapUnit> := [];
    var open: seq<Source> := [];
    var i := 0;
    var error: Option<PackError> := None;
    while i < |pieces| && error.None?
      invariant 0 <= i <= |pieces|
      invariant error.None? ==> Filling(f, pieces, firstOrdinal, i, packed, open)
      invariant error.None? && i > 0 ==> firstOrdinal + |packed| < MAX_MAP_UNITS
      invariant error.Some? ==> Refusal(f, pieces, firstOrdinal, error.value) && CannotGroup(f, pieces, firstOrdinal)
    {
      error, packed, open := PackOne(f, pieces, i, pieces[i], packed, open, firstOrdinal);
      i := i + 1;
    }
    if error.Some? {
      return Err(error.value);
    }
    if pieces == [] {
      forall units: seq<MapUnit> ensures !FullPacking(f, pieces, firstOrdinal, units) {
        if FullPacking(f, pieces, firstOrdinal, units) { NothingToGroup(f, pieces, firstOrdinal, units); }
      }
      return Err(EmptySection);
    }
    FinishGrouping(f, pieces, firstOrdinal, packed, open);
    packed := packed + [f.Unit(open)];
    r := Ok(packed);
  }

  lemma {:induction false} NothingToGroup(f: Frame, pieces: seq<Source>, firstOrdinal: nat, units: seq<MapUnit>)
    requires FullPacking(f, pieces, firstOrdinal, units)
    ensures pieces != []
  {
    PackedUnit(f, pieces, firstOrdinal, units, |units| - 1);
  }

  lemma {:induction false} FinishGrouping(f: Frame, pieces: seq<Source>, firstOrdinal: nat, packed: seq<MapUnit>, open: seq<Source>)
    requires pieces != [] && Filling(f, pieces, firstOrdinal, |pieces|, packed, open) && firstOrdinal + |packed| < MAX_MAP_UNITS
    ensures forall units :: FullPacking(f, pieces, firstOrdinal, units) <==> units == packed + [f.Unit(open)]
  {
    FinishStep(f, pieces, packed, open);
    Consumed(f, pieces, |pieces|, packed, open);
    forall units: seq<MapUnit> | FullPacking(f, pieces, firstOrdinal, units) ensures units == packed + [f.Unit(open)] {
      FinishFollows(f, pieces, firstOrdinal, units, packed, open);
    }
    assert FullPacking(f, pieces, firstOrdinal, packed + [f.Unit(open)]);
  }
}
