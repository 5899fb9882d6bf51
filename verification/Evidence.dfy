/** Values of the experimental map-reduce lane: profiles, source units, spans, provider
    decisions and receipts.

    A SHA-256 digest is modelled by the value it is computed from, i.e. as an injective
    function; a field such as `receipt_sha256` therefore holds the receipt itself. */
module Evidence {
  import opened Text

  const MAX_QUERY_CHARACTERS := 2_000
  const MAX_MAP_UNITS := 100_000
  const MAX_SOURCE_REFS_PER_UNIT := 100_000
  const MAX_PROVIDER_SPANS := 64
  const MAX_EVIDENCE_SPAN_CHARACTERS := 1_024
  const MAX_REDUCE_ROUNDS := 32
  const MAX_REDUCE_BATCHES := 2 * MAX_PROVIDER_SPANS * MAX_MAP_UNITS
  const MAX_JOB_PROVIDER_CALLS := MAX_REDUCE_BATCHES + MAX_MAP_UNITS

  /** Fixed characters of a map prompt: the system prompt (454), the labels of query, contract,
      unit id and source list (7, 23, 14 and 15) and the 73-character unit id. */
  const MAP_FRAME_CHARACTERS := 454 + 7 + 23 + 14 + 15 + 73

  /** Fixed characters of one labelled source range, with the newline that precedes it. */
  const SOURCE_FRAME_CHARACTERS := 1 + 8 + 7 + 5 + 4 + 16

  /** Fixed characters of a reduce prompt: the system prompt (393), the labels of query, output
      limit and span list (7, 23 and 22) and the brackets of the JSON array. */
  const REDUCE_FRAME_CHARACTERS := 393 + 7 + 23 + 22 + 2

  datatype Option<+T> = None | Some(value: T)

  /** The sealed numeric limits of a profile, within the ranges the profile model accepts. */
  datatype Profile = Profile(
    maxInput: nat, maxCompletion: nat, maxCalls: nat, maxJobInput: nat, maxJobOutput: nat)
  {
    predicate Valid() {
      && 16_384 <= maxInput <= 2_000_000
      && 16 <= maxCompletion <= 16_384
      && 1 <= maxCalls <= MAX_JOB_PROVIDER_CALLS
      && 16_384 <= maxJobInput <= 2_000_000_000
      && 16 <= maxJobOutput <= 2_000_000_000
    }
  }

  /** An exact page range together with its text; the range end is `start + |text|`. */
  datatype Source = Source(page: nat, start: nat, text: string) {
    function End(): nat { start + |text| }
  }

  datatype Scope = WholeContract | MajorSection(nodeId: string) | Unclassified

  /** A map unit. Its `unit_id` hashes exactly these fields, so the value is its own id. */
  datatype MapUnit = MapUnit(contract: string, scope: Scope, sources: seq<Source>)

  datatype Span = Span(contract: string, page: nat, start: nat, end: nat, text: string)

  /** A span as proposed by the provider, before any check. */
  datatype Proposal = Proposal(contract: string, page: nat, start: nat, end: nat, quote: string)

  datatype Decision = Decision(relevant: bool, spans: seq<Proposal>) {
    /** What the strict decision schema accepts. */
    predicate Valid() {
      && |spans| <= MAX_PROVIDER_SPANS
      && forall p :: p in spans ==>
        p.page >= 1 && p.start < p.end && 1 <= |p.quote| <= MAX_EVIDENCE_SPAN_CHARACTERS
    }
  }

  datatype Usage = Usage(prompt: nat, completion: nat, total: nat, output: nat)

  datatype CallKey = MapCall(unit: MapUnit) | ReduceCall(round: nat, batch: nat)

  /** The request body digest: query, model and provider are fixed by the job. */
  datatype Request = MapRequest(mapUnit: MapUnit) | ReduceRequest(spans: seq<Span>, maxOutputs: nat)

  /** `maker` binds job, model, provider and profile; `responder` is what the envelope reports. */
  datatype Receipt = Receipt(
    sequence: nat, key: CallKey, request: Request, inputCharacters: nat, maxCompletion: nat,
    maker: string, responder: string, content: string, decision: Decision, usage: Usage)

  datatype MapResult = MapResult(
    unit: MapUnit, contract: string, providerRelevant: bool, spans: seq<Span>, rejected: nat,
    response: string, receipt: Receipt)

  datatype BatchResult = BatchResult(
    round: nat, batch: nat, input: seq<Span>, providerRelevant: bool, spans: seq<Span>, rejected: nat,
    response: string, receipt: Receipt)

  datatype FinalResult =
    | DeterministicEmpty
    | ProviderResult(providerRelevant: bool, spans: seq<Span>, rejected: nat, responses: seq<string>)
  {
    function Spans(): seq<Span> {
      if DeterministicEmpty? then [] else spans
    }
  }

  type Pages = map<(string, nat), string>

  datatype Snapshot = Snapshot(units: seq<MapUnit>, pages: Pages)

  // ---- serialized sizes -------------------------------------------------------------------

  /** `json.dumps` of one span with sorted keys; 156 is its frame plus a 64-digit hash. */
  function SpanCharacters(s: Span): nat {
    156 + JsonStringLength(s.contract) + DecimalLength(s.page) + DecimalLength(s.end)
        + DecimalLength(s.start) + JsonStringLength(s.text)
  }

  /** Serialized spans joined by single commas, without the enclosing brackets. */
  function JoinedCharacters(spans: seq<Span>): nat {
    if spans == [] then 0
    else if |spans| == 1 then SpanCharacters(spans[0])
    else JoinedCharacters(spans[..|spans| - 1]) + 1 + SpanCharacters(spans[|spans| - 1])
  }

  function ReduceFixedCharacters(): nat {
    REDUCE_FRAME_CHARACTERS + MAX_QUERY_CHARACTERS + DecimalLength(MAX_PROVIDER_SPANS)
  }

  /** Room left for serialized spans in one reduce prompt; may be negative. */
  function Available(p: Profile): int {
    p.maxInput - ReduceFixedCharacters()
  }

  /** Length of the whole reduce prompt, system part included. */
  function ReducePromptCharacters(query: string, spans: seq<Span>, maxOutputs: nat): nat {
    REDUCE_FRAME_CHARACTERS + |query| + DecimalLength(maxOutputs) + JoinedCharacters(spans)
  }

  /** One labelled source range of a map prompt. */
  function SourceCharacters(s: Source): nat {
    SOURCE_FRAME_CHARACTERS + DecimalLength(s.page) + DecimalLength(s.start) + DecimalLength(s.End()) + |s.text|
  }

  function SourcesCharacters(sources: seq<Source>): nat {
    if sources == [] then 0
    else SourcesCharacters(sources[..|sources| - 1]) + SourceCharacters(sources[|sources| - 1])
  }

  /** Length of the whole map prompt, system part included. */
  function MapPromptCharacters(query: string, u: MapUnit): nat {
    MAP_FRAME_CHARACTERS + |query| + |u.contract| + SourcesCharacters(u.sources)
  }

  /** Whether two spans of this size still fit one reduce prompt. */
  predicate SpanFits(s: Span, available: int) {
    2 * SpanCharacters(s) + 1 <= available
  }

  predicate AllFit(spans: seq<Span>, available: int) {
    spans == [] || (AllFit(spans[..|spans| - 1], available) && SpanFits(spans[|spans| - 1], available))
  }

  lemma {:induction false} AllFitMembers(spans: seq<Span>, available: int)
    ensures AllFit(spans, available) <==> forall s :: s in spans ==> SpanFits(s, available)
  {
    if spans != [] {
      AllFitMembers(spans[..|spans| - 1], available);
      assert spans == spans[..|spans| - 1] + [spans[|spans| - 1]];
    }
  }

  // ---- sequences without repetition --------------------------------------------------------

  predicate Distinct<T(==)>(s: seq<T>) {
    forall i, j :: 0 <= i < j < |s| ==> s[i] != s[j]
  }

  /** First occurrences, in order: Python's `dict.setdefault` de-duplication. */
  function Dedup(spans: seq<Span>): seq<Span> {
    if spans == [] then []
    else
      var front := Dedup(spans[..|spans| - 1]);
      var last := spans[|spans| - 1];
      if last in front then front else front + [last]
  }

  lemma {:induction false} DedupFacts(spans: seq<Span>)
    ensures var r := Dedup(spans);
      Distinct(r) && |r| <= |spans| && (forall s :: s in r <==> s in spans)
  {
    if spans != [] {
      DedupFacts(spans[..|spans| - 1]);
      assert spans == spans[..|spans| - 1] + [spans[|spans| - 1]];
    }
  }
}
