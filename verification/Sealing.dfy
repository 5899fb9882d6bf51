/** Sealing a compact response: whole clause groups are admitted while they fit the byte limit, and
    the page records its own encoded size. */
module Sealing {
  import opened Text
  import opened Evidence
  import opened ClauseGroup
  import opened Merging
  import opened Bundles
  import opened Descending

  const COMPACT_RESPONSE_BYTES := 65_536

  datatype Reason = ResponseByteLimit | CandidateLimit | CoarseView

  /** A page without its `response_bytes`; coverage counts follow from the bundles. */
  datatype Draft = Draft(
    bundles: seq<Bundle>, ranked: nat, candidates: nat, returned: nat, omitted: nat, omittedContracts: nat,
    reasons: seq<Reason>, sample: seq<string>, sampleComplete: bool)

  datatype Page = Page(draft: Draft, responseBytes: nat)

  /** Encoded bytes of a draft apart from the digits of `response_bytes`. */
  type Weigh = Draft -> nat

  function EncodedBytes(weigh: Weigh, p: Page): nat {
    weigh(p.draft) + DecimalLength(p.responseBytes)
  }

  // ---- a size that counts its own digits -----------------------------------------------------------------------

  function Power10(n: nat): nat {
    if n == 0 then 1 else 10 * Power10(n - 1)
  }

  /** `n` has `d` digits exactly from 10^(d-1) on and below 10^d. */
  lemma {:induction false} Digits(n: nat, d: nat)
    requires d >= 1
    ensures n < Power10(d) <==> DecimalLength(n) <= d
  {
    if d == 1 {
      assert Power10(1) == 10 * Power10(0);
    } else {
      Digits(n / 10, d - 1);
    }
  }

  lemma {:induction false} PowerBeats(n: nat)
    ensures n < Power10(n)
  {
    if n > 0 {
      PowerBeats(n - 1);
    }
  }

  /** The recorded size after some passes, from the size of everything else. */
  function Recorded(base: nat, passes: nat): nat {
    if passes == 0 then 0 else base + DecimalLength(Recorded(base, passes - 1))
  }

  /** Adding as many as the number has digits makes it at most one digit longer. */
  lemma OneDigitMore(n: nat, k: nat)
    requires k <= DecimalLength(n)
    ensures DecimalLength(n + k) <= DecimalLength(n) + 1
  {
    var a := DecimalLength(n);
    Digits(n, a);
    PowerBeats(a);
    assert Power10(a + 1) == 10 * Power10(a);
    Digits(n + k, a + 1);
  }

  /** Three passes reach the fixed point for every base size: adding the digits can lengthen the
      number once, and not again. */
  lemma ThreePasses(base: nat)
    ensures var v := Recorded(base, 3); v == base + DecimalLength(v)
  {
    var a := DecimalLength(base + 1);
    var b := DecimalLength(base + a);
    assert Recorded(base, 1) == base + 1;
    assert Recorded(base, 2) == base + a;
    assert Recorded(base, 3) == base + b;
    DecimalLengthMonotone(base + 1, base + a);
    OneDigitMore(base + 1, a - 1);
    OneDigitMore(base + 1, b - 1);
    DecimalLengthMonotone(base + a, base + b);
  }

  lemma {:induction false} Stable(base: nat, passes: nat)
    requires passes >= 3
    ensures Recorded(base, passes) == Recorded(base, 3)
  {
    ThreePasses(base);
    if passes > 3 {
      Stable(base, passes - 1);
    }
  }

  /** The six passes of `build`: the recorded size is the encoded size. */
  method RecordSize(draft: Draft, weigh: Weigh) returns (p: Page)
    ensures p.draft == draft && EncodedBytes(weigh, p) == p.responseBytes
    ensures p.responseBytes == Recorded(weigh(draft), 3)
  {
    p := Page(draft, 0);
    ghost var base := weigh(draft);
    ThreePasses(base);
    var pass := 0;
    while pass < 6
      invariant 0 <= pass <= 6 && p == Page(draft, Recorded(base, pass))
    {
      var size := EncodedBytes(weigh, p);
      if size == p.responseBytes {
        AlreadyStable(base, pass);
        return;
      }
      p := p.(responseBytes := size);
      pass := pass + 1;
    }
    Stable(base, 6);
  }

  lemma AlreadyStable(base: nat, passes: nat)
    requires Recorded(base, passes + 1) == Recorded(base, passes)
    ensures Recorded(base, passes) == Recorded(base, 3)
  {
    if passes < 3 {
      assert Recorded(base, passes + 2) == Recorded(base, passes);
      assert Recorded(base, passes + 3) == Recorded(base, passes + 2);
    } else {
      Stable(base, passes);
    }
  }

  // ---- building a page -----------------------------------------------------------------------------------------

  /** The request: candidate groups and what was left out before. */
  datatype Offer = Offer(groups: seq<Bundle>, ranked: nat, coarse: nat, beyond: nat) {
    function Candidates(): nat { |groups| + coarse + beyond }
    predicate MoreContracts() { ranked > |ContractsOf(groups)| }
  }

  function Reasons(o: Offer, omitted: seq<string>): seq<Reason> {
    (if omitted != [] then [ResponseByteLimit] else [])
    + (if o.beyond > 0 || o.MoreContracts() then [CandidateLimit] else [])
    + (if o.coarse > 0 then [CoarseView] else [])
  }

  /** `None` where the diagnostics model refuses a negative count. */
  function DraftOf(o: Offer, bundles: seq<Bundle>, accepted: nat, omitted: seq<string>): Option<Draft> {
    if o.ranked < |bundles| || o.Candidates() < accepted then None
    else Some(Draft(bundles, o.ranked, o.Candidates(), accepted, o.Candidates() - accepted, o.ranked - |bundles|,
                    Reasons(o, omitted), Take(omitted, 8),
                    |omitted| <= 8 && o.coarse == 0 && o.beyond == 0 && !o.MoreContracts()))
  }

  function KeyOf(g: Bundle): string
    requires g.matches != []
  {
    g.contract + "/" + g.matches[0].node.id
  }

  function Keys(groups: seq<Bundle>): (r: seq<string>)
    requires forall i :: 0 <= i < |groups| ==> groups[i].matches != []
    ensures |r| == |groups| && forall i :: 0 <= i < |r| ==> r[i] == KeyOf(groups[i])
  {
    if groups == [] then [] else Keys(groups[..|groups| - 1]) + [KeyOf(groups[|groups| - 1])]
  }

  /** `len(json.dumps(value))` with ASCII escapes. */
  function EscapedLength(s: string): nat {
    if s == [] then 2 else EscapedLength(s[..|s| - 1]) + EscapedChar(s[|s| - 1])
  }

  function EscapedChar(c: char): nat {
    if c == '"' || c == '\\' || c == '\n' || c == '\r' || c == '\t' || c as int == 8 || c as int == 12 then 2
    else if 0x20 <= c as int < 0x7f then 1
    else if c as int < 0x1_0000 then 6
    else 12
  }

  function KeyLength(key: string): real { EscapedLength(key) as real }

  /** The eight longest keys: the sample assumed while groups are tried. */
  function Reserve(keys: seq<string>): seq<string> {
    Take(Sort(keys, KeyLength), 8)
  }

  // ---- admission -----------------------------------------------------------------------------------------------

  ghost predicate OfferOk(o: Offer) {
    AllOk(o.groups) && forall i :: 0 <= i < |o.groups| ==> o.groups[i].matches != []
  }

  /** `build`: a page that records its own size. */
  function PageFor(o: Offer, bundles: seq<Bundle>, accepted: nat, omitted: seq<string>, weigh: Weigh): Option<Page> {
    var draft := DraftOf(o, bundles, accepted, omitted);
    if draft.None? then None else Some(Page(draft.value, Recorded(weigh(draft.value), 3)))
  }

  method Build(o: Offer, bundles: seq<Bundle>, accepted: nat, omitted: seq<string>, weigh: Weigh) returns (p: Option<Page>)
    ensures p == PageFor(o, bundles, accepted, omitted, weigh)
    ensures p.Some? ==> EncodedBytes(weigh, p.value) == p.value.responseBytes
  {
    var draft := DraftOf(o, bundles, accepted, omitted);
    if draft.None? {
      return None;
    }
    var page := RecordSize(draft.value, weigh);
    p := Some(page);
  }

  /** The bundles after deciding on the first groups as `mask` says. */
  ghost function Admitted(o: Offer, mask: seq<bool>): (r: seq<Bundle>)
    requires OfferOk(o) && |mask| <= |o.groups|
    ensures OneEach(r)
  {
    if mask == [] then []
    else
      var n := |mask| - 1;
      if mask[n] then Merged(Admitted(o, mask[..n]), o.groups[n]) else Admitted(o, mask[..n])
  }

  ghost function OmittedKeys(o: Offer, mask: seq<bool>): seq<string>
    requires OfferOk(o) && |mask| <= |o.groups|
  {
    if mask == [] then []
    else
      var n := |mask| - 1;
      if mask[n] then OmittedKeys(o, mask[..n]) else OmittedKeys(o, mask[..n]) + [KeyOf(o.groups[n])]
  }

  lemma AdmitSnoc(o: Offer, mask: seq<bool>, taken: bool)
    requires OfferOk(o) && |mask| < |o.groups|
    ensures Admitted(o, mask + [taken]) == if taken then Merged(Admitted(o, mask), o.groups[|mask|]) else Admitted(o, mask)
    ensures OmittedKeys(o, mask + [taken])
         == if taken then OmittedKeys(o, mask) else OmittedKeys(o, mask) + [KeyOf(o.groups[|mask|])]
    ensures Count(mask + [taken]) == Count(mask) + if taken then 1 else 0
  {
    assert (mask + [taken])[..|mask|] == mask;
  }

  /** The page with one more group, as if the longest keys were omitted. */
  ghost function TrialPage(o: Offer, weigh: Weigh, bundles: seq<Bundle>, accepted: nat, n: nat): Option<Page>
    requires OfferOk(o) && OneEach(bundles) && n < |o.groups|
  {
    PageFor(o, Merged(bundles, o.groups[n]), accepted + 1, Reserve(Keys(o.groups)), weigh)
  }

  /** The next group fits when merged whole into what was admitted before it. */
  ghost predicate Fits(o: Offer, weigh: Weigh, mask: seq<bool>)
    requires OfferOk(o) && |mask| < |o.groups|
  {
    var trial := TrialPage(o, weigh, Admitted(o, mask), Count(mask), |mask|);
    trial.Some? && EncodedBytes(weigh, trial.value) <= COMPACT_RESPONSE_BYTES
  }

  ghost predicate Greedy(o: Offer, weigh: Weigh, mask: seq<bool>)
    requires OfferOk(o) && |mask| <= |o.groups|
  {
    mask == [] || (var n := |mask| - 1; (mask[n] <==> Fits(o, weigh, mask[..n])) && Greedy(o, weigh, mask[..n]))
  }

  lemma GreedySnoc(o: Offer, weigh: Weigh, mask: seq<bool>, taken: bool)
    requires OfferOk(o) && |mask| < |o.groups| && Greedy(o, weigh, mask)
    requires taken <==> Fits(o, weigh, mask)
    ensures Greedy(o, weigh, mask + [taken])
  {
    assert (mask + [taken])[..|mask|] == mask;
  }

  lemma {:induction false} AdmittedContracts(o: Offer, mask: seq<bool>)
    requires OfferOk(o) && |mask| <= |o.groups|
    ensures ContractsOf(Admitted(o, mask)) <= ContractsOf(o.groups)
  {
    if mask != [] {
      var n := |mask| - 1;
      AdmittedContracts(o, mask[..n]);
      assert o.groups[n].contract in ContractsOf(o.groups);
      if mask[n] {
        MergedContracts(Admitted(o, mask[..n]), o.groups[n]);
      }
    }
  }

  lemma {:induction false} CountBounded(mask: seq<bool>)
    ensures Count(mask) <= |mask|
  {
    if mask != [] {
      CountBounded(mask[..|mask| - 1]);
    }
  }

  lemma EnoughRanked(o: Offer, mask: seq<bool>)
    requires OfferOk(o) && |mask| <= |o.groups| && |ContractsOf(o.groups)| <= o.ranked
    ensures |Admitted(o, mask)| <= o.ranked && Count(mask) <= |mask|
  {
    AdmittedContracts(o, mask);
    DistinctContracts(Admitted(o, mask));
    SubsetSize(ContractsOf(Admitted(o, mask)), ContractsOf(o.groups));
    CountBounded(mask);
  }

  lemma {:induction false} SubsetSize(a: set<string>, b: set<string>)
    requires a <= b
    ensures |a| <= |b|
  {
    assert b == a + (b - a);
  }

  datatype SealResult = Sealed(page: Page) | Invalid | TooLarge

  /** What the diagnostics say about what was left out. */
  ghost predicate Diagnosed(o: Offer, omitted: seq<string>, d: Draft) {
    && d.ranked == o.ranked == |d.bundles| + d.omittedContracts
    && (ResponseByteLimit in d.reasons <==> omitted != [])
    && (CandidateLimit in d.reasons <==> o.beyond > 0 || o.ranked > |ContractsOf(o.groups)|)
    && (CoarseView in d.reasons <==> o.coarse > 0)
    && (d.sampleComplete <==> d.sample == omitted && o.coarse == 0 && o.beyond == 0 && o.ranked <= |ContractsOf(o.groups)|)
  }

  lemma DraftDiagnosed(o: Offer, bundles: seq<Bundle>, accepted: nat, omitted: seq<string>)
    requires DraftOf(o, bundles, accepted, omitted).Some?
    ensures Diagnosed(o, omitted, DraftOf(o, bundles, accepted, omitted).value)
  {
  }

  /** A sealed page for the offer: `mask` says which groups were admitted. */
  ghost predicate SealedFor(o: Offer, weigh: Weigh, mask: seq<bool>, p: Page)
    requires OfferOk(o)
  {
    && |mask| == |o.groups| && Greedy(o, weigh, mask)
    && p.draft.bundles == Admitted(o, mask)
    && p.draft.returned == Count(mask) && p.draft.returned + p.draft.omitted == o.Candidates() == p.draft.candidates
    && p.draft.sample == Take(OmittedKeys(o, mask), 8) && Diagnosed(o, OmittedKeys(o, mask), p.draft)
    && p.responseBytes == EncodedBytes(weigh, p) <= COMPACT_RESPONSE_BYTES
  }

  /** After the decisions of `mask`. */
  ghost predicate Deciding(o: Offer, weigh: Weigh, mask: seq<bool>, bundles: seq<Bundle>, accepted: nat, omitted: seq<string>)
    requires OfferOk(o)
  {
    && |mask| <= |o.groups| && Greedy(o, weigh, mask)
    && bundles == Admitted(o, mask) && accepted == Count(mask) && omitted == OmittedKeys(o, mask)
  }

  lemma DecideStep(o: Offer, weigh: Weigh, mask: seq<bool>, bundles: seq<Bundle>, accepted: nat, omitted: seq<string>, taken: bool)
    requires OfferOk(o) && |mask| < |o.groups| && Deciding(o, weigh, mask, bundles, accepted, omitted)
    requires taken <==> Fits(o, weigh, mask)
    ensures taken ==> Deciding(o, weigh, mask + [true], Merged(bundles, o.groups[|mask|]), accepted + 1, omitted)
    ensures !taken ==> Deciding(o, weigh, mask + [false], bundles, accepted, omitted + [KeyOf(o.groups[|mask|])])
  {
    AdmitSnoc(o, mask, taken);
    GreedySnoc(o, weigh, mask, taken);
  }

  /** No negative count can arise when every contract of the groups was ranked. */
  lemma BuildValid(o: Offer, mask: seq<bool>, omitted: seq<string>)
    requires OfferOk(o) && |mask| <= |o.groups| && |ContractsOf(o.groups)| <= o.ranked
    ensures DraftOf(o, Admitted(o, mask), Count(mask), omitted).Some?
  {
    EnoughRanked(o, mask);
  }

  lemma TrialValid(o: Offer, weigh: Weigh, mask: seq<bool>)
    requires OfferOk(o) && |mask| < |o.groups| && |ContractsOf(o.groups)| <= o.ranked
    ensures TrialPage(o, weigh, Admitted(o, mask), Count(mask), |mask|).Some?
  {
    AdmitSnoc(o, mask, true);
    BuildValid(o, mask + [true], Reserve(Keys(o.groups)));
  }

  method Try(o: Offer, weigh: Weigh, reserve: seq<string>, n: nat, bundles: seq<Bundle>, accepted: nat)
    returns (proposed: seq<Bundle>, trial: Option<Page>)
    requires OfferOk(o) && OneEach(bundles) && n < |o.groups| && reserve == Reserve(Keys(o.groups))
    ensures proposed == Merged(bundles, o.groups[n]) && trial == TrialPage(o, weigh, bundles, accepted, n)
  {
    proposed := Merge(bundles, o.groups[n]);
    trial := Build(o, proposed, accepted + 1, reserve, weigh);
  }

  /** One group: admitted whole, or omitted. */
  method Decide(o: Offer, weigh: Weigh, reserve: seq<string>, n: nat, ghost mask: seq<bool>,
                bundles: seq<Bundle>, accepted: nat, omitted: seq<string>)
    returns (valid: bool, bundles': seq<Bundle>, accepted': nat, omitted': seq<string>, ghost mask': seq<bool>)
    requires OfferOk(o) && |mask| == n < |o.groups| && Deciding(o, weigh, mask, bundles, accepted, omitted)
    requires reserve == Reserve(Keys(o.groups))
    ensures valid ==> Deciding(o, weigh, mask', bundles', accepted', omitted') && |mask'| == n + 1
    ensures |ContractsOf(o.groups)| <= o.ranked ==> valid
  {
    bundles', accepted', omitted', mask' := bundles, accepted, omitted, mask;
    var proposed, trial := Try(o, weigh, reserve, n, bundles, accepted);
    if |ContractsOf(o.groups)| <= o.ranked {
      TrialValid(o, weigh, mask);
    }
    if trial.None? {
      return false, bundles, accepted, omitted, mask;
    }
    valid := true;
    if EncodedBytes(weigh, trial.value) > COMPACT_RESPONSE_BYTES {
      DecideStep(o, weigh, mask, bundles, accepted, omitted, false);
      omitted' := omitted + [KeyOf(o.groups[n])];
      mask' := mask + [false];
    } else {
      DecideStep(o, weigh, mask, bundles, accepted, omitted, true);
      bundles' := proposed;
      accepted' := accepted + 1;
      mask' := mask + [true];
    }
  }

  /** The page after all decisions, whatever its size. */
  ghost function FinalPage(o: Offer, weigh: Weigh, mask: seq<bool>): Option<Page>
    requires OfferOk(o) && |mask| == |o.groups|
  {
    PageFor(o, Admitted(o, mask), Count(mask), OmittedKeys(o, mask), weigh)
  }

  lemma Finished(o: Offer, weigh: Weigh, mask: seq<bool>)
    requires OfferOk(o) && |mask| == |o.groups| && Greedy(o, weigh, mask)
    ensures var p := FinalPage(o, weigh, mask);
      p.Some? && p.value.responseBytes == EncodedBytes(weigh, p.value) <= COMPACT_RESPONSE_BYTES
      ==> SealedFor(o, weigh, mask, p.value)
  {
    var bundles, accepted, omitted := Admitted(o, mask), Count(mask), OmittedKeys(o, mask);
    if DraftOf(o, bundles, accepted, omitted).Some? {
      DraftDiagnosed(o, bundles, accepted, omitted);
    }
  }

  /** `seal_compact_page`. The final page is sealed exactly when its encoded size is within the limit,
      and refused as too large otherwise, whether its metadata alone or a sample that has become
      incomplete is to blame; an offer with fewer ranked contracts than bundles is invalid. */
  method Seal(o: Offer, weigh: Weigh) returns (r: SealResult, ghost mask: seq<bool>)
    requires OfferOk(o)
    ensures |ContractsOf(o.groups)| <= o.ranked ==> !r.Invalid?
    ensures !r.Invalid? ==>
      && |mask| == |o.groups| && Greedy(o, weigh, mask) && FinalPage(o, weigh, mask).Some?
      && (r.TooLarge? <==> EncodedBytes(weigh, FinalPage(o, weigh, mask).value) > COMPACT_RESPONSE_BYTES)
    ensures r.Sealed? ==> Some(r.page) == FinalPage(o, weigh, mask) && SealedFor(o, weigh, mask, r.page)
  {
    mask := [];
    var bundles: seq<Bundle> := [];
    var accepted := 0;
    var omitted: seq<string> := [];
    var reserve := Reserve(Keys(o.groups));
    var valid := true;
    var n := 0;
    while n < |o.groups|
      invariant 0 <= n <= |o.groups| && |mask| == n && Deciding(o, weigh, mask, bundles, accepted, omitted)
    {
      valid, bundles, accepted, omitted, mask := Decide(o, weigh, reserve, n, mask, bundles, accepted, omitted);
      if !valid {
        return Invalid, mask;
      }
      n := n + 1;
    }
    if |ContractsOf(o.groups)| <= o.ranked {
      BuildValid(o, mask, omitted);
    }
    Finished(o, weigh, mask);
    var page := Build(o, bundles, accepted, omitted, weigh);
    if page.None? {
      return Invalid, mask;
    }
    if EncodedBytes(weigh, page.value) > COMPACT_RESPONSE_BYTES {
      return TooLarge, mask;
    }
    r := Sealed(page.value);
  }

  // ---- what a sealed page holds ----------------------------------------------------------------------------------

  /** Some admitted group tells this fact under this contract. */
  ghost predicate AdmittedTells(o: Offer, mask: seq<bool>, contract: string, f: Fact)
    requires |mask| <= |o.groups|
  {
    exists i :: 0 <= i < |mask| && mask[i] && o.groups[i].contract == contract && Tells(o.groups[i], f)
  }

  /** The groups of a contract agree on the content that the fact states, if it states any. */
  ghost predicate Agreed(o: Offer, n: nat, contract: string, f: Fact)
    requires n <= |o.groups|
  {
    forall i :: 0 <= i < n && o.groups[i].contract == contract ==> Undisputed(o.groups[i], f)
  }

  /** Admission is all or nothing: the page holds every node, link and match of every admitted group
      under its contract, and the content of its nodes where the groups agree on it; it holds nothing
      that no admitted group had. */
  lemma {:induction false} AllOrNothing(o: Offer, mask: seq<bool>, contract: string, f: Fact)
    requires OfferOk(o) && |mask| <= |o.groups|
    ensures Shows(Admitted(o, mask), contract, f) ==> AdmittedTells(o, mask, contract, f)
    ensures Agreed(o, |mask|, contract, f) && AdmittedTells(o, mask, contract, f) ==> Shows(Admitted(o, mask), contract, f)
    ensures !f.BodyFact? ==> Agreed(o, |mask|, contract, f)
  {
    if mask != [] {
      var n := |mask| - 1;
      AllOrNothing(o, mask[..n], contract, f);
      if Shows(Admitted(o, mask), contract, f) {
        ShownIsAdmitted(o, mask, contract, f);
      }
    }
    if Agreed(o, |mask|, contract, f) && AdmittedTells(o, mask, contract, f) {
      var i :| 0 <= i < |mask| && mask[i] && o.groups[i].contract == contract && Tells(o.groups[i], f);
      AdmittedIsShown(o, mask, i, f);
    }
  }

  lemma TellsStays(o: Offer, mask: seq<bool>, contract: string, f: Fact)
    requires 0 < |mask| <= |o.groups|
    requires
      || AdmittedTells(o, mask[..|mask| - 1], contract, f)
      || (mask[|mask| - 1] && o.groups[|mask| - 1].contract == contract && Tells(o.groups[|mask| - 1], f))
    ensures AdmittedTells(o, mask, contract, f)
  {
    var m := mask[..|mask| - 1];
    if AdmittedTells(o, m, contract, f) {
      var i :| 0 <= i < |m| && m[i] && o.groups[i].contract == contract && Tells(o.groups[i], f);
      assert mask[i];
    }
  }

  lemma ShownIsAdmitted(o: Offer, mask: seq<bool>, contract: string, f: Fact)
    requires OfferOk(o) && 0 < |mask| <= |o.groups| && Shows(Admitted(o, mask), contract, f)
    requires var m := mask[..|mask| - 1]; Shows(Admitted(o, m), contract, f) ==> AdmittedTells(o, m, contract, f)
    ensures AdmittedTells(o, mask, contract, f)
  {
    var n := |mask| - 1;
    if mask[n] {
      MergedShowsOnly(Admitted(o, mask[..n]), o.groups[n], contract, f);
    }
    TellsStays(o, mask, contract, f);
  }

  lemma ShownStays(o: Offer, mask: seq<bool>, contract: string, f: Fact)
    requires OfferOk(o) && 0 < |mask| <= |o.groups| && Agreed(o, |mask|, contract, f)
    requires Shows(Admitted(o, mask[..|mask| - 1]), contract, f)
    ensures Shows(Admitted(o, mask), contract, f)
  {
    var n := |mask| - 1;
    if mask[n] {
      MergedShowsAll(Admitted(o, mask[..n]), o.groups[n], contract, f);
    }
  }

  lemma LastShown(o: Offer, mask: seq<bool>, f: Fact)
    requires OfferOk(o) && 0 < |mask| <= |o.groups| && Undisputed(o.groups[|mask| - 1], f)
    requires mask[|mask| - 1] && Tells(o.groups[|mask| - 1], f)
    ensures Shows(Admitted(o, mask), o.groups[|mask| - 1].contract, f)
  {
    var n := |mask| - 1;
    MergedShowsAll(Admitted(o, mask[..n]), o.groups[n], o.groups[n].contract, f);
  }

  lemma {:induction false} AdmittedIsShown(o: Offer, mask: seq<bool>, i: nat, f: Fact)
    requires OfferOk(o) && i < |mask| <= |o.groups| && mask[i] && Tells(o.groups[i], f)
    requires Agreed(o, |mask|, o.groups[i].contract, f)
    ensures Shows(Admitted(o, mask), o.groups[i].contract, f)
  {
    var n := |mask| - 1;
    if i < n {
      AdmittedIsShown(o, mask[..n], i, f);
      ShownStays(o, mask, o.groups[i].contract, f);
    } else {
      LastShown(o, mask, f);
    }
  }

  /** Each group is admitted or its key is listed as omitted, and the counts add up. */
  lemma {:induction false} NothingVanishes(o: Offer, mask: seq<bool>)
    requires OfferOk(o) && |mask| <= |o.groups|
    ensures Count(mask) + |OmittedKeys(o, mask)| == |mask|
    ensures forall i :: 0 <= i < |mask| && !mask[i] ==> KeyOf(o.groups[i]) in OmittedKeys(o, mask)
  {
    if mask != [] {
      NothingVanishes(o, mask[..|mask| - 1]);
    }
  }

  // ---- the reserved sample ---------------------------------------------------------------------------------------

  /** The mask of the first `k` omitted groups. */
  ghost function FirstOmitted(mask: seq<bool>, k: nat): (r: seq<bool>)
    ensures |r| == |mask|
  {
    if mask == [] then []
    else
      var n := |mask| - 1;
      FirstOmitted(mask[..n], k) + [!mask[n] && n - Count(mask[..n]) < k]
  }

  lemma {:induction false} SampleCount(o: Offer, mask: seq<bool>, k: nat)
    requires OfferOk(o) && |mask| <= |o.groups|
    ensures Count(FirstOmitted(mask, k)) <= k
  {
    if mask != [] {
      var n := |mask| - 1;
      SampleCount(o, mask[..n], k);
      NothingVanishes(o, mask[..n]);
      SampleSize(mask[..n], k);
      FirstOmittedSnoc(mask, k);
    }
  }

  lemma FirstOmittedSnoc(mask: seq<bool>, k: nat)
    requires mask != []
    ensures var n := |mask| - 1;
      Count(FirstOmitted(mask, k)) == Count(FirstOmitted(mask[..n], k)) + if !mask[n] && n - Count(mask[..n]) < k then 1 else 0
  {
    var n := |mask| - 1;
    assert FirstOmitted(mask, k)[..n] == FirstOmitted(mask[..n], k);
  }

  lemma {:induction false} SampleSize(mask: seq<bool>, k: nat)
    ensures Count(FirstOmitted(mask, k)) <= |mask| - Count(mask)
  {
    if mask != [] {
      SampleSize(mask[..|mask| - 1], k);
      FirstOmittedSnoc(mask, k);
    }
  }

  lemma {:induction false} SampleChosen(o: Offer, mask: seq<bool>, k: nat)
    requires OfferOk(o) && |mask| <= |o.groups|
    ensures Sum(Take(OmittedKeys(o, mask), k), KeyLength)
         == Chosen(Keys(o.groups[..|mask|]), FirstOmitted(mask, k), KeyLength)
  {
    if mask == [] {
      assert o.groups[..0] == [];
    } else {
      var n := |mask| - 1;
      SampleChosen(o, mask[..n], k);
      SampleChosenStep(o, mask, k);
    }
  }

  lemma SampleChosenStep(o: Offer, mask: seq<bool>, k: nat)
    requires OfferOk(o) && 0 < |mask| <= |o.groups|
    ensures var n := |mask| - 1;
            var listed := !mask[n] && n - Count(mask[..n]) < k;
            var more := if listed then KeyLength(KeyOf(o.groups[n])) else 0.0;
      && Chosen(Keys(o.groups[..n + 1]), FirstOmitted(mask, k), KeyLength)
         == Chosen(Keys(o.groups[..n]), FirstOmitted(mask[..n], k), KeyLength) + more
      && Sum(Take(OmittedKeys(o, mask), k), KeyLength) == Sum(Take(OmittedKeys(o, mask[..n]), k), KeyLength) + more
  {
    var n := |mask| - 1;
    var m := mask[..n];
    NothingVanishes(o, m);
    assert o.groups[..n + 1][..n] == o.groups[..n];
    assert Keys(o.groups[..n + 1]) == Keys(o.groups[..n]) + [KeyOf(o.groups[n])];
    ChosenSnoc(Keys(o.groups[..n]), FirstOmitted(m, k), KeyOf(o.groups[n]), !mask[n] && n - Count(m) < k, KeyLength);
    SampleStep(OmittedKeys(o, m), KeyOf(o.groups[n]), k);
  }

  lemma SampleStep(keys: seq<string>, key: string, k: nat)
    ensures |keys| < k ==> Take(keys + [key], k) == Take(keys, k) + [key]
    ensures |keys| < k ==> Sum(Take(keys + [key], k), KeyLength) == Sum(Take(keys, k), KeyLength) + KeyLength(key)
    ensures |keys| >= k ==> Take(keys + [key], k) == Take(keys, k)
  {
    if |keys| < k {
      assert (keys + [key])[..|keys|] == keys;
    }
  }

  lemma {:induction false} TopIsSum<T>(s: seq<T>, key: T -> real, k: nat)
    ensures Top(s, key, k) == Sum(Take(s, k), key)
  {
    if k > 0 {
      TopIsSum(s, key, k - 1);
      if k <= |s| {
        assert Take(s, k)[..k - 1] == Take(s, k - 1);
      }
    } else {
      assert Take(s, 0) == [];
    }
  }

  /** The keys reserved while groups are tried are at least as long, together, as those of the
      sample that the sealed page really lists. */
  lemma ReserveCoversSample(o: Offer, mask: seq<bool>)
    requires OfferOk(o) && |mask| == |o.groups|
    ensures Sum(Take(OmittedKeys(o, mask), 8), KeyLength) <= Sum(Reserve(Keys(o.groups)), KeyLength)
  {
    SampleChosen(o, mask, 8);
    SampleCount(o, mask, 8);
    assert o.groups[..|mask|] == o.groups;
    TopDominates(Keys(o.groups), FirstOmitted(mask, 8), KeyLength, 8);
    TopIsSum(Sort(Keys(o.groups), KeyLength), KeyLength, 8);
  }
}
