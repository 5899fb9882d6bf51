/** Page numerals, and the one permitted normalization of an OCR payload. */
module OcrNormalization {
  import opened OcrPages

  // ---- numerals ----------------------------------------------------------------------------------------------------

  function DigitChar(d: nat): (c: char)
    requires d < 10
    ensures IsDigit(c) && DigitValue(c) == d
  {
    ('0' as int + d) as char
  }

  function Decimal(n: nat): string {
    if n < 10 then [DigitChar(n)] else Decimal(n / 10) + [DigitChar(n % 10)]
  }

  lemma DigitBack(c: char)
    requires IsDigit(c)
    ensures DigitValue(c) < 10 && DigitChar(DigitValue(c)) == c
  {
  }

  /** Page numbers and numerals without leading zero correspond one to one. */
  lemma {:induction false} NumeralOfNumber(n: nat)
    requires n >= 1
    ensures IsNumeral(Decimal(n)) && Value(Decimal(n)) == n
  {
    var s := Decimal(n);
    if n >= 10 {
      NumeralOfNumber(n / 10);
      assert s[..|s| - 1] == Decimal(n / 10);
    } else {
      assert s[..0] == [];
    }
  }

  lemma {:induction false} NumberOfNumeral(s: string)
    requires IsNumeral(s)
    ensures Value(s) >= 1 && Decimal(Value(s)) == s
  {
    var n := |s| - 1;
    DigitBack(s[n]);
    assert s == s[..n] + [s[n]];
    if n > 0 {
      NumberOfNumeral(s[..n]);
    } else {
      assert Value(s[..0]) == 0;
    }
  }

  /** The text of each accepted page starts with its marker line. */
  lemma PageStarts(p: string, k: nat)
    requires Headed(p, k)
    ensures var line := HEADING + Decimal(k);
      |line| <= |p| && p[..|line|] == line && (|line| < |p| ==> p[|line|] == '\n')
  {
    var line := MarkerText(p, 0);
    NumberOfNumeral(line[8..]);
    assert line == HEADING + line[8..];
  }

  /** Printed pages start with the first page and a line break. */
  lemma PrintStarts(pages: seq<string>)
    requires pages != []
    ensures var t, p := Print(pages), pages[0];
      |t| > |p| && t[..|p|] == p && t[|p|] == '\n'
  {
    assert Joined(pages)[..|pages[0]|] == pages[0];
  }

  /** The first page starts with the line "## Page 1". */
  lemma FirstPageStarts(p: string)
    requires PageOk(p, 1)
    ensures |p| >= 9 && p[1] == '#' && p[..9] == HEADING + ['1'] && (|p| > 9 ==> p[9] == '\n')
  {
    PageStarts(p, 1);
    assert Decimal(1) == ['1'];
    assert p[1] == p[..9][1];
  }

  lemma AcceptedStarts(t: string, n: nat)
    requires Parse(t, n).Pages?
    ensures n == 0 ==> t == ['\n']
    ensures n > 0 ==> |t| > 9 && t[1] == '#' && t[..9] == HEADING + ['1'] && t[9] == '\n'
  {
    ParseThenPrint(t, n);
    var pages := Parse(t, n).pages;
    if n > 0 {
      var p := pages[0];
      assert PageOk(p, 1 + 0);
      FirstPageStarts(p);
      PrintStarts(pages);
      StartKept(t, p);
    }
  }

  lemma StartKept(t: string, p: string)
    requires 9 <= |p| < |t| && t[..|p|] == p && t[|p|] == '\n' && (|p| > 9 ==> p[9] == '\n')
    ensures t[..9] == p[..9] && t[1] == p[1] && t[9] == '\n'
  {
    assert t[..9] == t[..|p|][..9];
    assert t[1] == t[..|p|][1];
    assert |p| > 9 ==> t[9] == t[..|p|][9];
  }

  // ---- normalization -----------------------------------------------------------------------------------------------

  /** The generated prefix of one issuer. */
  const PREFIX := "# OCR \U{CC98}\U{B9AC} \U{C644}\U{B8CC}\U{BCF8}\n\n"

  datatype Normalized = Exact(text: string) | Stripped(text: string) | Refused(error: OcrError)

  predicate StartsWith(t: string, p: string) {
    |p| <= |t| && t[..|p|] == p
  }

  /** `_normalize_ocr`; a digest is modelled by the payload it was computed from. */
  function Normalize(payload: string, woori: bool, n: nat, expected: string): Normalized {
    if payload != expected then Refused(HashMismatch)
    else
      var exact := Parse(payload, n);
      if exact.Pages? then Exact(payload)
      else if !woori || !StartsWith(payload, PREFIX) then Refused(exact.error)
      else
        var rest := payload[|PREFIX|..];
        if !StartsWith(rest, HEADING + ['1']) then Refused(PrefixNearMatch)
        else
          var parsed := Parse(rest, n);
          if parsed.Pages? then Stripped(rest) else Refused(parsed.error)
  }

  /** A prefixed payload is never canonical itself, whatever follows the prefix. */
  lemma PrefixNeverCanonical(rest: string, n: nat)
    ensures Parse(PREFIX + rest, n).Rejected?
  {
    var t := PREFIX + rest;
    assert t[0] == PREFIX[0] && t[1] == PREFIX[1];
    if Parse(t, n).Pages? {
      AcceptedStarts(t, n);
    }
  }

  /** What was removed and what is kept give the payload back; what is kept is canonical, and is its
      own normalization for every issuer. */
  lemma NormalizedIsCanonical(payload: string, woori: bool, n: nat, expected: string, other: bool)
    requires !Normalize(payload, woori, n, expected).Refused?
    ensures var r := Normalize(payload, woori, n, expected);
      && payload == (if r.Stripped? then PREFIX else []) + r.text
      && (r.Stripped? ==> woori)
      && Parse(r.text, n).Pages?
      && Normalize(r.text, other, n, r.text) == Exact(r.text)
  {
  }

  /** Exactly which payloads are accepted: canonical texts, and for one issuer the generated prefix
      followed by a canonical text of at least one page. */
  lemma AcceptedPayloads(payload: string, woori: bool, n: nat)
    ensures Normalize(payload, woori, n, payload).Exact? <==> Parse(payload, n).Pages?
    ensures Normalize(payload, woori, n, payload).Stripped? <==>
      woori && n > 0 && StartsWith(payload, PREFIX) && Parse(payload[|PREFIX|..], n).Pages?
  {
    if StartsWith(payload, PREFIX) {
      var rest := payload[|PREFIX|..];
      assert payload == PREFIX + rest;
      PrefixNeverCanonical(rest, n);
      if Parse(rest, n).Pages? {
        AcceptedStarts(rest, n);
      }
    }
  }

  /** Without an expected page the rest behind the prefix may be canonical and is refused all the same. */
  lemma NoPageExpected()
    ensures Parse(['\n'], 0).Pages?
    ensures Normalize(PREFIX + ['\n'], true, 0, PREFIX + ['\n']).Refused?
  {
    assert Print([]) == ['\n'];
    PrintThenParse([]);
    PrefixNeverCanonical(['\n'], 0);
    AcceptedPayloads(PREFIX + ['\n'], true, 0);
  }
}
