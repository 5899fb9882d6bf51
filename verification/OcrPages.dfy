/** The canonical OCR page format: a printer, the strict parser, and the one permitted
    normalization. Payloads are decoded text. */
module OcrPages {
  import opened Text

  // ---- lines and page markers ------------------------------------------------------------------------------------

  predicate IsDigit(c: char) { '0' <= c <= '9' }

  /** `[1-9][0-9]*`. */
  predicate IsNumeral(s: string) {
    s != [] && s[0] != '0' && forall i :: 0 <= i < |s| ==> IsDigit(s[i])
  }

  function DigitValue(c: char): nat
    requires IsDigit(c)
  {
    c as int - '0' as int
  }

  function Value(s: string): nat
    requires forall i :: 0 <= i < |s| ==> IsDigit(s[i])
  {
    if s == [] then 0 else 10 * Value(s[..|s| - 1]) + DigitValue(s[|s| - 1])
  }

  const HEADING := "## Page "

  /** A line that the page marker pattern matches. */
  predicate IsMarker(line: string) {
    |line| >= 8 && line[..8] == HEADING && IsNumeral(line[8..])
  }

  datatype Marker = Marker(start: nat, number: nat)

  /** The match of one line that starts at `p`, if any. */
  function MarkerOf(line: string, p: nat): seq<Marker> {
    if IsMarker(line) then [Marker(p, Value(line[8..]))] else []
  }

  /** One more character: it starts a line or extends the last one. */
  function Grow(ls: seq<string>, c: char): (r: seq<string>)
    requires ls != []
    ensures r != []
  {
    if c == '\n' then ls + [[]] else ls[..|ls| - 1] + [ls[|ls| - 1] + [c]]
  }

  /** `text.split("\n")`. */
  function Lines(t: string): (r: seq<string>)
    ensures r != []
  {
    if t == [] then [[]] else Grow(Lines(t[..|t| - 1]), t[|t| - 1])
  }

  /** Characters of some lines, each with its line break. */
  function Width(lines: seq<string>): nat {
    if lines == [] then 0 else Width(lines[..|lines| - 1]) + |lines[|lines| - 1]| + 1
  }

  function MarkersIn(lines: seq<string>, p: nat): seq<Marker> {
    if lines == [] then []
    else
      var n := |lines| - 1;
      MarkersIn(lines[..n], p) + MarkerOf(lines[n], p + Width(lines[..n]))
  }

  /** All matches of the page marker pattern, in order. */
  function Markers(t: string): seq<Marker> { MarkersIn(Lines(t), 0) }

  lemma GrowConcat(x: seq<string>, y: seq<string>, c: char)
    requires y != []
    ensures Grow(x + y, c) == x + Grow(y, c)
  {
    assert (x + y)[..|x + y| - 1] == x + y[..|y| - 1];
  }

  lemma LinesSnoc(t: string, c: char)
    ensures Lines(t + [c]) == Grow(Lines(t), c)
  {
    assert (t + [c])[..|t|] == t;
  }

  lemma {:induction false} LinesJoin(a: string, b: string)
    ensures Lines(a + ['\n'] + b) == Lines(a) + Lines(b)
  {
    if b == [] {
      assert a + ['\n'] + b == a + ['\n'];
      LinesSnoc(a, '\n');
    } else {
      var front, c := b[..|b| - 1], b[|b| - 1];
      LinesJoin(a, front);
      assert a + ['\n'] + b == (a + ['\n'] + front) + [c];
      LinesSnoc(a + ['\n'] + front, c);
      GrowConcat(Lines(a), Lines(front), c);
    }
  }

  lemma {:induction false} LinesOne(line: string)
    requires '\n' !in line
    ensures Lines(line) == [line]
  {
    if line != [] {
      var n := |line| - 1;
      LinesOne(line[..n]);
      assert line[n] in line;
      assert line == line[..n] + [line[n]];
      assert Grow([line[..n]], line[n]) == [line[..n] + [line[n]]];
    }
  }

  lemma GrowWidth(ls: seq<string>, c: char)
    requires ls != []
    ensures Width(Grow(ls, c)) == Width(ls) + 1
  {
    var r := Grow(ls, c);
    assert r[..|r| - 1] == if c == '\n' then ls else ls[..|ls| - 1];
  }

  lemma {:induction false} LinesWidth(t: string)
    ensures Width(Lines(t)) == |t| + 1
  {
    if t != [] {
      LinesWidth(t[..|t| - 1]);
      GrowWidth(Lines(t[..|t| - 1]), t[|t| - 1]);
    } else {
      assert Lines(t)[..0] == [];
    }
  }

  lemma {:induction false} WidthConcat(a: seq<string>, b: seq<string>)
    ensures Width(a + b) == Width(a) + Width(b)
  {
    if b == [] {
      assert a + b == a;
    } else {
      assert (a + b)[..|a + b| - 1] == a + b[..|b| - 1];
      WidthConcat(a, b[..|b| - 1]);
    }
  }

  lemma {:induction false} MarkersConcat(a: seq<string>, b: seq<string>, p: nat)
    ensures MarkersIn(a + b, p) == MarkersIn(a, p) + MarkersIn(b, p + Width(a))
  {
    if b == [] {
      assert a + b == a;
    } else {
      assert (a + b)[..|a + b| - 1] == a + b[..|b| - 1];
      MarkersConcat(a, b[..|b| - 1], p);
      WidthConcat(a, b[..|b| - 1]);
    }
  }

  function Shift(ms: seq<Marker>, n: nat): (r: seq<Marker>)
    ensures |r| == |ms| && forall i :: 0 <= i < |r| ==> r[i] == Marker(ms[i].start + n, ms[i].number)
  {
    seq(|ms|, i requires 0 <= i < |ms| => Marker(ms[i].start + n, ms[i].number))
  }

  lemma MarkerShift(line: string, p: nat, q: nat)
    ensures Shift(MarkerOf(line, q), p) == MarkerOf(line, p + q)
  {
  }

  lemma ShiftConcat(a: seq<Marker>, b: seq<Marker>, n: nat)
    ensures Shift(a + b, n) == Shift(a, n) + Shift(b, n)
  {
  }

  lemma {:induction false} MarkersShift(lines: seq<string>, p: nat)
    ensures MarkersIn(lines, p) == Shift(MarkersIn(lines, 0), p)
  {
    if lines != [] {
      var n := |lines| - 1;
      var w := Width(lines[..n]);
      MarkersShift(lines[..n], p);
      MarkerShift(lines[n], p, w);
      ShiftConcat(MarkersIn(lines[..n], 0), MarkerOf(lines[n], w), p);
    }
  }

  /** Markers of two texts joined by a line break. */
  lemma MarkersJoin(a: string, b: string)
    ensures Markers(a + ['\n'] + b) == Markers(a) + Shift(Markers(b), |a| + 1)
  {
    LinesJoin(a, b);
    LinesWidth(a);
    MarkersAppend(Lines(a), Lines(b));
  }

  lemma MarkersAppend(x: seq<string>, y: seq<string>)
    ensures MarkersIn(x + y, 0) == MarkersIn(x, 0) + Shift(MarkersIn(y, 0), Width(x))
  {
    MarkersConcat(x, y, 0);
    MarkersShift(y, Width(x));
  }

  // ---- stripping --------------------------------------------------------------------------------------------------

  function StripRight(s: string): string {
    if s == [] || !IsSpace(s[|s| - 1]) then s else StripRight(s[..|s| - 1])
  }

  function StripLeft(s: string): string {
    if s == [] || !IsSpace(s[0]) then s else StripLeft(s[1..])
  }

  /** `str.strip`. */
  function Strip(s: string): string { StripRight(StripLeft(s)) }

  predicate Trimmed(s: string) {
    s != [] && !IsSpace(s[0]) && !IsSpace(s[|s| - 1])
  }

  lemma {:induction false} StripRightKeeps(s: string, n: nat)
    requires 0 < n <= |s| && !IsSpace(s[n - 1])
    ensures n <= |StripRight(s)| <= |s| && StripRight(s) == s[..|StripRight(s)|]
    ensures !IsSpace(StripRight(s)[|StripRight(s)| - 1])
  {
    if IsSpace(s[|s| - 1]) {
      StripRightKeeps(s[..|s| - 1], n);
    }
  }

  lemma {:induction false} StripRightDrops(s: string, tail: string)
    requires Trimmed(s) && Blank(tail)
    ensures StripRight(s + tail) == s
  {
    if tail == [] {
      assert s + tail == s;
    } else {
      assert (s + tail)[..|s + tail| - 1] == s + tail[..|tail| - 1];
      StripRightDrops(s, tail[..|tail| - 1]);
    }
  }

  /** Stripping a text that starts with a visible character only cuts white space at its end. */
  lemma StripKeeps(s: string, n: nat)
    requires 0 < n <= |s| && !IsSpace(s[0]) && !IsSpace(s[n - 1])
    ensures n <= |Strip(s)| <= |s| && Strip(s) == s[..|Strip(s)|] && Trimmed(Strip(s))
  {
    StripRightKeeps(s, n);
  }

  lemma StripDrops(s: string, tail: string)
    requires Trimmed(s) && Blank(tail)
    ensures Strip(s + tail) == s
  {
    StripRightDrops(s, tail);
  }

  // ---- printing and parsing ----------------------------------------------------------------------------------------

  /** `"\n\n".join(pages)`. */
  function Joined(pages: seq<string>): string {
    if pages == [] then []
    else if |pages| == 1 then pages[0]
    else pages[0] + ['\n', '\n'] + Joined(pages[1..])
  }

  function Print(pages: seq<string>): string { Joined(pages) + ['\n'] }

  datatype OcrError = Noncanonical | PageCoverage | ShortPage | HashMismatch | PrefixNearMatch

  datatype Parsed = Pages(pages: seq<string>) | Rejected(error: OcrError)

  predicate Clean(t: string) {
    forall i :: 0 <= i < |t| ==> t[i] as int != 0 && t[i] != '\r'
  }

  predicate Counting(ms: seq<Marker>, n: nat) {
    |ms| == n && forall i :: 0 <= i < n ==> ms[i].number == i + 1
  }

  /** Marker starts rise and stay within the text. */
  predicate Rising(ms: seq<Marker>, bound: nat) {
    forall i :: 0 <= i < |ms| ==> ms[i].start <= bound && (i + 1 < |ms| ==> ms[i].start <= ms[i + 1].start)
  }

  function SectionEnd(t: string, ms: seq<Marker>, i: nat): nat
    requires i < |ms|
  {
    if i + 1 < |ms| then ms[i + 1].start else |t|
  }

  /** The stripped text of one marker, up to the next. */
  function SectionAt(t: string, ms: seq<Marker>, i: nat): string
    requires Rising(ms, |t|) && i < |ms|
  {
    Strip(t[ms[i].start..SectionEnd(t, ms, i)])
  }

  /** The stripped texts between markers, from marker `i` on. */
  function Sections(t: string, ms: seq<Marker>, i: nat): (r: seq<string>)
    requires Rising(ms, |t|) && i <= |ms|
    ensures |r| == |ms| - i && forall k :: 0 <= k < |r| ==> r[k] == SectionAt(t, ms, i + k)
    decreases |ms| - i
  {
    if i == |ms| then [] else [SectionAt(t, ms, i)] + Sections(t, ms, i + 1)
  }

  /** `_canonical_ocr_text` on decoded text. */
  function Parse(t: string, n: nat): Parsed {
    if !Clean(t) then Rejected(Noncanonical)
    else
      var ms := Markers(t);
      if !Counting(ms, n) then Rejected(PageCoverage)
      else
        MarkersRise(t);
        var pages := Sections(t, ms, 0);
        if exists i :: 0 <= i < |pages| && |pages[i]| < 20 then Rejected(ShortPage)
        else if t != Print(pages) then Rejected(Noncanonical)
        else Pages(pages)
  }

  // ---- where markers stand -----------------------------------------------------------------------------------------

  lemma {:induction false} WidthRises(lines: seq<string>, j: nat, k: nat)
    requires j <= k <= |lines|
    ensures Width(lines[..j]) + (k - j) <= Width(lines[..k])
  {
    if j < k {
      WidthRises(lines, j, k - 1);
      assert lines[..k][..k - 1] == lines[..k - 1];
    }
  }

  /** Marker `i` belongs to line `k`, and the next marker to a later line. */
  ghost predicate MarkerOnLine(lines: seq<string>, i: nat, k: nat) {
    var ms := MarkersIn(lines, 0);
    && i < |ms| && k < |lines| && IsMarker(lines[k]) && ms[i] == Marker(Width(lines[..k]), Value(lines[k][8..]))
    && (i + 1 < |ms| ==> ms[i + 1].start >= Width(lines[..k + 1]))
  }

  lemma {:induction false} MarkerLine(lines: seq<string>, i: nat) returns (k: nat)
    requires i < |MarkersIn(lines, 0)|
    ensures MarkerOnLine(lines, i, k)
  {
    var n := |lines| - 1;
    var front := lines[..n];
    var before, here := MarkersIn(front, 0), MarkerOf(lines[n], Width(front));
    if i < |before| {
      k := MarkerLine(front, i);
      assert front[..k] == lines[..k] && front[..k + 1] == lines[..k + 1];
      WidthRises(lines, k + 1, n);
    } else {
      k := n;
    }
  }

  /** Line `k` in the text: its characters, and what follows it. */
  ghost predicate LineText(t: string, lines: seq<string>, k: nat) {
    && k < |lines|
    && var o, line := Width(lines[..k]), lines[k];
       && '\n' !in line && o + |line| <= |t| && t[o..o + |line|] == line
       && (o + |line| < |t| ==> t[o + |line|] == '\n')
  }

  lemma {:induction false} LineTextKept(t: string, c: char, lines: seq<string>, more: seq<string>, k: nat)
    requires LineText(t, lines, k) && k < |more| && more[..k] == lines[..k] && more[k] == lines[k]
    requires Width(lines[..k]) + |lines[k]| == |t| ==> c == '\n'
    ensures LineText(t + [c], more, k)
  {
    var o, line := Width(lines[..k]), lines[k];
    assert (t + [c])[o..o + |line|] == t[o..o + |line|];
  }

  lemma {:induction false} LineTextLast(t: string, c: char, lines: seq<string>, k: nat)
    requires LineText(t, lines, k) && k == |lines| - 1 && Width(lines) == |t| + 1 && c != '\n'
    ensures LineText(t + [c], Grow(lines, c), k)
  {
    var o, line := Width(lines[..k]), lines[k];
    var r := Grow(lines, c);
    assert r[..k] == lines[..k] && r[k] == line + [c];
    assert (t + [c])[o..o + |line| + 1] == t[o..o + |line|] + [c];
  }

  lemma {:induction false} LineTextNew(t: string, lines: seq<string>, k: nat)
    requires lines != [] && Width(lines) == |t| + 1 && k <= |lines|
    requires k < |lines| ==> LineText(t, lines, k)
    ensures LineText(t + ['\n'], Grow(lines, '\n'), k)
  {
    var more := Grow(lines, '\n');
    if k < |lines| {
      LineTextKept(t, '\n', lines, more, k);
    } else {
      assert more[..k] == lines;
    }
  }

  /** A character within the last line leaves the lines before it alone. */
  lemma GrowKeeps(lines: seq<string>, c: char, k: nat)
    requires lines != [] && k < |lines| - 1 && c != '\n'
    ensures k < |Grow(lines, c)| && Grow(lines, c)[..k] == lines[..k] && Grow(lines, c)[k] == lines[k]
  {
  }

  /** A line that is not the last ends before the end of the text. */
  lemma LineEndsInside(lines: seq<string>, k: nat)
    requires k + 1 < |lines|
    ensures Width(lines[..k]) + |lines[k]| + 1 < Width(lines)
  {
    WidthRises(lines, k + 1, |lines|);
    assert lines[..k + 1][..k] == lines[..k] && lines[..|lines|] == lines;
  }

  lemma LineTextInner(t: string, c: char, lines: seq<string>, k: nat)
    requires lines != [] && Width(lines) == |t| + 1 && k < |lines| - 1 && LineText(t, lines, k) && c != '\n'
    ensures LineText(t + [c], Grow(lines, c), k)
  {
    GrowKeeps(lines, c, k);
    LineEndsInside(lines, k);
    LineTextKept(t, c, lines, Grow(lines, c), k);
  }

  lemma {:induction false} LinesText(t: string, k: nat)
    requires k < |Lines(t)|
    ensures LineText(t, Lines(t), k)
  {
    if t == [] {
      assert Lines(t)[..0] == [];
    } else {
      var front, c := t[..|t| - 1], t[|t| - 1];
      var ls := Lines(front);
      LinesWidth(front);
      if k < |ls| {
        LinesText(front, k);
      }
      LineTextGrows(front, c, ls, k);
      assert t == front + [c];
    }
  }

  lemma LineTextGrows(t: string, c: char, lines: seq<string>, k: nat)
    requires lines != [] && Width(lines) == |t| + 1 && k < |Grow(lines, c)|
    requires k < |lines| ==> LineText(t, lines, k)
    ensures LineText(t + [c], Grow(lines, c), k)
  {
    if c == '\n' {
      LineTextNew(t, lines, k);
    } else if k < |lines| - 1 {
      LineTextInner(t, c, lines, k);
    } else {
      LineTextLast(t, c, lines, k);
    }
  }

  /** At each marker stands its whole line; the next marker starts behind it. */
  lemma {:induction false} MarkerText(t: string, i: nat) returns (line: string)
    requires i < |Markers(t)|
    ensures '\n' !in line && IsMarker(line) && Value(line[8..]) == Markers(t)[i].number
    ensures var s := Markers(t)[i].start;
      && s + |line| <= |t| && t[s..s + |line|] == line && (s + |line| < |t| ==> t[s + |line|] == '\n')
      && (i + 1 < |Markers(t)| ==> s + |line| < Markers(t)[i + 1].start)
  {
    var lines := Lines(t);
    var k := MarkerLine(lines, i);
    LinesText(t, k);
    line := lines[k];
    assert lines[..k + 1][..k] == lines[..k];
  }

  lemma MarkersRise(t: string)
    ensures Rising(Markers(t), |t|)
  {
    forall i | 0 <= i < |Markers(t)|
      ensures Markers(t)[i].start <= |t| && (i + 1 < |Markers(t)| ==> Markers(t)[i].start <= Markers(t)[i + 1].start)
    {
      var line := MarkerText(t, i);
    }
  }

  // ---- round trips -------------------------------------------------------------------------------------------------

  /** A page that may be printed as number `k`: one marker line, its first; no white space at its
      ends; at least twenty characters; neither NUL nor CR. */
  predicate PageOk(p: string, k: nat) {
    Markers(p) == [Marker(0, k)] && Trimmed(p) && |p| >= 20 && Clean(p)
  }

  predicate PagesOk(pages: seq<string>, k: nat) {
    forall i :: 0 <= i < |pages| ==> PageOk(pages[i], k + i)
  }

  lemma NoMarkers()
    ensures Markers([]) == []
  {
    var lines := Lines([]);
    assert lines[..0] == [] && |lines| == 1;
    assert MarkerOf(lines[0], 0) == [];
  }

  lemma PrintOne(p: string)
    ensures Markers(Print([p])) == Markers(p) && Print([p]) == p + ['\n']
  {
    assert Print([p]) == p + ['\n'] + [];
    MarkersJoin(p, []);
    NoMarkers();
  }

  lemma PrintText(p: string, rest: seq<string>)
    requires rest != []
    ensures Print([p] + rest) == p + ['\n', '\n'] + Print(rest)
  {
    assert ([p] + rest)[1..] == rest;
  }

  lemma {:induction false} MarkersBreak(p: string, t: string)
    ensures Markers(p + ['\n', '\n'] + t) == Markers(p) + Shift(Markers(t), |p| + 2)
  {
    var tail := [] + ['\n'] + t;
    MarkersJoin(p, tail);
    MarkersEmptyLine(t);
    BreakMarkers(Markers(p), Markers(t), Markers(tail), |p|);
    assert p + ['\n', '\n'] + t == p + ['\n'] + tail;
  }

  lemma BreakMarkers(mp: seq<Marker>, mt: seq<Marker>, tail: seq<Marker>, n: nat)
    requires tail == Shift(mt, 1)
    ensures mp + Shift(tail, n + 1) == mp + Shift(mt, n + 2)
  {
    ShiftTwice(mt, 1, n + 1);
  }

  lemma MarkersEmptyLine(t: string)
    ensures Markers([] + ['\n'] + t) == Shift(Markers(t), 1)
  {
    MarkersJoin([], t);
    NoMarkers();
  }

  lemma ShiftTwice(ms: seq<Marker>, m: nat, n: nat)
    ensures Shift(Shift(ms, m), n) == Shift(ms, m + n)
  {
  }

  lemma PrintMore(p: string, rest: seq<string>)
    requires rest != []
    ensures Markers(Print([p] + rest)) == Markers(p) + Shift(Markers(Print(rest)), |p| + 2)
  {
    PrintText(p, rest);
    MarkersBreak(p, Print(rest));
  }

  ghost predicate ParsesAs(t: string, ms: seq<Marker>, pages: seq<string>, k: nat) {
    && Rising(ms, |t|) && |ms| == |pages|
    && (forall i :: 0 <= i < |ms| ==> ms[i].number == k + i)
    && (forall i :: 0 <= i < |ms| ==> SectionAt(t, ms, i) == pages[i])
  }

  lemma RisingShifted(head: string, t: string, ms: seq<Marker>, k: nat)
    requires Rising(ms, |t|)
    ensures Rising([Marker(0, k)] + Shift(ms, |head|), |head + t|)
  {
    var all := [Marker(0, k)] + Shift(ms, |head|);
    forall i | 0 <= i < |all|
      ensures all[i].start <= |head + t| && (i + 1 < |all| ==> all[i].start <= all[i + 1].start)
    {
      assert i > 0 ==> all[i].start == ms[i - 1].start + |head|;
    }
  }

  lemma SliceShifted(head: string, t: string, a: nat, b: nat)
    requires a <= b <= |t|
    ensures (head + t)[a + |head|..b + |head|] == t[a..b]
  {
  }

  lemma SectionShifted(head: string, t: string, ms: seq<Marker>, k: nat, i: nat)
    requires Rising(ms, |t|) && i < |ms| && Rising([Marker(0, k)] + Shift(ms, |head|), |head + t|)
    ensures SectionAt(head + t, [Marker(0, k)] + Shift(ms, |head|), i + 1) == SectionAt(t, ms, i)
  {
    var a, b, n := ms[i].start, SectionEnd(t, ms, i), |head|;
    var all := [Marker(0, k)] + Shift(ms, n);
    assert all[i + 1].start == a + n && SectionEnd(head + t, all, i + 1) == b + n;
    SliceShifted(head, t, a, b);
  }

  lemma ParsesShifted(head: string, t: string, ms: seq<Marker>, p: string, pages: seq<string>, k: nat)
    requires ParsesAs(t, ms, pages, k + 1) && pages != [] && ms[0].start == 0 && Strip(head) == p
    ensures ParsesAs(head + t, [Marker(0, k)] + Shift(ms, |head|), [p] + pages, k)
  {
    var text, all := head + t, [Marker(0, k)] + Shift(ms, |head|);
    RisingShifted(head, t, ms, k);
    forall i | 0 <= i < |all| ensures SectionAt(text, all, i) == ([p] + pages)[i] {
      if i == 0 {
        assert text[0..|head|] == head;
      } else {
        SectionShifted(head, t, ms, k, i - 1);
      }
    }
  }

  /** Where the markers of printed pages stand. */
  ghost function Starts(pages: seq<string>, k: nat): (ms: seq<Marker>)
    ensures |ms| == |pages| && (pages != [] ==> ms[0] == Marker(0, k))
  {
    if pages == [] then [] else [Marker(0, k)] + Shift(Starts(pages[1..], k + 1), |pages[0]| + 2)
  }

  /** Each page has one marker, its first line, and the numbers rise from `k`. */
  ghost predicate Marked(pages: seq<string>, k: nat) {
    pages == [] || (Markers(pages[0]) == [Marker(0, k)] && Marked(pages[1..], k + 1))
  }

  lemma {:induction false} PagesMarked(pages: seq<string>, k: nat)
    requires PagesOk(pages, k)
    ensures Marked(pages, k)
  {
    if pages != [] {
      assert PageOk(pages[0], k + 0);
      forall i | 0 <= i < |pages[1..]| ensures PageOk(pages[1..][i], k + 1 + i) {
        assert PageOk(pages[i + 1], k + (i + 1));
      }
      PagesMarked(pages[1..], k + 1);
    }
  }

  lemma {:induction false} PrintedMarkers(pages: seq<string>, k: nat)
    requires pages != [] && Marked(pages, k)
    ensures Markers(Print(pages)) == Starts(pages, k)
  {
    var p, rest := pages[0], pages[1..];
    assert pages == [p] + rest;
    if rest == [] {
      PrintOne(p);
    } else {
      PrintedMarkers(rest, k + 1);
      PrintMore(p, rest);
    }
  }

  lemma SectionsOne(p: string, k: nat)
    requires Trimmed(p)
    ensures ParsesAs(Print([p]), Starts([p], k), [p], k)
  {
    StripDrops(p, ['\n']);
    var t := Print([p]);
    assert Starts([p], k) == [Marker(0, k)];
    assert t[0..|t|] == t == p + ['\n'];
  }

  lemma StartsMore(p: string, rest: seq<string>, k: nat)
    ensures Starts([p] + rest, k) == [Marker(0, k)] + Shift(Starts(rest, k + 1), |p| + 2)
  {
    assert ([p] + rest)[1..] == rest;
  }

  lemma SectionsMore(p: string, rest: seq<string>, k: nat)
    requires Trimmed(p) && rest != [] && ParsesAs(Print(rest), Starts(rest, k + 1), rest, k + 1)
    ensures ParsesAs(Print([p] + rest), Starts([p] + rest, k), [p] + rest, k)
  {
    var head, t, ms := p + ['\n', '\n'], Print(rest), Starts(rest, k + 1);
    assert Strip(head) == p by { StripDrops(p, ['\n', '\n']); }
    assert ParsesAs(head + t, [Marker(0, k)] + Shift(ms, |head|), [p] + rest, k) by {
      ParsesShifted(head, t, ms, p, rest, k);
    }
    assert Print([p] + rest) == head + t by { PrintText(p, rest); }
    StartsMore(p, rest, k);
  }

  lemma {:induction false} PrintedSections(pages: seq<string>, k: nat)
    requires pages != [] && forall i :: 0 <= i < |pages| ==> Trimmed(pages[i])
    ensures ParsesAs(Print(pages), Starts(pages, k), pages, k)
  {
    var p, rest := pages[0], pages[1..];
    assert pages == [p] + rest;
    if rest == [] {
      SectionsOne(p, k);
    } else {
      PrintedSections(rest, k + 1);
      SectionsMore(p, rest, k);
    }
  }

  lemma {:induction false} PrintedClean(pages: seq<string>)
    requires forall i :: 0 <= i < |pages| ==> Clean(pages[i])
    ensures Clean(Joined(pages))
  {
    if |pages| > 1 {
      PrintedClean(pages[1..]);
    }
  }

  lemma EmptyPrint()
    ensures Markers(Print([])) == []
  {
    assert Print([]) == [] + ['\n'] + [];
    MarkersJoin([], []);
    NoMarkers();
  }

  lemma PrintCounts(pages: seq<string>)
    requires PagesOk(pages, 1)
    ensures Markers(Print(pages)) == Starts(pages, 1) && ParsesAs(Print(pages), Starts(pages, 1), pages, 1)
  {
    forall i | 0 <= i < |pages| ensures Trimmed(pages[i]) {
      assert PageOk(pages[i], 1 + i);
    }
    if pages == [] {
      EmptyPrint();
    } else {
      PagesMarked(pages, 1);
      PrintedMarkers(pages, 1);
      PrintedSections(pages, 1);
    }
  }

  lemma ParseIs(t: string, ms: seq<Marker>, pages: seq<string>)
    requires Markers(t) == ms && ParsesAs(t, ms, pages, 1) && Clean(t) && t == Print(pages)
    requires forall i :: 0 <= i < |pages| ==> |pages[i]| >= 20
    ensures Parse(t, |pages|) == Pages(pages)
  {
    assert Counting(ms, |pages|);
    assert Sections(t, ms, 0) == pages;
  }

  /** Printing any valid page list and parsing it gives the same pages back. */
  lemma PrintThenParse(pages: seq<string>)
    requires PagesOk(pages, 1)
    ensures Parse(Print(pages), |pages|) == Pages(pages)
  {
    forall i | 0 <= i < |pages| ensures Clean(pages[i]) && |pages[i]| >= 20 {
      assert PageOk(pages[i], 1 + i);
    }
    PrintedClean(pages);
    PrintCounts(pages);
    ParseIs(Print(pages), Starts(pages, 1), pages);
  }

  // ---- accepted texts are printed pages ------------------------------------------------------------------------------

  /** The first line of a page is the marker of its number. */
  ghost predicate Headed(p: string, k: nat) {
    Markers(p) != [] && Markers(p)[0] == Marker(0, k)
  }

  lemma MarkersInOne(line: string)
    ensures MarkersIn([line], 0) == MarkerOf(line, 0)
  {
    var lines := [line];
    assert lines[..0] == [];
    assert MarkersIn(lines[..0], 0) == [];
  }

  lemma MarkersOne(line: string)
    requires '\n' !in line
    ensures Markers(line) == MarkerOf(line, 0)
  {
    LinesOne(line);
    MarkersInOne(line);
  }

  /** `line` is the first line of `p`. */
  predicate FirstLine(line: string, p: string) {
    |line| <= |p| && p[..|line|] == line && (|line| < |p| ==> p[|line|] == '\n')
  }

  lemma {:induction false} LineHeads(line: string, p: string, k: nat)
    requires '\n' !in line && IsMarker(line) && Value(line[8..]) == k
    requires FirstLine(line, p)
    ensures Headed(p, k)
  {
    MarkersOne(line);
    if |line| < |p| {
      assert p == line + ['\n'] + p[|line| + 1..];
      MarkersJoin(line, p[|line| + 1..]);
    } else {
      assert p == line;
    }
  }

  lemma {:induction false} SliceStarts(t: string, s: nat, m: nat, e: nat)
    requires s <= m <= e <= |t|
    ensures t[s..e][..m - s] == t[s..m]
    ensures m < e ==> t[s..e][m - s] == t[m]
  {
    var x, y := t[s..e][..m - s], t[s..m];
    assert |x| == |y| && forall i :: 0 <= i < |x| ==> x[i] == y[i];
  }

  lemma {:induction false} SectionLine(t: string, i: nat, s: nat, e: nat) returns (line: string)
    requires i < |Markers(t)| && s == Markers(t)[i].start && e == SectionEnd(t, Markers(t), i) && s <= e <= |t|
    ensures '\n' !in line && IsMarker(line) && Value(line[8..]) == Markers(t)[i].number
    ensures FirstLine(line, t[s..e])
  {
    line := MarkerText(t, i);
    SliceStarts(t, s, s + |line|, e);
  }

  /** A marker line at the start of a section is still there after stripping. */
  lemma {:induction false} LineStays(line: string, section: string)
    requires IsMarker(line) && FirstLine(line, section)
    ensures FirstLine(line, Strip(section)) && Trimmed(Strip(section))
  {
    var n := |line|;
    assert line[n - 1] == line[8..][n - 9] && section[n - 1] == line[n - 1] && section[0] == line[0] == HEADING[0];
    StripKeeps(section, n);
    assert Strip(section)[..n] == section[..n];
  }

  /** Each parsed section is headed by its marker and has no white space at its ends. */
  lemma {:induction false} SectionHeaded(t: string, i: nat)
    requires i < |Markers(t)| && Rising(Markers(t), |t|)
    ensures var p := SectionAt(t, Markers(t), i);
      Headed(p, Markers(t)[i].number) && Trimmed(p)
  {
    var s, e := Markers(t)[i].start, SectionEnd(t, Markers(t), i);
    var line := SectionLine(t, i, s, e);
    LineStays(line, t[s..e]);
    LineHeads(line, Strip(t[s..e]), Markers(t)[i].number);
  }

  function MarkerTotal(pages: seq<string>): nat {
    if pages == [] then 0 else |Markers(pages[0])| + MarkerTotal(pages[1..])
  }

  lemma {:induction false} PrintedTotal(pages: seq<string>)
    ensures |Markers(Print(pages))| == MarkerTotal(pages)
  {
    if pages == [] {
      EmptyPrint();
    } else {
      assert pages == [pages[0]] + pages[1..];
      if |pages| == 1 {
        PrintOne(pages[0]);
      } else {
        PrintedTotal(pages[1..]);
        PrintMore(pages[0], pages[1..]);
      }
    }
  }

  lemma {:induction false} OneMarkerEach(pages: seq<string>)
    requires forall i :: 0 <= i < |pages| ==> |Markers(pages[i])| >= 1
    ensures MarkerTotal(pages) >= |pages|
    ensures MarkerTotal(pages) == |pages| ==> forall i :: 0 <= i < |pages| ==> |Markers(pages[i])| == 1
  {
    if pages != [] {
      OneMarkerEach(pages[1..]);
      if MarkerTotal(pages) == |pages| {
        forall i | 0 <= i < |pages| ensures |Markers(pages[i])| == 1 {
          if i > 0 { assert pages[i] == pages[1..][i - 1]; }
        }
      }
    }
  }

  lemma {:induction false} JoinedClean(pages: seq<string>, i: nat)
    requires Clean(Joined(pages)) && i < |pages|
    ensures Clean(pages[i])
  {
    var t := Joined(pages);
    if |pages| > 1 {
      var p, rest := pages[0], Joined(pages[1..]);
      assert t == p + ['\n', '\n'] + rest;
      assert forall k :: 0 <= k < |p| ==> p[k] == t[k];
      assert forall k :: 0 <= k < |rest| ==> rest[k] == t[|p| + 2 + k];
      if i > 0 {
        JoinedClean(pages[1..], i - 1);
      }
    }
  }

  /** Every accepted text is the print of its parsed pages, and those pages are valid. */
  lemma ParseThenPrint(t: string, n: nat)
    requires Parse(t, n).Pages?
    ensures var pages := Parse(t, n).pages; |pages| == n && PagesOk(pages, 1) && Print(pages) == t
  {
    var ms, pages := Markers(t), Parse(t, n).pages;
    MarkersRise(t);
    assert pages == Sections(t, ms, 0);
    forall i | 0 <= i < n ensures Headed(pages[i], i + 1) && Trimmed(pages[i]) {
      SectionHeaded(t, i);
    }
    PrintedTotal(pages);
    OneMarkerEach(pages);
    var joined := Joined(pages);
    assert forall k :: 0 <= k < |joined| ==> joined[k] == t[k];
    forall i | 0 <= i < n ensures PageOk(pages[i], 1 + i) {
      JoinedClean(pages, i);
      assert Headed(pages[i], i + 1);
    }
  }
}
