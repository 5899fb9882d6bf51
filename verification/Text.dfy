/** Character-level helpers shared by the prompt, OCR and packing models. */
module Text {

  /** Number of decimal digits of `n`, as Python's `len(str(n))`. */
  function DecimalLength(n: nat): (r: nat)
    ensures r >= 1
  {
    if n < 10 then 1 else 1 + DecimalLength(n / 10)
  }

  lemma {:induction false} DecimalLengthMonotone(m: nat, n: nat)
    requires m <= n
    ensures DecimalLength(m) <= DecimalLength(n)
  {
    if m >= 10 {
      DecimalLengthMonotone(m / 10, n / 10);
    }
  }

  /** Characters one source character takes inside a JSON string with `ensure_ascii=False`. */
  function JsonCharLength(c: char): (r: nat)
    ensures 1 <= r <= 6
  {
    if c == '"' || c == '\\' || c == '\n' || c == '\r' || c == '\t' || c as int == 8 || c as int == 12 then 2
    else if c as int < 0x20 then 6
    else 1
  }

  function JsonStringLength(s: string): nat {
    if s == [] then 0 else JsonCharLength(s[0]) + JsonStringLength(s[1..])
  }

  /** Python's `str.isspace` for one character. */
  predicate IsSpace(c: char) {
    var n := c as int;
    || 0x09 <= n <= 0x0d || 0x1c <= n <= 0x20 || n == 0x85 || n == 0xa0 || n == 0x1680
    || 0x2000 <= n <= 0x200a || n == 0x2028 || n == 0x2029 || n == 0x202f || n == 0x205f || n == 0x3000
  }

  predicate Blank(s: string) {
    forall i :: 0 <= i < |s| ==> IsSpace(s[i])
  }

  /** The characters of `s` from `from` up to `to` are white space. */
  predicate BlankRange(s: string, from: nat, to: nat)
    requires to <= |s|
  {
    forall i :: from <= i < to ==> IsSpace(s[i])
  }
}
