/** JavaScript strings as the program sees them: sequences of UTF-16 code units, so that
    `length`, `slice` and `charCodeAt` mean the same here as in the source. */
module JsStrings {
  type CodeUnit = c: int | 0 <= c <= 0xFFFF
  type JsString = seq<CodeUnit>

  /** The JavaScript string with the same code units as an (ASCII or BMP) literal. */
  function Lit(s: string): (r: JsString)
    requires forall k :: 0 <= k < |s| ==> s[k] as int <= 0xFFFF
    ensures |r| == |s| && forall k :: 0 <= k < |s| ==> r[k] == s[k] as int
  {
    seq(|s|, k requires 0 <= k < |s| => s[k] as int)
  }

  /** `s.slice(0, n)` for a non-negative `n`. */
  function SliceTo(s: JsString, n: nat): (r: JsString)
    ensures r <= s && |r| == if |s| <= n then |s| else n
  {
    if |s| <= n then s else s[..n]
  }

  predicate IsDigit(c: CodeUnit) {
    48 <= c <= 57
  }

  lemma DigitsAre(c: CodeUnit)
    ensures IsDigit(c) <==> c in Lit("0123456789")
  {
    var all := Lit("0123456789");
    assert all == [48, 49, 50, 51, 52, 53, 54, 55, 56, 57];
  }

  predicate AllDigits(s: JsString) {
    forall k :: 0 <= k < |s| ==> IsDigit(s[k])
  }

  /** Decimal printing of a non-negative integer, as in a template literal. */
  function PrintDecimal(n: nat): (s: JsString)
    ensures |s| >= 1 && AllDigits(s)
  {
    if n < 10 then [48 + n] else PrintDecimal(n / 10) + [48 + n % 10]
  }

  /** `parseInt` on a string of decimal digits. */
  function ParseDecimal(s: JsString): nat
    requires AllDigits(s)
  {
    if s == [] then 0 else ParseDecimal(s[..|s| - 1]) * 10 + (s[|s| - 1] - 48)
  }

  /** Numerals are decimal, the highest digit first. */
  lemma Numerals()
    ensures ParseDecimal(Lit("1203")) == 1203 && PrintDecimal(1203) == Lit("1203")
  {
    var s := Lit("1203");
    assert s == [49, 50, 48, 51];
    assert s[..3] == [49, 50, 48] && [49, 50, 48][..2] == [49, 50] && [49, 50][..1] == [49] && [49][..0] == [];
    ParsePrint(1203);
    assert PrintDecimal(1) == [49] && PrintDecimal(12) == [49, 50] && PrintDecimal(120) == [49, 50, 48];
  }

  lemma {:induction false} ParsePrint(n: nat)
    ensures ParseDecimal(PrintDecimal(n)) == n
  {
    if n < 10 {
      assert [48 + n][..0] == [];
    } else {
      ParsePrint(n / 10);
      var p := PrintDecimal(n / 10);
      assert (p + [48 + n % 10])[..|p|] == p;
    }
  }
}
