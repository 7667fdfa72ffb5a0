/** The `year` tag of documentIngest.js and ingestMastra.js:
    `file.match(/\d{4}/)` finds the leftmost run of four ASCII digits in the
    filename, `parseInt` reads it as a decimal number, and a filename without
    such a run is tagged 'unknown'. */
module Years {
  import opened Records

  predicate IsDigit(c: char)
  {
    '0' <= c <= '9'
  }

  predicate AllDigits(s: string)
  {
    forall i :: 0 <= i < |s| ==> IsDigit(s[i])
  }

  function DigitValue(c: char): (d: nat)
    requires IsDigit(c)
    ensures d < 10
  {
    (c as int) - ('0' as int)
  }

  /** `/\d{4}/` matches at position i. */
  predicate FourDigitsAt(s: string, i: nat)
  {
    i + 4 <= |s| && AllDigits(s[i..i + 4])
  }

  /** The leftmost match at or after `from`: the regular-expression search
      tries each start position in turn. */
  function FirstFourDigits(s: string, from: nat): (r: Option<nat>)
    ensures r.Some? ==> from <= r.value && FourDigitsAt(s, r.value)
    ensures forall j :: from <= j && (r.None? || j < r.value) ==> !FourDigitsAt(s, j)
    decreases |s| - from
  {
    if from + 4 > |s| then None
    else if FourDigitsAt(s, from) then Some(from)
    else FirstFourDigits(s, from + 1)
  }

  /** `parseInt` of a string of decimal digits. */
  function DecimalValue(ds: string): nat
    requires AllDigits(ds)
  {
    if ds == [] then 0 else 10 * DecimalValue(ds[..|ds| - 1]) + DigitValue(ds[|ds| - 1])
  }

  function Pow10(k: nat): (p: nat)
    ensures p > 0
  {
    if k == 0 then 1 else 10 * Pow10(k - 1)
  }

  lemma {:induction false} DecimalValueBound(ds: string)
    requires AllDigits(ds)
    ensures DecimalValue(ds) < Pow10(|ds|)
  {
    if ds != [] {
      DecimalValueBound(ds[..|ds| - 1]);
    }
  }

  /** The year tag: the value of the leftmost four-digit run, or Unknown when
      the filename has none. */
  function ExtractYear(filename: string): (y: Year)
    ensures y.Unknown? <==> forall i: nat :: !FourDigitsAt(filename, i)
    ensures y.Year? ==> y.value < 10000
    ensures y.Year? ==> exists i: nat :: FourDigitsAt(filename, i)
                                      && (forall j: nat :: j < i ==> !FourDigitsAt(filename, j))
                                      && y.value == DecimalValue(filename[i..i + 4])
  {
    match FirstFourDigits(filename, 0)
    case None => Unknown
    case Some(i) =>
      DecimalValueBound(filename[i..i + 4]);
      assert Pow10(4) == 10000;
      Year(DecimalValue(filename[i..i + 4]))
  }

  /** Conversely, the leftmost four-digit run determines the tag. */
  lemma ExtractYearLeftmost(filename: string, i: nat)
    requires FourDigitsAt(filename, i)
    requires forall j: nat :: j < i ==> !FourDigitsAt(filename, j)
    ensures ExtractYear(filename) == Year(DecimalValue(filename[i..i + 4]))
  {
    var r := FirstFourDigits(filename, 0);
    assert r.Some? && r.value == i;
  }

  /** The match may sit inside a longer run of digits: only its first four
      count. */
  lemma YearInsideLongerRun()
    ensures ExtractYear("letter12345.pdf") == Year(1234)
  {
    var f := "letter12345.pdf";
    forall j: nat | j < 6
      ensures !FourDigitsAt(f, j)
    {
      assert f[j..j + 4][0] == f[j] && f[j] in f[..6];
      assert f[..6] == "letter";
      assert !IsDigit(f[j]);
    }
    assert FourDigitsAt(f, 6);
    ExtractYearLeftmost(f, 6);
    assert f[6..10] == "1234";
    assert DecimalValue("1234") == 1234 by {
      assert "1234"[..3] == "123" && "123"[..2] == "12" && "12"[..1] == "1" && "1"[..0] == "";
    }
  }
}
