/** Decimal numerals in file names: the digits Python writes for a
    non-negative integer (f"{n}") and reads back (int(...) and the regular
    expression class \d), restricted to the ASCII digits '0'..'9'. */
module Decimal {
  predicate IsDigit(c: char) { '0' <= c <= '9' }

  predicate AllDigits(s: string) { forall i :: 0 <= i < |s| ==> IsDigit(s[i]) }

  function DigitValue(c: char): nat
    requires IsDigit(c)
  {
    (c as int) - ('0' as int)
  }

  function DigitChar(d: nat): (c: char)
    requires d < 10
    ensures IsDigit(c) && DigitValue(c) == d
  {
    (('0' as int) + d) as char
  }

  /** The value of a numeral, most significant digit first (leading zeros allowed). */
  function Value(s: string): nat
    requires AllDigits(s)
  {
    if s == [] then 0 else Value(s[..|s| - 1]) * 10 + DigitValue(s[|s| - 1])
  }

  /** str(n): the shortest numeral of n. */
  function Render(n: nat): string
    decreases n
  {
    if n < 10 then [DigitChar(n)] else Render(n / 10) + [DigitChar(n % 10)]
  }

  /** A rendered number is a non-empty numeral that reads back as the number. */
  lemma {:induction false} RenderValue(n: nat)
    ensures |Render(n)| >= 1 && AllDigits(Render(n))
    ensures Value(Render(n)) == n
    decreases n
  {
    if n >= 10 {
      RenderValue(n / 10);
      var s := Render(n);
      assert s[..|s| - 1] == Render(n / 10);
    }
  }

  /** The length of the run of digits a string starts with. */
  function DigitRun(s: string): (r: nat)
    ensures r <= |s| && AllDigits(s[..r]) && (r < |s| ==> !IsDigit(s[r]))
  {
    if s == [] || !IsDigit(s[0]) then 0
    else
      var t := DigitRun(s[1..]);
      assert s[..1 + t] == [s[0]] + s[1..][..t];
      1 + t
  }

  /** A numeral followed by a non-digit: the run of digits is the numeral. */
  lemma {:induction false} DigitRunOf(ds: string, rest: string)
    requires AllDigits(ds) && (rest == [] || !IsDigit(rest[0]))
    ensures DigitRun(ds + rest) == |ds|
  {
    if ds != [] {
      assert (ds + rest)[1..] == ds[1..] + rest;
      DigitRunOf(ds[1..], rest);
    }
  }
}
