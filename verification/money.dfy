/**
  Money. The original keeps prices as JavaScript numbers (15.49) and shows
  them with `toFixed(2)`; the model keeps every amount as a whole number of
  cents (1549), so sums and products are exact, and renders them the way
  `toFixed(2)` renders the corresponding two-decimal number.
 */
module Money {
  import opened Seqs

  predicate IsDigit(c: char) {
    48 <= c as int <= 57
  }

  function DigitChar(d: int): (c: char)
    requires 0 <= d < 10
    ensures IsDigit(c)
    ensures c as int - 48 == d
  {
    (48 + d) as char
  }

  /** Decimal digits of `n`, most significant first, without leading zeros. */
  function NatToString(n: nat): (s: string)
    ensures |s| >= 1
    ensures forall i :: 0 <= i < |s| ==> IsDigit(s[i])
    decreases n
  {
    if n < 10 then [DigitChar(n)] else NatToString(n / 10) + [DigitChar(n % 10)]
  }

  /** The number a string of decimal digits denotes. */
  function DigitsValue(s: string): nat
    requires forall i :: 0 <= i < |s| ==> IsDigit(s[i])
  {
    if |s| == 0 then 0
    else
      assert IsDigit(s[|s| - 1]);
      DigitsValue(s[..|s| - 1]) * 10 + (s[|s| - 1] as int - 48)
  }

  lemma {:induction false} NatToStringRoundTrip(n: nat)
    ensures DigitsValue(NatToString(n)) == n
    decreases n
  {
    var s := NatToString(n);
    if n >= 10 {
      NatToStringRoundTrip(n / 10);
      assert s[..|s| - 1] == NatToString(n / 10);
    }
  }

  /** `(c / 100).toFixed(2)`: optional minus sign, whole units, a point, exactly two digits of cents. */
  function FormatCents(c: int): (s: string)
    ensures |s| >= 4 && s[|s| - 3] == '.'
  {
    var m := if c < 0 then -c else c;
    (if c < 0 then "-" else "") + NatToString(m / 100) + "." + [DigitChar(m % 100 / 10), DigitChar(m % 10)]
  }

  /** Reads back a string of the shape `FormatCents` produces. */
  function ParseCents(s: string): Option<int> {
    if |s| > 0 && s[0] == '-' then
      match ParseUnsigned(s[1..])
      case Some(v) => Some(0 - v as int)
      case None => None
    else ParseUnsigned(s)
  }

  function ParseUnsigned(s: string): Option<nat> {
    if |s| < 4 || s[|s| - 3] != '.' then None
    else
      var units := s[..|s| - 3];
      var cents := s[|s| - 2..];
      if (forall i :: 0 <= i < |units| ==> IsDigit(units[i])) && IsDigit(cents[0]) && IsDigit(cents[1]) then
        Some(DigitsValue(units) * 100 + DigitsValue(cents))
      else None
  }

  /** The rendered amount denotes exactly the cents it was rendered from. */
  lemma FormatCentsRoundTrip(c: int)
    ensures ParseCents(FormatCents(c)) == Some(c)
  {
    var m := if c < 0 then -c else c;
    var u := NatToString(m / 100);
    var body := u + "." + [DigitChar(m % 100 / 10), DigitChar(m % 10)];
    assert body[..|body| - 3] == u;
    assert body[|body| - 2..] == [DigitChar(m % 100 / 10), DigitChar(m % 10)];
    NatToStringRoundTrip(m / 100);
    TwoDigitsValue(m % 100 / 10, m % 10);
    assert ParseUnsigned(body) == Some(m);
    if c < 0 {
      assert FormatCents(c) == "-" + body;
      assert ("-" + body)[1..] == body;
    } else {
      assert FormatCents(c) == body;
      assert u[0] != '-';
    }
  }

  lemma TwoDigitsValue(d1: int, d0: int)
    requires 0 <= d1 < 10 && 0 <= d0 < 10
    ensures DigitsValue([DigitChar(d1), DigitChar(d0)]) == d1 * 10 + d0
  {
    var two := [DigitChar(d1), DigitChar(d0)];
    var one := [DigitChar(d1)];
    assert two[..1] == one;
    assert one[..0] == [];
    assert DigitsValue(one) == d1;
    assert DigitsValue(two) == DigitsValue(one) * 10 + d0;
  }

  lemma FormatExamples()
    ensures FormatCents(0) == "0.00"
    ensures FormatCents(1549) == "15.49"
    ensures FormatCents(3098) == "30.98"
  {
    assert NatToString(15) == NatToString(1) + [DigitChar(5)];
    assert NatToString(30) == NatToString(3) + [DigitChar(0)];
  }
}
