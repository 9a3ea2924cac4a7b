/** Decimal text of natural numbers and of the scanner's number lexemes.

    Token display prints the line number in decimal, the parser reads the
    literal of a Number token as a number, and the benchmark prints its
    result; all three go through the definitions here. */
module Decimal {
  import opened Results

  predicate IsDigit(c: char) {
    '0' <= c <= '9'
  }

  predicate AllDigits(s: string) {
    forall i :: 0 <= i < |s| ==> IsDigit(s[i])
  }

  function DigitChar(d: nat): (c: char)
    requires d < 10
    ensures IsDigit(c) && c as int - '0' as int == d
  {
    ('0' as int + d) as char
  }

  function DigitValue(c: char): (d: nat)
    requires IsDigit(c)
    ensures d < 10 && DigitChar(d) == c
  {
    c as int - '0' as int
  }

  /** The shortest decimal text of `n`. */
  function NatToString(n: nat): (s: string)
    ensures |s| > 0 && AllDigits(s)
    ensures n >= 10 ==> s[0] != '0'
    decreases n
  {
    if n < 10 then [DigitChar(n)] else NatToString(n / 10) + [DigitChar(n % 10)]
  }

  /** The value of a digit string read most significant digit first. */
  function DigitsValue(s: string): nat
    requires AllDigits(s)
    decreases |s|
  {
    if |s| == 0 then 0 else DigitsValue(s[..|s| - 1]) * 10 + DigitValue(s[|s| - 1])
  }

  function Pow10(k: nat): (p: nat)
    ensures p >= 1
  {
    if k == 0 then 1 else 10 * Pow10(k - 1)
  }

  /** Reading back the printed text of a number gives the number. */
  lemma {:induction false} NatToStringRoundTrip(n: nat)
    ensures DigitsValue(NatToString(n)) == n
    decreases n
  {
    if n >= 10 {
      var s := NatToString(n);
      NatToStringRoundTrip(n / 10);
      assert s[..|s| - 1] == NatToString(n / 10);
    }
  }

  /** Distinct numbers print differently. */
  lemma NatToStringInjective(m: nat, n: nat)
    requires NatToString(m) == NatToString(n)
    ensures m == n
  {
    NatToStringRoundTrip(m);
    NatToStringRoundTrip(n);
  }

  /** The shape of a Number lexeme: digits, optionally a dot and more digits. */
  predicate IsNumberText(s: string) {
    || (|s| > 0 && AllDigits(s))
    || (exists k :: 0 < k < |s| - 1 && s[k] == '.' && AllDigits(s[..k]) && AllDigits(s[k + 1..]))
  }

  function IndexOfDot(s: string, i: nat): (k: nat)
    requires i <= |s|
    ensures i <= k <= |s|
    ensures k < |s| ==> s[k] == '.'
    ensures forall j :: i <= j < k ==> s[j] != '.'
    decreases |s| - i
  {
    if i == |s| || s[i] == '.' then i else IndexOfDot(s, i + 1)
  }

  /** The number a Number lexeme denotes, or None for text that is not one.
      The integer part plus the fraction digits scaled by a power of ten.
      Which texts are accepted is `ParseNumberAccepts`; what a dotted text
      is worth is `ParseNumberValue`. */
  function ParseNumber(s: string): (r: Option<real>)
    ensures r.Some? ==> r.value >= 0.0
    ensures |s| > 0 && AllDigits(s) ==> r == Some(DigitsValue(s) as real)
  {
    var k := IndexOfDot(s, 0);
    if k == |s| then
      if |s| > 0 && AllDigits(s) then Some(DigitsValue(s) as real) else None
    else if 0 < k < |s| - 1 && AllDigits(s[..k]) && AllDigits(s[k + 1..]) then
      var frac := s[k + 1..];
      Some(DigitsValue(s[..k]) as real + DigitsValue(frac) as real / Pow10(|frac|) as real)
    else
      None
  }

  /** A text is accepted exactly when it has the shape of a Number lexeme. */
  lemma ParseNumberAccepts(s: string)
    ensures ParseNumber(s).Some? <==> IsNumberText(s)
  {
    if IsNumberText(s) && !(|s| > 0 && AllDigits(s)) {
      var j :| 0 < j < |s| - 1 && s[j] == '.' && AllDigits(s[..j]) && AllDigits(s[j + 1..]);
      assert IndexOfDot(s, 0) == j;
    }
  }

  /** Digits written after digits: the first part shifted by the length of
      the second. */
  lemma {:induction false} DigitsConcat(a: string, b: string)
    requires AllDigits(a) && AllDigits(b)
    ensures AllDigits(a + b)
    ensures DigitsValue(a + b) == DigitsValue(a) * Pow10(|b|) + DigitsValue(b)
    decreases |b|
  {
    var ab := a + b;
    assert AllDigits(ab) by {
      forall i | 0 <= i < |ab| ensures IsDigit(ab[i]) {
        if i >= |a| { assert ab[i] == b[i - |a|]; }
      }
    }
    if |b| > 0 {
      var b', d := b[..|b| - 1], DigitValue(b[|b| - 1]);
      DigitsConcat(a, b');
      assert ab[..|ab| - 1] == a + b';
      assert ab[|ab| - 1] == b[|b| - 1];
      var x, y, p := DigitsValue(a), DigitsValue(b'), Pow10(|b'|);
      assert DigitsValue(ab) == (x * p + y) * 10 + d;
      assert DigitsValue(b) == y * 10 + d;
      assert Pow10(|b|) == 10 * p;
      ShiftDigit(x, p, y, d);
    } else {
      assert ab == a;
    }
  }

  lemma ShiftDigit(x: int, p: int, y: int, d: int)
    ensures (x * p + y) * 10 + d == x * (10 * p) + (y * 10 + d)
  {
    calc {
      (x * p + y) * 10 + d;
      (x * p) * 10 + y * 10 + d;
      { assert (x * p) * 10 == x * (p * 10) == x * (10 * p); }
      x * (10 * p) + (y * 10 + d);
    }
  }

  lemma Rescale(x: nat, y: nat, p: nat)
    requires p >= 1
    ensures (x * p + y) as real / p as real == x as real + y as real / p as real
  {
    assert (x * p + y) as real == x as real * p as real + y as real;
  }

  /** The text of a Number lexeme with its dot, if any, left out. */
  function Undotted(s: string): string {
    var k := IndexOfDot(s, 0);
    if k < |s| then s[..k] + s[k + 1..] else s
  }

  /** How many digits follow the dot; zero when there is none. */
  function FractionDigits(s: string): nat {
    var k := IndexOfDot(s, 0);
    if k < |s| then |s| - k - 1 else 0
  }

  /** A dotted number text, the dot at `k`: the integer part plus the
      fraction digits over ten to their count, which is the same as all its
      digits without the dot over that power of ten. */
  lemma DottedValue(s: string, k: nat)
    requires k == IndexOfDot(s, 0) && 0 < k < |s| - 1 && AllDigits(s[..k]) && AllDigits(s[k + 1..])
    ensures ParseNumber(s) == Some(DigitsValue(s[..k]) as real + DigitsValue(s[k + 1..]) as real / Pow10(|s| - k - 1) as real)
    ensures AllDigits(s[..k] + s[k + 1..])
    ensures ParseNumber(s) == Some(DigitsValue(s[..k] + s[k + 1..]) as real / Pow10(|s| - k - 1) as real)
  {
    var a, b := s[..k], s[k + 1..];
    DigitsConcat(a, b);
    Rescale(DigitsValue(a), DigitsValue(b), Pow10(|b|));
  }

  /** A number text without a dot: its digits, over ten to the zero. */
  lemma UndottedValue(s: string)
    requires IndexOfDot(s, 0) == |s| && ParseNumber(s).Some?
    ensures AllDigits(Undotted(s))
    ensures ParseNumber(s).value == DigitsValue(Undotted(s)) as real / Pow10(FractionDigits(s)) as real
  {
    assert Undotted(s) == s && FractionDigits(s) == 0;
    var p := Pow10(0) as real;
    assert p == 1.0;
    var v := DigitsValue(s) as real;
    assert ParseNumber(s).value == v == v / p;
  }

  /** A number text denotes its digits, read without the dot as a whole
      number, divided by ten to the number of fraction digits. */
  lemma ParseNumberValue(s: string)
    requires ParseNumber(s).Some?
    ensures AllDigits(Undotted(s))
    ensures ParseNumber(s).value == DigitsValue(Undotted(s)) as real / Pow10(FractionDigits(s)) as real
  {
    var k := IndexOfDot(s, 0);
    if k < |s| {
      DottedValue(s, k);
      assert Undotted(s) == s[..k] + s[k + 1..] && FractionDigits(s) == |s| - k - 1;
    } else {
      UndottedValue(s);
    }
  }
}
