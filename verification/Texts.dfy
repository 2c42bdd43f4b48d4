/** JavaScript strings, and the digits in them. */
module Texts {

  /** A JavaScript string is a sequence of UTF-16 code units. */
  type CodeUnit = u: int | 0 <= u < 0x1_0000
  type Text = seq<CodeUnit>

  const PLUS: CodeUnit := 43
  const MINUS: CodeUnit := 45
  const POINT: CodeUnit := 46
  const ZERO: CodeUnit := 48
  const LETTER_E: CodeUnit := 101

  function Ascii(s: string): Text {
    seq(|s|, i requires 0 <= i < |s| => (s[i] as int) % 0x1_0000)
  }

  predicate IsDigit(u: CodeUnit) { ZERO <= u <= 57 }

  predicate AllDigits(t: Text) {
    forall i | 0 <= i < |t| :: IsDigit(t[i])
  }

  datatype Parsed<+T> = Failed | Read(value: T, rest: Text)

  function Digits(n: nat): Text {
    if n < 10 then [ZERO + n] else Digits(n / 10) + [ZERO + n % 10]
  }

  /** The leading digits, and what follows them. */
  function ReadDigits(t: Text): (r: (Text, Text))
    ensures |r.0| + |r.1| == |t|
  {
    if t == [] || !IsDigit(t[0]) then ([], t)
    else
      var (digits, rest) := ReadDigits(t[1..]);
      ([t[0]] + digits, rest)
  }

  function ValueOf(digits: Text): int {
    if digits == [] then 0 else ValueOf(digits[..|digits| - 1]) * 10 + digits[|digits| - 1] - ZERO
  }

  lemma {:induction false} DigitsAreDigits(n: nat)
    ensures |Digits(n)| > 0 && AllDigits(Digits(n)) && ValueOf(Digits(n)) == n
  {
    if n < 10 {
      assert Digits(n)[..0] == [];
    } else {
      DigitsAreDigits(n / 10);
      assert Digits(n)[..|Digits(n)| - 1] == Digits(n / 10);
    }
  }

  lemma {:induction false} DigitsAreRead(digits: Text, rest: Text)
    requires AllDigits(digits) && (rest == [] || !IsDigit(rest[0]))
    ensures ReadDigits(digits + rest) == (digits, rest)
  {
    if digits == [] {
      assert digits + rest == rest;
    } else {
      DigitsAreRead(digits[1..], rest);
      assert (digits + rest)[1..] == digits[1..] + rest;
      assert digits == [digits[0]] + digits[1..];
    }
  }

  /** The case folding of a regular expression with the `i` flag, on ASCII letters. */
  function Lower(u: int): int {
    if 65 <= u <= 90 then u + 32 else u
  }

  lemma Associate(a: Text, b: Text, c: Text)
    ensures a + b + c == a + (b + c)
  {
  }
}
