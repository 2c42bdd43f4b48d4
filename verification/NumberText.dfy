/** How JavaScript prints a finite number, and a parser that inverts it. */
module NumberText {
  import opened Texts

  predicate IsSignificand(s: Text) {
    s != [] && AllDigits(s) && s[0] != ZERO && s[|s| - 1] != ZERO
  }

  /** Digits that neither start nor end with a zero. */
  type Significand = s: Text | IsSignificand(s) witness [49]

  /** A finite number by the shortest decimal that determines it: 0.d1d2... times ten to the power `point`.
      Both zeros print alike. */
  datatype Number = Zero | Decimal(negative: bool, digits: Significand, point: int)

  function Zeros(n: nat): (t: Text)
    ensures |t| == n && AllDigits(t) && forall i | 0 <= i < n :: t[i] == ZERO
  {
    seq(n, _ => ZERO)
  }

  /** A printed magnitude: whole digits, perhaps a fraction, perhaps an exponent. */
  datatype Layout = Layout(whole: Text, fraction: Text, scientific: bool, exponent: int)

  /** The four layouts of section 6.1.6.1.20 of ECMA-262. */
  function LayoutOf(digits: Significand, point: int): Layout {
    if |digits| <= point <= 21 then Layout(digits + Zeros(point - |digits|), [], false, 0)
    else if 0 < point <= 21 then Layout(digits[..point], digits[point..], false, 0)
    else if -6 < point <= 0 then Layout([ZERO], Zeros(-point) + digits, false, 0)
    else Layout(digits[..1], digits[1..], true, point - 1)
  }

  function LayoutText(l: Layout): Text {
    l.whole + (FractionText(l.fraction) + Tail(l))
  }

  function Tail(l: Layout): Text {
    if l.scientific then ExponentText(l.exponent) else []
  }

  function FractionText(digits: Text): Text {
    if digits == [] then [] else [POINT] + digits
  }

  function ExponentText(e: int): Text {
    [LETTER_E, if e < 0 then MINUS else PLUS] + Digits(if e < 0 then -e else e)
  }

  function Print(n: Number): Text {
    match n
    case Zero => [ZERO]
    case Decimal(negative, digits, point) => (if negative then [MINUS] else []) + LayoutText(LayoutOf(digits, point))
  }

  // The parser.

  function TrimLeft(t: Text): (u: Text)
    ensures |u| <= |t| && (u != [] ==> u[0] != ZERO)
  {
    if t != [] && t[0] == ZERO then TrimLeft(t[1..]) else t
  }

  function TrimRight(t: Text): (u: Text)
    ensures u <= t && (u != [] ==> u[|u| - 1] != ZERO)
  {
    if t != [] && t[|t| - 1] == ZERO then TrimRight(t[..|t| - 1]) else t
  }

  function Normalized(negative: bool, m: Magnitude): Number {
    var significant := TrimRight(TrimLeft(m.digits));
    if IsSignificand(significant)
    then Decimal(negative, significant, m.point - (|m.digits| - |TrimLeft(m.digits)|))
    else Zero
  }

  function ReadFraction(t: Text): (r: (Text, Text))
    ensures |r.1| <= |t|
  {
    if t != [] && t[0] == POINT then ReadDigits(t[1..]) else ([], t)
  }

  function ReadExponent(t: Text): (r: (int, Text))
    ensures |r.1| <= |t|
  {
    if |t| > 1 && t[0] == LETTER_E && (t[1] == MINUS || t[1] == PLUS) then
      var (digits, rest) := ReadDigits(t[2..]);
      (if t[1] == MINUS then -ValueOf(digits) else ValueOf(digits), rest)
    else (0, t)
  }

  /** The digits, zeros included, and the place of their point. */
  datatype Magnitude = Magnitude(digits: Text, point: int)

  function ReadMagnitude(t: Text): (p: Parsed<Magnitude>)
    ensures p.Read? ==> |p.rest| < |t|
  {
    var (whole, afterWhole) := ReadDigits(t);
    var (fraction, afterFraction) := ReadFraction(afterWhole);
    var (exponent, rest) := ReadExponent(afterFraction);
    if whole == [] then Failed else Read(Magnitude(whole + fraction, |whole| + exponent), rest)
  }

  function ReadNumber(t: Text): (p: Parsed<Number>)
    ensures p.Read? ==> |p.rest| < |t|
  {
    var negative := t != [] && t[0] == MINUS;
    match ReadMagnitude(if negative then t[1..] else t)
    case Failed => Failed
    case Read(m, rest) => Read(Normalized(negative, m), rest)
  }

  // The parser inverts the printer.

  /** Nothing that could continue a number. */
  predicate Ends(rest: Text) {
    rest == [] || (!IsDigit(rest[0]) && rest[0] != POINT && rest[0] != LETTER_E)
  }

  lemma {:induction false} TrimLeftOfZeros(n: nat, t: Text)
    requires t != [] && t[0] != ZERO
    ensures TrimLeft(Zeros(n) + t) == t
  {
    if n == 0 {
      assert Zeros(n) + t == t;
    } else {
      TrimLeftOfZeros(n - 1, t);
      assert (Zeros(n) + t)[1..] == Zeros(n - 1) + t;
    }
  }

  lemma {:induction false} TrimRightOfZeros(t: Text, n: nat)
    requires t != [] && t[|t| - 1] != ZERO
    ensures TrimRight(t + Zeros(n)) == t
  {
    if n == 0 {
      assert t + Zeros(n) == t;
    } else {
      TrimRightOfZeros(t, n - 1);
      var all := t + Zeros(n);
      assert all[..|all| - 1] == t + Zeros(n - 1) && all[|all| - 1] == ZERO;
    }
  }

  /** Zeros around the significant digits do not matter beyond moving the point. */
  lemma NormalizedIgnoresZeros(negative: bool, before: nat, digits: Significand, after: nat, point: int)
    ensures Normalized(negative, Magnitude(Zeros(before) + (digits + Zeros(after)), point))
        == Decimal(negative, digits, point - before)
  {
    TrimLeftOfZeros(before, digits + Zeros(after));
    TrimRightOfZeros(digits, after);
  }

  /** What may follow a fraction: nothing that continues it. */
  lemma FractionIsRead(fraction: Text, rest: Text)
    requires AllDigits(fraction) && (rest == [] || (!IsDigit(rest[0]) && rest[0] != POINT))
    ensures ReadFraction(FractionText(fraction) + rest) == (fraction, rest)
    ensures var t := FractionText(fraction) + rest; t == [] || !IsDigit(t[0])
  {
    var t := FractionText(fraction) + rest;
    if fraction == [] {
      assert t == rest;
    } else {
      assert t[1..] == fraction + rest;
      DigitsAreRead(fraction, rest);
    }
  }

  lemma ExponentIsRead(e: int, rest: Text)
    requires Ends(rest)
    ensures ReadExponent(ExponentText(e) + rest) == (e, rest)
  {
    var digits := Digits(if e < 0 then -e else e);
    var t := ExponentText(e) + rest;
    DigitsAreDigits(if e < 0 then -e else e);
    DigitsAreRead(digits, rest);
    assert t[2..] == digits + rest;
  }

  /** Reading a whole part and what comes after it. */
  lemma MagnitudeIsRead(whole: Text, t: Text, fraction: Text, afterFraction: Text, exponent: int,
      rest: Text)
    requires whole != [] && AllDigits(whole) && AllDigits(fraction) && (t == [] || !IsDigit(t[0]))
    requires ReadFraction(t) == (fraction, afterFraction) && ReadExponent(afterFraction) == (exponent, rest)
    ensures ReadMagnitude(whole + t) == Read(Magnitude(whole + fraction, |whole| + exponent), rest)
  {
    DigitsAreRead(whole, t);
  }

  predicate Readable(l: Layout) {
    l.whole != [] && AllDigits(l.whole) && AllDigits(l.fraction) && (!l.scientific ==> l.exponent == 0)
  }

  lemma TailIsRead(l: Layout, rest: Text)
    requires Readable(l) && Ends(rest)
    ensures ReadExponent(Tail(l) + rest) == (l.exponent, rest)
    ensures var t := Tail(l) + rest; t == [] || (!IsDigit(t[0]) && t[0] != POINT)
  {
    if l.scientific {
      ExponentIsRead(l.exponent, rest);
      assert (Tail(l) + rest)[0] == LETTER_E;
    } else {
      assert Tail(l) + rest == rest;
    }
  }

  /** What follows the whole part reads as the fraction and the exponent. */
  lemma RestOfLayout(l: Layout, rest: Text) returns (t: Text, tail: Text)
    requires Readable(l) && Ends(rest)
    ensures LayoutText(l) + rest == l.whole + t && (t == [] || !IsDigit(t[0]))
    ensures ReadFraction(t) == (l.fraction, tail) && ReadExponent(tail) == (l.exponent, rest)
  {
    tail := Tail(l) + rest;
    t := FractionText(l.fraction) + tail;
    TailIsRead(l, rest);
    FractionIsRead(l.fraction, tail);
    Associate(l.whole, FractionText(l.fraction) + Tail(l), rest);
    Associate(FractionText(l.fraction), Tail(l), rest);
  }

  function MagnitudeOf(l: Layout): Magnitude {
    Magnitude(l.whole + l.fraction, |l.whole| + l.exponent)
  }

  lemma LayoutIsRead(l: Layout, rest: Text)
    requires Readable(l) && Ends(rest)
    ensures ReadMagnitude(LayoutText(l) + rest) == Read(MagnitudeOf(l), rest)
  {
    var t, tail := RestOfLayout(l, rest);
    SplitIsRead(l, LayoutText(l) + rest, t, tail, rest);
  }

  lemma SplitIsRead(l: Layout, all: Text, t: Text, tail: Text, rest: Text)
    requires Readable(l) && all == l.whole + t && (t == [] || !IsDigit(t[0]))
    requires ReadFraction(t) == (l.fraction, tail) && ReadExponent(tail) == (l.exponent, rest)
    ensures ReadMagnitude(all) == Read(MagnitudeOf(l), rest)
  {
    MagnitudeIsRead(l.whole, t, l.fraction, tail, l.exponent, rest);
  }

  /** The digits of a layout are those of the number, with zeros before or after them. */
  lemma LayoutDigits(digits: Significand, point: int) returns (before: nat, after: nat)
    ensures var l := LayoutOf(digits, point);
            && Readable(l) && l.whole + l.fraction == Zeros(before) + (digits + Zeros(after))
            && |l.whole| + l.exponent == point + before
  {
    var l := LayoutOf(digits, point);
    before, after := 0, 0;
    if |digits| <= point <= 21 { after := point - |digits|; } else if -6 < point <= 0 { before := 1 - point; }
    assert l.whole + l.fraction == Zeros(before) + (digits + Zeros(after));
  }

  lemma SignIsRead(negative: bool, magnitude: Text, m: Magnitude, rest: Text)
    requires magnitude != [] && magnitude[0] != MINUS && ReadMagnitude(magnitude + rest) == Read(m, rest)
    ensures ReadNumber((if negative then [MINUS] else []) + magnitude + rest) == Read(Normalized(negative, m), rest)
  {
    var t := (if negative then [MINUS] else []) + magnitude + rest;
    if negative {
      assert t[1..] == magnitude + rest;
    } else {
      assert t == magnitude + rest && t[0] == magnitude[0];
    }
  }

  lemma ZeroIsRead(rest: Text)
    requires Ends(rest)
    ensures ReadNumber([ZERO] + rest) == Read(Zero, rest)
  {
    var l := Layout([ZERO], [], false, 0);
    LayoutIsRead(l, rest);
    assert LayoutText(l) == [ZERO] && l.whole + l.fraction == [ZERO] && [ZERO][1..] == [];
    SignIsRead(false, [ZERO], Magnitude([ZERO], 1), rest);
    assert [] + [ZERO] == [ZERO];
  }

  lemma LayoutMeans(negative: bool, digits: Significand, point: int)
    ensures Readable(LayoutOf(digits, point))
    ensures Normalized(negative, MagnitudeOf(LayoutOf(digits, point))) == Decimal(negative, digits, point)
  {
    var before, after := LayoutDigits(digits, point);
    NormalizedIgnoresZeros(negative, before, digits, after, point + before);
  }

  /** The printed magnitude of a number, with what it is read as. */
  lemma MagnitudeText(negative: bool, digits: Significand, point: int, rest: Text)
    returns (magnitude: Text, m: Magnitude)
    requires Ends(rest)
    ensures magnitude == LayoutText(LayoutOf(digits, point)) && magnitude != [] && IsDigit(magnitude[0])
    ensures ReadMagnitude(magnitude + rest) == Read(m, rest)
    ensures Normalized(negative, m) == Decimal(negative, digits, point)
  {
    LayoutMeans(negative, digits, point);
    LayoutIsRead(LayoutOf(digits, point), rest);
    magnitude, m := LayoutText(LayoutOf(digits, point)), MagnitudeOf(LayoutOf(digits, point));
    LayoutStartsWithDigit(LayoutOf(digits, point));
  }

  lemma LayoutStartsWithDigit(l: Layout)
    requires Readable(l)
    ensures LayoutText(l) != [] && IsDigit(LayoutText(l)[0])
  {
    assert LayoutText(l)[0] == l.whole[0];
  }

  /** Every printed number is read back, in each of the layouts. */
  lemma NumberRoundTrip(n: Number, rest: Text)
    requires Ends(rest)
    ensures ReadNumber(Print(n) + rest) == Read(n, rest)
    ensures Print(n) != [] && (Print(n)[0] == MINUS || IsDigit(Print(n)[0]))
  {
    match n
    case Zero => ZeroIsRead(rest);
    case Decimal(negative, digits, point) =>
      var magnitude, m := MagnitudeText(negative, digits, point, rest);
      SignIsRead(negative, magnitude, m, rest);
  }

  /** Different numbers print differently. */
  lemma PrintIsInjective(m: Number, n: Number)
    requires Print(m) == Print(n)
    ensures m == n
  {
    NumberRoundTrip(m, []);
    NumberRoundTrip(n, []);
  }

  // What is printed.

  /** Powers of ten are written out from the millionth to the twentieth power, and with an exponent beyond. */
  lemma PowersOfTen(n: int)
    ensures Print(Decimal(false, [49], n + 1)) ==
              if n > 20 then Ascii("1e+") + Digits(n)
              else if n >= 0 then Ascii("1") + Zeros(n)
              else if n >= -6 then Ascii("0.") + Zeros(-n - 1) + Ascii("1")
              else Ascii("1e-") + Digits(-n)
  {
    if n > 20 || n < -6 {
      ScientificPower(n);
    } else if n >= 0 {
      WholePower(n);
    } else {
      FractionalPower(n);
    }
  }

  lemma PlainPrint(digits: Significand, point: int)
    ensures Print(Decimal(false, digits, point)) == LayoutText(LayoutOf(digits, point))
  {
    assert [] + LayoutText(LayoutOf(digits, point)) == LayoutText(LayoutOf(digits, point));
  }

  lemma ScientificPower(n: int)
    requires n > 20 || n < -6
    ensures Print(Decimal(false, [49], n + 1)) == if n > 20 then Ascii("1e+") + Digits(n) else Ascii("1e-") + Digits(-n)
  {
    PlainPrint([49], n + 1);
    ScientificLayout(n);
    ScientificText([49], n);
    OneToThe(n);
  }

  lemma ScientificLayout(n: int)
    requires n > 20 || n < -6
    ensures LayoutOf([49], n + 1) == Layout([49], [], true, n)
  {
    var one: Significand := [49];
    assert one[..1] == [49] && one[1..] == [];
  }

  lemma ScientificText(whole: Text, e: int)
    ensures LayoutText(Layout(whole, [], true, e)) == whole + ExponentText(e)
  {
    assert [] + ExponentText(e) == ExponentText(e);
  }

  lemma OneToThe(n: int)
    ensures [49] + ExponentText(n) == if n >= 0 then Ascii("1e+") + Digits(n) else Ascii("1e-") + Digits(-n)
  {
    var digits := Digits(if n < 0 then -n else n);
    assert Ascii("1e+") == [49, 101, 43] && Ascii("1e-") == [49, 101, 45];
    if n < 0 {
      assert [49] + ([101, 45] + digits) == [49, 101, 45] + digits;
    } else {
      assert [49] + ([101, 43] + digits) == [49, 101, 43] + digits;
    }
  }

  lemma WholePower(n: nat)
    requires n <= 20
    ensures Print(Decimal(false, [49], n + 1)) == Ascii("1") + Zeros(n)
  {
    PlainPrint([49], n + 1);
    assert LayoutOf([49], n + 1) == Layout([49] + Zeros(n), [], false, 0);
    assert Ascii("1") == [49];
  }

  lemma FractionalPower(n: int)
    requires -6 <= n < 0
    ensures Print(Decimal(false, [49], n + 1)) == Ascii("0.") + Zeros(-n - 1) + Ascii("1")
  {
    PlainPrint([49], n + 1);
    assert LayoutOf([49], n + 1) == Layout([48], Zeros(-n - 1) + [49], false, 0);
    PointText([48], Zeros(-n - 1) + [49]);
    assert Ascii("0.") == [48] + Ascii(".") && Ascii("1") == [49];
  }

  /** A point between at most twenty-one whole digits and the others. */
  lemma PointsInside(negative: bool, whole: Text, fraction: Text)
    requires IsSignificand(whole + fraction) && 1 <= |whole| <= 21 && fraction != []
    ensures Print(Decimal(negative, whole + fraction, |whole|))
        == (if negative then Ascii("-") else []) + (whole + (Ascii(".") + fraction))
  {
    var digits := whole + fraction;
    assert digits[..|whole|] == whole && digits[|whole|..] == fraction;
    assert LayoutOf(digits, |whole|) == Layout(whole, fraction, false, 0);
    PointText(whole, fraction);
    assert Ascii("-") == [45];
  }

  lemma PointText(whole: Text, fraction: Text)
    requires fraction != []
    ensures LayoutText(Layout(whole, fraction, false, 0)) == whole + (Ascii(".") + fraction)
  {
    assert Ascii(".") == [46];
    assert FractionText(fraction) + [] == FractionText(fraction);
  }

  /** Zero has no sign, and whole numbers up to twenty-one digits have no point. */
  lemma WholeNumbers(negative: bool, digits: Significand, zeros: nat)
    requires |digits| + zeros <= 21
    ensures Print(Decimal(negative, digits, |digits| + zeros))
        == (if negative then Ascii("-") else []) + digits + Zeros(zeros)
    ensures Print(Zero) == Ascii("0")
  {
    assert Ascii("-") == [45];
  }
}
