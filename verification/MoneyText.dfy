/** Printed amounts: grouped digits in full, rounded tenths of a unit in compact form. */
module MoneyText {
  import opened Options

  /** A JavaScript number that is not an integer is not a scale. */
  datatype Money = Money(amountMinor: string, currency: string, scale: int)

  datatype Display = Full | Compact

  datatype Parts = Parts(negative: bool, whole: string, fraction: string)

  const MINUS_SIGN: string := "\U{2212}"

  predicate IsDigit(c: char) {
    '0' <= c <= '9'
  }

  predicate AllDigits(s: string) {
    forall i | 0 <= i < |s| :: IsDigit(s[i])
  }

  predicate IsNegative(amount: string) {
    |amount| > 0 && amount[0] == '-'
  }

  function DigitsOf(amount: string): string {
    if IsNegative(amount) then amount[1..] else amount
  }

  /** An optional minus sign and at least one digit, at a scale of zero or more. */
  predicate WellFormed(m: Money) {
    DigitsOf(m.amountMinor) != "" && AllDigits(DigitsOf(m.amountMinor)) && m.scale >= 0
  }

  function Zeros(n: nat): string {
    seq(n, _ => '0')
  }

  function PadStart(s: string, n: nat): string {
    if n <= |s| then s else Zeros(n - |s|) + s
  }

  /** `splitAmount`; `None` is its error. */
  function SplitAmount(m: Money): Option<Parts> {
    if !WellFormed(m) then None
    else
      var padded := PadStart(DigitsOf(m.amountMinor), m.scale + 1);
      Some(Parts(IsNegative(m.amountMinor), padded[..|padded| - m.scale], padded[|padded| - m.scale..]))
  }

  /** A dot before each digit, but the first, that a multiple of three digits follow from. */
  function Group(s: string, i: nat := 0): string
    requires i <= |s|
    decreases |s| - i
  {
    if i == |s| then "" else (if i > 0 && (|s| - i) % 3 == 0 then "." else "") + [s[i]] + Group(s, i + 1)
  }

  function TrimZeros(s: string): string {
    if s != "" && s[|s| - 1] == '0' then TrimZeros(s[..|s| - 1]) else s
  }

  function Label(currency: string): string {
    if currency == "IDR" then "Rp" else currency
  }

  function Prefix(negative: bool, currency: string): string {
    (if negative then MINUS_SIGN else "") + Label(currency) + " "
  }

  function Value(digits: string): nat
    requires AllDigits(digits)
  {
    if digits == "" then 0 else 10 * Value(digits[..|digits| - 1]) + (digits[|digits| - 1] - '0') as nat
  }

  function Decimal(n: nat): string {
    if n < 10 then [n as char + '0'] else Decimal(n / 10) + [(n % 10) as char + '0']
  }

  datatype Unit = Unit(value: nat, suffix: char)

  const UNITS: seq<Unit> :=
    [Unit(1_000_000_000_000, 'T'), Unit(1_000_000_000, 'B'), Unit(1_000_000, 'M'), Unit(1_000, 'K')]

  function FindUnit(units: seq<Unit>, amount: nat): Option<Unit> {
    if units == [] then None
    else if amount >= units[0].value then Some(units[0])
    else FindUnit(units[1..], amount)
  }

  /** Tenths of a unit, rounded half up. */
  function Tenths(amount: nat, unit: Unit): nat
    requires unit.value > 0
  {
    (amount * 10 + unit.value / 2) / unit.value
  }

  function CompactText(tenths: nat, suffix: char): string {
    Decimal(tenths / 10) + (if tenths % 10 == 0 then "" else "." + Decimal(tenths % 10)) + [suffix]
  }

  function FullText(whole: string, fraction: string): string {
    Group(whole) + if TrimZeros(fraction) == "" then "" else "," + TrimZeros(fraction)
  }

  /** The value of the digits before the scale. */
  function WholeAmount(p: Parts): nat
    requires AllDigits(p.whole)
  {
    Value(p.whole)
  }

  lemma UnitsArePositive(units: seq<Unit>, amount: nat)
    requires forall u <- units :: u.value > 0
    ensures FindUnit(units, amount).Some? ==> FindUnit(units, amount).value in units
  {
  }

  lemma PaddedDigits(s: string, n: nat)
    requires AllDigits(s)
    ensures AllDigits(PadStart(s, n)) && |PadStart(s, n)| >= n && |PadStart(s, n)| >= |s|
  {
  }

  lemma SplitGivesDigits(m: Money)
    ensures SplitAmount(m).Some? ==>
              var p := SplitAmount(m).value;
              && AllDigits(p.whole) && AllDigits(p.fraction) && p.whole != "" && |p.fraction| == m.scale
              && p.whole + p.fraction == PadStart(DigitsOf(m.amountMinor), m.scale + 1)
  {
    if WellFormed(m) {
      var padded := PadStart(DigitsOf(m.amountMinor), m.scale + 1);
      PaddedDigits(DigitsOf(m.amountMinor), m.scale + 1);
      assert padded == padded[..|padded| - m.scale] + padded[|padded| - m.scale..];
    }
  }

  /** `formatMoney`; `None` is its error. */
  function FormatMoney(m: Money, display: Display): Option<string> {
    match SplitAmount(m)
    case None => None
    case Some(p) =>
      SplitGivesDigits(m);
      var unit := FindUnit(UNITS, WholeAmount(p));
      UnitsArePositive(UNITS, WholeAmount(p));
      if display.Compact? && unit.Some? then
        Some(Prefix(p.negative, m.currency) + CompactText(Tenths(WholeAmount(p), unit.value), unit.value.suffix))
      else Some(Prefix(p.negative, m.currency) + FullText(p.whole, p.fraction))
  }

  // Reading the sign.

  function ReadSign(currency: string, text: string): bool {
    Prefix(true, currency) <= text
  }

  function AfterPrefix(currency: string, text: string): string {
    var prefix := Prefix(ReadSign(currency, text), currency);
    if prefix <= text then text[|prefix|..] else ""
  }

  /** A label shifted by one cannot end in a space where the unshifted one does. */
  lemma {:induction false} ShiftedLabel(symbol: string, text: string, i: nat)
    requires MINUS_SIGN + symbol + " " <= text && symbol + " " <= text && i <= |symbol|
    ensures text[i] == MINUS_SIGN[0]
  {
    if i > 0 {
      ShiftedLabel(symbol, text, i - 1);
      assert text[i] == (MINUS_SIGN + symbol + " ")[i] == symbol[i - 1];
      assert text[i - 1] == (symbol + " ")[i - 1] == symbol[i - 1];
    }
  }

  lemma PrefixIsRead(negative: bool, currency: string, body: string)
    ensures ReadSign(currency, Prefix(negative, currency) + body) == negative
    ensures AfterPrefix(currency, Prefix(negative, currency) + body) == body
  {
    var text := Prefix(negative, currency) + body;
    var symbol := Label(currency);
    assert Prefix(negative, currency) <= text;
    if !negative {
      assert Prefix(false, currency) == symbol + " ";
      if Prefix(true, currency) <= text {
        assert text[|symbol|] == (symbol + " ")[|symbol|] == ' ';
        ShiftedLabel(symbol, text, |symbol|);
        assert false;
      }
    }
  }

  // Reading the full form.

  function StripDots(s: string): string {
    if s == "" then "" else (if s[0] == '.' then "" else [s[0]]) + StripDots(s[1..])
  }

  function BeforeComma(s: string): string {
    if s == "" || s[0] == ',' then "" else [s[0]] + BeforeComma(s[1..])
  }

  function AfterComma(s: string): string {
    if s == "" then "" else if s[0] == ',' then s[1..] else AfterComma(s[1..])
  }

  function PadEnd(s: string, n: nat): string {
    if n <= |s| then s else s + Zeros(n - |s|)
  }

  /** Drop the grouping and put the zeros of the fraction back. */
  function ReadDigits(scale: nat, body: string): string {
    StripDots(BeforeComma(body)) + PadEnd(AfterComma(body), scale)
  }

  /** The sign and the digits a full form shows. */
  function ReadFull(currency: string, scale: nat, text: string): (bool, string) {
    (ReadSign(currency, text), ReadDigits(scale, AfterPrefix(currency, text)))
  }

  /** The sign and the digits of an amount, padded to the scale. */
  function Shown(m: Money): (bool, string)
    requires WellFormed(m)
  {
    (IsNegative(m.amountMinor), PadStart(DigitsOf(m.amountMinor), m.scale + 1))
  }

  lemma {:induction false} StripsGrouping(s: string, i: nat)
    requires AllDigits(s) && i <= |s|
    ensures StripDots(Group(s, i)) == s[i..]
    ensures ',' !in Group(s, i)
    decreases |s| - i
  {
    if i < |s| {
      StripsGrouping(s, i + 1);
      var dot := if i > 0 && (|s| - i) % 3 == 0 then "." else "";
      var rest := [s[i]] + Group(s, i + 1);
      assert rest[1..] == Group(s, i + 1);
      assert Group(s, i) == dot + rest;
      assert dot == "." ==> (dot + rest)[1..] == rest;
      assert IsDigit(s[i]);
      assert StripDots(rest) == [s[i]] + s[i + 1..];
    }
  }

  /** From the right, every fourth character is a dot and no other is; none comes first. */
  lemma {:induction false} GroupsOfThree(s: string, i: nat)
    requires AllDigits(s) && i <= |s|
    ensures |Group(s, i)| == |s| - i + if i == 0 && s != "" then (|s| - 1) / 3 else (|s| - i) / 3
    ensures forall k | 0 <= k < |Group(s, i)| :: Group(s, i)[|Group(s, i)| - 1 - k] == '.' <==> k % 4 == 3
    decreases |s| - i
  {
    if i < |s| {
      GroupsOfThree(s, i + 1);
      var tail, all := Group(s, i + 1), Group(s, i);
      assert all[|all| - |tail|..] == tail;
      assert IsDigit(s[i]) && all[|all| - |tail| - 1] == s[i];
    }
  }

  lemma {:induction false} CommaIsFound(s: string, tail: string)
    requires ',' !in s
    ensures BeforeComma(s + "," + tail) == s == BeforeComma(s)
    ensures AfterComma(s + "," + tail) == tail && AfterComma(s) == ""
  {
    if s == "" {
      assert s + "," + tail == "," + tail;
    } else {
      assert (s + "," + tail)[1..] == s[1..] + "," + tail;
      CommaIsFound(s[1..], tail);
      assert s == [s[0]] + s[1..];
    }
  }

  lemma {:induction false} TrimmedZerosComeBack(s: string)
    ensures PadEnd(TrimZeros(s), |s|) == s && |TrimZeros(s)| <= |s|
  {
    if s != "" && s[|s| - 1] == '0' {
      TrimmedZerosComeBack(s[..|s| - 1]);
      assert Zeros(|s| - |TrimZeros(s)|) == Zeros(|s| - 1 - |TrimZeros(s)|) + "0";
      assert s == s[..|s| - 1] + "0";
    }
  }

  lemma FullTextIsRead(whole: string, fraction: string)
    requires AllDigits(whole)
    ensures ReadDigits(|fraction|, FullText(whole, fraction)) == whole + fraction
  {
    StripsGrouping(whole, 0);
    CommaIsFound(Group(whole), TrimZeros(fraction));
    TrimmedZerosComeBack(fraction);
    assert Group(whole) + ("," + TrimZeros(fraction)) == Group(whole) + "," + TrimZeros(fraction);
    assert Group(whole) + "" == Group(whole);
  }

  /** The full form can be read back, whatever the amount: its sign, and its digits padded to the scale. */
  lemma FullFormRoundTrip(m: Money)
    requires WellFormed(m)
    ensures FormatMoney(m, Full).Some? && ReadFull(m.currency, m.scale, FormatMoney(m, Full).value) == Shown(m)
  {
    var p := SplitAmount(m).value;
    SplitGivesDigits(m);
    PrefixIsRead(p.negative, m.currency, FullText(p.whole, p.fraction));
    FullTextIsRead(p.whole, p.fraction);
  }

  lemma FullFormShows(a: Money, b: Money)
    requires WellFormed(a) && WellFormed(b) && a.currency == b.currency && a.scale == b.scale && Shown(a) == Shown(b)
    ensures FormatMoney(a, Full) == FormatMoney(b, Full)
  {
  }

  /** So two amounts of one asset and scale print alike exactly when their signs and padded digits agree. */
  lemma FullFormsAgreeIff(a: Money, b: Money)
    requires WellFormed(a) && WellFormed(b) && a.currency == b.currency && a.scale == b.scale
    ensures FormatMoney(a, Full) == FormatMoney(b, Full) <==> Shown(a) == Shown(b)
  {
    FullFormRoundTrip(a);
    FullFormRoundTrip(b);
    if Shown(a) == Shown(b) { FullFormShows(a, b); }
  }

  /** No leading zeros, no negative zero. */
  predicate CanonicalAmount(amount: string) {
    var digits := DigitsOf(amount);
    (digits == "0" && !IsNegative(amount)) || (digits != "" && digits[0] != '0')
  }

  function Unpad(s: string): string {
    if |s| > 1 && s[0] == '0' then Unpad(s[1..]) else s
  }

  lemma {:induction false} UnpadsZeros(n: nat, digits: string)
    requires digits == "0" || (digits != "" && digits[0] != '0')
    ensures Unpad(Zeros(n) + digits) == digits
  {
    if n == 0 {
      assert Zeros(n) + digits == digits;
    } else {
      UnpadsZeros(n - 1, digits);
      assert (Zeros(n) + digits)[1..] == Zeros(n - 1) + digits;
    }
  }

  /** The canonical amount of a sign and digits. */
  function Minor(shown: (bool, string)): string {
    (if shown.0 then "-" else "") + Unpad(shown.1)
  }

  lemma ShownDeterminesAmount(m: Money)
    requires WellFormed(m) && CanonicalAmount(m.amountMinor)
    ensures Minor(Shown(m)) == m.amountMinor
  {
    var digits := DigitsOf(m.amountMinor);
    UnpadsZeros(if m.scale + 1 <= |digits| then 0 else m.scale + 1 - |digits|, digits);
    assert Zeros(0) + digits == digits;
  }

  /** A canonical amount is recovered from its full form. */
  lemma CanonicalAmountsAreRecovered(m: Money)
    requires WellFormed(m) && CanonicalAmount(m.amountMinor)
    ensures FormatMoney(m, Full).Some?
        && Minor(ReadFull(m.currency, m.scale, FormatMoney(m, Full).value)) == m.amountMinor
  {
    FullFormRoundTrip(m);
    ShownDeterminesAmount(m);
  }

  // Reading the compact form.

  lemma {:induction false} DecimalRoundTrip(n: nat)
    ensures AllDigits(Decimal(n)) && Value(Decimal(n)) == n && Decimal(n) != ""
  {
    if n >= 10 {
      DecimalRoundTrip(n / 10);
      assert Decimal(n)[..|Decimal(n)| - 1] == Decimal(n / 10);
    } else {
      assert Value(Decimal(n)[..0]) == 0;
    }
  }

  function UnitOf(suffix: char): nat {
    match suffix
    case 'T' => 1_000_000_000_000
    case 'B' => 1_000_000_000
    case 'M' => 1_000_000
    case _ => 1_000
  }

  function ReadTenths(number: string): nat {
    var n := |number|;
    if n >= 2 && number[n - 2] == '.' && AllDigits(number[..n - 2]) && AllDigits(number[n - 1..]) then
      10 * Value(number[..n - 2]) + Value(number[n - 1..])
    else if AllDigits(number) then 10 * Value(number) else 0
  }

  lemma WholeIsRead(whole: string)
    requires AllDigits(whole)
    ensures ReadTenths(whole) == 10 * Value(whole)
  {
    assert |whole| >= 2 ==> IsDigit(whole[|whole| - 2]);
  }

  lemma PointIsRead(whole: string, tenth: string)
    requires AllDigits(whole) && AllDigits(tenth) && |tenth| == 1
    ensures ReadTenths(whole + ("." + tenth)) == 10 * Value(whole) + Value(tenth)
  {
    var number := whole + ("." + tenth);
    assert number[|number| - 2] == '.';
    assert number[..|number| - 2] == whole && number[|number| - 1..] == tenth;
  }

  lemma TenthsAreRead(tenths: nat)
    ensures ReadTenths(Decimal(tenths / 10) + if tenths % 10 == 0 then "" else "." + Decimal(tenths % 10)) == tenths
  {
    var n, d := tenths / 10, tenths % 10;
    DecimalRoundTrip(n);
    DecimalRoundTrip(d);
    if d == 0 {
      assert Decimal(n) + "" == Decimal(n);
      WholeIsRead(Decimal(n));
    } else {
      PointIsRead(Decimal(n), Decimal(d));
    }
  }

  lemma UnitIsLargest(amount: nat)
    ensures FindUnit(UNITS, amount).Some? <==> amount >= 1000
    ensures FindUnit(UNITS, amount).Some? ==>
              var unit := FindUnit(UNITS, amount).value;
              && unit.value == UnitOf(unit.suffix) <= amount && unit.value % 2 == 0
              && (amount < 1000 * unit.value || unit.suffix == 'T')
              && (unit.suffix == 'T' || unit.suffix == 'B' || unit.suffix == 'M' || unit.suffix == 'K')
  {
    var t, b, k := Unit(1_000_000_000_000, 'T'), Unit(1_000_000_000, 'B'), Unit(1_000, 'K');
    var m := Unit(1_000_000, 'M');
    assert UNITS == [t, b, m, k];
    assert [t, b, m, k][1..] == [b, m, k] && [b, m, k][1..] == [m, k] && [m, k][1..] == [k] && [k][1..] == [];
    assert FindUnit([k], amount) == if amount >= 1_000 then Some(k) else None;
    assert FindUnit([m, k], amount) == if amount >= 1_000_000 then Some(m) else FindUnit([k], amount);
    assert FindUnit([b, m, k], amount) == if amount >= 1_000_000_000 then Some(b) else FindUnit([m, k], amount);
  }

  lemma TenthsAreNearest(amount: nat, unit: Unit)
    requires unit.value > 0 && unit.value % 2 == 0
    ensures Rounds(amount, Tenths(amount, unit), unit.value)
  {
    var n, d := amount * 10 + unit.value / 2, unit.value;
    assert n == (n / d) * d + n % d;
  }

  /** What the compact form of a whole amount says. */
  predicate Rounds(amount: nat, tenths: nat, unit: nat) {
    2 * tenths * unit - unit <= 20 * amount < 2 * tenths * unit + unit
  }

  /** From a thousand whole units on, the compact form says the sign, the largest unit up to a million million that
      fits, and the number of tenths of it nearest to the amount, halves going up. Below, it is the full form. */
  lemma CompactFormRounds(m: Money)
    requires WellFormed(m)
    ensures FormatMoney(m, Compact).Some? && AllDigits(SplitAmount(m).value.whole)
    ensures var amount, text := Value(SplitAmount(m).value.whole), FormatMoney(m, Compact).value;
            if amount < 1000 then FormatMoney(m, Compact) == FormatMoney(m, Full)
            else
              var body := AfterPrefix(m.currency, text);
              && ReadSign(m.currency, text) == IsNegative(m.amountMinor) && body != ""
              && var unit := UnitOf(body[|body| - 1]);
                 && unit <= amount && (amount < 1000 * unit || unit == 1_000_000_000_000)
                 && Rounds(amount, ReadTenths(body[..|body| - 1]), unit)
  {
    SplitGivesDigits(m);
    var p := SplitAmount(m).value;
    var amount := WholeAmount(p);
    UnitIsLargest(amount);
    if amount >= 1000 {
      var unit := FindUnit(UNITS, amount).value;
      UnitsArePositive(UNITS, amount);
      var tenths := Tenths(amount, unit);
      var body := CompactText(tenths, unit.suffix);
      PrefixIsRead(p.negative, m.currency, body);
      TenthsAreRead(tenths);
      TenthsAreNearest(amount, unit);
      assert body[..|body| - 1] == Decimal(tenths / 10) + if tenths % 10 == 0 then "" else "." + Decimal(tenths % 10);
    }
  }

  // The compact form does not move on to the next unit when it rounds up to it.

  lemma TenthsOverflowIff(amount: nat, unit: Unit)
    requires unit.value > 0 && unit.value % 2 == 0 && amount < 1000 * unit.value
    ensures Tenths(amount, unit) <= 10000
    ensures Tenths(amount, unit) == 10000 <==> 20 * amount >= 19999 * unit.value
  {
    TenthsAreNearest(amount, unit);
    TimesIsMonotone(10001, Tenths(amount, unit), unit.value);
    TimesIsMonotone(10000, Tenths(amount, unit), unit.value);
    TimesIsMonotone(Tenths(amount, unit), 9999, unit.value);
    assert 2 * Tenths(amount, unit) * unit.value == 2 * (Tenths(amount, unit) * unit.value);
  }

  lemma TimesIsMonotone(m: nat, n: nat, d: nat)
    ensures m <= n ==> m * d <= n * d
  {
  }

  lemma DecimalIsShort(n: nat)
    requires n < 1000
    ensures 1 <= |Decimal(n)| <= 3
  {
    assert |Decimal(n / 10 / 10)| == 1;
    assert 1 <= |Decimal(n / 10)| <= 2;
  }

  lemma OverflowText(tenths: nat, suffix: char)
    requires tenths <= 10000 && suffix != '0'
    ensures "1000" <= CompactText(tenths, suffix) <==> tenths == 10000
    ensures tenths == 10000 ==> CompactText(tenths, suffix) == "1000" + [suffix]
  {
    if tenths == 10000 {
      assert Decimal(1000) == "1000";
    } else {
      var whole, text, thousand := Decimal(tenths / 10), CompactText(tenths, suffix), "1000";
      DecimalIsShort(tenths / 10);
      assert text[|whole|] == if tenths % 10 == 0 then suffix else '.';
      assert thousand[|whole|] == '0';
    }
  }

  /** What follows the prefix. */
  lemma CompactBody(m: Money)
    requires WellFormed(m)
    ensures FormatMoney(m, Compact).Some? && AllDigits(SplitAmount(m).value.whole)
    ensures var p := SplitAmount(m).value;
            var amount, body := Value(p.whole), AfterPrefix(m.currency, FormatMoney(m, Compact).value);
            var unit := FindUnit(UNITS, amount);
            if unit.None? then body == FullText(p.whole, p.fraction)
            else unit.value.value > 0 && body == CompactText(Tenths(amount, unit.value), unit.value.suffix)
  {
    SplitGivesDigits(m);
    var p := SplitAmount(m).value;
    var unit := FindUnit(UNITS, WholeAmount(p));
    UnitsArePositive(UNITS, WholeAmount(p));
    PrefixIsRead(p.negative, m.currency, if unit.None? then FullText(p.whole, p.fraction)
                                         else CompactText(Tenths(WholeAmount(p), unit.value), unit.value.suffix));
  }

  lemma {:induction false} FullTextEndsInDigit(whole: string, fraction: string)
    requires AllDigits(whole) && AllDigits(fraction) && whole != ""
    ensures FullText(whole, fraction) != "" && IsDigit(FullText(whole, fraction)[|FullText(whole, fraction)| - 1])
  {
    GroupEndsInDigit(whole, 0);
    TrimKeepsDigits(fraction);
  }

  lemma {:induction false} GroupEndsInDigit(s: string, i: nat)
    requires AllDigits(s) && i < |s|
    ensures Group(s, i) != "" && Group(s, i)[|Group(s, i)| - 1] == s[|s| - 1]
    decreases |s| - i
  {
    if i + 1 < |s| { GroupEndsInDigit(s, i + 1); }
  }

  lemma {:induction false} TrimKeepsDigits(s: string)
    requires AllDigits(s)
    ensures AllDigits(TrimZeros(s))
  {
    if s != "" && s[|s| - 1] == '0' { TrimKeepsDigits(s[..|s| - 1]); }
  }

  /** Whole amounts that round up to the next unit. */
  predicate RoundsUpToNextUnit(amount: nat) {
    || 999_950 <= amount < 1_000_000
    || 999_950_000 <= amount < 1_000_000_000
    || 999_950_000_000 <= amount < 1_000_000_000_000
  }

  /** A printed thousand of a unit that has a next one. */
  predicate ShowsThousand(body: string) {
    body == "1000K" || body == "1000M" || body == "1000B"
  }

  lemma OverflowAtUnit(amount: nat, unit: Unit)
    requires FindUnit(UNITS, amount) == Some(unit) && unit.value > 0
    ensures ShowsThousand(CompactText(Tenths(amount, unit), unit.suffix)) <==> RoundsUpToNextUnit(amount)
    ensures unit.suffix != 'T' && "1000" <= CompactText(Tenths(amount, unit), unit.suffix) <==>
        RoundsUpToNextUnit(amount)
  {
    UnitIsLargest(amount);
    var text := CompactText(Tenths(amount, unit), unit.suffix);
    assert text[|text| - 1] == unit.suffix;
    if unit.suffix != 'T' {
      TenthsOverflowIff(amount, unit);
      OverflowText(Tenths(amount, unit), unit.suffix);
    }
  }

  /** `formatMoney` prints a thousand of a unit where it has a larger one, as in "1000K", exactly for the whole
      amounts that are at least 999.95 of that unit. */
  lemma CompactFormOverflowsIff(m: Money)
    requires WellFormed(m)
    ensures FormatMoney(m, Compact).Some? && AllDigits(SplitAmount(m).value.whole)
    ensures ShowsThousand(AfterPrefix(m.currency, FormatMoney(m, Compact).value)) <==>
            RoundsUpToNextUnit(Value(SplitAmount(m).value.whole))
  {
    CompactBody(m);
    SplitGivesDigits(m);
    var p := SplitAmount(m).value;
    var amount := Value(p.whole);
    UnitIsLargest(amount);
    match FindUnit(UNITS, amount)
    case Some(unit) => OverflowAtUnit(amount, unit);
    case None => FullTextEndsInDigit(p.whole, p.fraction);
  }

  /** Such an amount, printed. */
  lemma ThousandThousand()
    ensures FormatMoney(Money("999950", "IDR", 0), Compact) == Some("Rp 1000K")
  {
    var m := Money("999950", "IDR", 0);
    assert DigitsOf("999950") == "999950" && AllDigits("999950");
    assert "999950"[..6] == "999950" && "999950"[6..] == "";
    assert SplitAmount(m) == Some(Parts(false, "999950", ""));
    ValueOf999950();
    UnitIsLargest(999950);
    var unit := FindUnit(UNITS, 999950).value;
    assert unit.suffix == 'K' && Tenths(999950, unit) == 10000;
    OverflowText(10000, 'K');
    assert "" + "Rp" + " " == "Rp " && "Rp " + "1000K" == "Rp 1000K";
    assert Label("IDR") == "Rp" && Prefix(false, "IDR") == "Rp ";
    assert "1000" + ['K'] == "1000K";
    assert CompactText(10000, 'K') == "1000K";
    assert FormatMoney(m, Compact) == Some(Prefix(false, "IDR") + CompactText(10000, 'K'));
  }

  lemma ValueOf999950()
    ensures Value("999950") == 999950
  {
    assert "999950"[..5] == "99995" && "99995"[..4] == "9999" && "9999"[..3] == "999" && "999"[..2] == "99"
        && "99"[..1] == "9";
    assert "9"[..0] == "";
    assert Value("9") == 9;
    assert Value("99") == 99;
    assert Value("999") == 999;
    assert Value("9999") == 9999;
    assert Value("99995") == 99995;
  }

  // The look of the full form.

  lemma {:induction false} TrimmedIff(fraction: string)
    ensures TrimZeros(fraction) == "" <==> forall k | 0 <= k < |fraction| :: fraction[k] == '0'
    ensures TrimZeros(fraction) != "" ==> TrimZeros(fraction)[|TrimZeros(fraction)| - 1] != '0'
  {
    if fraction != "" && fraction[|fraction| - 1] == '0' {
      var init := fraction[..|fraction| - 1];
      TrimmedIff(init);
      assert forall k | 0 <= k < |init| :: init[k] == fraction[k];
    }
  }

  /** A minus sign for a negative amount, the label, a space, and a body with a decimal comma exactly if the fraction
      has a digit other than zero, which then does not end in a zero. */
  lemma FullFormLooks(m: Money) returns (body: string)
    requires WellFormed(m)
    ensures FormatMoney(m, Full)
        == Some((if m.amountMinor[0] == '-' then "\U{2212}" else "")
                + (if m.currency == "IDR" then "Rp" else m.currency) + " " + body)
    ensures ',' in body <==> exists k | 0 <= k < m.scale :: SplitAmount(m).value.fraction[k] != '0'
    ensures body != "" && (',' in body ==> body[|body| - 1] != '0')
  {
    var p := SplitAmount(m).value;
    SplitGivesDigits(m);
    FullTextLooks(p.whole, p.fraction);
    body := FullText(p.whole, p.fraction);
    assert IsNegative(m.amountMinor) <==> m.amountMinor[0] == '-';
  }

  lemma FullTextLooks(whole: string, fraction: string)
    requires AllDigits(whole) && AllDigits(fraction) && whole != ""
    ensures var body := FullText(whole, fraction);
            && (',' in body <==> exists k | 0 <= k < |fraction| :: fraction[k] != '0')
            && body != "" && (',' in body ==> body[|body| - 1] != '0')
  {
    StripsGrouping(whole, 0);
    TrimmedIff(fraction);
    FullTextEndsInDigit(whole, fraction);
    var tail := if TrimZeros(fraction) == "" then "" else "," + TrimZeros(fraction);
    var body := FullText(whole, fraction);
    assert body == Group(whole) + tail;
    assert tail != "" ==> tail[0] in body && body[|body| - 1] == tail[|tail| - 1];
  }

  lemma {:induction false} GroupSuffix(head: string, three: string, i: nat)
    requires |three| == 3 && i <= |head| && head != ""
    ensures Group(head + three, i) == Group(head, i) + "." + three
    decreases |head| - i
  {
    var s := head + three;
    if i < |head| {
      GroupSuffix(head, three, i + 1);
      assert s[i] == head[i] && (|s| - i) % 3 == (|head| - i) % 3;
      var first := (if i > 0 && (|s| - i) % 3 == 0 then "." else "") + [s[i]];
      assert Group(s, i) == first + Group(s, i + 1) && Group(head, i) == first + Group(head, i + 1);
    } else {
      LastGroup(s, i);
      assert s[i..] == three && Group(head, i) == "";
    }
  }

  lemma LastGroup(s: string, i: nat)
    requires i > 0 && i + 3 == |s|
    ensures Group(s, i) == "." + s[i..]
  {
    assert Group(s, i + 3) == "";
    assert Group(s, i + 2) == [s[i + 2]];
    assert Group(s, i + 1) == [s[i + 1], s[i + 2]];
  }

  /** Up to three digits stand alone; each further group of three follows a dot. */
  lemma GroupsByThousand(head: string, three: string)
    ensures |three| <= 3 ==> Group(three) == three
    ensures |three| == 3 && head != "" ==> Group(head + three) == Group(head) + "." + three
  {
    if |three| == 3 && head != "" { GroupSuffix(head, three, 0); }
    if |three| <= 3 { GroupOfFew(three, 0); }
  }

  lemma {:induction false} GroupOfFew(s: string, i: nat)
    requires i <= |s| <= 3
    ensures Group(s, i) == s[i..]
    decreases |s| - i
  {
    if i < |s| {
      GroupOfFew(s, i + 1);
      assert s[i..] == [s[i]] + s[i + 1..];
    }
  }

  /** The parts of an amount that has more digits than its scale. */
  lemma PartsOf(m: Money, negative: bool, whole: string, fraction: string)
    requires m.amountMinor == (if negative then "-" else "") + whole + fraction && |fraction| == m.scale
    requires AllDigits(whole) && AllDigits(fraction) && whole != ""
    ensures SplitAmount(m) == Some(Parts(negative, whole, fraction))
  {
    var digits := whole + fraction;
    assert !negative ==> m.amountMinor == digits && digits[0] == whole[0];
    assert DigitsOf(m.amountMinor) == digits;
    assert digits[..|digits| - m.scale] == whole && digits[|digits| - m.scale..] == fraction;
  }

  // The documented examples.

  lemma ZeroRupiah()
    ensures FormatMoney(Money("0", "IDR", 0), Full) == Some("Rp 0")
  {
    PartsOf(Money("0", "IDR", 0), false, "0", "");
    GroupsByThousand("", "0");
    assert "" + "Rp" + " " + ("0" + "") == "Rp 0";
  }

  lemma RupiahWithCents()
    ensures FormatMoney(Money("12345", "IDR", 2), Full) == Some("Rp 123,45")
  {
    assert "" + "123" + "45" == "12345";
    PartsOf(Money("12345", "IDR", 2), false, "123", "45");
    GroupsByThousand("", "123");
    FullTextOf("123", "45");
    assert "" + "Rp" + " " + ("123" + ("," + "45")) == "Rp 123,45";
  }

  lemma MillionthsOfAToken()
    ensures FormatMoney(Money("1234567", "USDC", 6), Full) == Some("USDC 1,234567")
  {
    var fraction := "234567";
    assert "" + "1" + fraction == "1234567";
    PartsOf(Money("1234567", "USDC", 6), false, "1", fraction);
    TokenText(fraction);
  }

  lemma TokenText(fraction: string)
    requires fraction == "234567"
    ensures Prefix(false, "USDC") + FullText("1", fraction) == "USDC 1,234567"
  {
    GroupsByThousand("", "1");
    FullTextOf("1", fraction);
    assert Prefix(false, "USDC") == "USDC ";
  }

  lemma TrailingZeros()
    ensures FormatMoney(Money("640000000", "JUSD", 7), Full) == Some("JUSD 64")
  {
    assert "" + "64" + "0000000" == "640000000";
    PartsOf(Money("640000000", "JUSD", 7), false, "64", "0000000");
    GroupsByThousand("", "64");
    TrimmedIff("0000000");
    assert "" + "JUSD" + " " + ("64" + "") == "JUSD 64";
  }

  /** A negative amount beyond what a floating-point number can hold. */
  lemma BeyondSafeIntegers()
    ensures FormatMoney(Money("-900719925474099312345", "IDR", 2), Full)
        == Some("\U{2212}Rp 9.007.199.254.740.993.123,45")
  {
    var whole := "9007199254740993123";
    SplitBeyond(whole);
    GroupOfNineteen();
    FullTextBeyond(whole);
  }

  lemma SplitBeyond(whole: string)
    requires whole == "9007199254740993123"
    ensures SplitAmount(Money("-900719925474099312345", "IDR", 2)) == Some(Parts(true, whole, "45"))
  {
    var amount := "-900719925474099312345";
    assert amount == "-" + whole + "45";
    PartsOf(Money(amount, "IDR", 2), true, whole, "45");
  }

  lemma FullTextBeyond(whole: string)
    requires Group(whole) == "9.007.199.254.740.993.123"
    ensures Prefix(true, "IDR") + FullText(whole, "45") == "\U{2212}Rp 9.007.199.254.740.993.123,45"
  {
    FullTextOf(whole, "45");
    BodyBeyond(FullText(whole, "45"), Group(whole));
    assert Prefix(true, "IDR") == "\U{2212}Rp ";
  }

  lemma BodyBeyond(body: string, grouped: string)
    requires grouped == "9.007.199.254.740.993.123" && body == grouped + ",45"
    ensures "\U{2212}Rp " + body == "\U{2212}Rp 9.007.199.254.740.993.123,45"
  {
  }

  lemma FullTextOf(whole: string, fraction: string)
    requires fraction != "" && fraction[|fraction| - 1] != '0'
    ensures FullText(whole, fraction) == Group(whole) + ("," + fraction)
  {
  }

  lemma GroupNext(head: string, three: string, grouped: string)
    requires |three| == 3 && head != "" && Group(head) == grouped
    ensures Group(head + three) == grouped + "." + three
  {
    GroupsByThousand(head, three);
  }

  lemma GroupOfTen()
    ensures Group("9007199254") == "9.007.199.254"
  {
    GroupsByThousand("", "9");
    GroupNext("9", "007", "9");
    assert "9" + "007" == "9007" && "9" + "." + "007" == "9.007";
    GroupNext("9007", "199", "9.007");
    assert "9007" + "199" == "9007199" && "9.007" + "." + "199" == "9.007.199";
    GroupNext("9007199", "254", "9.007.199");
    assert "9007199" + "254" == "9007199254" && "9.007.199" + "." + "254" == "9.007.199.254";
  }

  lemma GroupOfThirteen()
    ensures Group("9007199254740") == "9.007.199.254.740"
  {
    GroupOfTen();
    GroupNext("9007199254", "740", "9.007.199.254");
    assert "9007199254" + "740" == "9007199254740";
    assert "9.007.199.254" + "." + "740" == "9.007.199.254.740";
  }

  lemma GroupOfSixteen()
    ensures Group("9007199254740993") == "9.007.199.254.740.993"
  {
    GroupOfThirteen();
    GroupNext("9007199254740", "993", "9.007.199.254.740");
    assert "9007199254740" + "993" == "9007199254740993";
    assert "9.007.199.254.740" + "." + "993" == "9.007.199.254.740.993";
  }

  lemma GroupOfNineteen()
    ensures Group("9007199254740993123") == "9.007.199.254.740.993.123"
  {
    GroupOfSixteen();
    GroupNext("9007199254740993", "123", "9.007.199.254.740.993");
    assert "9007199254740993" + "123" == "9007199254740993123";
    assert "9.007.199.254.740.993" + "." + "123" == "9.007.199.254.740.993.123";
  }

  /** One and a quarter billion, rounded up to tenths. */
  lemma CompactBillions()
    ensures FormatMoney(Money("125000000000", "IDR", 2), Compact) == Some("Rp 1.3B")
  {
    assert "" + "1250000000" + "00" == "125000000000";
    PartsOf(Money("125000000000", "IDR", 2), false, "1250000000", "00");
    ValueOfBillions();
    UnitIsLargest(1_250_000_000);
    var unit := FindUnit(UNITS, 1_250_000_000).value;
    assert unit.suffix == 'B' && Tenths(1_250_000_000, unit) == 13;
    assert "1" + ("." + "3") + ['B'] == "1.3B";
    assert CompactText(13, 'B') == "1.3B";
    assert "" + "Rp" + " " + "1.3B" == "Rp 1.3B";
  }

  lemma {:induction false} ValueShifts(digits: string, n: nat)
    requires AllDigits(digits)
    ensures Value(digits + Zeros(n)) == Value(digits) * Power10(n)
  {
    if n == 0 {
      assert digits + Zeros(0) == digits;
    } else {
      ValueShifts(digits, n - 1);
      assert (digits + Zeros(n))[..|digits| + n - 1] == digits + Zeros(n - 1);
      TimesTen(Value(digits), Power10(n - 1));
    }
  }

  lemma TimesTen(a: nat, b: nat)
    ensures 10 * (a * b) == a * (10 * b)
  {
  }

  function Power10(n: nat): nat {
    if n == 0 then 1 else 10 * Power10(n - 1)
  }

  lemma ValueOfBillions()
    ensures Value("1250000000") == 1_250_000_000
  {
    assert "125" + Zeros(7) == "1250000000";
    ValueShifts("125", 7);
    assert "125"[..2] == "12" && "12"[..1] == "1" && "1"[..0] == "";
    assert Value("1") == 1;
    assert Value("12") == 12;
    assert Value("125") == 125;
  }
}
