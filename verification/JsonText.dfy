/** JSON values as JavaScript sees them, their plain text, and a parser that inverts it. */
module JsonText {
  import opened Texts
  import opened NumberText

  datatype Pair<+T> = Pair(key: Text, value: T)

  /** `NonFinite` is NaN or an infinity; `Unsupported` a function, symbol or bigint. */
  datatype Json =
    | Null
    | Bool(b: bool)
    | Num(n: Number)
    | NonFinite
    | Str(s: Text)
    | Arr(items: seq<Json>)
    | Obj(members: seq<Pair<Json>>)
    | Undefined
    | Unsupported

  const QUOTE: CodeUnit := 34
  const COMMA: CodeUnit := 44
  const COLON: CodeUnit := 58
  const OPEN_BRACKET: CodeUnit := 91
  const BACKSLASH: CodeUnit := 92
  const CLOSE_BRACKET: CodeUnit := 93
  const LETTER_U: CodeUnit := 117
  const OPEN_BRACE: CodeUnit := 123
  const CLOSE_BRACE: CodeUnit := 125
  const NULL_TEXT: Text := [110, 117, 108, 108]
  const TRUE_TEXT: Text := [116, 114, 117, 101]
  const FALSE_TEXT: Text := [102, 97, 108, 115, 101]

  predicate IsHigh(u: CodeUnit) { 0xD800 <= u <= 0xDBFF }
  predicate IsLow(u: CodeUnit) { 0xDC00 <= u <= 0xDFFF }

  // Strings: two-character escapes, \u00xx for other controls and for lone surrogates.

  /** The letter of a two-character escape, or 0. */
  function ShortEscape(u: CodeUnit): CodeUnit {
    match u
    case 8 => 98
    case 9 => 116
    case 10 => 110
    case 12 => 102
    case 13 => 114
    case 34 => 34
    case 92 => 92
    case _ => 0
  }

  /** The code unit a two-character escape stands for, or 0. */
  function ShortUnescape(letter: CodeUnit): CodeUnit {
    match letter
    case 98 => 8
    case 116 => 9
    case 110 => 10
    case 102 => 12
    case 114 => 13
    case 34 => 34
    case 92 => 92
    case _ => 0
  }

  function Hex(d: int): CodeUnit
    requires 0 <= d < 16
  {
    if d < 10 then ZERO + d else 87 + d
  }

  /** The value of a lower-case hexadecimal digit, or 16. */
  function HexValue(u: CodeUnit): nat {
    if IsDigit(u) then u - ZERO else if 97 <= u <= 102 then u - 87 else 16
  }

  function UnicodeEscape(u: CodeUnit): Text {
    [BACKSLASH, LETTER_U, Hex(u / 0x1000), Hex(u / 0x100 % 16), Hex(u / 0x10 % 16), Hex(u % 16)]
  }

  /** How many code units the next escape consumes, and what it writes for them. */
  function Chunk(s: Text): nat
    requires s != []
    ensures 1 <= Chunk(s) <= |s|
  {
    if ShortEscape(s[0]) == 0 && IsHigh(s[0]) && |s| > 1 && IsLow(s[1]) then 2 else 1
  }

  function Written(s: Text): Text
    requires s != []
  {
    if ShortEscape(s[0]) != 0 then [BACKSLASH, ShortEscape(s[0])]
    else if Chunk(s) == 2 then [s[0], s[1]]
    else if s[0] < 32 || IsHigh(s[0]) || IsLow(s[0]) then UnicodeEscape(s[0])
    else [s[0]]
  }

  function Escape(s: Text): Text {
    if s == [] then [] else Written(s) + Escape(s[Chunk(s)..])
  }

  function Quoted(s: Text): Text {
    [QUOTE] + Escape(s) + [QUOTE]
  }

  // Values without undefined, non-finite or unsupported parts, members in the order given.

  predicate Clean(v: Json) {
    match v
    case Arr(items) => forall x <- items :: Clean(x)
    case Obj(members) => forall m <- members :: Clean(m.value)
    case NonFinite => false
    case Undefined => false
    case Unsupported => false
    case _ => true
  }

  function Render(v: Json): Text
    requires Clean(v)
    decreases v
  {
    match v
    case Null => NULL_TEXT
    case Bool(b) => if b then TRUE_TEXT else FALSE_TEXT
    case Num(n) => Print(n)
    case Str(s) => Quoted(s)
    case Arr(items) => [OPEN_BRACKET] + RenderItems(items) + [CLOSE_BRACKET]
    case Obj(members) => [OPEN_BRACE] + RenderMembers(members) + [CLOSE_BRACE]
  }

  /** `join(",")` */
  function RenderItems(items: seq<Json>): Text
    requires forall x <- items :: Clean(x)
    decreases items
  {
    if items == [] then []
    else if |items| == 1 then Render(items[0])
    else Render(items[0]) + [COMMA] + RenderItems(items[1..])
  }

  function RenderMembers(members: seq<Pair<Json>>): Text
    requires forall m <- members :: Clean(m.value)
    decreases members
  {
    if members == [] then []
    else if |members| == 1 then Quoted(members[0].key) + [COLON] + Render(members[0].value)
    else Quoted(members[0].key) + [COLON] + Render(members[0].value) + [COMMA] + RenderMembers(members[1..])
  }

  // The parser.

  /** The body of a string literal, after its opening quote. */
  function ReadString(t: Text): (p: Parsed<Text>)
    ensures p.Read? ==> |p.rest| < |t|
  {
    if t == [] || t[0] < 32 then Failed
    else if t[0] == QUOTE then Read([], t[1..])
    else if t[0] != BACKSLASH then Prepend(t[0], ReadString(t[1..]))
    else if |t| >= 6 && t[1] == LETTER_U then
      var a, b, c, d := HexValue(t[2]), HexValue(t[3]), HexValue(t[4]), HexValue(t[5]);
      if a < 16 && b < 16 && c < 16 && d < 16
      then Prepend(((a * 16 + b) * 16 + c) * 16 + d, ReadString(t[6..]))
      else Failed
    else if |t| >= 2 && ShortUnescape(t[1]) != 0 then Prepend(ShortUnescape(t[1]), ReadString(t[2..]))
    else Failed
  }

  function Prepend(u: CodeUnit, p: Parsed<Text>): (q: Parsed<Text>)
    ensures q.Read? <==> p.Read?
    ensures p.Read? ==> q == Read([u] + p.value, p.rest)
  {
    match p
    case Failed => Failed
    case Read(s, rest) => Read([u] + s, rest)
  }

  function ReadValue(t: Text): (p: Parsed<Json>)
    ensures p.Read? ==> |p.rest| < |t|
    decreases |t|, 0
  {
    if t == [] then Failed
    else if t[0] == QUOTE then
      match ReadString(t[1..]) case Read(s, rest) => Read(Str(s), rest) case Failed => Failed
    else if t[0] == OPEN_BRACKET then
      if |t| > 1 && t[1] == CLOSE_BRACKET then Read(Arr([]), t[2..])
      else match ReadItems(t[1..]) case Read(items, rest) => Read(Arr(items), rest) case Failed => Failed
    else if t[0] == OPEN_BRACE then
      if |t| > 1 && t[1] == CLOSE_BRACE then Read(Obj([]), t[2..])
      else match ReadMembers(t[1..]) case Read(members, rest) => Read(Obj(members), rest) case Failed => Failed
    else if NULL_TEXT <= t then Read(Null, t[4..])
    else if TRUE_TEXT <= t then Read(Bool(true), t[4..])
    else if FALSE_TEXT <= t then Read(Bool(false), t[5..])
    else match ReadNumber(t) case Read(n, rest) => Read(Num(n), rest) case Failed => Failed
  }

  /** One or more values and the closing bracket. */
  function ReadItems(t: Text): (p: Parsed<seq<Json>>)
    ensures p.Read? ==> |p.rest| < |t|
    decreases |t|, 1
  {
    match ReadValue(t)
    case Failed => Failed
    case Read(item, rest) =>
      if rest == [] then Failed
      else if rest[0] == CLOSE_BRACKET then Read([item], rest[1..])
      else if rest[0] != COMMA then Failed
      else
        match ReadItems(rest[1..])
        case Failed => Failed
        case Read(items, end) => Read([item] + items, end)
  }

  /** One or more members and the closing brace. */
  function ReadMembers(t: Text): (p: Parsed<seq<Pair<Json>>>)
    ensures p.Read? ==> |p.rest| < |t|
    decreases |t|, 1
  {
    if t == [] || t[0] != QUOTE then Failed
    else
      match ReadString(t[1..])
      case Failed => Failed
      case Read(key, afterKey) =>
        if afterKey == [] || afterKey[0] != COLON then Failed
        else
          match ReadValue(afterKey[1..])
          case Failed => Failed
          case Read(value, rest) =>
            if rest == [] then Failed
            else if rest[0] == CLOSE_BRACE then Read([Pair(key, value)], rest[1..])
            else if rest[0] != COMMA then Failed
            else
              match ReadMembers(rest[1..])
              case Failed => Failed
              case Read(members, end) => Read([Pair(key, value)] + members, end)
  }

  // The parser inverts the printer.

  lemma HexRoundTrip(u: CodeUnit, rest: Text)
    ensures ReadString(UnicodeEscape(u) + rest) == Prepend(u, ReadString(rest))
  {
    var t := UnicodeEscape(u) + rest;
    HexDigits(u);
    assert t[6..] == rest;
    assert t[0] == BACKSLASH && t[1] == LETTER_U;
    assert HexValue(t[2]) == u / 0x1000 && HexValue(t[3]) == u / 0x100 % 16;
    assert HexValue(t[4]) == u / 0x10 % 16 && HexValue(t[5]) == u % 16;
  }

  lemma HexDigits(u: CodeUnit)
    ensures 0 <= u / 0x1000 < 16
    ensures ((u / 0x1000 * 16 + u / 0x100 % 16) * 16 + u / 0x10 % 16) * 16 + u % 16 == u
    ensures forall d | 0 <= d < 16 :: HexValue(Hex(d)) == d
  {
    assert u / 0x100 == u / 0x1000 * 16 + u / 0x100 % 16 by { NextNibble(u / 0x100, u / 0x1000); }
    assert u / 0x10 == u / 0x100 * 16 + u / 0x10 % 16 by { NextNibble(u / 0x10, u / 0x100); }
    forall d | 0 <= d < 16 ensures HexValue(Hex(d)) == d { HexDigit(d); }
  }

  lemma NextNibble(n: nat, high: nat)
    requires high == n / 16
    ensures n == high * 16 + n % 16
  {
  }

  lemma HexDigit(d: int)
    requires 0 <= d < 16
    ensures HexValue(Hex(d)) == d
  {
  }

  lemma ShortRoundTrip(u: CodeUnit, rest: Text)
    requires ShortEscape(u) != 0
    ensures ReadString([BACKSLASH, ShortEscape(u)] + rest) == Prepend(u, ReadString(rest))
  {
    var t := [BACKSLASH, ShortEscape(u)] + rest;
    assert t[2..] == rest;
    assert ShortUnescape(ShortEscape(u)) == u;
  }

  lemma RawRoundTrip(u: CodeUnit, rest: Text)
    requires u >= 32 && u != QUOTE && u != BACKSLASH
    ensures ReadString([u] + rest) == Prepend(u, ReadString(rest))
  {
    assert ([u] + rest)[1..] == rest;
  }

  function PrependAll(s: Text, p: Parsed<Text>): Parsed<Text> {
    if p.Read? then Read(s + p.value, p.rest) else Failed
  }

  lemma ChunkRoundTrip(s: Text, tail: Text)
    requires s != []
    ensures ReadString(Written(s) + tail) == PrependAll(s[..Chunk(s)], ReadString(tail))
  {
    assert s[..1] == [s[0]];
    if ShortEscape(s[0]) != 0 {
      ShortRoundTrip(s[0], tail);
    } else if Chunk(s) == 2 {
      RawRoundTrip(s[1], tail);
      RawRoundTrip(s[0], [s[1]] + tail);
      assert Written(s) + tail == [s[0]] + ([s[1]] + tail);
      assert s[..2] == [s[0]] + [s[1]];
      if ReadString(tail).Read? {
        assert [s[0]] + ([s[1]] + ReadString(tail).value) == s[..2] + ReadString(tail).value;
      }
    } else if s[0] < 32 || IsHigh(s[0]) || IsLow(s[0]) {
      HexRoundTrip(s[0], tail);
    } else {
      RawRoundTrip(s[0], tail);
    }
  }

  lemma PrependAllTwice(a: Text, b: Text, p: Parsed<Text>)
    ensures PrependAll(a, PrependAll(b, p)) == PrependAll(a + b, p)
  {
    if p.Read? { assert a + (b + p.value) == a + b + p.value; }
  }

  lemma {:induction false} EscapeRoundTrip(s: Text, tail: Text)
    ensures ReadString(Escape(s) + tail) == PrependAll(s, ReadString(tail))
  {
    if s == [] {
      assert Escape(s) + tail == tail;
      if ReadString(tail).Read? { assert s + ReadString(tail).value == ReadString(tail).value; }
    } else {
      var front, back := s[..Chunk(s)], s[Chunk(s)..];
      EscapeRoundTrip(back, tail);
      ChunkRoundTrip(s, Escape(back) + tail);
      PrependAllTwice(front, back, ReadString(tail));
      assert front + back == s;
      Associate(Written(s), Escape(back), tail);
    }
  }

  lemma StringRoundTrip(s: Text, rest: Text)
    ensures ReadString((Quoted(s) + rest)[1..]) == Read(s, rest)
  {
    var tail := [QUOTE] + rest;
    EscapeRoundTrip(s, tail);
    assert ReadString(tail) == Read([], rest) by { assert tail[1..] == rest; }
    assert s + [] == s;
    Enclosed(QUOTE, Escape(s), QUOTE, rest);
  }

  /** The first code unit of a text tells its kind. */
  lemma RenderStarts(v: Json)
    requires Clean(v)
    ensures var t := Render(v);
            && t != [] && t[0] != CLOSE_BRACKET && t[0] != CLOSE_BRACE
            && (v.Str? <==> t[0] == QUOTE) && (v.Arr? <==> t[0] == OPEN_BRACKET) && (v.Obj? <==> t[0] == OPEN_BRACE)
  {
    if v.Num? { NumberRoundTrip(v.n, []); }
  }

  lemma WordRoundTrip(word: Text, v: Json, rest: Text)
    requires (v.Null? && word == NULL_TEXT) || (v.Bool? && word == if v.b then TRUE_TEXT else FALSE_TEXT)
    ensures ReadValue(word + rest) == Read(v, rest)
  {
    var t := word + rest;
    assert t[|word|..] == rest && word <= t && t[0] == word[0];
  }

  lemma NumeralIsNoWord(t: Text)
    requires t != [] && (t[0] == MINUS || IsDigit(t[0]))
    ensures !(NULL_TEXT <= t) && !(TRUE_TEXT <= t) && !(FALSE_TEXT <= t)
    ensures t[0] != QUOTE && t[0] != OPEN_BRACKET && t[0] != OPEN_BRACE
  {
    assert NULL_TEXT[0] != t[0] && TRUE_TEXT[0] != t[0] && FALSE_TEXT[0] != t[0];
  }

  lemma NumeralRoundTrip(t: Text, n: Number, rest: Text)
    requires t != [] && (t[0] == MINUS || IsDigit(t[0])) && ReadNumber(t) == Read(n, rest)
    ensures ReadValue(t) == Read(Num(n), rest)
  {
    NumeralIsNoWord(t);
  }

  lemma LiteralRoundTrip(v: Json, rest: Text)
    requires v.Null? || v.Bool? || v.Num?
    requires Ends(rest)
    ensures ReadValue(Render(v) + rest) == Read(v, rest)
  {
    if v.Num? {
      NumberRoundTrip(v.n, rest);
      assert (Print(v.n) + rest)[0] == Print(v.n)[0];
      NumeralRoundTrip(Print(v.n) + rest, v.n, rest);
    } else {
      WordRoundTrip(Render(v), v, rest);
    }
  }

  /** Parsing a printed value gives it back and stops where its text ends. */
  lemma {:induction false} RoundTrip(v: Json, rest: Text)
    requires Clean(v) && Ends(rest)
    ensures ReadValue(Render(v) + rest) == Read(v, rest)
    decreases v, 0
  {
    match v
    case Str(s) => StringRoundTrip(s, rest);
    case Arr(items) =>
      if items != [] { ItemsRoundTrip(items, rest); }
      Bracketed(items, rest);
    case Obj(members) =>
      if members != [] { MembersRoundTrip(members, rest); }
      Braced(members, rest);
    case _ => LiteralRoundTrip(v, rest);
  }

  /** A text between two delimiters. */
  lemma Enclosed(open: CodeUnit, inner: Text, close: CodeUnit, rest: Text)
    ensures var t := [open] + inner + [close] + rest;
            && |t| > 1 && t[0] == open && t[1..] == inner + ([close] + rest)
            && (if inner == [] then t[1] == close && t[2..] == rest else t[1] == inner[0])
  {
    var t := [open] + inner + [close] + rest;
    assert t[1..] == inner + ([close] + rest);
    if inner == [] { assert t[2..] == rest; }
  }

  lemma ItemsStart(items: seq<Json>)
    requires items != [] && forall x <- items :: Clean(x)
    ensures RenderItems(items) != [] && RenderItems(items)[0] != CLOSE_BRACKET
  {
    RenderStarts(items[0]);
  }

  lemma MembersStart(members: seq<Pair<Json>>)
    requires members != [] && forall m <- members :: Clean(m.value)
    ensures RenderMembers(members) != [] && RenderMembers(members)[0] == QUOTE
  {
  }

  lemma ReadArray(t: Text, items: seq<Json>, rest: Text)
    requires |t| > 1 && t[0] == OPEN_BRACKET
    requires if t[1] == CLOSE_BRACKET then items == [] && t[2..] == rest else ReadItems(t[1..]) == Read(items, rest)
    ensures ReadValue(t) == Read(Arr(items), rest)
  {
  }

  lemma ReadObject(t: Text, members: seq<Pair<Json>>, rest: Text)
    requires |t| > 1 && t[0] == OPEN_BRACE
    requires if t[1] == CLOSE_BRACE then members == [] && t[2..] == rest else ReadMembers(t[1..]) == Read(members, rest)
    ensures ReadValue(t) == Read(Obj(members), rest)
  {
  }

  lemma Bracketed(items: seq<Json>, rest: Text)
    requires forall x <- items :: Clean(x)
    requires items != [] ==> ReadItems(RenderItems(items) + ([CLOSE_BRACKET] + rest)) == Read(items, rest)
    ensures ReadValue(Render(Arr(items)) + rest) == Read(Arr(items), rest)
  {
    Enclosed(OPEN_BRACKET, RenderItems(items), CLOSE_BRACKET, rest);
    if items != [] { ItemsStart(items); }
    ReadArray(Render(Arr(items)) + rest, items, rest);
  }

  lemma Braced(members: seq<Pair<Json>>, rest: Text)
    requires forall m <- members :: Clean(m.value)
    requires members != [] ==> ReadMembers(RenderMembers(members) + ([CLOSE_BRACE] + rest)) == Read(members, rest)
    ensures ReadValue(Render(Obj(members)) + rest) == Read(Obj(members), rest)
  {
    Enclosed(OPEN_BRACE, RenderMembers(members), CLOSE_BRACE, rest);
    if members != [] { MembersStart(members); }
    ReadObject(Render(Obj(members)) + rest, members, rest);
  }

  lemma {:induction false} ItemsRoundTrip(items: seq<Json>, rest: Text)
    requires items != [] && forall x <- items :: Clean(x)
    ensures ReadItems(RenderItems(items) + ([CLOSE_BRACKET] + rest)) == Read(items, rest)
    decreases items, 1
  {
    if |items| == 1 {
      RoundTrip(items[0], [CLOSE_BRACKET] + rest);
      LastItemRoundTrip(items[0], rest);
      assert items == [items[0]];
    } else {
      RoundTrip(items[0], [COMMA] + (RenderItems(items[1..]) + ([CLOSE_BRACKET] + rest)));
      ItemsRoundTrip(items[1..], rest);
      FirstItemRoundTrip(items, rest);
    }
  }

  lemma FirstItemRoundTrip(items: seq<Json>, rest: Text)
    requires |items| > 1 && forall x <- items :: Clean(x)
    requires var more := RenderItems(items[1..]) + ([CLOSE_BRACKET] + rest);
             && ReadItems(more) == Read(items[1..], rest)
             && ReadValue(Render(items[0]) + ([COMMA] + more)) == Read(items[0], [COMMA] + more)
    ensures ReadItems(RenderItems(items) + ([CLOSE_BRACKET] + rest)) == Read(items, rest)
  {
    var end := [CLOSE_BRACKET] + rest;
    ItemsText(items, end);
    MoreItemsRoundTrip(items[0], RenderItems(items[1..]) + end, items[1..], rest);
    assert items == [items[0]] + items[1..];
  }

  lemma ItemsText(items: seq<Json>, end: Text)
    requires |items| > 1 && forall x <- items :: Clean(x)
    ensures RenderItems(items) + end == Render(items[0]) + ([COMMA] + (RenderItems(items[1..]) + end))
  {
    Regroup(Render(items[0]), [COMMA], RenderItems(items[1..]), end);
  }

  lemma LastItemRoundTrip(v: Json, rest: Text)
    requires Clean(v) && ReadValue(Render(v) + ([CLOSE_BRACKET] + rest)) == Read(v, [CLOSE_BRACKET] + rest)
    ensures ReadItems(Render(v) + ([CLOSE_BRACKET] + rest)) == Read([v], rest)
  {
    assert ([CLOSE_BRACKET] + rest)[1..] == rest;
    ItemRoundTrip(v, [CLOSE_BRACKET] + rest);
  }

  lemma MoreItemsRoundTrip(v: Json, more: Text, others: seq<Json>, rest: Text)
    requires Clean(v) && ReadItems(more) == Read(others, rest)
    requires ReadValue(Render(v) + ([COMMA] + more)) == Read(v, [COMMA] + more)
    ensures ReadItems(Render(v) + ([COMMA] + more)) == Read([v] + others, rest)
  {
    assert ([COMMA] + more)[1..] == more;
    ItemRoundTrip(v, [COMMA] + more);
  }

  /** Reading one item and going on with what follows it. */
  lemma ItemRoundTrip(v: Json, tail: Text)
    requires Clean(v) && tail != [] && ReadValue(Render(v) + tail) == Read(v, tail)
    requires tail[0] == CLOSE_BRACKET || tail[0] == COMMA
    ensures tail[0] == CLOSE_BRACKET ==> ReadItems(Render(v) + tail) == Read([v], tail[1..])
    ensures tail[0] == COMMA && ReadItems(tail[1..]).Read? ==>
              ReadItems(Render(v) + tail) == Read([v] + ReadItems(tail[1..]).value, ReadItems(tail[1..]).rest)
  {
  }

  lemma {:induction false} MembersRoundTrip(members: seq<Pair<Json>>, rest: Text)
    requires members != [] && forall m <- members :: Clean(m.value)
    ensures ReadMembers(RenderMembers(members) + ([CLOSE_BRACE] + rest)) == Read(members, rest)
    decreases members, 1
  {
    var m, end := members[0], [CLOSE_BRACE] + rest;
    MembersText(members, end);
    if |members| == 1 {
      RoundTrip(m.value, end);
      MemberRoundTrip(m, end);
      assert end[1..] == rest && members == [m];
    } else {
      var more := RenderMembers(members[1..]) + end;
      RoundTrip(m.value, [COMMA] + more);
      MembersRoundTrip(members[1..], rest);
      MoreMembersRoundTrip(m, more, members[1..], rest);
      assert members == [m] + members[1..];
    }
  }

  lemma MoreMembersRoundTrip(m: Pair<Json>, more: Text, others: seq<Pair<Json>>, rest: Text)
    requires Clean(m.value) && ReadMembers(more) == Read(others, rest)
    requires ReadValue(Render(m.value) + ([COMMA] + more)) == Read(m.value, [COMMA] + more)
    ensures ReadMembers(MemberText(m, [COMMA] + more)) == Read([m] + others, rest)
  {
    assert ([COMMA] + more)[1..] == more;
    MemberRoundTrip(m, [COMMA] + more);
  }

  lemma MembersText(members: seq<Pair<Json>>, end: Text)
    requires members != [] && forall m <- members :: Clean(m.value)
    ensures |members| == 1 ==> RenderMembers(members) + end == MemberText(members[0], end)
    ensures |members| > 1 ==>
              RenderMembers(members) + end == MemberText(members[0], [COMMA] + (RenderMembers(members[1..]) + end))
  {
    var key, value := Quoted(members[0].key), Render(members[0].value);
    if |members| == 1 {
      Regroup(key, [COLON], value, end);
    } else {
      var more := RenderMembers(members[1..]);
      Regroup(key, [COLON], value, [COMMA] + (more + end));
      Regroup(key + [COLON] + value, [COMMA], more, end);
    }
  }

  lemma Regroup(a: Text, b: Text, c: Text, d: Text)
    ensures a + b + c + d == a + (b + (c + d))
  {
    assert a + b + c + d == a + b + (c + d);
  }

  function MemberText(m: Pair<Json>, tail: Text): Text
    requires Clean(m.value)
  {
    Quoted(m.key) + ([COLON] + (Render(m.value) + tail))
  }

  /** Reading one member and going on with what follows it. */
  lemma MemberRoundTrip(m: Pair<Json>, tail: Text)
    requires Clean(m.value) && tail != [] && ReadValue(Render(m.value) + tail) == Read(m.value, tail)
    requires tail[0] == CLOSE_BRACE || tail[0] == COMMA
    ensures tail[0] == CLOSE_BRACE ==> ReadMembers(MemberText(m, tail)) == Read([m], tail[1..])
    ensures tail[0] == COMMA && ReadMembers(tail[1..]).Read? ==>
              ReadMembers(MemberText(m, tail)) == Read([m] + ReadMembers(tail[1..]).value, ReadMembers(tail[1..]).rest)
  {
    var afterKey := [COLON] + (Render(m.value) + tail);
    StringRoundTrip(m.key, afterKey);
    assert afterKey[1..] == Render(m.value) + tail;
    assert MemberText(m, tail)[0] == QUOTE;
  }

  // String literals, unit by unit.

  const HEX_DIGITS: string := "0123456789abcdef"

  /** The literal of one code unit: a two-character escape for seven of them, and the unit itself unless it is another
      control or a surrogate. */
  lemma LiteralOfUnit(u: CodeUnit)
    ensures u == 8 ==> Quoted([u]) == Ascii("\"\\b\"")
    ensures u == 9 ==> Quoted([u]) == Ascii("\"\\t\"")
    ensures u == 10 ==> Quoted([u]) == Ascii("\"\\n\"")
    ensures u == 12 ==> Quoted([u]) == Ascii("\"\\f\"")
    ensures u == 13 ==> Quoted([u]) == Ascii("\"\\r\"")
    ensures u == 34 ==> Quoted([u]) == Ascii("\"\\\"\"")
    ensures u == 92 ==> Quoted([u]) == Ascii("\"\\\\\"")
    ensures u !in [8, 9, 10, 12, 13, 34, 92] && !(u < 32 || 0xD800 <= u < 0xE000) ==> Quoted([u]) == [34, u, 34]
  {
    EscapeOfUnit(u);
    LiteralTokens();
  }

  lemma EscapeOfUnit(u: CodeUnit)
    ensures Escape([u]) == Written([u])
  {
    assert [u][1..] == [];
  }

  lemma LiteralTokens()
    ensures Ascii("\"\\b\"") == [34, 92, 98, 34] && Ascii("\"\\t\"") == [34, 92, 116, 34]
    ensures Ascii("\"\\n\"") == [34, 92, 110, 34] && Ascii("\"\\f\"") == [34, 92, 102, 34]
    ensures Ascii("\"\\r\"") == [34, 92, 114, 34] && Ascii("\"\\\"\"") == [34, 92, 34, 34]
    ensures Ascii("\"\\\\\"") == [34, 92, 92, 34] && Ascii("\\u") == [92, 117]
  {
  }

  /** A unicode escape in lower-case hexadecimal. */
  lemma LiteralOfControl(u: CodeUnit)
    requires u !in [8, 9, 10, 12, 13] && (u < 32 || 0xD800 <= u < 0xE000)
    ensures Escape([u]) == Ascii("\\u") + Ascii([HEX_DIGITS[u / 0x1000], HEX_DIGITS[u / 0x100 % 16],
                                                HEX_DIGITS[u / 0x10 % 16], HEX_DIGITS[u % 16]])
  {
    EscapeOfUnit(u);
    assert Escape([u]) == UnicodeEscape(u);
    FourHexDigits(u / 0x1000, u / 0x100 % 16, u / 0x10 % 16, u % 16);
    assert Ascii("\\u") == [92, 117];
  }

  lemma FourHexDigits(a: nat, b: nat, c: nat, d: nat)
    requires a < 16 && b < 16 && c < 16 && d < 16
    ensures Ascii([HEX_DIGITS[a], HEX_DIGITS[b], HEX_DIGITS[c], HEX_DIGITS[d]]) == [Hex(a), Hex(b), Hex(c), Hex(d)]
  {
    HexDigitIs(a);
    HexDigitIs(b);
    HexDigitIs(c);
    HexDigitIs(d);
  }

  lemma HexDigitIs(d: int)
    requires 0 <= d < 16
    ensures Hex(d) == HEX_DIGITS[d] as int
  {
  }

  /** A surrogate pair stands for itself. */
  lemma PairsAreKept(high: CodeUnit, low: CodeUnit)
    requires 0xD800 <= high < 0xDC00 <= low < 0xE000
    ensures Escape([high, low]) == [high, low]
  {
    assert [high, low][2..] == [];
  }

  /** Literals are written piece by piece, as long as no surrogate pair is torn apart. */
  lemma {:induction false} EscapesJoin(s: Text, t: Text)
    requires s == [] || t == [] || !(0xD800 <= s[|s| - 1] < 0xDC00 <= t[0] < 0xE000)
    ensures Escape(s + t) == Escape(s) + Escape(t)
  {
    if s == [] {
      assert s + t == t;
    } else {
      var n := Chunk(s);
      EscapesJoin(s[n..], t);
      FirstChunkStays(s, t);
      Associate(Written(s), Escape(s[n..]), Escape(t));
    }
  }

  lemma FirstChunkStays(s: Text, t: Text)
    requires s != [] && (t == [] || !(0xD800 <= s[|s| - 1] < 0xDC00 <= t[0] < 0xE000))
    ensures Chunk(s + t) == Chunk(s) && Written(s + t) == Written(s)
    ensures (s + t)[Chunk(s)..] == s[Chunk(s)..] + t
  {
    assert (s + t)[0] == s[0];
    if |s| > 1 { assert (s + t)[1] == s[1]; }
  }
}
