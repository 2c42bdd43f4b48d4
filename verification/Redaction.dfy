/** `safeAttributes`: everything under a sensitive key becomes the marker, at any depth. */
module Redaction {
  import opened Texts
  import opened JsonText

  const SENSITIVE_WORDS: seq<string> :=
    ["authorization", "cookie", "email", "password", "secret", "token", "credential", "raw", "document", "url"]

  const MARKER: Json := Str(Ascii("[REDACTED]"))

  predicate MatchesAt(key: Text, i: int, word: string) {
    0 <= i <= |key| - |word| && forall j | 0 <= j < |word| :: Lower(key[i + j]) == Ascii(word)[j]
  }

  /** One of the words occurs in the key, in any case. */
  predicate Sensitive(key: Text) {
    exists word <- SENSITIVE_WORDS, i | 0 <= i <= |key| :: MatchesAt(key, i, word)
  }

  function Folded(key: Text): Text {
    seq(|key|, i requires 0 <= i < |key| => Lower(key[i]))
  }

  /** With its ASCII letters in lower case, the key has the word between two texts. */
  ghost predicate Holds(key: Text, word: string) {
    exists before, after :: Folded(key) == before + Ascii(word) + after
  }

  lemma MatchIsHeld(key: Text, i: nat, word: string)
    requires MatchesAt(key, i, word)
    ensures Holds(key, word)
  {
    var folded := Folded(key);
    assert folded[i..i + |word|] == Ascii(word);
    assert folded == folded[..i] + folded[i..i + |word|] + folded[i + |word|..];
  }

  lemma HeldIsMatch(key: Text, before: Text, word: string, after: Text)
    requires Folded(key) == before + Ascii(word) + after
    ensures MatchesAt(key, |before|, word)
  {
    forall j | 0 <= j < |word| ensures Lower(key[|before| + j]) == Ascii(word)[j] {
      assert Folded(key)[|before| + j] == Lower(key[|before| + j]);
    }
  }

  lemma HoldsIffMatches(key: Text, word: string)
    ensures Holds(key, word) <==> exists i | 0 <= i <= |key| :: MatchesAt(key, i, word)
  {
    if i :| 0 <= i <= |key| && MatchesAt(key, i, word) { MatchIsHeld(key, i, word); }
    if Holds(key, word) {
      var before, after :| Folded(key) == before + Ascii(word) + after;
      HeldIsMatch(key, before, word, after);
    }
  }

  /** The sensitive keys. */
  lemma SensitiveIff(key: Text)
    ensures Sensitive(key) <==>
        || Holds(key, "authorization") || Holds(key, "cookie") || Holds(key, "email") || Holds(key, "password")
        || Holds(key, "secret") || Holds(key, "token") || Holds(key, "credential") || Holds(key, "raw")
        || Holds(key, "document") || Holds(key, "url")
  {
    forall word ensures Holds(key, word) <==> exists i | 0 <= i <= |key| :: MatchesAt(key, i, word) {
      HoldsIffMatches(key, word);
    }
    assert SENSITIVE_WORDS[0] == "authorization" && SENSITIVE_WORDS[1] == "cookie" && SENSITIVE_WORDS[2] == "email";
    assert SENSITIVE_WORDS[3] == "password" && SENSITIVE_WORDS[4] == "secret" && SENSITIVE_WORDS[5] == "token";
    assert SENSITIVE_WORDS[6] == "credential" && SENSITIVE_WORDS[7] == "raw" && SENSITIVE_WORDS[8] == "document";
    assert SENSITIVE_WORDS[9] == "url";
  }

  /** Three letters that start no sensitive word. */
  predicate StartsNoWord(u: CodeUnit, v: CodeUnit, w: CodeUnit) {
    && u != 99 && (u == 116 ==> v != 111)
    && (u == 97 ==> v != 117) && (u == 100 ==> v != 111) && (u == 101 ==> v != 109) && (u == 112 ==> w != 115)
    && (u == 114 ==> v != 97) && (u == 115 ==> v != 101) && (u == 117 ==> v != 114)
  }

  lemma StartOfWord(word: string)
    requires word in SENSITIVE_WORDS
    ensures |word| >= 3 && !StartsNoWord(Ascii(word)[0], Ascii(word)[1], Ascii(word)[2])
  {
  }

  lemma StartsNoSensitiveWord(key: Text, i: nat, word: string)
    requires word in SENSITIVE_WORDS
    requires i + 2 < |key| ==> StartsNoWord(Lower(key[i]), Lower(key[i + 1]), Lower(key[i + 2]))
    ensures !MatchesAt(key, i, word)
  {
    StartOfWord(word);
    if i + 2 < |key| {
      var start := Ascii(word);
      assert Lower(key[i + 0]) != start[0] || Lower(key[i + 1]) != start[1] || Lower(key[i + 2]) != start[2];
    }
  }

  lemma PlainIsNotSensitive(key: Text)
    requires forall i | 0 <= i < |key| - 2 :: StartsNoWord(Lower(key[i]), Lower(key[i + 1]), Lower(key[i + 2]))
    ensures !Sensitive(key)
  {
    forall word, i | word in SENSITIVE_WORDS && 0 <= i <= |key| ensures !MatchesAt(key, i, word) {
      StartsNoSensitiveWord(key, i, word);
    }
  }

  function SafeMembers(members: seq<Pair<Json>>): seq<Pair<Json>>
    decreases members
  {
    if members == [] then []
    else
      var m := members[0];
      [Pair(m.key, if Sensitive(m.key) then MARKER else SafeValue(m.value))] + SafeMembers(members[1..])
  }

  function SafeValue(v: Json): Json
    decreases v
  {
    match v
    case Arr(items) => Arr(SafeItems(items))
    case Obj(members) => Obj(SafeMembers(members))
    case _ => v
  }

  /** An array item that is itself an array is taken for a record of its indices. */
  function SafeItem(v: Json): Json
    decreases v
  {
    match v
    case Arr(items) => Obj(SafeIndexed(items, 0))
    case Obj(members) => Obj(SafeMembers(members))
    case _ => v
  }

  function SafeItems(items: seq<Json>): seq<Json>
    decreases items
  {
    if items == [] then [] else [SafeItem(items[0])] + SafeItems(items[1..])
  }

  function SafeIndexed(items: seq<Json>, from: nat): seq<Pair<Json>>
    decreases items
  {
    if items == [] then []
    else
      [Pair(Digits(from), if Sensitive(Digits(from)) then MARKER else SafeValue(items[0]))] +
      SafeIndexed(items[1..], from + 1)
  }

  /** Index names are never sensitive. */
  lemma IndicesAreNotSensitive(n: nat)
    ensures !Sensitive(Digits(n))
  {
    DigitsAreDigits(n);
    forall word, i | word in SENSITIVE_WORDS && 0 <= i <= |Digits(n)|
      ensures !MatchesAt(Digits(n), i, word)
    {
      StartsWithLetter(word);
      if i < |Digits(n)| {
        assert IsDigit(Digits(n)[i]);
        assert Lower(Digits(n)[i + 0]) != Ascii(word)[0];
      }
    }
  }

  lemma StartsWithLetter(word: string)
    requires word in SENSITIVE_WORDS
    ensures |word| > 0 && Ascii(word)[0] >= 97
  {
  }

  // Nothing sensitive is left.

  predicate Redacted(v: Json) {
    match v
    case Arr(items) => forall x <- items :: Redacted(x)
    case Obj(members) => forall m <- members :: if Sensitive(m.key) then m.value == MARKER else Redacted(m.value)
    case _ => true
  }

  /** No array sits directly in an array, outside what is redacted. */
  predicate NoNestedArrays(v: Json) {
    match v
    case Arr(items) => forall x <- items :: !x.Arr? && NoNestedArrays(x)
    case Obj(members) => forall m <- members :: Sensitive(m.key) || NoNestedArrays(m.value)
    case _ => true
  }

  predicate Settled(v: Json) {
    Redacted(v) && NoNestedArrays(v)
  }

  lemma {:induction false} SafeMembersSettle(members: seq<Pair<Json>>)
    ensures Settled(Obj(SafeMembers(members)))
    decreases members, 1
  {
    if members != [] {
      if !Sensitive(members[0].key) { SafeValueSettles(members[0].value); }
      SafeMembersSettle(members[1..]);
      assert forall m <- SafeMembers(members) :: m == SafeMembers(members)[0] || m in SafeMembers(members[1..]);
    }
  }

  lemma {:induction false} SafeValueSettles(v: Json)
    ensures Settled(SafeValue(v)) && Settled(SafeItem(v)) && !SafeItem(v).Arr?
    decreases v, 0
  {
    match v
    case Arr(items) => SafeItemsSettle(items, 0);
    case Obj(members) => SafeMembersSettle(members);
    case _ =>
  }

  lemma {:induction false} SafeItemsSettle(items: seq<Json>, from: nat)
    ensures Settled(Arr(SafeItems(items))) && Settled(Obj(SafeIndexed(items, from)))
    decreases items, 1
  {
    if items != [] {
      SafeValueSettles(items[0]);
      SafeItemsSettle(items[1..], from + 1);
      assert forall x <- SafeItems(items) :: x == SafeItem(items[0]) || x in SafeItems(items[1..]);
      assert forall m <- SafeIndexed(items, from) ::
               m == SafeIndexed(items, from)[0] || m in SafeIndexed(items[1..], from + 1);
    }
  }

  lemma {:induction false} SettledMembersStay(members: seq<Pair<Json>>)
    requires Settled(Obj(members))
    ensures SafeMembers(members) == members
    decreases members, 1
  {
    if members != [] {
      assert members[0] in members;
      if !Sensitive(members[0].key) { SettledValueStays(members[0].value); }
      SettledMembersStay(members[1..]);
      assert members == [members[0]] + members[1..];
    }
  }

  lemma {:induction false} SettledValueStays(v: Json)
    requires Settled(v)
    ensures SafeValue(v) == v && (!v.Arr? ==> SafeItem(v) == v)
    decreases v, 0
  {
    match v
    case Arr(items) => SettledItemsStay(items);
    case Obj(members) => SettledMembersStay(members);
    case _ =>
  }

  lemma {:induction false} SettledItemsStay(items: seq<Json>)
    requires Settled(Arr(items))
    ensures SafeItems(items) == items
    decreases items, 1
  {
    if items != [] {
      assert items[0] in items;
      SettledValueStays(items[0]);
      SettledItemsStay(items[1..]);
      assert items == [items[0]] + items[1..];
    }
  }

  /** The fixed points of redaction are exactly the redacted trees without directly nested arrays. */
  lemma FixedPoints(members: seq<Pair<Json>>)
    ensures SafeMembers(members) == members <==> Settled(Obj(members))
  {
    SafeMembersSettle(members);
    if Settled(Obj(members)) { SettledMembersStay(members); }
  }

  /** The output holds no sensitive key with another value than the marker, and redacting again changes nothing. */
  lemma RedactionIsIdempotent(members: seq<Pair<Json>>)
    ensures Redacted(Obj(SafeMembers(members)))
    ensures SafeMembers(SafeMembers(members)) == SafeMembers(members)
  {
    SafeMembersSettle(members);
    FixedPoints(SafeMembers(members));
  }

  // What the output depends on.

  /** Two trees agree except beneath sensitive keys. */
  predicate Agree(v: Json, u: Json)
    decreases v
  {
    match (v, u)
    case (Arr(a), Arr(b)) => AgreeItems(a, b)
    case (Obj(a), Obj(b)) => AgreeMembers(a, b)
    case (Arr(_), _) => false
    case (Obj(_), _) => false
    case _ => v == u
  }

  predicate AgreeItems(a: seq<Json>, b: seq<Json>)
    decreases a
  {
    if a == [] || b == [] then a == [] && b == []
    else Agree(a[0], b[0]) && AgreeItems(a[1..], b[1..])
  }

  predicate AgreeMembers(a: seq<Pair<Json>>, b: seq<Pair<Json>>)
    decreases a
  {
    if a == [] || b == [] then a == [] && b == []
    else
      && a[0].key == b[0].key && (Sensitive(a[0].key) || Agree(a[0].value, b[0].value))
      && AgreeMembers(a[1..], b[1..])
  }

  /** Trees that differ only beneath sensitive keys give the same output. */
  lemma {:induction false} NonInterference(a: seq<Pair<Json>>, b: seq<Pair<Json>>)
    requires AgreeMembers(a, b)
    ensures SafeMembers(a) == SafeMembers(b)
    decreases a, 1
  {
    if a != [] {
      if !Sensitive(a[0].key) { NonInterferenceValue(a[0].value, b[0].value); }
      NonInterference(a[1..], b[1..]);
    }
  }

  lemma {:induction false} NonInterferenceValue(v: Json, u: Json)
    requires Agree(v, u)
    ensures SafeValue(v) == SafeValue(u) && SafeItem(v) == SafeItem(u)
    decreases v, 0
  {
    match (v, u)
    case (Arr(a), Arr(b)) => NonInterferenceItems(a, b, 0);
    case (Obj(a), Obj(b)) => NonInterference(a, b);
    case _ =>
  }

  lemma {:induction false} NonInterferenceItems(a: seq<Json>, b: seq<Json>, from: nat)
    requires AgreeItems(a, b)
    ensures SafeItems(a) == SafeItems(b) && SafeIndexed(a, from) == SafeIndexed(b, from)
    decreases a, 1
  {
    if a != [] {
      NonInterferenceValue(a[0], b[0]);
      NonInterferenceItems(a[1..], b[1..], from + 1);
    }
  }

  /** Nothing else is lost: without directly nested arrays, equal outputs come from trees that agree. */
  lemma {:induction false} OutputDeterminesTheRest(a: seq<Pair<Json>>, b: seq<Pair<Json>>)
    requires NoNestedArrays(Obj(a)) && NoNestedArrays(Obj(b)) && SafeMembers(a) == SafeMembers(b)
    ensures AgreeMembers(a, b)
    decreases a, 1
  {
    if a != [] && b != [] {
      assert SafeMembers(a)[0] == SafeMembers(b)[0];
      assert SafeMembers(a)[1..] == SafeMembers(a[1..]) && SafeMembers(b)[1..] == SafeMembers(b[1..]);
      assert a[0] in a && b[0] in b;
      if !Sensitive(a[0].key) { ValueDeterminesTheRest(a[0].value, b[0].value); }
      OutputDeterminesTheRest(a[1..], b[1..]);
    }
  }

  lemma {:induction false} ValueDeterminesTheRest(v: Json, u: Json)
    requires NoNestedArrays(v) && NoNestedArrays(u) && SafeValue(v) == SafeValue(u)
    ensures Agree(v, u)
    decreases v, 0
  {
    match (v, u)
    case (Arr(a), Arr(b)) => ItemsDetermineTheRest(a, b);
    case (Obj(a), Obj(b)) => OutputDeterminesTheRest(a, b);
    case _ =>
  }

  lemma {:induction false} ItemsDetermineTheRest(a: seq<Json>, b: seq<Json>)
    requires NoNestedArrays(Arr(a)) && NoNestedArrays(Arr(b)) && SafeItems(a) == SafeItems(b)
    ensures AgreeItems(a, b)
    decreases a, 1
  {
    if a != [] && b != [] {
      assert SafeItems(a)[0] == SafeItems(b)[0];
      assert SafeItems(a)[1..] == SafeItems(a[1..]) && SafeItems(b)[1..] == SafeItems(b[1..]);
      assert a[0] in a && b[0] in b;
      assert SafeItem(a[0]) == SafeValue(a[0]) && SafeItem(b[0]) == SafeValue(b[0]);
      ValueDeterminesTheRest(a[0], b[0]);
      ItemsDetermineTheRest(a[1..], b[1..]);
    }
  }

  /** An array nested in an array comes out like the record of its indices, so that shape is not recoverable. */
  lemma NestedArraysBecomeRecords(key: Text, items: seq<Json>)
    requires !Sensitive(key)
    ensures var nested, indexed := Arr([Arr(items)]), Arr([Obj(Indexed(items, 0))]);
            SafeMembers([Pair(key, nested)]) == SafeMembers([Pair(key, indexed)]) && !Agree(nested, indexed)
  {
    IndexedIsSafeIndexed(items, 0);
    assert !Agree(Arr(items), Obj(Indexed(items, 0)));
    assert !AgreeItems([Arr(items)], [Obj(Indexed(items, 0))]);
    assert SafeItems([Arr(items)]) == [Obj(SafeIndexed(items, 0))];
    assert SafeItems([Obj(Indexed(items, 0))]) == [Obj(SafeMembers(Indexed(items, 0)))];
  }

  /** `Object.entries` of an array. */
  function Indexed(items: seq<Json>, from: nat): seq<Pair<Json>> {
    if items == [] then [] else [Pair(Digits(from), items[0])] + Indexed(items[1..], from + 1)
  }

  lemma {:induction false} IndexedIsSafeIndexed(items: seq<Json>, from: nat)
    ensures SafeMembers(Indexed(items, from)) == SafeIndexed(items, from)
  {
    if items != [] {
      IndexedIsSafeIndexed(items[1..], from + 1);
      assert Indexed(items, from)[1..] == Indexed(items[1..], from + 1);
    }
  }

  // What the output says exactly: an array in an array is read as the record of its indices.

  function PlainMembers(members: seq<Pair<Json>>): seq<Pair<Json>>
    decreases members
  {
    if members == [] then [] else [Pair(members[0].key, PlainValue(members[0].value))] + PlainMembers(members[1..])
  }

  function PlainValue(v: Json): Json
    decreases v
  {
    match v
    case Arr(items) => Arr(PlainItems(items))
    case Obj(members) => Obj(PlainMembers(members))
    case _ => v
  }

  function PlainItem(v: Json): Json
    decreases v
  {
    match v
    case Arr(items) => Obj(PlainIndexed(items, 0))
    case Obj(members) => Obj(PlainMembers(members))
    case _ => v
  }

  function PlainItems(items: seq<Json>): seq<Json>
    decreases items
  {
    if items == [] then [] else [PlainItem(items[0])] + PlainItems(items[1..])
  }

  function PlainIndexed(items: seq<Json>, from: nat): seq<Pair<Json>>
    decreases items
  {
    if items == [] then [] else [Pair(Digits(from), PlainValue(items[0]))] + PlainIndexed(items[1..], from + 1)
  }

  lemma {:induction false} PlainMembersKeepOutput(members: seq<Pair<Json>>)
    ensures SafeMembers(PlainMembers(members)) == SafeMembers(members) && NoNestedArrays(Obj(PlainMembers(members)))
    decreases members, 1
  {
    if members != [] {
      var first, rest := Pair(members[0].key, PlainValue(members[0].value)), PlainMembers(members[1..]);
      PlainValueKeepsOutput(members[0].value);
      PlainMembersKeepOutput(members[1..]);
      assert PlainMembers(members)[0] == first && PlainMembers(members)[1..] == rest;
      assert forall m <- PlainMembers(members) :: m == first || m in rest;
    }
  }

  lemma {:induction false} PlainValueKeepsOutput(v: Json)
    ensures SafeValue(PlainValue(v)) == SafeValue(v) && SafeItem(PlainItem(v)) == SafeItem(v)
    ensures NoNestedArrays(PlainValue(v)) && NoNestedArrays(PlainItem(v)) && !PlainItem(v).Arr?
    decreases v, 0
  {
    match v
    case Arr(items) => PlainItemsKeepOutput(items, 0);
    case Obj(members) => PlainMembersKeepOutput(members);
    case _ =>
  }

  lemma {:induction false} PlainItemsKeepOutput(items: seq<Json>, from: nat)
    ensures SafeItems(PlainItems(items)) == SafeItems(items) && NoNestedArrays(Arr(PlainItems(items)))
    ensures SafeMembers(PlainIndexed(items, from)) == SafeIndexed(items, from)
    ensures NoNestedArrays(Obj(PlainIndexed(items, from)))
    decreases items, 1
  {
    if items != [] {
      PlainValueKeepsOutput(items[0]);
      PlainItemsKeepOutput(items[1..], from + 1);
      PlainItemsStep(items, from);
    }
  }

  lemma PlainItemsStep(items: seq<Json>, from: nat)
    requires items != []
    ensures PlainItems(items)[0] == PlainItem(items[0]) && PlainItems(items)[1..] == PlainItems(items[1..])
    ensures PlainIndexed(items, from)[0] == Pair(Digits(from), PlainValue(items[0]))
    ensures PlainIndexed(items, from)[1..] == PlainIndexed(items[1..], from + 1)
    ensures forall x <- PlainItems(items) :: x == PlainItem(items[0]) || x in PlainItems(items[1..])
    ensures forall m <- PlainIndexed(items, from) ::
              m == PlainIndexed(items, from)[0] || m in PlainIndexed(items[1..], from + 1)
  {
  }

  /** The kernel of redaction: two trees give the same output exactly when they agree except beneath sensitive
      keys, once arrays in arrays are read as records. */
  lemma SameOutputIff(a: seq<Pair<Json>>, b: seq<Pair<Json>>)
    ensures SafeMembers(a) == SafeMembers(b) <==> AgreeMembers(PlainMembers(a), PlainMembers(b))
  {
    PlainMembersKeepOutput(a);
    PlainMembersKeepOutput(b);
    if SafeMembers(a) == SafeMembers(b) { OutputDeterminesTheRest(PlainMembers(a), PlainMembers(b)); }
    if AgreeMembers(PlainMembers(a), PlainMembers(b)) { NonInterference(PlainMembers(a), PlainMembers(b)); }
  }

  // The output, member by member.

  /** Keys and their order stay. A sensitive member becomes the marker, a nested object is redacted in turn, and
      what is neither an object nor an array stays as it is. */
  lemma {:induction false} RedactsMemberwise(members: seq<Pair<Json>>)
    ensures |SafeMembers(members)| == |members|
    ensures forall k | 0 <= k < |members| ::
              var before, after := members[k], SafeMembers(members)[k];
              && after.key == before.key
              && (Sensitive(before.key) ==> after.value == Str(Ascii("[REDACTED]")))
              && (!Sensitive(before.key) && before.value.Obj? ==>
                    after.value == Obj(SafeMembers(before.value.members)))
              && (!Sensitive(before.key) && before.value.Arr? ==>
                    after.value.Arr? && |after.value.items| == |before.value.items|)
              && (!Sensitive(before.key) && !before.value.Obj? && !before.value.Arr? ==> after.value == before.value)
  {
    if members != [] {
      RedactsMemberwise(members[1..]);
      if members[0].value.Arr? { RedactsItemwise(members[0].value.items); }
    }
  }

  /** The items of an array keep their places: objects are redacted, and what is neither object nor array stays. */
  lemma {:induction false} RedactsItemwise(items: seq<Json>)
    ensures |SafeItems(items)| == |items|
    ensures forall k | 0 <= k < |items| ::
              && (items[k].Obj? ==> SafeItems(items)[k] == Obj(SafeMembers(items[k].members)))
              && (!items[k].Obj? && !items[k].Arr? ==> SafeItems(items)[k] == items[k])
  {
    if items != [] { RedactsItemwise(items[1..]); }
  }

  lemma SensitiveAt(key: Text, i: nat, word: string)
    requires MatchesAt(key, i, word)
    requires word == "authorization" || word == "email" || word == "url"
    ensures Sensitive(key)
  {
    MatchIsHeld(key, i, word);
    SensitiveIff(key);
  }

  lemma WordIsInItself(word: string)
    requires word == "authorization" || word == "email"
    requires forall c <- word :: 'a' <= c <= 'z'
    ensures Sensitive(Ascii(word))
  {
    forall j | 0 <= j < |word| ensures Lower(Ascii(word)[0 + j]) == Ascii(word)[j] { assert word[j] in word; }
    SensitiveAt(Ascii(word), 0, word);
  }

  lemma DocumentedKeys()
    ensures Sensitive(Ascii("authorization")) && Sensitive(Ascii("email")) && Sensitive(Ascii("signedUrl"))
    ensures !Sensitive(Ascii("nested")) && !Sensitive(Ascii("status"))
  {
    WordIsInItself("authorization");
    WordIsInItself("email");
    SignedUrl();
    PlainKeys();
  }

  lemma SignedUrl()
    ensures Sensitive(Ascii("signedUrl"))
  {
    var key, word := Ascii("signedUrl"), Ascii("url");
    assert key[6] == 85 && key[7] == 114 && key[8] == 108 && word == [117, 114, 108];
    SensitiveAt(key, 6, "url");
  }

  lemma PlainKeys()
    ensures !Sensitive(Ascii("nested")) && !Sensitive(Ascii("status"))
  {
    var nested, status: Text := [110, 101, 115, 116, 101, 100], [115, 116, 97, 116, 117, 115];
    assert Ascii("nested") == nested && Ascii("status") == status;
    PlainIsNotSensitive(nested);
    PlainIsNotSensitive(status);
  }

  lemma TwoMembers(m: Pair<Json>, n: Pair<Json>)
    ensures SafeMembers([m, n]) == SafeMembers([m]) + SafeMembers([n])
  {
    assert [m, n][1..] == [n] && [m][1..] == [];
  }

  lemma ThreeMembers(m: Pair<Json>, n: Pair<Json>, o: Pair<Json>)
    ensures SafeMembers([m, n, o]) == SafeMembers([m]) + SafeMembers([n, o])
  {
    assert [m, n, o][1..] == [n, o] && [m][1..] == [];
  }

  lemma OneMember(m: Pair<Json>)
    ensures Sensitive(m.key) ==> SafeMembers([m]) == [Pair(m.key, Str(Ascii("[REDACTED]")))]
    ensures !Sensitive(m.key) && m.value.Obj? ==> SafeMembers([m]) == [Pair(m.key, Obj(SafeMembers(m.value.members)))]
    ensures !Sensitive(m.key) && m.value.Str? ==> SafeMembers([m]) == [m]
  {
    assert [m][1..] == [];
  }

  /** The documented example: a header, and a nested record with an address and a signed link. */
  lemma DocumentedRedaction(header: Json, address: Json, link: Json)
    ensures var (marker, ok) := (Str(Ascii("[REDACTED]")), Pair(Ascii("status"), Str(Ascii("ok"))));
            var nested := [Pair(Ascii("email"), address), Pair(Ascii("signedUrl"), link), ok];
            SafeMembers([Pair(Ascii("authorization"), header), Pair(Ascii("nested"), Obj(nested))])
              == [Pair(Ascii("authorization"), marker),
                  Pair(Ascii("nested"), Obj([Pair(Ascii("email"), marker), Pair(Ascii("signedUrl"), marker), ok]))]
  {
    var ok := Pair(Ascii("status"), Str(Ascii("ok")));
    var email, url := Pair(Ascii("email"), address), Pair(Ascii("signedUrl"), link);
    var authorization, nested := Pair(Ascii("authorization"), header), Pair(Ascii("nested"), Obj([email, url, ok]));
    DocumentedKeys();
    OneMember(email);
    OneMember(url);
    OneMember(ok);
    TwoMembers(url, ok);
    ThreeMembers(email, url, ok);
    OneMember(authorization);
    OneMember(nested);
    TwoMembers(authorization, nested);
    assert SafeMembers([email, url, ok])
        == [Pair(email.key, Str(Ascii("[REDACTED]"))), Pair(url.key, Str(Ascii("[REDACTED]"))), ok];
  }
}
