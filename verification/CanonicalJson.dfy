/** The canonical encoding: undefined members dropped, members sorted by the collation, nothing else changed. */
module CanonicalJson {
  import opened Options
  import opened Texts
  import opened NumberText
  import opened JsonText

  /** `localeCompare` as a collation: a string sorts before another when its rank is smaller, and ties are
      possible between different strings. `Array.prototype.sort` is stable. */
  type Collation = Text -> real

  function Insert<T>(collation: Collation, p: Pair<T>, sorted: seq<Pair<T>>): seq<Pair<T>> {
    if sorted == [] || collation(p.key) <= collation(sorted[0].key) then [p] + sorted
    else [sorted[0]] + Insert(collation, p, sorted[1..])
  }

  function Sort<T>(collation: Collation, ps: seq<Pair<T>>): seq<Pair<T>> {
    if ps == [] then [] else Insert(collation, ps[0], Sort(collation, ps[1..]))
  }

  /** `canonicalJson`; `None` is its TypeError. */
  function Canonical(collation: Collation, v: Json): Option<Text>
    decreases v
  {
    match v
    case Null => Some(NULL_TEXT)
    case Bool(b) => Some(if b then TRUE_TEXT else FALSE_TEXT)
    case Str(s) => Some(Quoted(s))
    case Num(n) => Some(Print(n))
    case NonFinite => None
    case Arr(items) =>
      (match EncodeItems(collation, items)
       case None => None
       case Some(texts) => Some([OPEN_BRACKET] + Join(texts) + [CLOSE_BRACKET]))
    case Obj(members) =>
      (match EncodeMembers(collation, members)
       case None => None
       case Some(entries) => Some([OPEN_BRACE] + Join(Entries(Sort(collation, entries))) + [CLOSE_BRACE]))
    case Undefined => None
    case Unsupported => None
  }

  function EncodeItems(collation: Collation, items: seq<Json>): Option<seq<Text>>
    decreases items
  {
    if items == [] then Some([])
    else
      match (Canonical(collation, items[0]), EncodeItems(collation, items[1..]))
      case (Some(text), Some(texts)) => Some([text] + texts)
      case _ => None
  }

  /** The texts of the members that are not undefined, beside their keys. */
  function EncodeMembers(collation: Collation, members: seq<Pair<Json>>): Option<seq<Pair<Text>>>
    decreases members
  {
    if members == [] then Some([])
    else if members[0].value.Undefined? then EncodeMembers(collation, members[1..])
    else
      match (Canonical(collation, members[0].value), EncodeMembers(collation, members[1..]))
      case (Some(text), Some(entries)) => Some([Pair(members[0].key, text)] + entries)
      case _ => None
  }

  function Entries(entries: seq<Pair<Text>>): seq<Text> {
    if entries == [] then []
    else [Quoted(entries[0].key) + [COLON] + entries[0].value] + Entries(entries[1..])
  }

  function Join(texts: seq<Text>): Text {
    if texts == [] then [] else if |texts| == 1 then texts[0] else texts[0] + [COMMA] + Join(texts[1..])
  }

  // The value an encoding stands for.

  predicate Encodable(v: Json) {
    match v
    case Arr(items) => forall x <- items :: Encodable(x)
    case Obj(members) => forall m <- members :: m.value.Undefined? || Encodable(m.value)
    case NonFinite => false
    case Undefined => false
    case Unsupported => false
    case _ => true
  }

  function Normal(collation: Collation, v: Json): Json
    decreases v
  {
    match v
    case Arr(items) => Arr(NormalItems(collation, items))
    case Obj(members) => Obj(Sort(collation, NormalMembers(collation, members)))
    case _ => v
  }

  function NormalItems(collation: Collation, items: seq<Json>): seq<Json>
    decreases items
  {
    if items == [] then [] else [Normal(collation, items[0])] + NormalItems(collation, items[1..])
  }

  function NormalMembers(collation: Collation, members: seq<Pair<Json>>): seq<Pair<Json>>
    decreases members
  {
    if members == [] then []
    else if members[0].value.Undefined? then NormalMembers(collation, members[1..])
    else [Pair(members[0].key, Normal(collation, members[0].value))] + NormalMembers(collation, members[1..])
  }

  lemma {:induction false} InsertMembers<T>(collation: Collation, p: Pair<T>, sorted: seq<Pair<T>>)
    ensures forall q :: q in Insert(collation, p, sorted) <==> q == p || q in sorted
  {
    if !(sorted == [] || collation(p.key) <= collation(sorted[0].key)) {
      InsertMembers(collation, p, sorted[1..]);
      assert sorted == [sorted[0]] + sorted[1..];
    }
  }

  lemma {:induction false} SortMembers<T>(collation: Collation, ps: seq<Pair<T>>)
    ensures forall q :: q in Sort(collation, ps) <==> q in ps
  {
    if ps != [] {
      SortMembers(collation, ps[1..]);
      InsertMembers(collation, ps[0], Sort(collation, ps[1..]));
      assert ps == [ps[0]] + ps[1..];
    }
  }

  lemma {:induction false} NormalMembersOf(collation: Collation, members: seq<Pair<Json>>)
    ensures forall m <- members :: !m.value.Undefined? ==>
              Pair(m.key, Normal(collation, m.value)) in NormalMembers(collation, members)
    ensures forall q <- NormalMembers(collation, members) ::
              exists m <- members :: !m.value.Undefined? && q == Pair(m.key, Normal(collation, m.value))
  {
    if members != [] {
      NormalMembersOf(collation, members[1..]);
      assert members == [members[0]] + members[1..];
    }
  }

  lemma {:induction false} NormalIsClean(collation: Collation, v: Json)
    requires Encodable(v)
    ensures Clean(Normal(collation, v))
    decreases v, 0
  {
    match v
    case Arr(items) => NormalItemsClean(collation, items);
    case Obj(members) =>
      NormalMembersClean(collation, members);
      SortMembers(collation, NormalMembers(collation, members));
    case _ =>
  }

  lemma {:induction false} NormalItemsClean(collation: Collation, items: seq<Json>)
    requires forall x <- items :: Encodable(x)
    ensures forall x <- NormalItems(collation, items) :: Clean(x)
    decreases items, 1
  {
    if items != [] {
      NormalIsClean(collation, items[0]);
      NormalItemsClean(collation, items[1..]);
    }
  }

  lemma {:induction false} NormalMembersClean(collation: Collation, members: seq<Pair<Json>>)
    requires forall m <- members :: m.value.Undefined? || Encodable(m.value)
    ensures forall m <- NormalMembers(collation, members) :: Clean(m.value)
    decreases members, 1
  {
    if members != [] {
      if !members[0].value.Undefined? { NormalIsClean(collation, members[0].value); }
      NormalMembersClean(collation, members[1..]);
    }
  }

  // The encoding is the plain text of the normal value.

  function RenderEach(members: seq<Pair<Json>>): seq<Pair<Text>>
    requires forall m <- members :: Clean(m.value)
  {
    if members == [] then [] else [Pair(members[0].key, Render(members[0].value))] + RenderEach(members[1..])
  }

  lemma {:induction false} InsertRendered(collation: Collation, p: Pair<Json>, sorted: seq<Pair<Json>>)
    requires Clean(p.value) && forall m <- sorted :: Clean(m.value)
    ensures forall m <- Insert(collation, p, sorted) :: Clean(m.value)
    ensures RenderEach(Insert(collation, p, sorted))
        == Insert(collation, Pair(p.key, Render(p.value)), RenderEach(sorted))
  {
    InsertMembers(collation, p, sorted);
    if sorted == [] || collation(p.key) <= collation(sorted[0].key) {
      assert ([p] + sorted)[1..] == sorted;
    } else {
      InsertRendered(collation, p, sorted[1..]);
      assert ([sorted[0]] + Insert(collation, p, sorted[1..]))[1..] == Insert(collation, p, sorted[1..]);
      assert RenderEach(sorted)[1..] == RenderEach(sorted[1..]);
    }
  }

  lemma {:induction false} SortRendered(collation: Collation, members: seq<Pair<Json>>)
    requires forall m <- members :: Clean(m.value)
    ensures forall m <- Sort(collation, members) :: Clean(m.value)
    ensures RenderEach(Sort(collation, members)) == Sort(collation, RenderEach(members))
  {
    SortMembers(collation, members);
    if members != [] {
      SortRendered(collation, members[1..]);
      InsertRendered(collation, members[0], Sort(collation, members[1..]));
      assert RenderEach(members)[1..] == RenderEach(members[1..]);
    }
  }

  lemma {:induction false} JoinedMembers(members: seq<Pair<Json>>)
    requires forall m <- members :: Clean(m.value)
    ensures Join(Entries(RenderEach(members))) == RenderMembers(members)
    ensures |Entries(RenderEach(members))| == |members|
  {
    if members != [] {
      JoinedMembers(members[1..]);
      assert RenderEach(members)[1..] == RenderEach(members[1..]);
      assert Entries(RenderEach(members))[1..] == Entries(RenderEach(members[1..]));
    }
  }

  function RenderAll(items: seq<Json>): seq<Text>
    requires forall x <- items :: Clean(x)
  {
    if items == [] then [] else [Render(items[0])] + RenderAll(items[1..])
  }

  lemma {:induction false} JoinedItems(items: seq<Json>)
    requires forall x <- items :: Clean(x)
    ensures Join(RenderAll(items)) == RenderItems(items) && |RenderAll(items)| == |items|
  {
    if items != [] {
      JoinedItems(items[1..]);
      assert RenderAll(items)[1..] == RenderAll(items[1..]);
    }
  }

  /** `canonicalJson` fails exactly on values that hold something unencodable outside dropped members, and
      otherwise prints the normal form. */
  lemma {:induction false} EncodesTheNormalForm(collation: Collation, v: Json)
    ensures Encodable(v) ==>
              Clean(Normal(collation, v)) && Canonical(collation, v) == Some(Render(Normal(collation, v)))
    ensures !Encodable(v) ==> Canonical(collation, v) == None
    decreases v, 0
  {
    match v
    case Arr(items) =>
      ItemsEncodeNormally(collation, items);
      if Encodable(v) { JoinedItems(NormalItems(collation, items)); }
    case Obj(members) =>
      MembersEncodeNormally(collation, members);
      if Encodable(v) {
        NormalMembersClean(collation, members);
        SortRendered(collation, NormalMembers(collation, members));
        JoinedMembers(Sort(collation, NormalMembers(collation, members)));
      }
    case _ =>
  }

  lemma {:induction false} ItemsEncodeNormally(collation: Collation, items: seq<Json>)
    ensures (forall x <- items :: Encodable(x)) ==>
              && (forall x <- NormalItems(collation, items) :: Clean(x))
              && EncodeItems(collation, items) == Some(RenderAll(NormalItems(collation, items)))
    ensures !(forall x <- items :: Encodable(x)) ==> EncodeItems(collation, items) == None
    decreases items, 1
  {
    if items != [] {
      EncodesTheNormalForm(collation, items[0]);
      ItemsEncodeNormally(collation, items[1..]);
      assert items == [items[0]] + items[1..];
      assert NormalItems(collation, items)[1..] == NormalItems(collation, items[1..]);
    }
  }

  lemma {:induction false} MembersEncodeNormally(collation: Collation, members: seq<Pair<Json>>)
    ensures (forall m <- members :: m.value.Undefined? || Encodable(m.value)) ==>
              && (forall m <- NormalMembers(collation, members) :: Clean(m.value))
              && EncodeMembers(collation, members) == Some(RenderEach(NormalMembers(collation, members)))
    ensures !(forall m <- members :: m.value.Undefined? || Encodable(m.value)) ==>
        EncodeMembers(collation, members) == None
    decreases members, 1
  {
    if members != [] {
      MembersEncodeNormally(collation, members[1..]);
      assert members == [members[0]] + members[1..];
      if !members[0].value.Undefined? {
        EncodesTheNormalForm(collation, members[0].value);
        assert NormalMembers(collation, members)[1..] == NormalMembers(collation, members[1..]);
      }
    }
  }

  /** A parser recovers the normal form from the canonical text. */
  lemma DecodesToNormalForm(collation: Collation, v: Json)
    requires Encodable(v)
    ensures Canonical(collation, v).Some?
    ensures ReadValue(Canonical(collation, v).value) == Read(Normal(collation, v), [])
  {
    EncodesTheNormalForm(collation, v);
    RoundTrip(Normal(collation, v), []);
    assert Render(Normal(collation, v)) + [] == Render(Normal(collation, v));
  }

  // Equality up to member order and undefined members, defined without any sorting.

  ghost predicate Same(v: Json, u: Json)
    decreases v
  {
    match (v, u)
    case (Arr(a), Arr(b)) => |a| == |b| && forall i | 0 <= i < |a| :: Same(a[i], b[i])
    case (Obj(a), Obj(b)) =>
      && (forall m <- a :: m.value.Undefined? || FoundIn(m, b))
      && (forall n <- b :: n.value.Undefined? || ComesFrom(n, a))
    case (Arr(_), _) => false
    case (Obj(_), _) => false
    case _ => v == u
  }

  ghost predicate FoundIn(m: Pair<Json>, b: seq<Pair<Json>>)
    decreases m
  {
    exists n <- b :: n.key == m.key && !n.value.Undefined? && Same(m.value, n.value)
  }

  ghost predicate ComesFrom(n: Pair<Json>, a: seq<Pair<Json>>)
    decreases a
  {
    exists m <- a :: m.key == n.key && !m.value.Undefined? && Same(m.value, n.value)
  }

  /** Values with the same normal form differ at most in member order and dropped members. */
  lemma {:induction false} NormalDeterminesSame(collation: Collation, v: Json, u: Json)
    requires Normal(collation, v) == Normal(collation, u)
    ensures Same(v, u)
    decreases v
  {
    match (v, u)
    case (Arr(a), Arr(b)) =>
      NormalItemsAt(collation, a);
      NormalItemsAt(collation, b);
      forall i | 0 <= i < |a| ensures |a| == |b| && Same(a[i], b[i]) {
        assert NormalItems(collation, a)[i] == NormalItems(collation, b)[i];
        NormalDeterminesSame(collation, a[i], b[i]);
      }
    case (Obj(a), Obj(b)) =>
      forall m | m in a && !m.value.Undefined? ensures FoundIn(m, b) {
        var n := Counterpart(collation, a, b, m);
        NormalDeterminesSame(collation, m.value, n.value);
      }
      forall n | n in b && !n.value.Undefined? ensures ComesFrom(n, a) {
        var m := Counterpart(collation, b, a, n);
        NormalDeterminesSame(collation, m.value, n.value);
      }
    case _ =>
  }

  lemma {:induction false} NormalItemsAt(collation: Collation, items: seq<Json>)
    ensures |NormalItems(collation, items)| == |items|
    ensures forall i | 0 <= i < |items| :: NormalItems(collation, items)[i] == Normal(collation, items[i])
  {
    if items != [] { NormalItemsAt(collation, items[1..]); }
  }

  lemma Counterpart(collation: Collation, a: seq<Pair<Json>>, b: seq<Pair<Json>>, m: Pair<Json>) returns (n: Pair<Json>)
    requires m in a && !m.value.Undefined?
    requires Sort(collation, NormalMembers(collation, a)) == Sort(collation, NormalMembers(collation, b))
    ensures n in b && n.key == m.key && !n.value.Undefined?
    ensures Normal(collation, n.value) == Normal(collation, m.value)
  {
    var q := Pair(m.key, Normal(collation, m.value));
    NormalMembersOf(collation, a);
    NormalMembersOf(collation, b);
    SortMembers(collation, NormalMembers(collation, a));
    SortMembers(collation, NormalMembers(collation, b));
    assert q in NormalMembers(collation, b);
    n :| n in b && !n.value.Undefined? && q == Pair(n.key, Normal(collation, n.value));
  }

  /** Canonical JSON is an encoding, whatever the collation does: equal texts imply equal values up to member
      order and dropped undefined members. */
  lemma CanonicalTextIsInjective(collation: Collation, v: Json, u: Json)
    requires Encodable(v) && Encodable(u) && Canonical(collation, v) == Canonical(collation, u)
    ensures Same(v, u)
  {
    DecodesToNormalForm(collation, v);
    DecodesToNormalForm(collation, u);
    NormalDeterminesSame(collation, v, u);
  }

  // The order of members, and the text of small values.

  predicate Ascending<T>(collation: Collation, ps: seq<Pair<T>>) {
    forall i, j | 0 <= i < j < |ps| :: collation(ps[i].key) <= collation(ps[j].key)
  }

  /** The members that sort to one place, as they come. */
  function OfRank<T>(collation: Collation, ps: seq<Pair<T>>, rank: real): seq<Pair<T>> {
    if ps == [] then []
    else (if collation(ps[0].key) == rank then [ps[0]] else []) + OfRank(collation, ps[1..], rank)
  }

  lemma {:induction false} InsertAscends<T>(collation: Collation, p: Pair<T>, sorted: seq<Pair<T>>)
    requires Ascending(collation, sorted)
    ensures Ascending(collation, Insert(collation, p, sorted))
    ensures Insert(collation, p, sorted)[0] == p || (sorted != [] && Insert(collation, p, sorted)[0] == sorted[0])
  {
    if sorted != [] && collation(sorted[0].key) < collation(p.key) {
      InsertAscends(collation, p, sorted[1..]);
      PrependAscends(collation, sorted[0], Insert(collation, p, sorted[1..]));
    }
  }

  lemma PrependAscends<T>(collation: Collation, p: Pair<T>, rest: seq<Pair<T>>)
    requires Ascending(collation, rest) && (rest != [] ==> collation(p.key) <= collation(rest[0].key))
    ensures Ascending(collation, [p] + rest)
  {
  }

  lemma OfRankFirst<T>(collation: Collation, p: Pair<T>, others: seq<Pair<T>>, rank: real)
    ensures collation(p.key) == rank ==>
              OfRank(collation, [p] + others, rank) == [p] + OfRank(collation, others, rank)
    ensures collation(p.key) != rank ==> OfRank(collation, [p] + others, rank) == OfRank(collation, others, rank)
  {
    assert ([p] + others)[1..] == others;
    assert [] + OfRank(collation, others, rank) == OfRank(collation, others, rank);
  }

  lemma {:induction false} InsertKeepsRank<T>(collation: Collation, p: Pair<T>, sorted: seq<Pair<T>>, rank: real)
    ensures OfRank(collation, Insert(collation, p, sorted), rank) == OfRank(collation, [p] + sorted, rank)
  {
    if sorted == [] || collation(p.key) <= collation(sorted[0].key) {
      OfRankFirst(collation, p, sorted, rank);
    } else {
      var rest := Insert(collation, p, sorted[1..]);
      InsertKeepsRank(collation, p, sorted[1..], rank);
      OfRankFirst(collation, sorted[0], rest, rank);
      OfRankFirst(collation, sorted[0], sorted[1..], rank);
      OfRankFirst(collation, p, sorted[1..], rank);
      OfRankFirst(collation, p, sorted, rank);
      assert [sorted[0]] + sorted[1..] == sorted;
    }
  }

  /** Sorting ascends in the collation and is stable: members that tie stay as they were inserted. */
  lemma {:induction false} SortAscendsStably<T>(collation: Collation, ps: seq<Pair<T>>)
    ensures Ascending(collation, Sort(collation, ps))
    ensures forall rank :: OfRank(collation, Sort(collation, ps), rank) == OfRank(collation, ps, rank)
  {
    if ps != [] {
      SortAscendsStably(collation, ps[1..]);
      InsertAscends(collation, ps[0], Sort(collation, ps[1..]));
      forall rank ensures OfRank(collation, Sort(collation, ps), rank) == OfRank(collation, ps, rank) {
        InsertKeepsRank(collation, ps[0], Sort(collation, ps[1..]), rank);
        OfRankFirst(collation, ps[0], Sort(collation, ps[1..]), rank);
        OfRankFirst(collation, ps[0], ps[1..], rank);
        assert [ps[0]] + ps[1..] == ps;
      }
    }
  }

  /** The constants and the empty collections. */
  lemma SmallTexts(collation: Collation)
    ensures Canonical(collation, Null) == Some(Ascii("null"))
    ensures Canonical(collation, Bool(true)) == Some(Ascii("true"))
    ensures Canonical(collation, Bool(false)) == Some(Ascii("false"))
    ensures Canonical(collation, Arr([])) == Some(Ascii("[]"))
    ensures Canonical(collation, Obj([])) == Some(Ascii("{}"))
    ensures Canonical(collation, Obj([Pair(Ascii("dropped"), Undefined)])) == Some(Ascii("{}"))
  {
    assert NULL_TEXT == Ascii("null") && TRUE_TEXT == Ascii("true") && FALSE_TEXT == Ascii("false");
    assert [OPEN_BRACKET] + Join([]) + [CLOSE_BRACKET] == Ascii("[]");
    assert [OPEN_BRACE] + Join([]) + [CLOSE_BRACE] == Ascii("{}");
    assert EncodeMembers(collation, [Pair(Ascii("dropped"), Undefined)]) == EncodeMembers(collation, []);
  }

  lemma DigitText(collation: Collation, d: CodeUnit)
    requires 49 <= d <= 57
    ensures Canonical(collation, Num(Decimal(false, [d], 1))) == Some([d])
  {
    WholeNumbers(false, [d], 0);
    assert [] + [d] + Zeros(0) == [d];
  }

  lemma TwoEntries(collation: Collation, m: Pair<Json>, n: Pair<Json>, first: Text, second: Text)
    requires !m.value.Undefined? && Canonical(collation, m.value) == Some(first)
    requires !n.value.Undefined? && Canonical(collation, n.value) == Some(second)
    requires collation(n.key) < collation(m.key)
    ensures Canonical(collation, Obj([m, n])) ==
              Some([OPEN_BRACE] + Join(Entries([Pair(n.key, second), Pair(m.key, first)])) + [CLOSE_BRACE])
  {
    var m', n' := Pair(m.key, first), Pair(n.key, second);
    assert [m, n][1..] == [n] && [n][1..] == [];
    OneEntry(collation, m, [n], first);
    OneEntry(collation, n, [], second);
    assert [m] + [n] == [m, n] && [n] + [] == [n];
    assert [n'] + [] == [n'];
    SortTwoEntries(collation, m', n');
  }

  lemma OneEntry(collation: Collation, m: Pair<Json>, others: seq<Pair<Json>>, text: Text)
    requires !m.value.Undefined? && Canonical(collation, m.value) == Some(text)
    ensures EncodeMembers(collation, [m] + others) ==
              match EncodeMembers(collation, others)
              case Some(entries) => Some([Pair(m.key, text)] + entries)
              case None => None
  {
    assert ([m] + others)[1..] == others;
  }

  lemma SortTwoEntries(collation: Collation, m: Pair<Text>, n: Pair<Text>)
    requires collation(n.key) < collation(m.key)
    ensures Sort(collation, [m] + [n]) == [n, m]
  {
    assert ([m] + [n])[1..] == [n] && [n][1..] == [];
    assert Sort(collation, [n]) == [n] + [];
    assert Insert(collation, m, [n]) == [n] + Insert(collation, m, [n][1..]);
  }

  /** The documented example: `canonicalJson({ b: 2, a: 1 })`, whenever the collation puts `a` first. */
  lemma DocumentedOrder(collation: Collation)
    requires collation(Ascii("a")) < collation(Ascii("b"))
    ensures var b, a := Pair(Ascii("b"), Num(Decimal(false, [50], 1))), Pair(Ascii("a"), Num(Decimal(false, [49], 1)));
            Canonical(collation, Obj([b, a])) == Some(Ascii("{\"a\":1,\"b\":2}"))
  {
    var b: Pair<Json> := Pair(Ascii("b"), Num(Decimal(false, [50], 1)));
    var a: Pair<Json> := Pair(Ascii("a"), Num(Decimal(false, [49], 1)));
    DigitText(collation, 49);
    DigitText(collation, 50);
    TwoEntries(collation, b, a, [50], [49]);
    DocumentedText();
  }

  lemma DocumentedText()
    ensures [OPEN_BRACE] + Join(Entries([Pair(Ascii("a"), [49]), Pair(Ascii("b"), [50])])) + [CLOSE_BRACE]
        == Ascii("{\"a\":1,\"b\":2}")
  {
    var a: Pair<Text>, b: Pair<Text> := Pair([97], [49]), Pair([98], [50]);
    var first: Text, second: Text := [34, 97, 34, 58, 49], [34, 98, 34, 58, 50];
    assert Ascii("a") == [97] && Ascii("b") == [98];
    EntryText(97, [49]);
    EntryText(98, [50]);
    assert [a, b][1..] == [b] && [b][1..] == [];
    assert Quoted([97]) + [COLON] + [49] == first && Quoted([98]) + [COLON] + [50] == second;
    assert Entries([b]) == [second] + Entries([b][1..]);
    assert Entries([a, b]) == [first] + Entries([a, b][1..]);
    assert [second] + [] == [second];
    assert ([first] + [second])[1..] == [second];
    assert [123] + (first + [44] + second) + [125] == Ascii("{\"a\":1,\"b\":2}");
  }

  lemma EntryText(letter: CodeUnit, value: Text)
    requires 97 <= letter <= 122
    ensures Quoted([letter]) + [COLON] + value == [34, letter, 34, 58] + value
  {
    LiteralOfUnit(letter);
  }
}
