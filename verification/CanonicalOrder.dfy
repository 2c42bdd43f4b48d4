/** When the order of an object's members does not matter to its canonical text. */
module CanonicalOrder {
  import opened Texts
  import opened JsonText
  import opened CanonicalJson

  /** No two kept members tie under the collation. */
  predicate TieFreeKeys(collation: Collation, members: seq<Pair<Json>>) {
    forall i, j | 0 <= i < j < |members| && !members[i].value.Undefined? && !members[j].value.Undefined? ::
      collation(members[i].key) != collation(members[j].key)
  }

  /** No object inside the value has tying members. */
  predicate TieFree(collation: Collation, v: Json) {
    match v
    case Arr(items) => forall x <- items :: TieFree(collation, x)
    case Obj(members) => TieFreeKeys(collation, members) && forall m <- members :: TieFree(collation, m.value)
    case _ => true
  }

  predicate Strict(collation: Collation, ps: seq<Pair<Json>>) {
    forall i, j | 0 <= i < j < |ps| :: collation(ps[i].key) < collation(ps[j].key)
  }

  predicate RanksDistinct(collation: Collation, ps: seq<Pair<Json>>) {
    forall i, j | 0 <= i < j < |ps| :: collation(ps[i].key) != collation(ps[j].key)
  }

  lemma {:induction false} InsertStrict(collation: Collation, p: Pair<Json>, sorted: seq<Pair<Json>>)
    requires Strict(collation, sorted) && forall q <- sorted :: collation(q.key) != collation(p.key)
    ensures Strict(collation, Insert(collation, p, sorted))
  {
    if !(sorted == [] || collation(p.key) <= collation(sorted[0].key)) {
      InsertStrict(collation, p, sorted[1..]);
      InsertMembers(collation, p, sorted[1..]);
      var inserted := Insert(collation, p, sorted[1..]);
      assert forall q <- sorted[1..] :: collation(sorted[0].key) < collation(q.key);
      assert forall j | 0 <= j < |inserted| :: inserted[j] in inserted;
    }
  }

  lemma {:induction false} SortStrict(collation: Collation, ps: seq<Pair<Json>>)
    requires RanksDistinct(collation, ps)
    ensures Strict(collation, Sort(collation, ps))
  {
    if ps != [] {
      SortStrict(collation, ps[1..]);
      forall q | q in Sort(collation, ps[1..]) ensures collation(q.key) != collation(ps[0].key) {
        SortKeepsMember(collation, ps[1..], q);
        var i :| 0 <= i < |ps[1..]| && ps[1..][i] == q;
        assert ps[i + 1] == q;
      }
      InsertStrict(collation, ps[0], Sort(collation, ps[1..]));
    }
  }

  /** The head of a strictly sorted sequence ranks below the rest. */
  lemma StrictTail(collation: Collation, a: seq<Pair<Json>>)
    requires Strict(collation, a) && a != []
    ensures forall q :: q in a[1..] <==> q in a && q != a[0]
    ensures forall q <- a :: q == a[0] || collation(a[0].key) < collation(q.key)
  {
    assert a == [a[0]] + a[1..];
  }

  lemma {:induction false} StrictIsUnique(collation: Collation, a: seq<Pair<Json>>, b: seq<Pair<Json>>)
    requires Strict(collation, a) && Strict(collation, b) && forall q :: q in a <==> q in b
    ensures a == b
  {
    assert a != [] ==> a[0] in b;
    assert b != [] ==> b[0] in a;
    if a != [] {
      StrictTail(collation, a);
      StrictTail(collation, b);
      assert forall q :: q in a[1..] <==> q in b[1..];
      StrictIsUnique(collation, a[1..], b[1..]);
      assert a == [a[0]] + a[1..] && b == [b[0]] + b[1..];
    }
  }

  lemma {:induction false} NormalMembersDistinct(collation: Collation, members: seq<Pair<Json>>)
    requires TieFreeKeys(collation, members)
    ensures RanksDistinct(collation, NormalMembers(collation, members))
  {
    if members != [] {
      NormalMembersDistinct(collation, members[1..]);
      if !members[0].value.Undefined? {
        NormalMembersOf(collation, members[1..]);
        var tail := NormalMembers(collation, members[1..]);
        forall j | 0 <= j < |tail| ensures collation(members[0].key) != collation(tail[j].key) {
          assert tail[j] in tail;
          var m :| m in members[1..] && !m.value.Undefined? && tail[j] == Pair(m.key, Normal(collation, m.value));
          var i :| 0 <= i < |members[1..]| && members[1..][i] == m;
          assert members[i + 1] == m;
        }
      }
    }
  }

  lemma SortKeepsMember(collation: Collation, ps: seq<Pair<Json>>, q: Pair<Json>)
    ensures q in Sort(collation, ps) <==> q in ps
  {
    SortMembers(collation, ps);
  }

  /** The same members, normalized, sort to the same sequence. */
  lemma SameMembersSortAlike(collation: Collation, a: seq<Pair<Json>>, b: seq<Pair<Json>>)
    requires TieFreeKeys(collation, a) && TieFreeKeys(collation, b)
    requires forall q :: q in NormalMembers(collation, a) <==> q in NormalMembers(collation, b)
    ensures Sort(collation, NormalMembers(collation, a)) == Sort(collation, NormalMembers(collation, b))
  {
    var m, n := NormalMembers(collation, a), NormalMembers(collation, b);
    NormalMembersDistinct(collation, a);
    NormalMembersDistinct(collation, b);
    SortStrict(collation, m);
    SortStrict(collation, n);
    forall q ensures q in Sort(collation, m) <==> q in Sort(collation, n) {
      SortKeepsMember(collation, m, q);
      SortKeepsMember(collation, n, q);
    }
    StrictIsUnique(collation, Sort(collation, m), Sort(collation, n));
  }

  lemma {:induction false} SameDeterminesNormal(collation: Collation, v: Json, u: Json)
    requires Same(v, u) && TieFree(collation, v) && TieFree(collation, u)
    ensures Normal(collation, v) == Normal(collation, u)
    decreases v, 2
  {
    match (v, u)
    case (Arr(a), Arr(b)) => ArraysAlike(collation, a, b);
    case (Obj(a), Obj(b)) => ObjectsAlike(collation, a, b);
    case _ =>
  }

  lemma ArraysAlike(collation: Collation, a: seq<Json>, b: seq<Json>)
    requires Same(Arr(a), Arr(b)) && TieFree(collation, Arr(a)) && TieFree(collation, Arr(b))
    ensures NormalItems(collation, a) == NormalItems(collation, b)
    decreases Arr(a), 0
  {
    NormalItemsAt(collation, a);
    NormalItemsAt(collation, b);
    forall i | 0 <= i < |a| ensures NormalItems(collation, a)[i] == NormalItems(collation, b)[i] {
      SameDeterminesNormal(collation, a[i], b[i]);
    }
  }

  lemma ObjectsAlike(collation: Collation, a: seq<Pair<Json>>, b: seq<Pair<Json>>)
    requires Same(Obj(a), Obj(b)) && TieFree(collation, Obj(a)) && TieFree(collation, Obj(b))
    ensures Normal(collation, Obj(a)) == Normal(collation, Obj(b))
    decreases Obj(a), 1
  {
    MatchedForward(collation, a, b);
    MatchedBackward(collation, a, b);
    MatchedHalf(collation, a, b);
    MatchedHalf(collation, b, a);
    SameMembersSortAlike(collation, a, b);
  }

  lemma MatchedForward(collation: Collation, a: seq<Pair<Json>>, b: seq<Pair<Json>>)
    requires forall m <- a :: m.value.Undefined? || FoundIn(m, b)
    requires (forall m <- a :: TieFree(collation, m.value)) && (forall n <- b :: TieFree(collation, n.value))
    ensures forall m <- a :: m.value.Undefined? || Matched(collation, m, b)
    decreases Obj(a), 0
  {
    forall m | m in a && !m.value.Undefined? ensures Matched(collation, m, b) {
      var n :| n in b && n.key == m.key && !n.value.Undefined? && Same(m.value, n.value);
      SameDeterminesNormal(collation, m.value, n.value);
    }
  }

  lemma MatchedBackward(collation: Collation, a: seq<Pair<Json>>, b: seq<Pair<Json>>)
    requires forall n <- b :: n.value.Undefined? || ComesFrom(n, a)
    requires (forall m <- a :: TieFree(collation, m.value)) && (forall n <- b :: TieFree(collation, n.value))
    ensures forall n <- b :: n.value.Undefined? || Matched(collation, n, a)
    decreases Obj(a), 0
  {
    forall n | n in b && !n.value.Undefined? ensures Matched(collation, n, a) {
      var m :| m in a && m.key == n.key && !m.value.Undefined? && Same(m.value, n.value);
      SameDeterminesNormal(collation, m.value, n.value);
    }
  }

  predicate Matched(collation: Collation, m: Pair<Json>, b: seq<Pair<Json>>) {
    exists n <- b :: n.key == m.key && !n.value.Undefined? && Normal(collation, m.value) == Normal(collation, n.value)
  }

  lemma MatchedHalf(collation: Collation, a: seq<Pair<Json>>, b: seq<Pair<Json>>)
    requires forall m <- a :: m.value.Undefined? || Matched(collation, m, b)
    ensures forall q <- NormalMembers(collation, a) :: q in NormalMembers(collation, b)
  {
    NormalMembersOf(collation, a);
    NormalMembersOf(collation, b);
  }

  /** Where the collation tells member names apart, canonical text is equality up to member order and dropped
      undefined members, at every depth. */
  lemma CanonicalTextIffSame(collation: Collation, v: Json, u: Json)
    requires Encodable(v) && Encodable(u) && TieFree(collation, v) && TieFree(collation, u)
    ensures Canonical(collation, v) == Canonical(collation, u) <==> Same(v, u)
  {
    if Same(v, u) {
      SameDeterminesNormal(collation, v, u);
      EncodesTheNormalForm(collation, v);
      EncodesTheNormalForm(collation, u);
    }
    if Canonical(collation, v) == Canonical(collation, u) {
      CanonicalTextIsInjective(collation, v, u);
    }
  }

  // Member order, exactly.

  predicate DistinctKeys(members: seq<Pair<Json>>) {
    forall i, j | 0 <= i < j < |members| :: members[i].key != members[j].key
  }

  /** Two objects with the same own properties, inserted in any order. */
  ghost predicate SameProperties(p: seq<Pair<Json>>, q: seq<Pair<Json>>) {
    DistinctKeys(p) && forall m :: m in p <==> m in q
  }

  ghost predicate OrderIndependent(collation: Collation, members: seq<Pair<Json>>) {
    forall p :: SameProperties(p, members) ==> Canonical(collation, Obj(p)) == Canonical(collation, Obj(members))
  }

  lemma {:induction false} TieKeepsInsertionOrder(collation: Collation, x: Pair<Json>, y: Pair<Json>,
      sorted: seq<Pair<Json>>)
    requires collation(x.key) == collation(y.key) && x != y
    ensures Insert(collation, x, Insert(collation, y, sorted)) != Insert(collation, y, Insert(collation, x, sorted))
  {
    if sorted == [] || collation(x.key) <= collation(sorted[0].key) {
      assert Insert(collation, x, Insert(collation, y, sorted))[0] == x;
      assert Insert(collation, y, Insert(collation, x, sorted))[0] == y;
    } else {
      TieKeepsInsertionOrder(collation, x, y, sorted[1..]);
      var a, b := Insert(collation, x, Insert(collation, y, sorted)),
          Insert(collation, y, Insert(collation, x, sorted));
      assert Insert(collation, y, sorted)[1..] == Insert(collation, y, sorted[1..]);
      assert Insert(collation, x, sorted)[1..] == Insert(collation, x, sorted[1..]);
      assert a[1..] != b[1..];
    }
  }

  /** Two kept members that tie, put first in either order, give different texts. */
  lemma TiesExposeOrder(collation: Collation, x: Pair<Json>, y: Pair<Json>, others: seq<Pair<Json>>)
    requires x.key != y.key && collation(x.key) == collation(y.key) && !x.value.Undefined? && !y.value.Undefined?
    requires Encodable(Obj([x, y] + others)) && Encodable(Obj([y, x] + others))
    ensures Canonical(collation, Obj([x, y] + others)) != Canonical(collation, Obj([y, x] + others))
  {
    var p, q := [x, y] + others, [y, x] + others;
    var x', y' := Pair(x.key, Normal(collation, x.value)), Pair(y.key, Normal(collation, y.value));
    var rest := NormalMembers(collation, others);
    assert p[1..][1..] == others && q[1..][1..] == others;
    assert p[1..][0] == y && q[1..][0] == x;
    assert NormalMembers(collation, p[1..]) == [y'] + rest && NormalMembers(collation, q[1..]) == [x'] + rest;
    assert NormalMembers(collation, p) == [x'] + ([y'] + rest) && NormalMembers(collation, q) == [y'] + ([x'] + rest);
    SortTwo(collation, x', y', rest);
    SortTwo(collation, y', x', rest);
    TieKeepsInsertionOrder(collation, x', y', Sort(collation, rest));
    DecodesToNormalForm(collation, Obj(p));
    DecodesToNormalForm(collation, Obj(q));
  }

  lemma SortTwo(collation: Collation, x: Pair<Json>, y: Pair<Json>, rest: seq<Pair<Json>>)
    ensures Sort(collation, [x] + ([y] + rest)) == Insert(collation, x, Insert(collation, y, Sort(collation, rest)))
  {
    assert ([x] + ([y] + rest))[1..] == [y] + rest && ([y] + rest)[1..] == rest;
  }

  lemma OrderIndependentIfTieFree(collation: Collation, members: seq<Pair<Json>>, p: seq<Pair<Json>>)
    requires Encodable(Obj(members)) && TieFreeKeys(collation, members) && SameProperties(p, members)
    ensures Canonical(collation, Obj(p)) == Canonical(collation, Obj(members))
  {
    forall i, j | 0 <= i < j < |p| && !p[i].value.Undefined? && !p[j].value.Undefined?
      ensures collation(p[i].key) != collation(p[j].key)
    {
      assert p[i] in p && p[j] in p;
      var i' :| 0 <= i' < |members| && members[i'] == p[i];
      var j' :| 0 <= j' < |members| && members[j'] == p[j];
    }
    NormalMembersOf(collation, p);
    NormalMembersOf(collation, members);
    SameMembersSortAlike(collation, p, members);
    EncodesTheNormalForm(collation, Obj(p));
    EncodesTheNormalForm(collation, Obj(members));
  }

  function Without(members: seq<Pair<Json>>, i: nat, j: nat): seq<Pair<Json>>
    requires i < j < |members|
  {
    members[..i] + members[i + 1..j] + members[j + 1..]
  }

  lemma FrontedHasSameProperties(members: seq<Pair<Json>>, i: nat, j: nat)
    requires i < j < |members| && DistinctKeys(members)
    ensures SameProperties([members[i], members[j]] + Without(members, i, j), members)
    ensures SameProperties([members[j], members[i]] + Without(members, i, j), members)
  {
    WithoutHasTheOthers(members, i, j);
    var others, x, y := Without(members, i, j), members[i], members[j];
    forall k | 0 <= k < |others|
      ensures others[k].key != x.key && others[k].key != y.key
    {
      assert others[k] in others;
    }
    assert forall m :: m in [x, y] + others <==> m == x || m == y || m in others;
    assert forall m :: m in [y, x] + others <==> m == x || m == y || m in others;
  }

  lemma WithoutHasTheOthers(members: seq<Pair<Json>>, i: nat, j: nat)
    requires i < j < |members| && DistinctKeys(members)
    ensures DistinctKeys(Without(members, i, j))
    ensures forall m :: m in members <==> m == members[i] || m == members[j] || m in Without(members, i, j)
    ensures forall m <- Without(members, i, j) :: m.key != members[i].key && m.key != members[j].key
  {
    var others := Without(members, i, j);
    forall m | m in members ensures m == members[i] || m == members[j] || m in others {
      var k :| 0 <= k < |members| && members[k] == m;
      if k < i { assert others[k] == m; }
      else if i < k < j { assert others[k - 1] == m; }
      else if j < k { assert others[k - 2] == m; }
    }
    assert forall k | 0 <= k < |others| ::
        others[k] == members[if k < i then k else if k < j - 1 then k + 1 else k + 2];
  }

  /** The text of an object ignores the order of its members exactly when no two kept names tie: the
      collation may put different strings at the same place (canonically equivalent spellings, say), and
      the stable sort then leaves them as inserted. */
  lemma OrderIndependentIffTieFree(collation: Collation, members: seq<Pair<Json>>)
    requires Encodable(Obj(members)) && DistinctKeys(members)
    ensures OrderIndependent(collation, members) <==> TieFreeKeys(collation, members)
  {
    if TieFreeKeys(collation, members) {
      forall p | SameProperties(p, members)
        ensures Canonical(collation, Obj(p)) == Canonical(collation, Obj(members))
      {
        OrderIndependentIfTieFree(collation, members, p);
      }
    } else {
      var i, j :| 0 <= i < j < |members| && !members[i].value.Undefined? && !members[j].value.Undefined?
                  && collation(members[i].key) == collation(members[j].key);
      OrderDependentIfTied(collation, members, i, j);
    }
  }

  lemma OrderDependentIfTied(collation: Collation, members: seq<Pair<Json>>, i: nat, j: nat)
    requires Encodable(Obj(members)) && DistinctKeys(members) && i < j < |members|
    requires !members[i].value.Undefined? && !members[j].value.Undefined?
    requires collation(members[i].key) == collation(members[j].key)
    ensures !OrderIndependent(collation, members)
  {
    var x, y, others := members[i], members[j], Without(members, i, j);
    FrontedHasSameProperties(members, i, j);
    assert Encodable(Obj([x, y] + others)) by { assert forall m <- [x, y] + others :: m in members; }
    assert Encodable(Obj([y, x] + others)) by { assert forall m <- [y, x] + others :: m in members; }
    TiesExposeOrder(collation, x, y, others);
  }
}
