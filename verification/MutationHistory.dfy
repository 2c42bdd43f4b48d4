/** What any run of mutations keeps, whatever fails on the way. */
module MutationHistory {
  import opened Options
  import opened Texts
  import opened JsonText
  import opened CanonicalJson
  import opened CanonicalOrder
  import opened Redaction
  import opened Mutations

  /** The tables after a run of requests. */
  function After(collation: Collation, order: Collation, t: Tables, rs: seq<Request>): Tables {
    if rs == [] then t
    else Executed(collation, order, After(collation, order, t, rs[..|rs| - 1]), rs[|rs| - 1])
  }

  // Records, audits and outbox rows go together.

  /** One audit row and one outbox row, at the same place, for one committed scope. */
  predicate Matching(t: Tables, i: nat)
    requires i < |t.audits| && i < |t.outbox|
  {
    var a, o := t.audits[i], t.outbox[i];
    && a.scope in t.records
    && a.payloadHash == Str(t.records[a.scope].payloadHash) && a.result == SUCCESS
    && Member(a.references, PAYLOAD_HASH) == a.payloadHash
    && o.tenant == a.scope.tenant && o.key == a.scope.key
    && Settled(Obj(a.references)) && Settled(Obj(o.payload))
  }

  predicate UniqueScopes(audits: seq<AuditRow>) {
    forall i, j | 0 <= i < j < |audits| :: audits[i].scope != audits[j].scope
  }

  predicate UniqueEvents(outbox: seq<OutboxRow>) {
    forall i, j | 0 <= i < j < |outbox| ::
      !(outbox[i].tenant == outbox[j].tenant && outbox[i].eventType == outbox[j].eventType
          && outbox[i].key == outbox[j].key)
  }

  /** Every record is complete and has exactly one audit row and one outbox row, all redacted; no two outbox
      rows share tenant, event type and key; every domain row belongs to a record. */
  predicate Consistent(t: Tables) {
    && |t.audits| == |t.outbox| == |t.records|
    && UniqueScopes(t.audits) && UniqueEvents(t.outbox)
    && (forall s <- t.records :: t.records[s].completed)
    && (forall i | 0 <= i < |t.audits| :: Matching(t, i))
    && (forall w <- t.domain :: w.scope in t.records)
  }

  lemma CommitKeepsMatching(collation: Collation, order: Collation, t: Tables, r: Request, i: nat)
    requires Consistent(t) && Commits(collation, t, r) && i <= |t.audits|
    ensures Matching(Effect(collation, order, t, r), i)
  {
    if i < |t.audits| {
      assert Matching(t, i);
    } else {
      AuditKeepsItsHash(r.audit, PayloadHash(collation, r.scope, r.payload).value);
      SafeMembersSettle(r.eventPayload);
    }
  }

  lemma CommitKeepsUnique(collation: Collation, order: Collation, t: Tables, r: Request)
    requires Consistent(t) && Commits(collation, t, r)
    ensures UniqueScopes(Effect(collation, order, t, r).audits) && UniqueEvents(Effect(collation, order, t, r).outbox)
  {
    forall i | 0 <= i < |t.audits| ensures t.audits[i].scope != r.scope { assert Matching(t, i); }
    forall i | 0 <= i < |t.outbox| ensures t.outbox[i] in t.outbox {}
  }

  lemma CommitKeepsConsistent(collation: Collation, order: Collation, t: Tables, r: Request)
    requires Consistent(t) && Commits(collation, t, r)
    ensures Consistent(Effect(collation, order, t, r))
  {
    var v := Effect(collation, order, t, r);
    assert v.records.Keys == t.records.Keys + {r.scope};
    forall i | 0 <= i < |v.audits| ensures Matching(v, i) { CommitKeepsMatching(collation, order, t, r, i); }
    CommitKeepsUnique(collation, order, t, r);
  }

  /** Consistency holds in every state of every run. */
  lemma {:induction false} RunsStayConsistent(collation: Collation, order: Collation, t: Tables, rs: seq<Request>)
    requires Consistent(t)
    ensures Consistent(After(collation, order, t, rs))
  {
    if rs != [] {
      RunsStayConsistent(collation, order, t, rs[..|rs| - 1]);
      var u := After(collation, order, t, rs[..|rs| - 1]);
      if Commits(collation, u, rs[|rs| - 1]) { CommitKeepsConsistent(collation, order, u, rs[|rs| - 1]); }
    }
  }

  /** In particular in every state reached from empty tables. */
  lemma RunsFromEmptyAreConsistent(collation: Collation, order: Collation, rs: seq<Request>)
    ensures Consistent(After(collation, order, EMPTY, rs))
  {
    RunsStayConsistent(collation, order, EMPTY, rs);
  }

  // At most one commit per scope.

  /** How many requests of a run commit for a scope. */
  function CommitCount(collation: Collation, order: Collation, t: Tables, rs: seq<Request>, s: Scope): nat {
    if rs == [] then 0
    else
      var u, r := After(collation, order, t, rs[..|rs| - 1]), rs[|rs| - 1];
      CommitCount(collation, order, t, rs[..|rs| - 1], s) + if r.scope == s && Commits(collation, u, r) then 1 else 0
  }

  /** The domain rows written for a scope. */
  function RowsOf(domain: seq<Write>, s: Scope): seq<Json> {
    if domain == [] then []
    else RowsOf(domain[..|domain| - 1], s) +
         if domain[|domain| - 1].scope == s then [domain[|domain| - 1].row] else []
  }

  lemma {:induction false} RowsOfTagged(domain: seq<Write>, scope: Scope, rows: seq<Json>, s: Scope)
    ensures RowsOf(domain + Tagged(scope, rows), s) == RowsOf(domain, s) + if scope == s then rows else []
  {
    if rows == [] {
      assert domain + Tagged(scope, rows) == domain;
    } else {
      var init, last := rows[..|rows| - 1], rows[|rows| - 1];
      RowsOfTagged(domain, scope, init, s);
      RowsOfAppend(domain + Tagged(scope, init), Write(scope, last), s);
      TaggedAppend(domain, scope, rows);
      assert rows == init + [last];
    }
  }

  lemma TaggedAppend(domain: seq<Write>, scope: Scope, rows: seq<Json>)
    requires rows != []
    ensures domain + Tagged(scope, rows) ==
            domain + Tagged(scope, rows[..|rows| - 1]) + [Write(scope, rows[|rows| - 1])]
  {
    assert Tagged(scope, rows) == Tagged(scope, rows[..|rows| - 1]) + [Write(scope, rows[|rows| - 1])];
  }

  lemma RowsOfAppend(domain: seq<Write>, w: Write, s: Scope)
    ensures RowsOf(domain + [w], s) == RowsOf(domain, s) + if w.scope == s then [w.row] else []
  {
    assert (domain + [w])[..|domain|] == domain;
  }

  /** A scope commits in a run exactly when its record appears in it, and then once. */
  lemma {:induction false} AtMostOneCommit(collation: Collation, order: Collation, t: Tables, rs: seq<Request>,
      s: Scope)
    ensures CommitCount(collation, order, t, rs, s) ==
              if s !in t.records && s in After(collation, order, t, rs).records then 1 else 0
    ensures s in t.records ==> s in After(collation, order, t, rs).records
  {
    if rs != [] { AtMostOneCommit(collation, order, t, rs[..|rs| - 1], s); }
  }

  /** What is stored for a committed request: its hash and response, exactly its writes, its redacted attributes
      under its scope and hash, and its event with the redacted payload. */
  predicate Holds(collation: Collation, order: Collation, t: Tables, r: Request) {
    && PayloadHash(collation, r.scope, r.payload).Some? && r.mutation.response.Some?
    && r.scope in t.records
    && t.records[r.scope] ==
         Record(PayloadHash(collation, r.scope, r.payload).value, true, Stored(order, r.mutation.response.value))
    && RowsOf(t.domain, r.scope) == r.mutation.rows
    && AuditRow(r.scope, Str(PayloadHash(collation, r.scope, r.payload).value), Str(Ascii("SUCCESS")),
                AuditOf(r.audit, PayloadHash(collation, r.scope, r.payload).value)) in t.audits
    && OutboxRow(r.scope.tenant, r.eventType, r.scope.key, SafeMembers(r.eventPayload)) in t.outbox
  }

  lemma NoRowsBefore(domain: seq<Write>, s: Scope)
    requires forall w <- domain :: w.scope != s
    ensures RowsOf(domain, s) == []
  {
  }

  /** A commit stores its request's response and writes, whole. */
  lemma CommitHolds(collation: Collation, order: Collation, t: Tables, r: Request)
    requires Consistent(t) && Commits(collation, t, r)
    ensures Holds(collation, order, Effect(collation, order, t, r), r)
  {
    var v := Effect(collation, order, t, r);
    NoRowsBefore(t.domain, r.scope);
    RowsOfTagged(t.domain, r.scope, r.mutation.rows, r.scope);
    assert v.audits[|t.audits|] in v.audits && v.outbox[|t.outbox|] in v.outbox;
  }

  lemma HoldsOneMore(collation: Collation, order: Collation, t: Tables, r: Request, q: Request)
    requires Holds(collation, order, t, r)
    ensures Holds(collation, order, Executed(collation, order, t, q), r)
  {
    if Commits(collation, t, q) {
      RowsOfTagged(t.domain, q.scope, q.mutation.rows, r.scope);
      assert forall a <- t.audits :: a in Executed(collation, order, t, q).audits;
      assert forall o <- t.outbox :: o in Executed(collation, order, t, q).outbox;
    }
  }

  /** It stays stored, untouched by every later request of any scope. */
  lemma {:induction false} HoldsForever(collation: Collation, order: Collation, t: Tables, r: Request, rs: seq<Request>)
    requires Holds(collation, order, t, r)
    ensures Holds(collation, order, After(collation, order, t, rs), r)
  {
    if rs != [] {
      HoldsForever(collation, order, t, r, rs[..|rs| - 1]);
      HoldsOneMore(collation, order, After(collation, order, t, rs[..|rs| - 1]), r, rs[|rs| - 1]);
    }
  }

  /** Every record in a run from empty tables is that of one request of the run, with its response and exactly
      its writes. */
  lemma {:induction false} RecordsHaveOneOrigin(collation: Collation, order: Collation, rs: seq<Request>, s: Scope)
    returns (i: nat)
    requires s in After(collation, order, EMPTY, rs).records
    ensures i < |rs| && rs[i].scope == s && Commits(collation, After(collation, order, EMPTY, rs[..i]), rs[i])
    ensures Holds(collation, order, After(collation, order, EMPTY, rs), rs[i])
  {
    var init := rs[..|rs| - 1];
    if s in After(collation, order, EMPTY, init).records {
      i := RecordsHaveOneOrigin(collation, order, init, s);
      assert init[..i] == rs[..i];
      HoldsOneMore(collation, order, After(collation, order, EMPTY, init), rs[i], rs[|rs| - 1]);
    } else {
      i := |rs| - 1;
      RunsStayConsistent(collation, order, EMPTY, init);
      CommitHolds(collation, order, After(collation, order, EMPTY, init), rs[i]);
    }
  }

  // What a first request hears.

  /** For a scope without a record: the caller is answered exactly if the request commits and its answer arrives,
      and then with what the mutator answered; a commit whose answer is lost is heard as an error. */
  lemma FirstCallHears(collation: Collation, t: Tables, r: Request)
    requires r.scope !in t.records
    ensures Response(collation, t, r).Returned? <==> Commits(collation, t, r) && r.fault.Sound?
    ensures Response(collation, t, r).Returned? ==>
              r.mutation.response.Some? && Response(collation, t, r).response == r.mutation.response.value
    ensures Commits(collation, t, r) && r.fault.AfterCommit? ==> Response(collation, t, r) == Errored
    ensures !Response(collation, t, r).Returned? ==> Response(collation, t, r) == Errored
  {
  }

  /** A request has no effect at all unless its mutator answers something that can be hashed, its event is new, and
      nothing fails up to the commit. */
  lemma FailedRequestsLeaveNothing(collation: Collation, order: Collation, t: Tables, r: Request)
    requires || r.fault in {AtClaim, AtAudit, AtOutbox, AtComplete, AtCommit}
             || r.mutation.response.None? || !Encodable(r.mutation.response.value)
             || !Encodable(Identity(r.scope, r.payload))
             || exists o <- t.outbox :: o.tenant == r.scope.tenant && o.eventType == r.eventType && o.key == r.scope.key
    ensures Executed(collation, order, t, r) == t
    ensures r.scope !in t.records ==> Response(collation, t, r) == Errored
  {
    EncodesTheNormalForm(collation, Identity(r.scope, r.payload));
  }

  /** What identifies a request: the text of its operation and payload, under these names. */
  lemma IdentityIsNamed(s: Scope, payload: Json)
    ensures Identity(s, payload).Obj? && |Identity(s, payload).members| == 2
    ensures Member(Identity(s, payload).members, Ascii("operationId")) == Str(s.operation)
    ensures Member(Identity(s, payload).members, Ascii("payload")) == payload
  {
    var members := Identity(s, payload).members;
    assert |Ascii("operationId")| != |Ascii("payload")|;
    assert members[1..][0] == members[1];
  }

  // What a repeated request hears.

  /** Once a request has committed, every later call with its scope changes nothing, whatever fails. A fault can
      only turn its answer into an error; without one it is answered with the stored response exactly when it
      hashes alike and that response is not null, and refused otherwise. */
  lemma {:induction false} LaterCallsReplay(collation: Collation, order: Collation, t: Tables, r: Request,
      rs: seq<Request>, q: Request)
    requires Holds(collation, order, t, r) && q.scope == r.scope
    ensures Executed(collation, order, After(collation, order, t, rs), q) == After(collation, order, t, rs)
    ensures var u, sound := After(collation, order, t, rs), q.(fault := Sound);
            && Response(collation, u, q) in {Errored, Response(collation, u, sound)}
            && (PayloadHash(collation, q.scope, q.payload) == PayloadHash(collation, r.scope, r.payload)
                && !r.mutation.response.value.Null?
                <==> Response(collation, u, sound) == Returned(Stored(order, r.mutation.response.value)))
            && (Response(collation, u, sound).Returned? || Response(collation, u, sound) ==
                 if PayloadHash(collation, q.scope, q.payload).None? then Errored else KeyConflict)
  {
    HoldsForever(collation, order, t, r, rs);
  }

  /** The stored response is the response up to member order and dropped members. */
  lemma {:induction false} StoredIsSame(order: Collation, v: Json)
    requires Encodable(v)
    ensures Same(v, Stored(order, v))
    decreases v
  {
    match v
    case Arr(items) =>
      NormalItemsAt(order, items);
      forall i | 0 <= i < |items| ensures Same(items[i], NormalItems(order, items)[i]) {
        StoredIsSame(order, items[i]);
      }
    case Obj(members) =>
      var kept := NormalMembers(order, members);
      NormalMembersOf(order, members);
      forall m | m in members && !m.value.Undefined? ensures FoundIn(m, Sort(order, kept)) {
        StoredIsSame(order, m.value);
        SortKeepsMember(order, kept, Pair(m.key, Normal(order, m.value)));
      }
      forall n | n in Sort(order, kept) && !n.value.Undefined? ensures ComesFrom(n, members) {
        SortKeepsMember(order, kept, n);
        var m :| m in members && !m.value.Undefined? && n == Pair(m.key, Normal(order, m.value));
        StoredIsSame(order, m.value);
      }
    case _ =>
  }

  /** Different payloads never hash alike, and equal ones always do where the collation tells their member
      names apart. */
  lemma HashIffSame(collation: Collation, s: Scope, v: Json, u: Json)
    requires PayloadHash(collation, s, v).Some? && PayloadHash(collation, s, u).Some?
    ensures PayloadHash(collation, s, v) == PayloadHash(collation, s, u) ==> SamePayload(v, u)
    ensures TieFree(collation, Identity(s, v)) && TieFree(collation, Identity(s, u)) && SamePayload(v, u) ==>
              PayloadHash(collation, s, v) == PayloadHash(collation, s, u)
  {
    EncodesTheNormalForm(collation, Identity(s, v));
    EncodesTheNormalForm(collation, Identity(s, u));
    SameIdentity(s, v, u);
    if PayloadHash(collation, s, v) == PayloadHash(collation, s, u) {
      CanonicalTextIsInjective(collation, Identity(s, v), Identity(s, u));
    }
    if TieFree(collation, Identity(s, v)) && TieFree(collation, Identity(s, u)) && SamePayload(v, u) {
      CanonicalTextIffSame(collation, Identity(s, v), Identity(s, u));
    }
  }

  /** Payloads equal up to member order and dropped members; a missing payload equals only a missing one. */
  ghost predicate SamePayload(v: Json, u: Json) {
    if v.Undefined? || u.Undefined? then v == u else Same(v, u)
  }

  lemma SameIdentity(s: Scope, v: Json, u: Json)
    ensures Same(Identity(s, v), Identity(s, u)) <==> SamePayload(v, u)
  {
    assert |Ascii("operationId")| != |Ascii("payload")|;
    SameTwoMembers(Ascii("operationId"), Str(s.operation), Ascii("payload"), v, u);
  }

  lemma SameTwoMembers(name: Text, x: Json, other: Text, v: Json, u: Json)
    requires name != other && x.Str?
    ensures Same(Obj([Pair(name, x), Pair(other, v)]), Obj([Pair(name, x), Pair(other, u)])) <==> SamePayload(v, u)
  {
    OnlyUnderItsName(Pair(name, x), Pair(other, v), Pair(other, u));
    if SamePayload(v, u) { SameIfMatched(Pair(name, x), Pair(other, v), Pair(other, u)); }
    if Same(Obj([Pair(name, x), Pair(other, v)]), Obj([Pair(name, x), Pair(other, u)])) {
      MatchedIfSameTwo(Pair(name, x), Pair(other, v), Pair(other, u));
    }
  }

  lemma OnlyUnderItsName(p: Pair<Json>, m: Pair<Json>, n: Pair<Json>)
    requires p.key != m.key && m.key == n.key && p.value.Str?
    ensures FoundIn(p, [p, n]) && ComesFrom(p, [p, m])
    ensures FoundIn(m, [p, n]) <==> !n.value.Undefined? && Same(m.value, n.value)
    ensures ComesFrom(n, [p, m]) <==> !m.value.Undefined? && Same(m.value, n.value)
  {
    assert Same(p.value, p.value);
    FoundInTwo(p, p, n);
    FoundInTwo(m, p, n);
    ComesFromTwo(p, p, m);
    ComesFromTwo(n, p, m);
  }

  lemma MatchedIfSameTwo(p: Pair<Json>, m: Pair<Json>, n: Pair<Json>)
    requires Same(Obj([p, m]), Obj([p, n]))
    ensures (m.value.Undefined? || FoundIn(m, [p, n])) && (n.value.Undefined? || ComesFrom(n, [p, m]))
  {
    assert [p, m][1] == m && [p, n][1] == n;
    MatchedIfSame([p, m], [p, n], m, n);
  }

  lemma FoundInTwo(m: Pair<Json>, p: Pair<Json>, n: Pair<Json>)
    ensures FoundIn(m, [p, n]) <==>
              || (p.key == m.key && !p.value.Undefined? && Same(m.value, p.value))
              || (n.key == m.key && !n.value.Undefined? && Same(m.value, n.value))
  {
    assert [p, n][0] == p && [p, n][1] == n;
    assert forall q <- [p, n] :: q == p || q == n;
  }

  lemma ComesFromTwo(n: Pair<Json>, p: Pair<Json>, m: Pair<Json>)
    ensures ComesFrom(n, [p, m]) <==>
              || (p.key == n.key && !p.value.Undefined? && Same(p.value, n.value))
              || (m.key == n.key && !m.value.Undefined? && Same(m.value, n.value))
  {
    assert [p, m][0] == p && [p, m][1] == m;
    assert forall q <- [p, m] :: q == p || q == m;
  }

  /** Two objects of two members each, when every kept member has its match. */
  lemma SameIfMatched(p: Pair<Json>, m: Pair<Json>, n: Pair<Json>)
    requires (p.value.Undefined? || FoundIn(p, [p, n])) && (m.value.Undefined? || FoundIn(m, [p, n]))
    requires (p.value.Undefined? || ComesFrom(p, [p, m])) && (n.value.Undefined? || ComesFrom(n, [p, m]))
    ensures Same(Obj([p, m]), Obj([p, n]))
  {
    var a, b := [p, m], [p, n];
    forall q | q in a ensures q.value.Undefined? || FoundIn(q, b) { assert q == p || q == m; }
    forall q | q in b ensures q.value.Undefined? || ComesFrom(q, a) { assert q == p || q == n; }
  }

  lemma MatchedIfSame(a: seq<Pair<Json>>, b: seq<Pair<Json>>, m: Pair<Json>, n: Pair<Json>)
    requires Same(Obj(a), Obj(b)) && m in a && n in b
    ensures (m.value.Undefined? || FoundIn(m, b)) && (n.value.Undefined? || ComesFrom(n, a))
  {
  }

  /** Exactly once: after a request has committed with a response, no later call of its scope changes anything;
      one with another payload is refused, whatever the collation, and one with the same payload hears that
      response where the collation tells the member names apart. What the first caller heard and what a replay
      hears differ at most in member order and dropped members. A fault can only turn an answer into an error. */
  lemma ExactlyOnce(collation: Collation, order: Collation, t: Tables, r: Request, rs: seq<Request>, q: Request)
    requires Consistent(t) && Commits(collation, t, r) && !r.mutation.response.value.Null?
    requires q.scope == r.scope && PayloadHash(collation, q.scope, q.payload).Some?
    ensures var u := After(collation, order, Effect(collation, order, t, r), rs);
            Executed(collation, order, u, q) == u
    ensures var u, sound := After(collation, order, Effect(collation, order, t, r), rs), q.(fault := Sound);
            && Response(collation, u, q) in {Errored, Response(collation, u, sound)}
            && (!SamePayload(q.payload, r.payload) ==> Response(collation, u, sound) == KeyConflict)
            && (SamePayload(q.payload, r.payload)
                && TieFree(collation, Identity(r.scope, r.payload))
                && TieFree(collation, Identity(q.scope, q.payload)) ==>
                  Response(collation, u, sound) == Returned(Stored(order, r.mutation.response.value)))
    ensures r.fault.Sound? ==> Response(collation, t, r) == Returned(r.mutation.response.value)
    ensures Same(r.mutation.response.value, Stored(order, r.mutation.response.value))
  {
    StoredIsSame(order, r.mutation.response.value);
    CommitHolds(collation, order, t, r);
    LaterCallsReplay(collation, order, Effect(collation, order, t, r), r, rs, q);
    HashIffSame(collation, r.scope, q.payload, r.payload);
  }

  // Which new scopes commit.

  /** One of the requests of a run has committed the event of `q`: the same tenant, event type and key. */
  predicate EventCommitted(collation: Collation, order: Collation, rs: seq<Request>, q: Request) {
    exists i | 0 <= i < |rs| ::
      && Commits(collation, After(collation, order, EMPTY, rs[..i]), rs[i])
      && rs[i].scope.tenant == q.scope.tenant && rs[i].eventType == q.eventType && rs[i].scope.key == q.scope.key
  }

  lemma EventCommittedStep(collation: Collation, order: Collation, rs: seq<Request>, r: Request, q: Request)
    ensures EventCommitted(collation, order, rs + [r], q) <==>
              EventCommitted(collation, order, rs, q)
              || (&& Commits(collation, After(collation, order, EMPTY, rs), r)
                  && r.scope.tenant == q.scope.tenant && r.eventType == q.eventType && r.scope.key == q.scope.key)
  {
    assert (rs + [r])[..|rs|] == rs && (rs + [r])[|rs|] == r;
    assert forall i | 0 <= i < |rs| :: (rs + [r])[..i] == rs[..i] && (rs + [r])[i] == rs[i];
  }

  lemma TakenAfterCommit(collation: Collation, order: Collation, t: Tables, r: Request, q: Request)
    requires Commits(collation, t, r)
    ensures Taken(Effect(collation, order, t, r).outbox, q.scope.tenant, q.eventType, q.scope.key) <==>
              Taken(t.outbox, q.scope.tenant, q.eventType, q.scope.key)
              || (r.scope.tenant == q.scope.tenant && r.eventType == q.eventType && r.scope.key == q.scope.key)
  {
    var v := Effect(collation, order, t, r).outbox;
    assert forall o :: o in v <==> o in t.outbox || o == v[|t.outbox|];
  }

  /** The outbox holds exactly the events of committed requests. */
  lemma {:induction false} TakenIffCommitted(collation: Collation, order: Collation, rs: seq<Request>, q: Request)
    ensures Taken(After(collation, order, EMPTY, rs).outbox, q.scope.tenant, q.eventType, q.scope.key) <==>
            EventCommitted(collation, order, rs, q)
  {
    if rs != [] {
      var init, r := rs[..|rs| - 1], rs[|rs| - 1];
      var t := After(collation, order, EMPTY, init);
      TakenIffCommitted(collation, order, init, q);
      assert rs == init + [r];
      EventCommittedStep(collation, order, init, r, q);
      if Commits(collation, t, r) { TakenAfterCommit(collation, order, t, r, q); }
    }
  }

  /** A sound request of an unknown scope, whose payload and response can be encoded, commits exactly if no earlier
      request of the run has committed its tenant, event type and key. */
  lemma NewScopesCommitIff(collation: Collation, order: Collation, rs: seq<Request>, q: Request)
    requires q.scope !in After(collation, order, EMPTY, rs).records
    requires PayloadHash(collation, q.scope, q.payload).Some? && q.fault.Sound?
    requires q.mutation.response.Some? && Encodable(q.mutation.response.value)
    ensures Commits(collation, After(collation, order, EMPTY, rs), q) <==> !EventCommitted(collation, order, rs, q)
  {
    TakenIffCommitted(collation, order, rs, q);
  }

  // The outbox index is narrower than the scope.

  /** After a commit, a call of another scope with the same tenant, event type and key fails whole, for ever:
      it is never recorded. */
  lemma {:induction false} CollidingScopesFail(collation: Collation, order: Collation, t: Tables, r: Request,
                                               rs: seq<Request>, q: Request)
    requires Commits(collation, t, r)
    requires q.scope != r.scope && q.scope !in t.records
    requires q.scope.tenant == r.scope.tenant && q.scope.key == r.scope.key && q.eventType == r.eventType
    requires forall p <- rs :: p.scope == q.scope ==> p.eventType == q.eventType
    ensures var u := After(collation, order, Effect(collation, order, t, r), rs);
            && Executed(collation, order, u, q) == u && Response(collation, u, q) == Errored
            && q.scope !in u.records
            && Taken(u.outbox, r.scope.tenant, r.eventType, r.scope.key)
  {
    var v := Effect(collation, order, t, r);
    if rs == [] {
      assert v.outbox[|t.outbox|] in v.outbox;
    } else {
      var init := rs[..|rs| - 1];
      CollidingScopesFail(collation, order, t, r, init, q);
      var u, p := After(collation, order, v, init), rs[|rs| - 1];
      assert p in rs;
      if Commits(collation, u, p) {
        assert forall o <- u.outbox :: o in Effect(collation, order, u, p).outbox;
      }
    }
  }
}
