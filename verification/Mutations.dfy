/** Exactly-once mutations: claim the scope, mutate, audit, publish and complete in one transaction. */
module Mutations {
  import opened Options
  import opened Texts
  import opened JsonText
  import opened CanonicalJson
  import opened Redaction

  datatype Scope = Scope(tenant: Text, actor: Text, operation: Text, key: Text)

  /** An idempotency record; a `null` response is stored as SQL NULL, the body of an incomplete record. */
  datatype Record = Record(payloadHash: Text, completed: bool, body: Json)

  datatype AuditRow = AuditRow(scope: Scope, payloadHash: Json, result: Json, references: seq<Pair<Json>>)
  datatype OutboxRow = OutboxRow(tenant: Text, eventType: Text, key: Text, payload: seq<Pair<Json>>)

  /** A row some mutation wrote, tagged with the scope it ran for. */
  datatype Write = Write(scope: Scope, row: Json)

  datatype Tables = Tables(records: map<Scope, Record>, audits: seq<AuditRow>, outbox: seq<OutboxRow>,
      domain: seq<Write>)

  const EMPTY: Tables := Tables(map[], [], [], [])

  /** What the mutator does: rows written, then a response or (`None`) an exception. */
  datatype Mutation = Mutation(rows: seq<Json>, response: Option<Json>)

  /** Where the database gives up. `AtComplete` is a failing update, `AtCommit` a failing commit and
      `AfterCommit` a commit whose answer is lost. */
  datatype Fault = Sound | AtClaim | AtAudit | AtOutbox | AtComplete | AtCommit | AfterCommit

  datatype Request = Request(scope: Scope, payload: Json, audit: seq<Pair<Json>>, eventType: Text,
                             eventPayload: seq<Pair<Json>>, mutation: Mutation, fault: Fault)

  datatype Decision = New | Replay(response: Json) | Conflict

  datatype Answer = Returned(response: Json) | KeyConflict | Errored

  /** The object whose canonical text identifies a request; hashing is injective, so the text is the hash. */
  function Identity(scope: Scope, payload: Json): Json {
    Obj([Pair(Ascii("operationId"), Str(scope.operation)), Pair(Ascii("payload"), payload)])
  }

  function PayloadHash(collation: Collation, scope: Scope, payload: Json): Option<Text> {
    Canonical(collation, Identity(scope, payload))
  }

  /** Property read. */
  function Member(members: seq<Pair<Json>>, key: Text): Json {
    if members == [] then Undefined else if members[0].key == key then members[0].value else Member(members[1..], key)
  }

  /** `{...members, [key]: value}`. */
  function With(members: seq<Pair<Json>>, key: Text, value: Json): seq<Pair<Json>> {
    if members == [] then [Pair(key, value)]
    else if members[0].key == key then [Pair(key, value)] + members[1..]
    else [members[0]] + With(members[1..], key, value)
  }

  const PAYLOAD_HASH: Text := Ascii("payloadHash")
  const RESULT: Text := Ascii("result")
  const SUCCESS: Json := Str(Ascii("SUCCESS"))

  /** `?? "SUCCESS"` */
  function OrSuccess(v: Json): Json {
    if v.Undefined? then SUCCESS else v
  }

  /** The redacted attributes of a successful mutation. */
  function AuditOf(audit: seq<Pair<Json>>, hash: Text): seq<Pair<Json>> {
    SafeMembers(With(With(audit, PAYLOAD_HASH, Str(hash)), RESULT, SUCCESS))
  }

  predicate Taken(outbox: seq<OutboxRow>, tenant: Text, eventType: Text, key: Text) {
    exists o <- outbox :: o.tenant == tenant && o.eventType == eventType && o.key == key
  }

  function Tagged(scope: Scope, rows: seq<Json>): seq<Write> {
    seq(|rows|, i requires 0 <= i < |rows| => Write(scope, rows[i]))
  }

  /** What a stored document reads back as: members dropped and put in the database's own order. */
  function Stored(order: Collation, v: Json): Json {
    Normal(order, v)
  }

  // The transaction as one step.

  /** A request takes effect. */
  predicate Commits(collation: Collation, t: Tables, r: Request) {
    && PayloadHash(collation, r.scope, r.payload).Some?
    && r.scope !in t.records
    && r.mutation.response.Some? && Encodable(r.mutation.response.value)
    && !Taken(t.outbox, r.scope.tenant, r.eventType, r.scope.key)
    && (r.fault.Sound? || r.fault.AfterCommit?)
  }

  /** What a request that takes effect leaves. */
  function Effect(collation: Collation, order: Collation, t: Tables, r: Request): Tables
    requires Commits(collation, t, r)
  {
    var hash := PayloadHash(collation, r.scope, r.payload).value;
    Tables(
      t.records[r.scope := Record(hash, true, Stored(order, r.mutation.response.value))],
      t.audits + [AuditRow(r.scope, Str(hash), SUCCESS, AuditOf(r.audit, hash))],
      t.outbox + [OutboxRow(r.scope.tenant, r.eventType, r.scope.key, SafeMembers(r.eventPayload))],
      t.domain + Tagged(r.scope, r.mutation.rows))
  }

  function Executed(collation: Collation, order: Collation, t: Tables, r: Request): Tables {
    if Commits(collation, t, r) then Effect(collation, order, t, r) else t
  }

  /** What the caller hears. */
  function Response(collation: Collation, t: Tables, r: Request): Answer {
    var hash := PayloadHash(collation, r.scope, r.payload);
    if hash.None? || r.fault.AtClaim? then Errored
    else if r.scope in t.records then
      var record := t.records[r.scope];
      if record.payloadHash != hash.value || record.body.Null? then KeyConflict
      else if r.fault.AtCommit? || r.fault.AfterCommit? then Errored
      else Returned(record.body)
    else if Commits(collation, t, r) && r.fault.Sound? then Returned(r.mutation.response.value)
    else Errored
  }

  /** What the callback answers before the commit is attempted. */
  ghost function Callback(collation: Collation, t: Tables, r: Request): Answer
    requires PayloadHash(collation, r.scope, r.payload).Some?
  {
    if r.fault in {AtClaim, AtAudit, AtOutbox, AtComplete} && (r.fault.AtClaim? || r.scope !in t.records) then Errored
    else Response(collation, t, r.(fault := Sound))
  }

  // Redaction keeps the two members the coordinator adds.

  lemma {:induction false} MemberOfWith(members: seq<Pair<Json>>, key: Text, value: Json, other: Text)
    ensures Member(With(members, key, value), other) == if other == key then value else Member(members, other)
  {
    if members != [] && members[0].key != key { MemberOfWith(members[1..], key, value, other); }
  }

  lemma {:induction false} MemberOfSafe(members: seq<Pair<Json>>, key: Text)
    requires !Sensitive(key)
    ensures Member(SafeMembers(members), key) == SafeValue(Member(members, key))
  {
    if members != [] && members[0].key != key { MemberOfSafe(members[1..], key); }
  }

  lemma AddedKeysAreNotSensitive()
    ensures !Sensitive(PAYLOAD_HASH) && !Sensitive(RESULT)
  {
    var hash, result: Text := [112, 97, 121, 108, 111, 97, 100, 72, 97, 115, 104], [114, 101, 115, 117, 108, 116];
    assert PAYLOAD_HASH == hash;
    assert RESULT == result;
    PlainIsNotSensitive(hash);
    PlainIsNotSensitive(result);
  }

  /** Whatever attributes the caller passes, the audit row records the hash of the request and its success. */
  lemma AuditKeepsItsHash(audit: seq<Pair<Json>>, hash: Text)
    ensures Member(AuditOf(audit, hash), PAYLOAD_HASH) == Str(hash)
    ensures Member(AuditOf(audit, hash), RESULT) == SUCCESS
    ensures Settled(Obj(AuditOf(audit, hash)))
  {
    var hashed := With(audit, PAYLOAD_HASH, Str(hash));
    AddedKeysAreNotSensitive();
    assert RESULT != PAYLOAD_HASH by { assert |RESULT| != |PAYLOAD_HASH|; }
    MemberOfWith(audit, PAYLOAD_HASH, Str(hash), PAYLOAD_HASH);
    MemberOfWith(hashed, RESULT, SUCCESS, PAYLOAD_HASH);
    MemberOfWith(hashed, RESULT, SUCCESS, RESULT);
    MemberOfSafe(With(hashed, RESULT, SUCCESS), PAYLOAD_HASH);
    MemberOfSafe(With(hashed, RESULT, SUCCESS), RESULT);
    SafeMembersSettle(With(hashed, RESULT, SUCCESS));
  }

  /** Every other attribute of the caller is there too, redacted in depth. */
  lemma AuditKeepsAttributes(audit: seq<Pair<Json>>, hash: Text, key: Text)
    requires !Sensitive(key) && key != Ascii("payloadHash") && key != Ascii("result")
    ensures Member(AuditOf(audit, hash), key) == SafeValue(Member(audit, key))
  {
    var hashed := With(audit, PAYLOAD_HASH, Str(hash));
    MemberOfWith(audit, PAYLOAD_HASH, Str(hash), key);
    MemberOfWith(hashed, RESULT, SUCCESS, key);
    MemberOfSafe(With(hashed, RESULT, SUCCESS), key);
  }

  // The effects, in the order the code performs them.

  /** The tables, the collation of `canonicalJson`, the key order of stored documents and the scope the open
      transaction has claimed. */
  class PostgresMutationUnitOfWork {
    const collation: Collation
    const order: Collation
    var records: map<Scope, Record>
    var audits: seq<AuditRow>
    var outbox: seq<OutboxRow>
    var domain: seq<Write>
    var activeScope: Option<Scope>

    function State(): Tables
      reads this
    {
      Tables(records, audits, outbox, domain)
    }

    constructor (collation: Collation, order: Collation)
      ensures State() == EMPTY && this.collation == collation && this.order == order
    {
      this.collation, this.order := collation, order;
      records, audits, outbox, domain, activeScope := map[], [], [], [], None;
    }

    /** Insert the record unless the scope is there, then judge the one found. */
    method Claim(scope: Scope, hash: Text) returns (decision: Decision)
      modifies this`records, this`activeScope
      ensures activeScope == Some(scope)
      ensures decision.New? <==> scope !in old(records)
      ensures decision.New? ==> records == old(records)[scope := Record(hash, false, Null)]
      ensures !decision.New? ==> records == old(records)
      ensures decision.Replay? <==>
                scope in records && records[scope].payloadHash == hash && !records[scope].body.Null? && !decision.New?
      ensures decision.Replay? ==> decision.response == records[scope].body
    {
      activeScope := Some(scope);
      if scope !in records {
        records := records[scope := Record(hash, false, Null)];
        return New;
      }
      var existing := records[scope];
      if existing.payloadHash != hash { return Conflict; }
      if existing.body.Null? { return Conflict; }
      return Replay(existing.body);
    }

    /** The mutator's writes. */
    method Mutate(scope: Scope, mutation: Mutation) returns (response: Option<Json>)
      modifies this`domain
      ensures domain == old(domain) + Tagged(scope, mutation.rows) && response == mutation.response
    {
      for i := 0 to |mutation.rows|
        invariant domain == old(domain) + Tagged(scope, mutation.rows)[..i]
      {
        domain := domain + [Write(scope, mutation.rows[i])];
      }
      return mutation.response;
    }

    method AppendAudit(input: seq<Pair<Json>>) returns (ok: bool)
      modifies this`audits
      ensures ok <==> activeScope.Some?
      ensures audits == if !ok then old(audits) else
                old(audits) + [AuditRow(activeScope.value, Member(input, PAYLOAD_HASH),
                                        OrSuccess(Member(input, RESULT)), input)]
    {
      if activeScope.None? { return false; }
      var result := Member(input, RESULT);
      if result.Undefined? { result := SUCCESS; }
      audits := audits + [AuditRow(activeScope.value, Member(input, PAYLOAD_HASH), result, input)];
      return true;
    }

    /** The unique index on tenant, event type and key can refuse the row. */
    method AppendOutbox(eventType: Text, payload: seq<Pair<Json>>) returns (ok: bool)
      modifies this`outbox
      ensures ok <==>
                activeScope.Some? && !Taken(old(outbox), activeScope.value.tenant, eventType, activeScope.value.key)
      ensures outbox == if !ok then old(outbox) else
                old(outbox) + [OutboxRow(activeScope.value.tenant, eventType, activeScope.value.key, payload)]
    {
      if activeScope.None? { return false; }
      var scope := activeScope.value;
      if Taken(outbox, scope.tenant, eventType, scope.key) { return false; }
      outbox := outbox + [OutboxRow(scope.tenant, eventType, scope.key, payload)];
      return true;
    }

    /** Hashing the response can throw; the update touches only the record with this hash. */
    method Complete(scope: Scope, hash: Text, response: Json) returns (ok: bool)
      modifies this`records
      ensures ok <==> Encodable(response)
      ensures records == if ok && scope in old(records) && old(records)[scope].payloadHash == hash
                         then old(records)[scope := Record(hash, true, Stored(order, response))] else old(records)
    {
      EncodesTheNormalForm(collation, response);
      if Canonical(collation, response).None? { return false; }
      if scope in records && records[scope].payloadHash == hash {
        records := records[scope := Record(hash, true, Stored(order, response))];
      }
      return true;
    }

    method Rollback(to: Tables)
      modifies this
      ensures State() == to
    {
      records, audits, outbox, domain := to.records, to.audits, to.outbox, to.domain;
    }
  }

  class MutationCoordinator {
    const unitOfWork: PostgresMutationUnitOfWork

    constructor (unitOfWork: PostgresMutationUnitOfWork)
      ensures this.unitOfWork == unitOfWork
    {
      this.unitOfWork := unitOfWork;
    }

    /** The rest of the callback, for a new scope. Throwing (`None`) leaves whatever was written so far. */
    method Perform(r: Request, hash: Text) returns (response: Option<Json>)
      requires unitOfWork.activeScope == Some(r.scope)
      requires r.scope in unitOfWork.records && unitOfWork.records[r.scope].payloadHash == hash
      modifies unitOfWork
      ensures response.Some? <==>
                && r.mutation.response.Some? && Encodable(r.mutation.response.value)
                && !Taken(old(unitOfWork.outbox), r.scope.tenant, r.eventType, r.scope.key)
                && r.fault !in {AtAudit, AtOutbox, AtComplete}
      ensures response.Some? ==> response == r.mutation.response && unitOfWork.State() == Tables(
                old(unitOfWork.records)[r.scope := Record(hash, true, Stored(unitOfWork.order, response.value))],
                old(unitOfWork.audits) + [AuditRow(r.scope, Str(hash), SUCCESS, AuditOf(r.audit, hash))],
                old(unitOfWork.outbox) +
                [OutboxRow(r.scope.tenant, r.eventType, r.scope.key, SafeMembers(r.eventPayload))],
                old(unitOfWork.domain) + Tagged(r.scope, r.mutation.rows))
    {
      response := unitOfWork.Mutate(r.scope, r.mutation);
      if response.None? { return None; }
      AuditKeepsItsHash(r.audit, hash);
      var audited := unitOfWork.AppendAudit(AuditOf(r.audit, hash));
      if !audited || r.fault.AtAudit? { return None; }
      var published := unitOfWork.AppendOutbox(r.eventType, SafeMembers(r.eventPayload));
      if !published || r.fault.AtOutbox? { return None; }
      var completed := unitOfWork.Complete(r.scope, hash, response.value);
      if !completed || r.fault.AtComplete? { return None; }
    }

    /** The callback of the transaction. */
    method Work(r: Request, hash: Text) returns (answer: Answer)
      requires PayloadHash(unitOfWork.collation, r.scope, r.payload) == Some(hash)
      modifies unitOfWork
      ensures answer == Callback(unitOfWork.collation, old(unitOfWork.State()), r)
      ensures answer.Returned? && r.scope in old(unitOfWork.records) ==> unitOfWork.State() == old(unitOfWork.State())
      ensures answer.Returned? && r.scope !in old(unitOfWork.records) ==>
                unitOfWork.State() ==
                Effect(unitOfWork.collation, unitOfWork.order, old(unitOfWork.State()), r.(fault := Sound))
    {
      if r.fault.AtClaim? { return Errored; }
      var decision := unitOfWork.Claim(r.scope, hash);
      if decision.Conflict? { return KeyConflict; }
      if decision.Replay? { return Returned(decision.response); }
      var response := Perform(r, hash);
      return if response.Some? then Returned(response.value) else Errored;
    }

    /** `execute`: hash the payload, run the work in a transaction, undo everything if anything throws. */
    method Execute(r: Request) returns (answer: Answer)
      modifies unitOfWork
      ensures unitOfWork.State() == Executed(unitOfWork.collation, unitOfWork.order, old(unitOfWork.State()), r)
      ensures answer == Response(unitOfWork.collation, old(unitOfWork.State()), r)
    {
      var hash := PayloadHash(unitOfWork.collation, r.scope, r.payload);
      if hash.None? { return Errored; }
      var before := unitOfWork.State();
      answer := Work(r, hash.value);
      if !answer.Returned? || r.fault.AtCommit? {
        unitOfWork.Rollback(before);
        return if answer.KeyConflict? then KeyConflict else Errored;
      }
      if r.fault.AfterCommit? { return Errored; }
    }
  }
}
