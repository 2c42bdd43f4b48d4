/** The journal of partner calls: begin, commit a receipt, record a failure, each in its own transaction. */
module PartnerJournal {
  import opened Options
  import opened Texts
  import opened JsonText
  import opened CanonicalJson
  import Mutations

  type Scope = Mutations.Scope
  type OperationId = nat

  /** The response of an idempotency record. A receipt is read back as the database stored it. */
  datatype Body = Nothing | Receipt(receipt: Json) | Failure(classification: string)

  /** Records written by others carry no resource id. */
  datatype Entry = Entry(payloadHash: Text, resource: Option<OperationId>, body: Body)

  datatype Status = Pending | Succeeded | RetryableFailure | PermanentFailure
  datatype Operation = Operation(tenant: Text, status: Status)

  /** A PARTNER_RECEIPT step. */
  datatype ReceiptStep = ReceiptStep(tenant: Text, operation: OperationId, receipt: Json)

  datatype AuditRow = AuditRow(scope: Scope, operation: OperationId, result: Status)

  /** The completion event; the index allows one for a tenant and key. */
  datatype Completion = Completion(tenant: Text, key: Text, receipt: Json)

  datatype Journal = Journal(entries: map<Scope, Entry>, operations: map<OperationId, Operation>,
                             steps: seq<ReceiptStep>, audits: seq<AuditRow>, outbox: seq<Completion>)

  const EMPTY: Journal := Journal(map[], map[], [], [], [])

  datatype Beginning = New(id: OperationId) | Resume(id: OperationId) | Replay(receipt: Json)
                     | Refused(classification: string) | Conflict

  // What one transaction does.

  function Begun(j: Journal, s: Scope, hash: Text, id: OperationId): Journal {
    if s in j.entries then j
    else j.(entries := j.entries[s := Entry(hash, Some(id), Nothing)],
            operations := j.operations[id := Operation(s.tenant, Pending)])
  }

  function BeginAnswer(j: Journal, s: Scope, hash: Text, id: OperationId): Beginning {
    if s !in j.entries then New(id)
    else
      var entry := j.entries[s];
      if entry.payloadHash != hash || entry.resource.None? then Conflict
      else
        match entry.body
        case Receipt(receipt) => Replay(receipt)
        case Failure(classification) => Refused(classification)
        case Nothing => Resume(entry.resource.value)
  }

  predicate IsStep(step: ReceiptStep, tenant: Text, id: OperationId) {
    step.tenant == tenant && step.operation == id
  }

  /** The first step for an operation. */
  function FindStep(steps: seq<ReceiptStep>, tenant: Text, id: OperationId): Option<ReceiptStep> {
    if steps == [] then None
    else if IsStep(steps[0], tenant, id) then Some(steps[0])
    else FindStep(steps[1..], tenant, id)
  }

  predicate Published(outbox: seq<Completion>, tenant: Text, key: Text) {
    exists c <- outbox :: c.tenant == tenant && c.key == key
  }

  function WithStatus(operations: map<OperationId, Operation>, tenant: Text, id: OperationId,
      status: Status): map<OperationId, Operation> {
    if id in operations && operations[id].tenant == tenant then operations[id := Operation(tenant, status)]
    else operations
  }

  function WithBody(entries: map<Scope, Entry>, s: Scope, body: Body): map<Scope, Entry> {
    if s in entries then entries[s := entries[s].(body := body)] else entries
  }

  /** The first receipt of an operation is about to be committed. */
  predicate Commits(j: Journal, s: Scope, id: OperationId, receipt: Json) {
    FindStep(j.steps, s.tenant, id).None? && id in j.operations && Encodable(receipt)
  }

  function Committed(order: Collation, j: Journal, s: Scope, id: OperationId, receipt: Json): Journal {
    if !Commits(j, s, id, receipt) then j
    else
      var stored := Mutations.Stored(order, receipt);
      Journal(
        WithBody(j.entries, s, Receipt(stored)),
        WithStatus(j.operations, s.tenant, id, Succeeded),
        j.steps + [ReceiptStep(s.tenant, id, stored)],
        j.audits + [AuditRow(s, id, Succeeded)],
        if Published(j.outbox, s.tenant, s.key) then j.outbox else j.outbox + [Completion(s.tenant, s.key, stored)])
  }

  /** `None` is an exception. */
  function CommitAnswer(collation: Collation, j: Journal, s: Scope, id: OperationId, receipt: Json): Option<Json> {
    match FindStep(j.steps, s.tenant, id)
    case Some(step) =>
      if Encodable(receipt) && Canonical(collation, step.receipt) == Canonical(collation, receipt)
      then Some(step.receipt) else None
    case None => if Commits(j, s, id, receipt) then Some(receipt) else None
  }

  function FailureStatus(retryable: bool): Status {
    if retryable then RetryableFailure else PermanentFailure
  }

  function FailureRecorded(j: Journal, s: Scope, id: OperationId, classification: string, retryable: bool): Journal {
    var status := FailureStatus(retryable);
    j.(operations := WithStatus(j.operations, s.tenant, id, status),
       entries := if retryable then j.entries else WithBody(j.entries, s, Failure(classification)),
       audits := j.audits + [AuditRow(s, id, status)])
  }

  /** The tables of the journal. `aborted` below says that the database fails before the commit. */
  class PostgresPartnerJournal {
    const collation: Collation
    const order: Collation
    var entries: map<Scope, Entry>
    var operations: map<OperationId, Operation>
    var steps: seq<ReceiptStep>
    var audits: seq<AuditRow>
    var outbox: seq<Completion>

    function State(): Journal
      reads this
    {
      Journal(entries, operations, steps, audits, outbox)
    }

    constructor (collation: Collation, order: Collation)
      ensures State() == EMPTY && this.collation == collation && this.order == order
    {
      this.collation, this.order := collation, order;
      entries, operations, steps, audits, outbox := map[], map[], [], [], [];
    }

    method Rollback(to: Journal)
      modifies this
      ensures State() == to
    {
      entries, operations, steps, audits, outbox := to.entries, to.operations, to.steps, to.audits, to.outbox;
    }

    /** `nextId` is the id a new operation would get. */
    method Begin(s: Scope, hash: Text, nextId: OperationId, aborted: bool) returns (answer: Option<Beginning>)
      modifies this
      ensures State() == if aborted then old(State()) else Begun(old(State()), s, hash, nextId)
      ensures answer == if aborted then None else Some(BeginAnswer(old(State()), s, hash, nextId))
    {
      var before := State();
      if s !in entries {
        entries := entries[s := Entry(hash, Some(nextId), Nothing)];
        operations := operations[nextId := Operation(s.tenant, Pending)];
        if aborted { Rollback(before); return None; }
        return Some(New(nextId));
      }
      if aborted { return None; }
      var existing := entries[s];
      if existing.payloadHash != hash || existing.resource.None? { return Some(Conflict); }
      if existing.body.Receipt? { return Some(Replay(existing.body.receipt)); }
      if existing.body.Failure? { return Some(Refused(existing.body.classification)); }
      return Some(Resume(existing.resource.value));
    }

    method Find(tenant: Text, id: OperationId) returns (found: Option<ReceiptStep>)
      ensures found == FindStep(steps, tenant, id)
    {
      for i := 0 to |steps|
        invariant FindStep(steps, tenant, id) == FindStep(steps[i..], tenant, id)
      {
        if IsStep(steps[i], tenant, id) { return Some(steps[i]); }
        assert steps[i..][1..] == steps[i + 1..];
      }
      return None;
    }

    method CommitReceipt(s: Scope, id: OperationId, receipt: Json, aborted: bool) returns (answer: Option<Json>)
      modifies this
      ensures State() == if aborted then old(State()) else Committed(order, old(State()), s, id, receipt)
      ensures answer == if aborted then None else CommitAnswer(collation, old(State()), s, id, receipt)
    {
      var before := State();
      var existing := Find(s.tenant, id);
      EncodesTheNormalForm(collation, receipt);
      if existing.Some? {
        if aborted { return None; }
        var prior, hash := Canonical(collation, existing.value.receipt), Canonical(collation, receipt);
        return if hash.Some? && prior == hash then Some(existing.value.receipt) else None;
      }
      if id !in operations { return None; }
      answer := Complete(s, id, receipt);
      if answer.None? || aborted { Rollback(before); return None; }
    }

    /** The writes of the first commit, in order; hashing the receipt can throw half way. */
    method Complete(s: Scope, id: OperationId, receipt: Json) returns (answer: Option<Json>)
      modifies this
      requires FindStep(steps, s.tenant, id).None? && id in operations
      ensures answer == if Encodable(receipt) then Some(receipt) else None
      ensures answer.Some? ==> State() == Committed(order, old(State()), s, id, receipt)
    {
      var stored := Mutations.Stored(order, receipt);
      steps := steps + [ReceiptStep(s.tenant, id, stored)];
      if operations[id].tenant == s.tenant { operations := operations[id := Operation(s.tenant, Succeeded)]; }
      EncodesTheNormalForm(collation, receipt);
      if Canonical(collation, receipt).None? { return None; }
      if s in entries { entries := entries[s := entries[s].(body := Receipt(stored))]; }
      audits := audits + [AuditRow(s, id, Succeeded)];
      if !Published(outbox, s.tenant, s.key) { outbox := outbox + [Completion(s.tenant, s.key, stored)]; }
      return Some(receipt);
    }

    method RecordFailure(s: Scope, id: OperationId, classification: string, retryable: bool, aborted: bool)
      modifies this
      ensures State() == if aborted then old(State())
          else FailureRecorded(old(State()), s, id, classification, retryable)
    {
      var before := State();
      var status := if retryable then RetryableFailure else PermanentFailure;
      if id in operations && operations[id].tenant == s.tenant {
        operations := operations[id := Operation(s.tenant, status)];
      }
      if !retryable && s in entries { entries := entries[s := entries[s].(body := Failure(classification))]; }
      audits := audits + [AuditRow(s, id, status)];
      if aborted { Rollback(before); }
    }
  }
}
