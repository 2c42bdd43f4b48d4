/** What the partner journal keeps over any run of committed transactions, with crashes between them. */
module PartnerHistory {
  import opened Options
  import opened Texts
  import opened JsonText
  import opened CanonicalJson
  import opened CanonicalOrder
  import opened PartnerJournal
  import Mutations
  import MutationHistory

  /** A committed transaction. An aborted one changes nothing and is left out of the run. */
  datatype Event =
    | Begin(s: Scope, hash: Text, id: OperationId)
    | Commit(s: Scope, id: OperationId, receipt: Json)
    | Fail(s: Scope, id: OperationId, classification: string, retryable: bool)
    | Other(s: Scope, hash: Text)    // a record of another writer

  function Next(order: Collation, j: Journal, e: Event): Journal {
    match e
    case Begin(s, hash, id) => Begun(j, s, hash, id)
    case Commit(s, id, receipt) => Committed(order, j, s, id, receipt)
    case Fail(s, id, classification, retryable) => FailureRecorded(j, s, id, classification, retryable)
    case Other(s, hash) => if s in j.entries then j else j.(entries := j.entries[s := Entry(hash, None, Nothing)])
  }

  function After(order: Collation, j: Journal, es: seq<Event>): Journal {
    if es == [] then j else Next(order, After(order, j, es[..|es| - 1]), es[|es| - 1])
  }

  predicate Owns(j: Journal, s: Scope, id: OperationId) {
    s in j.entries && j.entries[s].resource == Some(id)
  }

  /** New ids are fresh, and receipts and failures are recorded under the operation that `begin` answered. */
  predicate Admitted(j: Journal, e: Event) {
    match e
    case Begin(_, _, id) => id !in j.operations
    case Commit(s, id, _) => Owns(j, s, id)
    case Fail(s, id, _, _) => Owns(j, s, id)
    case Other(_, _) => true
  }

  predicate AllAdmitted(order: Collation, j: Journal, es: seq<Event>) {
    es == [] ||
    (AllAdmitted(order, j, es[..|es| - 1]) && Admitted(After(order, j, es[..|es| - 1]), es[|es| - 1]))
  }

  // The invariant.

  predicate EntriesOwnOperations(j: Journal) {
    && (forall s <- j.entries :: j.entries[s].resource.Some? ==>
          j.entries[s].resource.value in j.operations && j.operations[j.entries[s].resource.value].tenant == s.tenant)
    && (forall s, r | s in j.entries && r in j.entries && s != r ::
          j.entries[s].resource == j.entries[r].resource ==> j.entries[s].resource.None?)
  }

  predicate OneStepEach(j: Journal) {
    && (forall i | 0 <= i < |j.steps| ::
          j.steps[i].operation in j.operations && j.operations[j.steps[i].operation].tenant == j.steps[i].tenant)
    && (forall i, k | 0 <= i < k < |j.steps| :: j.steps[i].operation != j.steps[k].operation)
  }

  /** A replayed body is the receipt of the step, and a resumable one has no step. */
  predicate BodiesMatchSteps(j: Journal) {
    forall s <- j.entries ::
      match j.entries[s].body
      case Receipt(receipt) =>
        && j.entries[s].resource.Some?
        && var step := FindStep(j.steps, s.tenant, j.entries[s].resource.value);
           step.Some? && step.value.receipt == receipt
      case Failure(_) => j.entries[s].resource.Some?
      case Nothing => j.entries[s].resource.Some? ==> FindStep(j.steps, s.tenant, j.entries[s].resource.value).None?
  }

  function CompletionAudits(audits: seq<AuditRow>, id: OperationId): nat {
    if audits == [] then 0
    else
      CompletionAudits(audits[..|audits| - 1], id) +
      if audits[|audits| - 1].operation == id && audits[|audits| - 1].result.Succeeded? then 1 else 0
  }

  /** One completion audit for each operation with a step, none for the others. */
  ghost predicate AuditedOnce(j: Journal) {
    forall id ::
      CompletionAudits(j.audits, id) ==
      if id in j.operations && FindStep(j.steps, j.operations[id].tenant, id).Some? then 1 else 0
  }

  ghost predicate Completed(audits: seq<AuditRow>, tenant: Text, key: Text) {
    exists a <- audits :: a.result.Succeeded? && a.scope.tenant == tenant && a.scope.key == key
  }

  /** Completions are published once per tenant and key, not once per scope. */
  ghost predicate PublishedOnce(j: Journal) {
    && (forall i, k | 0 <= i < k < |j.outbox| ::
        !(j.outbox[i].tenant == j.outbox[k].tenant && j.outbox[i].key == j.outbox[k].key))
    && (forall tenant, key :: Published(j.outbox, tenant, key) <==> Completed(j.audits, tenant, key))
  }

  ghost predicate Consistent(j: Journal) {
    EntriesOwnOperations(j) && OneStepEach(j) && BodiesMatchSteps(j) && AuditedOnce(j) && PublishedOnce(j)
  }

  lemma {:induction false} FindStepAppend(steps: seq<ReceiptStep>, step: ReceiptStep, tenant: Text, id: OperationId)
    ensures FindStep(steps + [step], tenant, id) ==
              if FindStep(steps, tenant, id).Some? then FindStep(steps, tenant, id)
              else if IsStep(step, tenant, id) then Some(step) else None
  {
    if steps == [] {
      assert steps + [step] == [step];
    } else {
      assert (steps + [step])[1..] == steps[1..] + [step];
      FindStepAppend(steps[1..], step, tenant, id);
    }
  }

  lemma {:induction false} FindStepIff(steps: seq<ReceiptStep>, tenant: Text, id: OperationId)
    ensures FindStep(steps, tenant, id).Some? <==> exists i :: 0 <= i < |steps| && IsStep(steps[i], tenant, id)
  {
    if steps != [] {
      FindStepIff(steps[1..], tenant, id);
      if i :| 0 <= i < |steps| && IsStep(steps[i], tenant, id) {
        assert i > 0 ==> IsStep(steps[1..][i - 1], tenant, id);
      }
      if i :| 0 <= i < |steps[1..]| && IsStep(steps[1..][i], tenant, id) {
        assert IsStep(steps[i + 1], tenant, id);
      }
    }
  }

  lemma CompletionAuditsAppend(audits: seq<AuditRow>, a: AuditRow, id: OperationId)
    ensures CompletionAudits(audits + [a], id) ==
              CompletionAudits(audits, id) + if a.operation == id && a.result.Succeeded? then 1 else 0
  {
    assert (audits + [a])[..|audits|] == audits;
  }

  lemma CompletedAppend(audits: seq<AuditRow>, a: AuditRow)
    ensures forall tenant, key :: Completed(audits + [a], tenant, key) <==>
              Completed(audits, tenant, key) || (a.result.Succeeded? && a.scope.tenant == tenant && a.scope.key == key)
  {
    forall tenant, key ensures Completed(audits + [a], tenant, key) <==>
              Completed(audits, tenant, key) || (a.result.Succeeded? && a.scope.tenant == tenant && a.scope.key == key)
    {
      assert a in audits + [a];
      assert forall b :: b in audits + [a] <==> b in audits || b == a;
    }
  }

  lemma BeginKeeps(j: Journal, s: Scope, hash: Text, id: OperationId)
    requires Consistent(j) && id !in j.operations
    ensures Consistent(Begun(j, s, hash, id))
  {
    if s !in j.entries {
      var v := Begun(j, s, hash, id);
      forall tenant ensures FindStep(v.steps, tenant, id).None? { FindStepIff(v.steps, tenant, id); }
      assert EntriesOwnOperations(v);
      assert BodiesMatchSteps(v);
    }
  }

  lemma CommitKeepsEntries(order: Collation, j: Journal, s: Scope, id: OperationId, receipt: Json)
    requires Consistent(j) && Owns(j, s, id) && Commits(j, s, id, receipt)
    ensures EntriesOwnOperations(Committed(order, j, s, id, receipt))
    ensures BodiesMatchSteps(Committed(order, j, s, id, receipt))
  {
    var v := Committed(order, j, s, id, receipt);
    var step := v.steps[|j.steps|];
    forall r | r in j.entries && j.entries[r].resource.Some?
      ensures FindStep(v.steps, r.tenant, j.entries[r].resource.value) ==
              if r == s then Some(step) else FindStep(j.steps, r.tenant, j.entries[r].resource.value)
    {
      FindStepAppend(j.steps, step, r.tenant, j.entries[r].resource.value);
    }
  }

  lemma CommitKeepsSteps(order: Collation, j: Journal, s: Scope, id: OperationId, receipt: Json)
    requires Consistent(j) && Owns(j, s, id) && Commits(j, s, id, receipt)
    ensures OneStepEach(Committed(order, j, s, id, receipt))
    ensures AuditedOnce(Committed(order, j, s, id, receipt))
  {
    var v := Committed(order, j, s, id, receipt);
    FindStepIff(j.steps, s.tenant, id);
    assert forall i | 0 <= i < |j.steps| :: IsStep(j.steps[i], s.tenant, j.steps[i].operation) ==>
        j.steps[i].operation != id;
    forall x ensures CompletionAudits(v.audits, x) ==
                     if x in v.operations && FindStep(v.steps, v.operations[x].tenant, x).Some? then 1 else 0
    {
      CompletionAuditsAppend(j.audits, AuditRow(s, id, Succeeded), x);
      if x in v.operations { FindStepAppend(j.steps, v.steps[|j.steps|], v.operations[x].tenant, x); }
    }
  }

  lemma CommitKeepsOutbox(order: Collation, j: Journal, s: Scope, id: OperationId, receipt: Json)
    requires PublishedOnce(j) && Commits(j, s, id, receipt)
    ensures PublishedOnce(Committed(order, j, s, id, receipt))
  {
    var v := Committed(order, j, s, id, receipt);
    CompletedAppend(j.audits, AuditRow(s, id, Succeeded));
    forall i | 0 <= i < |j.outbox| ensures j.outbox[i] in j.outbox {}
    forall tenant, key ensures Published(v.outbox, tenant, key) <==>
        Published(j.outbox, tenant, key) || (s.tenant == tenant && s.key == key)
    {
      assert v.outbox != j.outbox ==> v.outbox[|j.outbox|] in v.outbox && forall c <- j.outbox :: c in v.outbox;
    }
  }

  lemma FailKeeps(j: Journal, s: Scope, id: OperationId, classification: string, retryable: bool)
    requires Consistent(j) && Owns(j, s, id)
    ensures Consistent(FailureRecorded(j, s, id, classification, retryable))
  {
    var v := FailureRecorded(j, s, id, classification, retryable);
    FailKeepsAudits(j, s, id, classification, retryable);
    assert EntriesOwnOperations(v) && OneStepEach(v);
    assert BodiesMatchSteps(v);
  }

  lemma FailKeepsAudits(j: Journal, s: Scope, id: OperationId, classification: string, retryable: bool)
    requires Consistent(j) && Owns(j, s, id)
    ensures AuditedOnce(FailureRecorded(j, s, id, classification, retryable))
    ensures PublishedOnce(FailureRecorded(j, s, id, classification, retryable))
  {
    var v := FailureRecorded(j, s, id, classification, retryable);
    CompletedAppend(j.audits, v.audits[|j.audits|]);
    forall x ensures CompletionAudits(v.audits, x) == CompletionAudits(j.audits, x) {
      CompletionAuditsAppend(j.audits, v.audits[|j.audits|], x);
    }
  }

  lemma NextKeepsConsistent(order: Collation, j: Journal, e: Event)
    requires Consistent(j) && Admitted(j, e)
    ensures Consistent(Next(order, j, e))
  {
    match e
    case Begin(s, hash, id) => BeginKeeps(j, s, hash, id);
    case Commit(s, id, receipt) =>
      if Commits(j, s, id, receipt) {
        CommitKeepsEntries(order, j, s, id, receipt);
        CommitKeepsSteps(order, j, s, id, receipt);
        CommitKeepsOutbox(order, j, s, id, receipt);
      }
    case Fail(s, id, classification, retryable) => FailKeeps(j, s, id, classification, retryable);
    case Other(_, _) =>
  }

  /** In every state of every admitted run: at most one receipt step for an operation, exactly one completion
      audit beside it, bodies that agree with the steps, one event for each completed tenant and key. */
  lemma {:induction false} RunsStayConsistent(order: Collation, j: Journal, es: seq<Event>)
    requires Consistent(j) && AllAdmitted(order, j, es)
    ensures Consistent(After(order, j, es))
  {
    if es != [] {
      RunsStayConsistent(order, j, es[..|es| - 1]);
      NextKeepsConsistent(order, After(order, j, es[..|es| - 1]), es[|es| - 1]);
    }
  }

  lemma EmptyIsConsistent()
    ensures Consistent(EMPTY)
  {
  }

  /** So it holds in every state that the journal can reach from empty tables. */
  lemma RunsFromEmptyAreConsistent(order: Collation, es: seq<Event>)
    requires AllAdmitted(order, EMPTY, es)
    ensures Consistent(After(order, EMPTY, es))
  {
    EmptyIsConsistent();
    RunsStayConsistent(order, EMPTY, es);
  }

  // One operation per scope.

  lemma {:induction false} OwnershipStays(order: Collation, j: Journal, s: Scope, id: OperationId, es: seq<Event>)
    requires Owns(j, s, id)
    ensures Owns(After(order, j, es), s, id)
  {
    if es != [] { OwnershipStays(order, j, s, id, es[..|es| - 1]); }
  }

  /** After `begin` has answered NEW or RESUME with an operation, whatever happens next no `begin` of the scope
      answers NEW again and every RESUME names the same operation. */
  lemma {:induction false} EveryResumeIsTheSame(order: Collation, j: Journal, s: Scope, hash: Text, id: OperationId,
                                               es: seq<Event>,
                             laterHash: Text, laterId: OperationId)
    requires BeginAnswer(j, s, hash, id).New? || BeginAnswer(j, s, hash, id).Resume?
    ensures var later := BeginAnswer(After(order, Begun(j, s, hash, id), es), s, laterHash, laterId);
            !later.New? && (later.Resume? ==> later == Resume(BeginAnswer(j, s, hash, id).id))
  {
    OwnershipStays(order, Begun(j, s, hash, id), s, BeginAnswer(j, s, hash, id).id, es);
  }

  // One receipt per operation.

  lemma {:induction false} StepStays(order: Collation, j: Journal, tenant: Text, id: OperationId, es: seq<Event>)
    requires FindStep(j.steps, tenant, id).Some?
    ensures FindStep(After(order, j, es).steps, tenant, id) == FindStep(j.steps, tenant, id)
  {
    if es != [] {
      StepStays(order, j, tenant, id, es[..|es| - 1]);
      var u, v := After(order, j, es[..|es| - 1]), After(order, j, es);
      if v.steps != u.steps { FindStepAppend(u.steps, v.steps[|u.steps|], tenant, id); }
    }
  }

  /** After the first commit every other commit for the operation changes nothing; it is answered with the first
      receipt, or refused. Only a receipt equal to the first is answered, and each one is where the collation
      tells its member names apart. */
  lemma FirstReceiptWins(collation: Collation, order: Collation, j: Journal, s: Scope, id: OperationId, receipt: Json,
                         es: seq<Event>, again: Json)
    requires Commits(j, s, id, receipt)
    ensures CommitAnswer(collation, j, s, id, receipt) == Some(receipt)
        && Same(receipt, Mutations.Stored(order, receipt))
    ensures var u, stored := After(order, Committed(order, j, s, id, receipt), es), Mutations.Stored(order, receipt);
            var answer := CommitAnswer(collation, u, s, id, again);
            && Committed(order, u, s, id, again) == u
            && (answer.None? || (answer == Some(stored) && Same(stored, again)))
            && (Encodable(again) && TieFree(collation, stored) && TieFree(collation, again) ==>
                  (answer.Some? <==> Same(stored, again)))
  {
    var v, stored := Committed(order, j, s, id, receipt), Mutations.Stored(order, receipt);
    FindStepAppend(j.steps, v.steps[|j.steps|], s.tenant, id);
    StepStays(order, v, s.tenant, id, es);
    MutationHistory.StoredIsSame(order, receipt);
    NormalIsEncodable(order, receipt);
    if Encodable(again) {
      if Canonical(collation, stored) == Canonical(collation, again) {
        CanonicalTextIsInjective(collation, stored, again);
      }
      if TieFree(collation, stored) && TieFree(collation, again) { CanonicalTextIffSame(collation, stored, again); }
    }
  }

  lemma {:induction false} NormalIsEncodable(order: Collation, v: Json)
    requires Encodable(v)
    ensures Encodable(Normal(order, v))
  {
    NormalIsClean(order, v);
    CleanIsEncodable(Normal(order, v));
  }

  lemma CleanIsEncodable(v: Json)
    requires Clean(v)
    ensures Encodable(v)
  {
  }

  // What begin answers after the first commit.

  /** The last non-retryable failure recorded for a scope. */
  function LastPermanent(es: seq<Event>, s: Scope): Option<string> {
    if es == [] then None
    else
      var e := es[|es| - 1];
      if e.Fail? && e.s == s && !e.retryable then Some(e.classification) else LastPermanent(es[..|es| - 1], s)
  }

  function BodyAfter(es: seq<Event>, s: Scope, stored: Json): Body {
    match LastPermanent(es, s)
    case Some(classification) => Failure(classification)
    case None => Receipt(stored)
  }

  lemma EntryAfterEvent(order: Collation, j: Journal, s: Scope, id: OperationId, e: Event)
    requires Consistent(j) && Owns(j, s, id) && FindStep(j.steps, s.tenant, id).Some? && Admitted(j, e)
    ensures var v := Next(order, j, e);
            s in v.entries && v.entries[s] ==
              if e.Fail? && e.s == s && !e.retryable then j.entries[s].(body := Failure(e.classification))
              else j.entries[s]
  {
  }

  lemma {:induction false} EntryAfterCommit(order: Collation, j: Journal, s: Scope, id: OperationId, stored: Json,
      es: seq<Event>)
    requires Consistent(j) && Owns(j, s, id) && AllAdmitted(order, j, es)
    requires j.entries[s].body == Receipt(stored)
    ensures Owns(After(order, j, es), s, id)
    ensures After(order, j, es).entries[s] == j.entries[s].(body := BodyAfter(es, s, stored))
  {
    if es != [] {
      var init := es[..|es| - 1];
      EntryAfterCommit(order, j, s, id, stored, init);
      RunsStayConsistent(order, j, init);
      StepStays(order, j, s.tenant, id, init);
      EntryAfterEvent(order, After(order, j, init), s, id, es[|es| - 1]);
    }
  }

  /** The status of a scope's operation: that of its last failure since the first commit. */
  function StatusAfter(es: seq<Event>, s: Scope): Status {
    if es == [] then Succeeded
    else
      var e := es[|es| - 1];
      if e.Fail? && e.s == s then (if e.retryable then RetryableFailure else PermanentFailure)
      else StatusAfter(es[..|es| - 1], s)
  }

  lemma StatusAfterEvent(order: Collation, j: Journal, s: Scope, id: OperationId, e: Event)
    requires Consistent(j) && Owns(j, s, id) && FindStep(j.steps, s.tenant, id).Some? && Admitted(j, e)
    ensures var v := Next(order, j, e);
            id in v.operations && v.operations[id] ==
              if e.Fail? && e.s == s then Operation(s.tenant, FailureStatus(e.retryable)) else j.operations[id]
  {
  }

  /** After the first commit the status of the operation is SUCCEEDED until a failure is recorded, and then that of
      the last failure, later commits included. */
  lemma {:induction false} StatusFollowsFailures(order: Collation, j: Journal, s: Scope, id: OperationId,
      es: seq<Event>)
    requires Consistent(j) && Owns(j, s, id) && FindStep(j.steps, s.tenant, id).Some?
    requires AllAdmitted(order, j, es) && j.operations[id].status.Succeeded?
    ensures id in After(order, j, es).operations
    ensures After(order, j, es).operations[id] == Operation(s.tenant, StatusAfter(es, s))
  {
    if es != [] {
      var init := es[..|es| - 1];
      StatusFollowsFailures(order, j, s, id, init);
      RunsStayConsistent(order, j, init);
      OwnershipStays(order, j, s, id, init);
      StepStays(order, j, s.tenant, id, init);
      StatusAfterEvent(order, After(order, j, init), s, id, es[|es| - 1]);
    }
  }

  /** Status and replay part ways: after a commit and a retryable failure the operation says RETRYABLE_FAILURE while
      `begin` goes on replaying the receipt. */
  lemma StatusAfterCommit(order: Collation, j: Journal, s: Scope, id: OperationId, receipt: Json, es: seq<Event>)
    requires Consistent(j) && Owns(j, s, id) && Commits(j, s, id, receipt)
    requires AllAdmitted(order, Committed(order, j, s, id, receipt), es)
    ensures var u := After(order, Committed(order, j, s, id, receipt), es);
            && id in u.operations && u.operations[id].status == StatusAfter(es, s)
            && s in u.entries
            && (LastPermanent(es, s).None? <==> u.entries[s].body == Receipt(Mutations.Stored(order, receipt)))
  {
    var v := Committed(order, j, s, id, receipt);
    NextKeepsConsistent(order, j, Commit(s, id, receipt));
    FindStepAppend(j.steps, v.steps[|j.steps|], s.tenant, id);
    StatusFollowsFailures(order, v, s, id, es);
    EntryAfterCommit(order, v, s, id, Mutations.Stored(order, receipt), es);
  }

  /** From the first commit on, `begin` with the same request replays the receipt exactly as long as no
      non-retryable failure is recorded; after one it answers that failure, for good, even if the same receipt
      is committed again. */
  lemma BeginReplaysUntilFailure(order: Collation, j: Journal, s: Scope, id: OperationId, receipt: Json, es: seq<Event>,
                                 hash: Text, nextId: OperationId)
    requires Consistent(j) && Owns(j, s, id) && Commits(j, s, id, receipt)
    requires AllAdmitted(order, Committed(order, j, s, id, receipt), es)
    ensures var v := Committed(order, j, s, id, receipt);
            BeginAnswer(After(order, v, es), s, hash, nextId) ==
              if hash != j.entries[s].payloadHash then Conflict
              else match LastPermanent(es, s)
                   case None => Replay(Mutations.Stored(order, receipt))
                   case Some(classification) => Refused(classification)
  {
    var v := Committed(order, j, s, id, receipt);
    NextKeepsConsistent(order, j, Commit(s, id, receipt));
    EntryAfterCommit(order, v, s, id, Mutations.Stored(order, receipt), es);
  }

  // What begin answers at any time, told by the history alone.

  /** The first receipt committed for a scope: a commit whose receipt can be encoded. */
  function FirstReceipt(es: seq<Event>, s: Scope): Option<Json> {
    if es == [] then None
    else
      var before, e := FirstReceipt(es[..|es| - 1], s), es[|es| - 1];
      if before.Some? then before
      else if e.Commit? && e.s == s && Encodable(e.receipt) then Some(e.receipt) else None
  }

  /** The last word on a scope: its first receipt, or a non-retryable failure recorded later, or nothing yet. */
  function LastWord(order: Collation, es: seq<Event>, s: Scope): Body {
    if es == [] then Nothing
    else
      var init, e := es[..|es| - 1], es[|es| - 1];
      if e.Fail? && e.s == s && !e.retryable then Failure(e.classification)
      else if e.Commit? && e.s == s && Encodable(e.receipt) && FirstReceipt(init, s).None?
        then Receipt(Mutations.Stored(order, e.receipt))
      else LastWord(order, init, s)
  }

  /** The status of an operation: that of the last report since it was opened, the first receipt or a failure. */
  function LastStatus(es: seq<Event>, s: Scope): Status {
    if es == [] then Pending
    else
      var init, e := es[..|es| - 1], es[|es| - 1];
      if e.Fail? && e.s == s then (if e.retryable then RetryableFailure else PermanentFailure)
      else if e.Commit? && e.s == s && Encodable(e.receipt) && FirstReceipt(init, s).None? then Succeeded
      else LastStatus(init, s)
  }

  /** What the tables hold of a scope that has been opened with a hash and an operation. */
  predicate Told(order: Collation, j: Journal, s: Scope, hash: Text, id: OperationId, es: seq<Event>) {
    && s in j.entries && j.entries[s] == Entry(hash, Some(id), LastWord(order, es, s))
    && id in j.operations && j.operations[id] == Operation(s.tenant, LastStatus(es, s))
    && FindStep(j.steps, s.tenant, id) ==
         (match FirstReceipt(es, s)
          case None => None
          case Some(receipt) => Some(ReceiptStep(s.tenant, id, Mutations.Stored(order, receipt))))
  }

  lemma ToldOnOpening(order: Collation, j: Journal, s: Scope, hash: Text, id: OperationId)
    requires Consistent(j) && s !in j.entries && id !in j.operations
    ensures Told(order, Begun(j, s, hash, id), s, hash, id, [])
  {
    FindStepIff(j.steps, s.tenant, id);
  }

  lemma ToldByCommit(order: Collation, j: Journal, s: Scope, hash: Text, id: OperationId, es: seq<Event>, e: Event)
    requires Consistent(j) && Told(order, j, s, hash, id, es) && e.Commit? && Admitted(j, e)
    ensures Told(order, Next(order, j, e), s, hash, id, es + [e])
  {
    assert (es + [e])[..|es|] == es;
    var v := Next(order, j, e);
    if v.steps != j.steps { FindStepAppend(j.steps, v.steps[|j.steps|], s.tenant, id); }
  }

  lemma ToldByOther(order: Collation, j: Journal, s: Scope, hash: Text, id: OperationId, es: seq<Event>, e: Event)
    requires Consistent(j) && Told(order, j, s, hash, id, es) && !e.Commit? && Admitted(j, e)
    ensures Told(order, Next(order, j, e), s, hash, id, es + [e])
  {
    assert (es + [e])[..|es|] == es;
  }

  lemma {:induction false} HistoryTells(order: Collation, j: Journal, s: Scope, hash: Text, id: OperationId,
      es: seq<Event>)
    requires Consistent(j) && s !in j.entries && id !in j.operations
    requires AllAdmitted(order, Begun(j, s, hash, id), es)
    ensures Told(order, After(order, Begun(j, s, hash, id), es), s, hash, id, es)
  {
    var begun := Begun(j, s, hash, id);
    BeginKeeps(j, s, hash, id);
    if es == [] {
      ToldOnOpening(order, j, s, hash, id);
    } else {
      var init, e := es[..|es| - 1], es[|es| - 1];
      HistoryTells(order, j, s, hash, id, init);
      RunsStayConsistent(order, begun, init);
      assert es == init + [e];
      if e.Commit? {
        ToldByCommit(order, After(order, begun, init), s, hash, id, init, e);
      } else {
        ToldByOther(order, After(order, begun, init), s, hash, id, init, e);
      }
    }
  }

  /** After a NEW answer, whatever is recorded next: a later `begin` conflicts exactly if its hash differs; otherwise it
      resumes the same operation, replays the first receipt, or answers the last non-retryable failure, as the history
      says. */
  lemma BeginFollowsHistory(order: Collation, j: Journal, s: Scope, hash: Text, id: OperationId, es: seq<Event>,
                            laterHash: Text, laterId: OperationId)
    requires Consistent(j) && id !in j.operations && BeginAnswer(j, s, hash, id).New?
    requires AllAdmitted(order, Begun(j, s, hash, id), es)
    ensures BeginAnswer(j, s, hash, id) == New(id)
    ensures var answer := BeginAnswer(After(order, Begun(j, s, hash, id), es), s, laterHash, laterId);
            && (answer == Conflict <==> laterHash != hash)
            && (laterHash == hash ==>
                  match LastWord(order, es, s)
                  case Nothing => answer == Resume(id)
                  case Receipt(receipt) => answer == Replay(receipt)
                  case Failure(classification) => answer == Refused(classification))
    ensures var answer := BeginAnswer(After(order, Begun(j, s, hash, id), es), s, laterHash, laterId);
            laterHash == hash ==>
              && (answer == Resume(id) <==>
                    && (forall e <- es :: !(e.Commit? && e.s == s && Encodable(e.receipt)))
                    && (forall e <- es :: !(e.Fail? && e.s == s && !e.retryable)))
              && (answer.Replay? ==>
                    FirstReceipt(es, s).Some? && answer.receipt == Mutations.Stored(order, FirstReceipt(es, s).value))
              && (answer.Refused? ==> LastPermanent(es, s) == Some(answer.classification))
  {
    HistoryTells(order, j, s, hash, id, es);
    NothingSaidIff(order, es, s);
    WordIsFirstReceipt(order, es, s);
  }

  /** The last word is nothing exactly while no receipt has been committed and no non-retryable failure recorded. */
  lemma {:induction false} NothingSaidIff(order: Collation, es: seq<Event>, s: Scope)
    ensures LastWord(order, es, s) == Nothing <==>
              && (forall e <- es :: !(e.Commit? && e.s == s && Encodable(e.receipt)))
              && (forall e <- es :: !(e.Fail? && e.s == s && !e.retryable))
    ensures FirstReceipt(es, s).None? <==> forall e <- es :: !(e.Commit? && e.s == s && Encodable(e.receipt))
  {
    if es != [] {
      NothingSaidIff(order, es[..|es| - 1], s);
      assert es == es[..|es| - 1] + [es[|es| - 1]];
    }
  }

  /** A receipt that is the last word is the first one. */
  lemma {:induction false} WordIsFirstReceipt(order: Collation, es: seq<Event>, s: Scope)
    ensures LastWord(order, es, s).Receipt? ==>
              FirstReceipt(es, s).Some?
              && LastWord(order, es, s) == Receipt(Mutations.Stored(order, FirstReceipt(es, s).value))
    ensures LastWord(order, es, s).Failure? ==> LastPermanent(es, s) == Some(LastWord(order, es, s).classification)
  {
    if es != [] { WordIsFirstReceipt(order, es[..|es| - 1], s); }
  }

  /** The operation's own status follows the history as well. */
  lemma StatusFollowsHistory(order: Collation, j: Journal, s: Scope, hash: Text, id: OperationId, es: seq<Event>)
    requires Consistent(j) && s !in j.entries && id !in j.operations
    requires AllAdmitted(order, Begun(j, s, hash, id), es)
    ensures var v := After(order, Begun(j, s, hash, id), es);
            id in v.operations && v.operations[id].status == LastStatus(es, s)
  {
    HistoryTells(order, j, s, hash, id, es);
  }

  /** The record of another writer conflicts with every `begin`, for ever. */
  lemma {:induction false} OthersConflict(order: Collation, j: Journal, s: Scope, es: seq<Event>, hash: Text,
      id: OperationId)
    requires s in j.entries && j.entries[s].resource.None? && AllAdmitted(order, j, es)
    ensures s in After(order, j, es).entries && After(order, j, es).entries[s] == j.entries[s]
    ensures BeginAnswer(After(order, j, es), s, hash, id) == Conflict
  {
    if es != [] { OthersConflict(order, j, s, es[..|es| - 1], hash, id); }
  }

  // Every report is audited.

  /** The audit rows a run asks for. */
  function Trail(es: seq<Event>): seq<AuditRow> {
    if es == [] then []
    else
      var init, e := es[..|es| - 1], es[|es| - 1];
      Trail(init) +
      if e.Fail? then [AuditRow(e.s, e.id, if e.retryable then RetryableFailure else PermanentFailure)]
      else if e.Commit? && Encodable(e.receipt) && FirstReceipt(init, e.s).None? then [AuditRow(e.s, e.id, Succeeded)]
      else []
  }

  /** A scope has a receipt step for its operation exactly if its history has a receipt. */
  predicate StepFollows(j: Journal, es: seq<Event>, s: Scope) {
    if s in j.entries && j.entries[s].resource.Some? then
      FindStep(j.steps, s.tenant, j.entries[s].resource.value).Some? <==> FirstReceipt(es, s).Some?
    else FirstReceipt(es, s).None?
  }

  lemma StepFollowsCommit(order: Collation, j: Journal, es: seq<Event>, e: Event, s: Scope)
    requires Consistent(j) && e.Commit? && Admitted(j, e) && StepFollows(j, es, s)
    ensures StepFollows(Next(order, j, e), es + [e], s)
  {
    assert (es + [e])[..|es|] == es;
    var v := Next(order, j, e);
    if v.steps != j.steps && s in j.entries && j.entries[s].resource.Some? {
      FindStepAppend(j.steps, v.steps[|j.steps|], s.tenant, j.entries[s].resource.value);
    }
  }

  lemma StepFollowsOther(order: Collation, j: Journal, es: seq<Event>, e: Event, s: Scope)
    requires Consistent(j) && !e.Commit? && Admitted(j, e) && StepFollows(j, es, s)
    ensures StepFollows(Next(order, j, e), es + [e], s)
  {
    assert (es + [e])[..|es|] == es;
    if e.Begin? { FindStepIff(j.steps, s.tenant, e.id); }
  }

  lemma {:induction false} StepsFollow(order: Collation, es: seq<Event>, s: Scope)
    requires AllAdmitted(order, EMPTY, es)
    ensures StepFollows(After(order, EMPTY, es), es, s)
  {
    if es != [] {
      var init, e := es[..|es| - 1], es[|es| - 1];
      StepsFollow(order, init, s);
      RunsFromEmptyAreConsistent(order, init);
      assert es == init + [e];
      if e.Commit? {
        StepFollowsCommit(order, After(order, EMPTY, init), init, e, s);
      } else {
        StepFollowsOther(order, After(order, EMPTY, init), init, e, s);
      }
    }
  }

  /** Every first receipt and every failure is audited once, in order, with its own result, and nothing else is. */
  lemma {:induction false} TrailIsWritten(order: Collation, es: seq<Event>)
    requires AllAdmitted(order, EMPTY, es)
    ensures After(order, EMPTY, es).audits == Trail(es)
  {
    if es != [] {
      var init, e := es[..|es| - 1], es[|es| - 1];
      TrailIsWritten(order, init);
      RunsFromEmptyAreConsistent(order, init);
      if e.Commit? { StepsFollow(order, init, e.s); }
    }
  }

  /** The receipt that the event of a tenant and key announces: the first one of any of its scopes. */
  function Announced(es: seq<Event>, tenant: Text, key: Text): Option<Json> {
    if es == [] then None
    else
      var init, e := es[..|es| - 1], es[|es| - 1];
      if Announced(init, tenant, key).Some? then Announced(init, tenant, key)
      else if IsFirst(init, e) && e.s.tenant == tenant && e.s.key == key then Some(e.receipt)
      else None
  }

  /** The receipt of the event is the first one of its tenant and key, and each such receipt has its event. */
  ghost predicate Announces(order: Collation, outbox: seq<Completion>, es: seq<Event>) {
    && (forall c <- outbox ::
          Announced(es, c.tenant, c.key).Some?
          && c.receipt == Mutations.Stored(order, Announced(es, c.tenant, c.key).value))
    && (forall tenant, key :: Announced(es, tenant, key).Some? ==> Published(outbox, tenant, key))
  }

  /** A commit of the first receipt of its scope. */
  predicate IsFirst(es: seq<Event>, e: Event) {
    e.Commit? && Encodable(e.receipt) && FirstReceipt(es, e.s).None?
  }

  lemma AnnouncedNext(es: seq<Event>, e: Event, tenant: Text, key: Text)
    ensures Announced(es + [e], tenant, key) ==
              if Announced(es, tenant, key).Some? then Announced(es, tenant, key)
              else if IsFirst(es, e) && e.s.tenant == tenant && e.s.key == key then Some(e.receipt)
              else None
  {
    assert (es + [e])[..|es|] == es;
  }

  lemma FirstAnnounces(order: Collation, outbox: seq<Completion>, es: seq<Event>, e: Event)
    requires Announces(order, outbox, es) && IsFirst(es, e)
    ensures var event := Completion(e.s.tenant, e.s.key, Mutations.Stored(order, e.receipt));
            Announces(order, if Published(outbox, e.s.tenant, e.s.key) then outbox else outbox + [event], es + [e])
  {
    forall tenant, key ensures Announced(es + [e], tenant, key) ==
        if Announced(es, tenant, key).Some? then Announced(es, tenant, key)
        else if e.s.tenant == tenant && e.s.key == key then Some(e.receipt) else None
    {
      AnnouncedNext(es, e, tenant, key);
    }
    if !Published(outbox, e.s.tenant, e.s.key) {
      var event := Completion(e.s.tenant, e.s.key, Mutations.Stored(order, e.receipt));
      assert forall c :: c in outbox + [event] <==> c in outbox || c == event;
    }
  }

  lemma OthersAnnounceNothing(order: Collation, outbox: seq<Completion>, es: seq<Event>, e: Event)
    requires Announces(order, outbox, es) && !IsFirst(es, e)
    ensures Announces(order, outbox, es + [e])
  {
    forall tenant, key ensures Announced(es + [e], tenant, key) == Announced(es, tenant, key) {
      AnnouncedNext(es, e, tenant, key);
    }
  }

  lemma OutboxAfter(order: Collation, j: Journal, es: seq<Event>, e: Event)
    requires Consistent(j) && Admitted(j, e) && (e.Commit? ==> StepFollows(j, es, e.s))
    ensures !IsFirst(es, e) || Published(j.outbox, e.s.tenant, e.s.key) ==> Next(order, j, e).outbox == j.outbox
    ensures IsFirst(es, e) && !Published(j.outbox, e.s.tenant, e.s.key) ==>
              Next(order, j, e).outbox ==
              j.outbox + [Completion(e.s.tenant, e.s.key, Mutations.Stored(order, e.receipt))]
  {
  }

  /** Whatever is recorded, the event of a tenant and key announces the first receipt of any of its scopes, and each
      such receipt is announced. */
  lemma {:induction false} FirstReceiptsAreAnnounced(order: Collation, es: seq<Event>)
    requires AllAdmitted(order, EMPTY, es)
    ensures Announces(order, After(order, EMPTY, es).outbox, es)
  {
    if es != [] {
      var init, e := es[..|es| - 1], es[|es| - 1];
      var j := After(order, EMPTY, init);
      FirstReceiptsAreAnnounced(order, init);
      RunsFromEmptyAreConsistent(order, init);
      assert es == init + [e];
      if e.Commit? { StepsFollow(order, init, e.s); }
      OutboxAfter(order, j, init, e);
      if IsFirst(init, e) {
        FirstAnnounces(order, j.outbox, init, e);
      } else {
        OthersAnnounceNothing(order, j.outbox, init, e);
      }
    }
  }
}
