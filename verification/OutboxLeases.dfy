/** Outbox leases: workers claim batches of events in transactions that skip each other's locked rows. */
module OutboxLeases {
  import opened Options
  import opened Sequences

  type EventId = nat
  type Time = int

  datatype Status = Pending | Processing | Published | DeadLetter

  datatype Row = Row(tenant: string, status: Status, createdAt: Time, nextAttemptAt: Time, leasedUntil: Option<Time>,
                     leaseOwner: Option<string>, attemptCount: nat)

  /** The parameters of a claim; `now` is the start of its transaction. */
  datatype Claim = Claim(tenant: string, worker: string, now: Time, batchSize: nat, lease: nat)

  predicate Eligible(row: Row, c: Claim) {
    && row.tenant == c.tenant
    && (row.status.Pending? || row.status.Processing?)
    && row.nextAttemptAt <= c.now
    && (row.leasedUntil.None? || row.leasedUntil.value < c.now)
  }

  /** The events a claim may take: eligible, and locked by no other transaction. */
  function Available(rows: map<EventId, Row>, locked: set<EventId>, c: Claim): set<EventId> {
    set id | id in rows && Eligible(rows[id], c) && id !in locked
  }

  /** As many of the available events as fit, the oldest ones; events of the same age in any order. */
  predicate IsBatch(rows: map<EventId, Row>, locked: set<EventId>, c: Claim, batch: seq<EventId>) {
    var available := Available(rows, locked, c);
    && Distinct(batch) && (forall id <- batch :: id in available)
    && |batch| == (if c.batchSize <= |available| then c.batchSize else |available|)
    && forall id, other | id in batch && other in available && other !in batch ::
         rows[id].createdAt <= rows[other].createdAt
  }

  function Lease(row: Row, c: Claim): Row {
    row.(status := Processing, leaseOwner := Some(c.worker), leasedUntil := Some(c.now + c.lease),
         attemptCount := row.attemptCount + 1)
  }

  function LeaseAll(rows: map<EventId, Row>, batch: seq<EventId>, c: Claim): map<EventId, Row> {
    map id | id in rows :: if id in batch then Lease(rows[id], c) else rows[id]
  }

  // The statement: scan, filter, sort, limit, update.

  predicate Ordered(rows: map<EventId, Row>, ids: seq<EventId>)
    requires forall id <- ids :: id in rows
  {
    forall i, j | 0 <= i < j < |ids| :: rows[ids[i]].createdAt <= rows[ids[j]].createdAt
  }

  lemma {:induction false} DistinctCardinality(ids: seq<EventId>, s: set<EventId>)
    requires Distinct(ids) && forall id :: id in ids <==> id in s
    ensures |ids| == |s|
  {
    if ids != [] {
      var last := ids[|ids| - 1];
      assert forall id :: id in ids <==> id == last || id in ids[..|ids| - 1];
      DistinctCardinality(ids[..|ids| - 1], s - {last});
    } else {
      assert s == {};
    }
  }

  function Splice(ids: seq<EventId>, k: nat, id: EventId): seq<EventId>
    requires k <= |ids|
  {
    ids[..k] + [id] + ids[k..]
  }

  lemma SpliceMembers(ids: seq<EventId>, k: nat, id: EventId)
    requires k <= |ids| && Distinct(ids) && id !in ids
    ensures forall x :: x in Splice(ids, k, id) <==> x == id || x in ids
    ensures Distinct(Splice(ids, k, id))
  {
    var longer := Splice(ids, k, id);
    assert forall x :: x in ids <==> x in ids[..k] || x in ids[k..];
    assert forall i | 0 <= i < |longer| :: longer[i] == if i < k then ids[i] else if i == k then id else ids[i - 1];
  }

  lemma SpliceOrdered(rows: map<EventId, Row>, ids: seq<EventId>, k: nat, id: EventId)
    requires k <= |ids| && (forall x <- ids :: x in rows) && id in rows && Ordered(rows, ids)
    requires k > 0 ==> rows[ids[k - 1]].createdAt <= rows[id].createdAt
    requires forall j | k <= j < |ids| :: rows[id].createdAt <= rows[ids[j]].createdAt
    ensures (forall x <- Splice(ids, k, id) :: x in rows) && Ordered(rows, Splice(ids, k, id))
  {
    var longer := Splice(ids, k, id);
    forall i | 0 <= i < |ids| ensures i < k ==> rows[ids[i]].createdAt <= rows[id].createdAt {
      assert i < k - 1 ==> rows[ids[i]].createdAt <= rows[ids[k - 1]].createdAt;
    }
    forall i, j | 0 <= i < j < |longer| ensures rows[longer[i]].createdAt <= rows[longer[j]].createdAt {
      var x, y := if i < k then i else i - 1, if j < k then j else j - 1;
      assert i != k ==> longer[i] == ids[x];
      assert j != k ==> longer[j] == ids[y];
    }
  }

  class Outbox {
    var rows: map<EventId, Row>

    /** `scan` is the order in which the table happens to be read. */
    method SelectCandidates(locked: set<EventId>, c: Claim, scan: seq<EventId>) returns (batch: seq<EventId>)
      requires Distinct(scan) && forall id :: id in scan <==> id in rows
      ensures IsBatch(rows, locked, c, batch)
    {
      var sorted: seq<EventId> := [];
      for n := 0 to |scan|
        invariant forall id :: id in sorted <==> id in scan[..n] && Eligible(rows[id], c) && id !in locked
        invariant Distinct(sorted) && Ordered(rows, sorted)
      {
        var id := scan[n];
        assert id !in scan[..n];
        if Eligible(rows[id], c) && id !in locked {
          sorted := InsertByAge(sorted, id);
        }
      }
      assert scan[..|scan|] == scan;
      DistinctCardinality(sorted, Available(rows, locked, c));
      batch := if c.batchSize <= |sorted| then sorted[..c.batchSize] else sorted;
      TheOldestComeFirst(rows, sorted, |batch|);
    }

    method InsertByAge(sorted: seq<EventId>, id: EventId) returns (longer: seq<EventId>)
      requires id in rows && id !in sorted && (forall x <- sorted :: x in rows)
      requires Distinct(sorted) && Ordered(rows, sorted)
      ensures forall x :: x in longer <==> x == id || x in sorted
      ensures Distinct(longer) && Ordered(rows, longer)
    {
      var k := |sorted|;
      while k > 0 && rows[id].createdAt < rows[sorted[k - 1]].createdAt
        invariant 0 <= k <= |sorted|
        invariant forall j | k <= j < |sorted| :: rows[id].createdAt < rows[sorted[j]].createdAt
      {
        k := k - 1;
      }
      longer := Splice(sorted, k, id);
      SpliceMembers(sorted, k, id);
      SpliceOrdered(rows, sorted, k, id);
    }

    /** `claimOutboxBatch` while the rows in `locked` are held by other transactions. */
    method ClaimOutboxBatch(locked: set<EventId>, c: Claim, scan: seq<EventId>) returns (batch: seq<EventId>)
      requires Distinct(scan) && forall id :: id in scan <==> id in rows
      modifies this
      ensures IsBatch(old(rows), locked, c, batch)
      ensures rows == LeaseAll(old(rows), batch, c)
    {
      batch := SelectCandidates(locked, c, scan);
      BatchIsInTable(rows, locked, c, batch);
      for i := 0 to |batch|
        invariant forall id <- batch :: id in old(rows)
        invariant rows == LeaseAll(old(rows), batch[..i], c)
      {
        var id := batch[i];
        assert id !in batch[..i];
        rows := rows[id := Lease(rows[id], c)];
      }
      assert batch[..|batch|] == batch;
    }
  }

  lemma BatchIsInTable(rows: map<EventId, Row>, locked: set<EventId>, c: Claim, batch: seq<EventId>)
    requires IsBatch(rows, locked, c, batch)
    ensures forall id <- batch :: id in rows
  {
    forall id | id in batch ensures id in rows { assert id in Available(rows, locked, c); }
  }

  lemma TheOldestComeFirst(rows: map<EventId, Row>, sorted: seq<EventId>, n: nat)
    requires n <= |sorted| && (forall id <- sorted :: id in rows) && Ordered(rows, sorted)
    ensures forall id, other | id in sorted[..n] && other in sorted && other !in sorted[..n] ::
              rows[id].createdAt <= rows[other].createdAt
  {
    forall id, other | id in sorted[..n] && other in sorted && other !in sorted[..n]
      ensures rows[id].createdAt <= rows[other].createdAt
    {
      var i :| 0 <= i < n && sorted[i] == id;
      assert sorted == sorted[..n] + sorted[n..];
      var j :| 0 <= j < |sorted[n..]| && sorted[n..][j] == other;
      assert sorted[n + j] == other;
    }
  }

  // Interleavings of transactions.

  type TransactionId = nat

  /** An open transaction: its claim, and the rows it has selected and locked. */
  datatype Transaction = Transaction(claim: Claim, batch: seq<EventId>)

  /** A committed lease. */
  datatype Lent = Lent(id: EventId, worker: string, from: Time, until: Time)

  datatype Queue = Queue(clock: Time, rows: map<EventId, Row>, open: map<TransactionId, Transaction>,
      history: seq<Lent>)

  datatype Event =
    | Tick(elapsed: nat)
    | Insert(id: EventId, tenant: string, createdAt: Time, nextAttemptAt: Time)
    | Amend(id: EventId, status: Status, nextAttemptAt: Time)    // publication, retry or dead-lettering by others
    | Open(t: TransactionId, tenant: string, worker: string, batchSize: nat, lease: nat)
    | Select(t: TransactionId, batch: seq<EventId>)
    | Commit(t: TransactionId)
    | Abort(t: TransactionId)

  /** The rows locked by transactions other than one. */
  function LockedByOthers(q: Queue, t: TransactionId): set<EventId> {
    set u, id | u in q.open && u != t && id in q.open[u].batch :: id
  }

  predicate Locked(q: Queue, id: EventId) {
    exists u <- q.open :: id in q.open[u].batch
  }

  /** Inserted events are new, locked rows are not amended, a transaction selects once and takes a batch. */
  predicate Admitted(q: Queue, e: Event) {
    match e
    case Tick(_) => true
    case Insert(id, _, _, _) => id !in q.rows
    case Amend(id, _, _) => id in q.rows && !Locked(q, id)
    case Open(t, _, _, _, _) => t !in q.open
    case Select(t, batch) =>
      t in q.open && q.open[t].batch == [] && IsBatch(q.rows, LockedByOthers(q, t), q.open[t].claim, batch)
    case Commit(t) => t in q.open
    case Abort(t) => t in q.open
  }

  function Lendings(batch: seq<EventId>, c: Claim): seq<Lent> {
    seq(|batch|, i requires 0 <= i < |batch| => Lent(batch[i], c.worker, c.now, c.now + c.lease))
  }

  function Next(q: Queue, e: Event): Queue
    requires Admitted(q, e)
  {
    match e
    case Tick(elapsed) => q.(clock := q.clock + elapsed)
    case Insert(id, tenant, createdAt, nextAttemptAt) =>
      q.(rows := q.rows[id := Row(tenant, Pending, createdAt, nextAttemptAt, None, None, 0)])
    case Amend(id, status, nextAttemptAt) =>
      q.(rows := q.rows[id := q.rows[id].(status := status, nextAttemptAt := nextAttemptAt)])
    case Open(t, tenant, worker, batchSize, lease) =>
      q.(open := q.open[t := Transaction(Claim(tenant, worker, q.clock, batchSize, lease), [])])
    case Select(t, batch) => q.(open := q.open[t := q.open[t].(batch := batch)])
    case Commit(t) =>
      q.(rows := LeaseAll(q.rows, q.open[t].batch, q.open[t].claim), open := q.open - {t},
         history := q.history + Lendings(q.open[t].batch, q.open[t].claim))
    case Abort(t) => q.(open := q.open - {t})
  }

  predicate AllAdmitted(q: Queue, es: seq<Event>)
    decreases es
  {
    es == [] || (Admitted(q, es[0]) && AllAdmitted(Next(q, es[0]), es[1..]))
  }

  function After(q: Queue, es: seq<Event>): Queue
    requires AllAdmitted(q, es)
    decreases es
  {
    if es == [] then q else After(Next(q, es[0]), es[1..])
  }

  // The invariant.

  function TimesLent(history: seq<Lent>, id: EventId): nat {
    if history == [] then 0
    else TimesLent(history[..|history| - 1], id) + if history[|history| - 1].id == id then 1 else 0
  }

  function LastLease(history: seq<Lent>, id: EventId): Option<Lent> {
    if history == [] then None
    else if history[|history| - 1].id == id then Some(history[|history| - 1])
    else LastLease(history[..|history| - 1], id)
  }

  /** The lease columns of every row are those of its last lease. */
  ghost predicate ColumnsShowLastLease(q: Queue) {
    forall id <- q.rows ::
      match LastLease(q.history, id)
      case None => q.rows[id].leasedUntil == None && q.rows[id].leaseOwner == None
      case Some(l) => q.rows[id].leasedUntil == Some(l.until) && q.rows[id].leaseOwner == Some(l.worker)
  }

  /** Leases of one event never overlap: the later one starts after the earlier one has expired. */
  predicate Exclusive(history: seq<Lent>) {
    forall i, j | 0 <= i < j < |history| && history[i].id == history[j].id :: history[i].until < history[j].from
  }

  /** A row carries the end of its last lease and the number of its leases. */
  ghost predicate RowsRemember(q: Queue) {
    && (forall l <- q.history :: l.id in q.rows && l.from <= q.clock && l.from <= l.until
          && q.rows[l.id].leasedUntil.Some? && l.until <= q.rows[l.id].leasedUntil.value)
    && (forall id :: TimesLent(q.history, id) == if id in q.rows then q.rows[id].attemptCount else 0)
  }

  /** A selected row stays eligible until its transaction ends, and no other transaction holds it. */
  predicate LocksHold(q: Queue) {
    && (forall t <- q.open :: q.open[t].claim.now <= q.clock && Distinct(q.open[t].batch)
          && forall id <- q.open[t].batch :: id in q.rows && Eligible(q.rows[id], q.open[t].claim))
    && (forall t, u, id | t in q.open && u in q.open && t != u && id in q.open[t].batch :: id !in q.open[u].batch)
  }

  ghost predicate Consistent(q: Queue) {
    Exclusive(q.history) && RowsRemember(q) && LocksHold(q) && ColumnsShowLastLease(q)
  }

  lemma {:induction false} TimesLentAfter(history: seq<Lent>, batch: seq<EventId>, c: Claim, id: EventId)
    requires Distinct(batch)
    ensures TimesLent(history + Lendings(batch, c), id) == TimesLent(history, id) + if id in batch then 1 else 0
  {
    if batch == [] {
      assert history + Lendings(batch, c) == history;
    } else {
      var init, last := batch[..|batch| - 1], batch[|batch| - 1];
      var all := history + Lendings(batch, c);
      assert all[..|all| - 1] == history + Lendings(init, c);
      TimesLentAfter(history, init, c, id);
      assert batch == init + [last];
    }
  }

  lemma CommitKeepsExclusive(q: Queue, t: TransactionId)
    requires Consistent(q) && t in q.open
    ensures Exclusive(Next(q, Commit(t)).history)
  {
    var v, batch := Next(q, Commit(t)), q.open[t].batch;
    assert forall n | |q.history| <= n < |v.history| :: v.history[n].id == batch[n - |q.history|];
    forall i, j | 0 <= i < j < |v.history| && v.history[i].id == v.history[j].id
      ensures v.history[i].until < v.history[j].from
    {
      if i < |q.history| <= j {
        assert q.history[i] in q.history && batch[j - |q.history|] in batch;
      }
    }
  }

  lemma CommitKeepsRows(q: Queue, t: TransactionId)
    requires Consistent(q) && t in q.open
    ensures RowsRemember(Next(q, Commit(t)))
  {
    var v, batch, c := Next(q, Commit(t)), q.open[t].batch, q.open[t].claim;
    forall id ensures TimesLent(v.history, id) == if id in v.rows then v.rows[id].attemptCount else 0 {
      TimesLentAfter(q.history, batch, c, id);
    }
    forall l | l in v.history
      ensures l.id in v.rows && l.from <= v.clock && l.from <= l.until
      ensures v.rows[l.id].leasedUntil.Some? && l.until <= v.rows[l.id].leasedUntil.value
    {
      if l !in q.history {
        var i :| 0 <= i < |batch| && l == Lendings(batch, c)[i];
        assert batch[i] in batch;
      }
    }
  }

  lemma CommitKeepsLocks(q: Queue, t: TransactionId)
    requires Consistent(q) && t in q.open
    ensures LocksHold(Next(q, Commit(t)))
  {
    var v := Next(q, Commit(t));
    forall u, id | u in v.open && id in v.open[u].batch ensures id in v.rows && Eligible(v.rows[id], v.open[u].claim) {
      assert id !in q.open[t].batch;
    }
  }

  lemma {:induction false} LastLeaseAfter(history: seq<Lent>, batch: seq<EventId>, c: Claim, id: EventId)
    ensures LastLease(history + Lendings(batch, c), id) ==
              if id in batch then Some(Lent(id, c.worker, c.now, c.now + c.lease)) else LastLease(history, id)
  {
    if batch == [] {
      assert history + Lendings(batch, c) == history;
    } else {
      var init, last := batch[..|batch| - 1], batch[|batch| - 1];
      var all := history + Lendings(batch, c);
      assert all[..|all| - 1] == history + Lendings(init, c);
      LastLeaseAfter(history, init, c, id);
      assert batch == init + [last];
    }
  }

  lemma CommitKeepsColumns(q: Queue, t: TransactionId)
    requires Consistent(q) && t in q.open
    ensures ColumnsShowLastLease(Next(q, Commit(t)))
  {
    var v, batch, c := Next(q, Commit(t)), q.open[t].batch, q.open[t].claim;
    forall id | id in v.rows
      ensures LastLease(v.history, id) == if id in batch then Some(Lent(id, c.worker, c.now, c.now + c.lease))
                                          else LastLease(q.history, id)
    {
      LastLeaseAfter(q.history, batch, c, id);
    }
  }

  lemma {:induction false} LastLeaseIsInHistory(history: seq<Lent>, id: EventId)
    ensures LastLease(history, id).Some? ==>
        LastLease(history, id).value in history && LastLease(history, id).value.id == id
  {
    if history != [] { LastLeaseIsInHistory(history[..|history| - 1], id); }
  }

  lemma SelectKeeps(q: Queue, t: TransactionId, batch: seq<EventId>)
    requires Consistent(q) && Admitted(q, Select(t, batch))
    ensures Consistent(Next(q, Select(t, batch)))
  {
    forall u, id | u in q.open && u != t && id in q.open[u].batch ensures id !in batch {
      assert id in LockedByOthers(q, t);
    }
  }

  lemma InsertKeeps(q: Queue, id: EventId, tenant: string, createdAt: Time, nextAttemptAt: Time)
    requires Consistent(q) && id !in q.rows
    ensures Consistent(Next(q, Insert(id, tenant, createdAt, nextAttemptAt)))
  {
    LastLeaseIsInHistory(q.history, id);
  }

  lemma AmendKeeps(q: Queue, id: EventId, status: Status, nextAttemptAt: Time)
    requires Consistent(q) && Admitted(q, Amend(id, status, nextAttemptAt))
    ensures Consistent(Next(q, Amend(id, status, nextAttemptAt)))
  {
  }

  lemma NextKeepsConsistent(q: Queue, e: Event)
    requires Consistent(q) && Admitted(q, e)
    ensures Consistent(Next(q, e))
  {
    match e
    case Insert(id, tenant, createdAt, nextAttemptAt) => InsertKeeps(q, id, tenant, createdAt, nextAttemptAt);
    case Amend(id, status, nextAttemptAt) => AmendKeeps(q, id, status, nextAttemptAt);
    case Select(t, batch) => SelectKeeps(q, t, batch);
    case Commit(t) =>
      CommitKeepsExclusive(q, t);
      CommitKeepsRows(q, t);
      CommitKeepsLocks(q, t);
      CommitKeepsColumns(q, t);
    case _ =>
  }

  lemma {:induction false} RunsStayConsistent(q: Queue, es: seq<Event>)
    requires Consistent(q) && AllAdmitted(q, es)
    ensures Consistent(After(q, es))
    decreases es
  {
    if es != [] {
      NextKeepsConsistent(q, es[0]);
      RunsStayConsistent(Next(q, es[0]), es[1..]);
    }
  }

  /** In any interleaving of transactions, ticks, insertions and amendments: of two leases of one event the
      earlier has expired before the later starts, so at most one is unexpired now; no event is held by two open
      transactions; the attempt count is the number of leases and
      the lease columns are those of the last one. */
  lemma LeasesExclude(start: Time, es: seq<Event>)
    requires AllAdmitted(Queue(start, map[], map[], []), es)
    ensures var q := After(Queue(start, map[], map[], []), es);
            && (forall i, j | 0 <= i < j < |q.history| && q.history[i].id == q.history[j].id ::
                  q.history[i].until < q.history[j].from <= q.clock)
            && (forall t, u, id | t in q.open && u in q.open && t != u && id in q.open[t].batch ::
                id !in q.open[u].batch)
            && (forall id <- q.rows :: q.rows[id].attemptCount == TimesLent(q.history, id))
            && ColumnsShowLastLease(q)
  {
    RunsStayConsistent(Queue(start, map[], map[], []), es);
    var q := After(Queue(start, map[], map[], []), es);
    forall j | 0 <= j < |q.history| ensures q.history[j].from <= q.clock { assert q.history[j] in q.history; }
  }

  /** A held lease protects its event: while it is unexpired no transaction that opens can select the event. */
  lemma UnexpiredLeasesAreSkipped(q: Queue, l: Lent, locked: set<EventId>, c: Claim, batch: seq<EventId>)
    requires Consistent(q) && l in q.history && l.until >= c.now && IsBatch(q.rows, locked, c, batch)
    ensures l.id !in batch
  {
  }

  // Which events are taken, told by their columns.

  /** Every event of a batch is an unfinished one of the tenant whose time has come and that nobody holds. */
  lemma BatchesAreDue(rows: map<EventId, Row>, locked: set<EventId>, c: Claim, batch: seq<EventId>, id: EventId)
    requires IsBatch(rows, locked, c, batch) && id in batch
    ensures id in rows && id !in locked && rows[id].tenant == c.tenant
    ensures rows[id].status == Pending || rows[id].status == Processing
    ensures rows[id].nextAttemptAt <= c.now
    ensures rows[id].leasedUntil.Some? ==> rows[id].leasedUntil.value < c.now
  {
    assert id in Available(rows, locked, c);
  }

  /** And an event like that is only left out of a full batch, for events at least as old. */
  lemma DueEventsAreTaken(rows: map<EventId, Row>, locked: set<EventId>, c: Claim, batch: seq<EventId>, id: EventId)
    requires IsBatch(rows, locked, c, batch) && id !in batch
    requires id in rows && id !in locked && rows[id].tenant == c.tenant && rows[id].nextAttemptAt <= c.now
    requires rows[id].status != Published && rows[id].status != DeadLetter
    requires rows[id].leasedUntil.None? || rows[id].leasedUntil.value < c.now
    ensures |batch| == c.batchSize
    ensures forall x <- batch :: x in rows && rows[x].createdAt <= rows[id].createdAt
  {
    var available, taken := Available(rows, locked, c), set x | x in batch;
    assert id in available;
    DistinctCardinality(batch, taken);
    SubsetIsSmaller(taken, available - {id});
    BatchIsInTable(rows, locked, c, batch);
  }

  lemma {:induction false} SubsetIsSmaller(a: set<EventId>, b: set<EventId>)
    requires a <= b
    ensures |a| <= |b|
  {
    if a != {} {
      var x :| x in a;
      SubsetIsSmaller(a - {x}, b - {x});
    }
  }

  /** A published or dead event is never leased again, unless someone amends it. */
  lemma {:induction false} FinishedEventsStay(q: Queue, es: seq<Event>, id: EventId)
    requires Consistent(q) && AllAdmitted(q, es) && id in q.rows
    requires q.rows[id].status == Published || q.rows[id].status == DeadLetter
    requires forall e <- es :: !(e.Amend? && e.id == id)
    ensures id in After(q, es).rows && After(q, es).rows[id] == q.rows[id]
    ensures TimesLent(After(q, es).history, id) == TimesLent(q.history, id)
    decreases es
  {
    if es != [] {
      FinishedEventStays(q, es[0], id);
      NextKeepsConsistent(q, es[0]);
      FinishedEventsStay(Next(q, es[0]), es[1..], id);
    }
  }

  lemma FinishedEventStays(q: Queue, e: Event, id: EventId)
    requires Consistent(q) && Admitted(q, e) && id in q.rows && !(e.Amend? && e.id == id)
    requires q.rows[id].status == Published || q.rows[id].status == DeadLetter
    ensures id in Next(q, e).rows && Next(q, e).rows[id] == q.rows[id]
    ensures TimesLent(Next(q, e).history, id) == TimesLent(q.history, id)
  {
    if e.Commit? {
      assert id !in q.open[e.t].batch;
      TimesLentAfter(q.history, q.open[e.t].batch, q.open[e.t].claim, id);
    }
  }

  /** From opening to commit: whatever happens meanwhile, the events selected are leased from the time the transaction
      opened, for the length asked for, to its worker. */
  lemma LeasesRunFromOpening(q: Queue, open: Event, es: seq<Event>, id: EventId)
    requires Consistent(q) && open.Open? && Admitted(q, open) && AllAdmitted(Next(q, open), es)
    requires forall e <- es :: e != Commit(open.t) && e != Abort(open.t)
    ensures var u := After(Next(q, open), es);
            && Admitted(u, Commit(open.t))
            && (id in u.rows && id !in u.open[open.t].batch ==>
                  id in Next(u, Commit(open.t)).rows && Next(u, Commit(open.t)).rows[id] == u.rows[id])
            && (id in u.open[open.t].batch ==>
                  && id in u.rows && u.rows[id].tenant == open.tenant && id in Next(u, Commit(open.t)).rows
                  && Leased(u.rows[id], Next(u, Commit(open.t)).rows[id], open.worker, q.clock + open.lease))
  {
    NextKeepsConsistent(q, open);
    RunsStayConsistent(Next(q, open), es);
    ClaimsStay(Next(q, open), es, open.t);
    CommitLeases(After(Next(q, open), es), open.t, id);
  }

  /** One attempt further, with a worker until some time, and otherwise as before. */
  predicate Leased(before: Row, after: Row, worker: string, until: Time) {
    && after.status == Processing && after.leaseOwner == Some(worker) && after.leasedUntil == Some(until)
    && after.attemptCount == before.attemptCount + 1 && after.tenant == before.tenant
    && after.createdAt == before.createdAt && after.nextAttemptAt == before.nextAttemptAt
  }

  lemma CommitLeases(q: Queue, t: TransactionId, id: EventId)
    requires Consistent(q) && t in q.open
    ensures var c, after := q.open[t].claim, Next(q, Commit(t)).rows;
            && (id in q.rows && id !in q.open[t].batch ==> id in after && after[id] == q.rows[id])
            && (id in q.open[t].batch ==>
                  && id in q.rows && q.rows[id].tenant == c.tenant && id in after
                  && Leased(q.rows[id], after[id], c.worker, c.now + c.lease))
  {
  }

  lemma {:induction false} ClaimsStay(q: Queue, es: seq<Event>, t: TransactionId)
    requires AllAdmitted(q, es) && t in q.open && forall e <- es :: e != Commit(t) && e != Abort(t)
    ensures t in After(q, es).open && After(q, es).open[t].claim == q.open[t].claim
    decreases es
  {
    if es != [] {
      assert es[0] in es && forall e <- es[1..] :: e in es;
      ClaimsStay(Next(q, es[0]), es[1..], t);
    }
  }
}
