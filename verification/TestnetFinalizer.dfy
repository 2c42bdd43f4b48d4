/** The finalizer program: one remote call after another, with others acting, lost answers and crashes between. */
module TestnetFinalizer {
  import opened Options
  import opened Sequences
  import opened Common
  import opened Ledger
  import opened ContractRuns
  import opened Issuance
  import opened HappyFinalizer
  import opened FinalizerPass

  /** What happens around one remote call: others act first, then the call is answered, its answer is lost
      after it took effect, or it never arrives. */
  datatype Turn = Turn(others: seq<Action>, fate: Fate)
  datatype Fate = Answered | AnswerLost | NeverArrives

  /** The next remote calls are answered and nobody else acts around them. */
  predicate Calm(script: seq<Turn>, n: nat) {
    n <= |script| && forall j | 0 <= j < n :: script[j] == Turn([], Answered)
  }

  /** Nobody else acts; calls may fail. */
  predicate Alone(script: seq<Turn>) {
    forall t <- script :: t.others == []
  }

  class TestnetHappyClaimFinalizer {
    const manifest: Manifest
    var chain: World
    var rows: map<ClaimId, ClaimRow>
    var projected: map<Key, ClaimState>
    var pending: set<ClaimId>
    var script: seq<Turn>
    ghost const start: Sys
    ghost var trace: seq<Action>

    function State(): Sys
      reads this
    {
      Sys(chain, rows, projected, pending)
    }

    /** The system is where the admitted actions recorded so far have taken it. */
    ghost predicate Valid()
      reads this
    {
      && State() == Acts(start, trace) && AllAdmitted(start, trace) && ProjectionBehind(start)
      && forall t <- script, a <- t.others :: AdmittedForOthers(a)
    }

    /** Other parties drive Issuer edges through the controller and leave promotion to the finalizer. */
    static predicate AdmittedForOthers(a: Action) {
      !a.Promote? && (a.Chain? ==> IssuerEdgesThroughController(a.i))
    }

    twostate predicate Grew()
      reads this
    {
      old(trace) <= trace && (Alone(old(script)) ==> Alone(script))
    }

    constructor (manifest: Manifest, s: Sys, script: seq<Turn>)
      requires ProjectionBehind(s) && forall t <- script, a <- t.others :: AdmittedForOthers(a)
      ensures Valid() && State() == s && this.manifest == manifest
    {
      this.manifest := manifest;
      chain, rows, projected, pending := s.chain, s.rows, s.projected, s.pending;
      this.script, start, trace := script, s, [];
    }

    /** Whatever this object has been through, crash safety holds of it. */
    lemma RunsAreSafe(k: Key, id: ClaimId)
      requires Valid()
      requires WindingDown(start.chain, k) && start.chain.lifecycle.claims[k].state.Repaid?
      requires id in start.rows && start.rows[id].claimKey == k && start.rows[id].state.Repaid?
      ensures Safe(start, State(), k, id)
    {
      CrashSafety(start, trace, k, id);
    }

    /** One action happens. */
    method Happen(a: Action)
      requires Valid() && Admitted(State(), a)
      modifies this
      ensures Valid() && Grew() && trace == old(trace) + [a] && script == old(script)
      ensures State() == Act(old(State()), a)
    {
      ActsAppend(start, trace, a);
      var next := Act(State(), a);
      chain, rows, projected, pending := next.chain, next.rows, next.projected, next.pending;
      trace := trace + [a];
      assert chain == next.chain && rows == next.rows && projected == next.projected && pending == next.pending;
      assert State() == next;
    }

    /** Wait for a remote call: others act, then its fate is known. An exhausted script is a crash. */
    method Await() returns (fate: Fate)
      requires Valid()
      modifies this
      ensures Valid() && Grew()
      ensures Calm(old(script), 1) ==> fate.Answered? && script == old(script)[1..]
      ensures Calm(old(script), 1) || Alone(old(script)) ==> State() == old(State())
    {
      if script == [] { return NeverArrives; }
      var turn := script[0];
      script := script[1..];
      for j := 0 to |turn.others|
        invariant Valid() && Grew() && script == old(script)[1..]
        invariant turn.others == [] ==> State() == old(State())
      {
        assert AdmittedForOthers(turn.others[j]);
        Happen(turn.others[j]);
      }
      return turn.fate;
    }

    /** `assertSimulated`: a call that would fail is never sent. */
    method Simulate(i: Invocation) returns (ok: bool)
      requires Valid()
      modifies this
      ensures Valid() && Grew()
      ensures Calm(old(script), 1) ==> ok == Plan(old(chain), i).Ok? && script == old(script)[1..]
      ensures Calm(old(script), 1) || Alone(old(script)) ==> State() == old(State())
    {
      var fate := Await();
      return fate.Answered? && Plan(chain, i).Ok?;
    }

    /** Submit one transaction; false when it is not known to have succeeded. */
    method Send(i: Invocation) returns (ok: bool)
      requires Valid() && IssuerEdgesThroughController(i)
      modifies this
      ensures Valid() && Grew()
      ensures ok && i.call.CloseClaim? ==> ChainClosed(chain, i.call.k)
      ensures Calm(old(script), 1) ==>
                ok == Plan(old(chain), i).Ok? && State() == Act(old(State()), Chain(i)) && script == old(script)[1..]
      ensures Alone(old(script)) ==>
                State() == Act(old(State()), Chain(i)) || (!ok && State() == old(State()))
    {
      var fate := Await();
      if fate.NeverArrives? { return false; }
      var success := Plan(chain, i).Ok?;
      if i.call.CloseClaim? { ClosedStaysClosed(chain, i, i.call.k); }
      Happen(Chain(i));
      return success && fate.Answered?;
    }

    method Candidates(order: seq<ClaimId>) returns (result: seq<Candidate>)
      ensures result == CandidatesOf(State(), order)
    {
      result := [];
      for j := 0 to |order|
        invariant result == CandidatesOf(State(), order[..j])
      {
        if order[j] in rows && rows[order[j]].state.Repaid? && rows[order[j]].claimKey in projected {
          var row := rows[order[j]];
          result := result + [Candidate(order[j], row.claimKey, projected[row.claimKey], order[j] in pending)];
        }
        assert order[..j + 1][..j] == order[..j];
      }
      assert order[..|order|] == order;
    }

    /** Redeem what is still issued, if anything is. */
    method RedeemOutstanding(k: Key) returns (ok: bool)
      requires Valid()
      modifies this
      ensures Valid() && Grew()
      ensures Calm(old(script), 3) ==> (ok <==> Redeemable(manifest, old(State()), k))
      ensures Calm(old(script), 3) && !ok ==> State() == old(State())
      ensures Calm(old(script), 3) && ok ==>
                script == old(script)[if old(chain).controller.Outstanding(k) == 0 then 1 else 3..]
      ensures Calm(old(script), 3) || Alone(old(script)) ==>
                State() == AfterRedeem(manifest, old(State()), k) || (!ok && State() == old(State()))
    {
      var lookup := Await();
      if !lookup.Answered? { return false; }
      var issuedBaseUnits := chain.controller.Outstanding(k);
      if issuedBaseUnits < 0 { return false; }
      if issuedBaseUnits == 0 { return true; }
      var redeem := RedeemCall(manifest, k, issuedBaseUnits);
      ok := Simulate(redeem);
      if ok { ok := Send(redeem); }
    }

    /** `release_unused_first_loss`, simulated and sent; it touches nothing modelled here. */
    method Release() returns (ok: bool)
      requires Valid()
      modifies this
      ensures Valid() && Grew()
      ensures Calm(old(script), 2) ==> ok && script == old(script)[2..]
      ensures Calm(old(script), 2) || Alone(old(script)) ==> State() == old(State())
    {
      var simulated := Await();
      if !simulated.Answered? { return false; }
      var sent := Await();
      return sent.Answered?;
    }

    /** Close on chain. */
    method Close(k: Key) returns (ok: bool)
      requires Valid()
      modifies this
      ensures Valid() && Grew()
      ensures ok ==> ChainClosed(chain, k)
      ensures Calm(old(script), 2) ==> ok == Plan(old(chain), CloseCall(manifest, k)).Ok?
      ensures Calm(old(script), 2) && ok ==> script == old(script)[2..]
      ensures Calm(old(script), 2) || Alone(old(script)) ==>
                State() == AfterClose(manifest, old(State()), k) || (!ok && State() == old(State()))
      ensures Calm(old(script), 2) && !ok ==> State() == old(State())
    {
      ok := Simulate(CloseCall(manifest, k));
      if ok { ok := Send(CloseCall(manifest, k)); }
    }

    /** `#expectClose` */
    method ExpectClose(id: ClaimId) returns (ok: bool)
      requires Valid()
      modifies this
      ensures Valid() && Grew()
      ensures Calm(old(script), 1) ==> ok && script == old(script)[1..]
      ensures Calm(old(script), 1) || Alone(old(script)) ==>
                State() == Act(old(State()), Record(id)) || (!ok && State() == old(State()))
    {
      var commit := Await();
      if commit.NeverArrives? { return false; }
      Happen(Record(id));
      return commit.Answered?;
    }

    /** `#promoteIndexedClose` */
    method PromoteIndexedClose(id: ClaimId) returns (ok: bool)
      requires Valid() && ProjectedClosed(State(), id)
      modifies this
      ensures Valid() && Grew()
      ensures ok ==> RowClosed(State(), id)
      ensures Calm(old(script), 1) ==> ok && State() == Act(old(State()), Promote(id)) && script == old(script)[1..]
    {
      ghost var before := trace;
      var commit := Await();
      if commit.NeverArrives? { return false; }
      LongerIsLater(start, before, trace);
      Happen(Promote(id));
      return commit.Answered?;
    }

    /** Close on chain, then record the expected reconciliation. */
    method CloseAndRecord(c: Candidate, ghost ahead: nat) returns (ok: bool)
      requires Valid()
      modifies this
      ensures Valid() && Grew()
      ensures ok ==> ChainClosed(chain, c.claimKey)
      ensures Calm(old(script), 3 + ahead) && Plan(old(chain), CloseCall(manifest, c.claimKey)).Ok? ==>
                ok && State() == Act(AfterClose(manifest, old(State()), c.claimKey), Record(c.claimId))
                    && Calm(script, ahead)
      ensures Calm(old(script), 2) && !Plan(old(chain), CloseCall(manifest, c.claimKey)).Ok? ==>
                !ok && State() == old(State())
      ensures Alone(old(script)) ==> ClosedPartway(old(State()), c, State())
    {
      ok := Close(c.claimKey);
      if !ok { return; }
      ghost var closed := trace;
      ok := ExpectClose(c.claimId);
      LongerIsLater(start, closed, trace);
    }

    ghost predicate ClosedPartway(s: Sys, c: Candidate, t: Sys) {
      var closed := AfterClose(manifest, s, c.claimKey);
      t == s || t == closed || t == Act(closed, Record(c.claimId))
    }

    /** Redeem and release. */
    method RedeemAndRelease(k: Key, ghost ahead: nat) returns (ok: bool)
      requires Valid()
      modifies this
      ensures Valid() && Grew()
      ensures Calm(old(script), 5 + ahead) ==>
                if Redeemable(manifest, old(State()), k)
                then ok && State() == AfterRedeem(manifest, old(State()), k) && Calm(script, ahead)
                else !ok && State() == old(State())
      ensures Alone(old(script)) ==>
                State() == AfterRedeem(manifest, old(State()), k) || (!ok && State() == old(State()))
    {
      ok := RedeemOutstanding(k);
      if ok { ok := Release(); }
    }

    /** Redeem, release, close and record. Undisturbed, it succeeds exactly if the redemption and the close do, and
        always leaves what `FinishLeaves` says; where no redeemed claim owes tokens, that is for the workable claims.
        If nobody else acts, a crash leaves one of the steps of the finish. */
    method Finish(c: Candidate, ghost ahead: nat) returns (ok: bool)
      requires Valid()
      modifies this
      ensures Valid() && Grew()
      ensures ok ==> ChainClosed(chain, c.claimKey)
      ensures Calm(old(script), 8 + ahead) ==>
                && (ok <==> Succeeds(manifest, old(State()), c.claimKey))
                && State() == FinishLeaves(manifest, old(State()), c) && (ok ==> Calm(script, ahead))
      ensures Calm(old(script), 8 + ahead) && NoneOwed(old(chain)) ==>
                (ok <==> Workable(manifest, old(State()), c.claimKey))
      ensures Alone(old(script)) ==> Partway(manifest, old(State()), c, State())
    {
      SucceedsIffWorkable(manifest, State(), c.claimKey);
      ghost var enough := if Calm(script, 8 + ahead) then 3 + ahead else 3;
      ok := RedeemAndRelease(c.claimKey, enough);
      if ok { ok := CloseAndRecord(c, ahead); }
    }

    /** One candidate: promote it, skip it while pending, or take it through redeem, release and close. */
    method Handle(c: Candidate, ghost ahead: nat) returns (ok: bool)
      requires Valid() && Expected(State(), c)
      modifies this
      ensures Valid() && Grew()
      ensures ok ==> Finished(State(), c)
      ensures Calm(old(script), 8 + ahead) ==>
                && (ok <==> (TakenUp(c) ==> Succeeds(manifest, old(State()), c.claimKey)))
                && State() == HandleLeaves(manifest, old(State()), c) && (ok ==> Calm(script, ahead))
    {
      if c.projectedState.Closed? {
        ghost var before := trace;
        ok := PromoteIndexedClose(c.claimId);
        LongerIsLater(start, before, trace);
      } else if c.pending {
        return true;
      } else {
        ok := Finish(c, ahead);
      }
    }

    /** An undisturbed pass from `s` has completed the first `j` candidates. */
    ghost predicate OnTrack(s: Sys, found: seq<Candidate>, j: nat)
      requires j <= |found|
      reads this
    {
      && Completes(manifest, s, found[..j]) && State() == PassOver(manifest, s, found[..j])
      && Calm(script, 8 * (|found| - j))
    }

    /** Where an undisturbed pass from `s` has failed. */
    ghost predicate Stopped(s: Sys, found: seq<Candidate>)
      reads this
    {
      !Completes(manifest, s, found) && State() == PassLeaves(manifest, s, found)
    }

    /** Handle one candidate of a list without losing what is known about the others. */
    method HandleNext(found: seq<Candidate>, j: nat, ghost s: Sys, ghost calm: bool) returns (ok: bool)
      requires Valid() && j < |found| && Going(State(), found, j) && (calm ==> OnTrack(s, found, j))
      modifies this
      ensures Valid() && Grew()
      ensures ok ==> Going(State(), found, j + 1) && (calm ==> OnTrack(s, found, j + 1))
      ensures !ok && calm ==> Stopped(s, found)
    {
      CompletesAppend(manifest, s, found, j);
      ghost var before := trace;
      ok := Handle(found[j], 8 * (|found| - j - 1));
      LongerIsLater(start, before, trace);
      GoingPersists(Acts(start, before), State(), found, j);
      assert found[..|found|] == found;
      if !ok && calm { StopsAt(manifest, s, found, j + 1, |found|); }
    }

    /** The loop over the candidates; `None` when it throws. */
    method Pass(found: seq<Candidate>) returns (finalized: Option<nat>)
      requires Valid() && Going(State(), found, 0)
      modifies this
      ensures Valid() && Grew()
      ensures finalized.Some? ==> finalized.value == HandledCount(found) && Going(State(), found, |found|)
      ensures Calm(old(script), 8 * |found|) ==>
                && (finalized.Some? <==> Completes(manifest, old(State()), found))
                && State() == PassLeaves(manifest, old(State()), found)
    {
      var count := 0;
      ghost var s, calm := State(), Calm(script, 8 * |found|);
      for j := 0 to |found|
        invariant Valid() && Grew() && count == HandledCount(found[..j]) && Going(State(), found, j)
        invariant calm ==> OnTrack(s, found, j)
      {
        CompletesAppend(manifest, s, found, j);
        var ok := HandleNext(found, j, s, calm);
        if !ok { return None; }
        if found[j].projectedState.Closed? || !found[j].pending { count := count + 1; }
      }
      assert found[..|found|] == found;
      if calm { CompletePassIsOver(manifest, s, found); }
      return Some(count);
    }

    /** One pass of the polling loop; `None` when it throws. `queried` is where in the trace the query was answered,
        and `order` the order in which it read the rows. If the pass completes, it has counted and handled exactly
        the candidates of that moment: those not skipped are Closed on chain, those projected CLOSED are CLOSED in
        the database, and none was stranded. Undisturbed, it completes exactly if every finish succeeds in its turn,
        which is when all are ready as long as no redeemed claim owes tokens, and it always leaves what `PassLeaves`
        says: it stops at the first finish that throws, with the redemption of that claim if it went through. It
        leaves every claim alone that no REPAID row carries. */
    method FinalizeRepaidClaims(order: seq<ClaimId>) returns (finalized: Option<nat>, ghost queried: nat)
      requires Valid() && Distinct(order) && forall id :: id in order <==> id in rows
      modifies this
      ensures Valid() && Grew() && |old(trace)| <= queried <= |trace|
      ensures forall id :: id in order <==> id in Acts(start, trace[..queried]).rows
      ensures finalized.Some? ==>
                finalized.value == HandledCount(CandidatesOf(Acts(start, trace[..queried]), order))
      ensures finalized.Some? ==>
                forall c <- CandidatesOf(Acts(start, trace[..queried]), order) ::
                  Finished(State(), c) && (TakenUp(c) ==> !Stranded(Acts(start, trace[..queried]).chain, c.claimKey))
      ensures Calm(old(script), 1 + 8 * |order|) ==>
                var s, found := old(State()), CandidatesOf(old(State()), order);
                && Acts(start, trace[..queried]) == s
                && (finalized.Some? <==> Completes(manifest, s, found))
                && State() == PassLeaves(manifest, s, found)
                && (NoneOwed(s.chain) ==> (finalized.Some? <==> Ready(manifest, s, found)))
      ensures Calm(old(script), 1 + 8 * |order|) ==>
                forall k :: (forall id <- old(rows) :: old(rows)[id].state.Repaid? ==> old(rows)[id].claimKey != k) ==>
                  SameClaim(old(State()), State(), k)
    {
      ghost var before := trace;
      var read := Await();
      LongerIsLater(start, before, trace);
      queried := |trace|;
      assert trace[..queried] == trace;
      if !read.Answered? { return None, queried; }
      ghost var s := State();
      var found := Candidates(order);
      CandidatesAreExpected(s, order);
      CandidatesAreQualifyingRows(s, order);
      ghost var query := trace;
      finalized := Pass(found);
      assert trace[..queried] == query;
      LongerIsLater(start, query, trace);
      if finalized.Some? { HandledWereNotStranded(s, State(), found); }
      if NoneOwed(s.chain) { CompletesIffReady(manifest, s, found); }
      forall k | forall id <- s.rows :: s.rows[id].state.Repaid? ==> s.rows[id].claimKey != k
        ensures SameClaim(s, PassLeaves(manifest, s, found), k)
      {
        OnlyRepaidRowsAreTakenUp(manifest, s, order, k);
      }
    }
  }

  lemma HandledWereNotStranded(s: Sys, t: Sys, found: seq<Candidate>)
    requires Later(s, t) && Going(t, found, |found|)
    ensures forall c <- found :: Finished(t, c) && (TakenUp(c) ==> !Stranded(s.chain, c.claimKey))
  {
    forall c | c in found ensures Finished(t, c) && (TakenUp(c) ==> !Stranded(s.chain, c.claimKey)) {
      var i :| 0 <= i < |found| && found[i] == c;
      assert Finished(t, found[i]);
      if TakenUp(c) { FinishedWereNotStranded(s, t, c); }
    }
  }
}
